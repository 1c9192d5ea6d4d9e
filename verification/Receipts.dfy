/**
 Where one unicast frame is, from the sender's egress through the switch's memory and the
 destination's custody (h-app/core/receipts.py): it is in at most one list, and only moves forward.
 */
module Receipts {
  import opened Prelude
  import C = Custody
  import S = CustodySafety
  import Evidence = CustodyEvidence
  import Flow = CustodyFlow

  /** The 32 bytes at the header's fixed offset: string.sub(raw, 2, 33). */
  function IdOf(raw: Raw): Raw {
    if |raw| <= 1 then [] else if |raw| <= 33 then raw[1..] else raw[1..33]
  }

  datatype Move =
    | Send(raw: Raw)           // the sender's RPUSH to its own egress
    | Pop                      // the switch takes the head of that egress
    | Drop                     // the switch dies, or gives the frame up unplaced
    | Forward(stamped: Raw)    // the popped frame, edited, is admitted to the destination
    | Bounce(stamped: Raw)     // ... or put in the sender's dead list
    | TrimBounced(cap: nat)
    | Elsewhere(e: C.Event)    // ports, retirement, retention, and the switch with other frames

  /** The sender's side, and everything that happened on the destination's side. */
  datatype Pipe = Pipe(egress: seq<Raw>, hand: Option<Raw>, dropped: seq<Raw>, bounced: seq<Raw>, bouncedLog: seq<Raw>,
      trace: seq<C.Event>)

  const START := Pipe([], None, [], [], [], [])

  predicate Holding(p: Pipe, stamped: Raw) { p.hand.Some? && IdOf(stamped) == IdOf(p.hand.value) }

  function Apply(p: Pipe, m: Move): Pipe {
    match m
    case Send(raw) => p.(egress := p.egress + [raw])
    case Pop => if p.egress == [] || p.hand.Some? then p else p.(egress := p.egress[1..], hand := Some(p.egress[0]))
    case Drop => if p.hand.None? then p else p.(hand := None, dropped := p.dropped + [p.hand.value])
    case Forward(stamped) => if Holding(p, stamped) then p.(hand := None, trace := p.trace + [C.Admit(stamped)]) else p
    case Bounce(stamped) =>
      if Holding(p, stamped) then p.(hand := None, bounced := p.bounced + [stamped], bouncedLog := p.bouncedLog + [stamped]) else p
    case TrimBounced(cap) => p.(bounced := KeepLast(p.bounced, cap))
    case Elsewhere(e) => p.(trace := p.trace + [e])
  }

  function Run(moves: seq<Move>): Pipe
    decreases |moves|
  {
    if moves == [] then START else Apply(Run(moves[..|moves| - 1]), moves[|moves| - 1])
  }

  function Office(cfg: C.Config, p: Pipe): C.Sys { C.Run(cfg, p.trace) }

  /** The frame is sent at most once, and no other frame carries its id. */
  ghost predicate SentOnce(moves: seq<Move>, id: Raw) {
    && (forall i, j :: 0 <= i < j < |moves| && moves[i].Send? && moves[j].Send? ==> !(IdOf(moves[i].raw) == id == IdOf(moves[j].raw)))
    && (forall i :: 0 <= i < |moves| && moves[i].Elsewhere? ==> Foreign(moves[i].e, id))
  }

  predicate Foreign(e: C.Event, id: Raw) { (e.Admit? || e.SwitchDead?) ==> IdOf(e.raw) != id }

  // ---- counting by id ----

  ghost function Count(s: seq<Raw>, id: Raw): nat {
    if s == [] then 0 else Count(s[..|s| - 1], id) + S.One(IdOf(s[|s| - 1]) == id)
  }

  lemma CountAppend(s: seq<Raw>, x: Raw, id: Raw)
    ensures Count(s + [x], id) == Count(s, id) + S.One(IdOf(x) == id)
  {
    assert (s + [x])[..|s|] == s;
  }

  lemma {:induction false} CountConcat(a: seq<Raw>, b: seq<Raw>, id: Raw)
    ensures Count(a + b, id) == Count(a, id) + Count(b, id)
    decreases |b|
  {
    if b == [] {
      assert a + b == a;
    } else {
      var n := |b| - 1;
      CountConcat(a, b[..n], id);
      assert b == b[..n] + [b[n]] && a + b == (a + b[..n]) + [b[n]];
      CountSnoc(a + b, a + b[..n], b[n], id);
      CountSnoc(b, b[..n], b[n], id);
    }
  }

  lemma CountSnoc(whole: seq<Raw>, s: seq<Raw>, x: Raw, id: Raw)
    requires whole == s + [x]
    ensures Count(whole, id) == Count(s, id) + S.One(IdOf(x) == id)
  {
    CountAppend(s, x, id);
  }

  lemma {:induction false} CountHas(s: seq<Raw>, id: Raw)
    ensures Count(s, id) > 0 <==> exists x :: x in s && IdOf(x) == id
    decreases |s|
  {
    if s != [] {
      CountHas(s[..|s| - 1], id);
      assert s == s[..|s| - 1] + [s[|s| - 1]];
    }
  }

  lemma CountRemove(s: seq<Raw>, x: Raw, id: Raw)
    requires x in s
    ensures Count(s, id) == Count(RemoveFirst(s, x), id) + S.One(IdOf(x) == id)
    decreases |s|
  {
    if s[0] == x {
      CountConcat([x], s[1..], id);
      assert s == [x] + s[1..];
      CountAppend([], x, id);
    } else {
      CountRemove(s[1..], x, id);
      CountConcat([s[0]], s[1..], id);
      CountConcat([s[0]], RemoveFirst(s[1..], x), id);
      assert s == [s[0]] + s[1..];
    }
  }

  /** Lists that are permutations of each other hold an id equally often. */
  lemma {:induction false} CountMultiset(a: seq<Raw>, b: seq<Raw>, id: Raw)
    requires multiset(a) == multiset(b)
    ensures Count(a, id) == Count(b, id)
    decreases |a|
  {
    if a == [] {
      assert |multiset(b)| == 0;
      assert b == [];
    } else {
      var n := |a| - 1;
      assert a == a[..n] + [a[n]];
      assert a[n] in multiset(b);
      CountMultiset(a[..n], RemoveFirst(b, a[n]), id);
      CountRemove(b, a[n], id);
    }
  }

  // ---- where the frame is ----

  /** How many copies of the frame each place holds, or ever held. */
  datatype Counts = Counts(
    egress: nat, hand: nat, ingress: nat, processing: nat, opening: nat, acknowledged: nat, dead: nat,
    unresolved: nat, undeliverable: nat, bounced: nat, dropped: nat)
  {
    function Sum(): nat {
      egress + hand + ingress + processing + opening + acknowledged + dead + unresolved + undeliverable + bounced + dropped
    }
  }

  ghost function CountsOf(p: Pipe, o: C.Sys, id: Raw): Counts {
    Counts(Count(p.egress, id), if p.hand.Some? then S.One(IdOf(p.hand.value) == id) else 0,
           Count(o.lists.ingress, id), Count(o.lists.processing, id), Count(o.lists.opening, id),
           Count(o.openedLog, id), Count(S.DeadOfReceive(o.deadLog), id), Count(S.Names(o.lists.unresolved), id),
           Count(o.lists.undeliverable, id), Count(p.bouncedLog, id), Count(p.dropped, id))
  }

  /** Stages in the order a frame passes them; the last six end its way. */
  datatype Place = Nowhere | AtEgress | InHand | AtIngress | AtProcessing | AtOpening
    | Opened | Dead | Unresolved | Undeliverable | Bounced | Dropped

  function Level(place: Place): nat {
    match place
    case Nowhere => 0
    case AtEgress => 1
    case InHand => 2
    case AtIngress => 3
    case AtProcessing => 4
    case AtOpening => 5
    case _ => 6
  }

  function PlaceOf(c: Counts): Place {
    if c.egress > 0 then AtEgress else if c.hand > 0 then InHand else if c.ingress > 0 then AtIngress
    else if c.processing > 0 then AtProcessing else if c.opening > 0 then AtOpening
    else if c.acknowledged > 0 then Opened else if c.dead > 0 then Dead else if c.unresolved > 0 then Unresolved
    else if c.undeliverable > 0 then Undeliverable else if c.bounced > 0 then Bounced
    else if c.dropped > 0 then Dropped else Nowhere
  }

  /** What one move may do to the counts. */
  predicate Moves(c: Counts, d: Counts) {
    && c.Sum() <= d.Sum() <= 1
    && (d.egress > 0 ==> c.egress > 0 || c.Sum() == 0)
    && (d.hand > 0 ==> c.hand > 0 || c.egress > 0)
    && (d.ingress > 0 ==> c.ingress > 0 || c.hand > 0)
    && (d.processing > 0 ==> c.processing > 0 || c.ingress > 0)
    && (d.opening > 0 ==> c.opening > 0 || c.processing > 0)
    && c.acknowledged <= d.acknowledged && c.dead <= d.dead && c.unresolved <= d.unresolved && c.undeliverable <= d.undeliverable
    && c.bounced <= d.bounced && c.dropped <= d.dropped
  }

  lemma MovesForward(c: Counts, d: Counts)
    requires Moves(c, d)
    ensures PlaceOf(d) == PlaceOf(c) || Level(PlaceOf(d)) > Level(PlaceOf(c))
  {
  }

  // ---- the books balance ----

  ghost predicate NoForeignDead(log: seq<C.Tagged<C.Cause>>, id: Raw) {
    forall i :: 0 <= i < |log| && log[i].tag == C.RefusedBySwitch ==> IdOf(log[i].raw) != id
  }

  ghost predicate Balanced(p: Pipe, o: C.Sys, id: Raw, sent: nat) {
    && sent == Count(p.egress, id) + (if p.hand.Some? then S.One(IdOf(p.hand.value) == id) else 0)
         + Count(p.dropped, id) + Count(p.bouncedLog, id) + Count(o.admitted, id)
    && NoForeignDead(o.deadLog, id) && IsSuffix(p.bounced, p.bouncedLog)
  }

  ghost function Sent(moves: seq<Move>, id: Raw): nat
    decreases |moves|
  {
    if moves == [] then 0
    else
      var last := moves[|moves| - 1];
      Sent(moves[..|moves| - 1], id) + S.One(last.Send? && IdOf(last.raw) == id)
  }

  lemma {:induction false} SentOnceIsOne(moves: seq<Move>, id: Raw)
    requires SentOnce(moves, id)
    ensures Sent(moves, id) <= 1
    ensures Sent(moves, id) == 1 ==> exists i :: 0 <= i < |moves| && moves[i].Send? && IdOf(moves[i].raw) == id
    decreases |moves|
  {
    if moves != [] { SentOnceIsOne(moves[..|moves| - 1], id); }
  }

  /** Of copies admitted by id, custody accounts for every one. */
  lemma OfficeConserves(cfg: C.Config, trace: seq<C.Event>, id: Raw)
    ensures var o := C.Run(cfg, trace);
      Count(o.admitted, id) == Count(o.lists.ingress, id) + Count(o.lists.processing, id) + Count(o.lists.opening, id)
        + Count(S.DeadOfReceive(o.deadLog), id) + Count(o.openedLog, id)
        + Count(S.Names(o.lists.unresolved), id) + Count(o.lists.undeliverable, id)
  {
    hide Count, S.DeadOfReceive, S.Names;
    S.Conservation(cfg, trace);
    hide C.Run;
    var o := C.Run(cfg, trace);
    var a, b, c := o.lists.ingress, o.lists.processing, o.lists.opening;
    var d, e, f, g := S.DeadOfReceive(o.deadLog), o.openedLog, S.Names(o.lists.unresolved), o.lists.undeliverable;
    CountMultiset(o.admitted, a + b + c + d + e + f + g, id);
    CountConcat(a + b + c + d + e + f, g, id);
    CountConcat(a + b + c + d + e, f, id);
    CountConcat(a + b + c + d, e, id);
    CountConcat(a + b + c, d, id);
    CountConcat(a + b, c, id);
    CountConcat(a, b, id);
  }

  lemma {:induction false} DeadGrows(log: seq<C.Tagged<C.Cause>>, x: C.Tagged<C.Cause>, id: Raw)
    ensures Count(S.DeadOfReceive(log + [x]), id)
      == Count(S.DeadOfReceive(log), id) + (if x.tag == C.RefusedBySwitch then 0 else S.One(IdOf(x.raw) == id))
  {
    assert (log + [x])[..|log|] == log;
    assert S.DeadOfReceive(log) + [] == S.DeadOfReceive(log);
    CountAppend(S.DeadOfReceive(log), x.raw, id);
  }

  lemma PrefixCount(a: seq<Raw>, b: seq<Raw>, id: Raw)
    requires a <= b
    ensures Count(a, id) <= Count(b, id)
  {
    hide Count, IdOf;
    CountConcat(a, b[|a|..], id);
    assert a + b[|a|..] == b;
  }

  /** One custody step, seen through the counts of an id that the step's own frame does not carry. */
  lemma OfficeMoves(s: C.Sys, t: C.Sys, e: C.Event, id: Raw)
    requires Flow.Flows(s, t, e) && Foreign(e, id) && NoForeignDead(s.deadLog, id)
    ensures Count(t.admitted, id) == Count(s.admitted, id) && NoForeignDead(t.deadLog, id)
    ensures Count(t.lists.ingress, id) > 0 ==> Count(s.lists.ingress, id) > 0
    ensures Count(t.lists.processing, id) > 0 ==> Count(s.lists.processing, id) > 0 || Count(s.lists.ingress, id) > 0
    ensures Count(t.lists.opening, id) > 0 ==> Count(s.lists.opening, id) > 0 || Count(s.lists.processing, id) > 0
    ensures Count(s.openedLog, id) <= Count(t.openedLog, id)
    ensures Count(S.DeadOfReceive(s.deadLog), id) <= Count(S.DeadOfReceive(t.deadLog), id)
    ensures Count(S.Names(s.lists.unresolved), id) <= Count(S.Names(t.lists.unresolved), id)
    ensures Count(s.lists.undeliverable, id) <= Count(t.lists.undeliverable, id)
  {
    hide Count, IdOf, S.DeadOfReceive;
    if e.Admit? { CountAppend(s.admitted, e.raw, id); }
    CountHas(t.lists.ingress, id); CountHas(s.lists.ingress, id);
    CountHas(t.lists.processing, id); CountHas(s.lists.processing, id);
    CountHas(t.lists.opening, id); CountHas(s.lists.opening, id);
    PrefixCount(s.openedLog, t.openedLog, id);
    PrefixCount(s.lists.undeliverable, t.lists.undeliverable, id);
    PrefixCount(S.Names(s.lists.unresolved), S.Names(t.lists.unresolved), id);
    if t.deadLog != s.deadLog {
      DeadGrows(s.deadLog, t.deadLog[|s.deadLog|], id);
      assert t.deadLog == s.deadLog + [t.deadLog[|s.deadLog|]];
    }
  }

  /** All the counts together are the number of times the frame was sent. */
  lemma SumIsSent(cfg: C.Config, p: Pipe, id: Raw, sent: nat)
    requires Balanced(p, Office(cfg, p), id, sent)
    ensures CountsOf(p, Office(cfg, p), id).Sum() == sent
  {
    hide Count, S.DeadOfReceive, S.Names, C.Run, IdOf;
    OfficeConserves(cfg, p.trace, id);
  }

  /** A move on the sender's side. */
  lemma SenderMoves(p: Pipe, o: C.Sys, m: Move, id: Raw, sent: nat)
    requires Balanced(p, o, id, sent) && !m.Forward? && !m.Elsewhere?
    ensures var q := Apply(p, m);
      && q.trace == p.trace && Balanced(q, o, id, sent + S.One(m.Send? && IdOf(m.raw) == id))
      && var c, d := CountsOf(p, o, id), CountsOf(q, o, id);
         && (d.egress > 0 ==> c.egress > 0 || (m.Send? && IdOf(m.raw) == id)) && (d.hand > 0 ==> c.hand > 0 || c.egress > 0)
         && c.bounced <= d.bounced && c.dropped <= d.dropped
  {
    hide Count, S.DeadOfReceive, S.Names, IdOf, NoForeignDead;
    match m
    case Send(raw) => CountAppend(p.egress, raw, id);
    case Pop =>
      if p.egress != [] && p.hand.None? {
        assert p.egress == [p.egress[0]] + p.egress[1..];
        CountConcat([p.egress[0]], p.egress[1..], id);
        CountOne(p.egress[0], id);
      }
    case Drop => if p.hand.Some? { CountAppend(p.dropped, p.hand.value, id); }
    case Bounce(stamped) =>
      if Holding(p, stamped) {
        CountAppend(p.bouncedLog, stamped, id);
        SuffixAppend(p.bounced, p.bouncedLog, stamped);
      }
    case TrimBounced(cap) => SuffixOfSuffix(KeepLast(p.bounced, cap), p.bounced, p.bouncedLog);
  }

  lemma CountOne(x: Raw, id: Raw)
    ensures Count([x], id) == S.One(IdOf(x) == id)
  {
    CountAppend([], x, id);
    assert [] + [x] == [x];
  }

  /** The admission of the popped frame. */
  lemma ForwardMoves(cfg: C.Config, p: Pipe, stamped: Raw, id: Raw, sent: nat)
    requires Balanced(p, Office(cfg, p), id, sent) && Holding(p, stamped)
    ensures var q := Apply(p, Forward(stamped));
      && Balanced(q, Office(cfg, q), id, sent)
      && var c, d := CountsOf(p, Office(cfg, p), id), CountsOf(q, Office(cfg, q), id);
         d == c.(hand := 0, ingress := c.ingress + c.hand)
  {
    hide Count, S.DeadOfReceive, S.Names, IdOf, NoForeignDead;
    var s := Office(cfg, p);
    C.RunExtend(cfg, p.trace, C.Admit(stamped));
    hide C.Run;
    CountAppend(s.lists.ingress, stamped, id);
    CountAppend(s.admitted, stamped, id);
  }

  /** Anything else that happens to the destination's custody. */
  lemma ElsewhereMoves(cfg: C.Config, p: Pipe, e: C.Event, id: Raw, sent: nat)
    requires Balanced(p, Office(cfg, p), id, sent) && Foreign(e, id) && sent <= 1
    ensures var q := Apply(p, Elsewhere(e));
      && Balanced(q, Office(cfg, q), id, sent)
      && Moves(CountsOf(p, Office(cfg, p), id), CountsOf(q, Office(cfg, q), id))
  {
    hide Count, S.DeadOfReceive, S.Names, IdOf, NoForeignDead, C.Step;
    var q := Apply(p, Elsewhere(e));
    C.RunExtend(cfg, p.trace, e);
    hide C.Run;
    Flow.FlowsStep(cfg, Office(cfg, p), e);
    OfficeMoves(Office(cfg, p), Office(cfg, q), e, id);
    SumIsSent(cfg, p, id, sent);
    SumIsSent(cfg, q, id, sent);
  }

  lemma SenderStep(cfg: C.Config, p: Pipe, m: Move, id: Raw, sent: nat)
    requires Balanced(p, Office(cfg, p), id, sent) && !m.Elsewhere? && (m.Forward? ==> Holding(p, m.stamped))
    requires sent + S.One(m.Send? && IdOf(m.raw) == id) <= 1
    ensures var q := Apply(p, m);
      && Balanced(q, Office(cfg, q), id, sent + S.One(m.Send? && IdOf(m.raw) == id))
      && Moves(CountsOf(p, Office(cfg, p), id), CountsOf(q, Office(cfg, q), id))
  {
    hide Count, S.DeadOfReceive, S.Names, IdOf, NoForeignDead, C.Run, Balanced, Apply;
    var q := Apply(p, m);
    if m.Forward? { ForwardMoves(cfg, p, m.stamped, id, sent); } else { SenderMoves(p, Office(cfg, p), m, id, sent); }
    SumIsSent(cfg, p, id, sent);
    SumIsSent(cfg, q, id, sent + S.One(m.Send? && IdOf(m.raw) == id));
  }

  lemma StaysPut(c: Counts)
    requires c.Sum() <= 1
    ensures Moves(c, c)
  {
  }

  /** Every move keeps the books and moves the frame forward, if at all. */
  lemma MoveStep(cfg: C.Config, p: Pipe, m: Move, id: Raw, sent: nat)
    requires Balanced(p, Office(cfg, p), id, sent)
    requires m.Elsewhere? ==> Foreign(m.e, id)
    requires sent + S.One(m.Send? && IdOf(m.raw) == id) <= 1
    ensures var q := Apply(p, m);
      && Balanced(q, Office(cfg, q), id, sent + S.One(m.Send? && IdOf(m.raw) == id))
      && Moves(CountsOf(p, Office(cfg, p), id), CountsOf(q, Office(cfg, q), id))
  {
    hide IdOf, Balanced, Office, CountsOf, Moves;
    if m.Elsewhere? {
      ElsewhereMoves(cfg, p, m.e, id, sent);
    } else if m.Forward? && !Holding(p, m.stamped) {
      assert Apply(p, m) == p;
      SumIsSent(cfg, p, id, sent);
      StaysPut(CountsOf(p, Office(cfg, p), id));
    } else {
      SenderStep(cfg, p, m, id, sent);
    }
  }

  lemma {:induction false} AlwaysBalanced(cfg: C.Config, moves: seq<Move>, id: Raw)
    requires SentOnce(moves, id)
    ensures Sent(moves, id) <= 1 && Balanced(Run(moves), Office(cfg, Run(moves)), id, Sent(moves, id))
    decreases |moves|
  {
    hide Count, S.DeadOfReceive, S.Names, IdOf, C.Run, Balanced, Apply;
    SentOnceIsOne(moves, id);
    if moves == [] {
      StartBalanced(cfg, id);
    } else {
      AlwaysBalanced(cfg, moves[..|moves| - 1], id);
      MoveStep(cfg, Run(moves[..|moves| - 1]), moves[|moves| - 1], id, Sent(moves[..|moves| - 1], id));
    }
  }

  lemma StartBalanced(cfg: C.Config, id: Raw)
    ensures Balanced(START, Office(cfg, START), id, 0)
  {
    assert C.Run(cfg, []) == C.INITIAL;
  }

  /** Where the frame with this id is after `moves`. */
  ghost function Where(cfg: C.Config, moves: seq<Move>, id: Raw): Place {
    PlaceOf(CountsOf(Run(moves), Office(cfg, Run(moves)), id))
  }

  lemma {:induction false} Onward(cfg: C.Config, moves: seq<Move>, more: seq<Move>, id: Raw)
    requires SentOnce(moves + more, id)
    ensures var a, b := Where(cfg, moves, id), Where(cfg, moves + more, id);
      b == a || Level(b) > Level(a)
    decreases |more|
  {
    hide Count, S.DeadOfReceive, S.Names, IdOf, C.Run, Balanced, Apply, CountsOf, Moves, PlaceOf;
    if more == [] {
      assert moves + more == moves;
    } else {
      var n := |more| - 1;
      var init := moves + more[..n];
      assert (moves + more)[..|moves + more| - 1] == init;
      Onward(cfg, moves, more[..n], id);
      AlwaysBalanced(cfg, init, id);
      SentOnceIsOne(moves + more, id);
      MoveStep(cfg, Run(init), more[n], id, Sent(init, id));
      MovesForward(CountsOf(Run(init), Office(cfg, Run(init)), id), CountsOf(Run(moves + more), Office(cfg, Run(moves + more)), id));
    }
  }

  // ---- what a trace can see ----

  /** The list a stage's key names, as the trace reads it. */
  ghost function ListAt(p: Pipe, o: C.Sys, place: Place): seq<Raw> {
    match place
    case AtEgress => p.egress
    case AtIngress => o.lists.ingress
    case AtProcessing => o.lists.processing
    case AtOpening => o.lists.opening
    case Opened => o.lists.receipts
    case Dead => o.lists.dead
    case Unresolved => S.Names(o.lists.unresolved)
    case Undeliverable => o.lists.undeliverable
    case Bounced => p.bounced
    case _ => []
  }

  /** locate() names this place. */
  ghost predicate Located(cfg: C.Config, moves: seq<Move>, place: Place, id: Raw) {
    exists x :: x in ListAt(Run(moves), Office(cfg, Run(moves)), place) && IdOf(x) == id
  }

  lemma SuffixCount(a: seq<Raw>, b: seq<Raw>, id: Raw)
    requires IsSuffix(a, b)
    ensures Count(a, id) <= Count(b, id)
  {
    hide Count, IdOf;
    CountConcat(b[..|b| - |a|], a, id);
    assert b == b[..|b| - |a|] + a;
  }

  /** With no dead frame of the switch carrying the id, what dead shows was put there by receive. */
  lemma {:induction false} DeadIsReceived(log: seq<C.Tagged<C.Cause>>, id: Raw)
    requires NoForeignDead(log, id)
    ensures Count(S.Names(log), id) == Count(S.DeadOfReceive(log), id)
    decreases |log|
  {
    if log == [] {
      assert S.Names(log) == S.DeadOfReceive(log) == [];
    } else {
      hide Count, IdOf, S.DeadOfReceive;
      var n := |log| - 1;
      DeadIsReceived(log[..n], id);
      assert log == log[..n] + [log[n]];
      DeadGrows(log[..n], log[n], id);
      assert S.Names(log) == S.Names(log[..n]) + [log[n].raw];
      CountAppend(S.Names(log[..n]), log[n].raw, id);
    }
  }

  /** A trace is never wrong: whatever place it names is where the frame is. */
  lemma LocatedIsWhere(cfg: C.Config, moves: seq<Move>, place: Place, id: Raw)
    requires SentOnce(moves, id) && Located(cfg, moves, place, id)
    ensures Where(cfg, moves, id) == place && CountsOf(Run(moves), Office(cfg, Run(moves)), id).Sum() <= 1
  {
    hide Count, S.DeadOfReceive, S.Names, IdOf, C.Run, Apply, NoForeignDead, IsSuffix;
    var p := Run(moves);
    var o := Office(cfg, p);
    AlwaysBalanced(cfg, moves, id);
    SumIsSent(cfg, p, id, Sent(moves, id));
    CountHas(ListAt(p, o, place), id);
    Evidence.CappedListsAreNewest(cfg, p.trace);
    SuffixCount(o.lists.receipts, o.openedLog, id);
    SuffixCount(o.lists.dead, S.Names(o.deadLog), id);
    SuffixCount(p.bounced, p.bouncedLog, id);
    DeadIsReceived(o.deadLog, id);
    var c := CountsOf(p, o, id);
    assert c.Sum() <= 1;
  }

  /** A unicast frame is traced to at most one place, so its overall state is never `partial`. */
  lemma OnePlace(cfg: C.Config, moves: seq<Move>, a: Place, b: Place, id: Raw)
    requires SentOnce(moves, id) && Located(cfg, moves, a, id) && Located(cfg, moves, b, id)
    ensures a == b
  {
    hide Located, Where;
    LocatedIsWhere(cfg, moves, a, id);
    LocatedIsWhere(cfg, moves, b, id);
  }

  /** Along every run the traced stage only advances, and an end once traced is never exchanged for another. */
  lemma NeverBackwards(cfg: C.Config, moves: seq<Move>, more: seq<Move>, a: Place, b: Place, id: Raw)
    requires SentOnce(moves + more, id) && Located(cfg, moves, a, id) && Located(cfg, moves + more, b, id)
    ensures a == b || Level(a) < Level(b)
  {
    hide Located, Where;
    SentBefore(moves, more, id);
    LocatedIsWhere(cfg, moves, a, id);
    LocatedIsWhere(cfg, moves + more, b, id);
    Onward(cfg, moves, more, id);
  }

  lemma SentBefore(moves: seq<Move>, more: seq<Move>, id: Raw)
    requires SentOnce(moves + more, id)
    ensures SentOnce(moves, id)
  {
    hide IdOf;
    var all := moves + more;
    assert forall i :: 0 <= i < |moves| ==> moves[i] == all[i];
  }
}
