/**
 What the delivery lease adds: while at most one port process is live at a time (crashes and
 successors included), at most one frame is past ingress and unsettled, and openers are called in
 the order of admission.
 */
module CustodyOrder {
  import opened Prelude
  import opened Custody

  ghost predicate AtMostOneLive(s: Sys) {
    forall p, q :: p in s.ports && q in s.ports && s.ports[p].Live() && s.ports[q].Live() ==> p == q
  }

  ghost predicate OneAtATime(cfg: Config, events: seq<Event>) {
    forall i :: 0 <= i <= |events| ==> AtMostOneLive(Run(cfg, events[..i]))
  }

  /** A list that held `raw` alone, until the retirement script may have emptied it. */
  ghost predicate HeldOrRetired(list: seq<Raw>, raw: Raw) { list == [raw] || list == [] }

  ghost predicate Alone(l: Lists, pc: Pc) {
    match pc
    case Surface(raw) => l.processing == [] && HeldOrRetired(l.opening, raw)
    case Recover => l.opening == []
    case Claim => l.opening == [] && l.processing == []
    case Hold(raw) => l.opening == [] && HeldOrRetired(l.processing, raw)
    case Entered(raw, _) => l.processing == [] && HeldOrRetired(l.opening, raw)
    case Running(raw, _) => l.processing == [] && HeldOrRetired(l.opening, raw)
    case ToOpened(raw, _) => l.processing == [] && HeldOrRetired(l.opening, raw)
    case ToDead(raw, _) => l.processing == [] && HeldOrRetired(l.opening, raw)
    case ToUnresolved(raw, _) => l.processing == [] && HeldOrRetired(l.opening, raw)
    case _ => true
  }

  ghost predicate Single(s: Sys) {
    && |s.lists.processing| + |s.lists.opening| <= 1
    && forall p :: p in s.ports && s.ports[p].Live() ==> Alone(s.lists, s.ports[p])
  }

  /** What has left ingress, in order of admission. */
  ghost function Consumed(s: Sys): seq<Raw>
    requires |s.lists.ingress| <= |s.admitted|
  {
    s.admitted[..|s.admitted| - |s.lists.ingress|]
  }

  ghost predicate Ordered(s: Sys) {
    && IsSuffix(s.lists.ingress, s.admitted)
    && IsSubsequence(s.started + s.lists.processing, Consumed(s))
    && forall p :: p in s.ports && s.ports[p].Entered? ==>
         IsSubsequence(s.started + [s.ports[p].raw], Consumed(s))
  }

  lemma RemoveOnly(list: seq<Raw>, raw: Raw)
    requires HeldOrRetired(list, raw)
    ensures RemoveFirst(list, raw) == []
  {
  }

  /** Only the one live process, and what it leaves in the lists, matters. */
  lemma SingleAfter(s: Sys, t: Sys, p: nat)
    requires Single(s) && AtMostOneLive(s) && p in s.ports && s.ports[p].Live()
    requires p in t.ports && t.ports == s.ports[p := t.ports[p]]
    requires |t.lists.processing| + |t.lists.opening| <= 1 && Alone(t.lists, t.ports[p])
    ensures Single(t)
  {
  }

  lemma SingleJudge(cfg: Config, s: Sys, p: nat)
    requires Single(s) && AtMostOneLive(s) && p in s.ports && s.ports[p].Hold?
    ensures Single(Judge(cfg, s, p, s.ports[p].raw))
  {
    hide RemoveFirst, AtMostOneLive;
    RemoveOnly(s.lists.processing, s.ports[p].raw);
    SingleAfter(s, Judge(cfg, s, p, s.ports[p].raw), p);
  }

  lemma SingleRecord(cfg: Config, s: Sys, p: nat)
    requires Single(s) && AtMostOneLive(s) && p in s.ports
    requires s.ports[p].ToOpened? || s.ports[p].ToDead? || s.ports[p].ToUnresolved?
    ensures Single(Record(cfg, s, p))
  {
    hide RemoveFirst, AtMostOneLive;
    RemoveOnly(s.lists.opening, s.ports[p].raw);
    SingleAfter(s, Record(cfg, s, p), p);
  }

  lemma SingleMove(cfg: Config, s: Sys, p: nat, outcome: Outcome)
    requires Single(s) && AtMostOneLive(s) && p in s.ports
    requires s.ports[p].Sweep? || s.ports[p].Recover? || s.ports[p].Claim?
    ensures Single(ActStep(cfg, s, p, outcome))
  {
    hide RemoveFirst, AtMostOneLive, Judge, Record, FinishOpener, SurfaceStep;
    var l, t := s.lists, ActStep(cfg, s, p, outcome);
    if l.opening != [] { assert l.opening == [l.opening[0]]; }
    if l.processing != [] { assert l.processing == [l.processing[0]]; }
    if l.ingress != [] { assert [] + [l.ingress[0]] == [l.ingress[0]]; }
    SingleAfter(s, t, p);
  }

  lemma SingleAct(cfg: Config, s: Sys, p: nat, outcome: Outcome)
    requires Single(s) && AtMostOneLive(s) && p in s.ports
    ensures Single(ActStep(cfg, s, p, outcome))
  {
    hide RemoveFirst, AtMostOneLive, Judge, Record;
    match s.ports[p]
    case Surface(raw) =>
      RemoveOnly(s.lists.opening, raw);
      SingleAfter(s, SurfaceStep(cfg, s, p, raw), p);
    case Hold(_) => SingleJudge(cfg, s, p);
    case ToOpened(_, _) => SingleRecord(cfg, s, p);
    case ToDead(_, _) => SingleRecord(cfg, s, p);
    case ToUnresolved(_, _) => SingleRecord(cfg, s, p);
    case Entered(raw, k) => SingleAfter(s, At(CallOpener(s, raw, k), p, Running(raw, k)), p);
    case Running(raw, k) => SingleAfter(s, FinishOpener(s, p, raw, k, outcome), p);
    case Done =>
    case Gone =>
    case _ => SingleMove(cfg, s, p, outcome);
  }

  lemma SingleStep(cfg: Config, s: Sys, e: Event)
    requires Single(s) && AtMostOneLive(s)
    ensures Single(Step(cfg, s, e))
  {
    if e.Act? && e.port in s.ports { SingleAct(cfg, s, e.port, e.outcome); }
  }

  lemma WithoutLast(started: seq<Raw>, processing: seq<Raw>, consumed: seq<Raw>)
    requires |processing| <= 1 && IsSubsequence(started + processing, consumed)
    ensures IsSubsequence(started, consumed)
  {
    if processing == [] {
      assert started + processing == started;
    } else {
      SubsequenceDropLast(started + processing, consumed);
      assert (started + processing)[..|started|] == started;
    }
  }

  /** A step that neither claims nor calls an opener keeps the order. */
  lemma OrderedQuiet(s: Sys, t: Sys, p: nat)
    requires Single(s) && Ordered(s) && p in s.ports
    requires p in t.ports && t.ports == s.ports[p := t.ports[p]] && !t.ports[p].Entered?
    requires t.admitted == s.admitted && t.started == s.started && t.lists.ingress == s.lists.ingress
    requires t.lists.processing == s.lists.processing || t.lists.processing == []
    ensures Ordered(t)
  {
    hide IsSubsequence;
    WithoutLast(s.started, s.lists.processing, Consumed(s));
    assert s.started + [] == s.started;
  }

  lemma OrderedClaim(s: Sys, p: nat)
    requires Single(s) && AtMostOneLive(s) && Ordered(s) && p in s.ports && s.ports[p].Claim?
    ensures Ordered(ClaimStep(s, p))
  {
    hide IsSubsequence;
    var l := s.lists;
    if l.ingress != [] {
      var x := l.ingress[0];
      assert x == s.admitted[|s.admitted| - |l.ingress|];
      assert Consumed(ClaimHead(s)) == Consumed(s) + [x];
      assert [] + [x] == [x] && s.started + [] == s.started;
      SubsequenceAppend(s.started, Consumed(s), x);
    }
  }

  lemma OrderedJudge(cfg: Config, s: Sys, p: nat)
    requires Single(s) && Ordered(s) && p in s.ports && s.ports[p].Hold?
    ensures Ordered(Judge(cfg, s, p, s.ports[p].raw))
  {
    hide IsSubsequence, RemoveFirst;
    var t := Judge(cfg, s, p, s.ports[p].raw);
    RemoveOnly(s.lists.processing, s.ports[p].raw);
    OrderedQuiet(s, t.(ports := s.ports[p := Gone]), p);
    assert Consumed(t) == Consumed(s);
    if t.ports[p].Entered? { assert s.lists.processing == [s.ports[p].raw]; }
  }

  lemma OrderedCall(s: Sys, p: nat, raw: Raw, k: nat)
    requires Single(s) && AtMostOneLive(s) && Ordered(s) && p in s.ports && s.ports[p] == Entered(raw, k)
    ensures Ordered(At(CallOpener(s, raw, k), p, Running(raw, k)))
  {
    hide IsSubsequence, IsSuffix;
    assert s.started + [raw] + [] == s.started + [raw];
    assert forall q :: q in s.ports && q != p ==> !s.ports[q].Live();
  }

  lemma OrderedRecord(cfg: Config, s: Sys, p: nat)
    requires Single(s) && Ordered(s) && p in s.ports
    requires s.ports[p].ToOpened? || s.ports[p].ToDead? || s.ports[p].ToUnresolved?
    ensures Ordered(Record(cfg, s, p))
  {
    hide RemoveFirst, IsSubsequence, IsSuffix, KeepLast, Ordered;
    OrderedQuiet(s, Record(cfg, s, p), p);
  }

  lemma OrderedMove(cfg: Config, s: Sys, p: nat, outcome: Outcome)
    requires Single(s) && Ordered(s) && p in s.ports
    requires s.ports[p].Sweep? || s.ports[p].Surface? || s.ports[p].Recover? || s.ports[p].Running?
    ensures Ordered(ActStep(cfg, s, p, outcome))
  {
    hide RemoveFirst, IsSubsequence, IsSuffix, Judge, Record, KeepLast, Ordered, Single;
    OrderedQuiet(s, ActStep(cfg, s, p, outcome), p);
  }

  lemma OrderedAct(cfg: Config, s: Sys, p: nat, outcome: Outcome)
    requires Single(s) && AtMostOneLive(s) && Ordered(s) && p in s.ports
    ensures Ordered(ActStep(cfg, s, p, outcome))
  {
    hide RemoveFirst, IsSubsequence, IsSuffix, Judge, Record, KeepLast, Ordered, Single, AtMostOneLive;
    match s.ports[p]
    case Claim => OrderedClaim(s, p);
    case Hold(_) => OrderedJudge(cfg, s, p);
    case Entered(raw, k) => OrderedCall(s, p, raw, k);
    case Done =>
    case Gone =>
    case ToOpened(_, _) => OrderedRecord(cfg, s, p);
    case ToDead(_, _) => OrderedRecord(cfg, s, p);
    case ToUnresolved(_, _) => OrderedRecord(cfg, s, p);
    case _ => OrderedMove(cfg, s, p, outcome);
  }

  lemma OrderedStep(cfg: Config, s: Sys, e: Event)
    requires Single(s) && AtMostOneLive(s) && Ordered(s)
    ensures Ordered(Step(cfg, s, e))
  {
    hide IsSubsequence, ActStep;
    match e
    case Act(p, outcome) => if p in s.ports { OrderedAct(cfg, s, p, outcome); }
    case Admit(x) =>
      SuffixAppend(s.lists.ingress, s.admitted, x);
      assert Consumed(Step(cfg, s, e)) == Consumed(s);
    case Retire =>
      var rest := s.lists.ingress;
      assert Consumed(s) + rest == s.admitted == Consumed(Step(cfg, s, e));
      WithoutLast(s.started, s.lists.processing, Consumed(s));
      assert s.started + [] == s.started;
      SubsequencePrefix(s.started, Consumed(s), rest);
      forall p | p in s.ports && s.ports[p].Entered?
        ensures IsSubsequence(s.started + [s.ports[p].raw], s.admitted)
      {
        SubsequencePrefix(s.started + [s.ports[p].raw], Consumed(s), rest);
      }
    case _ =>
  }

  lemma {:induction false} OrderedRun(cfg: Config, events: seq<Event>)
    requires OneAtATime(cfg, events)
    ensures Single(Run(cfg, events)) && Ordered(Run(cfg, events))
    decreases |events|
  {
    hide Step;
    if events != [] {
      var n := |events| - 1;
      forall i | 0 <= i <= n ensures events[..n][..i] == events[..i] {}
      OrderedRun(cfg, events[..n]);
      SingleStep(cfg, Run(cfg, events[..n]), events[n]);
      OrderedStep(cfg, Run(cfg, events[..n]), events[n]);
    }
  }

  /** One claim at a time, and FIFO effects across crashes, successors and retirements. */
  lemma FifoEffects(cfg: Config, events: seq<Event>)
    requires OneAtATime(cfg, events)
    ensures var s := Run(cfg, events);
      && |s.lists.processing| + |s.lists.opening| <= 1
      && IsSubsequence(s.started, s.admitted)
  {
    hide Run, OneAtATime;
    var s := Run(cfg, events);
    OrderedRun(cfg, events);
    WithoutLast(s.started, s.lists.processing, Consumed(s));
    SubsequencePrefix(s.started, Consumed(s), s.lists.ingress);
    assert Consumed(s) + s.lists.ingress == s.admitted;
  }

  lemma {:induction false} RunHead(cfg: Config, s: Sys, events: seq<Event>)
    requires events != []
    ensures RunFrom(cfg, s, events) == RunFrom(cfg, Step(cfg, s, events[0]), events[1..])
    decreases |events|
  {
    hide Step;
    var n := |events| - 1;
    if n == 0 {
      assert events[..0] == [] && events[1..] == [];
    } else {
      RunHead(cfg, s, events[..n]);
      assert events[..n][1..] == events[1..][..n - 1];
    }
  }

  /** Two copies are admitted, two ports each claim one, and both crash. */
  function TwoClaims(a: Raw, b: Raw): seq<Event> {
    [Admit(a), Admit(b), Spawn(0), Act(0, Returns), Act(0, Returns), Spawn(1), Act(1, Returns), Act(1, Returns),
     Act(0, Returns), Act(1, Returns), Crash(0), Crash(1)]
  }

  /** The office after `n` events of it. */
  function AfterEvents(a: Raw, b: Raw, n: nat): Sys {
    var zero := if n < 4 then Sweep else if n < 5 then Recover else if n < 9 then Claim else if n < 11 then Hold(a) else Gone;
    var one := if n < 7 then Sweep else if n < 8 then Recover else if n < 10 then Claim else if n < 12 then Hold(b) else Gone;
    Sys(Lists(if n == 0 then [] else if n == 1 then [a] else if n < 9 then [a, b] else if n < 10 then [b] else [],
              if n < 9 then [] else if n < 10 then [a] else [a, b], [], [], [], [], []),
        if n < 3 then map[] else if n < 6 then map[0 := zero] else map[0 := zero, 1 := one],
        if n == 0 then [] else if n == 1 then [a] else [a, b], [], [], [], [])
  }

  lemma EarlyEvent(cfg: Config, a: Raw, b: Raw, n: nat)
    requires n < 6
    ensures Step(cfg, AfterEvents(a, b, n), TwoClaims(a, b)[n]) == AfterEvents(a, b, n + 1)
  {
    hide Judge, Record, FinishOpener, RetireLists, KeepLast, RemoveFirst, SurfaceStep, ClaimStep;
    var s, t := Step(cfg, AfterEvents(a, b, n), TwoClaims(a, b)[n]), AfterEvents(a, b, n + 1);
    assert s.ports == t.ports;
  }

  lemma ClaimEvent(cfg: Config, a: Raw, b: Raw, n: nat)
    requires 8 <= n < 10
    ensures Step(cfg, AfterEvents(a, b, n), TwoClaims(a, b)[n]) == AfterEvents(a, b, n + 1)
  {
    hide Judge, Record, FinishOpener, RetireLists, KeepLast, RemoveFirst, SurfaceStep, SweepStep;
    var s, t := Step(cfg, AfterEvents(a, b, n), TwoClaims(a, b)[n]), AfterEvents(a, b, n + 1);
    assert s.lists.processing == t.lists.processing && s.ports == t.ports;
  }

  lemma LateEvent(cfg: Config, a: Raw, b: Raw, n: nat)
    requires 6 <= n < 8 || 10 <= n < 12
    ensures Step(cfg, AfterEvents(a, b, n), TwoClaims(a, b)[n]) == AfterEvents(a, b, n + 1)
  {
    hide Judge, Record, FinishOpener, RetireLists, KeepLast, RemoveFirst, SurfaceStep, ClaimStep;
    var s, t := Step(cfg, AfterEvents(a, b, n), TwoClaims(a, b)[n]), AfterEvents(a, b, n + 1);
    assert s.ports == t.ports;
  }

  /** Without one live port at a time, processing can hold two frames, of which a later receive recovers only the head. */
  lemma TwoClaimsWithoutLease(cfg: Config, a: Raw, b: Raw)
    ensures var s := Run(cfg, TwoClaims(a, b));
      s.lists.processing == [a, b] && s.ports == map[0 := Gone, 1 := Gone]
  {
    var events := TwoClaims(a, b);
    assert AfterEvents(a, b, 0) == INITIAL && events[0..] == events;
    assert events[12..] == [];
    hide Step;
    for n := 0 to 12
      invariant Run(cfg, events) == RunFrom(cfg, AfterEvents(a, b, n), events[n..])
    {
      RunHead(cfg, AfterEvents(a, b, n), events[n..]);
      if n < 6 { EarlyEvent(cfg, a, b, n); }
      else if 8 <= n < 10 { ClaimEvent(cfg, a, b, n); }
      else { LateEvent(cfg, a, b, n); }
      assert events[n..][0] == events[n] && events[n..][1..] == events[n + 1..];
    }
  }
}
