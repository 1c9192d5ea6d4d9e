/**
 `receive` and `_open_received` (h-app/core/channels.py) in their own form: a port process issuing one
 Redis command after another. Before each command everyone else may do anything, and the process
 may be killed. Every execution is a run of the custody protocol, so everything proved of the
 protocol's runs holds of this code; alone and alive, the code drains the queue.
 */
module Receive {
  import opened Prelude
  import opened Custody
  import opened CustodySafety
  import opened CustodyEvidence

  /** The lists a custody transfer can name. */
  datatype Place = Processing | Opening | Dead | Opened | Unresolved(doubt: Doubt)

  /** How a call ended: it returned, it raised, or the process died in it. */
  datatype Exit = Fine | Raised | Died

  datatype OpenerEnd = Ends(outcome: Outcome) | Dies

  datatype Reply<+T> = Got(value: T) | Killed

  function ListOf(l: Lists, source: Place): seq<Raw>
    requires source == Processing || source == Opening
  {
    if source == Processing then l.processing else l.opening
  }

  function Lrem(l: Lists, source: Place, raw: Raw): Lists
    requires source == Processing || source == Opening
  {
    if source == Processing then l.(processing := RemoveFirst(l.processing, raw))
    else l.(opening := RemoveFirst(l.opening, raw))
  }

  function Rpush(l: Lists, destination: Place, raw: Raw, cap: nat): Lists {
    match destination
    case Processing => l.(processing := KeepLast(l.processing + [raw], cap))
    case Opening => l.(opening := KeepLast(l.opening + [raw], cap))
    case Dead => l.(dead := KeepLast(l.dead + [raw], cap))
    case Opened => l.(receipts := KeepLast(l.receipts + [raw], cap))
    case Unresolved(doubt) => l.(unresolved := KeepLast(l.unresolved + [Tagged(doubt, raw)], cap))
  }

  predicate Touches(e: Event, p: nat) { (e.Spawn? || e.Act? || e.Crash?) && e.port == p }

  lemma RecordLeavesOthers(cfg: Config, s: Sys, q: nat, p: nat)
    requires p != q && q in s.ports && (s.ports[q].ToOpened? || s.ports[q].ToDead? || s.ports[q].ToUnresolved?)
    ensures p in Record(cfg, s, q).ports <==> p in s.ports
    ensures p in s.ports ==> Record(cfg, s, q).ports[p] == s.ports[p]
  {
    hide RemoveFirst, KeepLast, SetStage;
  }

  lemma ActLeavesOthers(cfg: Config, s: Sys, q: nat, outcome: Outcome, p: nat)
    requires p != q && q in s.ports
    ensures p in ActStep(cfg, s, q, outcome).ports <==> p in s.ports
    ensures p in s.ports ==> ActStep(cfg, s, q, outcome).ports[p] == s.ports[p]
  {
    hide RemoveFirst, KeepLast, SetStage, Record;
    if s.ports[q].ToOpened? || s.ports[q].ToDead? || s.ports[q].ToUnresolved? { RecordLeavesOthers(cfg, s, q, p); }
  }

  lemma OthersLeavePort(cfg: Config, s: Sys, e: Event, p: nat)
    requires !Touches(e, p)
    ensures p in Step(cfg, s, e).ports <==> p in s.ports
    ensures p in s.ports ==> Step(cfg, s, e).ports[p] == s.ports[p]
  {
    hide KeepLast, ActStep;
    if e.Act? && e.port in s.ports { ActLeavesOthers(cfg, s, e.port, e.outcome, p); }
  }

  /** The transfer a process standing at `pc` makes next. */
  ghost predicate Transfers(cfg: Config, pc: Pc, source: Place, destination: Place, raw: Raw, cap: nat) {
    match pc
    case Surface(r) => r == raw && source == Opening && destination == Unresolved(ProcessExited) && cap == 0
    case Hold(r) =>
      && r == raw && source == Processing && cap == 0 && !cfg.Breaks(raw)
      && destination == (if cfg.Accepts(raw) && cfg.opens(raw) then Opening else Dead)
    case ToOpened(r, _) => r == raw && source == Opening && destination == Opened && cap == OPENED_RECEIPT_MAX
    case ToDead(r, _) => r == raw && source == Opening && destination == Dead && cap == 0
    case ToUnresolved(r, _) =>
      r == raw && source == Opening && destination == Unresolved(OpenerFailed) && cap == 0 && cfg.decodes(raw)
    case _ => false
  }

  /** Where a process goes on once its transfer has moved the frame. */
  function Follows(cfg: Config, pc: Pc, ticket: nat): Pc {
    match pc
    case Surface(raw) => if cfg.Breaks(raw) then Gone else Sweep
    case Hold(raw) =>
      if !cfg.Accepts(raw) then Claim else if cfg.opens(raw) then Entered(raw, ticket) else cfg.AfterNotice(raw)
    case ToDead(raw, _) => cfg.AfterNotice(raw)
    case _ => Claim
  }

  /** The script's effect on the lists is the protocol's, and so is its reply. */
  lemma TransferIsStep(cfg: Config, s: Sys, p: nat, source: Place, destination: Place, raw: Raw, cap: nat, o: Outcome)
    requires p in s.ports && Transfers(cfg, s.ports[p], source, destination, raw, cap)
    ensures var t := ActStep(cfg, s, p, o);
      && p in t.ports && t.started == s.started
      && (raw !in ListOf(s.lists, source) ==> t.lists == s.lists && t.ports[p] == Gone)
      && (raw in ListOf(s.lists, source) ==>
            && t.lists == Rpush(Lrem(s.lists, source, raw), destination, raw, cap)
            && t.ports[p] == Follows(cfg, s.ports[p], |s.entries|))
  {
    hide RemoveFirst, KeepLast, Judge, Record, SurfaceStep, Rpush, Lrem, Follows;
    match s.ports[p]
    case Hold(_) => JudgeTransfers(cfg, s, p, destination, raw, cap);
    case Surface(_) => SurfaceTransfers(cfg, s, p, destination, raw, cap);
    case _ => RecordTransfers(cfg, s, p, destination, raw, cap);
  }

  lemma JudgeTransfers(cfg: Config, s: Sys, p: nat, destination: Place, raw: Raw, cap: nat)
    requires p in s.ports && s.ports[p] == Hold(raw) && Transfers(cfg, s.ports[p], Processing, destination, raw, cap)
    ensures var t := Judge(cfg, s, p, raw);
      && p in t.ports && t.started == s.started
      && (raw !in s.lists.processing ==> t.lists == s.lists && t.ports[p] == Gone)
      && (raw in s.lists.processing ==>
            && t.lists == Rpush(Lrem(s.lists, Processing, raw), destination, raw, cap)
            && t.ports[p] == Follows(cfg, s.ports[p], |s.entries|))
  {
    hide RemoveFirst;
  }

  lemma SurfaceTransfers(cfg: Config, s: Sys, p: nat, destination: Place, raw: Raw, cap: nat)
    requires p in s.ports && s.ports[p] == Surface(raw) && Transfers(cfg, s.ports[p], Opening, destination, raw, cap)
    ensures var t := SurfaceStep(cfg, s, p, raw);
      && p in t.ports && t.started == s.started
      && (raw !in s.lists.opening ==> t.lists == s.lists && t.ports[p] == Gone)
      && (raw in s.lists.opening ==>
            && t.lists == Rpush(Lrem(s.lists, Opening, raw), destination, raw, cap)
            && t.ports[p] == Follows(cfg, s.ports[p], |s.entries|))
  {
    hide RemoveFirst;
  }

  lemma RecordTransfers(cfg: Config, s: Sys, p: nat, destination: Place, raw: Raw, cap: nat)
    requires p in s.ports && (s.ports[p].ToOpened? || s.ports[p].ToDead? || s.ports[p].ToUnresolved?)
    requires Transfers(cfg, s.ports[p], Opening, destination, raw, cap)
    ensures var t := Record(cfg, s, p);
      && p in t.ports && t.started == s.started
      && (raw !in s.lists.opening ==> t.lists == s.lists && t.ports[p] == Gone)
      && (raw in s.lists.opening ==>
            && t.lists == Rpush(Lrem(s.lists, Opening, raw), destination, raw, cap)
            && t.ports[p] == Follows(cfg, s.ports[p], |s.entries|))
  {
    hide RemoveFirst, SetStage;
  }

  /** The claimed frame is in processing; nothing was claimed because there was nothing to claim. */
  ghost predicate Coherent(claimed: Reply<Option<Raw>>, l: Lists) {
    claimed.Got? && (if claimed.value.Some? then claimed.value.value in l.processing else l.ingress == [])
  }

  /** An exception leaves _open_received although nobody interfered and nothing failed. */
  predicate Trips(cfg: Config, opener: (Raw, nat) -> OpenerEnd, raw: Raw, at: nat) {
    || cfg.Breaks(raw)
    || (&& cfg.Accepts(raw) && !cfg.answerable(raw)
        && (!cfg.opens(raw) || opener(raw, at + 2) == Ends(RaisesDeadLetter)))
  }

  /** How many commands _open_received needs for the frame. */
  function Commands(cfg: Config, raw: Raw): nat {
    if cfg.Breaks(raw) then 0 else if cfg.Accepts(raw) && cfg.opens(raw) then 3 else 1
  }

  /** How many of these frames are opened before one makes receive raise, from command number `at` on. */
  function Reach(cfg: Config, opener: (Raw, nat) -> OpenerEnd, frames: seq<Raw>, at: nat): (n: nat)
    ensures n <= |frames|
    decreases |frames|
  {
    if frames == [] || Trips(cfg, opener, frames[0], at) then 0
    else 1 + Reach(cfg, opener, frames[1..], at + Commands(cfg, frames[0]) + 1)
  }

  /** What an opening leaves behind it. */
  datatype Marks = Marks(started: seq<Raw>, dead: seq<Raw>, receipts: seq<Raw>, unresolved: seq<Tagged<Doubt>>)

  function MarksOf(s: Sys): Marks { Marks(s.started, s.lists.dead, s.lists.receipts, s.lists.unresolved) }

  /** The record of how an opener ended. */
  function MarkOutcome(raw: Raw, outcome: Outcome, m: Marks): Marks {
    match outcome
    case Returns => m.(receipts := KeepLast(m.receipts + [raw], OPENED_RECEIPT_MAX))
    case RaisesDeadLetter => m.(dead := m.dead + [raw])
    case RaisesOther => m.(unresolved := m.unresolved + [Tagged(OpenerFailed, raw)])
  }

  /**
   What one frame leaves: nothing if its parse breaks, a dead letter if it is not for any opener, otherwise
   what its opener said.
   */
  function Marked(cfg: Config, opener: (Raw, nat) -> OpenerEnd, raw: Raw, at: nat, m: Marks): Marks {
    if cfg.Breaks(raw) then m
    else if !cfg.Accepts(raw) || !cfg.opens(raw) then m.(dead := m.dead + [raw])
    else
      var called := m.(started := m.started + [raw]);
      match opener(raw, at + 2)
      case Dies => called
      case Ends(outcome) => MarkOutcome(raw, outcome, called)
  }

  /** What these frames leave, up to and including the first that makes receive raise. */
  function MarkedAll(cfg: Config, opener: (Raw, nat) -> OpenerEnd, frames: seq<Raw>, at: nat, m: Marks): Marks
    decreases |frames|
  {
    if frames == [] then m
    else
      var next := Marked(cfg, opener, frames[0], at, m);
      if Trips(cfg, opener, frames[0], at) then next
      else MarkedAll(cfg, opener, frames[1..], at + Commands(cfg, frames[0]) + 1, next)
  }

  function Exited(opening: seq<Raw>): seq<Tagged<Doubt>> {
    seq(|opening|, i requires 0 <= i < |opening| => Tagged(ProcessExited, opening[i]))
  }

  /** The sweep surfaces what was left in opening, in order. */
  function Surfaced(m: Marks, opening: seq<Raw>): Marks { m.(unresolved := m.unresolved + Exited(opening)) }

  /** What a drain is to open: the claimed frame, then all of ingress. */
  function Ahead(claimed: Reply<Option<Raw>>, l: Lists): seq<Raw> {
    (if claimed.Got? && claimed.value.Some? then [claimed.value.value] else []) + l.ingress
  }

  /** What receive is to open. */
  function ToOpen(l: Lists): seq<Raw> { (if l.processing == [] then [] else [l.processing[0]]) + l.ingress }

  /** How many commands receive issues before it opens the first of them. */
  function Before(l: Lists): nat { 2 * |l.opening| + if l.processing == [] then 3 else 2 }

  class Port {
    const cfg: Config
    const id: nat
    const others: nat -> seq<Event>           // what everyone else does before the k-th command
    const opener: (Raw, nat) -> OpenerEnd     // how each opener call goes
    var lists: Lists                          // what Redis holds
    var sys: Sys                              // what the protocol says
    var issued: nat                           // commands issued so far
    var life: nat                             // commands left before the process is killed
    ghost var trace: seq<Event>

    ghost predicate Valid() reads this { lists == sys.lists && sys == Run(cfg, trace) }

    ghost predicate At(pc: Pc) reads this { id in sys.ports && sys.ports[id] == pc }

    /** Nobody else acts, no opener kills the process, and what parses decodes. */
    ghost predicate Quiet() {
      && (forall k :: others(k) == [])
      && (forall raw, k :: !opener(raw, k).Dies?)
      && (forall raw :: cfg.Accepts(raw) ==> cfg.decodes(raw))
    }

    constructor (cfg: Config, id: nat, others: nat -> seq<Event>, opener: (Raw, nat) -> OpenerEnd, life: nat)
      ensures Valid() && this.cfg == cfg && this.id == id && this.others == others && this.opener == opener
      ensures this.life == life && trace == []
    {
      this.cfg, this.id, this.others, this.opener := cfg, id, others, opener;
      lists, sys, issued, this.life, trace := INITIAL.lists, INITIAL, 0, life, [];
    }

    /** One event of the protocol. */
    method Happen(e: Event)
      requires sys == Run(cfg, trace)
      modifies this`sys, this`trace
      ensures sys == Step(cfg, old(sys), e) == Run(cfg, trace) && trace == old(trace) + [e]
    {
      RunExtend(cfg, trace, e);
      sys := Step(cfg, sys, e);
      trace := trace + [e];
    }

    /** Everyone else takes their turns; then this process may be killed. */
    method Yield() returns (alive: bool)
      requires Valid()
      modifies this
      ensures Valid() && old(trace) <= trace
      ensures id in sys.ports <==> id in old(sys).ports
      ensures alive ==> life == old(life) - 1
      ensures alive && id in sys.ports ==> sys.ports[id] == old(sys).ports[id]
      ensures !alive ==> old(life) == 0 && (id in sys.ports ==> At(Gone))
      ensures Quiet() && alive ==> sys == old(sys)
      ensures alive <==> old(life) > 0
      ensures !alive ==> life == old(life)
      ensures issued == old(issued) + 1
    {
      var turns := others(issued);
      issued := issued + 1;
      var i := 0;
      while i < |turns|
        invariant 0 <= i <= |turns| && Valid() && old(trace) <= trace && life == old(life) && issued == old(issued) + 1
        invariant id in sys.ports <==> id in old(sys).ports
        invariant id in sys.ports ==> sys.ports[id] == old(sys).ports[id]
        invariant i == 0 ==> sys == old(sys)
      {
        if !Touches(turns[i], id) {
          OthersLeavePort(cfg, sys, turns[i], id);
          Happen(turns[i]);
          lists := sys.lists;
        }
        i := i + 1;
      }
      alive := life > 0;
      if alive { life := life - 1; } else { Happen(Crash(id)); }
    }

    /** The process starts. */
    method Begin()
      requires Valid() && id !in sys.ports
      modifies this`sys, this`trace
      ensures Valid() && old(trace) <= trace && At(Sweep) && MarksOf(sys) == MarksOf(old(sys))
    {
      Happen(Spawn(id));
    }

    /** r.lindex(opening_key, 0) and the decoding of what it returns. */
    method HeadOfOpening() returns (r: Reply<Option<Raw>>)
      requires Valid() && At(Sweep)
      modifies this
      ensures Valid() && old(trace) <= trace
      ensures match r
        case Killed => At(Gone) && life == 0
        case Got(None) => At(Recover)
        case Got(Some(raw)) => At(if cfg.decodes(raw) then Surface(raw) else Gone)
      ensures life == (if r.Got? then old(life) - 1 else old(life)) && issued == old(issued) + 1 && (r.Killed? ==> old(life) == 0)
      ensures Quiet() && r.Got? ==>
        && lists == old(lists) && sys.started == old(sys.started)
        && r.value == (if lists.opening == [] then None else Some(lists.opening[0]))
        && (lists.opening != [] ==> cfg.decodes(lists.opening[0]))
    {
      var alive := Yield();
      if !alive { return Killed; }
      r := Got(if lists.opening == [] then None else Some(lists.opening[0]));
      if lists.opening != [] && Quiet() { OnlyAcceptedFramesOpen(cfg, trace, lists.opening[0]); }
      Happen(Act(id, Returns));
    }

    /** r.lindex(processing_key, 0) */
    method HeadOfProcessing() returns (r: Reply<Option<Raw>>)
      requires Valid() && At(Recover)
      modifies this
      ensures Valid() && old(trace) <= trace
      ensures match r
        case Killed => At(Gone) && life == 0
        case Got(None) => At(Claim)
        case Got(Some(raw)) => At(Hold(raw))
      ensures life == (if r.Got? then old(life) - 1 else old(life)) && issued == old(issued) + 1 && (r.Killed? ==> old(life) == 0)
      ensures Quiet() && r.Got? ==>
        && lists == old(lists) && sys.started == old(sys.started)
        && r.value == (if lists.processing == [] then None else Some(lists.processing[0]))
    {
      var alive := Yield();
      if !alive { return Killed; }
      r := Got(if lists.processing == [] then None else Some(lists.processing[0]));
      Happen(Act(id, Returns));
    }

    /** r.lmove(ingress_key, processing_key, "LEFT", "RIGHT"), or the blocking form after its wait. */
    method ClaimNext() returns (r: Reply<Option<Raw>>)
      requires Valid() && At(Claim)
      modifies this
      ensures Valid() && old(trace) <= trace
      ensures match r
        case Killed => At(Gone) && life == 0
        case Got(None) => At(Done)
        case Got(Some(raw)) => At(Hold(raw))
      ensures life == (if r.Got? then old(life) - 1 else old(life)) && issued == old(issued) + 1 && (r.Killed? ==> old(life) == 0)
      ensures Quiet() && r.Got? ==>
        sys.started == old(sys.started) &&
        if old(lists.ingress) == [] then r.value == None && lists == old(lists)
        else
          && r.value == Some(old(lists.ingress)[0])
          && lists == old(lists).(ingress := old(lists.ingress)[1..],
                                  processing := old(lists.processing) + [old(lists.ingress)[0]])
    {
      var alive := Yield();
      if !alive { return Killed; }
      if lists.ingress == [] {
        r := Got(None);
      } else {
        r := Got(Some(lists.ingress[0]));
        lists := lists.(ingress := lists.ingress[1..], processing := lists.processing + [lists.ingress[0]]);
      }
      Happen(Act(id, Returns));
    }

    /** _TRANSFER_RECEIVE_CUSTODY: one compare-and-move; moving nothing makes the caller raise. */
    method Transfer(source: Place, destination: Place, raw: Raw, cap: nat) returns (r: Reply<bool>)
      requires Valid() && id in sys.ports && Transfers(cfg, sys.ports[id], source, destination, raw, cap)
      modifies this
      ensures Valid() && old(trace) <= trace && id in sys.ports
      ensures match r
        case Killed => At(Gone) && life == 0
        case Got(moved) =>
          if !moved then At(Gone)
          else if old(sys).ports[id].Hold? && destination == Opening then sys.ports[id].Entered? && sys.ports[id].raw == raw
          else At(Follows(cfg, old(sys).ports[id], 0))
      ensures life == (if r.Got? then old(life) - 1 else old(life)) && issued == old(issued) + 1 && (r.Killed? ==> old(life) == 0)
      ensures Quiet() && r.Got? && raw in ListOf(old(lists), source) ==>
        r.value && sys.started == old(sys.started) && lists == Rpush(Lrem(old(lists), source, raw), destination, raw, cap)
    {
      hide ActStep, Rpush, Lrem, Follows, Run, Quiet;
      var alive := Yield();
      if !alive { return Killed; }
      TransferIsStep(cfg, sys, id, source, destination, raw, cap, Returns);
      TicketOnly(cfg, sys.ports[id], destination, |sys.entries|, 0);
      if raw !in ListOf(lists, source) {
        r := Got(false);
      } else {
        lists := Rpush(Lrem(lists, source, raw), destination, raw, cap);
        r := Got(true);
      }
      Happen(Act(id, Returns));
    }

    /** opener(envelope): the effect starts, others go on meanwhile, and it ends one way or another. */
    method Open(raw: Raw) returns (end: OpenerEnd)
      requires Valid() && id in sys.ports && sys.ports[id].Entered? && sys.ports[id].raw == raw
      modifies this
      ensures Valid() && old(trace) <= trace && id in sys.ports
      ensures match end
        case Dies => At(Gone)
        case Ends(Returns) => sys.ports[id].ToOpened? && sys.ports[id].raw == raw
        case Ends(RaisesDeadLetter) => sys.ports[id].ToDead? && sys.ports[id].raw == raw
        case Ends(RaisesOther) => sys.ports[id].ToUnresolved? && sys.ports[id].raw == raw
      ensures life == (if old(life) == 0 then 0 else old(life) - 1) && issued == old(issued) + 1
      ensures end == if old(life) == 0 then Dies else opener(raw, issued)
      ensures Quiet() && old(life) > 0 ==> end.Ends? && lists == old(lists) && sys.started == old(sys.started) + [raw]
    {
      hide Run, Record, Judge, SweepStep, ClaimStep, SurfaceStep;
      Happen(Act(id, Returns));
      var alive := Yield();
      if !alive { return Dies; }
      end := opener(raw, issued);
      Happen(match end case Dies => Crash(id) case Ends(outcome) => Act(id, outcome));
    }

    /** The transfer that records how the opener ended, and after a DeadLetter the notice to the sender. */
    method RecordOutcome(raw: Raw, outcome: Outcome) returns (exit: Exit)
      requires Valid() && id in sys.ports && sys.ports[id].HasTicket() && sys.ports[id].raw == raw
      requires match outcome
        case Returns => sys.ports[id].ToOpened?
        case RaisesDeadLetter => sys.ports[id].ToDead?
        case RaisesOther => sys.ports[id].ToUnresolved?
      modifies this
      ensures Valid() && old(trace) <= trace
      ensures At(if exit == Fine then Claim else Gone)
      ensures old(life) - 1 <= life <= old(life) && (exit == Died ==> life == old(life) == 0)
      ensures Quiet() && old(lists.opening) == [raw] && cfg.Accepts(raw) && exit != Died ==>
        && (exit == Raised <==> outcome == RaisesDeadLetter && !cfg.answerable(raw))
        && life == old(life) - 1 && issued == old(issued) + 1
        && lists.ingress == old(lists.ingress) && lists.processing == old(lists.processing) && lists.opening == []
        && MarksOf(sys) == MarkOutcome(raw, outcome, MarksOf(old(sys)))
    {
      hide Step, Rpush, Lrem, Run, RemoveFirst, KeepLast;
      if outcome == RaisesOther && !cfg.decodes(raw) {
        Undecodable(raw);
        return Raised;
      }
      OutcomeLists(lists, outcome, raw);
      var recorded := Transfer(Opening, OutcomeList(outcome), raw, OutcomeCap(outcome));
      if recorded.Killed? { return Died; }
      if !recorded.value || (outcome == RaisesDeadLetter && !cfg.answerable(raw)) { return Raised; }
      exit := Fine;
    }

    /** raw.decode() raises before the record of a failed opener can be built. */
    method Undecodable(raw: Raw)
      requires Valid() && id in sys.ports && sys.ports[id].ToUnresolved? && sys.ports[id].raw == raw && !cfg.decodes(raw)
      modifies this`sys, this`trace, this`lists
      ensures Valid() && old(trace) <= trace && At(Gone)
    {
      Happen(Act(id, Returns));
      lists := sys.lists;
    }

    /** _open_received: `Fine` when it returns. */
    method OpenReceived(raw: Raw) returns (exit: Exit)
      requires Valid() && At(Hold(raw))
      modifies this
      ensures Valid() && old(trace) <= trace
      ensures At(if exit == Fine then Claim else Gone)
      ensures old(life) - 3 <= life <= old(life)
      ensures Quiet() && old(lists.opening) == [] && raw in old(lists.processing) ==>
        && (exit == Died ==> old(life) < Commands(cfg, raw))
        && (exit != Died ==>
              && (exit == Raised <==> Trips(cfg, opener, raw, old(issued)))
              && life == old(life) - Commands(cfg, raw) && issued == old(issued) + Commands(cfg, raw)
              && lists.ingress == old(lists.ingress) && lists.opening == []
              && lists.processing == (if cfg.Breaks(raw) then old(lists.processing) else RemoveFirst(old(lists.processing), raw))
              && MarksOf(sys) == Marked(cfg, opener, raw, old(issued), MarksOf(old(sys))))
    {
      hide Step, RemoveFirst, Quiet, Run, MarkOutcome;
      if cfg.Breaks(raw) {
        exit := ParseFails(raw);
      } else if !cfg.Accepts(raw) || !cfg.opens(raw) {
        exit := Refuse(raw);
      } else {
        exit := Enter(raw);
        if exit != Fine { return; }
        var end := Open(raw);
        if end.Dies? { return Died; }
        exit := RecordOutcome(raw, end.outcome);
      }
    }

    /** parse raises something other than EnvelopeError: nothing is moved, and nothing catches it. */
    method ParseFails(raw: Raw) returns (exit: Exit)
      requires Valid() && At(Hold(raw)) && cfg.Breaks(raw)
      modifies this`sys, this`trace
      ensures Valid() && old(trace) <= trace && At(Gone) && exit == Raised && MarksOf(sys) == MarksOf(old(sys))
    {
      Happen(Act(id, Returns));
      exit := Raised;
    }

    /** To dead unopened; the sender of a frame that parsed is told. */
    method Refuse(raw: Raw) returns (exit: Exit)
      requires Valid() && At(Hold(raw)) && !cfg.Breaks(raw) && !(cfg.Accepts(raw) && cfg.opens(raw))
      modifies this
      ensures Valid() && old(trace) <= trace
      ensures At(if exit == Fine then Claim else Gone)
      ensures old(life) - 1 <= life <= old(life) && (exit == Died ==> old(life) == 0)
      ensures Quiet() && raw in old(lists.processing) && exit != Died ==>
        && (exit == Raised <==> cfg.Accepts(raw) && !cfg.answerable(raw))
        && life == old(life) - 1 && issued == old(issued) + 1
        && lists.ingress == old(lists.ingress) && lists.opening == old(lists.opening)
        && lists.processing == RemoveFirst(old(lists.processing), raw)
        && MarksOf(sys) == MarksOf(old(sys)).(dead := old(lists.dead) + [raw])
    {
      hide Step, RemoveFirst;
      var refused := Transfer(Processing, Dead, raw, 0);
      if refused.Killed? { return Died; }
      if !refused.value || (cfg.Accepts(raw) && !cfg.answerable(raw)) { return Raised; }
      exit := Fine;
    }

    /** The truth boundary: processing to opening. */
    method Enter(raw: Raw) returns (exit: Exit)
      requires Valid() && At(Hold(raw)) && cfg.Accepts(raw) && cfg.opens(raw)
      modifies this
      ensures Valid() && old(trace) <= trace && id in sys.ports
      ensures if exit == Fine then sys.ports[id].Entered? && sys.ports[id].raw == raw else At(Gone)
      ensures exit == Died ==> life == old(life) == 0
      ensures exit != Died ==> life == old(life) - 1 && issued == old(issued) + 1
      ensures Quiet() && old(lists.opening) == [] && raw in old(lists.processing) && exit != Died ==>
        && exit == Fine && lists.opening == [raw] && lists.ingress == old(lists.ingress)
        && lists.processing == RemoveFirst(old(lists.processing), raw) && MarksOf(sys) == MarksOf(old(sys))
    {
      hide Step, RemoveFirst;
      var entered := Transfer(Processing, Opening, raw, 0);
      exit := if entered.Killed? then Died else if entered.value then Fine else Raised;
    }

    /** One turn of the sweep: the head of opening, if there is one, goes to unresolved. */
    method SurfaceHead() returns (found: Reply<bool>, exit: Exit)
      requires Valid() && At(Sweep)
      modifies this
      ensures Valid() && old(trace) <= trace && life <= old(life)
      ensures At(if exit != Fine then Gone else if found == Got(true) then Sweep else Recover)
      ensures exit == Fine ==> found.Got? && life < old(life)
      ensures Quiet() ==>
        && exit != Raised
        && (exit == Died ==> old(life) < if old(lists.opening) == [] then 1 else 2)
        && (exit == Fine ==>
              && lists.processing == old(lists.processing) && lists.ingress == old(lists.ingress)
              && if old(lists.opening) == [] then
                   && found == Got(false) && lists.opening == [] && MarksOf(sys) == MarksOf(old(sys))
                   && life == old(life) - 1 && issued == old(issued) + 1
                 else
                   && found == Got(true) && lists.opening == old(lists.opening)[1..]
                   && MarksOf(sys) == Surfaced(MarksOf(old(sys)), [old(lists.opening)[0]])
                   && life == old(life) - 2 && issued == old(issued) + 2)
    {
      hide Step, Rpush;
      found := Killed;
      var uncertain := HeadOfOpening();
      if uncertain.Killed? { return Killed, Died; }
      if uncertain.value == None { return Got(false), Fine; }
      var raw := uncertain.value.value;
      if !cfg.decodes(raw) { return Killed, Raised; }
      if Quiet() { OnlyAcceptedFramesOpen(cfg, trace, raw); }
      RpushElsewhere(lists, raw);
      var moved := Transfer(Opening, Unresolved(ProcessExited), raw, 0);
      if moved.Killed? { return Killed, Died; }
      if !moved.value || cfg.Breaks(raw) { return Killed, Raised; }
      return Got(true), Fine;
    }

    /** The sweep that surfaces what a predecessor left in opening. */
    method SurfaceUncertain() returns (exit: Exit)
      requires Valid() && At(Sweep)
      modifies this
      ensures Valid() && old(trace) <= trace
      ensures At(if exit == Fine then Recover else Gone)
      ensures Quiet() ==>
        && exit != Raised
        && (exit == Died ==> old(life) < 2 * |old(lists.opening)| + 1)
        && (exit == Fine ==>
              && life == old(life) - 2 * |old(lists.opening)| - 1 && issued == old(issued) + 2 * |old(lists.opening)| + 1
              && lists.opening == [] && lists.processing == old(lists.processing) && lists.ingress == old(lists.ingress)
              && MarksOf(sys) == Surfaced(MarksOf(old(sys)), old(lists.opening)))
    {
      hide Step, Run;
      ghost var k := 0;
      assert lists.opening[..0] == [] && lists.opening[0..] == lists.opening;
      var more := true;
      exit := Fine;
      while more
        invariant Valid() && old(trace) <= trace && At(if more then Sweep else Recover) && life <= old(life) && exit == Fine
        invariant Quiet() ==>
          && life == old(life) - 2 * (|old(lists.opening)| - |lists.opening|) - One(!more)
          && issued == old(issued) + 2 * (|old(lists.opening)| - |lists.opening|) + One(!more)
          && k <= |old(lists.opening)| && lists.opening == old(lists.opening)[k..] && (more || lists.opening == [])
          && MarksOf(sys) == Surfaced(MarksOf(old(sys)), old(lists.opening)[..k])
          && lists.processing == old(lists.processing) && lists.ingress == old(lists.ingress)
        decreases life, more
      {
        var found;
        found, exit := SurfaceHead();
        if exit != Fine { return; }
        more := found.value;
        if more && Quiet() {
          SurfacedNext(MarksOf(old(sys)), old(lists.opening), k);
          k := k + 1;
        }
      }
    }

    /** One turn of the loop: open the held frame, claim the next. */
    method OpenAndClaim(raw: Raw) returns (exit: Exit, next: Reply<Option<Raw>>)
      requires Valid() && At(Hold(raw))
      modifies this
      ensures Valid() && old(trace) <= trace && life <= old(life)
      ensures exit != Fine ==> At(Gone)
      ensures exit == Fine && next.Killed? ==> At(Gone)
      ensures exit == Fine && next.Got? ==> At(if next.value.Some? then Hold(next.value.value) else Done) && life < old(life)
      ensures Quiet() && old(lists.opening) == [] && raw in old(lists.processing) ==>
        && (exit == Died || (exit == Fine && next.Killed?) ==> old(life) < 4)
        && (exit == Raised ==>
              && Trips(cfg, opener, raw, old(issued)) && lists.opening == [] && lists.ingress == old(lists.ingress)
              && MarksOf(sys) == Marked(cfg, opener, raw, old(issued), MarksOf(old(sys)))
              && (cfg.Breaks(raw) ==> raw in lists.processing))
        && (exit == Fine && next.Got? ==>
              && !Trips(cfg, opener, raw, old(issued)) && life >= old(life) - 4
              && MarksOf(sys) == Marked(cfg, opener, raw, old(issued), MarksOf(old(sys)))
              && issued == old(issued) + Commands(cfg, raw) + 1
              && lists.opening == [] && Coherent(next, lists) && Ahead(next, lists) == old(lists.ingress)
              && |lists.processing| == |old(lists.processing)| - 1 + One(next.value.Some?))
    {
      CommandsAreFew(cfg, raw);
      hide Step, Trips, Commands, Run, Quiet, Marked;
      if !Trips(cfg, opener, raw, issued) { UntrippedParses(cfg, opener, raw, issued); }
      next := Killed;
      exit := OpenReceived(raw);
      if exit != Fine { return; }
      next := ClaimNext();
    }

    /** The loop of receive: open the held frame, claim the next, until ingress is empty. */
    method Drain(first: Reply<Option<Raw>>) returns (exit: Exit)
      requires Valid()
      requires first.Killed? ==> At(Gone) && life == 0
      requires first.Got? ==> At(if first.value.Some? then Hold(first.value.value) else Done)
      modifies this
      ensures Valid() && old(trace) <= trace
      ensures At(if exit == Fine then Done else Gone)
      ensures first.Killed? ==> exit == Died
      ensures Quiet() && old(lists.opening) == [] && Coherent(first, old(lists)) ==>
        var frames := Ahead(first, old(lists));
        var n := Reach(cfg, opener, frames, old(issued));
        && (exit == Died ==> old(life) < 4 * |frames|)
        && (exit != Died ==> MarksOf(sys) == MarkedAll(cfg, opener, frames, old(issued), MarksOf(old(sys))))
        && (exit == Fine ==>
              && n == |frames| && lists.ingress == [] && lists.opening == []
              && |lists.processing| == |old(lists.processing)| - One(first.value.Some?))
        && (exit == Raised ==>
              && n < |frames| && lists.ingress == frames[n + 1..] && lists.opening == []
              && (cfg.Breaks(frames[n]) ==> frames[n] in lists.processing))
    {
      hide Step, Run, Trips, Commands, Reach, Quiet, Marked, MarkedAll;
      ghost var frames := Ahead(first, lists);
      ghost var before := lists.processing;
      ghost var quiet := Quiet() && lists.opening == [] && Coherent(first, lists);
      ghost var k := 0;
      var claimed := first;
      assert frames[0..] == frames;
      while claimed.Got? && claimed.value.Some?
        invariant Valid() && old(trace) <= trace
        invariant claimed.Killed? ==> At(Gone)
        invariant first.Killed? || first == Got(None) ==> claimed == first
        invariant claimed.Got? ==> At(if claimed.value.Some? then Hold(claimed.value.value) else Done)
        invariant quiet ==> k <= |frames|
        invariant quiet && claimed.Killed? ==> old(life) < 4 * |frames|
        invariant quiet && claimed.Got? ==>
          && lists.opening == [] && Coherent(claimed, lists) && frames[k..] == Ahead(claimed, lists)
          && Reach(cfg, opener, frames, old(issued)) == k + Reach(cfg, opener, frames[k..], issued)
          && MarkedAll(cfg, opener, frames, old(issued), MarksOf(old(sys)))
             == MarkedAll(cfg, opener, frames[k..], issued, MarksOf(sys))
          && |lists.processing| == |before| - One(first.value.Some?) + One(claimed.value.Some?)
          && life >= old(life) - 4 * k
        decreases if claimed.Got? then life + 1 else 0
      {
        if quiet {
          assert frames[k..][0] == claimed.value.value;
          assert frames[k..][1..] == frames[k + 1..] && frames[k..][1..] == lists.ingress;
          ReachHead(cfg, opener, frames[k..], issued);
          MarkedHead(cfg, opener, frames[k..], issued, MarksOf(sys));
        }
        exit, claimed := OpenAndClaim(claimed.value.value);
        if exit != Fine { return; }
        k := k + 1;
      }
      if quiet && claimed.Got? { ReachNone(cfg, opener, frames[k..], issued, MarksOf(sys)); }
      exit := if claimed.Killed? then Died else Fine;
    }

    /** Recover what a predecessor had claimed, or else claim the head of ingress. */
    method FirstClaim() returns (claimed: Reply<Option<Raw>>)
      requires Valid() && At(Recover)
      modifies this
      ensures Valid() && old(trace) <= trace
      ensures claimed.Killed? ==> At(Gone) && life == 0
      ensures claimed.Got? ==> At(if claimed.value.Some? then Hold(claimed.value.value) else Done)
      ensures Quiet() && old(lists.opening) == [] ==>
        && (claimed.Killed? ==> old(life) < 2)
        && (claimed.Got? ==>
              && MarksOf(sys) == MarksOf(old(sys))
              && lists.opening == [] && Coherent(claimed, lists) && Ahead(claimed, lists) == ToOpen(old(lists))
              && if old(lists.processing) != [] then
                   life == old(life) - 1 && issued == old(issued) + 1 && lists == old(lists) && claimed.value.Some?
                 else life == old(life) - 2 && issued == old(issued) + 2 && |lists.processing| == One(claimed.value.Some?))
    {
      hide Step;
      claimed := HeadOfProcessing();
      if claimed == Got(None) { claimed := ClaimNext(); }
    }

    /**
     receive. Alone, and alive long enough, it returns exactly when no frame it meets makes it raise:
     then ingress and opening are empty, and processing is empty too exactly when there was at most
     one frame to recover. Otherwise it raises at the first such frame and leaves the rest in ingress.
     Either way every frame it met was opened and recorded as its opener said, in order.
     */
    method Receive() returns (exit: Exit)
      requires Valid() && id !in sys.ports
      modifies this
      ensures Valid() && old(trace) <= trace
      ensures At(if exit == Fine then Done else Gone)
      ensures Quiet() && old(life) >= 2 * |old(lists.opening)| + 4 * |old(lists.ingress)| + 6 ==> exit != Died
      ensures Quiet() && exit != Died ==>
        var frames := ToOpen(old(lists));
        var n := Reach(cfg, opener, frames, old(issued) + Before(old(lists)));
        && lists.opening == []
        && MarksOf(sys) == MarkedAll(cfg, opener, frames, old(issued) + Before(old(lists)),
                                     Surfaced(MarksOf(old(sys)), old(lists.opening)))
        && (exit == Fine <==> n == |frames|)
        && (exit == Fine ==> lists.ingress == [] && (lists.processing == [] <==> |old(lists.processing)| <= 1))
        && (exit == Raised ==>
              lists.ingress == frames[n + 1..] && (cfg.Breaks(frames[n]) ==> frames[n] in lists.processing))
    {
      hide Step, RunFrom, Reach, Quiet, MarkedAll;
      Begin();
      exit := SurfaceUncertain();
      if exit != Fine { return; }
      var claimed := FirstClaim();
      exit := Drain(claimed);
    }
  }

  lemma ReachHead(cfg: Config, opener: (Raw, nat) -> OpenerEnd, frames: seq<Raw>, at: nat)
    requires frames != []
    ensures Reach(cfg, opener, frames, at)
      == if Trips(cfg, opener, frames[0], at) then 0 else 1 + Reach(cfg, opener, frames[1..], at + Commands(cfg, frames[0]) + 1)
  {
  }

  lemma MarkedHead(cfg: Config, opener: (Raw, nat) -> OpenerEnd, frames: seq<Raw>, at: nat, m: Marks)
    requires frames != []
    ensures MarkedAll(cfg, opener, frames, at, m)
      == var next := Marked(cfg, opener, frames[0], at, m);
         if Trips(cfg, opener, frames[0], at) then next
         else MarkedAll(cfg, opener, frames[1..], at + Commands(cfg, frames[0]) + 1, next)
  {
  }

  lemma SurfacedNext(m: Marks, opening: seq<Raw>, k: nat)
    requires k < |opening|
    ensures opening[k..] != [] && opening[k..][0] == opening[k] && opening[k..][1..] == opening[k + 1..]
    ensures Surfaced(Surfaced(m, opening[..k]), [opening[k]]) == Surfaced(m, opening[..k + 1])
  {
    assert Exited(opening[..k]) + Exited([opening[k]]) == Exited(opening[..k + 1]);
    assert m.unresolved + Exited(opening[..k]) + Exited([opening[k]])
      == m.unresolved + (Exited(opening[..k]) + Exited([opening[k]]));
  }

  lemma ReachNone(cfg: Config, opener: (Raw, nat) -> OpenerEnd, frames: seq<Raw>, at: nat, m: Marks)
    requires frames == []
    ensures Reach(cfg, opener, frames, at) == 0 && MarkedAll(cfg, opener, frames, at, m) == m
  {
  }

  lemma UntrippedParses(cfg: Config, opener: (Raw, nat) -> OpenerEnd, raw: Raw, at: nat)
    requires !Trips(cfg, opener, raw, at)
    ensures !cfg.Breaks(raw)
  {
  }

  lemma CommandsAreFew(cfg: Config, raw: Raw)
    ensures Commands(cfg, raw) <= 3
  {
  }

  function OutcomeList(outcome: Outcome): Place {
    match outcome case Returns => Opened case RaisesDeadLetter => Dead case RaisesOther => Unresolved(OpenerFailed)
  }

  function OutcomeCap(outcome: Outcome): nat { if outcome.Returns? then OPENED_RECEIPT_MAX else 0 }

  /** Recording an outcome takes the one frame out of opening and leaves the earlier lists alone. */
  lemma OutcomeLists(l: Lists, outcome: Outcome, raw: Raw)
    ensures var after := Rpush(Lrem(l, Opening, raw), OutcomeList(outcome), raw, OutcomeCap(outcome));
      && after.ingress == l.ingress && after.processing == l.processing && (l.opening == [raw] ==> after.opening == [])
      && forall m: Marks :: m.dead == l.dead && m.receipts == l.receipts && m.unresolved == l.unresolved ==>
           MarkOutcome(raw, outcome, m) == Marks(m.started, after.dead, after.receipts, after.unresolved)
  {
    hide RemoveFirst;
    if l.opening == [raw] { assert RemoveFirst(l.opening, raw) == []; }
  }

  lemma TicketOnly(cfg: Config, pc: Pc, destination: Place, a: nat, b: nat)
    requires pc.Hold? ==> (destination == Opening <==> cfg.Accepts(pc.raw) && cfg.opens(pc.raw))
    ensures pc.Hold? && destination == Opening ==> Follows(cfg, pc, a) == Entered(pc.raw, a)
    ensures !(pc.Hold? && destination == Opening) ==> Follows(cfg, pc, a) == Follows(cfg, pc, b)
  {
  }

  /** A push elsewhere leaves these three lists alone; surfacing the head of opening takes it from there to unresolved. */
  lemma RpushElsewhere(l: Lists, raw: Raw)
    ensures l.opening != [] && l.opening[0] == raw ==>
      Rpush(Lrem(l, Opening, raw), Unresolved(ProcessExited), raw, 0)
        == l.(opening := l.opening[1..], unresolved := l.unresolved + Exited([raw]))
    ensures forall place: Place, cap: nat :: place != Processing && place != Opening ==>
      Rpush(l, place, raw, cap).ingress == l.ingress && Rpush(l, place, raw, cap).processing == l.processing
      && Rpush(l, place, raw, cap).opening == l.opening
  {
  }
}
