/**
 What every run of the custody protocol keeps, whatever the interleaving: conservation of admitted
 copies, at most one effect per copy, and the truth of the evidence in every list.
 */
module CustodySafety {
  import opened Prelude
  import opened Custody

  function One(present: bool): nat { if present then 1 else 0 }

  /** How many copies of `raw` a list holds. */
  ghost function Copies(s: seq<Raw>, raw: Raw): nat {
    if s == [] then 0 else Copies(s[..|s| - 1], raw) + One(s[|s| - 1] == raw)
  }

  lemma {:induction false} CopiesIsMultiset(s: seq<Raw>, raw: Raw)
    ensures Copies(s, raw) == multiset(s)[raw]
    decreases |s|
  {
    if s != [] {
      CopiesIsMultiset(s[..|s| - 1], raw);
      assert s == s[..|s| - 1] + [s[|s| - 1]];
    }
  }

  lemma NoCopies(s: seq<Raw>, raw: Raw)
    requires |s| == 0
    ensures Copies(s, raw) == 0
  {
  }

  lemma CopiesAppend(s: seq<Raw>, x: Raw, raw: Raw)
    ensures Copies(s + [x], raw) == Copies(s, raw) + One(x == raw)
  {
    assert (s + [x])[..|s|] == s;
  }

  lemma CopiesConcat(a: seq<Raw>, b: seq<Raw>, raw: Raw)
    ensures Copies(a + b, raw) == Copies(a, raw) + Copies(b, raw)
  {
    CopiesIsMultiset(a + b, raw);
    CopiesIsMultiset(a, raw);
    CopiesIsMultiset(b, raw);
  }

  lemma CopiesRemove(s: seq<Raw>, x: Raw, raw: Raw)
    requires x in s
    ensures Copies(s, raw) == Copies(RemoveFirst(s, x), raw) + One(x == raw)
  {
    CopiesIsMultiset(s, raw);
    CopiesIsMultiset(RemoveFirst(s, x), raw);
  }

  lemma CopiesHead(s: seq<Raw>, raw: Raw)
    requires s != []
    ensures Copies(s, raw) == Copies(s[1..], raw) + One(s[0] == raw)
  {
    CopiesConcat([s[0]], s[1..], raw);
    assert s == [s[0]] + s[1..];
    CopiesAppend([], s[0], raw);
  }

  ghost function Names<T>(log: seq<Tagged<T>>): seq<Raw> {
    seq(|log|, i requires 0 <= i < |log| => log[i].raw)
  }

  /** How many copies of `raw` a log holds, and how many of them under `tag`. */
  ghost function Total<T>(log: seq<Tagged<T>>, raw: Raw): nat {
    if log == [] then 0 else Total(log[..|log| - 1], raw) + One(log[|log| - 1].raw == raw)
  }

  ghost function Logged<T>(log: seq<Tagged<T>>, tag: T, raw: Raw): (n: nat)
    ensures n <= Total(log, raw)
  {
    if log == [] then 0 else Logged(log[..|log| - 1], tag, raw) + One(log[|log| - 1] == Tagged(tag, raw))
  }

  lemma NothingLogged<T>(log: seq<Tagged<T>>, raw: Raw)
    requires |log| == 0
    ensures Total(log, raw) == 0
  {
  }

  lemma LoggedAppend<T>(log: seq<Tagged<T>>, x: Tagged<T>, tag: T, raw: Raw)
    ensures Logged(log + [x], tag, raw) == Logged(log, tag, raw) + One(x == Tagged(tag, raw))
    ensures Total(log + [x], raw) == Total(log, raw) + One(x.raw == raw)
  {
    assert (log + [x])[..|log|] == log;
  }

  /** Retagging one entry moves exactly its frame. */
  lemma {:induction false} LoggedRetag<T>(log: seq<Tagged<T>>, k: nat, to: T, tag: T, raw: Raw)
    requires k < |log|
    ensures var after := log[k := log[k].(tag := to)];
      && Total(after, raw) == Total(log, raw)
      && Logged(after, tag, raw) + One(log[k] == Tagged(tag, raw))
           == Logged(log, tag, raw) + One(to == tag && log[k].raw == raw)
    decreases |log|
  {
    var n := |log| - 1;
    var after := log[k := log[k].(tag := to)];
    if k == n {
      assert after[..n] == log[..n];
    } else {
      LoggedRetag(log[..n], k, to, tag, raw);
      assert after[..n] == log[..n][k := log[k].(tag := to)];
    }
  }

  lemma {:induction false} LoggedDoubted(log: seq<Tagged<Doubt>>, raws: seq<Raw>, raw: Raw)
    ensures Logged(log + Doubted(raws), OpenerFailed, raw) == Logged(log, OpenerFailed, raw)
    ensures Total(log + Doubted(raws), raw) == Total(log, raw) + Copies(raws, raw)
    decreases |raws|
  {
    hide Copies, Total, Logged;
    if raws == [] {
      NoCopies(raws, raw);
      assert log + Doubted(raws) == log;
    } else {
      var n := |raws| - 1;
      LoggedDoubted(log, raws[..n], raw);
      CopiesAppend(raws[..n], raws[n], raw);
      LoggedAppend(log + Doubted(raws[..n]), Tagged(RetiredWhileOpening, raws[n]), OpenerFailed, raw);
      assert raws == raws[..n] + [raws[n]];
      assert log + Doubted(raws) == log + Doubted(raws[..n]) + [Tagged(RetiredWhileOpening, raws[n])];
    }
  }

  /** How many copies of one frame sit in, or were logged under, each place. */
  datatype Tally = Tally(
    admitted: nat, ingress: nat, processing: nat, opening: nat, acknowledged: nat, undeliverable: nat,
    refused: nat, openerRefused: nat,             // put in dead unopened / after DeadLetter
    unresolved: nat, failed: nat,                 // all of unresolved / "opener failed"
    entered: nat, waiting: nat, started: nat,
    recordedOpened: nat, recordedDead: nat, recordedFailed: nat)
  {
    /** Copies that are, or ever were, past the effect boundary. */
    ghost function Past(): nat { opening + acknowledged + openerRefused + unresolved }

    /** Copies that ended without their opener being called. */
    ghost function NeverOpened(): nat { undeliverable + refused }

    /** What the books are out by: nothing, in every reachable state. */
    ghost function Drift(): Gap {
      Gap(admitted - ingress - processing - NeverOpened() - Past(), entered - Past(),
                  entered - started - waiting, acknowledged - recordedOpened,
                  openerRefused - recordedDead, failed - recordedFailed)
    }
  }

  /** Copies lost, entries lost, starts lost, and outcomes recorded without having happened. */
  datatype Gap = Gap(copies: int, entries: int, starts: int, receipts: int, dead: int, failed: int)

  const NO_DRIFT := Gap(0, 0, 0, 0, 0, 0)

  ghost function TallyOf(s: Sys, raw: Raw): Tally {
    Tally(Copies(s.admitted, raw), Copies(s.lists.ingress, raw), Copies(s.lists.processing, raw),
          Copies(s.lists.opening, raw), Copies(s.openedLog, raw), Copies(s.lists.undeliverable, raw),
          Logged(s.deadLog, RefusedUnopened, raw), Logged(s.deadLog, OpenerRefused, raw),
          Total(s.lists.unresolved, raw), Logged(s.lists.unresolved, OpenerFailed, raw),
          Total(s.entries, raw), Logged(s.entries, Waiting, raw), Copies(s.started, raw),
          Logged(s.entries, RecordedOpened, raw), Logged(s.entries, RecordedDead, raw),
          Logged(s.entries, RecordedFailed, raw))
  }

  // ---- what each move does to the tally ----

  lemma TallyToDead(s: Sys, x: Raw, cause: Cause, raw: Raw)
    ensures var t := TallyOf(s, raw);
      TallyOf(ToDeadList(s, x, cause), raw)
        == t.(refused := t.refused + One(cause == RefusedUnopened && x == raw),
              openerRefused := t.openerRefused + One(cause == OpenerRefused && x == raw))
  {
    LoggedAppend(s.deadLog, Tagged(cause, x), RefusedUnopened, raw);
    LoggedAppend(s.deadLog, Tagged(cause, x), OpenerRefused, raw);
  }

  lemma TallyToUnresolved(s: Sys, x: Raw, doubt: Doubt, raw: Raw)
    ensures var t := TallyOf(s, raw);
      TallyOf(ToUnresolvedList(s, x, doubt), raw)
        == t.(unresolved := t.unresolved + One(x == raw),
              failed := t.failed + One(doubt == OpenerFailed && x == raw))
  {
    LoggedAppend(s.lists.unresolved, Tagged(doubt, x), OpenerFailed, raw);
  }

  lemma TallyTakeOpening(s: Sys, x: Raw, raw: Raw)
    requires x in s.lists.opening
    ensures var t := TallyOf(s, raw);
      t.opening >= One(x == raw) && TallyOf(TakeOpening(s, x), raw) == t.(opening := t.opening - One(x == raw))
  {
    CopiesRemove(s.lists.opening, x, raw);
  }

  /** An entry that is not yet recorded moves to stage `to`. */
  lemma TallyRetag(s: Sys, k: nat, to: Stage, raw: Raw)
    requires k < |s.entries| && to != Waiting
    requires s.entries[k].tag !in {RecordedOpened, RecordedDead, RecordedFailed}
    ensures var t, e := TallyOf(s, raw), s.entries[k];
      t.waiting >= One(e == Tagged(Waiting, raw)) &&
      TallyOf(s.(entries := SetStage(s.entries, k, to)), raw)
        == t.(waiting := t.waiting - One(e == Tagged(Waiting, raw)),
              recordedOpened := t.recordedOpened + One(to == RecordedOpened && e.raw == raw),
              recordedDead := t.recordedDead + One(to == RecordedDead && e.raw == raw),
              recordedFailed := t.recordedFailed + One(to == RecordedFailed && e.raw == raw))
  {
    LoggedRetag(s.entries, k, to, Waiting, raw);
    LoggedRetag(s.entries, k, to, RecordedOpened, raw);
    LoggedRetag(s.entries, k, to, RecordedDead, raw);
    LoggedRetag(s.entries, k, to, RecordedFailed, raw);
  }

  lemma TallyToOpened(s: Sys, x: Raw, raw: Raw)
    ensures var t := TallyOf(s, raw);
      TallyOf(ToOpenedList(s, x), raw) == t.(acknowledged := t.acknowledged + One(x == raw))
  {
    CopiesAppend(s.openedLog, x, raw);
  }

  lemma TallyTakeProcessing(s: Sys, x: Raw, raw: Raw)
    requires x in s.lists.processing
    ensures var t := TallyOf(s, raw);
      t.processing >= One(x == raw) && TallyOf(TakeProcessing(s, x), raw) == t.(processing := t.processing - One(x == raw))
  {
    CopiesRemove(s.lists.processing, x, raw);
  }

  lemma TallyEnter(s: Sys, x: Raw, raw: Raw)
    ensures var t := TallyOf(s, raw); var n := One(x == raw);
      TallyOf(EnterOpening(s, x), raw)
        == t.(opening := t.opening + n, entered := t.entered + n, waiting := t.waiting + n)
  {
    CopiesAppend(s.lists.opening, x, raw);
    LoggedAppend(s.entries, Tagged(Waiting, x), Waiting, raw);
    LoggedAppend(s.entries, Tagged(Waiting, x), RecordedOpened, raw);
    LoggedAppend(s.entries, Tagged(Waiting, x), RecordedDead, raw);
    LoggedAppend(s.entries, Tagged(Waiting, x), RecordedFailed, raw);
  }

  lemma TallyClaim(s: Sys, raw: Raw)
    requires s.lists.ingress != []
    ensures var t := TallyOf(s, raw); var n := One(s.lists.ingress[0] == raw);
      t.ingress >= n && TallyOf(ClaimHead(s), raw) == t.(ingress := t.ingress - n, processing := t.processing + n)
  {
    CopiesHead(s.lists.ingress, raw);
    CopiesAppend(s.lists.processing, s.lists.ingress[0], raw);
  }

  // ---- the invariant ----

  ghost function StageAt(pc: Pc): Stage
    requires pc.HasTicket()
  {
    match pc
    case Entered(_, _) => Waiting
    case Running(_, _) => Started
    case ToOpened(_, _) => SaidOpened
    case ToDead(_, _) => SaidDead
    case ToUnresolved(_, _) => SaidFailed
  }

  /** A process past the boundary owns one entry, and that entry is at the stage the process is at. */
  ghost predicate Owned(entries: seq<Tagged<Stage>>, ports: map<nat, Pc>) {
    && (forall p :: p in ports && ports[p].HasTicket() ==>
          && ports[p].ticket < |entries|
          && entries[ports[p].ticket] == Tagged(StageAt(ports[p]), ports[p].raw))
    && (forall p, q :: p in ports && q in ports && p != q && ports[p].HasTicket() && ports[q].HasTicket()
          ==> ports[p].ticket != ports[q].ticket)
  }

  /** Every frame that ever entered opening is one that parse accepted and that has an opener. */
  ghost predicate EntriesAccepted(cfg: Config, entries: seq<Tagged<Stage>>) {
    forall k :: 0 <= k < |entries| ==> cfg.Accepts(entries[k].raw) && cfg.opens(entries[k].raw)
  }

  lemma OwnedEnter(entries: seq<Tagged<Stage>>, ports: map<nat, Pc>, p: nat, raw: Raw)
    requires Owned(entries, ports)
    ensures Owned(entries + [Tagged(Waiting, raw)], ports[p := Entered(raw, |entries|)])
  {
  }

  lemma OwnedLeave(entries: seq<Tagged<Stage>>, ports: map<nat, Pc>, p: nat, pc: Pc)
    requires Owned(entries, ports) && !pc.HasTicket()
    ensures Owned(entries, ports[p := pc])
  {
  }

  lemma OwnedMove(entries: seq<Tagged<Stage>>, ports: map<nat, Pc>, p: nat, pc: Pc, stage: Stage)
    requires Owned(entries, ports) && p in ports && ports[p].HasTicket()
    requires pc.HasTicket() ==> pc.ticket == ports[p].ticket && pc.raw == ports[p].raw && stage == StageAt(pc)
    ensures Owned(SetStage(entries, ports[p].ticket, stage), ports[p := pc])
  {
  }

  lemma OwnedStep(cfg: Config, s: Sys, e: Event)
    requires Owned(s.entries, s.ports)
    ensures Owned(Step(cfg, s, e).entries, Step(cfg, s, e).ports)
  {
    match e
    case Act(p, outcome) =>
      if p in s.ports {
        var t := ActStep(cfg, s, p, outcome);
        match s.ports[p]
        case Hold(raw) =>
          if t.entries == s.entries { OwnedLeave(s.entries, s.ports, p, t.ports[p]); }
          else { OwnedEnter(s.entries, s.ports, p, raw); }
        case Entered(_, _) => OwnedMove(s.entries, s.ports, p, t.ports[p], Started);
        case Running(_, _) => OwnedMove(s.entries, s.ports, p, t.ports[p], StageAt(t.ports[p]));
        case ToOpened(_, _) => OwnedRecord(cfg, s, p, RecordedOpened);
        case ToDead(_, _) => OwnedRecord(cfg, s, p, RecordedDead);
        case ToUnresolved(_, _) => OwnedRecord(cfg, s, p, RecordedFailed);
        case Done =>
        case Gone =>
        case _ => OwnedLeave(s.entries, s.ports, p, t.ports[p]);
      }
    case Spawn(p) => OwnedLeave(s.entries, s.ports, p, Sweep);
    case Crash(p) => OwnedLeave(s.entries, s.ports, p, Gone);
    case _ =>
  }

  lemma OwnedRecord(cfg: Config, s: Sys, p: nat, stage: Stage)
    requires Owned(s.entries, s.ports) && p in s.ports
    requires match s.ports[p]
      case ToOpened(_, _) => stage == RecordedOpened
      case ToDead(_, _) => stage == RecordedDead
      case ToUnresolved(_, _) => stage == RecordedFailed
      case _ => false
    ensures Owned(Record(cfg, s, p).entries, Record(cfg, s, p).ports)
  {
    OwnedLeave(s.entries, s.ports, p, Gone);
    OwnedMove(s.entries, s.ports, p, Claim, stage);
  }

  lemma AcceptedRecord(cfg: Config, s: Sys, p: nat)
    requires EntriesAccepted(cfg, s.entries) && p in s.ports
    requires s.ports[p].ToOpened? || s.ports[p].ToDead? || s.ports[p].ToUnresolved?
    ensures EntriesAccepted(cfg, Record(cfg, s, p).entries)
  {
  }

  lemma AcceptedStep(cfg: Config, s: Sys, e: Event)
    requires EntriesAccepted(cfg, s.entries)
    ensures EntriesAccepted(cfg, Step(cfg, s, e).entries)
  {
    match e
    case Act(p, outcome) =>
      if p in s.ports {
        match s.ports[p]
        case Hold(_) =>
        case Entered(_, _) =>
        case Running(_, _) =>
        case ToOpened(_, _) => AcceptedRecord(cfg, s, p);
        case ToDead(_, _) => AcceptedRecord(cfg, s, p);
        case ToUnresolved(_, _) => AcceptedRecord(cfg, s, p);
        case _ =>
      }
    case _ =>
  }

  ghost function DriftOf(s: Sys, raw: Raw): Gap { TallyOf(s, raw).Drift() }

  /** Only the lists and logs count: where the processes stand does not. */
  lemma TallyAt(s: Sys, p: nat, pc: Pc, raw: Raw)
    ensures TallyOf(At(s, p, pc), raw) == TallyOf(s, raw)
  {
    hide Copies, Total, Logged;
  }

  lemma BooksOpened(s: Sys, held: Raw, k: nat, raw: Raw)
    requires held in s.lists.opening
    requires k < |s.entries| && s.entries[k] == Tagged(SaidOpened, held)
    ensures var t := ToOpenedList(TakeOpening(s, held), held);
      DriftOf(t.(entries := SetStage(s.entries, k, RecordedOpened)), raw) == DriftOf(s, raw)
  {
    hide Copies, Total, Logged;
    TallyTakeOpening(s, held, raw);
    TallyToOpened(TakeOpening(s, held), held, raw);
    TallyRetag(ToOpenedList(TakeOpening(s, held), held), k, RecordedOpened, raw);
  }

  lemma BooksDead(s: Sys, held: Raw, k: nat, raw: Raw)
    requires held in s.lists.opening
    requires k < |s.entries| && s.entries[k] == Tagged(SaidDead, held)
    ensures var t := ToDeadList(TakeOpening(s, held), held, OpenerRefused);
      DriftOf(t.(entries := SetStage(s.entries, k, RecordedDead)), raw) == DriftOf(s, raw)
  {
    hide Copies, Total, Logged;
    TallyTakeOpening(s, held, raw);
    TallyToDead(TakeOpening(s, held), held, OpenerRefused, raw);
    TallyRetag(ToDeadList(TakeOpening(s, held), held, OpenerRefused), k, RecordedDead, raw);
  }

  lemma BooksFailed(s: Sys, held: Raw, k: nat, raw: Raw)
    requires held in s.lists.opening
    requires k < |s.entries| && s.entries[k] == Tagged(SaidFailed, held)
    ensures var t := ToUnresolvedList(TakeOpening(s, held), held, OpenerFailed);
      DriftOf(t.(entries := SetStage(s.entries, k, RecordedFailed)), raw) == DriftOf(s, raw)
  {
    hide Copies, Total, Logged;
    TallyTakeOpening(s, held, raw);
    TallyToUnresolved(TakeOpening(s, held), held, OpenerFailed, raw);
    TallyRetag(ToUnresolvedList(TakeOpening(s, held), held, OpenerFailed), k, RecordedFailed, raw);
  }

  lemma BooksRefused(s: Sys, held: Raw, raw: Raw)
    requires held in s.lists.processing
    ensures DriftOf(ToDeadList(TakeProcessing(s, held), held, RefusedUnopened), raw) == DriftOf(s, raw)
  {
    hide Copies, Total, Logged;
    TallyTakeProcessing(s, held, raw);
    TallyToDead(TakeProcessing(s, held), held, RefusedUnopened, raw);
  }

  lemma BooksEntered(s: Sys, held: Raw, raw: Raw)
    requires held in s.lists.processing
    ensures DriftOf(EnterOpening(TakeProcessing(s, held), held), raw) == DriftOf(s, raw)
  {
    hide Copies, Total, Logged;
    TallyTakeProcessing(s, held, raw);
    TallyEnter(TakeProcessing(s, held), held, raw);
  }

  lemma BooksClaim(s: Sys, p: nat, raw: Raw)
    ensures DriftOf(ClaimStep(s, p), raw) == DriftOf(s, raw)
  {
    hide Copies, Total, Logged;
    if s.lists.ingress != [] { TallyClaim(s, raw); }
  }

  lemma BooksSurface(cfg: Config, s: Sys, p: nat, held: Raw, raw: Raw)
    ensures DriftOf(SurfaceStep(cfg, s, p, held), raw) == DriftOf(s, raw)
  {
    hide Copies, Total, Logged;
    if held in s.lists.opening {
      TallyTakeOpening(s, held, raw);
      TallyToUnresolved(TakeOpening(s, held), held, ProcessExited, raw);
    }
  }

  lemma BooksCall(s: Sys, p: nat, held: Raw, k: nat, raw: Raw)
    requires k < |s.entries| && s.entries[k] == Tagged(Waiting, held)
    ensures DriftOf(At(CallOpener(s, held, k), p, Running(held, k)), raw) == DriftOf(s, raw)
  {
    hide Copies, Total, Logged;
    CopiesAppend(s.started, held, raw);
    TallyRetag(s, k, Started, raw);
  }

  lemma BooksFinish(s: Sys, p: nat, held: Raw, k: nat, outcome: Outcome, raw: Raw)
    requires k < |s.entries| && s.entries[k] == Tagged(Started, held)
    ensures DriftOf(FinishOpener(s, p, held, k, outcome), raw) == DriftOf(s, raw)
  {
    hide Copies, Total, Logged;
    TallyRetag(s, k, StageAt(FinishOpener(s, p, held, k, outcome).ports[p]), raw);
  }

  lemma BooksIdle(cfg: Config, s: Sys, p: nat, outcome: Outcome, raw: Raw)
    requires p in s.ports
    requires s.ports[p].Sweep? || s.ports[p].Recover? || !s.ports[p].Live()
    ensures DriftOf(ActStep(cfg, s, p, outcome), raw) == DriftOf(s, raw)
  {
    hide TallyOf, Tally.Drift;
    TallyAt(s, p, ActStep(cfg, s, p, outcome).ports[p], raw);
  }

  lemma BooksAct(cfg: Config, s: Sys, p: nat, outcome: Outcome, raw: Raw)
    requires Owned(s.entries, s.ports) && p in s.ports
    ensures DriftOf(ActStep(cfg, s, p, outcome), raw) == DriftOf(s, raw)
  {
    hide Copies, Total, Logged;
    if s.ports[p].Sweep? || s.ports[p].Recover? || !s.ports[p].Live() {
      BooksIdle(cfg, s, p, outcome, raw);
    } else {
      match s.ports[p]
      case Surface(held) => BooksSurface(cfg, s, p, held, raw);
      case Claim => BooksClaim(s, p, raw);
      case Hold(held) => BooksJudge(cfg, s, p, held, raw);
      case Entered(held, k) => BooksCall(s, p, held, k, raw);
      case Running(held, k) => BooksFinish(s, p, held, k, outcome, raw);
      case _ => BooksRecord(cfg, s, p, raw);
    }
  }

  lemma BooksJudge(cfg: Config, s: Sys, p: nat, held: Raw, raw: Raw)
    ensures DriftOf(Judge(cfg, s, p, held), raw) == DriftOf(s, raw)
  {
    hide Copies, Total, Logged;
    if held in s.lists.processing {
      BooksRefused(s, held, raw);
      BooksEntered(s, held, raw);
    }
  }

  lemma BooksRecord(cfg: Config, s: Sys, p: nat, raw: Raw)
    requires Owned(s.entries, s.ports) && p in s.ports
    requires s.ports[p].ToOpened? || s.ports[p].ToDead? || s.ports[p].ToUnresolved?
    ensures DriftOf(Record(cfg, s, p), raw) == DriftOf(s, raw)
  {
    hide Copies, Total, Logged;
    var held, k := s.ports[p].raw, s.ports[p].ticket;
    if held in s.lists.opening {
      match s.ports[p]
      case ToOpened(_, _) => BooksOpened(s, held, k, raw);
      case ToDead(_, _) => BooksDead(s, held, k, raw);
      case ToUnresolved(_, _) => BooksFailed(s, held, k, raw);
    }
  }

  lemma BooksStep(cfg: Config, s: Sys, e: Event, raw: Raw)
    requires Owned(s.entries, s.ports)
    ensures DriftOf(Step(cfg, s, e), raw) == DriftOf(s, raw)
  {
    hide Copies, Total, Logged;
    var l := s.lists;
    match e
    case Admit(x) =>
      CopiesAppend(l.ingress, x, raw);
      CopiesAppend(s.admitted, x, raw);
    case Act(p, outcome) => if p in s.ports { BooksAct(cfg, s, p, outcome, raw); }
    case Retire =>
      LoggedDoubted(l.unresolved, l.opening, raw);
      CopiesConcat(l.undeliverable, l.processing, raw);
      CopiesConcat(l.undeliverable + l.processing, l.ingress, raw);
      NoCopies([], raw);
    case SwitchDead(x) => TallyToDead(s, x, RefusedBySwitch, raw);
    case _ =>
  }

  ghost predicate Inv(cfg: Config, s: Sys, raw: Raw) {
    Owned(s.entries, s.ports) && EntriesAccepted(cfg, s.entries) && DriftOf(s, raw) == NO_DRIFT
  }

  lemma StepKeeps(cfg: Config, s: Sys, e: Event, raw: Raw)
    requires Inv(cfg, s, raw)
    ensures Inv(cfg, Step(cfg, s, e), raw)
  {
    hide Copies, Total, Logged;
    OwnedStep(cfg, s, e);
    AcceptedStep(cfg, s, e);
    BooksStep(cfg, s, e, raw);
  }

  /** No copy of the frame anywhere. */
  ghost predicate NoCopyIn(s: Sys, raw: Raw) {
    && Copies(s.admitted, raw) == Copies(s.lists.ingress, raw) == Copies(s.lists.processing, raw) == 0
    && Copies(s.lists.opening, raw) == Copies(s.openedLog, raw) == Copies(s.lists.undeliverable, raw) == 0
    && Copies(s.started, raw) == Total(s.deadLog, raw) == Total(s.lists.unresolved, raw) == Total(s.entries, raw) == 0
  }

  /** Where no copy is, the books balance. */
  lemma EmptyBooks(s: Sys, raw: Raw)
    requires NoCopyIn(s, raw)
    ensures DriftOf(s, raw) == NO_DRIFT
  {
    hide Copies, Total, Logged;
  }

  lemma NothingYet(raw: Raw)
    ensures NoCopyIn(INITIAL, raw)
  {
    NoCopies(INITIAL.admitted, raw);
    NothingLogged(INITIAL.deadLog, raw);
    NothingLogged(INITIAL.lists.unresolved, raw);
    NothingLogged(INITIAL.entries, raw);
    hide Copies, Total;
  }

  lemma InitialInv(cfg: Config, raw: Raw)
    ensures Inv(cfg, INITIAL, raw)
  {
    hide DriftOf, NoCopyIn;
    NothingYet(raw);
    EmptyBooks(INITIAL, raw);
  }

  /** The invariant holds in every state of every run. */
  lemma {:induction false} RunKeeps(cfg: Config, events: seq<Event>, raw: Raw)
    ensures Inv(cfg, Run(cfg, events), raw)
    decreases |events|
  {
    hide Copies, Total, Logged;
    if events == [] {
      InitialInv(cfg, raw);
    } else {
      var n := |events| - 1;
      RunKeeps(cfg, events[..n], raw);
      StepKeeps(cfg, Run(cfg, events[..n]), events[n], raw);
    }
  }

  // ---- conservation and at-most-once ----

  /** The frames `receive` put in dead: everything there that the switch did not put there. */
  ghost function DeadOfReceive(log: seq<Tagged<Cause>>): seq<Raw> {
    if log == [] then []
    else
      var last := log[|log| - 1];
      DeadOfReceive(log[..|log| - 1]) + (if last.tag == RefusedBySwitch then [] else [last.raw])
  }

  lemma {:induction false} DeadOfReceiveCopies(log: seq<Tagged<Cause>>, raw: Raw)
    ensures Copies(DeadOfReceive(log), raw) == Logged(log, RefusedUnopened, raw) + Logged(log, OpenerRefused, raw)
    decreases |log|
  {
    if log != [] {
      var n := |log| - 1;
      DeadOfReceiveCopies(log[..n], raw);
      CopiesAppend(DeadOfReceive(log[..n]), log[n].raw, raw);
      assert DeadOfReceive(log[..n]) + [] == DeadOfReceive(log[..n]);
    }
  }

  lemma {:induction false} NamesCopies<T>(log: seq<Tagged<T>>, raw: Raw)
    ensures Copies(Names(log), raw) == Total(log, raw)
    decreases |log|
  {
    if log != [] {
      var n := |log| - 1;
      NamesCopies(log[..n], raw);
      assert Names(log) == Names(log[..n]) + [log[n].raw];
      CopiesAppend(Names(log[..n]), log[n].raw, raw);
    }
  }

  /**
   Every copy ever admitted is in exactly one place, and nothing is in these places that was not
   admitted. The capped lists count with everything their caps have dropped.
   */
  lemma Conservation(cfg: Config, events: seq<Event>)
    ensures var s := Run(cfg, events);
      multiset(s.admitted)
        == multiset(s.lists.ingress) + multiset(s.lists.processing) + multiset(s.lists.opening)
         + multiset(DeadOfReceive(s.deadLog)) + multiset(s.openedLog)
         + multiset(Names(s.lists.unresolved)) + multiset(s.lists.undeliverable)
  {
    hide Copies, Total, Logged, DeadOfReceive, Names;
    var s := Run(cfg, events);
    forall raw
      ensures multiset(s.admitted)[raw]
        == multiset(s.lists.ingress)[raw] + multiset(s.lists.processing)[raw] + multiset(s.lists.opening)[raw]
         + multiset(DeadOfReceive(s.deadLog))[raw] + multiset(s.openedLog)[raw]
         + multiset(Names(s.lists.unresolved))[raw] + multiset(s.lists.undeliverable)[raw]
    {
      RunKeeps(cfg, events, raw);
      ConservedCopies(s, raw);
    }
  }

  lemma ConservedCopies(s: Sys, raw: Raw)
    requires DriftOf(s, raw) == NO_DRIFT
    ensures multiset(s.admitted)[raw]
      == multiset(s.lists.ingress)[raw] + multiset(s.lists.processing)[raw] + multiset(s.lists.opening)[raw]
       + multiset(DeadOfReceive(s.deadLog))[raw] + multiset(s.openedLog)[raw]
       + multiset(Names(s.lists.unresolved))[raw] + multiset(s.lists.undeliverable)[raw]
  {
    hide Copies, Total, Logged, DeadOfReceive, Names;
    CopiesIsMultiset(s.admitted, raw);
    CopiesIsMultiset(s.lists.ingress, raw);
    CopiesIsMultiset(s.lists.processing, raw);
    CopiesIsMultiset(s.lists.opening, raw);
    CopiesIsMultiset(DeadOfReceive(s.deadLog), raw);
    CopiesIsMultiset(s.openedLog, raw);
    CopiesIsMultiset(Names(s.lists.unresolved), raw);
    CopiesIsMultiset(s.lists.undeliverable, raw);
    DeadOfReceiveCopies(s.deadLog, raw);
    NamesCopies(s.lists.unresolved, raw);
  }

  /** Opener calls for a frame, plus copies retired or refused unopened, never exceed the copies admitted. */
  lemma AtMostOneEffect(cfg: Config, events: seq<Event>, raw: Raw)
    ensures var s := Run(cfg, events);
      multiset(s.started)[raw] + multiset(s.lists.undeliverable)[raw] + Logged(s.deadLog, RefusedUnopened, raw)
        <= multiset(s.admitted)[raw]
  {
    hide Copies, Total, Logged;
    var s := Run(cfg, events);
    RunKeeps(cfg, events, raw);
    CopiesIsMultiset(s.started, raw);
    CopiesIsMultiset(s.lists.undeliverable, raw);
    CopiesIsMultiset(s.admitted, raw);
  }
}
