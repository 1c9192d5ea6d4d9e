/**
 The evidence lists tell the truth: each acknowledgement has its own opener return, each entry in
 dead was refused, each "opener failed" record has its own failed opener, and the recovery sweep
 never meets a frame it cannot decode.
 */
module CustodyEvidence {
  import opened Prelude
  import opened Custody
  import opened CustodySafety

  /** Event `e` ends a call of an opener for `raw` with `outcome`. */
  ghost predicate Ends(s: Sys, e: Event, outcome: Outcome, raw: Raw) {
    e.Act? && e.outcome == outcome && e.port in s.ports && s.ports[e.port].Running? && s.ports[e.port].raw == raw
  }

  /** Event `e` calls an opener for `raw`. */
  ghost predicate Calls(s: Sys, e: Event, raw: Raw) {
    e.Act? && e.port in s.ports && s.ports[e.port].Entered? && s.ports[e.port].raw == raw
  }

  /** How many calls of an opener for `raw` ended with `outcome` in a run. */
  ghost function Ended(cfg: Config, events: seq<Event>, outcome: Outcome, raw: Raw): nat {
    if events == [] then 0
    else
      var n := |events| - 1;
      Ended(cfg, events[..n], outcome, raw) + One(Ends(Run(cfg, events[..n]), events[n], outcome, raw))
  }

  /** How many times an opener was called for `raw` in a run. */
  ghost function Called(cfg: Config, events: seq<Event>, raw: Raw): nat {
    if events == [] then 0
    else
      var n := |events| - 1;
      Called(cfg, events[..n], raw) + One(Calls(Run(cfg, events[..n]), events[n], raw))
  }

  function Said(outcome: Outcome): Stage {
    match outcome case Returns => SaidOpened case RaisesDeadLetter => SaidDead case RaisesOther => SaidFailed
  }

  function Recorded(outcome: Outcome): Stage {
    match outcome case Returns => RecordedOpened case RaisesDeadLetter => RecordedDead case RaisesOther => RecordedFailed
  }

  /** Entries whose opener ended with `outcome`, recorded or not. */
  ghost function Outcomes(s: Sys, outcome: Outcome, raw: Raw): nat {
    Logged(s.entries, Said(outcome), raw) + Logged(s.entries, Recorded(outcome), raw)
  }

  lemma OutcomesRetag(entries: seq<Tagged<Stage>>, k: nat, to: Stage, outcome: Outcome, raw: Raw)
    requires k < |entries|
    ensures var after := SetStage(entries, k, to);
      var both := {Said(outcome), Recorded(outcome)};
      Logged(after, Said(outcome), raw) + Logged(after, Recorded(outcome), raw)
        + One(entries[k].tag in both && entries[k].raw == raw)
      == Logged(entries, Said(outcome), raw) + Logged(entries, Recorded(outcome), raw)
        + One(to in both && entries[k].raw == raw)
  {
    hide Total, Logged;
    LoggedRetag(entries, k, to, Said(outcome), raw);
    LoggedRetag(entries, k, to, Recorded(outcome), raw);
  }

  lemma RecordEntries(cfg: Config, s: Sys, p: nat, to: Stage)
    requires p in s.ports && (s.ports[p].ToOpened? || s.ports[p].ToDead? || s.ports[p].ToUnresolved?)
    requires to == if s.ports[p].ToOpened? then RecordedOpened else if s.ports[p].ToDead? then RecordedDead else RecordedFailed
    ensures Record(cfg, s, p).entries == s.entries || Record(cfg, s, p).entries == SetStage(s.entries, s.ports[p].ticket, to)
  {
    hide SetStage, KeepLast, RemoveFirst, Config.AfterNotice;
  }

  lemma OutcomesRecord(cfg: Config, s: Sys, p: nat, outcome: Outcome, raw: Raw)
    requires Owned(s.entries, s.ports) && p in s.ports
    requires s.ports[p].ToOpened? || s.ports[p].ToDead? || s.ports[p].ToUnresolved?
    ensures Outcomes(Record(cfg, s, p), outcome, raw) == Outcomes(s, outcome, raw)
  {
    hide Total, Logged, Record;
    var k := s.ports[p].ticket;
    var to := if s.ports[p].ToOpened? then RecordedOpened else if s.ports[p].ToDead? then RecordedDead else RecordedFailed;
    OutcomesRetag(s.entries, k, to, outcome, raw);
    RecordEntries(cfg, s, p, to);
  }

  lemma OutcomesFinish(s: Sys, p: nat, held: Raw, k: nat, ends: Outcome, outcome: Outcome, raw: Raw)
    requires k < |s.entries| && s.entries[k] == Tagged(Started, held)
    ensures Outcomes(FinishOpener(s, p, held, k, ends), outcome, raw)
         == Outcomes(s, outcome, raw) + One(ends == outcome && held == raw)
  {
    hide Total, Logged;
    OutcomesRetag(s.entries, k, Said(ends), outcome, raw);
  }

  lemma OutcomesJudge(cfg: Config, s: Sys, p: nat, held: Raw, outcome: Outcome, raw: Raw)
    ensures Outcomes(Judge(cfg, s, p, held), outcome, raw) == Outcomes(s, outcome, raw)
  {
    hide Total, Logged, RemoveFirst;
    LoggedAppend(s.entries, Tagged(Waiting, held), Said(outcome), raw);
    LoggedAppend(s.entries, Tagged(Waiting, held), Recorded(outcome), raw);
  }

  lemma OutcomesCall(s: Sys, p: nat, held: Raw, k: nat, outcome: Outcome, raw: Raw)
    requires k < |s.entries| && s.entries[k] == Tagged(Waiting, held)
    ensures Outcomes(At(CallOpener(s, held, k), p, Running(held, k)), outcome, raw) == Outcomes(s, outcome, raw)
  {
    hide Total, Logged;
    OutcomesRetag(s.entries, k, Started, outcome, raw);
  }

  lemma OutcomesAct(cfg: Config, s: Sys, p: nat, ends: Outcome, outcome: Outcome, raw: Raw)
    requires Owned(s.entries, s.ports) && p in s.ports
    ensures Outcomes(ActStep(cfg, s, p, ends), outcome, raw)
         == Outcomes(s, outcome, raw) + One(s.ports[p].Running? && ends == outcome && s.ports[p].raw == raw)
  {
    hide Total, Logged, KeepLast, RemoveFirst, FinishOpener, Record, Judge, CallOpener;
    match s.ports[p]
    case Hold(held) => OutcomesJudge(cfg, s, p, held, outcome, raw);
    case Entered(held, k) => OutcomesCall(s, p, held, k, outcome, raw);
    case Running(held, k) => OutcomesFinish(s, p, held, k, ends, outcome, raw);
    case ToOpened(_, _) => OutcomesRecord(cfg, s, p, outcome, raw);
    case ToDead(_, _) => OutcomesRecord(cfg, s, p, outcome, raw);
    case ToUnresolved(_, _) => OutcomesRecord(cfg, s, p, outcome, raw);
    case _ =>
  }

  lemma OutcomesStep(cfg: Config, s: Sys, e: Event, outcome: Outcome, raw: Raw)
    requires Owned(s.entries, s.ports)
    ensures Outcomes(Step(cfg, s, e), outcome, raw) == Outcomes(s, outcome, raw) + One(Ends(s, e, outcome, raw))
  {
    hide Total, Logged, RetireLists, KeepLast, ActStep, Owned;
    if e.Act? && e.port in s.ports { OutcomesAct(cfg, s, e.port, e.outcome, outcome, raw); }
  }

  lemma {:induction false} EndedIsOutcomes(cfg: Config, events: seq<Event>, outcome: Outcome, raw: Raw)
    ensures Ended(cfg, events, outcome, raw) == Outcomes(Run(cfg, events), outcome, raw)
    decreases |events|
  {
    hide Step;
    if events != [] {
      var n := |events| - 1;
      EndedIsOutcomes(cfg, events[..n], outcome, raw);
      RunKeeps(cfg, events[..n], raw);
      OutcomesStep(cfg, Run(cfg, events[..n]), events[n], outcome, raw);
    }
  }

  /** A step adds to the opener calls exactly when it calls an opener. */
  lemma StartedStep(cfg: Config, s: Sys, e: Event, raw: Raw)
    ensures Copies(Step(cfg, s, e).started, raw) == Copies(s.started, raw) + One(Calls(s, e, raw))
  {
    hide Copies;
    if e.Act? && e.port in s.ports && s.ports[e.port].Entered? {
      CopiesAppend(s.started, s.ports[e.port].raw, raw);
    }
  }

  lemma {:induction false} CalledIsStarted(cfg: Config, events: seq<Event>, raw: Raw)
    ensures Called(cfg, events, raw) == Copies(Run(cfg, events).started, raw)
    decreases |events|
  {
    hide Step;
    if events != [] {
      var n := |events| - 1;
      CalledIsStarted(cfg, events[..n], raw);
      StartedStep(cfg, Run(cfg, events[..n]), events[n], raw);
    }
  }

  ghost function Admissions(events: seq<Event>, raw: Raw): nat {
    if events == [] then 0
    else Admissions(events[..|events| - 1], raw) + One(events[|events| - 1] == Admit(raw))
  }

  lemma AdmittedStep(cfg: Config, s: Sys, e: Event, raw: Raw)
    ensures Copies(Step(cfg, s, e).admitted, raw) == Copies(s.admitted, raw) + One(e == Admit(raw))
  {
    hide Copies;
    if e.Admit? { CopiesAppend(s.admitted, e.raw, raw); }
  }

  lemma {:induction false} AdmissionsIsAdmitted(cfg: Config, events: seq<Event>, raw: Raw)
    ensures Admissions(events, raw) == Copies(Run(cfg, events).admitted, raw)
    decreases |events|
  {
    hide Step;
    if events != [] {
      var n := |events| - 1;
      AdmissionsIsAdmitted(cfg, events[..n], raw);
      AdmittedStep(cfg, Run(cfg, events[..n]), events[n], raw);
    }
  }

  /**
   At-most-once in terms of what happened: openers are called for a frame at most as often as it was
   admitted, less the copies that retirement moved out unopened, whichever came first.
   */
  lemma AtMostOncePerAdmission(cfg: Config, events: seq<Event>, raw: Raw)
    ensures Called(cfg, events, raw) + multiset(Run(cfg, events).lists.undeliverable)[raw] <= Admissions(events, raw)
  {
    hide Copies, Run, Called, Admissions;
    CalledIsStarted(cfg, events, raw);
    AdmissionsIsAdmitted(cfg, events, raw);
    CopiesIsMultiset(Run(cfg, events).started, raw);
    CopiesIsMultiset(Run(cfg, events).admitted, raw);
    AtMostOneEffect(cfg, events, raw);
  }

  /** A frame admitted once and retired unopened is never opened, before or after. */
  lemma RetiredIsNeverOpened(cfg: Config, events: seq<Event>, raw: Raw)
    requires Admissions(events, raw) == 1 && raw in Run(cfg, events).lists.undeliverable
    ensures Called(cfg, events, raw) == 0
  {
    hide Run, Called, Admissions;
    AtMostOncePerAdmission(cfg, events, raw);
  }

  /** Each recorded outcome has its own opener call that ended that way. */
  lemma RecordsAreTrue(cfg: Config, events: seq<Event>, raw: Raw)
    ensures var s := Run(cfg, events);
      && multiset(s.openedLog)[raw] <= Ended(cfg, events, Returns, raw)
      && Logged(s.deadLog, OpenerRefused, raw) <= Ended(cfg, events, RaisesDeadLetter, raw)
      && Logged(s.lists.unresolved, OpenerFailed, raw) <= Ended(cfg, events, RaisesOther, raw)
  {
    hide Copies, Total, Logged, Run, Ended;
    var s := Run(cfg, events);
    RunKeeps(cfg, events, raw);
    CopiesIsMultiset(s.openedLog, raw);
    EndedIsOutcomes(cfg, events, Returns, raw);
    EndedIsOutcomes(cfg, events, RaisesDeadLetter, raw);
    EndedIsOutcomes(cfg, events, RaisesOther, raw);
  }

  /**
   Copies dead-lettered unopened are none of the copies that crossed the effect boundary: for every
   frame, the two kinds and everything still waiting add up to the copies admitted.
   */
  lemma RefusedNeverEntered(cfg: Config, events: seq<Event>, raw: Raw)
    ensures var s := Run(cfg, events);
      Logged(s.deadLog, RefusedUnopened, raw) + Total(s.entries, raw)
        + multiset(s.lists.ingress)[raw] + multiset(s.lists.processing)[raw] + multiset(s.lists.undeliverable)[raw]
      == multiset(s.admitted)[raw]
  {
    hide Copies, Total, Logged, Run;
    var s := Run(cfg, events);
    RunKeeps(cfg, events, raw);
    CopiesIsMultiset(s.admitted, raw);
    CopiesIsMultiset(s.lists.ingress, raw);
    CopiesIsMultiset(s.lists.processing, raw);
    CopiesIsMultiset(s.lists.undeliverable, raw);
  }

  lemma {:induction false} TotalHasEntry<T>(log: seq<Tagged<T>>, raw: Raw) returns (k: nat)
    requires Total(log, raw) > 0
    ensures k < |log| && log[k].raw == raw
    decreases |log|
  {
    if log[|log| - 1].raw == raw { k := |log| - 1; } else { k := TotalHasEntry(log[..|log| - 1], raw); }
  }

  /**
   Only frames that parse accepts, and that have an opener, are ever in opening, handed to an opener, or in
   the evidence of it.
   */
  lemma OnlyAcceptedFramesOpen(cfg: Config, events: seq<Event>, raw: Raw)
    requires var s := Run(cfg, events);
      raw in s.lists.opening || raw in s.started || raw in s.openedLog || raw in Names(s.lists.unresolved)
    ensures cfg.Accepts(raw) && cfg.opens(raw)
  {
    hide Copies, Total, Logged, Run, Names;
    var s := Run(cfg, events);
    RunKeeps(cfg, events, raw);
    CopiesIsMultiset(s.lists.opening, raw);
    CopiesIsMultiset(s.started, raw);
    CopiesIsMultiset(s.openedLog, raw);
    CopiesIsMultiset(Names(s.lists.unresolved), raw);
    NamesCopies(s.lists.unresolved, raw);
    var k := TotalHasEntry(s.entries, raw);
  }

  /** The recovery sweep always gets past the head of opening: decoding it cannot fail. */
  lemma SweepNeverFails(cfg: Config, events: seq<Event>, p: nat, outcome: Outcome)
    requires forall raw :: cfg.Accepts(raw) ==> cfg.decodes(raw)
    requires p in Run(cfg, events).ports && Run(cfg, events).ports[p].Sweep?
    ensures var t := Run(cfg, events + [Act(p, outcome)]); p in t.ports && !t.ports[p].Gone?
  {
    hide Run;
    var s := Run(cfg, events);
    RunExtend(cfg, events, Act(p, outcome));
    if s.lists.opening != [] { OnlyAcceptedFramesOpen(cfg, events, s.lists.opening[0]); }
  }

  /** Nor does parsing the frame it has just moved. */
  lemma SurfacedFrameParses(cfg: Config, events: seq<Event>, p: nat, outcome: Outcome)
    requires p in Run(cfg, events).ports && Run(cfg, events).ports[p].Surface?
    requires Run(cfg, events).ports[p].raw in Run(cfg, events).lists.opening
    ensures var t := Run(cfg, events + [Act(p, outcome)]); p in t.ports && t.ports[p] == Sweep
  {
    hide Run;
    RunExtend(cfg, events, Act(p, outcome));
    OnlyAcceptedFramesOpen(cfg, events, Run(cfg, events).ports[p].raw);
  }

  /** Nothing was refused whose parse raises anything but EnvelopeError. */
  ghost predicate RefusedParse(cfg: Config, log: seq<Tagged<Cause>>) {
    forall k :: 0 <= k < |log| && log[k].tag == RefusedUnopened ==> !cfg.Breaks(log[k].raw)
  }

  lemma RefusedParseStep(cfg: Config, s: Sys, e: Event)
    requires RefusedParse(cfg, s.deadLog)
    ensures RefusedParse(cfg, Step(cfg, s, e).deadLog)
  {
    hide RemoveFirst, KeepLast, RetireLists;
  }

  lemma {:induction false} RefusedParseRun(cfg: Config, events: seq<Event>)
    ensures RefusedParse(cfg, Run(cfg, events).deadLog)
    decreases |events|
  {
    hide Step;
    if events != [] {
      RefusedParseRun(cfg, events[..|events| - 1]);
      RefusedParseStep(cfg, Run(cfg, events[..|events| - 1]), events[|events| - 1]);
    }
  }

  lemma {:induction false} LoggedHas<T>(log: seq<Tagged<T>>, tag: T, raw: Raw)
    requires Logged(log, tag, raw) > 0
    ensures Tagged(tag, raw) in log
    decreases |log|
  {
    if log[|log| - 1] != Tagged(tag, raw) { LoggedHas(log[..|log| - 1], tag, raw); }
  }

  /**
   A frame whose parse raises something other than EnvelopeError is never settled by a port: in every
   run its copies wait in ingress or processing until the agent is retired.
   */
  lemma BrokenFramesStay(cfg: Config, events: seq<Event>, raw: Raw)
    requires cfg.Breaks(raw)
    ensures var s := Run(cfg, events);
      multiset(s.lists.ingress)[raw] + multiset(s.lists.processing)[raw] + multiset(s.lists.undeliverable)[raw]
        == multiset(s.admitted)[raw]
  {
    hide Copies, Total, Logged, Run;
    var s := Run(cfg, events);
    RefusedNeverEntered(cfg, events, raw);
    RunKeeps(cfg, events, raw);
    RefusedParseRun(cfg, events);
    if Logged(s.deadLog, RefusedUnopened, raw) > 0 { LoggedHas(s.deadLog, RefusedUnopened, raw); }
    if Total(s.entries, raw) > 0 { var k := TotalHasEntry(s.entries, raw); }
  }

  lemma DeadAppend(dead: seq<Raw>, log: seq<Tagged<Cause>>, x: Tagged<Cause>)
    requires IsSuffix(dead, Names(log))
    ensures IsSuffix(dead + [x.raw], Names(log + [x]))
  {
    SuffixAppend(dead, Names(log), x.raw);
    assert Names(log + [x]) == Names(log) + [x.raw];
  }

  /**
   The receipts are exactly the newest of everything ever opened, as many as the cap allows; dead holds the
   newest part of its log.
   */
  ghost predicate ListsAreNewest(s: Sys) {
    s.lists.receipts == KeepLast(s.openedLog, OPENED_RECEIPT_MAX) && IsSuffix(s.lists.dead, Names(s.deadLog))
  }

  lemma NewestStep(cfg: Config, s: Sys, e: Event)
    requires ListsAreNewest(s)
    ensures ListsAreNewest(Step(cfg, s, e))
  {
    hide IsSuffix, Names;
    match e
    case Act(p, _) =>
      if p in s.ports && !s.ports[p].Sweep? && !s.ports[p].Recover? && !s.ports[p].Claim? && s.ports[p].Live() {
        var x := s.ports[p].raw;
        DeadAppend(s.lists.dead, s.deadLog, Tagged(RefusedUnopened, x));
        DeadAppend(s.lists.dead, s.deadLog, Tagged(OpenerRefused, x));
        KeepLastTwice(s.openedLog, [x], OPENED_RECEIPT_MAX);
      }
    case SwitchDead(x) => DeadAppend(s.lists.dead, s.deadLog, Tagged(RefusedBySwitch, x));
    case TrimDead(cap) => SuffixOfSuffix(KeepLast(s.lists.dead, cap), s.lists.dead, Names(s.deadLog));
    case _ =>
  }

  lemma {:induction false} CappedListsAreNewest(cfg: Config, events: seq<Event>)
    ensures ListsAreNewest(Run(cfg, events))
    decreases |events|
  {
    hide Step;
    if events != [] {
      CappedListsAreNewest(cfg, events[..|events| - 1]);
      NewestStep(cfg, Run(cfg, events[..|events| - 1]), events[|events| - 1]);
    }
  }
}
