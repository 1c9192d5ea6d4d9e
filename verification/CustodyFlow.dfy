/** Custody only moves forward: one step never brings a frame back to an earlier list. */
module CustodyFlow {
  import opened Prelude
  import opened Custody

  /** What one step may do to the lists and logs. */
  ghost predicate Flows(s: Sys, t: Sys, e: Event) {
    && t.admitted == (if e.Admit? then s.admitted + [e.raw] else s.admitted)
    && (forall x :: x in t.lists.ingress ==> x in s.lists.ingress || e == Admit(x))
    && (forall x :: x in t.lists.processing ==> x in s.lists.processing || x in s.lists.ingress)
    && (forall x :: x in t.lists.opening ==> x in s.lists.opening || x in s.lists.processing)
    && s.openedLog <= t.openedLog && s.deadLog <= t.deadLog
    && s.lists.unresolved <= t.lists.unresolved && s.lists.undeliverable <= t.lists.undeliverable
    && (e.SwitchDead? || |t.deadLog| == |s.deadLog| || t.deadLog[|t.deadLog| - 1].tag != RefusedBySwitch)
    && |t.deadLog| <= |s.deadLog| + 1
    && (e.SwitchDead? ==> t.deadLog == s.deadLog + [Tagged(RefusedBySwitch, e.raw)])
  }

  lemma FlowsJudge(cfg: Config, s: Sys, p: nat, held: Raw, e: Event)
    requires e.Act?
    ensures Flows(s, Judge(cfg, s, p, held), e)
  {
    hide RemoveFirst;
  }

  lemma FlowsRecord(cfg: Config, s: Sys, p: nat, e: Event)
    requires e.Act? && p in s.ports && (s.ports[p].ToOpened? || s.ports[p].ToDead? || s.ports[p].ToUnresolved?)
    ensures Flows(s, Record(cfg, s, p), e)
  {
    hide RemoveFirst, KeepLast;
  }

  lemma FlowsAct(cfg: Config, s: Sys, p: nat, outcome: Outcome)
    requires p in s.ports
    ensures Flows(s, ActStep(cfg, s, p, outcome), Act(p, outcome))
  {
    hide RemoveFirst, KeepLast;
    match s.ports[p]
    case Hold(held) => FlowsJudge(cfg, s, p, held, Act(p, outcome));
    case ToOpened(_, _) => FlowsRecord(cfg, s, p, Act(p, outcome));
    case ToDead(_, _) => FlowsRecord(cfg, s, p, Act(p, outcome));
    case ToUnresolved(_, _) => FlowsRecord(cfg, s, p, Act(p, outcome));
    case _ =>
  }

  lemma FlowsStep(cfg: Config, s: Sys, e: Event)
    ensures Flows(s, Step(cfg, s, e), e)
  {
    hide ActStep, KeepLast;
    match e
    case Act(p, outcome) => if p in s.ports { FlowsAct(cfg, s, p, outcome); }
    case _ =>
  }
}
