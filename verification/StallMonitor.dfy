/** IngressStallMonitor (h-app/core/ingress_health.py): which queues it reports, since when, and why. */
module StallMonitor {
  import opened Prelude

  /** What the monitor remembers of an agent's queue: its head, and when that head was first seen there. */
  datatype Seen = Seen(head: string, at: real)

  /** The JSON value of one hash entry. */
  datatype Record = Record(since: string, depth: nat, headId: Option<string>, leaseHeld: bool, portType: Option<string>)

  /** One pass over the members' queues. */
  datatype Look = Look(now: real, heads: map<string, Option<string>>)

  // ---- the queue's history ----

  function HeadIn(look: Look, agent: string): Option<string> {
    if agent in look.heads then look.heads[agent] else None
  }

  /** The pass at which the agent's present, unbroken head was first seen. */
  function Since(history: seq<Look>, agent: string): (r: Option<nat>)
    ensures r.Some? ==> r.value < |history|
    decreases |history|
  {
    if history == [] then None
    else
      var init, last := history[..|history| - 1], history[|history| - 1];
      if HeadIn(last, agent).None? then None
      else
        var before := Since(init, agent);
        if before.Some? && HeadIn(init[|init| - 1], agent) == HeadIn(last, agent) then before
        else Some(|init|)
  }

  /** The agent is a member with this head at every pass from i to the last. */
  ghost predicate Steady(history: seq<Look>, agent: string, i: nat, head: string) {
    i < |history| && forall j :: i <= j < |history| ==> HeadIn(history[j], agent) == Some(head)
  }

  ghost predicate ClockRuns(history: seq<Look>) {
    forall i, j :: 0 <= i <= j < |history| ==> history[i].now <= history[j].now
  }

  lemma {:induction false} SinceIsSteady(history: seq<Look>, agent: string)
    requires history != []
    ensures var last := HeadIn(history[|history| - 1], agent);
      && (Since(history, agent).Some? <==> last.Some?)
      && (last.Some? ==> Steady(history, agent, Since(history, agent).value, last.value))
    decreases |history|
  {
    var init := history[..|history| - 1];
    if init != [] { SinceIsSteady(init, agent); }
  }

  /** ... and no earlier pass starts such an unbroken run. */
  lemma {:induction false} SinceIsEarliest(history: seq<Look>, agent: string, i: nat, head: string)
    requires Steady(history, agent, i, head)
    ensures Since(history, agent).Some? && Since(history, agent).value <= i
    decreases |history|
  {
    var init := history[..|history| - 1];
    assert HeadIn(history[|history| - 1], agent) == Some(head);
    if i < |init| {
      assert Steady(init, agent, i, head);
      SinceIsEarliest(init, agent, i, head);
      assert HeadIn(init[|init| - 1], agent) == Some(head);
    } else {
      if Since(init, agent).Some? && HeadIn(init[|init| - 1], agent) == Some(head) {
        assert Since(history, agent) == Since(init, agent);
      }
    }
  }

  /** How long the head had been there at the last pass. */
  ghost function Waited(history: seq<Look>, agent: string): real
    requires Since(history, agent).Some?
  {
    history[|history| - 1].now - history[Since(history, agent).value].now
  }

  ghost predicate Overdue(history: seq<Look>, agent: string, stallSeconds: real) {
    Since(history, agent).Some? && Waited(history, agent) >= stallSeconds
  }

  /** Overdue is exactly: one head, at every pass, for at least that long. */
  lemma OverdueIsSteady(history: seq<Look>, agent: string, stallSeconds: real)
    requires ClockRuns(history)
    ensures Overdue(history, agent, stallSeconds)
      <==> exists i: nat, head: string :: Steady(history, agent, i, head) && history[|history| - 1].now - history[i].now >= stallSeconds
  {
    if Overdue(history, agent, stallSeconds) {
      SinceIsSteady(history, agent);
      assert Steady(history, agent, Since(history, agent).value, HeadIn(history[|history| - 1], agent).value);
    }
    if i: nat, head: string :| Steady(history, agent, i, head) && history[|history| - 1].now - history[i].now >= stallSeconds {
      SinceIsEarliest(history, agent, i, head);
      assert history[Since(history, agent).value].now <= history[i].now;
    }
  }

  // ---- the monitor ----

  /** What the monitor and the published hash hold about one agent. */
  datatype State = State(seen: Option<Seen>, stalled: bool, entry: Option<Record>)

  /** What one visit makes of it; `report` carries the record's other fields and the stamp a new stall would get. */
  function Visited(s: State, now: real, head: Option<string>, stallSeconds: real, report: Record): State {
    match head
    case None => State(None, false, if s.stalled then None else s.entry)
    case Some(id) =>
      if s.seen.None? || s.seen.value.head != id then
        State(Some(Seen(id, now)), false, if s.stalled then None else s.entry)
      else if now - s.seen.value.at < stallSeconds then s
      else
        var since := if s.entry.Some? && s.entry.value.since != "" then s.entry.value.since else report.since;
        State(s.seen, true, Some(report.(since := since)))
  }

  class Monitor {
    const stallSeconds: real
    var watch: map<string, Seen>
    var stalled: set<string>
    var hash: map<string, Record>     // the published hash
    ghost var history: seq<Look>

    constructor (stallSeconds: real)
      requires stallSeconds > 0.0
      ensures Valid() && this.stallSeconds == stallSeconds && history == [] && hash == map[]
    {
      this.stallSeconds := stallSeconds;
      watch, stalled, hash, history := map[], {}, map[], [];
    }

    function StateOf(agent: string): State
      reads this
    {
      State(if agent in watch then Some(watch[agent]) else None, agent in stalled, if agent in hash then Some(hash[agent]) else None)
    }

    /** Published exactly when stalled, stalled exactly when overdue, watched exactly since its head appeared. */
    ghost predicate Good(agent: string)
      reads this
    {
      GoodState(history, agent, stallSeconds, StateOf(agent))
    }

    ghost predicate Valid()
      reads this
    {
      stallSeconds > 0.0 && ClockRuns(history) && forall agent :: Good(agent)
    }

    /** _clear */
    method Clear(agent: string)
      modifies this`stalled, this`hash
      ensures StateOf(agent) == old(StateOf(agent)).(stalled := false, entry := None)
      ensures forall a :: a != agent ==> StateOf(a) == old(StateOf(a))
    {
      hash := hash - {agent};
      stalled := stalled - {agent};
    }

    /** One member's queue. */
    method Visit(agent: string, now: real, head: Option<string>, report: Record)
      modifies this`watch, this`stalled, this`hash
      ensures StateOf(agent) == Visited(old(StateOf(agent)), now, head, stallSeconds, report)
      ensures forall a :: a != agent ==> StateOf(a) == old(StateOf(a))
    {
      if head.None? {
        watch := watch - {agent};
        if agent in stalled { Clear(agent); }
        return;
      }
      if agent !in watch || watch[agent].head != head.value {
        watch := watch[agent := Seen(head.value, now)];
        if agent in stalled { Clear(agent); }
        return;
      }
      if now - watch[agent].at < stallSeconds { return; }
      var since := if agent in hash && hash[agent].since != "" then hash[agent].since else report.since;
      hash := hash[agent := report.(since := since)];
      stalled := stalled + {agent};
    }
  
    method Forget(agent: string)
      modifies this`watch
      ensures StateOf(agent) == old(StateOf(agent)).(seen := None)
      ensures forall a :: a != agent ==> StateOf(a) == old(StateOf(a))
    {
      watch := watch - {agent};
    }

    /** Queues of agents that are no longer members stop being watched. */
    method ForgetRetired(members: set<string>)
      modifies this`watch
      ensures forall a :: StateOf(a) == if a in members then old(StateOf(a)) else old(StateOf(a)).(seen := None)
    {
      var rest := watch.Keys - members;
      ghost var gone := {};
      assert forall a :: a !in watch ==> StateOf(a) == StateOf(a).(seen := None);
      hide StateOf;
      while rest != {}
        invariant rest + gone == old(watch.Keys) - members
        invariant forall a :: StateOf(a) == if a in gone then old(StateOf(a)).(seen := None) else old(StateOf(a))
        decreases |rest|
      {
        var agent :| agent in rest;
        Forget(agent);
        rest, gone := rest - {agent}, gone + {agent};
      }
    }

    /** ... and lose their published entry. */
    method ClearRetired(members: set<string>)
      modifies this`stalled, this`hash
      ensures forall a :: StateOf(a) == Cleared(old(StateOf(a)), a !in members && a in old(stalled))
    {
      hide StateOf;
      var rest := stalled - members;
      ghost var gone := {};
      while rest != {}
        invariant rest + gone == old(stalled) - members
        invariant forall a :: StateOf(a) == Cleared(old(StateOf(a)), a in gone)
        decreases |rest|
      {
        var agent :| agent in rest;
        Clear(agent);
        rest, gone := rest - {agent}, gone + {agent};
      }
    }

    method VisitMembers(now: real, heads: map<string, Option<string>>, reports: map<string, Record>)
      requires heads.Keys == reports.Keys
      modifies this`watch, this`stalled, this`hash
      ensures forall a :: a in heads ==> StateOf(a) == Visited(old(StateOf(a)), now, heads[a], stallSeconds, reports[a])
      ensures forall a :: a !in heads ==> StateOf(a) == old(StateOf(a))
    {
      hide Visited, StateOf;
      var rest := heads.Keys;
      while rest != {}
        invariant rest <= heads.Keys
        invariant forall a :: a in heads && a !in rest ==>
          StateOf(a) == Visited(old(StateOf(a)), now, heads[a], stallSeconds, reports[a])
        invariant forall a :: a !in heads || a in rest ==> StateOf(a) == old(StateOf(a))
        decreases |rest|
      {
        var agent :| agent in rest;
        Visit(agent, now, heads[agent], reports[agent]);
        rest := rest - {agent};
      }
    }

    /** One pass over every agent, member or not. */
    method Pass(now: real, heads: map<string, Option<string>>, reports: map<string, Record>)
      requires heads.Keys == reports.Keys
      modifies this`watch, this`stalled, this`hash
      ensures forall a :: StateOf(a) == Passed(old(StateOf(a)), a, now, heads, reports, stallSeconds)
    {
      hide Visited;
      assert forall a :: a in stalled <==> StateOf(a).stalled;
      hide StateOf;
      ForgetRetired(heads.Keys);
      ClearRetired(heads.Keys);
      VisitMembers(now, heads, reports);
    }

    /**
     poll, with no failed call. Afterwards the published agents are the stalled ones, these are the
     ones whose head has not moved at any pass for at least stallSeconds, and an entry that was there
     before keeps its `since`.
     */
    method Poll(now: real, heads: map<string, Option<string>>, reports: map<string, Record>)
      requires Valid() && heads.Keys == reports.Keys && forall a :: a in reports ==> reports[a].since != ""
      requires history != [] ==> history[|history| - 1].now <= now
      modifies this
      ensures Valid() && history == old(history) + [Look(now, heads)]
      ensures hash.Keys == stalled
      ensures forall a :: a in stalled <==> Overdue(history, a, stallSeconds)
      ensures forall a :: a in stalled && a in old(stalled) ==> a in hash && a in old(hash) && hash[a].since == old(hash)[a].since
    {
      ghost var before := history;
      assert forall a :: StateOf(a).stalled == (a in stalled) && StateOf(a).entry == if a in hash then Some(hash[a]) else None;
      Pass(now, heads, reports);
      assert forall a :: StateOf(a).stalled == (a in stalled);
      history := history + [Look(now, heads)];
      ClockStep(before, Look(now, heads));
      hide Visited, Passed, Overdue, Since, GoodState, ClockRuns, StateOf;
      forall a ensures Good(a) && (old(StateOf(a)).stalled && StateOf(a).stalled ==> SameSince(old(StateOf(a)), StateOf(a))) {
        assert old(Good(a));
        GoodStep(before, now, heads, reports, a, stallSeconds, old(StateOf(a)));
      }
      PublishedExactly();
      forall a | a in stalled && a in old(stalled)
        ensures a in hash && a in old(hash) && hash[a].since == old(hash)[a].since
      {
        SinceKept(old(stalled), old(hash), a, old(StateOf(a)));
      }
    }

    lemma PublishedExactly()
      requires Valid()
      ensures hash.Keys == stalled && forall a :: a in stalled <==> Overdue(history, a, stallSeconds)
    {
      hide Overdue, GoodState, ClockRuns;
      forall a ensures (a in hash <==> a in stalled) && (a in stalled <==> Overdue(history, a, stallSeconds)) {
        assert Good(a);
        GoodMeans(history, a, stallSeconds, StateOf(a));
      }
    }

    lemma SinceKept(wasStalled: set<string>, was: map<string, Record>, a: string, before: State)
      requires before.stalled == (a in wasStalled) && before.entry == (if a in was then Some(was[a]) else None)
      requires before.stalled && StateOf(a).stalled ==> SameSince(before, StateOf(a))
      requires a in stalled && a in wasStalled
      ensures a in hash && a in was && hash[a].since == was[a].since
    {
    }
  }

  function Cleared(s: State, yes: bool): State { if yes then s.(stalled := false, entry := None) else s }

  predicate SameSince(s: State, t: State) { s.entry.Some? && t.entry.Some? && t.entry.value.since == s.entry.value.since }

  function Passed(s: State, agent: string, now: real, heads: map<string, Option<string>>, reports: map<string, Record>,
      stallSeconds: real): State
    requires heads.Keys == reports.Keys
  {
    if agent in heads then Visited(s, now, heads[agent], stallSeconds, reports[agent])
    else Cleared(s.(seen := None), s.stalled)
  }

  lemma ClockStep(history: seq<Look>, look: Look)
    requires ClockRuns(history) && (history != [] ==> history[|history| - 1].now <= look.now)
    ensures ClockRuns(history + [look])
  {
  }

  /** One agent's part of the invariant, as a property of its state. */
  ghost predicate GoodState(history: seq<Look>, agent: string, stallSeconds: real, s: State) {
    && (s.stalled <==> s.entry.Some?) && (s.stalled <==> Overdue(history, agent, stallSeconds))
    && (s.seen.Some? <==> Since(history, agent).Some?)
    && (s.seen.Some? ==>
          && HeadIn(history[|history| - 1], agent) == Some(s.seen.value.head)
          && s.seen.value.at == history[Since(history, agent).value].now)
    && (s.entry.Some? ==> s.entry.value.since != "")
  }

  lemma GoodMeans(history: seq<Look>, agent: string, stallSeconds: real, s: State)
    requires GoodState(history, agent, stallSeconds, s)
    ensures (s.stalled <==> s.entry.Some?) && (s.stalled <==> Overdue(history, agent, stallSeconds))
  {
  }

  /** One more pass: the head is gone, or is the one already there, or is new. */
  lemma SinceNext(history: seq<Look>, look: Look, agent: string)
    ensures var after := history + [look];
      && after[..|history|] == history
      && Since(after, agent) ==
           (if HeadIn(look, agent).None? then None
            else if Since(history, agent).Some? && HeadIn(history[|history| - 1], agent) == HeadIn(look, agent) then Since(history, agent)
            else Some(|history|))
  {
    assert (history + [look])[..|history|] == history;
  }

  /** The head is gone. */
  lemma GoodGone(history: seq<Look>, look: Look, agent: string, stallSeconds: real, t: State)
    requires HeadIn(look, agent).None? && t == State(None, false, None)
    ensures GoodState(history + [look], agent, stallSeconds, t)
  {
    SinceNext(history, look, agent);
    hide Since;
  }

  /** The head is new. */
  lemma GoodNew(history: seq<Look>, look: Look, agent: string, stallSeconds: real, head: string, t: State)
    requires HeadIn(look, agent) == Some(head) && stallSeconds > 0.0
    requires Since(history, agent).Some? ==> HeadIn(history[|history| - 1], agent) != Some(head)
    requires t == State(Some(Seen(head, look.now)), false, None)
    ensures GoodState(history + [look], agent, stallSeconds, t)
  {
    SinceNext(history, look, agent);
    hide Since;
  }

  /** The head is still there, since `from`. */
  lemma GoodSame(history: seq<Look>, look: Look, agent: string, stallSeconds: real, head: string, from: nat, t: State)
    requires HeadIn(look, agent) == Some(head)
    requires Since(history, agent) == Some(from) && HeadIn(history[|history| - 1], agent) == Some(head)
    requires t.seen == Some(Seen(head, history[from].now)) && (t.stalled <==> t.entry.Some?)
    requires t.stalled <==> look.now - history[from].now >= stallSeconds
    requires t.entry.Some? ==> t.entry.value.since != ""
    ensures GoodState(history + [look], agent, stallSeconds, t)
  {
    SinceNext(history, look, agent);
    hide Since;
    assert (history + [look])[from] == history[from];
  }

  lemma GoodStep(history: seq<Look>, now: real, heads: map<string, Option<string>>, reports: map<string, Record>,
                 agent: string, stallSeconds: real, s: State)
    requires heads.Keys == reports.Keys && stallSeconds > 0.0 && (agent in heads ==> reports[agent].since != "")
    requires GoodState(history, agent, stallSeconds, s) && ClockRuns(history + [Look(now, heads)])
    ensures var t := Passed(s, agent, now, heads, reports, stallSeconds);
      && GoodState(history + [Look(now, heads)], agent, stallSeconds, t)
      && (s.stalled && t.stalled ==> SameSince(s, t))
  {
    var look, t := Look(now, heads), Passed(s, agent, now, heads, reports, stallSeconds);
    ClockAtEnd(history, look);
    hide Since, ClockRuns;
    if HeadIn(look, agent).None? {
      GoodGone(history, look, agent, stallSeconds, t);
    } else if s.seen.Some? && s.seen.value.head == heads[agent].value {
      GoodSame(history, look, agent, stallSeconds, heads[agent].value, Since(history, agent).value, t);
    } else {
      GoodNew(history, look, agent, stallSeconds, heads[agent].value, t);
    }
  }

  lemma ClockAtEnd(history: seq<Look>, look: Look)
    requires ClockRuns(history + [look])
    ensures history != [] ==> history[|history| - 1].now <= look.now
  {
    var after := history + [look];
    if history != [] { assert after[|history| - 1] == history[|history| - 1] && after[|history|] == look; }
  }
}
