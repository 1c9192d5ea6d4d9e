/**
 Who is hired, who leads, and under which incarnation: the office state that the publish and
 retirement scripts of h-app/lib/agentlifecycle/lifecycle.py maintain, over any sequence of them.
 */
module Lifecycle {
  import opened Prelude
  import opened Keys
  import opened RedisStore
  import opened Scripts
  import opened Retirement

  /** One tenant's membership, read out of a database. */
  datatype Office = Office(lead: Option<string>, registry: map<string, string>, incarnations: imap<string, Value>)

  datatype Script =
    | Membership(agent: string, portType: string, newId: string)                // also the window-cause script
    | LeadMembership(agent: string, portType: string, newId: string)
    | Withdraw(agent: string)

  ghost function Mint(o: Office, agent: string, newId: string): imap<string, Value> {
    if agent in o.registry && agent in o.incarnations then o.incarnations else o.incarnations[agent := Str(newId)]
  }

  ghost function Without(ids: imap<string, Value>, agent: string): imap<string, Value> {
    imap a | a in ids && a != agent :: ids[a]
  }

  ghost function Apply(o: Office, s: Script): Office {
    match s
    case Membership(a, portType, newId) => Office(o.lead, o.registry[a := portType], Mint(o, a, newId))
    case LeadMembership(a, portType, newId) =>
      Office(if Vacant(o.lead) then Some(a) else o.lead, o.registry[a := portType], Mint(o, a, newId))
    case Withdraw(a) =>
      Office(if o.lead == Some(a) then None else o.lead, o.registry - {a}, Without(o.incarnations, a))
  }

  ghost function ApplyAll(o: Office, scripts: seq<Script>): Office
    decreases |scripts|
  {
    if scripts == [] then o else Apply(ApplyAll(o, scripts[..|scripts| - 1]), scripts[|scripts| - 1])
  }

  /** The lead, if any, is a member, and only members have an incarnation. */
  ghost predicate Sound(o: Office) {
    && (!Vacant(o.lead) ==> o.lead.value in o.registry)
    && (forall a :: a in o.incarnations ==> a in o.registry)
  }

  lemma {:induction false} SoundForever(o: Office, scripts: seq<Script>)
    requires Sound(o)
    ensures Sound(ApplyAll(o, scripts))
    decreases |scripts|
  {
    if scripts != [] { SoundForever(o, scripts[..|scripts| - 1]); }
  }

  ghost predicate NoWithdrawal(scripts: seq<Script>, agent: string) {
    forall i :: 0 <= i < |scripts| ==> scripts[i] != Withdraw(agent)
  }

  /** However often a bound member is started again, it keeps its incarnation until it is stopped. */
  lemma {:induction false} NeverRebound(o: Office, scripts: seq<Script>, agent: string)
    requires agent in o.registry && agent in o.incarnations && NoWithdrawal(scripts, agent)
    ensures var after := ApplyAll(o, scripts);
      agent in after.registry && agent in after.incarnations && after.incarnations[agent] == o.incarnations[agent]
    decreases |scripts|
  {
    if scripts != [] {
      assert NoWithdrawal(scripts[..|scripts| - 1], agent);
      NeverRebound(o, scripts[..|scripts| - 1], agent);
      assert scripts[|scripts| - 1] != Withdraw(agent);
    }
  }

  /** A lead keeps the office until that very agent is stopped. */
  lemma {:induction false} LeadIsKept(o: Office, scripts: seq<Script>)
    requires !Vacant(o.lead) && NoWithdrawal(scripts, o.lead.value)
    ensures ApplyAll(o, scripts).lead == o.lead
    decreases |scripts|
  {
    if scripts != [] {
      assert NoWithdrawal(scripts[..|scripts| - 1], o.lead.value);
      LeadIsKept(o, scripts[..|scripts| - 1]);
      assert scripts[|scripts| - 1] != Withdraw(o.lead.value);
    }
  }

  /** Every id a script brings is new: uuid4 never repeats. */
  ghost predicate FreshIds(o: Office, scripts: seq<Script>) {
    && (forall i, a :: 0 <= i < |scripts| && !scripts[i].Withdraw? && a in o.incarnations
          ==> o.incarnations[a] != Str(scripts[i].newId))
    && (forall i, j :: 0 <= i < j < |scripts| && !scripts[i].Withdraw? && !scripts[j].Withdraw?
          ==> scripts[i].newId != scripts[j].newId)
  }

  lemma {:induction false} ApplyConcat(o: Office, a: seq<Script>, b: seq<Script>)
    ensures ApplyAll(o, a + b) == ApplyAll(ApplyAll(o, a), b)
    decreases |b|
  {
    if b == [] {
      assert a + b == a;
    } else {
      ApplyConcat(o, a, b[..|b| - 1]);
      assert (a + b)[..|a + b| - 1] == a + b[..|b| - 1];
    }
  }

  /** An incarnation is the one the office started with, or an id some script brought. */
  lemma {:induction false} Origin(o: Office, scripts: seq<Script>, agent: string)
    requires agent in ApplyAll(o, scripts).incarnations
    ensures var id := ApplyAll(o, scripts).incarnations[agent];
      || (agent in o.incarnations && id == o.incarnations[agent])
      || exists i :: 0 <= i < |scripts| && !scripts[i].Withdraw? && id == Str(scripts[i].newId)
    decreases |scripts|
  {
    if scripts != [] {
      var init := scripts[..|scripts| - 1];
      var s := scripts[|scripts| - 1];
      if agent in ApplyAll(o, init).incarnations {
        Origin(o, init, agent);
        assert forall i :: 0 <= i < |init| ==> init[i] == scripts[i];
      }
    }
  }

  /** Stopping an agent ends its incarnation: no later hire of that name ever carries the same id. */
  lemma RehireIsNew(o: Office, before: seq<Script>, after: seq<Script>, agent: string)
    requires FreshIds(o, before + [Withdraw(agent)] + after)
    requires agent in ApplyAll(o, before).incarnations
    requires agent in ApplyAll(o, before + [Withdraw(agent)] + after).incarnations
    ensures ApplyAll(o, before).incarnations[agent] != ApplyAll(o, before + [Withdraw(agent)] + after).incarnations[agent]
  {
    var all := before + [Withdraw(agent)] + after;
    var stopped := ApplyAll(o, before + [Withdraw(agent)]);
    ApplyConcat(o, before + [Withdraw(agent)], after);
    Origin(o, before, agent);
    assert agent !in stopped.incarnations by {
      assert (before + [Withdraw(agent)])[..|before|] == before;
    }
    Origin(stopped, after, agent);
    var j :| 0 <= j < |after| && !after[j].Withdraw? && ApplyAll(stopped, after).incarnations[agent] == Str(after[j].newId);
    assert all[|before| + 1 + j] == after[j];
    forall i | 0 <= i < |before| ensures all[i] == before[i] {}
  }

  // ---- the scripts do this to the database ----

  function PublishKeysOf(pod: string, tenant: string, agent: string): PublishKeys {
    PublishKeys(TenantKey(pod, tenant, "lead"), TenantKey(pod, tenant, "registry"),
                AgentKey(pod, tenant, agent, "window.cause"), AgentKey(pod, tenant, agent, "incarnation"))
  }

  ghost function OfficeOf(db: Store, pod: string, tenant: string): Office {
    Office(Text(db, TenantKey(pod, tenant, "lead")), Fields(db, TenantKey(pod, tenant, "registry")),
           imap a | IsSegment(a) && AgentKey(pod, tenant, a, "incarnation") in db :: db[AgentKey(pod, tenant, a, "incarnation")])
  }

  lemma AgentKeysApart(pod: string, tenant: string, a: string, b: string, r: string, r': string)
    requires IsSegment(pod) && IsSegment(tenant) && IsSegment(a) && IsSegment(b)
    requires IsResource(r) && IsResource(r') && (a != b || r != r')
    ensures AgentKey(pod, tenant, a, r) != AgentKey(pod, tenant, b, r')
  {
    hide IsSegment, IsResource, Coordinates.Parts;
    KeysApart(Coordinates(pod, tenant, Some(a), Some(r)), Coordinates(pod, tenant, Some(b), Some(r')));
  }

  lemma TenantApart(pod: string, tenant: string, a: string, r: string, r': string)
    requires IsSegment(pod) && IsSegment(tenant) && IsSegment(a) && IsResource(r) && IsResource(r')
    ensures TenantKey(pod, tenant, r) != AgentKey(pod, tenant, a, r')
  {
    hide IsSegment, IsResource, Coordinates.Parts;
    KeysApart(Coordinates(pod, tenant, None, Some(r)), Coordinates(pod, tenant, Some(a), Some(r')));
  }

  lemma PublishKeysNeverAlias(pod: string, tenant: string, agent: string)
    requires IsSegment(pod) && IsSegment(tenant) && IsSegment(agent)
    ensures PublishKeysOf(pod, tenant, agent).Distinct()
  {
    hide IsSegment, IsResource, TenantKey, AgentKey;
    TenantResources();
    AgentResources();
    TenantKeysApart(pod, tenant);
    assert TENANT_RESOURCES[0] == "registry" && TENANT_RESOURCES[1] == "lead";
    TenantApart(pod, tenant, agent, "lead", "window.cause");
    TenantApart(pod, tenant, agent, "lead", "incarnation");
    TenantApart(pod, tenant, agent, "registry", "window.cause");
    TenantApart(pod, tenant, agent, "registry", "incarnation");
    assert "window.cause"[0] != "incarnation"[0];
    AgentKeysApart(pod, tenant, agent, agent, "window.cause", "incarnation");
  }

  /** Another agent's incarnation is not among the keys a publish script writes. */
  lemma OtherIncarnationsStay(before: Store, after: Store, pod: string, tenant: string, agent: string, other: string,
                              why: string, claims: bool)
    requires IsSegment(pod) && IsSegment(tenant) && IsSegment(agent) && IsSegment(other) && other != agent
    requires SameExcept(after, before, PublishKeysOf(pod, tenant, agent).Written(why, claims))
    ensures var k := AgentKey(pod, tenant, other, "incarnation");
      (k in after <==> k in before) && (k in after ==> after[k] == before[k])
  {
    hide IsSegment, IsResource, TenantKey, AgentKey, SameExcept;
    TenantResources();
    AgentResources();
    var k := AgentKey(pod, tenant, other, "incarnation");
    TenantApart(pod, tenant, other, "lead", "incarnation");
    TenantApart(pod, tenant, other, "registry", "incarnation");
    AgentKeysApart(pod, tenant, other, agent, "incarnation", "window.cause");
    AgentKeysApart(pod, tenant, other, agent, "incarnation", "incarnation");
    Untouched(after, before, PublishKeysOf(pod, tenant, agent).Written(why, claims), k);
  }

  /** A publish script, lead or not, is its step on the office. */
  lemma PublishIsStep(before: Store, after: Store, pod: string, tenant: string, agent: string, portType: string,
                      newId: string, why: string, claims: bool)
    requires IsSegment(pod) && IsSegment(tenant) && IsSegment(agent)
    requires PublishKeysOf(pod, tenant, agent).Published(before, after, agent, portType, newId, why, claims)
    ensures var o := OfficeOf(before, pod, tenant);
      && (!claims ==> OfficeOf(after, pod, tenant) == Apply(o, Membership(agent, portType, newId)))
      && (claims == Vacant(o.lead) ==> OfficeOf(after, pod, tenant) == Apply(o, LeadMembership(agent, portType, newId)))
  {
    hide IsSegment, TenantKey, AgentKey, SameExcept, Fields, Text;
    var K := PublishKeysOf(pod, tenant, agent);
    PublishKeysNeverAlias(pod, tenant, agent);
    if !claims { Untouched(after, before, K.Written(why, claims), K.lead); }
    forall a | IsSegment(a) && a != agent
      ensures var k := AgentKey(pod, tenant, a, "incarnation");
        (k in after <==> k in before) && (k in after ==> after[k] == before[k])
    {
      OtherIncarnationsStay(before, after, pod, tenant, agent, a, why, claims);
    }
    var o, p := OfficeOf(before, pod, tenant), OfficeOf(after, pod, tenant);
    assert p.incarnations == Mint(o, agent, newId);
  }

  /** The retirement script is its step on the office. */
  lemma WithdrawIsStep(before: Store, after: Store, pod: string, tenant: string, agent: string)
    requires IsSegment(pod) && IsSegment(tenant) && IsSegment(agent)
    requires KeysOf(pod, tenant, agent).Withdrawn(before, after, agent)
    ensures OfficeOf(after, pod, tenant) == Apply(OfficeOf(before, pod, tenant), Withdraw(agent))
  {
    hide IsSegment, IsResource, TenantKey, AgentKey, SameExcept, Fields, Text, Items, Entries, Owns,
      RetireKeys.Deleted, RetireKeys.Touched;
    hide Undeliverables, Unresolveds, RetiredInbox, InboxReason;
    AgentResources();
    var last := |AGENT_RESOURCES| - 1;
    DeletedAt(pod, tenant, agent, last);
    assert AGENT_RESOURCES[last] == "incarnation";
    assert AgentKey(pod, tenant, agent, "incarnation") in KeysOf(pod, tenant, agent).Deleted();
    forall a | IsSegment(a) && a != agent
      ensures var k := AgentKey(pod, tenant, a, "incarnation");
        (k in after <==> k in before) && (k in after ==> after[k] == before[k])
    {
      OthersKeepIncarnation(before, after, pod, tenant, agent, a);
    }
    var o, p := OfficeOf(before, pod, tenant), OfficeOf(after, pod, tenant);
    assert p.incarnations == Without(o.incarnations, agent);
  }

  lemma OthersKeepIncarnation(before: Store, after: Store, pod: string, tenant: string, agent: string, other: string)
    requires IsSegment(pod) && IsSegment(tenant) && IsSegment(agent) && IsSegment(other) && other != agent
    requires KeysOf(pod, tenant, agent).Withdrawn(before, after, agent)
    ensures var k := AgentKey(pod, tenant, other, "incarnation");
      (k in after <==> k in before) && (k in after ==> after[k] == before[k])
  {
    hide IsSegment, IsResource, Join, KeysOf, RetireKeys.Withdrawn;
    AgentResources();
    OthersKeepEverything(before, after, pod, tenant, agent, Coordinates(pod, tenant, Some(other), Some("incarnation")));
  }
}
