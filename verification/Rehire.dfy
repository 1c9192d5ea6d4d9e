/**
 What a stop must take away so that a later hire of the name starts from nothing: every key any start
 of the agent can write, and its pause and lease.
 */
module Rehire {
  import opened Prelude
  import opened Keys
  import opened RedisStore
  import opened Scripts
  import opened Retirement
  import opened Lifecycle
  import opened StartAgent

  /** The agent's own resources that an effect writes or deletes. */
  function WrittenBy(e: Effect): set<string> {
    match e
    case PublishMember => {"incarnation"}
    case PublishLead(_) => {"incarnation", "window.cause"}
    case _ => {ResourceOf(e)}
  }

  /** Some start of an agent, of whatever request, writes this resource of its own. */
  ghost predicate Startable(r: string) {
    exists enc, q, existing, envelope, i: nat ::
      i < |Effects(Plan(enc, q, existing, envelope))| && r in WrittenBy(Effects(Plan(enc, q, existing, envelope))[i])
  }

  /** Launch identity, security configuration, membership markers. */
  const OWN: set<string> := {
    "launch", "profile", "provider", "resume", "skip-permissions", "claude-tools", "tags", "hmac-keys",
    "window.cause", "incarnation"}

  predicate WritesOwn(effects: seq<Effect>) { forall i :: 0 <= i < |effects| ==> WrittenBy(effects[i]) <= OWN }

  lemma WritesOwnConcat(a: seq<Effect>, b: seq<Effect>)
    requires WritesOwn(a) && WritesOwn(b)
    ensures WritesOwn(a + b)
  {
    hide WrittenBy, OWN;
  }

  lemma DesiresOwn(effects: seq<Effect>)
    requires Desires(effects)
    ensures WritesOwn(effects)
  {
    assert DESIRED <= OWN;
    hide DESIRED, OWN;
  }

  /** The effects of an api start, in order. */
  lemma ApiEffects(enc: Encoding, q: Request)
    requires q.ApiRequest?
    ensures Effects(ApiPlan(enc, q))
      == (if q.revoke.None? then [] else [DelField("hmac-keys", q.revoke.value)])
       + ((if q.key.None? then [] else [SetField("hmac-keys", q.key.value.0, enc.key(q.key.value.1))])
       + (PolicyEffects(enc, q.policy) + [PublishMember]))
  {
    hide PolicyCommands, PolicyEffects;
    var revoke := if q.revoke.None? then [] else
      [Write("hmac key '" + q.revoke.value + "' revoked", DelField("hmac-keys", q.revoke.value))];
    var key := if q.key.None? then [] else
      [Write("hmac key '" + q.key.value.0 + "' published", SetField("hmac-keys", q.key.value.0, enc.key(q.key.value.1)))];
    var policy, publish := PolicyCommands(enc, q.policy), [Write("registry row published", PublishMember)];
    PolicyEffectsAre(enc, q.policy);
    AtMostOneEffect(revoke);
    AtMostOneEffect(key);
    AtMostOneEffect(publish);
    hide Effects;
    EffectsConcat(policy, publish);
    EffectsConcat(key, policy + publish);
    EffectsConcat(revoke, key + (policy + publish));
  }

  lemma AtMostOneEffect(commands: seq<Command>)
    requires |commands| <= 1
    ensures Effects(commands) == if commands != [] && commands[0].Write? then [commands[0].effect] else []
  {
  }

  /** No start writes any other key of its agent. */
  lemma PlanWritesOwn(enc: Encoding, q: Request, existing: Option<string>, envelope: JVal)
    ensures WritesOwn(Effects(Plan(enc, q, existing, envelope)))
  {
    hide PolicyEffects, LaunchEffects, Effects, ApiPlan, TmuxPlan;
    if q.ApiRequest? {
      ApiEffects(enc, q);
      PolicyDesires(enc, q.policy);
      DesiresOwn(PolicyEffects(enc, q.policy));
      hide Desires;
      assert "hmac-keys" in OWN && "incarnation" in OWN;
      var policy := PolicyEffects(enc, q.policy);
      WritesOwnConcat(policy, [PublishMember]);
      var key := if q.key.None? then [] else [SetField("hmac-keys", q.key.value.0, enc.key(q.key.value.1))];
      WritesOwnConcat(key, policy + [PublishMember]);
      WritesOwnConcat(if q.revoke.None? then [] else [DelField("hmac-keys", q.revoke.value)], key + (policy + [PublishMember]));
    } else {
      var cause := Cause(envelope, existing);
      PublishIsLast(enc, q, existing == Some("tmux"), cause);
      LaunchDesires(enc, q);
      DesiresOwn(LaunchEffects(enc, q));
      assert "window.cause" in OWN && "incarnation" in OWN;
      WritesOwnConcat(LaunchEffects(enc, q), [PublishLead(cause)]);
    }
  }

  lemma StartableIsOwn(r: string)
    requires Startable(r)
    ensures r in OWN
  {
    var enc, q, existing, envelope, i: nat :|
      i < |Effects(Plan(enc, q, existing, envelope))| && r in WrittenBy(Effects(Plan(enc, q, existing, envelope))[i]);
    PlanWritesOwn(enc, q, existing, envelope);
  }

  lemma WritesAt(enc: Encoding, q: Request, existing: Option<string>, envelope: JVal, i: nat, r: string)
    requires i < |Effects(Plan(enc, q, existing, envelope))| && r in WrittenBy(Effects(Plan(enc, q, existing, envelope))[i])
    ensures Startable(r)
  {
  }

  /** ... and every one of these is written by some start. */
  lemma OwnIsStartable(enc: Encoding, r: string)
    requires r in OWN
    ensures Startable(r)
  {
    if r == "hmac-keys" {
      var q := ApiRequest("a", Policy(false, None, None), None, Some(("k", "s")));
      ApiEffects(enc, q);
      WritesAt(enc, q, None, JNull, 0, r);
    } else {
      var q := TmuxRequest("a", Policy(true, None, None), Settings("c", Some("c"), Some("c"), Some(true), Some(true), Some("c")));
      FullStart(enc, q);
      hide Effects, TmuxPlan, OWN;
      WritesAt(enc, q, None, JNull, IndexOf(r), r);
    }
  }

  function IndexOf(r: string): (i: nat)
    ensures i < 8
  {
    if r == "profile" then 0 else if r == "provider" then 1 else if r == "launch" then 2 else if r == "resume" then 3
    else if r == "skip-permissions" then 4 else if r == "claude-tools" then 5 else if r == "tags" then 6 else 7
  }

  /** A start that asks for everything writes everything. */
  lemma FullStart(enc: Encoding, q: Request)
    requires q.TmuxRequest? && q.policy == Policy(true, None, None)
    requires var s := q.settings; s.profile.Some? && s.provider.Some? && s.resume.Some? && s.skipPermissions.Some? && s.tools.Some?
    ensures var e := Effects(Plan(enc, q, None, JNull));
      |e| == 8 && forall r :: r in OWN && r != "hmac-keys" ==> r in WrittenBy(e[IndexOf(r)])
  {
    PublishIsLast(enc, q, false, "");
    var s := q.settings;
    FlagSome(s.resume);
    FlagSome(s.skipPermissions);
    hide Effects, TmuxPlan, Flag, OWN, WrittenBy;
    var e := LaunchEffects(enc, q) + [PublishLead("")];
    assert e == [SetKey("profile", s.profile.value), SetKey("provider", s.provider.value), SetKey("launch", s.cli),
                 SetKey("resume", Flag(s.resume).value), SetKey("skip-permissions", Flag(s.skipPermissions).value),
                 SetKey("claude-tools", s.tools.value), DelKey("tags"), PublishLead("")];
    FullNames(e);
  }

  lemma FullNames(e: seq<Effect>)
    requires |e| == 8 && forall i :: 0 <= i < 6 ==> e[i].SetKey?
    requires e[0].resource == "profile" && e[1].resource == "provider" && e[2].resource == "launch"
    requires e[3].resource == "resume" && e[4].resource == "skip-permissions" && e[5].resource == "claude-tools"
    requires e[6] == DelKey("tags") && e[7] == PublishLead("")
    ensures forall r :: r in OWN && r != "hmac-keys" ==> r in WrittenBy(e[IndexOf(r)])
  {
  }

  lemma DisposedAt(pod: string, tenant: string, agent: string, i: nat)
    requires i < |DISPOSABLE|
    ensures AgentKey(pod, tenant, agent, DISPOSABLE[i]) in KeysOf(pod, tenant, agent).Deleted()
  {
    hide AgentKey, TenantKey;
    assert KeysOf(pod, tenant, agent).disposable[i] == AgentKey(pod, tenant, agent, DISPOSABLE[i]);
  }

  lemma OwnIsDisposable(r: string) returns (i: nat)
    requires r in OWN || r == "paused" || r == "delivering"
    ensures i < |DISPOSABLE| && DISPOSABLE[i] == r
  {
    assert DISPOSABLE[0] == "paused" && DISPOSABLE[1] == "delivering" && DISPOSABLE[2] == "launch";
    assert DISPOSABLE[3] == "profile" && DISPOSABLE[4] == "provider" && DISPOSABLE[5] == "resume";
    assert DISPOSABLE[6] == "skip-permissions" && DISPOSABLE[7] == "claude-tools" && DISPOSABLE[8] == "tags";
    assert DISPOSABLE[9] == "hmac-keys" && DISPOSABLE[10] == "window.cause" && DISPOSABLE[11] == "incarnation";
    i :| 0 <= i < |DISPOSABLE| && DISPOSABLE[i] == r;
  }

  /**
     After a stop, no key that any start of the agent can write remains, whatever the start and whenever
     it was; nor does its pause or its delivery lease.
   */
  lemma NothingSurvives(pod: string, tenant: string, agent: string, before: Store, after: Store, r: string)
    requires KeysOf(pod, tenant, agent).Withdrawn(before, after, agent)
    requires Startable(r) || r in OWN || r == "paused" || r == "delivering"
    ensures AgentKey(pod, tenant, agent, r) !in after
    ensures agent !in Fields(after, TenantKey(pod, tenant, "registry"))
  {
    hide AgentKey, TenantKey, Startable, OWN, DISPOSABLE;
    if Startable(r) { StartableIsOwn(r); }
    var i := OwnIsDisposable(r);
    DisposedAt(pod, tenant, agent, i);
  }

  // ---- a hire after a stop is a first hire ----

  /** A key is there in both or in neither, with the same value. */
  ghost predicate SameKey(x: Store, y: Store, k: Key) { (k in x <==> k in y) && (k in x ==> x[k] == y[k]) }

  lemma BothAbsent(x: Store, y: Store, k: Key)
    requires k !in x && k !in y
    ensures SameKey(x, y, k)
  {
  }

  ghost predicate Agree(w: Who, x: Store, y: Store) { forall r :: r in OWN ==> SameKey(x, y, w.Key(r)) }

  lemma OwnResources(r: string)
    requires r in OWN
    ensures IsResource(r)
  {
    hide IsResource;
    AgentResources();
  }

  /** A desired-state write does the same to two databases that agree. */
  lemma WriteAgrees(w: Who, e: Effect, x: Store, x': Store, y: Store, y': Store, r: string)
    requires w.Valid() && !Publishes(e) && ResourceOf(e) in OWN && r in OWN
    requires Did(w, e, x, x') && Did(w, e, y, y') && SameKey(x, y, w.Key(r)) && SameKey(x, y, w.Key(ResourceOf(e)))
    ensures SameKey(x', y', w.Key(r))
  {
    hide IsSegment, IsResource, AgentKey, OWN;
    if ResourceOf(e) != r {
      OwnResources(r);
      OwnResources(ResourceOf(e));
      AgentKeysApart(w.pod, w.tenant, w.agent, w.agent, r, ResourceOf(e));
      WriteMisses(w, e, x, x', w.Key(r));
      WriteMisses(w, e, y, y', w.Key(r));
    }
  }

  lemma WriteMisses(w: Who, e: Effect, before: Store, after: Store, k: Key)
    requires !Publishes(e) && Did(w, e, before, after) && k != w.Key(ResourceOf(e))
    ensures SameKey(after, before, k)
  {
    hide AgentKey, PutFields;
  }

  /** Publishing a new member does the same to two databases that agree. */
  lemma PublishAgrees(w: Who, e: Effect, x: Store, x': Store, y: Store, y': Store, r: string)
    requires w.Valid() && Publishes(e) && r in OWN && Did(w, e, x, x') && Did(w, e, y, y') && SameKey(x, y, w.Key(r))
    requires w.agent !in Fields(x, w.Registry()) && w.agent !in Fields(y, w.Registry())
    ensures SameKey(x', y', w.Key(r))
  {
    hide IsSegment, IsResource, AgentKey, TenantKey, OWN, SameExcept, Fields;
    OwnResources(r);
    TenantResources();
    AgentResources();
    TenantApart(w.pod, w.tenant, w.agent, "registry", r);
    TenantApart(w.pod, w.tenant, w.agent, "lead", r);
    if r == "incarnation" {
      PublishMints(w, e, x, x');
      PublishMints(w, e, y, y');
    } else {
      AgentKeysApart(w.pod, w.tenant, w.agent, w.agent, r, "incarnation");
      if r != "window.cause" { AgentKeysApart(w.pod, w.tenant, w.agent, w.agent, r, "window.cause"); }
      PublishElsewhere(w, e, x, x', r);
      PublishElsewhere(w, e, y, y', r);
    }
  }

  lemma PublishMints(w: Who, e: Effect, before: Store, after: Store)
    requires Publishes(e) && Did(w, e, before, after) && w.agent !in Fields(before, w.Registry())
    ensures w.Key("incarnation") in after && after[w.Key("incarnation")] == Str(w.newId)
  {
    hide AgentKey, TenantKey, SameExcept, Fields;
  }

  /** A key of the agent that is not its incarnation: only a cause, and only if there is one, is written. */
  lemma PublishElsewhere(w: Who, e: Effect, before: Store, after: Store, r: string)
    requires Publishes(e) && Did(w, e, before, after)
    requires w.Key(r) != w.Registry() && w.Key(r) != w.Lead() && w.Key(r) != w.Key("incarnation")
    requires r != "window.cause" ==> w.Key(r) != w.Key("window.cause")
    ensures if r == "window.cause" && e.PublishLead? && e.cause != "" then
              w.Key(r) in after && after[w.Key(r)] == Str(e.cause)
            else SameKey(after, before, w.Key(r))
  {
    hide AgentKey, TenantKey, Fields;
  }

  lemma OneAgrees(w: Who, e: Effect, x: Store, x': Store, y: Store, y': Store)
    requires w.Valid() && WrittenBy(e) <= OWN && Did(w, e, x, x') && Did(w, e, y, y') && Agree(w, x, y)
    requires Publishes(e) ==> w.agent !in Fields(x, w.Registry()) && w.agent !in Fields(y, w.Registry())
    ensures Agree(w, x', y')
  {
    hide Did, Who.Key, Who.Registry, Who.Valid, Fields, SameKey, OWN;
    forall r | r in OWN ensures SameKey(x', y', w.Key(r)) {
      if Publishes(e) { PublishAgrees(w, e, x, x', y, y', r); } else { WriteAgrees(w, e, x, x', y, y', r); }
    }
  }

  /** All effects but the last leave the registry alone; the last publishes. */
  predicate PublishesLast(effects: seq<Effect>) {
    effects != [] && Desires(effects[..|effects| - 1]) && Publishes(effects[|effects| - 1])
  }

  lemma {:induction false} AllAgree(w: Who, effects: seq<Effect>, states: seq<Store>, others: seq<Store>, n: nat)
    requires w.Valid() && WritesOwn(effects) && PublishesLast(effects)
    requires Trace(w, effects, states) && Trace(w, effects, others) && n < |states| && n < |others|
    requires w.agent !in Fields(states[0], w.Registry()) && w.agent !in Fields(others[0], w.Registry())
    requires Agree(w, states[0], others[0])
    ensures Agree(w, states[n], others[n])
    decreases n
  {
    hide Did, Who.Registry, Who.Valid, Fields, Agree, Desires, WrittenBy, OWN;
    if n > 0 {
      AllAgree(w, effects, states, others, n - 1);
      var e := effects[n - 1];
      if Publishes(e) {
        PublishIsOnlyLast(effects, n - 1);
        RegistryQuiet(w, effects, states, n - 1);
        RegistryQuiet(w, effects, others, n - 1);
      }
      OneAgrees(w, e, states[n - 1], states[n], others[n - 1], others[n]);
    }
  }

  lemma PublishIsOnlyLast(effects: seq<Effect>, i: nat)
    requires PublishesLast(effects) && i < |effects| && Publishes(effects[i])
    ensures i == |effects| - 1 && Desires(effects[..i])
  {
    var init := effects[..|effects| - 1];
    forall j | 0 <= j < |init| ensures !Publishes(effects[j]) {
      assert init[j] == effects[j];
    }
  }

  lemma PlanPublishesLast(enc: Encoding, q: Request, existing: Option<string>, envelope: JVal)
    ensures PublishesLast(Effects(Plan(enc, q, existing, envelope)))
  {
    hide PolicyEffects, LaunchEffects, Effects, ApiPlan, TmuxPlan, DESIRED;
    if q.ApiRequest? {
      ApiEffects(enc, q);
      PolicyDesires(enc, q.policy);
      assert "hmac-keys" in DESIRED by { HmacIsDesired(); }
      var policy := PolicyEffects(enc, q.policy);
      var key := if q.key.None? then [] else [SetField("hmac-keys", q.key.value.0, enc.key(q.key.value.1))];
      var revoke := if q.revoke.None? then [] else [DelField("hmac-keys", q.revoke.value)];
      DesiresConcat(key, policy);
      DesiresConcat(revoke, key + policy);
      SplitsLast(revoke + (key + policy), PublishMember);
      assert revoke + (key + (policy + [PublishMember])) == revoke + (key + policy) + [PublishMember];
    } else {
      PublishIsLast(enc, q, existing == Some("tmux"), Cause(envelope, existing));
      LaunchDesires(enc, q);
      SplitsLast(LaunchEffects(enc, q), PublishLead(Cause(envelope, existing)));
    }
  }

  lemma HmacIsDesired()
    ensures "hmac-keys" in DESIRED
  {
  }

  lemma SplitsLast(effects: seq<Effect>, e: Effect)
    requires Desires(effects) && Publishes(e)
    ensures PublishesLast(effects + [e])
  {
    hide Desires;
    assert (effects + [e])[..|effects|] == effects;
  }

  /**
     A hire after a stop leaves every key of its own that a start can write exactly as the same hire would
     on a database that never knew the agent.
   */
  lemma RehireIsFirstHire(w: Who, enc: Encoding, q: Request, envelope: JVal, before: Store, states: seq<Store>,
      firsts: seq<Store>, r: string)
    requires w.Valid() && Startable(r) && states != [] && |states| == |firsts|
    requires KeysOf(w.pod, w.tenant, w.agent).Withdrawn(before, states[0], w.agent)
    requires w.agent !in Fields(firsts[0], w.Registry()) && forall own :: own in OWN ==> w.Key(own) !in firsts[0]
    requires Trace(w, Effects(Plan(enc, q, None, envelope)), states)
    requires Trace(w, Effects(Plan(enc, q, None, envelope)), firsts)
    ensures SameKey(states[|states| - 1], firsts[|firsts| - 1], w.Key(r))
  {
    hide Trace, Effects, Plan, Fields, AgentKey, TenantKey, Startable, OWN, IsSegment, RetireKeys.Withdrawn, KeysOf, SameKey;
    StartableIsOwn(r);
    PlanWritesOwn(enc, q, None, envelope);
    PlanPublishesLast(enc, q, None, envelope);
    NothingSurvives(w.pod, w.tenant, w.agent, before, states[0], r);
    forall own | own in OWN ensures SameKey(states[0], firsts[0], w.Key(own)) {
      NothingSurvives(w.pod, w.tenant, w.agent, before, states[0], own);
      BothAbsent(states[0], firsts[0], w.Key(own));
    }
    AllAgree(w, Effects(Plan(enc, q, None, envelope)), states, firsts, |states| - 1);
  }
}
