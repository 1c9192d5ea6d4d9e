/**
 The retirement script on one agent's real keys: the keys never alias, no other agent is touched,
 and its effect on the custody lists is the protocol's own retirement step.
 */
module Retirement {
  import opened Prelude
  import opened Keys
  import opened RedisStore
  import opened Scripts
  import Custody

  function TenantKey(pod: string, tenant: string, resource: string): Key {
    Join(Coordinates(pod, tenant, None, Some(resource)).Parts(), ':')
  }

  function AgentKey(pod: string, tenant: string, agent: string, resource: string): Key {
    Join(Coordinates(pod, tenant, Some(agent), Some(resource)).Parts(), ':')
  }

  /** KEYS[6..16] and KEYS[19]: instance state, launch identity, security configuration. */
  const DISPOSABLE: seq<string> := [
    "paused", "delivering", "launch", "profile", "provider", "resume", "skip-permissions", "claude-tools",
    "tags", "hmac-keys", "window.cause", "incarnation"]

  function DisposableKeys(pod: string, tenant: string, agent: string): seq<Key> {
    seq(|DISPOSABLE|, i requires 0 <= i < |DISPOSABLE| => AgentKey(pod, tenant, agent, DISPOSABLE[i]))
  }

  /** The keys stop_agent passes. */
  function KeysOf(pod: string, tenant: string, agent: string): RetireKeys {
    RetireKeys(
      TenantKey(pod, tenant, "registry"), TenantKey(pod, tenant, "lead"),
      AgentKey(pod, tenant, agent, "processing"), AgentKey(pod, tenant, agent, "opening"),
      AgentKey(pod, tenant, agent, "ingress"), DisposableKeys(pod, tenant, agent),
      TenantKey(pod, tenant, "undeliverable"), TenantKey(pod, tenant, "unresolved"),
      AgentKey(pod, tenant, agent, "inbox"), TenantKey(pod, tenant, "retired-inbox"))
  }

  lemma WordIsSegment(s: string)
    requires 4 <= |s| <= 63 && 'a' <= s[0] <= 'z' && (forall i :: 0 <= i < |s| ==> IsNameChar(s[i]))
    requires s !in RESERVED
    ensures IsSegment(s)
  {
    assert s[0] in s;
  }

  lemma WordIsResource(s: string)
    requires 4 <= |s| <= 63 && 'a' <= s[0] <= 'z' && (forall i :: 0 <= i < |s| ==> IsNameChar(s[i]))
    requires s !in RESERVED
    ensures IsResource(s)
  {
    WordIsSegment(s);
    SegmentHasNoDot(s);
    SplitConcat(s, "", '.');
  }

  lemma TenantResources()
    ensures IsResource("registry") && IsResource("lead") && IsResource("undeliverable")
    ensures IsResource("unresolved") && IsResource("retired-inbox")
  {
    hide IsResource, IsSegment, Split;
    WordIsResource("registry");
    WordIsResource("lead");
    WordIsResource("undeliverable");
    WordIsResource("unresolved");
    WordIsResource("retired-inbox");
  }

  lemma AgentResources()
    ensures IsResource("processing") && IsResource("opening") && IsResource("ingress") && IsResource("inbox")
    ensures IsResource("paused") && IsResource("delivering") && IsResource("launch") && IsResource("profile")
    ensures IsResource("provider") && IsResource("resume") && IsResource("skip-permissions")
    ensures IsResource("claude-tools") && IsResource("tags") && IsResource("hmac-keys") && IsResource("incarnation")
    ensures IsResource("window.cause")
  {
    hide IsResource, IsSegment, Split;
    WordIsResource("processing");
    WordIsResource("opening");
    WordIsResource("ingress");
    WordIsResource("inbox");
    WordIsResource("paused");
    WordIsResource("delivering");
    WordIsResource("launch");
    WordIsResource("profile");
    WordIsResource("provider");
    WordIsResource("resume");
    WordIsResource("skip-permissions");
    WordIsResource("claude-tools");
    WordIsResource("tags");
    WordIsResource("hmac-keys");
    WordIsResource("incarnation");
    WindowCause();
  }

  lemma WindowCause()
    ensures IsResource("window.cause")
  {
    hide IsSegment, Split;
    assert IsSegment("window") && IsSegment("cause") by { WordIsSegment("window"); WordIsSegment("cause"); }
    SegmentHasNoDot("window");
    SegmentHasNoDot("cause");
    SplitConcat("window", "cause", '.');
    SplitConcat("cause", "", '.');
    assert "window" + ['.'] + "cause" == "window.cause";
  }

  const TENANT_RESOURCES: seq<string> := ["registry", "lead", "undeliverable", "unresolved", "retired-inbox"]
  const AGENT_RESOURCES: seq<string> := ["inbox", "processing", "opening", "ingress"] + DISPOSABLE

  lemma KeysApart(a: Coordinates, b: Coordinates)
    requires a.Valid() && b.Valid() && a != b
    ensures Join(a.Parts(), ':') != Join(b.Parts(), ':')
  {
    hide IsSegment, IsResource, Join;
    if Join(a.Parts(), ':') == Join(b.Parts(), ':') { PrefixInjective(a, b); }
  }

  lemma ResourcesAreValid(i: nat)
    ensures i < |TENANT_RESOURCES| ==> IsResource(TENANT_RESOURCES[i])
    ensures i < |AGENT_RESOURCES| ==> IsResource(AGENT_RESOURCES[i])
  {
    hide IsResource;
    TenantResources();
    AgentResources();
  }

  lemma DeletedAt(pod: string, tenant: string, agent: string, i: nat)
    requires i < |AGENT_RESOURCES|
    ensures |KeysOf(pod, tenant, agent).Deleted()| == |AGENT_RESOURCES|
    ensures KeysOf(pod, tenant, agent).Deleted()[i] == AgentKey(pod, tenant, agent, AGENT_RESOURCES[i])
  {
    hide AgentKey, TenantKey;
  }

  /** Does retirement of `agent` own the key with these coordinates? */
  ghost predicate Owns(pod: string, tenant: string, agent: string, c: Coordinates) {
    && c.pod == pod && c.tenant == tenant && c.resource.Some?
    && if c.agent.Some? then c.agent.value == agent && c.resource.value in AGENT_RESOURCES
       else c.resource.value in TENANT_RESOURCES
  }

  ghost predicate IsTenantKey(pod: string, tenant: string, key: Key) {
    exists i :: 0 <= i < |TENANT_RESOURCES| && key == TenantKey(pod, tenant, TENANT_RESOURCES[i])
  }

  ghost predicate IsAgentKey(pod: string, tenant: string, agent: string, key: Key) {
    exists i :: 0 <= i < |AGENT_RESOURCES| && key == AgentKey(pod, tenant, agent, AGENT_RESOURCES[i])
  }

  lemma TouchedKeys(pod: string, tenant: string, agent: string, key: Key)
    ensures key in KeysOf(pod, tenant, agent).Touched() <==>
      (IsTenantKey(pod, tenant, key) || IsAgentKey(pod, tenant, agent, key))
  {
    hide AgentKey, TenantKey, RetireKeys.Deleted;
    var K := KeysOf(pod, tenant, agent);
    DeletedAt(pod, tenant, agent, 0);
    if key in K.Deleted() {
      var i :| 0 <= i < |K.Deleted()| && K.Deleted()[i] == key;
      DeletedAt(pod, tenant, agent, i);
    }
    forall i | 0 <= i < |AGENT_RESOURCES|
      ensures AgentKey(pod, tenant, agent, AGENT_RESOURCES[i]) in K.Deleted()
    {
      DeletedAt(pod, tenant, agent, i);
    }
    FiveTenantKeys(pod, tenant, agent, key);
  }

  lemma FiveTenantKeys(pod: string, tenant: string, agent: string, key: Key)
    ensures var K := KeysOf(pod, tenant, agent);
      (key in {K.registry, K.lead, K.undeliverable, K.unresolved, K.retiredInbox}) == IsTenantKey(pod, tenant, key)
  {
    hide AgentKey, TenantKey;
    var r := TENANT_RESOURCES;
    assert r[0] == "registry" && r[1] == "lead" && r[2] == "undeliverable" && r[3] == "unresolved" && r[4] == "retired-inbox";
  }

  /** The key sits in the script's footprint exactly when retirement owns it. */
  lemma FootprintIsExact(pod: string, tenant: string, agent: string, c: Coordinates)
    requires IsSegment(pod) && IsSegment(tenant) && IsSegment(agent) && c.Valid()
    ensures Join(c.Parts(), ':') in KeysOf(pod, tenant, agent).Touched() <==> Owns(pod, tenant, agent, c)
  {
    hide IsSegment, IsResource, Join, KeysOf, RetireKeys.Touched, Coordinates.Parts;
    hide TENANT_RESOURCES, AGENT_RESOURCES, DISPOSABLE;
    var key := Join(c.Parts(), ':');
    TouchedKeys(pod, tenant, agent, key);
    forall i | 0 <= i < |TENANT_RESOURCES|
      ensures key == TenantKey(pod, tenant, TENANT_RESOURCES[i]) <==>
        c == Coordinates(pod, tenant, None, Some(TENANT_RESOURCES[i]))
    {
      ResourcesAreValid(i);
      if c != Coordinates(pod, tenant, None, Some(TENANT_RESOURCES[i])) {
        KeysApart(c, Coordinates(pod, tenant, None, Some(TENANT_RESOURCES[i])));
      }
    }
    forall i | 0 <= i < |AGENT_RESOURCES|
      ensures key == AgentKey(pod, tenant, agent, AGENT_RESOURCES[i]) <==>
        c == Coordinates(pod, tenant, Some(agent), Some(AGENT_RESOURCES[i]))
    {
      ResourcesAreValid(i);
      if c != Coordinates(pod, tenant, Some(agent), Some(AGENT_RESOURCES[i])) {
        KeysApart(c, Coordinates(pod, tenant, Some(agent), Some(AGENT_RESOURCES[i])));
      }
    }
  }

  /** The aliasing condition the script's atomicity rests on holds of every agent's keys. */
  lemma KeysNeverAlias(pod: string, tenant: string, agent: string)
    requires IsSegment(pod) && IsSegment(tenant) && IsSegment(agent)
    ensures KeysOf(pod, tenant, agent).Distinct()
  {
    hide IsSegment, IsResource, TenantKey, AgentKey, RetireKeys.Deleted;
    var K := KeysOf(pod, tenant, agent);
    DeletedAt(pod, tenant, agent, 0);
    forall i, j | 0 <= i < |TENANT_RESOURCES| && 0 <= j < |AGENT_RESOURCES|
      ensures TenantKey(pod, tenant, TENANT_RESOURCES[i]) != K.Deleted()[j]
    {
      TenantIsNotAgent(pod, tenant, agent, i, j);
      DeletedAt(pod, tenant, agent, j);
    }
    forall i | 0 <= i < |TENANT_RESOURCES| ensures TenantKey(pod, tenant, TENANT_RESOURCES[i]) !in K.Deleted() {
    }
    TenantKeysApart(pod, tenant);
    var r := TENANT_RESOURCES;
    assert r[0] == "registry" && r[1] == "lead" && r[2] == "undeliverable" && r[3] == "unresolved" && r[4] == "retired-inbox";
  }

  lemma TenantIsNotAgent(pod: string, tenant: string, agent: string, i: nat, j: nat)
    requires IsSegment(pod) && IsSegment(tenant) && IsSegment(agent)
    requires i < |TENANT_RESOURCES| && j < |AGENT_RESOURCES|
    ensures TenantKey(pod, tenant, TENANT_RESOURCES[i]) != AgentKey(pod, tenant, agent, AGENT_RESOURCES[j])
  {
    hide IsSegment, IsResource, TENANT_RESOURCES, AGENT_RESOURCES, Coordinates.Parts;
    ResourcesAreValid(i);
    ResourcesAreValid(j);
    KeysApart(Coordinates(pod, tenant, None, Some(TENANT_RESOURCES[i])), Coordinates(pod, tenant, Some(agent), Some(AGENT_RESOURCES[j])));
  }

  lemma TenantKeysApart(pod: string, tenant: string)
    requires IsSegment(pod) && IsSegment(tenant)
    ensures forall i, j | 0 <= i < j < |TENANT_RESOURCES| ::
      TenantKey(pod, tenant, TENANT_RESOURCES[i]) != TenantKey(pod, tenant, TENANT_RESOURCES[j])
  {
    hide IsSegment, IsResource, Coordinates.Parts, TENANT_RESOURCES;
    forall i, j | 0 <= i < j < |TENANT_RESOURCES|
      ensures TenantKey(pod, tenant, TENANT_RESOURCES[i]) != TenantKey(pod, tenant, TENANT_RESOURCES[j])
    {
      ResourcesAreValid(i);
      ResourcesAreValid(j);
      TenantResourcesDiffer(i, j);
      KeysApart(Coordinates(pod, tenant, None, Some(TENANT_RESOURCES[i])), Coordinates(pod, tenant, None, Some(TENANT_RESOURCES[j])));
    }
  }

  lemma TenantResourcesDiffer(i: nat, j: nat)
    requires i < j < |TENANT_RESOURCES|
    ensures TENANT_RESOURCES[i] != TENANT_RESOURCES[j]
  {
    assert |"registry"| == 8 && |"lead"| == 4 && |"undeliverable"| == 13 && |"unresolved"| == 10;
    if i == 2 && j == 4 { assert TENANT_RESOURCES[i][0] != TENANT_RESOURCES[j][0]; }
  }

  /** Retirement changes no key it does not own: every other agent, office and resource reads as before. */
  lemma OthersKeepEverything(before: Store, after: Store, pod: string, tenant: string, agent: string, c: Coordinates)
    requires IsSegment(pod) && IsSegment(tenant) && IsSegment(agent) && c.Valid()
    requires KeysOf(pod, tenant, agent).Withdrawn(before, after, agent)
    requires !Owns(pod, tenant, agent, c)
    ensures Join(c.Parts(), ':') in before <==> Join(c.Parts(), ':') in after
    ensures Join(c.Parts(), ':') in before ==> before[Join(c.Parts(), ':')] == after[Join(c.Parts(), ':')]
  {
    hide IsSegment, IsResource, Join, KeysOf, Owns;
    FootprintIsExact(pod, tenant, agent, c);
  }

  // ---- the script is the protocol's retirement step ----

  /** The frame an item is evidence of. */
  function FrameOf(x: Item): Raw {
    match x
    case Frame(raw) => raw
    case Json(CustodyRecord(_, _, hex)) => Unhex(hex)
    case Json(OpeningRecord(_, _, raw)) => raw
    case Json(InboxRecord(_, _, _, _)) => []
  }

  function DoubtOf(x: Item): Custody.Doubt {
    match x
    case Json(CustodyRecord(_, _, _)) => Custody.RetiredWhileOpening
    case Json(OpeningRecord(_, reason, _)) =>
      if reason == "opener outcome unknown after process exit" then Custody.ProcessExited else Custody.OpenerFailed
    case _ => Custody.OpenerFailed
  }

  function Frames(items: seq<Item>): seq<Raw> {
    seq(|items|, i requires 0 <= i < |items| => FrameOf(items[i]))
  }

  function Doubts(items: seq<Item>): seq<Custody.Tagged<Custody.Doubt>> {
    seq(|items|, i requires 0 <= i < |items| => Custody.Tagged(DoubtOf(items[i]), FrameOf(items[i])))
  }

  predicate AllFrames(items: seq<Item>) { forall x :: x in items ==> x.Frame? }

  /** The custody lists of one agent, read out of a database. */
  function View(db: Store, pod: string, tenant: string, agent: string): Custody.Lists {
    var K := KeysOf(pod, tenant, agent);
    Custody.Lists(
      Frames(Items(db, K.ingress)), Frames(Items(db, K.processing)), Frames(Items(db, K.opening)),
      Frames(Items(db, AgentKey(pod, tenant, agent, "dead"))), Frames(Items(db, AgentKey(pod, tenant, agent, "opened"))),
      Doubts(Items(db, K.unresolved)), Frames(Items(db, K.undeliverable)))
  }

  lemma HexEvidence(agent: string, a: seq<Item>)
    requires AllFrames(a)
    ensures Frames(Undeliverables(agent, a)) == Frames(a)
    ensures Doubts(Unresolveds(agent, a)) == Custody.Doubted(Frames(a))
  {
    forall i | 0 <= i < |a|
      ensures FrameOf(UndeliverableRecord(agent, a[i])) == FrameOf(a[i]) == FrameOf(UnresolvedRecord(agent, a[i]))
    {
      assert a[i] in a;
      UnhexHex(a[i].raw);
    }
  }

  lemma ReceiptsAreNotOwned(pod: string, tenant: string, agent: string, resource: string)
    requires resource == "dead" || resource == "opened"
    ensures IsResource(resource)
    ensures !Owns(pod, tenant, agent, Coordinates(pod, tenant, Some(agent), Some(resource)))
  {
    hide IsResource;
    WordIsResource("dead");
    WordIsResource("opened");
    forall i | 0 <= i < |AGENT_RESOURCES| ensures AGENT_RESOURCES[i] != resource {
      assert |"processing"| == 10 && |"opening"| == 7 && |"ingress"| == 7 && |"inbox"| == 5;
      if |AGENT_RESOURCES[i]| == |resource| { assert AGENT_RESOURCES[i][0] != resource[0]; }
    }
  }

  /** `dead` and `opened` outlive retirement. */
  lemma ReceiptsSurvive(before: Store, after: Store, pod: string, tenant: string, agent: string, resource: string)
    requires IsSegment(pod) && IsSegment(tenant) && IsSegment(agent)
    requires KeysOf(pod, tenant, agent).Withdrawn(before, after, agent)
    requires resource == "dead" || resource == "opened"
    ensures Items(after, AgentKey(pod, tenant, agent, resource)) == Items(before, AgentKey(pod, tenant, agent, resource))
  {
    hide IsSegment, IsResource, Join, KeysOf, Owns, RetireKeys.Withdrawn;
    ReceiptsAreNotOwned(pod, tenant, agent, resource);
    OthersKeepEverything(before, after, pod, tenant, agent, Coordinates(pod, tenant, Some(agent), Some(resource)));
  }

  lemma FramesConcat(a: seq<Item>, b: seq<Item>)
    ensures Frames(a + b) == Frames(a) + Frames(b)
    ensures Doubts(a + b) == Doubts(a) + Doubts(b)
  {
    hide FrameOf, DoubtOf;
  }

  lemma DeletedListsAreEmpty(K: RetireKeys, before: Store, after: Store, agent: string)
    requires K.Withdrawn(before, after, agent)
    ensures Items(after, K.processing) == [] && Items(after, K.opening) == [] && Items(after, K.ingress) == []
  {
    hide SameExcept, Fields, Text, Entries, Undeliverables, Unresolveds, RetiredInbox, InboxReason, Hashy, Stringy,
      RetireKeys.Deleted, RetireKeys.Touched;
    CustodyListsAreDeleted(K);
  }

  lemma CustodyListsAreDeleted(K: RetireKeys)
    ensures K.processing in K.Deleted() && K.opening in K.Deleted() && K.ingress in K.Deleted()
  {
    var d := K.Deleted();
    assert d[1] == K.processing && d[2] == K.opening && d[3] == K.ingress;
  }

  /** Reading the lists back, the script is exactly the protocol's retirement step. */
  lemma RetireIsTheProtocolStep(before: Store, after: Store, pod: string, tenant: string, agent: string)
    requires IsSegment(pod) && IsSegment(tenant) && IsSegment(agent)
    requires KeysOf(pod, tenant, agent).Withdrawn(before, after, agent)
    requires var K := KeysOf(pod, tenant, agent);
      AllFrames(Items(before, K.ingress)) && AllFrames(Items(before, K.processing)) && AllFrames(Items(before, K.opening))
    ensures View(after, pod, tenant, agent) == Custody.RetireLists(View(before, pod, tenant, agent))
  {
    hide IsSegment, Join, KeysOf, AgentKey, Items, Fields, Text, Entries, SameExcept, AllFrames, FrameOf, DoubtOf;
    hide Frames, Doubts, Undeliverables, Unresolveds, RetiredInbox, RetireKeys.Deleted, RetireKeys.Touched, Custody.Doubted;
    var K := KeysOf(pod, tenant, agent);
    ReceiptsSurvive(before, after, pod, tenant, agent, "dead");
    ReceiptsSurvive(before, after, pod, tenant, agent, "opened");
    DeletedListsAreEmpty(K, before, after, agent);
    var processing, ingress, opening := Items(before, K.processing), Items(before, K.ingress), Items(before, K.opening);
    NoFrames(Items(after, K.ingress));
    AllFramesConcat(processing, ingress);
    HexEvidence(agent, processing + ingress);
    HexEvidence(agent, opening);
    FramesConcat(processing, ingress);
    FramesConcat(Items(before, K.undeliverable), Undeliverables(agent, processing + ingress));
    FramesConcat(Items(before, K.unresolved), Unresolveds(agent, opening));
    var u, p, i := Frames(Items(before, K.undeliverable)), Frames(processing), Frames(ingress);
    assert u + (p + i) == u + p + i;
  }

  lemma NoFrames(a: seq<Item>)
    requires |a| == 0
    ensures Frames(a) == [] && Frames([]) == []
  {
  }

  lemma AllFramesConcat(a: seq<Item>, b: seq<Item>)
    requires AllFrames(a) && AllFrames(b)
    ensures AllFrames(a + b)
  {
  }

  lemma {:induction false} FramesRemove(items: seq<Item>, raw: Raw)
    requires AllFrames(items)
    ensures Frames(RemoveFirst(items, Frame(raw))) == RemoveFirst(Frames(items), raw)
    ensures raw in Frames(items) <==> Frame(raw) in items
    decreases |items|
  {
    if items != [] {
      assert items[0] in items && forall x :: x in items[1..] ==> x in items;
      FramesRemove(items[1..], raw);
      FramesHead(items);
      FramesHead([items[0]] + RemoveFirst(items[1..], Frame(raw)));
      hide Frames, FrameOf, AllFrames;
      assert ([items[0]] + RemoveFirst(items[1..], Frame(raw)))[1..] == RemoveFirst(items[1..], Frame(raw));
    }
  }

  lemma FramesHead(items: seq<Item>)
    requires items != [] && items[0].Frame?
    ensures |Frames(items)| == |items| && Frames(items)[0] == items[0].raw && Frames(items)[1..] == Frames(items[1..])
    ensures Frames(items) == [items[0].raw] + Frames(items[1..])
  {
  }

  /** Read as frames, the transfer script takes one copy from its source and adds one to its destination. */
  lemma TransferReadsAsFrames(source: seq<Item>, destination: seq<Item>, raw: Raw, value: Item, cap: nat)
    requires AllFrames(source)
    ensures Frames(RemoveFirst(source, Frame(raw))) == RemoveFirst(Frames(source), raw)
    ensures Frames(KeepLast(destination + [value], cap)) == KeepLast(Frames(destination) + [FrameOf(value)], cap)
    ensures Doubts(KeepLast(destination + [value], cap))
      == KeepLast(Doubts(destination) + [Custody.Tagged(DoubtOf(value), FrameOf(value))], cap)
  {
    FramesRemove(source, raw);
    FramesConcat(destination, [value]);
    assert Frames([value]) == [FrameOf(value)];
    assert Doubts([value]) == [Custody.Tagged(DoubtOf(value), FrameOf(value))];
    var all := destination + [value];
    if cap > 0 && |all| > cap {
      assert Frames(all[|all| - cap..]) == Frames(all)[|all| - cap..];
      assert Doubts(all[|all| - cap..]) == Doubts(all)[|all| - cap..];
    }
  }
}
