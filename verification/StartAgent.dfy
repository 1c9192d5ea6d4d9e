/**
 start_agent (h-app/lib/agentlifecycle/lifecycle.py): validation, then an ordered run of
 desired-state writes ending in the publish script, against a Redis whose every command may be
 refused, or carried out with its reply lost.
 */
module StartAgent {
  import opened Prelude
  import opened Keys
  import opened RedisStore
  import opened Scripts
  import opened Retirement
  import opened Lifecycle

  // ---- validation ----

  const START_KEYS: set<string> := {
    "agent", "port_type", "cli", "profile", "provider", "export", "import", "resume",
    "skip_permissions", "claude_tools", "hmac_secret", "kid", "revoke_kid"}

  const MIN_SECRET := 16

  /** ProvableLifecycleRejection, or some other exception; either way before any command. */
  datatype Refusal = Rejection | OtherError

  datatype Policy = Policy(supplied: bool, exports: Option<set<string>>, imports: Option<set<string>>)

  datatype Settings = Settings(cli: string, profile: Option<string>, provider: Option<string>,
                               resume: Option<bool>, skipPermissions: Option<bool>, tools: Option<string>)

  datatype Request =
    | ApiRequest(agent: string, policy: Policy, revoke: Option<string>, key: Option<(string, string)>)
    | TmuxRequest(agent: string, policy: Policy, settings: Settings)

  /** What the account lookup answers: it raised, it does not know, or a list. */
  datatype Accounts = LookupRaised | NotKnown | Known(names: seq<string>)

  function Target(envelope: JVal, allowed: set<string>): Result<(string, map<string, JVal>), Refusal> {
    if !envelope.JObj? || "payload" !in envelope.members then Err(Rejection)
    else
      var payload := envelope.members["payload"];
      if !payload.JObj? || !(payload.members.Keys <= allowed) then Err(Rejection)
      else
        var agent := Lookup(payload.members, "agent");
        if !agent.JStr? || !IsSegment(agent.text) then Err(Rejection)
        else Ok((agent.text, payload.members))
  }

  function Tags(v: JVal): Result<Option<set<string>>, Refusal> {
    if v.JNull? then Ok(None)
    else if v.JList? && forall x :: x in v.items ==> x.JStr? && MatchesSegment(x.text) then
      Ok(Some(set x | x in v.items && x.JStr? :: x.text))
    else Err(Rejection)
  }

  predicate IsSegmentString(v: JVal) { v.JStr? && MatchesSegment(v.text) }

  /** The api-only key material. */
  function KeyMaterial(p: map<string, JVal>, api: bool): Result<(Option<string>, Option<(string, string)>), Refusal> {
    var secret, kid, revoke := Lookup(p, "hmac_secret"), Lookup(p, "kid"), Lookup(p, "revoke_kid");
    if secret.JNull? != kid.JNull? then Err(Rejection)
    else if !kid.JNull? && !IsSegmentString(kid) then Err(Rejection)
    else if !secret.JNull? && !(secret.JStr? && |secret.text| >= MIN_SECRET) then Err(Rejection)
    else if !revoke.JNull? && !IsSegmentString(revoke) then Err(Rejection)
    else if !api && (!kid.JNull? || !revoke.JNull?) then Err(Rejection)
    else Ok((if revoke.JStr? then Some(revoke.text) else None,
             if kid.JStr? && secret.JStr? then Some((kid.text, secret.text)) else None))
  }

  /** `if name: … elif name not in (None, "")`, with the segment check. */
  function OptionalName(v: JVal): Result<Option<string>, Refusal> {
    if Truthy(v) then if v.JStr? && IsSegment(v.text) then Ok(Some(v.text)) else Err(Rejection)
    else if v == JNull || v == JStr("") then Ok(None)
    else Err(Rejection)
  }

  function OptionalFlag(v: JVal): Result<Option<bool>, Refusal> {
    match v
    case JNull => Ok(None)
    case JBool(b) => Ok(Some(b))
    case _ => Err(Rejection)
  }

  function TmuxSettings(p: map<string, JVal>, accounts: Accounts): Result<Settings, Refusal> {
    var cli := if "cli" in p then p["cli"] else JStr("claude");
    if !cli.JStr? || cli.text == "" then Err(Rejection)
    else
      var profile :- OptionalName(Lookup(p, "profile"));
      if profile.Some? && accounts.LookupRaised? then Err(OtherError)
      else if profile.Some? && accounts.Known? && profile.value !in accounts.names then Err(Rejection)
      else
        var provider :- OptionalName(Lookup(p, "provider"));
        var resume :- OptionalFlag(Lookup(p, "resume"));
        var skip :- OptionalFlag(Lookup(p, "skip_permissions"));
        if "claude_tools" in p && !p["claude_tools"].JStr? then Err(Rejection)
        else Ok(Settings(cli.text, profile, provider, resume, skip,
                         if "claude_tools" in p then Some(p["claude_tools"].text) else None))
  }

  /** Everything start_agent checks before its first Redis command. */
  function Validate(envelope: JVal, accounts: Accounts): (r: Result<Request, Refusal>)
    ensures r.Ok? ==> IsSegment(r.value.agent)
  {
    var target :- Target(envelope, START_KEYS);
    var (agent, p) := (target.0, target.1);
    var exports :- Tags(Lookup(p, "export"));
    var imports :- Tags(Lookup(p, "import"));
    var policy := Policy("export" in p || "import" in p, exports, imports);
    var port := if "port_type" in p then p["port_type"] else JStr("tmux");
    if port.JList? || port.JObj? then Err(OtherError) // unhashable: TypeError
    else if port != JStr("tmux") && port != JStr("api") then Err(Rejection)
    else
      var material :- KeyMaterial(p, port == JStr("api"));
      if port == JStr("api") then Ok(ApiRequest(agent, policy, material.0, material.1))
      else
        var settings :- TmuxSettings(p, accounts);
        Ok(TmuxRequest(agent, policy, settings))
  }

  // ---- the run of commands a request asks for ----

  datatype Effect =
    | SetKey(resource: string, text: string)
    | DelKey(resource: string)
    | SetField(resource: string, field: string, text: string)
    | DelField(resource: string, field: string)
    | PublishMember
    | PublishLead(cause: string)

  datatype Command =
    | LookUpPort                             // HGET registry agent
    | ReadOld(resource: string, desired: string) // GET, only to compare with what is desired
    | Write(what: string, effect: Effect)

  /** How the stored JSON text of a policy side and of a key record is written. */
  datatype Encoding = Encoding(tags: set<string> -> string, key: string -> string)

  function Setting(resource: string, what: string, desired: Option<string>, compare: bool): seq<Command> {
    match desired
    case None => []
    case Some(text) =>
      (if compare then [ReadOld(resource, text)] else []) + [Write(what, SetKey(resource, text))]
  }

  function Side(enc: Encoding, side: string, what: string, tags: Option<set<string>>): seq<Command> {
    if tags.None? then [] else [Write(what, SetField("tags", side, enc.tags(tags.value)))]
  }

  function PolicyCommands(enc: Encoding, p: Policy): seq<Command> {
    if !p.supplied then []
    else [Write("policy reset", DelKey("tags"))]
         + (Side(enc, "export", "export policy published", p.exports) + Side(enc, "import", "import policy published", p.imports))
  }

  function Flag(b: Option<bool>): Option<string> {
    match b case None => None case Some(v) => Some(if v then "1" else "0")
  }

  function AfterLaunch(enc: Encoding, r: Request, tmux: bool, cause: string): seq<Command>
    requires r.TmuxRequest?
  {
    Setting("resume", "resume published", Flag(r.settings.resume), tmux)
    + (Setting("skip-permissions", "skip_permissions published", Flag(r.settings.skipPermissions), tmux)
    + (Setting("claude-tools", "claude_tools published", r.settings.tools, tmux)
    + (PolicyCommands(enc, r.policy) + [Write("lead and registry row published", PublishLead(cause))])))
  }

  function TmuxPlan(enc: Encoding, r: Request, tmux: bool, cause: string): seq<Command>
    requires r.TmuxRequest?
  {
    [LookUpPort]
    + ((if tmux then [ReadOld("launch", r.settings.cli)] else [])
    + (Setting("profile", "profile published", r.settings.profile, tmux)
    + (Setting("provider", "provider published", r.settings.provider, tmux)
    + ([Write("launch published", SetKey("launch", r.settings.cli))] + AfterLaunch(enc, r, tmux, cause)))))
  }

  function ApiPlan(enc: Encoding, r: Request): seq<Command>
    requires r.ApiRequest?
  {
    (if r.revoke.None? then [] else
      [Write("hmac key '" + r.revoke.value + "' revoked", DelField("hmac-keys", r.revoke.value))])
    + ((if r.key.None? then [] else
      [Write("hmac key '" + r.key.value.0 + "' published", SetField("hmac-keys", r.key.value.0, enc.key(r.key.value.1)))])
    + (PolicyCommands(enc, r.policy) + [Write("registry row published", PublishMember)]))
  }

  /** A first tmux hire with a correlation id names it as the cause of its window. */
  function Cause(envelope: JVal, existing: Option<string>): string {
    if existing != Some("tmux") && envelope.JObj? && Lookup(envelope.members, "correlation_id").JStr?
    then envelope.members["correlation_id"].text else ""
  }

  function Plan(enc: Encoding, r: Request, existing: Option<string>, envelope: JVal): seq<Command> {
    if r.ApiRequest? then ApiPlan(enc, r) else TmuxPlan(enc, r, existing == Some("tmux"), Cause(envelope, existing))
  }

  function Labels(commands: seq<Command>): seq<string> {
    if commands == [] then []
    else (if commands[0].Write? then [commands[0].what] else []) + Labels(commands[1..])
  }

  function Effects(commands: seq<Command>): (e: seq<Effect>)
    ensures |e| == |Labels(commands)|
  {
    if commands == [] then []
    else (if commands[0].Write? then [commands[0].effect] else []) + Effects(commands[1..])
  }

  lemma {:induction false} EffectsConcat(a: seq<Command>, b: seq<Command>)
    ensures Effects(a + b) == Effects(a) + Effects(b)
    decreases |a|
  {
    if a == [] {
      assert a + b == b;
    } else {
      EffectsConcat(a[1..], b);
      assert (a + b)[1..] == a[1..] + b;
      var head := if a[0].Write? then [a[0].effect] else [];
      assert head + (Effects(a[1..]) + Effects(b)) == head + Effects(a[1..]) + Effects(b);
    }
  }

  lemma {:induction false} LabelsConcat(a: seq<Command>, b: seq<Command>)
    ensures Labels(a + b) == Labels(a) + Labels(b)
    decreases |a|
  {
    if a == [] {
      assert a + b == b;
    } else {
      LabelsConcat(a[1..], b);
      assert (a + b)[1..] == a[1..] + b;
      var head := if a[0].Write? then [a[0].what] else [];
      assert head + (Labels(a[1..]) + Labels(b)) == head + Labels(a[1..]) + Labels(b);
    }
  }

  // ---- what the effects do ----

  /** The agent whose desired state is written, and the id and type its membership would carry. */
  datatype Who = Who(pod: string, tenant: string, agent: string, portType: string, newId: string) {
    predicate Valid() { IsSegment(pod) && IsSegment(tenant) && IsSegment(agent) }

    function Key(resource: string): Key { AgentKey(pod, tenant, agent, resource) }

    function Registry(): Key { TenantKey(pod, tenant, "registry") }

    function Lead(): Key { TenantKey(pod, tenant, "lead") }
  }

  /** `after` is what the effect leaves of `before`; a wrong-typed key fails instead. */
  ghost predicate Did(w: Who, e: Effect, before: Store, after: Store) {
    match e
    case SetKey(r, text) => after == Set(before, w.Key(r), text)
    case DelKey(r) => after == Del(before, w.Key(r))
    case SetField(r, f, text) => HSet(before, w.Key(r), f, text) == Ok(after)
    case DelField(r, f) => HDel(before, w.Key(r), f) == Ok(after)
    case PublishMember =>
      PublishKeysOf(w.pod, w.tenant, w.agent).Published(before, after, w.agent, w.portType, w.newId, "", false)
    case PublishLead(cause) =>
      PublishKeysOf(w.pod, w.tenant, w.agent).Published(before, after, w.agent, w.portType, w.newId, cause,
        Vacant(Text(before, TenantKey(w.pod, w.tenant, "lead"))))
  }

  /** The databases seen so far: each effect in turn, some of them still to come. */
  ghost predicate Trace(w: Who, effects: seq<Effect>, states: seq<Store>) {
    && 1 <= |states| <= |effects| + 1
    && forall i :: 0 <= i < |states| - 1 ==> Did(w, effects[i], states[i], states[i + 1])
  }

  predicate Publishes(e: Effect) { e.PublishMember? || e.PublishLead? }

  /** The agent resource a desired-state write names. */
  function ResourceOf(e: Effect): string
    requires !Publishes(e)
  {
    e.resource
  }

  const DESIRED: set<string> := {"profile", "provider", "launch", "resume", "skip-permissions", "claude-tools", "tags", "hmac-keys"}

  predicate Desires(effects: seq<Effect>) {
    forall i :: 0 <= i < |effects| ==> !Publishes(effects[i]) && ResourceOf(effects[i]) in DESIRED
  }

  /** The last text a run of effects leaves at a key; None when the last effect there is no SET. */
  function LastText(effects: seq<Effect>, r: string): Option<string>
    decreases |effects|
  {
    if effects == [] then None
    else
      var e := effects[|effects| - 1];
      if Publishes(e) || ResourceOf(e) != r then LastText(effects[..|effects| - 1], r)
      else if e.SetKey? then Some(e.text) else None
  }

  /** The hash a run of effects leaves at a key it deletes and refills. */
  function LastFields(effects: seq<Effect>, r: string): Option<map<string, string>>
    decreases |effects|
  {
    if effects == [] then None
    else
      var e, init := effects[|effects| - 1], effects[..|effects| - 1];
      if Publishes(e) || ResourceOf(e) != r then LastFields(init, r)
      else if e.DelKey? then Some(map[])
      else if e.SetField? && LastFields(init, r).Some? then Some(LastFields(init, r).value[e.field := e.text])
      else None
  }

  lemma DesiredResources(r: string)
    requires r in DESIRED
    ensures IsResource(r) && r != "window.cause" && r != "incarnation"
  {
    hide IsResource;
    AgentResources();
    WordIsResource("hmac-keys");
    assert |"incarnation"| == 11 && |"window.cause"| == 12;
    assert |r| == 12 ==> r == "claude-tools";
    assert "claude-tools"[0] != "window.cause"[0];
  }

  /** One effect at one desired key: only the effect that names it changes it. */
  lemma DidAt(w: Who, e: Effect, before: Store, after: Store, r: string)
    requires w.Valid() && r in DESIRED && Did(w, e, before, after)
    requires Publishes(e) || ResourceOf(e) in DESIRED
    ensures Publishes(e) || ResourceOf(e) != r ==>
      Text(after, w.Key(r)) == Text(before, w.Key(r)) && Fields(after, w.Key(r)) == Fields(before, w.Key(r))
    ensures !Publishes(e) && ResourceOf(e) == r && e.SetKey? ==> Text(after, w.Key(r)) == Some(e.text)
    ensures !Publishes(e) && ResourceOf(e) == r && e.DelKey? ==> Fields(after, w.Key(r)) == map[]
    ensures !Publishes(e) && ResourceOf(e) == r && e.SetField? ==>
      Fields(after, w.Key(r)) == Fields(before, w.Key(r))[e.field := e.text]
    ensures !Publishes(e) && ResourceOf(e) == r && e.DelField? ==>
      Fields(after, w.Key(r)) == Fields(before, w.Key(r)) - {e.field}
  {
    hide IsSegment, IsResource, TenantKey, AgentKey, SameExcept, PutFields, DESIRED, Hashy, Stringy;
    DesiredResources(r);
    if Publishes(e) {
      PublishMisses(w, e, before, after, r);
    } else if ResourceOf(e) != r {
      DesiredResources(ResourceOf(e));
      AgentKeysApart(w.pod, w.tenant, w.agent, w.agent, r, ResourceOf(e));
      Untouched(after, before, {w.Key(ResourceOf(e))}, w.Key(r));
    }
  }

  lemma PublishMisses(w: Who, e: Effect, before: Store, after: Store, r: string)
    requires w.Valid() && r in DESIRED && Did(w, e, before, after) && Publishes(e)
    ensures Text(after, w.Key(r)) == Text(before, w.Key(r)) && Fields(after, w.Key(r)) == Fields(before, w.Key(r))
  {
    hide IsSegment, IsResource, TenantKey, AgentKey, SameExcept, DESIRED, Fields, Text;
    DesiredResources(r);
    TenantResources();
    AgentResources();
    TenantApart(w.pod, w.tenant, w.agent, "lead", r);
    TenantApart(w.pod, w.tenant, w.agent, "registry", r);
    AgentKeysApart(w.pod, w.tenant, w.agent, w.agent, r, "window.cause");
    AgentKeysApart(w.pod, w.tenant, w.agent, w.agent, r, "incarnation");
    var why := if e.PublishMember? then "" else e.cause;
    var claims := e.PublishLead? && Vacant(Text(before, TenantKey(w.pod, w.tenant, "lead")));
    Untouched(after, before, PublishKeysOf(w.pod, w.tenant, w.agent).Written(why, claims), w.Key(r));
  }

  /** A desired-state write leaves the registry and the lead alone. */
  lemma DesireMissesRegistry(w: Who, e: Effect, before: Store, after: Store)
    requires w.Valid() && Did(w, e, before, after) && !Publishes(e) && ResourceOf(e) in DESIRED
    ensures Fields(after, w.Registry()) == Fields(before, w.Registry())
    ensures Text(after, w.Lead()) == Text(before, w.Lead())
  {
    hide IsSegment, IsResource, TenantKey, AgentKey, SameExcept, DESIRED, Fields, Text, PutFields, Hashy;
    DesiredResources(ResourceOf(e));
    TenantResources();
    TenantApart(w.pod, w.tenant, w.agent, "registry", ResourceOf(e));
    TenantApart(w.pod, w.tenant, w.agent, "lead", ResourceOf(e));
    Untouched(after, before, {w.Key(ResourceOf(e))}, w.Registry());
    Untouched(after, before, {w.Key(ResourceOf(e))}, w.Lead());
  }

  /** After all the effects, each desired key holds what the effects say. */
  lemma {:induction false} Persists(w: Who, effects: seq<Effect>, states: seq<Store>, r: string)
    requires w.Valid() && r in DESIRED && Trace(w, effects, states) && |states| == |effects| + 1
    requires forall i :: 0 <= i < |effects| ==> Publishes(effects[i]) || ResourceOf(effects[i]) in DESIRED
    ensures LastText(effects, r).Some? ==> Text(states[|effects|], w.Key(r)) == LastText(effects, r)
    ensures LastFields(effects, r).Some? ==> Fields(states[|effects|], w.Key(r)) == LastFields(effects, r).value
    decreases |effects|
  {
    hide Did, Text, Fields, Who.Key, DESIRED;
    if effects != [] {
      var n := |effects| - 1;
      Persists(w, effects[..n], states[..n + 1], r);
      DidAt(w, effects[n], states[n], states[n + 1], r);
    }
  }

  lemma {:induction false} RegistryQuiet(w: Who, effects: seq<Effect>, states: seq<Store>, n: nat)
    requires w.Valid() && Trace(w, effects, states) && n < |states|
    requires Desires(effects[..n])
    ensures Fields(states[n], w.Registry()) == Fields(states[0], w.Registry())
    ensures Text(states[n], w.Lead()) == Text(states[0], w.Lead())
    decreases n
  {
    hide Did, Fields, Text, Who.Registry, Who.Lead, DESIRED;
    if n > 0 {
      assert effects[..n][..n - 1] == effects[..n - 1];
      RegistryQuiet(w, effects, states, n - 1);
      assert effects[..n][n - 1] == effects[n - 1];
      DesireMissesRegistry(w, effects[n - 1], states[n - 1], states[n]);
    }
  }

  predicate Names(effects: seq<Effect>, r: string) {
    exists i :: 0 <= i < |effects| && !Publishes(effects[i]) && ResourceOf(effects[i]) == r
  }

  lemma {:induction false} LastConcat(a: seq<Effect>, b: seq<Effect>, r: string)
    ensures LastText(a + b, r) == if Names(b, r) then LastText(b, r) else LastText(a, r)
    ensures !Names(b, r) ==> LastFields(a + b, r) == LastFields(a, r)
    ensures LastFields(b, r).Some? ==> LastFields(a + b, r) == LastFields(b, r)
    decreases |b|
  {
    if b == [] {
      assert a + b == a;
    } else {
      var n := |b| - 1;
      assert (a + b)[..|a + b| - 1] == a + b[..n];
      LastConcat(a, b[..n], r);
      assert Names(b[..n], r) ==> Names(b, r);
      assert b[n] == (a + b)[|a + b| - 1];
      if !Names(b[..n], r) && (Publishes(b[n]) || ResourceOf(b[n]) != r) {
        forall i | 0 <= i < |b| && !Publishes(b[i]) ensures ResourceOf(b[i]) != r {
          if i < n { assert b[..n][i] == b[i]; }
        }
      }
    }
  }

  // ---- what an observer of a first tmux hire sees ----

  function Put(resource: string, desired: Option<string>): seq<Effect> {
    if desired.None? then [] else [SetKey(resource, desired.value)]
  }

  function PolicyEffects(enc: Encoding, p: Policy): seq<Effect> {
    if !p.supplied then []
    else [DelKey("tags")]
         + ((if p.exports.None? then [] else [SetField("tags", "export", enc.tags(p.exports.value))])
         + (if p.imports.None? then [] else [SetField("tags", "import", enc.tags(p.imports.value))]))
  }

  /** The launch state a tmux request asks for, in the order it is written. */
  function LaunchEffects(enc: Encoding, r: Request): seq<Effect>
    requires r.TmuxRequest?
  {
    Put("profile", r.settings.profile)
    + (Put("provider", r.settings.provider)
    + ([SetKey("launch", r.settings.cli)]
    + (Put("resume", Flag(r.settings.resume))
    + (Put("skip-permissions", Flag(r.settings.skipPermissions))
    + (Put("claude-tools", r.settings.tools)
    + PolicyEffects(enc, r.policy))))))
  }

  lemma SettingEffects(resource: string, what: string, desired: Option<string>, compare: bool)
    ensures Effects(Setting(resource, what, desired, compare)) == Put(resource, desired)
  {
    if desired.Some? {
      EffectsConcat(if compare then [ReadOld(resource, desired.value)] else [], [Write(what, SetKey(resource, desired.value))]);
    }
  }

  lemma PolicyEffectsAre(enc: Encoding, p: Policy)
    ensures Effects(PolicyCommands(enc, p)) == PolicyEffects(enc, p)
  {
    if p.supplied {
      var a, b := Side(enc, "export", "export policy published", p.exports), Side(enc, "import", "import policy published", p.imports);
      EffectsConcat([Write("policy reset", DelKey("tags"))], a + b);
      EffectsConcat(a, b);
    }
  }

  /** Every launch write comes before the one command that makes the agent visible. */
  lemma PublishIsLast(enc: Encoding, r: Request, tmux: bool, cause: string)
    requires r.TmuxRequest?
    ensures Effects(TmuxPlan(enc, r, tmux, cause)) == LaunchEffects(enc, r) + [PublishLead(cause)]
  {
    hide Effects, Setting, PolicyCommands, PolicyEffects, Put;
    var s := r.settings;
    var launch := [Write("launch published", SetKey("launch", s.cli))];
    var look := if tmux then [ReadOld("launch", s.cli)] else [];
    var p1 := Setting("profile", "profile published", s.profile, tmux);
    var p2 := Setting("provider", "provider published", s.provider, tmux);
    var p3 := Setting("resume", "resume published", Flag(s.resume), tmux);
    var p4 := Setting("skip-permissions", "skip_permissions published", Flag(s.skipPermissions), tmux);
    var p5 := Setting("claude-tools", "claude_tools published", s.tools, tmux);
    var p6 := PolicyCommands(enc, r.policy);
    var last := [Write("lead and registry row published", PublishLead(cause))];
    SettingEffects("profile", "profile published", s.profile, tmux);
    SettingEffects("provider", "provider published", s.provider, tmux);
    SettingEffects("resume", "resume published", Flag(s.resume), tmux);
    SettingEffects("skip-permissions", "skip_permissions published", Flag(s.skipPermissions), tmux);
    SettingEffects("claude-tools", "claude_tools published", s.tools, tmux);
    PolicyEffectsAre(enc, r.policy);
    OneCommand(s.cli, tmux, cause);
    EffectsConcat(p6, last);
    EffectsConcat(p5, p6 + last);
    EffectsConcat(p4, p5 + (p6 + last));
    EffectsConcat(p3, p4 + (p5 + (p6 + last)));
    EffectsConcat(launch, p3 + (p4 + (p5 + (p6 + last))));
    EffectsConcat(p2, launch + (p3 + (p4 + (p5 + (p6 + last)))));
    EffectsConcat(p1, p2 + (launch + (p3 + (p4 + (p5 + (p6 + last))))));
    EffectsConcat(look, p1 + (p2 + (launch + (p3 + (p4 + (p5 + (p6 + last)))))));
    EffectsConcat([LookUpPort], look + (p1 + (p2 + (launch + (p3 + (p4 + (p5 + (p6 + last))))))));
  }

  lemma OneCommand(cli: string, tmux: bool, cause: string)
    ensures Effects([LookUpPort]) == []
    ensures Effects(if tmux then [ReadOld("launch", cli)] else []) == []
    ensures Effects([Write("launch published", SetKey("launch", cli))]) == [SetKey("launch", cli)]
    ensures Effects([Write("lead and registry row published", PublishLead(cause))]) == [PublishLead(cause)]
  {
  }

  /** Everything the request asks for is in place. */
  ghost predicate Shows(w: Who, enc: Encoding, r: Request, db: Store)
    requires r.TmuxRequest?
  {
    var s := r.settings;
    && Text(db, w.Key("launch")) == Some(s.cli)
    && (s.profile.Some? ==> Text(db, w.Key("profile")) == s.profile)
    && (s.provider.Some? ==> Text(db, w.Key("provider")) == s.provider)
    && (s.resume.Some? ==> Text(db, w.Key("resume")) == Flag(s.resume))
    && (s.skipPermissions.Some? ==> Text(db, w.Key("skip-permissions")) == Flag(s.skipPermissions))
    && (s.tools.Some? ==> Text(db, w.Key("claude-tools")) == s.tools)
    && (r.policy.supplied ==> Fields(db, w.Key("tags")) == PolicyHash(enc, r.policy))
  }

  /** Exactly the sides the request names, whatever was there before. */
  function PolicyHash(enc: Encoding, p: Policy): map<string, string> {
    var e := if p.exports.None? then map[] else map["export" := enc.tags(p.exports.value)];
    if p.imports.None? then e else e["import" := enc.tags(p.imports.value)]
  }

  lemma NamesConcat(a: seq<Effect>, b: seq<Effect>, r: string)
    ensures Names(a + b, r) == (Names(a, r) || Names(b, r))
  {
    if Names(a, r) {
      var i :| 0 <= i < |a| && !Publishes(a[i]) && ResourceOf(a[i]) == r;
      assert (a + b)[i] == a[i];
    }
    if Names(b, r) {
      var i :| 0 <= i < |b| && !Publishes(b[i]) && ResourceOf(b[i]) == r;
      assert (a + b)[|a| + i] == b[i];
    }
  }

  lemma PutNames(resource: string, desired: Option<string>, r: string)
    ensures Names(Put(resource, desired), r) == (desired.Some? && resource == r)
    ensures desired.Some? && resource == r ==> LastText(Put(resource, desired), r) == desired
  {
    if desired.Some? { assert Put(resource, desired)[0] == SetKey(resource, desired.value); }
  }

  lemma PolicyNames(enc: Encoding, p: Policy, r: string)
    ensures Names(PolicyEffects(enc, p), r) == (p.supplied && r == "tags")
    ensures p.supplied && r == "tags" ==> LastFields(PolicyEffects(enc, p), r) == Some(PolicyHash(enc, p))
  {
    var e := PolicyEffects(enc, p);
    forall i | 0 <= i < |e| ensures !Publishes(e[i]) && ResourceOf(e[i]) == "tags" {}
    if p.supplied {
      assert e[0] == DelKey("tags");
      var reset := [DelKey("tags")];
      var exports := if p.exports.None? then reset else reset + [SetField("tags", "export", enc.tags(p.exports.value))];
      if p.exports.Some? { FieldSnoc(reset, "export", enc.tags(p.exports.value)); }
      if p.imports.Some? { FieldSnoc(exports, "import", enc.tags(p.imports.value)); }
      assert e == if p.imports.None? then exports else exports + [SetField("tags", "import", enc.tags(p.imports.value))];
    }
  }

  lemma FieldSnoc(a: seq<Effect>, f: string, text: string)
    requires LastFields(a, "tags").Some?
    ensures LastFields(a + [SetField("tags", f, text)], "tags") == Some(LastFields(a, "tags").value[f := text])
  {
    assert (a + [SetField("tags", f, text)])[..|a|] == a;
  }

  /** What each request field leaves at its key. */
  lemma LaunchLeaves(enc: Encoding, q: Request, r: string)
    requires q.TmuxRequest?
    ensures var e, s := LaunchEffects(enc, q), q.settings;
      && (r == "launch" ==> LastText(e, r) == Some(s.cli))
      && (r == "profile" && s.profile.Some? ==> LastText(e, r) == s.profile)
      && (r == "provider" && s.provider.Some? ==> LastText(e, r) == s.provider)
      && (r == "resume" && s.resume.Some? ==> LastText(e, r) == Flag(s.resume))
      && (r == "skip-permissions" && s.skipPermissions.Some? ==> LastText(e, r) == Flag(s.skipPermissions))
      && (r == "claude-tools" && s.tools.Some? ==> LastText(e, r) == s.tools)
      && (r == "tags" && q.policy.supplied ==> LastFields(e, r) == Some(PolicyHash(enc, q.policy)))
      && (Names(e, r) <==>
            || r == "launch" || (r == "profile" && s.profile.Some?) || (r == "provider" && s.provider.Some?)
            || (r == "resume" && s.resume.Some?) || (r == "skip-permissions" && s.skipPermissions.Some?)
            || (r == "claude-tools" && s.tools.Some?) || (r == "tags" && q.policy.supplied))
  {
    hide LastText, LastFields, Names, Put, PolicyEffects, PolicyHash, Flag;
    var s := q.settings;
    assert Put("launch", Some(s.cli)) == [SetKey("launch", s.cli)] by { LaunchPut(s.cli); }
    var t7 := PolicyEffects(enc, q.policy);
    var t6 := Put("claude-tools", s.tools) + t7;
    var t5 := Put("skip-permissions", Flag(s.skipPermissions)) + t6;
    var t4 := Put("resume", Flag(s.resume)) + t5;
    var t3 := [SetKey("launch", s.cli)] + t4;
    var t2 := Put("provider", s.provider) + t3;
    PolicyNames(enc, q.policy, r);
    LeavesStep("claude-tools", s.tools, t7, r);
    LeavesStep("skip-permissions", Flag(s.skipPermissions), t6, r);
    LeavesStep("resume", Flag(s.resume), t5, r);
    LeavesStep("launch", Some(s.cli), t4, r);
    LeavesStep("provider", s.provider, t3, r);
    LeavesStep("profile", s.profile, t2, r);
    FlagSome(s.resume);
    FlagSome(s.skipPermissions);
  }

  lemma LaunchPut(cli: string)
    ensures Put("launch", Some(cli)) == [SetKey("launch", cli)]
  {
  }

  lemma FlagSome(b: Option<bool>)
    ensures Flag(b).Some? == b.Some?
  {
  }

  lemma LeavesStep(resource: string, desired: Option<string>, rest: seq<Effect>, r: string)
    ensures Names(Put(resource, desired) + rest, r) == ((desired.Some? && resource == r) || Names(rest, r))
    ensures Names(rest, r) ==> LastText(Put(resource, desired) + rest, r) == LastText(rest, r)
    ensures !Names(rest, r) && resource == r && desired.Some? ==> LastText(Put(resource, desired) + rest, r) == desired
    ensures LastFields(rest, r).Some? ==> LastFields(Put(resource, desired) + rest, r) == LastFields(rest, r)
  {
    hide LastText, LastFields, Names, Put;
    NamesConcat(Put(resource, desired), rest, r);
    LastConcat(Put(resource, desired), rest, r);
    PutNames(resource, desired, r);
  }

  lemma DesiresConcat(a: seq<Effect>, b: seq<Effect>)
    requires Desires(a) && Desires(b)
    ensures Desires(a + b)
  {
    hide DESIRED;
  }

  lemma PutDesires(resource: string, desired: Option<string>)
    requires resource in DESIRED
    ensures Desires(Put(resource, desired))
  {
    hide DESIRED;
  }

  lemma PolicyDesires(enc: Encoding, p: Policy)
    ensures Desires(PolicyEffects(enc, p))
  {
    assert "tags" in DESIRED;
    hide DESIRED;
  }

  lemma LaunchDesires(enc: Encoding, q: Request)
    requires q.TmuxRequest?
    ensures Desires(LaunchEffects(enc, q))
  {
    hide Desires, Put, PolicyEffects, Flag;
    var s := q.settings;
    LaunchPut(s.cli);
    PutDesires("profile", s.profile);
    PutDesires("provider", s.provider);
    PutDesires("launch", Some(s.cli));
    PutDesires("resume", Flag(s.resume));
    PutDesires("skip-permissions", Flag(s.skipPermissions));
    PutDesires("claude-tools", s.tools);
    PolicyDesires(enc, q.policy);
    var t7 := PolicyEffects(enc, q.policy);
    var t6 := Put("claude-tools", s.tools) + t7;
    var t5 := Put("skip-permissions", Flag(s.skipPermissions)) + t6;
    var t4 := Put("resume", Flag(s.resume)) + t5;
    var t3 := [SetKey("launch", s.cli)] + t4;
    DesiresConcat(Put("claude-tools", s.tools), t7);
    DesiresConcat(Put("skip-permissions", Flag(s.skipPermissions)), t6);
    DesiresConcat(Put("resume", Flag(s.resume)), t5);
    DesiresConcat([SetKey("launch", s.cli)], t4);
    DesiresConcat(Put("provider", s.provider), t3);
    DesiresConcat(Put("profile", s.profile), Put("provider", s.provider) + t3);
  }

  lemma TmuxEffectsAreKnown(enc: Encoding, q: Request, cause: string)
    requires q.TmuxRequest?
    ensures var e := LaunchEffects(enc, q) + [PublishLead(cause)];
      && (forall i :: 0 <= i < |e| ==> Publishes(e[i]) || ResourceOf(e[i]) in DESIRED)
      && (forall n :: 0 <= n < |e| ==> Desires(e[..n]))
  {
    hide LaunchEffects, DESIRED;
    LaunchDesires(enc, q);
    var a := LaunchEffects(enc, q);
    var e := a + [PublishLead(cause)];
    forall n | 0 <= n < |e| ensures Desires(e[..n]) {
      forall i | 0 <= i < n ensures e[..n][i] == a[i] {}
    }
  }

  lemma LeavesAll(w: Who, enc: Encoding, q: Request, cause: string, states: seq<Store>, r: string)
    requires w.Valid() && q.TmuxRequest? && r in DESIRED
    requires Trace(w, LaunchEffects(enc, q) + [PublishLead(cause)], states)
    requires |states| == |LaunchEffects(enc, q)| + 2
    ensures var e, db := LaunchEffects(enc, q), states[|states| - 1];
      && (LastText(e, r).Some? ==> Text(db, w.Key(r)) == LastText(e, r))
      && (LastFields(e, r).Some? ==> Fields(db, w.Key(r)) == LastFields(e, r).value)
  {
    hide LastText, LastFields, Trace, LaunchEffects, DESIRED;
    TmuxEffectsAreKnown(enc, q, cause);
    LastConcat(LaunchEffects(enc, q), [PublishLead(cause)], r);
    Persists(w, LaunchEffects(enc, q) + [PublishLead(cause)], states, r);
  }

  /** An observer of a first hire who sees the registry row sees every piece of requested launch state. */
  lemma VisibleMeansComplete(w: Who, enc: Encoding, q: Request, tmux: bool, cause: string, states: seq<Store>, i: nat)
    requires w.Valid() && q.TmuxRequest?
    requires Trace(w, Effects(TmuxPlan(enc, q, tmux, cause)), states) && i < |states|
    requires w.agent !in Fields(states[0], w.Registry())
    requires w.agent in Fields(states[i], w.Registry())
    ensures Shows(w, enc, q, states[i])
  {
    hide LastText, LastFields, LaunchEffects, TmuxPlan, Effects, Did, Text, Fields, Who.Key, Who.Registry, PolicyHash, Flag;
    PublishIsLast(enc, q, tmux, cause);
    TmuxEffectsAreKnown(enc, q, cause);
    var e := LaunchEffects(enc, q) + [PublishLead(cause)];
    if i < |e| { RegistryQuiet(w, e, states, i); }
    assert |states| == |e| + 1;
    forall r | r in DESIRED
      ensures LastText(LaunchEffects(enc, q), r).Some? ==> Text(states[i], w.Key(r)) == LastText(LaunchEffects(enc, q), r)
      ensures LastFields(LaunchEffects(enc, q), r).Some? ==>
        Fields(states[i], w.Key(r)) == LastFields(LaunchEffects(enc, q), r).value
    {
      LeavesAll(w, enc, q, cause, states, r);
    }
    FlagSome(q.settings.resume);
    FlagSome(q.settings.skipPermissions);
    LaunchLeaves(enc, q, "launch");
    LaunchLeaves(enc, q, "profile");
    LaunchLeaves(enc, q, "provider");
    LaunchLeaves(enc, q, "resume");
    LaunchLeaves(enc, q, "skip-permissions");
    LaunchLeaves(enc, q, "claude-tools");
    LaunchLeaves(enc, q, "tags");
  }

  // ---- when a bare failure can follow an acknowledged write ----

  predicate HasWrite(plan: seq<Command>) { exists i :: 0 <= i < |plan| && plan[i].Write? }

  predicate HasRead(plan: seq<Command>) { exists i :: 0 <= i < |plan| && !plan[i].Write? }

  /** Some read comes after some write. */
  predicate ReadAfterWrite(plan: seq<Command>) {
    exists i, j :: 0 <= i < j < |plan| && plan[i].Write? && !plan[j].Write?
  }

  lemma RawConcat(a: seq<Command>, b: seq<Command>)
    ensures HasWrite(a + b) == (HasWrite(a) || HasWrite(b))
    ensures HasRead(a + b) == (HasRead(a) || HasRead(b))
    ensures ReadAfterWrite(a + b) == (ReadAfterWrite(a) || ReadAfterWrite(b) || (HasWrite(a) && HasRead(b)))
  {
    var c := a + b;
    assert forall i :: 0 <= i < |a| ==> c[i] == a[i];
    assert forall i :: 0 <= i < |b| ==> c[|a| + i] == b[i];
    if HasWrite(a) && HasRead(b) {
      var i :| 0 <= i < |a| && a[i].Write?;
      var j :| 0 <= j < |b| && !b[j].Write?;
      assert c[i].Write? && !c[|a| + j].Write?;
    }
    if ReadAfterWrite(b) {
      var i, j :| 0 <= i < j < |b| && b[i].Write? && !b[j].Write?;
      assert c[|a| + i].Write? && !c[|a| + j].Write?;
    }
    if ReadAfterWrite(c) {
      var i, j :| 0 <= i < j < |c| && c[i].Write? && !c[j].Write?;
      assert i < |a| ==> a[i].Write?;
      assert j >= |a| ==> !b[j - |a|].Write?;
      assert i >= |a| ==> b[i - |a|].Write?;
      assert j < |a| ==> !a[j].Write?;
    }
    assert forall i :: |a| <= i < |c| ==> c[i] == b[i - |a|];
  }

  lemma RawSetting(resource: string, what: string, desired: Option<string>, compare: bool)
    ensures var s := Setting(resource, what, desired, compare);
      HasWrite(s) == desired.Some? && HasRead(s) == (desired.Some? && compare) && !ReadAfterWrite(s)
  {
    var s := Setting(resource, what, desired, compare);
    if desired.Some? {
      assert s[|s| - 1].Write?;
      if compare { assert !s[0].Write?; }
    }
  }

  lemma RawWrites(s: seq<Command>)
    requires forall i :: 0 <= i < |s| ==> s[i].Write?
    ensures !HasRead(s) && !ReadAfterWrite(s)
  {
  }

  lemma RawReads(s: seq<Command>)
    requires forall i :: 0 <= i < |s| ==> !s[i].Write?
    ensures !HasWrite(s) && !ReadAfterWrite(s)
  {
  }

  lemma RawAfterLaunch(enc: Encoding, q: Request, tmux: bool, cause: string)
    requires q.TmuxRequest?
    ensures var s, rest := q.settings, AfterLaunch(enc, q, tmux, cause);
      HasRead(rest) == (tmux && (s.resume.Some? || s.skipPermissions.Some? || s.tools.Some?))
  {
    hide HasWrite, HasRead, ReadAfterWrite, Setting, Flag;
    var s := q.settings;
    var p3 := Setting("resume", "resume published", Flag(s.resume), tmux);
    var p4 := Setting("skip-permissions", "skip_permissions published", Flag(s.skipPermissions), tmux);
    var p5 := Setting("claude-tools", "claude_tools published", s.tools, tmux);
    var tail := PolicyCommands(enc, q.policy) + [Write("lead and registry row published", PublishLead(cause))];
    RawWrites(tail);
    RawSetting("resume", "resume published", Flag(s.resume), tmux);
    RawSetting("skip-permissions", "skip_permissions published", Flag(s.skipPermissions), tmux);
    RawSetting("claude-tools", "claude_tools published", s.tools, tmux);
    FlagSome(s.resume);
    FlagSome(s.skipPermissions);
    RawConcat(p5, tail);
    RawConcat(p4, p5 + tail);
    RawConcat(p3, p4 + (p5 + tail));
  }

  lemma NoReadNoRaw(enc: Encoding, q: Request, tmux: bool, cause: string)
    requires q.TmuxRequest? && !HasRead(AfterLaunch(enc, q, tmux, cause))
    ensures !ReadAfterWrite(AfterLaunch(enc, q, tmux, cause))
  {
  }

  /**
     A failed read is recorded as a plain failure, which says nothing was acknowledged. It can strike
     after an acknowledged write exactly for a start of an agent that is already a tmux member and
     that sets the resume flag, the permission flag or the tools, or both profile and provider.
   */
  lemma FailureCanFollowWrite(enc: Encoding, q: Request, tmux: bool, cause: string)
    requires q.TmuxRequest?
    ensures var s := q.settings;
      ReadAfterWrite(TmuxPlan(enc, q, tmux, cause))
        == (tmux && (s.resume.Some? || s.skipPermissions.Some? || s.tools.Some? || (s.profile.Some? && s.provider.Some?)))
  {
    hide HasWrite, HasRead, ReadAfterWrite, Setting, AfterLaunch;
    var s := q.settings;
    var look := if tmux then [ReadOld("launch", s.cli)] else [];
    var p1 := Setting("profile", "profile published", s.profile, tmux);
    var p2 := Setting("provider", "provider published", s.provider, tmux);
    var launch := [Write("launch published", SetKey("launch", s.cli))];
    var rest := AfterLaunch(enc, q, tmux, cause);
    RawAfterLaunch(enc, q, tmux, cause);
    if !HasRead(rest) { NoReadNoRaw(enc, q, tmux, cause); }
    RawReads([LookUpPort]);
    RawReads(look);
    RawWrites(launch);
    assert HasWrite(launch) by { OneWrite(launch); }
    RawSetting("profile", "profile published", s.profile, tmux);
    RawSetting("provider", "provider published", s.provider, tmux);
    RawConcat(launch, rest);
    RawConcat(p2, launch + rest);
    RawConcat(p1, p2 + (launch + rest));
    RawConcat(look, p1 + (p2 + (launch + rest)));
    RawConcat([LookUpPort], look + (p1 + (p2 + (launch + rest))));
  }

  lemma OneWrite(plan: seq<Command>)
    requires |plan| == 1 && plan[0].Write?
    ensures HasWrite(plan)
  {
    assert plan[0].Write?;
  }

  /** An api start reads nothing, so its every failure is either before all writes or recorded incomplete. */
  lemma ApiNeverReads(enc: Encoding, q: Request)
    requires q.ApiRequest?
    ensures !HasRead(ApiPlan(enc, q))
  {
  }

  /** Restarting a tmux member with only `resume` set: after the launch write is acknowledged, the next command is a read. */
  lemma BareFailureExample(enc: Encoding)
    ensures var q := TmuxRequest("worker", Policy(false, None, None), Settings("claude", None, None, Some(true), None, None));
      var plan := TmuxPlan(enc, q, true, "");
      |plan| == 6 && Labels(plan[..3]) == ["launch published"] && plan[3] == ReadOld("resume", "1")
  {
    var q := TmuxRequest("worker", Policy(false, None, None), Settings("claude", None, None, Some(true), None, None));
    var plan := TmuxPlan(enc, q, true, "");
    var write := Write("launch published", SetKey("launch", "claude"));
    assert plan[..3] == [LookUpPort, ReadOld("launch", "claude"), write];
    LabelsConcat([LookUpPort, ReadOld("launch", "claude")], [write]);
    assert plan[..3] == [LookUpPort, ReadOld("launch", "claude")] + [write];
    LabelsConcat([LookUpPort], [ReadOld("launch", "claude")]);
    assert [LookUpPort, ReadOld("launch", "claude")] == [LookUpPort] + [ReadOld("launch", "claude")];
  }
}
