/** What a start whose every command was answered leaves in the database, in terms of the payload it was sent. */
module StartLeaves {
  import opened Prelude
  import opened Keys
  import opened RedisStore
  import opened Scripts
  import opened Retirement
  import opened Lifecycle
  import opened StartAgent
  import opened Rehire
  import opened StartPayload

  // ---- the database a payload asks for ----

  /** The agent's settings that are plain texts. */
  const TEXTS: set<string> := {"launch", "profile", "provider", "resume", "skip-permissions", "claude-tools"}

  function PortOf(p: map<string, JVal>): string { if "port_type" in p && p["port_type"] == JStr("api") then "api" else "tmux" }

  function SaidName(v: JVal): Option<string> { if v.JStr? && v.text != "" then Some(v.text) else None }

  function SaidFlag(v: JVal): Option<string> {
    match v
    case JBool(b) => Some(if b then "1" else "0")
    case _ => None
  }

  /** The payload's own word on a setting; None where it says nothing. */
  function Said(p: map<string, JVal>, r: string): Option<string> {
    if r == "launch" then (if "cli" in p then SaidName(p["cli"]) else Some("claude"))
    else if r == "profile" then SaidName(Lookup(p, "profile"))
    else if r == "provider" then SaidName(Lookup(p, "provider"))
    else if r == "resume" then SaidFlag(Lookup(p, "resume"))
    else if r == "skip-permissions" then SaidFlag(Lookup(p, "skip_permissions"))
    else if "claude_tools" in p && p["claude_tools"].JStr? then Some(p["claude_tools"].text) else None
  }

  function TagTexts(v: JVal): set<string>
    requires v.JList?
  {
    set x | x in v.items && x.JStr? :: x.text
  }

  /**
   One side of the stored policy is the encoding of the tags the payload lists under that name, and is there
   only if it does.
   */
  ghost predicate SideFollows(enc: Encoding, p: map<string, JVal>, side: string, hash: map<string, string>) {
    var v := Lookup(p, side);
    (side in hash <==> v.JList?) && (v.JList? ==> side in hash && hash[side] == enc.tags(TagTexts(v)))
  }

  ghost predicate TagsFollow(enc: Encoding, p: map<string, JVal>, before: map<string, string>, after: map<string, string>) {
    if "export" in p || "import" in p then
      after.Keys <= {"export", "import"} && SideFollows(enc, p, "export", after) && SideFollows(enc, p, "import", after)
    else after == before
  }

  /** The revoked key goes first, then the supplied one is set. */
  ghost predicate KeysFollow(enc: Encoding, p: map<string, JVal>, before: map<string, string>, after: map<string, string>) {
    var kid, secret, revoke := Lookup(p, "kid"), Lookup(p, "hmac_secret"), Lookup(p, "revoke_kid");
    forall k ::
      if kid == JStr(k) && secret.JStr? then k in after && after[k] == enc.key(secret.text)
      else if revoke == JStr(k) then k !in after
      else (k in after <==> k in before) && (k in after ==> after[k] == before[k])
  }

  /** The texts follow the payload of a tmux start, where it says something; an api start leaves them alone. */
  ghost predicate TextsFollow(w: Who, p: map<string, JVal>, before: Store, after: Store) {
    forall r :: r in TEXTS ==>
      Text(after, w.Key(r))
        == if PortOf(p) == "tmux" && Said(p, r).Some? then Said(p, r) else Text(before, w.Key(r))
  }

  /** The database after a start, field by field of its payload. */
  ghost predicate Follows(w: Who, enc: Encoding, p: map<string, JVal>, before: Store, after: Store) {
    && Lookup(p, "agent") == JStr(w.agent) && w.portType == PortOf(p)
    && Fields(after, w.Registry()) == Fields(before, w.Registry())[w.agent := w.portType]
    && TagsFollow(enc, p, Fields(before, w.Key("tags")), Fields(after, w.Key("tags")))
    && KeysFollow(enc, p, Fields(before, w.Key("hmac-keys")), Fields(after, w.Key("hmac-keys")))
    && TextsFollow(w, p, before, after)
  }

  // ---- the same in terms of the request ----

  function Asked(q: Request, r: string): Option<string> {
    if q.ApiRequest? then None
    else
      var s := q.settings;
      if r == "launch" then Some(s.cli) else if r == "profile" then s.profile else if r == "provider" then s.provider
      else if r == "resume" then Flag(s.resume) else if r == "skip-permissions" then Flag(s.skipPermissions) else s.tools
  }

  ghost predicate TextsAsked(w: Who, q: Request, before: Store, after: Store) {
    forall r :: r in TEXTS ==> Text(after, w.Key(r)) == if Asked(q, r).Some? then Asked(q, r) else Text(before, w.Key(r))
  }

  function TagsAsked(enc: Encoding, q: Request, before: map<string, string>): map<string, string> {
    if q.policy.supplied then PolicyHash(enc, q.policy) else before
  }

  function KeysAsked(enc: Encoding, q: Request, before: map<string, string>): map<string, string> {
    if q.TmuxRequest? then before
    else
      var kept := if q.revoke.None? then before else before - {q.revoke.value};
      if q.key.None? then kept else kept[q.key.value.0 := enc.key(q.key.value.1)]
  }

  ghost predicate Leaves(w: Who, enc: Encoding, q: Request, before: Store, after: Store) {
    && Fields(after, w.Registry()) == Fields(before, w.Registry())[w.agent := w.portType]
    && Fields(after, w.Key("tags")) == TagsAsked(enc, q, Fields(before, w.Key("tags")))
    && Fields(after, w.Key("hmac-keys")) == KeysAsked(enc, q, Fields(before, w.Key("hmac-keys")))
    && TextsAsked(w, q, before, after)
  }

  // ---- what the effects of a plan leave ----

  lemma {:induction false} Stays(w: Who, effects: seq<Effect>, states: seq<Store>, r: string, i: nat, n: nat)
    requires w.Valid() && r in DESIRED && Trace(w, effects, states) && i <= n < |states|
    requires forall j :: i <= j < n ==>
      Publishes(effects[j]) || (ResourceOf(effects[j]) in DESIRED && ResourceOf(effects[j]) != r)
    ensures Text(states[n], w.Key(r)) == Text(states[i], w.Key(r)) && Fields(states[n], w.Key(r)) == Fields(states[i], w.Key(r))
    decreases n
  {
    hide Did, Text, Fields, Who.Key, Who.Valid, DESIRED;
    if i < n {
      Stays(w, effects, states, r, i, n - 1);
      DidAt(w, effects[n - 1], states[n - 1], states[n], r);
    }
  }

  /** A whole plan adds one row to the registry. */
  lemma RowAtLast(w: Who, effects: seq<Effect>, states: seq<Store>)
    requires w.Valid() && PublishesLast(effects) && Trace(w, effects, states) && |states| == |effects| + 1
    ensures Fields(states[|effects|], w.Registry()) == Fields(states[0], w.Registry())[w.agent := w.portType]
  {
    hide Fields, Desires, Who.Valid, AgentKey, TenantKey, SameExcept, Text;
    var n := |effects| - 1;
    RegistryQuiet(w, effects, states, n);
    var e := effects[n];
    assert Did(w, e, states[n], states[n + 1]);
  }

  predicate Known(effects: seq<Effect>) {
    forall i :: 0 <= i < |effects| ==> Publishes(effects[i]) || ResourceOf(effects[i]) in DESIRED
  }

  lemma LastIsKnown(effects: seq<Effect>)
    requires PublishesLast(effects)
    ensures Known(effects)
  {
    hide DESIRED;
    var n := |effects| - 1;
    forall i | 0 <= i < n ensures Publishes(effects[i]) || ResourceOf(effects[i]) in DESIRED {
      assert effects[..n][i] == effects[i];
    }
  }

  lemma UnnamedStays(w: Who, effects: seq<Effect>, states: seq<Store>, r: string)
    requires w.Valid() && r in DESIRED && Trace(w, effects, states) && |states| == |effects| + 1
    requires Known(effects) && !Names(effects, r)
    ensures Text(states[|effects|], w.Key(r)) == Text(states[0], w.Key(r))
    ensures Fields(states[|effects|], w.Key(r)) == Fields(states[0], w.Key(r))
  {
    hide Trace, Text, Fields, Who.Key, Who.Valid, DESIRED;
    Stays(w, effects, states, r, 0, |effects|);
  }

  lemma PublishNamesNothing(e: Effect, r: string)
    requires Publishes(e)
    ensures !Names([e], r) && LastText([e], r) == None && LastFields([e], r) == None
  {
  }

  ghost predicate TmuxTrace(w: Who, enc: Encoding, q: Request, cause: string, states: seq<Store>)
    requires q.TmuxRequest?
  {
    && Trace(w, LaunchEffects(enc, q) + [PublishLead(cause)], states)
    && |states| == |LaunchEffects(enc, q)| + 2
  }

  lemma TmuxAt(w: Who, enc: Encoding, q: Request, cause: string, states: seq<Store>, r: string)
    requires w.Valid() && q.TmuxRequest? && r in DESIRED && TmuxTrace(w, enc, q, cause, states)
    ensures var e, db, k := LaunchEffects(enc, q), states[|states| - 1], w.Key(r);
      && (LastText(e, r).Some? ==> Text(db, k) == LastText(e, r))
      && (LastFields(e, r).Some? ==> Fields(db, k) == LastFields(e, r).value)
      && (!Names(e, r) ==> Text(db, k) == Text(states[0], k) && Fields(db, k) == Fields(states[0], k))
  {
    hide Trace, Text, Fields, LastText, LastFields, Names, LaunchEffects, Who.Key, Who.Valid, DESIRED;
    var e := LaunchEffects(enc, q) + [PublishLead(cause)];
    TmuxEffectsAreKnown(enc, q, cause);
    LeavesAll(w, enc, q, cause, states, r);
    NamesConcat(LaunchEffects(enc, q), [PublishLead(cause)], r);
    PublishNamesNothing(PublishLead(cause), r);
    if !Names(LaunchEffects(enc, q), r) { UnnamedStays(w, e, states, r); }
  }

  lemma TmuxText(w: Who, enc: Encoding, q: Request, cause: string, states: seq<Store>, r: string)
    requires w.Valid() && q.TmuxRequest? && r in TEXTS && TmuxTrace(w, enc, q, cause, states)
    ensures Text(states[|states| - 1], w.Key(r)) == if Asked(q, r).Some? then Asked(q, r) else Text(states[0], w.Key(r))
  {
    TextsAreDesired(r);
    FlagSome(q.settings.resume);
    FlagSome(q.settings.skipPermissions);
    hide TmuxTrace, Text, Fields, LastText, LastFields, Names, LaunchEffects, PolicyHash, Flag, Who.Key, Who.Valid, DESIRED;
    LaunchLeaves(enc, q, r);
    TmuxAt(w, enc, q, cause, states, r);
  }

  lemma TextsAreDesired(r: string)
    requires r in TEXTS
    ensures r in DESIRED
  {
  }

  lemma TmuxHashes(w: Who, enc: Encoding, q: Request, cause: string, states: seq<Store>)
    requires w.Valid() && q.TmuxRequest? && TmuxTrace(w, enc, q, cause, states)
    ensures var db := states[|states| - 1];
      && Fields(db, w.Key("tags")) == TagsAsked(enc, q, Fields(states[0], w.Key("tags")))
      && Fields(db, w.Key("hmac-keys")) == Fields(states[0], w.Key("hmac-keys"))
  {
    hide TmuxTrace, Text, Fields, LastText, LastFields, Names, LaunchEffects, PolicyHash, Flag, Who.Key, Who.Valid;
    LaunchLeaves(enc, q, "tags");
    TmuxAt(w, enc, q, cause, states, "tags");
    LaunchLeaves(enc, q, "hmac-keys");
    TmuxAt(w, enc, q, cause, states, "hmac-keys");
  }

  lemma TmuxLeaves(w: Who, enc: Encoding, q: Request, tmux: bool, cause: string, states: seq<Store>)
    requires w.Valid() && q.TmuxRequest? && Trace(w, Effects(TmuxPlan(enc, q, tmux, cause)), states)
    requires |states| == |Effects(TmuxPlan(enc, q, tmux, cause))| + 1
    requires PublishesLast(Effects(TmuxPlan(enc, q, tmux, cause)))
    ensures Leaves(w, enc, q, states[0], states[|states| - 1])
  {
    hide Trace, Text, Fields, LaunchEffects, TmuxPlan, Effects, PublishesLast, Who.Key, Who.Registry, Who.Valid, TEXTS, Asked,
      TagsAsked;
    RowAtLast(w, Effects(TmuxPlan(enc, q, tmux, cause)), states);
    PublishIsLast(enc, q, tmux, cause);
    TmuxHashes(w, enc, q, cause, states);
    forall r | r in TEXTS
      ensures Text(states[|states| - 1], w.Key(r)) == if Asked(q, r).Some? then Asked(q, r) else Text(states[0], w.Key(r))
    {
      TmuxText(w, enc, q, cause, states, r);
    }
  }

  // ---- an api start ----

  function RevokeEffects(q: Request): seq<Effect>
    requires q.ApiRequest?
  {
    if q.revoke.None? then [] else [DelField("hmac-keys", q.revoke.value)]
  }

  function KeyEffects(enc: Encoding, q: Request): seq<Effect>
    requires q.ApiRequest?
  {
    if q.key.None? then [] else [SetField("hmac-keys", q.key.value.0, enc.key(q.key.value.1))]
  }

  lemma ApiKeys(w: Who, enc: Encoding, q: Request, states: seq<Store>)
    requires w.Valid() && q.ApiRequest?
    requires Trace(w, RevokeEffects(q) + (KeyEffects(enc, q) + (PolicyEffects(enc, q.policy) + [PublishMember])), states)
    requires |states| == |RevokeEffects(q)| + |KeyEffects(enc, q)| + |PolicyEffects(enc, q.policy)| + 2
    ensures Fields(states[|states| - 1], w.Key("hmac-keys")) == KeysAsked(enc, q, Fields(states[0], w.Key("hmac-keys")))
  {
    hide Did, Text, Fields, Who.Key, Who.Valid, PolicyEffects;
    var revoke, key, policy := RevokeEffects(q), KeyEffects(enc, q), PolicyEffects(enc, q.policy);
    var e := revoke + (key + (policy + [PublishMember]));
    PolicyIsTags(enc, q.policy);
    var i := |revoke|;
    if q.revoke.Some? { DidAt(w, e[0], states[0], states[1], "hmac-keys"); }
    var n := i + |key|;
    if q.key.Some? { DidAt(w, e[i], states[i], states[n], "hmac-keys"); }
    forall j | n <= j < |e| ensures Publishes(e[j]) || (ResourceOf(e[j]) in DESIRED && ResourceOf(e[j]) != "hmac-keys") {
      assert j - n < |policy| ==> e[j] == policy[j - n];
    }
    Stays(w, e, states, "hmac-keys", n, |e|);
  }

  lemma PolicyIsTags(enc: Encoding, p: Policy)
    ensures forall i :: 0 <= i < |PolicyEffects(enc, p)| ==>
      var e := PolicyEffects(enc, p)[i]; !Publishes(e) && ResourceOf(e) == "tags" && ResourceOf(e) in DESIRED
  {
    assert "tags" in DESIRED;
    hide DESIRED;
  }

  lemma ApiOthers(w: Who, enc: Encoding, q: Request, states: seq<Store>, r: string)
    requires w.Valid() && q.ApiRequest? && r in DESIRED && r != "hmac-keys"
    requires Trace(w, RevokeEffects(q) + (KeyEffects(enc, q) + (PolicyEffects(enc, q.policy) + [PublishMember])), states)
    requires |states| == |RevokeEffects(q)| + |KeyEffects(enc, q)| + |PolicyEffects(enc, q.policy)| + 2
    requires PublishesLast(RevokeEffects(q) + (KeyEffects(enc, q) + (PolicyEffects(enc, q.policy) + [PublishMember])))
    ensures r != "tags" ==> Text(states[|states| - 1], w.Key(r)) == Text(states[0], w.Key(r))
    ensures r == "tags" ==> Fields(states[|states| - 1], w.Key(r)) == TagsAsked(enc, q, Fields(states[0], w.Key(r)))
  {
    hide Trace, Text, Fields, LastText, LastFields, PublishesLast, PolicyEffects, PolicyHash, Who.Key, Who.Valid, DESIRED;
    var revoke, key, policy := RevokeEffects(q), KeyEffects(enc, q), PolicyEffects(enc, q.policy);
    var e := revoke + (key + (policy + [PublishMember]));
    LastIsKnown(e);
    PolicyNames(enc, q.policy, r);
    PublishNamesNothing(PublishMember, r);
    assert !Names(revoke, r) && !Names(key, r);
    hide Names;
    NamesConcat(policy, [PublishMember], r);
    NamesConcat(key, policy + [PublishMember], r);
    NamesConcat(revoke, key + (policy + [PublishMember]), r);
    if Names(policy, r) {
      LastConcat(policy, [PublishMember], r);
      LastConcat(key, policy + [PublishMember], r);
      LastConcat(revoke, key + (policy + [PublishMember]), r);
      Persists(w, e, states, r);
    } else {
      UnnamedStays(w, e, states, r);
    }
  }

  lemma ApiLeaves(w: Who, enc: Encoding, q: Request, states: seq<Store>)
    requires w.Valid() && q.ApiRequest? && Trace(w, Effects(ApiPlan(enc, q)), states)
    requires |states| == |Effects(ApiPlan(enc, q))| + 1
    requires PublishesLast(Effects(ApiPlan(enc, q)))
    ensures Leaves(w, enc, q, states[0], states[|states| - 1])
  {
    hide Trace, Text, Fields, ApiPlan, Effects, PublishesLast, PolicyEffects, Who.Key, Who.Registry, Who.Valid, TagsAsked, KeysAsked,
      TEXTS, DESIRED;
    RowAtLast(w, Effects(ApiPlan(enc, q)), states);
    ApiEffects(enc, q);
    ApiKeys(w, enc, q, states);
    TagsIsDesired();
    ApiOthers(w, enc, q, states, "tags");
    forall r | r in TEXTS ensures Text(states[|states| - 1], w.Key(r)) == Text(states[0], w.Key(r)) {
      TextIsNoHash(r);
      ApiOthers(w, enc, q, states, r);
    }
  }

  lemma TagsIsDesired()
    ensures "tags" in DESIRED && "tags" != "hmac-keys"
  {
  }

  lemma TextIsNoHash(r: string)
    requires r in TEXTS
    ensures r in DESIRED && r != "hmac-keys" && r != "tags"
  {
  }

  // ---- from the request back to the payload ----

  lemma TagsBack(enc: Encoding, p: map<string, JVal>, q: Request, before: map<string, string>)
    requires SaysPolicy(p, q.policy)
    ensures TagsFollow(enc, p, before, TagsAsked(enc, q, before))
  {
    var hash := PolicyHash(enc, q.policy);
    SideBack(p, "export", q.policy.exports);
    SideBack(p, "import", q.policy.imports);
  }

  lemma SideBack(p: map<string, JVal>, side: string, tags: Option<set<string>>)
    requires SaysTags(p, side, tags)
    ensures Lookup(p, side).JList? <==> tags.Some?
    ensures tags.Some? ==> TagTexts(Lookup(p, side)) == tags.value
  {
    if tags.Some? {
      var v := Lookup(p, side);
      forall t ensures t in TagTexts(v) <==> t in tags.value {
        if JStr(t) in v.items { assert JStr(t).text == t; }
      }
    }
  }

  lemma KeysBack(enc: Encoding, p: map<string, JVal>, q: Request, before: map<string, string>)
    requires Spells(p, q)
    ensures KeysFollow(enc, p, before, KeysAsked(enc, q, before))
  {
    hide START_KEYS, SaysPolicy, SaysOr, SaysSettings;
  }

  lemma PortBack(p: map<string, JVal>, q: Request)
    requires Spells(p, q)
    ensures PortOf(p) == if q.ApiRequest? then "api" else "tmux"
  {
    hide START_KEYS, SaysPolicy, SaysSettings, SaysKey;
    assert "api"[0] != "tmux"[0];
  }

  lemma TextBack(p: map<string, JVal>, s: Settings, accounts: Accounts, q: Request, r: string)
    requires q.TmuxRequest? && q.settings == s && SaysSettings(p, s) && GoodSettings(s, accounts) && r in TEXTS
    ensures Said(p, r) == Asked(q, r)
  {
    hide IsSegment;
  }

  lemma FollowsBack(w: Who, enc: Encoding, p: map<string, JVal>, q: Request, accounts: Accounts, before: Store, after: Store)
    requires Spells(p, q) && Good(q, accounts) && Leaves(w, enc, q, before, after)
    requires w.agent == q.agent && w.portType == if q.ApiRequest? then "api" else "tmux"
    ensures Follows(w, enc, p, before, after)
  {
    PortBack(p, q);
    TagsBack(enc, p, q, Fields(before, w.Key("tags")));
    KeysBack(enc, p, q, Fields(before, w.Key("hmac-keys")));
    hide START_KEYS, SaysPolicy, SaysOr, SaysKey, SaysSettings, Lookup, TagsAsked, KeysAsked, TagsFollow, KeysFollow, Said, Asked,
      PortOf, Text, Fields, Who.Key, Who.Registry, GoodSettings, TEXTS;
    forall r | r in TEXTS
      ensures Text(after, w.Key(r)) == if PortOf(p) == "tmux" && Said(p, r).Some? then Said(p, r) else Text(before, w.Key(r))
    {
      if q.TmuxRequest? { TextBack(p, q.settings, accounts, q, r); } else { AsksNoText(q, r); }
    }
  }

  lemma AsksNoText(q: Request, r: string)
    requires q.ApiRequest?
    ensures Asked(q, r) == None
    ensures "api" != "tmux"
  {
    assert "api"[0] != "tmux"[0];
  }

  /** A start that is done with its whole plan leaves what its payload says. */
  lemma DoneFollows(w: Who, enc: Encoding, envelope: JVal, accounts: Accounts, q: Request, existing: Option<string>,
      states: seq<Store>)
    requires w.Valid() && Validate(envelope, accounts) == Ok(q)
    requires w.agent == q.agent && w.portType == if q.ApiRequest? then "api" else "tmux"
    requires Trace(w, Effects(Plan(enc, q, existing, envelope)), states)
    requires |states| == |Effects(Plan(enc, q, existing, envelope))| + 1
    ensures PayloadOf(envelope).Some? && Follows(w, enc, PayloadOf(envelope).value, states[0], states[|states| - 1])
  {
    hide Validate, Trace, Effects, ApiPlan, TmuxPlan, PublishesLast, Leaves, Follows, Spells, Good, Who.Valid;
    ValidateExactly(envelope, accounts, q);
    PlanPublishesLast(enc, q, existing, envelope);
    if q.ApiRequest? {
      ApiLeaves(w, enc, q, states);
    } else {
      TmuxLeaves(w, enc, q, existing == Some("tmux"), Cause(envelope, existing), states);
    }
    FollowsBack(w, enc, PayloadOf(envelope).value, q, accounts, states[0], states[|states| - 1]);
  }
}
