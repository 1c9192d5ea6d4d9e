/**
 What a start request says, field by field, against the payload that carries it, and what an accepted
 start leaves in the database in terms of that payload.
 */
module StartPayload {
  import opened Prelude
  import opened Keys
  import opened RedisStore
  import opened Scripts
  import opened Retirement
  import opened Lifecycle
  import opened StartAgent
  import opened Rehire

  // ---- a payload that spells a request ----

  /** Absent, or null. */
  predicate Unsaid(p: map<string, JVal>, key: string) { Lookup(p, key) == JNull }

  /** The field is this string, or was not given. */
  predicate SaysText(p: map<string, JVal>, key: string, text: Option<string>) {
    if text.None? then Unsaid(p, key) else Lookup(p, key) == JStr(text.value)
  }

  /** The same, where an empty string says nothing either. */
  predicate SaysName(p: map<string, JVal>, key: string, name: Option<string>) {
    if name.None? then Unsaid(p, key) || Lookup(p, key) == JStr("") else Lookup(p, key) == JStr(name.value) && name.value != ""
  }

  predicate SaysFlag(p: map<string, JVal>, key: string, flag: Option<bool>) {
    if flag.None? then Unsaid(p, key) else Lookup(p, key) == JBool(flag.value)
  }

  /** A list of exactly these strings, in any order, repeated or not; or nothing. */
  ghost predicate SaysTags(p: map<string, JVal>, key: string, tags: Option<set<string>>) {
    if tags.None? then Unsaid(p, key)
    else
      var v := Lookup(p, key);
      v.JList? && (forall x :: x in v.items ==> x.JStr?) && forall t :: t in tags.value <==> JStr(t) in v.items
  }

  /** Where the field has a default, its absence is not null. */
  predicate SaysOr(p: map<string, JVal>, key: string, default_: string, text: string) {
    if key in p then p[key] == JStr(text) else text == default_
  }

  predicate SaysGiven(p: map<string, JVal>, key: string, text: Option<string>) {
    if key in p then text.Some? && p[key] == JStr(text.value) else text.None?
  }

  ghost predicate SaysPolicy(p: map<string, JVal>, policy: Policy) {
    && SaysTags(p, "export", policy.exports) && SaysTags(p, "import", policy.imports)
    && (policy.supplied <==> "export" in p || "import" in p)
  }

  predicate SaysKey(p: map<string, JVal>, key: Option<(string, string)>) {
    && SaysText(p, "kid", if key.None? then None else Some(key.value.0))
    && SaysText(p, "hmac_secret", if key.None? then None else Some(key.value.1))
  }

  predicate SaysSettings(p: map<string, JVal>, s: Settings) {
    && SaysOr(p, "cli", "claude", s.cli) && SaysName(p, "profile", s.profile) && SaysName(p, "provider", s.provider)
    && SaysFlag(p, "resume", s.resume) && SaysFlag(p, "skip_permissions", s.skipPermissions)
    && SaysGiven(p, "claude_tools", s.tools)
  }

  /** The payload carries every field of the request, each under its own name. */
  ghost predicate Spells(p: map<string, JVal>, q: Request) {
    && p.Keys <= START_KEYS && Lookup(p, "agent") == JStr(q.agent) && SaysPolicy(p, q.policy)
    && match q
       case ApiRequest(_, _, revoke, key) =>
         SaysOr(p, "port_type", "tmux", "api") && SaysText(p, "revoke_kid", revoke) && SaysKey(p, key)
       case TmuxRequest(_, _, settings) =>
         SaysOr(p, "port_type", "tmux", "tmux") && SaysText(p, "revoke_kid", None) && SaysKey(p, None) && SaysSettings(p, settings)
  }

  function PayloadOf(envelope: JVal): Option<map<string, JVal>> {
    if envelope.JObj? && "payload" in envelope.members && envelope.members["payload"].JObj?
    then Some(envelope.members["payload"].members) else None
  }

  // ---- a request that may be asked ----

  predicate GoodTags(tags: Option<set<string>>) { tags.Some? ==> forall t :: t in tags.value ==> MatchesSegment(t) }

  predicate GoodSettings(s: Settings, accounts: Accounts) {
    && s.cli != ""
    && (s.profile.Some? ==>
          IsSegment(s.profile.value) && !accounts.LookupRaised? && (accounts.Known? ==> s.profile.value in accounts.names))
    && (s.provider.Some? ==> IsSegment(s.provider.value))
  }

  predicate GoodKey(key: Option<(string, string)>) {
    key.Some? ==> MatchesSegment(key.value.0) && |key.value.1| >= MIN_SECRET
  }

  /** Every name in it is one, every secret long enough, the account known. */
  predicate Good(q: Request, accounts: Accounts) {
    && IsSegment(q.agent) && GoodTags(q.policy.exports) && GoodTags(q.policy.imports)
    && match q
       case ApiRequest(_, _, revoke, key) => (revoke.Some? ==> MatchesSegment(revoke.value)) && GoodKey(key)
       case TmuxRequest(_, _, settings) => GoodSettings(settings, accounts)
  }

  // ---- validation accepts exactly what is spelled ----

  lemma TagsExactly(p: map<string, JVal>, key: string, tags: Option<set<string>>)
    ensures Tags(Lookup(p, key)) == Ok(tags) <==> SaysTags(p, key, tags) && GoodTags(tags)
  {
    hide MatchesSegment;
    var v := Lookup(p, key);
    if tags.Some? && v.JList? {
      if SaysTags(p, key, tags) && GoodTags(tags) {
        forall x | x in v.items ensures x.JStr? && MatchesSegment(x.text) {
          assert JStr(x.text) in v.items;
        }
        assert tags.value == set x | x in v.items && x.JStr? :: x.text;
      }
      if Tags(v) == Ok(tags) {
        forall t ensures t in tags.value <==> JStr(t) in v.items {
          if JStr(t) in v.items { assert JStr(t).text == t; }
        }
      }
    }
  }

  lemma KeyExactly(p: map<string, JVal>, revoke: Option<string>, key: Option<(string, string)>)
    ensures KeyMaterial(p, true) == Ok((revoke, key)) <==>
      SaysText(p, "revoke_kid", revoke) && SaysKey(p, key) && (revoke.Some? ==> MatchesSegment(revoke.value)) && GoodKey(key)
    ensures KeyMaterial(p, false).Ok? <==> SaysText(p, "revoke_kid", None) && SaysKey(p, None)
  {
    hide MatchesSegment;
  }

  lemma NameExactly(v: JVal, name: Option<string>)
    ensures OptionalName(v) == Ok(name) <==>
      if name.None? then v == JNull || v == JStr("") else v == JStr(name.value) && IsSegment(name.value)
  {
    SegmentIsNotEmpty();
    hide IsSegment;
  }

  lemma SegmentIsNotEmpty()
    ensures !IsSegment("")
  {
  }

  lemma SettingsExactly(p: map<string, JVal>, accounts: Accounts, s: Settings)
    ensures TmuxSettings(p, accounts) == Ok(s) <==> SaysSettings(p, s) && GoodSettings(s, accounts)
  {
    NameExactly(Lookup(p, "profile"), s.profile);
    NameExactly(Lookup(p, "provider"), s.provider);
    SegmentIsNotEmpty();
    hide IsSegment, OptionalName;
  }

  /** A request is what validation makes of an envelope if and only if the payload spells it and it may be asked. */
  lemma ValidateExactly(envelope: JVal, accounts: Accounts, q: Request)
    ensures Validate(envelope, accounts) == Ok(q) <==>
      PayloadOf(envelope).Some? && Spells(PayloadOf(envelope).value, q) && Good(q, accounts)
  {
    if PayloadOf(envelope).Some? {
      var p := PayloadOf(envelope).value;
      TagsExactly(p, "export", q.policy.exports);
      TagsExactly(p, "import", q.policy.imports);
      match q
      case ApiRequest(_, _, revoke, key) =>
        KeyExactly(p, revoke, key);
        ApiExactly(envelope, accounts, q);
      case TmuxRequest(_, _, settings) =>
        KeyExactly(p, None, None);
        SettingsExactly(p, accounts, settings);
        TmuxExactly(envelope, accounts, q);
    }
  }

  lemma ApiExactly(envelope: JVal, accounts: Accounts, q: Request)
    requires PayloadOf(envelope).Some? && q.ApiRequest?
    ensures var p := PayloadOf(envelope).value;
      Validate(envelope, accounts) == Ok(q) <==>
        && p.Keys <= START_KEYS && Lookup(p, "agent") == JStr(q.agent) && IsSegment(q.agent)
        && Tags(Lookup(p, "export")) == Ok(q.policy.exports) && Tags(Lookup(p, "import")) == Ok(q.policy.imports)
        && (q.policy.supplied <==> "export" in p || "import" in p)
        && SaysOr(p, "port_type", "tmux", "api") && KeyMaterial(p, true) == Ok((q.revoke, q.key))
  {
    hide IsSegment, Tags, KeyMaterial, TmuxSettings, START_KEYS;
  }

  lemma TmuxExactly(envelope: JVal, accounts: Accounts, q: Request)
    requires PayloadOf(envelope).Some? && q.TmuxRequest?
    ensures var p := PayloadOf(envelope).value;
      Validate(envelope, accounts) == Ok(q) <==>
        && p.Keys <= START_KEYS && Lookup(p, "agent") == JStr(q.agent) && IsSegment(q.agent)
        && Tags(Lookup(p, "export")) == Ok(q.policy.exports) && Tags(Lookup(p, "import")) == Ok(q.policy.imports)
        && (q.policy.supplied <==> "export" in p || "import" in p)
        && SaysOr(p, "port_type", "tmux", "tmux") && KeyMaterial(p, false).Ok? && TmuxSettings(p, accounts) == Ok(q.settings)
  {
    hide IsSegment, Tags, KeyMaterial, TmuxSettings, START_KEYS;
  }

  // ---- what is rejected ----

  predicate BadTags(v: JVal) { !v.JNull? && !(v.JList? && forall x :: x in v.items ==> IsSegmentString(x)) }

  predicate BadName(v: JVal) { v != JNull && v != JStr("") && !(v.JStr? && IsSegment(v.text)) }

  predicate BadFlag(v: JVal) { !v.JNull? && !v.JBool? }

  predicate BadKeys(p: map<string, JVal>, api: bool) {
    var secret, kid, revoke := Lookup(p, "hmac_secret"), Lookup(p, "kid"), Lookup(p, "revoke_kid");
    || (secret == JNull <==> kid != JNull)
    || (kid != JNull && !IsSegmentString(kid)) || (revoke != JNull && !IsSegmentString(revoke))
    || (secret != JNull && !(secret.JStr? && |secret.text| >= MIN_SECRET))
    || (!api && (kid != JNull || revoke != JNull))
  }

  predicate BadSettings(p: map<string, JVal>, accounts: Accounts) {
    var profile := Lookup(p, "profile");
    || ("cli" in p && (!p["cli"].JStr? || p["cli"] == JStr("")))
    || BadName(profile) || BadName(Lookup(p, "provider")) || BadFlag(Lookup(p, "resume")) || BadFlag(Lookup(p, "skip_permissions"))
    || ("claude_tools" in p && !p["claude_tools"].JStr?)
    || (profile.JStr? && profile.text != ""
        && (accounts.LookupRaised? || (accounts.Known? && profile.text !in accounts.names)))
  }

  /** Some field the request names is no good. */
  predicate Malformed(envelope: JVal, accounts: Accounts) {
    PayloadOf(envelope).None? ||
      var p := PayloadOf(envelope).value;
      var port := if "port_type" in p then p["port_type"] else JStr("tmux");
      || !(p.Keys <= START_KEYS) || !Lookup(p, "agent").JStr? || !IsSegment(Lookup(p, "agent").text)
      || BadTags(Lookup(p, "export")) || BadTags(Lookup(p, "import"))
      || (port != JStr("tmux") && port != JStr("api"))
      || BadKeys(p, port == JStr("api")) || (port == JStr("tmux") && BadSettings(p, accounts))
  }

  lemma SettingsRejected(p: map<string, JVal>, accounts: Accounts)
    ensures TmuxSettings(p, accounts).Err? <==> BadSettings(p, accounts)
  {
    SegmentIsNotEmpty();
    hide IsSegment;
  }

  lemma KeysRejected(p: map<string, JVal>, api: bool)
    ensures KeyMaterial(p, api).Err? <==> BadKeys(p, api)
  {
    hide MatchesSegment;
  }

  lemma TagsRejected(v: JVal)
    ensures Tags(v).Err? <==> BadTags(v)
  {
    hide MatchesSegment;
  }

  /**
   A start is turned away if and only if some field it names is malformed, and by anything but a rejection
   only for two of them.
   */
  lemma RejectedExactly(envelope: JVal, accounts: Accounts)
    ensures Validate(envelope, accounts).Err? <==> Malformed(envelope, accounts)
    ensures Validate(envelope, accounts) == Err(OtherError) ==>
      && PayloadOf(envelope).Some?
      && var p := PayloadOf(envelope).value;
         || Lookup(p, "port_type").JList? || Lookup(p, "port_type").JObj?
         || (accounts.LookupRaised? && Lookup(p, "profile").JStr?)
  {
    if PayloadOf(envelope).Some? {
      var p := PayloadOf(envelope).value;
      TagsRejected(Lookup(p, "export"));
      TagsRejected(Lookup(p, "import"));
      KeysRejected(p, true);
      KeysRejected(p, false);
      SettingsRejected(p, accounts);
      OnlyRejections(p, accounts);
      hide IsSegment, Tags, KeyMaterial, TmuxSettings, START_KEYS, BadTags, BadKeys, BadSettings;
    }
  }

  lemma OnlyRejections(p: map<string, JVal>, accounts: Accounts)
    ensures Tags(Lookup(p, "export")) != Err(OtherError) && Tags(Lookup(p, "import")) != Err(OtherError)
    ensures KeyMaterial(p, true) != Err(OtherError) && KeyMaterial(p, false) != Err(OtherError)
    ensures TmuxSettings(p, accounts) == Err(OtherError) ==> accounts.LookupRaised? && Lookup(p, "profile").JStr?
  {
    hide IsSegment, MatchesSegment;
  }

  // ---- every request that may be asked can be spelled ----

  lemma {:induction false} ListOf(tags: set<string>) returns (items: seq<JVal>)
    ensures (forall x :: x in items ==> x.JStr?) && forall t :: t in tags <==> JStr(t) in items
    decreases |tags|
  {
    if tags == {} {
      items := [];
    } else {
      var t :| t in tags;
      var rest := ListOf(tags - {t});
      items := [JStr(t)] + rest;
    }
  }

  function With(m: map<string, JVal>, key: string, v: Option<JVal>): map<string, JVal> {
    if v.None? then m else m[key := v.value]
  }

  lemma WithAt(m: map<string, JVal>, key: string, v: Option<JVal>)
    requires key !in m
    ensures var n := With(m, key, v);
      && (key in n <==> v.Some?) && (v.Some? ==> n[key] == v.value) && Lookup(n, key) == Or(v)
      && (forall k :: k != key ==> (k in n <==> k in m) && Lookup(n, k) == Lookup(m, k))
      && (forall k :: k != key && k in m ==> n[k] == m[k])
  {
  }

  function Texted(t: Option<string>): Option<JVal> { if t.None? then None else Some(JStr(t.value)) }

  function Flagged(b: Option<bool>): Option<JVal> { if b.None? then None else Some(JBool(b.value)) }

  /** The sides of a policy that was supplied; one side is null where neither has tags. */
  lemma PolicyFields(policy: Policy) returns (p: map<string, JVal>)
    requires policy.exports.Some? || policy.imports.Some? ==> policy.supplied
    ensures SaysPolicy(p, policy) && p.Keys <= {"export", "import"}
  {
    var exports, imports: Option<JVal> := None, None;
    if policy.exports.Some? {
      var items := ListOf(policy.exports.value);
      exports := Some(JList(items));
    } else if policy.supplied {
      exports := Some(JNull);
    }
    if policy.imports.Some? {
      var items := ListOf(policy.imports.value);
      imports := Some(JList(items));
    }
    p := With(With(map[], "export", exports), "import", imports);
  }

  function ApiFields(q: Request): map<string, JVal>
    requires q.ApiRequest?
  {
    var m := With(map["agent" := JStr(q.agent), "port_type" := JStr("api")], "revoke_kid", Texted(q.revoke));
    if q.key.None? then m else m["kid" := JStr(q.key.value.0)]["hmac_secret" := JStr(q.key.value.1)]
  }

  function ProfileFields(q: Request): map<string, JVal>
    requires q.TmuxRequest?
  {
    var m := map["agent" := JStr(q.agent), "cli" := JStr(q.settings.cli)];
    With(With(m, "profile", Texted(q.settings.profile)), "provider", Texted(q.settings.provider))
  }

  function TmuxFields(q: Request): map<string, JVal>
    requires q.TmuxRequest?
  {
    var s := q.settings;
    With(With(With(ProfileFields(q), "resume", Flagged(s.resume)), "skip_permissions", Flagged(s.skipPermissions)),
        "claude_tools", Texted(s.tools))
  }

  /** Every request that may be asked is what validation makes of some payload. */
  lemma Spelling(q: Request, accounts: Accounts) returns (p: map<string, JVal>)
    requires Good(q, accounts) && (q.policy.exports.Some? || q.policy.imports.Some? ==> q.policy.supplied)
    ensures Validate(JObj(map["payload" := JObj(p)]), accounts) == Ok(q)
  {
    var policy := PolicyFields(q.policy);
    var rest := if q.ApiRequest? then ApiFields(q) else TmuxFields(q);
    p := rest + policy;
    FieldsSpell(q, accounts, policy, rest);
    hide Good, Spells;
    ValidateExactly(JObj(map["payload" := JObj(p)]), accounts, q);
  }

  lemma ProfileLookups(q: Request)
    requires q.TmuxRequest?
    ensures var m, s := ProfileFields(q), q.settings;
      && Lookup(m, "agent") == JStr(q.agent) && "cli" in m && m["cli"] == JStr(s.cli)
      && Lookup(m, "profile") == Or(Texted(s.profile)) && Lookup(m, "provider") == Or(Texted(s.provider))
      && m.Keys <= {"agent", "cli", "profile", "provider"}
  {
    var s := q.settings;
    var m := map["agent" := JStr(q.agent), "cli" := JStr(s.cli)];
    WithAt(m, "profile", Texted(s.profile));
    var n := With(m, "profile", Texted(s.profile));
    WithAt(n, "provider", Texted(s.provider));
    hide With;
  }

  /** Each field of a payload that says nothing of tags is under its own name. */
  lemma TmuxLookups(q: Request)
    requires q.TmuxRequest?
    ensures var m, s := TmuxFields(q), q.settings;
      && Lookup(m, "agent") == JStr(q.agent) && "cli" in m && m["cli"] == JStr(s.cli)
      && Lookup(m, "profile") == Or(Texted(s.profile)) && Lookup(m, "provider") == Or(Texted(s.provider))
      && Lookup(m, "resume") == Or(Flagged(s.resume)) && Lookup(m, "skip_permissions") == Or(Flagged(s.skipPermissions))
      && SaysGiven(m, "claude_tools", s.tools)
      && m.Keys <= {"agent", "cli", "profile", "provider"} + {"resume", "skip_permissions", "claude_tools"}
  {
    ProfileLookups(q);
    var s, m := q.settings, ProfileFields(q);
    WithAt(m, "resume", Flagged(s.resume));
    var n := With(m, "resume", Flagged(s.resume));
    WithAt(n, "skip_permissions", Flagged(s.skipPermissions));
    var o := With(n, "skip_permissions", Flagged(s.skipPermissions));
    WithAt(o, "claude_tools", Texted(s.tools));
    hide With, ProfileFields;
  }

  lemma ApiLookups(q: Request)
    requires q.ApiRequest?
    ensures var m := ApiFields(q);
      && m.Keys <= START_KEYS - {"export", "import"} && Lookup(m, "agent") == JStr(q.agent)
      && "port_type" in m && m["port_type"] == JStr("api") && SaysText(m, "revoke_kid", q.revoke) && SaysKey(m, q.key)
  {
  }

  function Or(v: Option<JVal>): JVal { if v.None? then JNull else v.value }

  const TAG_FIELDS: set<string> := {"export", "import"}

  /** One payload says what the other says of every field other than the tags. */
  ghost predicate SameButTags(p: map<string, JVal>, rest: map<string, JVal>) {
    forall k :: k !in TAG_FIELDS ==> (k in p <==> k in rest) && Lookup(p, k) == Lookup(rest, k) && (k in p ==> p[k] == rest[k])
  }

  /** And of the tags. */
  ghost predicate SameTags(p: map<string, JVal>, policy: map<string, JVal>) {
    forall k :: k in TAG_FIELDS ==> (k in p <==> k in policy) && Lookup(p, k) == Lookup(policy, k)
  }

  lemma Beside(rest: map<string, JVal>, policy: map<string, JVal>)
    requires policy.Keys <= TAG_FIELDS && rest.Keys !! TAG_FIELDS
    ensures SameButTags(rest + policy, rest) && SameTags(rest + policy, policy)
    ensures (rest + policy).Keys == rest.Keys + policy.Keys
  {
  }

  lemma PolicyBeside(p: map<string, JVal>, policy: map<string, JVal>, q: Policy)
    requires SameTags(p, policy) && SaysPolicy(policy, q)
    ensures SaysPolicy(p, q)
  {
  }

  lemma ApiSaid(p: map<string, JVal>, q: Request)
    requires q.ApiRequest? && SameButTags(p, ApiFields(q))
    ensures SaysOr(p, "port_type", "tmux", "api") && SaysText(p, "revoke_kid", q.revoke) && SaysKey(p, q.key)
    ensures Lookup(p, "agent") == JStr(q.agent) && ApiFields(q).Keys <= START_KEYS - TAG_FIELDS
  {
    ApiLookups(q);
    hide ApiFields, Lookup;
  }

  lemma TmuxAbsent(q: Request)
    requires q.TmuxRequest?
    ensures var m := TmuxFields(q);
      && "port_type" !in m && "revoke_kid" !in m && "kid" !in m && "hmac_secret" !in m && m.Keys <= START_KEYS - TAG_FIELDS
  {
    TmuxLookups(q);
    var names := {"agent", "cli", "profile", "provider"} + {"resume", "skip_permissions", "claude_tools"};
    assert names <= START_KEYS;
    hide TmuxFields;
  }

  lemma AbsentSaid(p: map<string, JVal>)
    requires "port_type" !in p && "revoke_kid" !in p && "kid" !in p && "hmac_secret" !in p
    ensures SaysOr(p, "port_type", "tmux", "tmux") && SaysText(p, "revoke_kid", None) && SaysKey(p, None)
  {
  }

  lemma SettingsSaid(p: map<string, JVal>, s: Settings, accounts: Accounts)
    requires "cli" in p && p["cli"] == JStr(s.cli)
    requires Lookup(p, "profile") == Or(Texted(s.profile)) && Lookup(p, "provider") == Or(Texted(s.provider))
    requires Lookup(p, "resume") == Or(Flagged(s.resume)) && Lookup(p, "skip_permissions") == Or(Flagged(s.skipPermissions))
    requires SaysGiven(p, "claude_tools", s.tools) && GoodSettings(s, accounts)
    ensures SaysSettings(p, s)
  {
    SegmentIsNotEmpty();
    hide IsSegment, Lookup, SaysGiven;
  }

  lemma TmuxSaid(p: map<string, JVal>, q: Request, accounts: Accounts)
    requires q.TmuxRequest? && SameButTags(p, TmuxFields(q)) && GoodSettings(q.settings, accounts)
    ensures SaysOr(p, "port_type", "tmux", "tmux") && SaysText(p, "revoke_kid", None) && SaysKey(p, None)
    ensures SaysSettings(p, q.settings) && Lookup(p, "agent") == JStr(q.agent)
  {
    hide TmuxFields, START_KEYS, GoodSettings, SaysSettings, SaysKey, SaysText, SaysOr, Lookup;
    TmuxLookups(q);
    TmuxAbsent(q);
    var m := TmuxFields(q);
    assert "port_type" !in p && "kid" !in p && "hmac_secret" !in p && "revoke_kid" !in p;
    AbsentSaid(p);
    assert Lookup(p, "agent") == Lookup(m, "agent") && "cli" in p && p["cli"] == m["cli"];
    assert "claude_tools" in p <==> "claude_tools" in m;
    assert Lookup(p, "profile") == Lookup(m, "profile") && Lookup(p, "provider") == Lookup(m, "provider");
    assert Lookup(p, "resume") == Lookup(m, "resume") && Lookup(p, "skip_permissions") == Lookup(m, "skip_permissions");
    SettingsSaid(p, q.settings, accounts);
  }

  lemma FieldsSpell(q: Request, accounts: Accounts, policy: map<string, JVal>, rest: map<string, JVal>)
    requires Good(q, accounts) && SaysPolicy(policy, q.policy) && policy.Keys <= TAG_FIELDS
    requires rest == if q.ApiRequest? then ApiFields(q) else TmuxFields(q)
    ensures Spells(rest + policy, q)
  {
    assert rest.Keys <= START_KEYS - TAG_FIELDS by {
      if q.ApiRequest? { ApiSaid(rest, q); } else { TmuxAbsent(q); }
    }
    Beside(rest, policy);
    PolicyBeside(rest + policy, policy, q.policy);
    if q.ApiRequest? { ApiSaid(rest + policy, q); } else { TmuxSaid(rest + policy, q, accounts); }
    assert policy.Keys <= START_KEYS;
    hide ApiFields, TmuxFields, SameButTags, SameTags, SaysPolicy, SaysSettings, SaysOr, SaysText, SaysKey, Lookup, GoodSettings;
  }
}
