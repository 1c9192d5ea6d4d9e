/** start_agent itself, issuing the commands of its plan one by one. */
module StartRun {
  import opened Prelude
  import opened Keys
  import opened RedisStore
  import opened Scripts
  import opened Retirement
  import opened Lifecycle
  import opened StartAgent
  import opened StartPayload
  import StartLeaves

  /** What comes back for one command: an answer, a refusal before it ran, or nothing after it ran. */
  datatype Reply = Answered | Unexecuted | Lost

  /** How start_agent ends. */
  datatype Verdict =
    | Turned(refusal: Refusal)               // raised before any command
    | ReadFailed(acks: seq<string>)          // some read raised
    | Incomplete(acks: seq<string>)          // a write's outcome is unknown
    | ReplaceUnknown(acks: seq<string>)      // replacing the stale window raised
    | Accepted(claimed: bool, replaced: bool)

  /** What _record_lifecycle logs. */
  datatype Logged = LoggedFailed | LoggedIncomplete | LoggedAccepted

  function Recorded(v: Verdict): Logged {
    match v
    case Turned(_) => LoggedFailed
    case ReadFailed(_) => LoggedFailed
    case Incomplete(_) => LoggedIncomplete
    case ReplaceUnknown(_) => LoggedIncomplete
    case Accepted(_, _) => LoggedAccepted
  }

  /** A tmux member whose stored launch state differs from what this request asks for. */
  ghost predicate Stale(w: Who, q: Request, before: Store) {
    && q.TmuxRequest? && Field(before, w.Registry(), w.agent) == Some("tmux")
    && var s := q.settings;
       || Text(before, w.Key("launch")) != Some(s.cli)
       || (s.profile.Some? && Text(before, w.Key("profile")) != s.profile)
       || (s.provider.Some? && Text(before, w.Key("provider")) != s.provider)
       || (s.resume.Some? && Text(before, w.Key("resume")) != Flag(s.resume))
       || (s.skipPermissions.Some? && Text(before, w.Key("skip-permissions")) != Flag(s.skipPermissions))
       || (s.tools.Some? && Text(before, w.Key("claude-tools")) != s.tools)
  }

  lemma EffectsNext(past: seq<Command>, todo: seq<Command>)
    requires todo != [] && todo[0].Write?
    ensures |Effects(past)| < |Effects(past + todo)| && Effects(past + todo)[|Effects(past)|] == todo[0].effect
    ensures Effects(past + [todo[0]]) == Effects(past) + [todo[0].effect]
    ensures Labels(past + [todo[0]]) == Labels(past) + [todo[0].what]
  {
    EffectsConcat(past, todo);
    EffectsConcat(past, [todo[0]]);
    LabelsConcat(past, [todo[0]]);
  }

  lemma ReadNext(past: seq<Command>, c: Command)
    requires !c.Write?
    ensures Effects(past + [c]) == Effects(past) && Labels(past + [c]) == Labels(past)
  {
    EffectsConcat(past, [c]);
    LabelsConcat(past, [c]);
  }

  /** The agent a stop may name: addressable, and no fixed participant. */
  function Stoppable(envelope: JVal): Option<string> {
    var target := Target(envelope, {"agent"});
    if target.Err? || target.value.0 == "api" || target.value.0 == "host" then None else Some(target.value.0)
  }

  lemma StoppableIsSegment(envelope: JVal)
    ensures Stoppable(envelope).Some? ==> IsSegment(Stoppable(envelope).value)
  {
    hide IsSegment;
  }

  /** A command on a key that holds another type. */
  ghost predicate MeetsWrongType(w: Who, c: Command, db: Store) {
    match c
    case LookUpPort => !Hashy(db, w.Registry())
    case ReadOld(resource, _) => !Stringy(db, w.Key(resource))
    case Write(_, SetField(resource, _, _)) => !Hashy(db, w.Key(resource))
    case Write(_, DelField(resource, _)) => !Hashy(db, w.Key(resource))
    case Write(_, PublishMember) => !Hashy(db, w.Registry())
    case Write(_, PublishLead(_)) => !Hashy(db, w.Registry()) || !Stringy(db, w.Lead())
    case _ => false
  }

  predicate Leads(segment: seq<Command>, todo: seq<Command>) { segment <= todo }

  lemma LeadsConcat(a: seq<Command>, b: seq<Command>)
    ensures Leads(a, a + b) && (a + b)[|a|..] == b
  {
  }

  /** Every desired key but one reads as before. */
  ghost predicate OthersSame(w: Who, before: Store, after: Store, written: set<string>) {
    forall r :: r in DESIRED && r !in written ==> Text(after, w.Key(r)) == Text(before, w.Key(r))
  }

  lemma WroteOne(w: Who, e: Effect, before: Store, after: Store)
    requires w.Valid() && Did(w, e, before, after) && !Publishes(e) && ResourceOf(e) in DESIRED
    ensures OthersSame(w, before, after, {ResourceOf(e)})
  {
    hide Did, Text, Fields, Who.Key, DESIRED, Who.Valid;
    forall r | r in DESIRED && r != ResourceOf(e) ensures Text(after, w.Key(r)) == Text(before, w.Key(r)) {
      DidAt(w, e, before, after, r);
    }
  }

  class Starter {
    const pod: string
    const tenant: string
    const enc: Encoding
    const newId: string
    const redis: Redis
    const replies: nat -> Reply
    var issued: nat
    var committed: seq<string>
    var who: Who
    ghost var plan: seq<Command>
    ghost var past: seq<Command>
    ghost var todo: seq<Command>
    ghost var states: seq<Store>

    constructor (pod: string, tenant: string, enc: Encoding, newId: string, redis: Redis, replies: nat -> Reply)
      ensures this.pod == pod && this.tenant == tenant && this.enc == enc && this.newId == newId
      ensures this.redis == redis && this.replies == replies && issued == 0
    {
      this.pod, this.tenant, this.enc, this.newId := pod, tenant, enc, newId;
      this.redis, this.replies, issued := redis, replies, 0;
    }

    /** Where the run stands: acknowledged commands, commands to come, and every database so far. */
    ghost predicate Sound()
      reads this, redis
    {
      && who.Valid() && plan == past + todo && committed == Labels(past)
      && Trace(who, Effects(plan), states) && states[|states| - 1] == redis.db
      && |Effects(past)| <= |states| - 1 <= |Effects(past)| + (if todo != [] && todo[0].Write? then 1 else 0)
    }

    /** Every write issued so far was acknowledged. */
    ghost predicate Settled()
      reads this, redis
    {
      Sound() && |states| - 1 == |Effects(past)|
    }

    method NextReply() returns (r: Reply)
      modifies this`issued
      ensures r == replies(old(issued)) && issued == old(issued) + 1
    {
      r := replies(issued);
      issued := issued + 1;
    }

    /** The last command issued got no proper answer, or met a key of the wrong type. */
    ghost predicate Failed(c: Command)
      reads this, redis
    {
      issued > 0 && (replies(issued - 1) != Answered || MeetsWrongType(who, c, redis.db))
    }

    /** r.get of an old value; true when it differs from what is desired. */
    method Differs(resource: string, desired: string) returns (r: Result<bool, ()>)
      requires Settled() && todo != [] && todo[0] == ReadOld(resource, desired)
      modifies this
      ensures Sound() && plan == old(plan) && states == old(states) && who == old(who)
      ensures r.Ok? ==> Settled() && todo == old(todo)[1..] && r.value == (Text(redis.db, who.Key(resource)) != Some(desired))
      ensures r.Err? ==> todo == old(todo) && past == old(past) && Failed(todo[0])
    {
      hide Trace, Effects, Labels, Text, Stringy, Who.Key, Who.Valid;
      var reply := NextReply();
      var value := Get(redis.db, who.Key(resource));
      if reply != Answered || value.Err? { return Err(()); }
      ReadNext(past, todo[0]);
      assert past + [todo[0]] + todo[1..] == plan;
      past, todo := past + [todo[0]], todo[1..];
      r := Ok(value.value != Some(desired));
    }

    /** Carry an effect out; true only when the lead script claimed the lead. */
    method Perform(e: Effect) returns (r: Answer<bool>)
      requires who.Valid()
      modifies redis
      ensures r.Err? ==> redis.db == old(redis.db) && MeetsWrongType(who, Write("", e), redis.db)
      ensures r.Ok? ==> Did(who, e, old(redis.db), redis.db)
      ensures r.Ok? ==> r.value == (e.PublishLead? && Vacant(Text(old(redis.db), who.Lead())))
    {
      hide TenantKey, AgentKey, IsSegment, SameExcept, PublishKeys.Published, PublishKeys.Distinct, Hashy, Stringy,
        Text, Fields;
      var K := PublishKeysOf(who.pod, who.tenant, who.agent);
      PublishKeysNeverAlias(who.pod, who.tenant, who.agent);
      match e
      case SetKey(resource, text) => redis.db := Set(redis.db, who.Key(resource), text); r := Ok(false);
      case DelKey(resource) => redis.db := Del(redis.db, who.Key(resource)); r := Ok(false);
      case SetField(resource, field, text) =>
        var after :- HSet(redis.db, who.Key(resource), field, text);
        redis.db := after;
        r := Ok(false);
      case DelField(resource, field) =>
        var after :- HDel(redis.db, who.Key(resource), field);
        redis.db := after;
        r := Ok(false);
      case PublishMember =>
        var done :- redis.PublishMembership(K, who.agent, who.portType, who.newId);
        r := Ok(false);
      case PublishLead(cause) =>
        var claimed :- redis.PublishLeadMembership(K, who.agent, who.portType, cause, who.newId);
        r := Ok(claimed == 1);
    }

    /** _write_desired: the label is acknowledged only when an answer came back. */
    method WriteDesired(what: string, e: Effect) returns (r: Result<bool, ()>)
      requires Settled() && todo != [] && todo[0] == Write(what, e)
      modifies this, redis
      ensures Sound() && plan == old(plan) && who == old(who)
      ensures r.Ok? ==>
        && Settled() && todo == old(todo)[1..] && committed == old(committed) + [what]
        && states == old(states) + [redis.db] && Did(who, e, old(redis.db), redis.db)
        && r.value == (e.PublishLead? && Vacant(Text(old(redis.db), who.Lead())))
      ensures r.Err? ==> todo == old(todo) && past == old(past) && states[0] == old(states[0]) && Failed(todo[0])
    {
      hide Effects, Labels, Did, Text, Who.Valid, Hashy, Stringy;
      var reply := NextReply();
      if reply == Unexecuted { return Err(()); }
      EffectsNext(past, todo);
      var answer := Perform(e);
      if answer.Err? { return Err(()); }
      states := states + [redis.db];
      if reply == Lost { return Err(()); }
      assert past + [todo[0]] + todo[1..] == plan;
      past, todo := past + [todo[0]], todo[1..];
      committed := committed + [what];
      r := Ok(answer.value);
    }
  
    /** The run stopped at the command it names, a read or a write accordingly, and that command did fail. */
    ghost predicate Halted(v: Verdict)
      reads this, redis
    {
      && todo != [] && Failed(todo[0])
      && ((v == ReadFailed(committed) && !todo[0].Write?) || (v == Incomplete(committed) && todo[0].Write?))
    }

    /** One optional setting: compare the old value if there is a running window, then publish. */
    method Settle(resource: string, what: string, desired: Option<string>, compare: bool) returns (r: Result<bool, Verdict>)
      requires Settled() && resource in DESIRED
      requires Leads(Setting(resource, what, desired, compare), todo)
      modifies this, redis
      ensures Sound() && plan == old(plan) && who == old(who) && states[0] == old(states[0])
      ensures r.Err? ==> Halted(r.error)
      ensures r.Ok? ==>
        && Settled() && todo == old(todo)[|Setting(resource, what, desired, compare)|..]
        && r.value == (compare && desired.Some? && Text(old(redis.db), who.Key(resource)) != desired)
        && OthersSame(who, old(redis.db), redis.db, if desired.Some? then {resource} else {})
    {
      hide Effects, Labels, Did, Text, Who.Valid, Who.Key, Trace, OthersSame, DESIRED;
      assert OthersSame(who, redis.db, redis.db, {}) by { SameOthers(who, redis.db); }
      if desired.None? { return Ok(false); }
      var changed := false;
      ghost var segment := Setting(resource, what, desired, compare);
      if compare {
        assert todo[0] == segment[0] && todo[1] == segment[1];
        var stored := Differs(resource, desired.value);
        if stored.Err? { return Err(ReadFailed(committed)); }
        changed := stored.value;
      } else {
        assert todo[0] == segment[0];
      }
      ghost var before := redis.db;
      var wrote := WriteDesired(what, SetKey(resource, desired.value));
      if wrote.Err? { return Err(Incomplete(committed)); }
      WroteOne(who, SetKey(resource, desired.value), before, redis.db);
      r := Ok(changed);
    }

    /** Reset the policy, then publish the sides that were supplied. */
    method ApplyPolicy(policy: Policy) returns (r: Result<(), Verdict>)
      requires Settled() && Leads(PolicyCommands(enc, policy), todo)
      modifies this, redis
      ensures Sound() && plan == old(plan) && who == old(who) && states[0] == old(states[0])
      ensures r.Err? ==> Halted(r.error)
      ensures r.Ok? ==> Settled() && todo == old(todo)[|PolicyCommands(enc, policy)|..]
    {
      hide Effects, Labels, Did, Text, Who.Valid, Who.Key, Trace;
      if !policy.supplied { return Ok(()); }
      ghost var segment := PolicyCommands(enc, policy);
      ghost var start := todo;
      assert forall i :: 0 <= i < |segment| ==> start[i] == segment[i];
      var reset := WriteDesired("policy reset", DelKey("tags"));
      if reset.Err? { return Err(Incomplete(committed)); }
      if policy.exports.Some? {
        assert todo[0] == start[1] == segment[1];
        var side := WriteDesired("export policy published", SetField("tags", "export", enc.tags(policy.exports.value)));
        if side.Err? { return Err(Incomplete(committed)); }
      }
      if policy.imports.Some? {
        assert todo[0] == start[|segment| - 1] == segment[|segment| - 1];
        var side := WriteDesired("import policy published", SetField("tags", "import", enc.tags(policy.imports.value)));
        if side.Err? { return Err(Incomplete(committed)); }
      }
      r := Ok(());
    }
  
    /** The registry read that tells a first tmux hire from a restart. */
    method LookUp() returns (r: Result<Option<string>, Verdict>)
      requires Settled() && todo != [] && todo[0] == LookUpPort
      modifies this
      ensures Sound() && plan == old(plan) && who == old(who) && states == old(states)
      ensures r.Err? ==> Halted(r.error)
      ensures r.Ok? ==> Settled() && todo == old(todo)[1..] && r.value == Field(redis.db, who.Registry(), who.agent)
    {
      hide Trace, Effects, Labels, Who.Valid, Field, Hashy;
      var reply := NextReply();
      var value := HGet(redis.db, who.Registry(), who.agent);
      if reply != Answered || value.Err? { return Err(ReadFailed(committed)); }
      ReadNext(past, todo[0]);
      assert past + [todo[0]] + todo[1..] == plan;
      past, todo := past + [todo[0]], todo[1..];
      r := Ok(value.value);
    }

    /** Profile, provider and launch: the settings a window is built from. */
    method SettleIdentity(s: Settings, tmux: bool, ghost rest: seq<Command>) returns (r: Result<bool, Verdict>)
      requires Settled()
      requires todo == (if tmux then [ReadOld("launch", s.cli)] else [])
        + (Setting("profile", "profile published", s.profile, tmux)
        + (Setting("provider", "provider published", s.provider, tmux)
        + ([Write("launch published", SetKey("launch", s.cli))] + rest)))
      modifies this, redis
      ensures Sound() && plan == old(plan) && who == old(who) && states[0] == old(states[0])
      ensures r.Err? ==> Halted(r.error)
      ensures r.Ok? ==>
        && Settled() && todo == rest
        && r.value == (tmux && (Text(old(redis.db), who.Key("launch")) != Some(s.cli)
             || (s.profile.Some? && Text(old(redis.db), who.Key("profile")) != s.profile)
             || (s.provider.Some? && Text(old(redis.db), who.Key("provider")) != s.provider)))
        && OthersSame(who, old(redis.db), redis.db, {"profile", "provider", "launch"})
    {
      hide Effects, Labels, Did, Text, Who.Valid, Who.Key, Trace, OthersSame, Setting, Settled;
      ghost var publish := [Write("launch published", SetKey("launch", s.cli))] + rest;
      ghost var p2 := Setting("provider", "provider published", s.provider, tmux);
      ghost var p1 := Setting("profile", "profile published", s.profile, tmux);
      ghost var db0 := redis.db;
      var changed := false;
      if tmux {
        assert todo[0] == ReadOld("launch", s.cli) && todo[1..] == p1 + (p2 + publish);
        var launch := Differs("launch", s.cli);
        if launch.Err? { return Err(ReadFailed(committed)); }
        changed := launch.value;
      } else {
        assert todo == p1 + (p2 + publish);
      }
      LeadsConcat(p1, p2 + publish);
      var profile := Settle("profile", "profile published", s.profile, tmux);
      if profile.Err? { return Err(profile.error); }
      ghost var db1 := redis.db;
      LeadsConcat(p2, publish);
      var provider := Settle("provider", "provider published", s.provider, tmux);
      if provider.Err? { return Err(provider.error); }
      ghost var db2 := redis.db;
      assert todo[0] == publish[0] && todo[1..] == rest;
      var launched := WriteDesired("launch published", SetKey("launch", s.cli));
      if launched.Err? { return Err(Incomplete(committed)); }
      WroteOne(who, SetKey("launch", s.cli), db2, redis.db);
      OthersGrow(who, db0, db1, if s.profile.Some? then {"profile"} else {}, {"profile"});
      OthersGrow(who, db1, db2, if s.provider.Some? then {"provider"} else {}, {"provider"});
      OthersChain(who, db0, db1, db2, {"profile"}, {"provider"});
      OthersChain(who, db0, db2, redis.db, {"profile"} + {"provider"}, {"launch"});
      assert {"profile"} + {"provider"} + {"launch"} == {"profile", "provider", "launch"};
      OthersAt(who, db0, db1, {"profile"}, "provider");
      r := Ok(changed || profile.value || provider.value);
    }

    /** Resume, permissions and tools. */
    method SettleFlags(s: Settings, tmux: bool, ghost rest: seq<Command>) returns (r: Result<bool, Verdict>)
      requires Settled()
      requires todo == Setting("resume", "resume published", Flag(s.resume), tmux)
        + (Setting("skip-permissions", "skip_permissions published", Flag(s.skipPermissions), tmux)
        + (Setting("claude-tools", "claude_tools published", s.tools, tmux) + rest))
      modifies this, redis
      ensures Sound() && plan == old(plan) && who == old(who) && states[0] == old(states[0])
      ensures r.Err? ==> Halted(r.error)
      ensures r.Ok? ==>
        && Settled() && todo == rest
        && r.value == (tmux && ((s.resume.Some? && Text(old(redis.db), who.Key("resume")) != Flag(s.resume))
             || (s.skipPermissions.Some? && Text(old(redis.db), who.Key("skip-permissions")) != Flag(s.skipPermissions))
             || (s.tools.Some? && Text(old(redis.db), who.Key("claude-tools")) != s.tools)))
    {
      hide Effects, Labels, Did, Text, Who.Valid, Who.Key, Trace, OthersSame, Setting, Settled, Flag;
      ghost var p3 := Setting("resume", "resume published", Flag(s.resume), tmux);
      ghost var p4 := Setting("skip-permissions", "skip_permissions published", Flag(s.skipPermissions), tmux);
      ghost var p5 := Setting("claude-tools", "claude_tools published", s.tools, tmux);
      FlagSome(s.resume);
      FlagSome(s.skipPermissions);
      ghost var db0 := redis.db;
      LeadsConcat(p3, p4 + (p5 + rest));
      var resume := Settle("resume", "resume published", Flag(s.resume), tmux);
      if resume.Err? { return Err(resume.error); }
      ghost var db1 := redis.db;
      LeadsConcat(p4, p5 + rest);
      var skip := Settle("skip-permissions", "skip_permissions published", Flag(s.skipPermissions), tmux);
      if skip.Err? { return Err(skip.error); }
      ghost var db2 := redis.db;
      LeadsConcat(p5, rest);
      var tools := Settle("claude-tools", "claude_tools published", s.tools, tmux);
      if tools.Err? { return Err(tools.error); }
      OthersAt(who, db0, db1, if s.resume.Some? then {"resume"} else {}, "skip-permissions");
      OthersAt(who, db0, db1, if s.resume.Some? then {"resume"} else {}, "claude-tools");
      OthersAt(who, db1, db2, if s.skipPermissions.Some? then {"skip-permissions"} else {}, "claude-tools");
      r := Ok(resume.value || skip.value || tools.value);
    }

    /** The last command: after it the agent is a member. */
    method Publish(what: string, e: Effect) returns (r: Result<bool, Verdict>)
      requires Settled() && todo == [Write(what, e)]
      modifies this, redis
      ensures Sound() && plan == old(plan) && who == old(who) && states[0] == old(states[0])
      ensures r.Err? ==> Halted(r.error)
      ensures r.Ok? ==>
        && Settled() && todo == []
        && r.value == (e.PublishLead? && Vacant(Text(old(redis.db), who.Lead())))
    {
      hide Effects, Labels, Did, Text, Who.Valid, Who.Key, Trace;
      var wrote := WriteDesired(what, e);
      if wrote.Err? { return Err(Incomplete(committed)); }
      r := Ok(wrote.value);
    }
  
    /** start_agent: `replaceFails` says whether replacing a stale window would raise. */
    method Start(envelope: JVal, accounts: Accounts, replaceFails: bool) returns (v: Verdict)
      requires IsSegment(pod) && IsSegment(tenant)
      modifies this, redis
      ensures Validate(envelope, accounts).Err? ==>
        v == Turned(Validate(envelope, accounts).error) && redis.db == old(redis.db)
      ensures Validate(envelope, accounts).Ok? ==>
        var q := Validate(envelope, accounts).value;
        && Sound() && states[0] == old(redis.db)
        && who == WhoOf(q)
        && plan == Plan(enc, q, Field(old(redis.db), who.Registry(), who.agent), envelope)
        && !v.Turned?
        && (v.ReadFailed? || v.Incomplete? ==> Halted(v))
        && (v.ReplaceUnknown? || v.Accepted? ==> Settled() && todo == [])
        && (v.ReplaceUnknown? || v.Accepted? ==>
              PayloadOf(envelope).Some? && StartLeaves.Follows(who, enc, PayloadOf(envelope).value, old(redis.db), redis.db))
        && (v.ReplaceUnknown? ==> v.acks == committed && replaceFails && Stale(who, q, old(redis.db)))
        && (v.Accepted? ==> v.replaced == Stale(who, q, old(redis.db)))
        && (v.Accepted? ==> v.claimed == (q.TmuxRequest? && Vacant(Text(old(redis.db), who.Lead()))))
    {
      hide Validate, ApiPlan, TmuxPlan, Trace, Effects, Labels, Stale, Text, Field, Who.Registry, Who.Lead, IsSegment,
        Cause, Settled, Sound, StartLeaves.Follows, PayloadOf;
      var valid := Validate(envelope, accounts);
      if valid.Err? { return Turned(valid.error); }
      Begin(valid.value, envelope);
      ApiIsNeverStale(who, valid.value, redis.db);
      if valid.value.ApiRequest? {
        v := StartApi(valid.value);
      } else {
        v := StartTmux(valid.value, envelope, replaceFails);
      }
      assert Settled() ==> Sound();
      if Settled() && todo == [] { DoneFollows(envelope, accounts, valid.value, Field(old(redis.db), who.Registry(), who.agent)); }
    }

    /** With nothing left to do, the database is what the payload asks for. */
    lemma DoneFollows(envelope: JVal, accounts: Accounts, q: Request, existing: Option<string>)
      requires Settled() && todo == [] && Validate(envelope, accounts) == Ok(q) && who == WhoOf(q)
      requires plan == Plan(enc, q, existing, envelope)
      ensures PayloadOf(envelope).Some? && StartLeaves.Follows(who, enc, PayloadOf(envelope).value, states[0], redis.db)
    {
      hide Validate, Plan, Effects, Labels, Trace, StartLeaves.Follows, PayloadOf;
      assert past + todo == past;
      StartLeaves.DoneFollows(who, enc, envelope, accounts, q, existing, states);
    }

    function WhoOf(q: Request): Who {
      Who(pod, tenant, q.agent, if q.ApiRequest? then "api" else "tmux", newId)
    }

    method Begin(q: Request, envelope: JVal)
      requires IsSegment(pod) && IsSegment(tenant) && IsSegment(q.agent)
      modifies this
      ensures Settled() && who == WhoOf(q) && states == [redis.db] && past == [] && todo == plan
      ensures plan == Plan(enc, q, Field(redis.db, who.Registry(), who.agent), envelope)
    {
      who := WhoOf(q);
      committed := [];
      plan := Plan(enc, q, Field(redis.db, who.Registry(), who.agent), envelope);
      past, todo, states := [], plan, [redis.db];
    }

    method StartApi(q: Request) returns (v: Verdict)
      requires q.ApiRequest? && Settled() && who == WhoOf(q) && todo == plan == ApiPlan(enc, q)
      modifies this, redis
      ensures Sound() && plan == old(plan) && who == old(who) && states[0] == old(states[0])
      ensures v.Accepted? || v.ReadFailed? || v.Incomplete?
      ensures v.Accepted? ==> v == Accepted(false, false) && Settled() && todo == []
      ensures !v.Accepted? ==> Halted(v)
    {
      hide Effects, Labels, Did, Text, Who.Valid, Who.Key, Trace, Settled, PolicyCommands;
      ghost var publish := [Write("registry row published", PublishMember)];
      ghost var policy := PolicyCommands(enc, q.policy);
      ghost var key := if q.key.None? then [] else
        [Write("hmac key '" + q.key.value.0 + "' published", SetField("hmac-keys", q.key.value.0, enc.key(q.key.value.1)))];
      if q.revoke.Some? {
        assert todo[0] == Write("hmac key '" + q.revoke.value + "' revoked", DelField("hmac-keys", q.revoke.value));
        assert todo[1..] == key + (policy + publish);
        var revoked := WriteDesired("hmac key '" + q.revoke.value + "' revoked", DelField("hmac-keys", q.revoke.value));
        if revoked.Err? { return Incomplete(committed); }
      }
      assert todo == key + (policy + publish);
      if q.key.Some? {
        assert todo[0] == key[0] && todo[1..] == policy + publish;
        var published := WriteDesired("hmac key '" + q.key.value.0 + "' published",
                                      SetField("hmac-keys", q.key.value.0, enc.key(q.key.value.1)));
        if published.Err? { return Incomplete(committed); }
      }
      assert todo == policy + publish;
      LeadsConcat(policy, publish);
      var applied := ApplyPolicy(q.policy);
      if applied.Err? { return applied.error; }
      var done := Publish("registry row published", PublishMember);
      if done.Err? { return done.error; }
      v := Accepted(false, false);
    }
  
    method StartTmux(q: Request, envelope: JVal, replaceFails: bool) returns (v: Verdict)
      requires q.TmuxRequest? && Settled() && who == WhoOf(q) && past == [] && states == [redis.db]
      requires todo == plan == Plan(enc, q, Field(redis.db, who.Registry(), who.agent), envelope)
      modifies this, redis
      ensures Sound() && plan == old(plan) && who == old(who) && states[0] == old(states[0])
      ensures !v.Turned?
      ensures v.ReadFailed? || v.Incomplete? ==> Halted(v)
      ensures v.ReplaceUnknown? || v.Accepted? ==> Settled() && todo == []
      ensures v.ReplaceUnknown? ==> v.acks == committed && replaceFails && Stale(who, q, old(redis.db))
      ensures v.Accepted? ==> v.replaced == Stale(who, q, old(redis.db)) && v.claimed == Vacant(Text(old(redis.db), who.Lead()))
    {
      hide Effects, Labels, Did, Text, Field, Who.Valid, Who.Key, Who.Lead, Who.Registry, Trace, Settled, Sound,
        PolicyCommands, Setting, OthersSame, Flag;
      ghost var db0 := redis.db;
      ghost var s := q.settings;
      ghost var existing0 := Field(redis.db, who.Registry(), who.agent);
      ghost var tmux0 := existing0 == Some("tmux");
      ghost var cause0 := Cause(envelope, existing0);
      ghost var publish := [Write("lead and registry row published", PublishLead(cause0))];
      ghost var policy := PolicyCommands(enc, q.policy);
      ghost var rest := AfterLaunch(enc, q, tmux0, cause0);
      assert todo[0] == LookUpPort;
      ghost var identity := todo[1..];
      var existing := LookUp();
      if existing.Err? { return existing.error; }
      var tmux := existing.value == Some("tmux");
      var cause := Cause(envelope, existing.value);
      var changed := SettleIdentity(q.settings, tmux, rest);
      if changed.Err? { return changed.error; }
      ghost var db1 := redis.db;
      var flags := SettleFlags(q.settings, tmux, policy + publish);
      if flags.Err? { return flags.error; }
      OthersAt(who, db0, db1, {"profile", "provider", "launch"}, "resume");
      OthersAt(who, db0, db1, {"profile", "provider", "launch"}, "skip-permissions");
      OthersAt(who, db0, db1, {"profile", "provider", "launch"}, "claude-tools");
      LeadsConcat(policy, publish);
      var applied := ApplyPolicy(q.policy);
      if applied.Err? { return applied.error; }
      LeadUnmoved(q, tmux, cause);
      var claimed := Publish("lead and registry row published", PublishLead(cause));
      if claimed.Err? { return claimed.error; }
      StaleIs(who, q, db0, changed.value, flags.value);
      if (changed.value || flags.value) && replaceFails { return ReplaceUnknown(committed); }
      v := Accepted(claimed.value, changed.value || flags.value);
    }

    ghost predicate Retired(before: Store, after: Store, agent: string) {
      KeysOf(pod, tenant, agent).Withdrawn(before, after, agent)
    }

    /**
     stop_agent: what a rejection leaves untouched, a script whose outcome is unknown either did
     completely or not at all, and an acceptance did completely.
     */
    method Stop(envelope: JVal, killFails: bool) returns (v: Verdict)
      requires IsSegment(pod) && IsSegment(tenant)
      modifies this`issued, redis
      ensures v.Turned? <==> Stoppable(envelope).None?
      ensures v.Turned? || v.ReadFailed? ==> redis.db == old(redis.db)
      ensures v.ReadFailed? ==> replies(old(issued)) != Answered || !Hashy(old(redis.db), TenantKey(pod, tenant, "registry"))
      ensures v.Incomplete? ==>
        replies(old(issued) + 1) != Answered || !KeysOf(pod, tenant, Stoppable(envelope).value).Preflight(old(redis.db))
      ensures v.Incomplete? ==>
        v.acks == [] && (redis.db == old(redis.db) || Retired(old(redis.db), redis.db, Stoppable(envelope).value))
      ensures v.ReplaceUnknown? || v.Accepted? ==> Retired(old(redis.db), redis.db, Stoppable(envelope).value)
      ensures v.ReplaceUnknown? ==>
        killFails && Field(old(redis.db), TenantKey(pod, tenant, "registry"), Stoppable(envelope).value) != Some("api")
    {
      hide IsSegment, KeysOf, RetireKeys.Withdrawn, RetireKeys.Preflight, RetireKeys.Distinct, Field, TenantKey;
      var target := Stoppable(envelope);
      if target.None? { return Turned(Rejection); }
      var agent := target.value;
      StoppableIsSegment(envelope);
      var reply := NextReply();
      var portType := HGet(redis.db, TenantKey(pod, tenant, "registry"), agent);
      if reply != Answered || portType.Err? { return ReadFailed([]); }
      reply := NextReply();
      if reply == Unexecuted { return Incomplete([]); }
      KeysNeverAlias(pod, tenant, agent);
      var done := redis.Retire(KeysOf(pod, tenant, agent), agent);
      if done.Err? || reply == Lost { return Incomplete([]); }
      if portType.value != Some("api") && killFails { return ReplaceUnknown(["registry row removed and owned lead cleared"]); }
      v := Accepted(false, false);
    }

    /** Nothing before the last command moves the lead. */
    lemma LeadUnmoved(q: Request, tmux: bool, cause: string)
      requires q.TmuxRequest? && Settled() && plan == TmuxPlan(enc, q, tmux, cause)
      requires todo == [Write("lead and registry row published", PublishLead(cause))]
      ensures Text(redis.db, who.Lead()) == Text(states[0], who.Lead())
    {
      hide Effects, Labels, Did, Text, Who.Valid, Who.Lead, LaunchEffects, TmuxPlan, Desires, DESIRED, Fields;
      EffectsNext(past, todo);
      PublishIsLast(enc, q, tmux, cause);
      TmuxEffectsAreKnown(enc, q, cause);
      RegistryQuiet(who, Effects(plan), states, |states| - 1);
    }
  }

  lemma ApiIsNeverStale(w: Who, q: Request, before: Store)
    ensures q.ApiRequest? ==> !Stale(w, q, before)
  {
  }

  /** The changes found on the way are exactly the staleness at the start. */
  lemma StaleIs(w: Who, q: Request, before: Store, identity: bool, flags: bool)
    requires q.TmuxRequest?
    requires identity == (Field(before, w.Registry(), w.agent) == Some("tmux")
      && (Text(before, w.Key("launch")) != Some(q.settings.cli)
        || (q.settings.profile.Some? && Text(before, w.Key("profile")) != q.settings.profile)
        || (q.settings.provider.Some? && Text(before, w.Key("provider")) != q.settings.provider)))
    requires flags == (Field(before, w.Registry(), w.agent) == Some("tmux")
      && ((q.settings.resume.Some? && Text(before, w.Key("resume")) != Flag(q.settings.resume))
        || (q.settings.skipPermissions.Some? && Text(before, w.Key("skip-permissions")) != Flag(q.settings.skipPermissions))
        || (q.settings.tools.Some? && Text(before, w.Key("claude-tools")) != q.settings.tools)))
    ensures (identity || flags) == Stale(w, q, before)
  {
    hide Text, Field, Flag, Who.Key, Who.Registry;
  }

  lemma OthersGrow(w: Who, a: Store, b: Store, x: set<string>, y: set<string>)
    requires OthersSame(w, a, b, x) && x <= y
    ensures OthersSame(w, a, b, y)
  {
  }

  lemma OthersChain(w: Who, a: Store, b: Store, c: Store, x: set<string>, y: set<string>)
    requires OthersSame(w, a, b, x) && OthersSame(w, b, c, y)
    ensures OthersSame(w, a, c, x + y)
  {
    hide DESIRED, Text, Who.Key;
  }

  lemma OthersAt(w: Who, a: Store, b: Store, written: set<string>, r: string)
    requires OthersSame(w, a, b, written) && r in DESIRED && r !in written
    ensures Text(b, w.Key(r)) == Text(a, w.Key(r))
  {
  }

  lemma SameOthers(w: Who, db: Store)
    ensures OthersSame(w, db, db, {})
  {
  }
}
