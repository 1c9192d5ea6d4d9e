/**
 The switch's handling of one popped frame (h-app/core/service.py) against a Redis that may answer,
 refuse a command before running it, or run it and lose the reply, while other clients change the
 database between any two commands. A popped frame exists only in this process, so each outcome
 decides where it ends.
 */
module Switching {
  import opened Prelude
  import opened Keys
  import opened RedisStore
  import opened Scripts
  import opened Retirement
  import E = Envelope
  import opened Splice

  // ---- which errors are transient ----

  datatype Exc =
    | BusyLoading | ReadOnly | TryAgain | MasterDown | Authentication | ConnectionLost | TimedOut
    | ResponseError(text: string) // exactly that class, not a subclass
    | OtherError

  datatype Category = Busy | Loading | Readonly | Tryagain | Masterdown | Connection | Timeout

  function FirstWord(t: string): string {
    if t == "" || t[0] == ' ' then "" else [t[0]] + FirstWord(t[1..])
  }

  function Upper(t: string): (u: string)
    ensures |u| == |t|
  {
    seq(|t|, i requires 0 <= i < |t| => if 'a' <= t[i] <= 'z' then (t[i] as int - 32) as char else t[i])
  }

  function CodeCategory(code: string): Option<Category> {
    if code == "BUSY" then Some(Busy)
    else if code == "LOADING" then Some(Loading)
    else if code == "READONLY" then Some(Readonly)
    else if code == "TRYAGAIN" then Some(Tryagain)
    else if code == "MASTERDOWN" then Some(Masterdown)
    else None
  }

  /** transient_redis_category */
  function CategoryOf(e: Exc): Option<Category> {
    match e
    case BusyLoading => Some(Loading)
    case ReadOnly => Some(Readonly)
    case TryAgain => Some(Tryagain)
    case MasterDown => Some(Masterdown)
    case Authentication => None
    case ConnectionLost => Some(Connection)
    case TimedOut => Some(Timeout)
    case ResponseError(text) => CodeCategory(Upper(FirstWord(text)))
    case OtherError => None
  }

  const REJECTION_CODES: set<string> := {"BUSY", "LOADING", "READONLY", "TRYAGAIN", "MASTERDOWN"}

  /** What a Redis server answers instead of running a command, in the client's exceptions. */
  predicate RefusedByServer(e: Exc) {
    e.BusyLoading? || e.ReadOnly? || e.TryAgain? || e.MasterDown? || (e.ResponseError? && Upper(FirstWord(e.text)) in REJECTION_CODES)
  }

  /** The links on which a command may have run without an answer. */
  predicate LinkFailed(e: Exc) { e.ConnectionLost? || e.TimedOut? }

  /** REJECTED_BEFORE_EXECUTION */
  predicate Rejected(c: Category) { !c.Connection? && !c.Timeout? }

  predicate ProvablyRejected(e: Exc) { CategoryOf(e).Some? && Rejected(CategoryOf(e).value) }

  /** What one command brings back: its answer, or an exception, the command having run or not. */
  datatype Reply = Answered | Failed(exc: Exc, executed: bool)

  /** The one assumption about Redis: what its server refuses, it has not run. */
  ghost predicate Honest(replies: nat -> Reply) {
    forall n :: replies(n).Failed? && RefusedByServer(replies(n).exc) ==> !replies(n).executed
  }

  /**
   The categories retried on a write are exactly the server's refusals, and a transient error is one of these
   or a failed link.
   */
  lemma RejectionsExactly(e: Exc)
    ensures ProvablyRejected(e) <==> RefusedByServer(e)
    ensures CategoryOf(e).Some? <==> RefusedByServer(e) || LinkFailed(e)
  {
    hide FirstWord, Upper;
  }

  // ---- the commands of a forward, and what they write ----

  /** Why a frame is dead-lettered. */
  datatype Why =
    | Unforwardable                     // malformed, out of hops, or ttl spent
    | NotRegistered
    | QueueFull(at: nat, agent: string) // that agent's ingress, as the at-th command found it
    | GaveUp(from: nat)                 // every attempt from that command on was refused

  datatype Op =
    | ReadTypes
    | ReadType(agent: string)
    | AdmitTo(agents: seq<string>, raw: Raw)
    | AdmitNotice(agent: string, raw: Raw)
    | PushDead(agent: string, raw: Raw, why: Why)
  {
    predicate IsRead() { ReadTypes? || ReadType? }

    function Named(): seq<string> { if AdmitTo? then agents else [] }
  }

  datatype Value = Types(types: map<string, string>) | PortType(portType: Option<string>) | Answer(admission: Admission) | Pushed

  /** _retrying either gives up on a provably unexecuted command, or lets an exception through. */
  datatype Failure = Exhausted(category: Category, cause: Exc) | Raised(exc: Exc)

  /** A write that was executed, and the number of the command that executed it. */
  datatype Write = Write(op: Op, at: nat)

  predicate WroteAt(writes: seq<Write>, n: nat) { exists i :: 0 <= i < |writes| && writes[i].at == n }

  /** The writes are in the order of their commands, all among the first `n`. */
  predicate Ascending(writes: seq<Write>, n: nat) {
    && (forall i :: 0 <= i < |writes| ==> writes[i].at < n)
    && (forall i, j :: 0 <= i < j < |writes| ==> writes[i].at < writes[j].at)
  }

  datatype Place = Place(pod: string, tenant: string) {
    predicate Valid() { IsSegment(pod) && IsSegment(tenant) }

    function Ingress(agent: string): Key { AgentKey(pod, tenant, agent, "ingress") }

    function Dead(agent: string): Key { AgentKey(pod, tenant, agent, "dead") }

    function Registry(): Key { TenantKey(pod, tenant, "registry") }

    function Ingresses(agents: seq<string>): seq<Key> {
      seq(|agents|, i requires 0 <= i < |agents| => Ingress(agents[i]))
    }

    /** What an executed write does to the database, all of it. */
    ghost predicate Effect(op: Op, before: Store, after: Store) {
      match op
      case AdmitTo(agents, raw) => AllSegments(agents) && Grown(before, after, Frame(raw), Ingresses(agents))
      case AdmitNotice(agent, raw) => Grown(before, after, Frame(raw), Ingresses([agent]))
      case PushDead(agent, raw, _) => OneMore(Dead(agent), Frame(raw), before, after) && SameExcept(after, before, {Dead(agent)})
      case _ => false
    }

    /** Some key the switch uses holds a value of another type. */
    ghost predicate Damaged(db: Store) {
      !Hashy(db, Registry()) || exists agent :: !Listy(db, Ingress(agent)) || !Listy(db, Dead(agent))
    }

    /**
     The n-th command found found(n) and left left[n]: each logged write is what its own command
     did, and a command with no logged write changed nothing.
     */
    ghost predicate Chronicle(found: nat -> Store, left: seq<Store>, placed: seq<Write>, notices: seq<Write>) {
      && Ascending(placed, |left|) && Ascending(notices, |left|)
      && (forall i :: 0 <= i < |placed| ==> Effect(placed[i].op, found(placed[i].at), left[placed[i].at]))
      && (forall i :: 0 <= i < |notices| ==> Effect(notices[i].op, found(notices[i].at), left[notices[i].at]))
      && (forall n :: 0 <= n < |left| && !WroteAt(placed, n) && !WroteAt(notices, n) ==> left[n] == found(n))
    }

    lemma ChronicleGrows(found: nat -> Store, left: seq<Store>, placed: seq<Write>, notices: seq<Write>, op: Op,
        wrote: bool, db: Store)
      requires Chronicle(found, left, placed, notices)
      requires if wrote then Effect(op, found(|left|), db) else db == found(|left|)
      ensures !wrote ==> Chronicle(found, left + [db], placed, notices)
      ensures wrote ==> Chronicle(found, left + [db], placed + [Write(op, |left|)], notices)
      ensures wrote ==> Chronicle(found, left + [db], placed, notices + [Write(op, |left|)])
    {
      hide Effect;
      if wrote {
        WroteMore(placed, op, |left|);
        WroteMore(notices, op, |left|);
      }
    }
  }

  lemma WroteMore(writes: seq<Write>, op: Op, at: nat)
    ensures WroteAt(writes + [Write(op, at)], at)
    ensures forall n: nat :: WroteAt(writes, n) ==> WroteAt(writes + [Write(op, at)], n)
  {
    var more := writes + [Write(op, at)];
    assert more[|writes|].at == at;
    forall n: nat | WroteAt(writes, n) ensures WroteAt(more, n) {
      var i :| 0 <= i < |writes| && writes[i].at == n;
      assert more[i].at == n;
    }
  }

  /** The list has one element more, at its end. */
  predicate OneMore(key: Key, x: Item, before: Store, after: Store) { Items(after, key) == Items(before, key) + [x] }

  /** What one more command adds to the two logs: its write, if it wrote, and nothing else. */
  predicate Logged(op: Op, wrote: bool, issued: nat, placed: seq<Write>, notices: seq<Write>, placedNow: seq<Write>,
      noticesNow: seq<Write>) {
    if !wrote then placedNow == placed && noticesNow == notices
    else if issued == 0 then false
    else if op.AdmitNotice? then placedNow == placed && noticesNow == notices + [Write(op, issued - 1)]
    else placedNow == placed + [Write(op, issued - 1)] && noticesNow == notices
  }

  lemma NothingLogged(op: Op, issued: nat, placed: seq<Write>, notices: seq<Write>)
    ensures Logged(op, false, issued, placed, notices, placed, notices)
  {
  }

  lemma NotLogged(op: Op, wrote: bool, issued: nat, placed: seq<Write>, notices: seq<Write>, placedNow: seq<Write>,
                  noticesNow: seq<Write>)
    requires Logged(op, wrote, issued, placed, notices, placedNow, noticesNow)
    ensures !wrote ==> placedNow == placed && noticesNow == notices
  {
  }

  /** At most the one notice to the sender was written. */
  predicate NotedOnce(sender: string, notice: Raw, from: nat, notices: seq<Write>, noticesNow: seq<Write>) {
    || noticesNow == notices
    || (&& |noticesNow| == |notices| + 1 && noticesNow[..|notices|] == notices
        && noticesNow[|notices|].op == AdmitNotice(sender, notice) && from <= noticesNow[|notices|].at)
  }

  predicate Distinct(names: seq<string>) { forall i, j :: 0 <= i < j < |names| ==> names[i] != names[j] }

  lemma {:induction false} CountInDistinct(keys: seq<Key>, i: nat)
    requires i < |keys| && forall a, b :: 0 <= a < b < |keys| ==> keys[a] != keys[b]
    ensures multiset(keys)[keys[i]] == 1
  {
    assert keys == keys[..i] + [keys[i]] + keys[i + 1..];
    assert keys[i] !in multiset(keys[..i]) && keys[i] !in multiset(keys[i + 1..]);
  }

  /** An admission to distinct agents puts exactly one copy at the end of each one's ingress. */
  lemma OneCopyEach(place: Place, agents: seq<string>, raw: Raw, before: Store, after: Store, i: nat)
    requires place.Valid() && place.Effect(AdmitTo(agents, raw), before, after)
    requires Distinct(agents) && i < |agents|
    ensures OneMore(place.Ingress(agents[i]), Frame(raw), before, after)
  {
    hide IsSegment, AgentKey, Items;
    var keys := place.Ingresses(agents);
    forall a, b | 0 <= a < b < |keys| ensures keys[a] != keys[b] {
      IngressesApart(place, agents[a], agents[b]);
    }
    CountInDistinct(keys, i);
    assert Copies(Frame(raw), 1) == [Frame(raw)];
    assert keys[i] == place.Ingress(agents[i]);
  }

  lemma IngressesApart(place: Place, a: string, b: string)
    requires place.Valid() && IsSegment(a) && IsSegment(b) && a != b
    ensures place.Ingress(a) != place.Ingress(b)
  {
    hide IsSegment, IsResource, Coordinates.Parts;
    AgentResources();
    KeysApart(
      Coordinates(place.pod, place.tenant, Some(a), Some("ingress")), Coordinates(place.pod, place.tenant, Some(b), Some("ingress")));
  }

  /** A set of names as a sequence, each once; the switch sorts them. */
  method Listing(names: set<string>) returns (s: seq<string>)
    ensures Distinct(s) && (forall x :: x in s <==> x in names)
  {
    s := [];
    var rest := names;
    while rest != {}
      invariant rest <= names && Distinct(s)
      invariant forall x :: x in s <==> x in names && x !in rest
      decreases |rest|
    {
      var x :| x in rest;
      s, rest := s + [x], rest - {x};
    }
  }

  /** The two frames agree everywhere but in the source and counter fields. */
  predicate SameFrame(a: Raw, b: Raw) {
    && |a| == |b|
    && forall i :: 0 <= i < |b| && !(E.SOURCE_START <= i < E.DESTINATION_START) && !(E.TTL_START <= i < E.RESERVED_START) ==> a[i] == b[i]
  }

  class Switch {
    const place: Place
    const limit: nat           // ingress_max
    const attempts: nat        // frame_retry_attempts
    const hasKick: bool
    const redis: Redis
    const replies: nat -> Reply
    const others: nat -> Store // the database other clients have left by the time of the n-th command
    var issued: nat
    var unknown: map<Option<Category>, nat>
    var kicked: seq<string>
    ghost var left: seq<Store>            // the database just after each command
    ghost var placed: seq<Write>          // executed writes of popped frames
    ghost var notices: seq<Write>         // executed writes of the switch's own notices

    constructor (place: Place, limit: nat, attempts: nat, hasKick: bool, redis: Redis, replies: nat -> Reply,
        others: nat -> Store)
      requires place.Valid() && limit >= 1 && attempts >= 1 && Honest(replies)
      ensures Valid() && this.place == place && this.redis == redis && left == [] && placed == [] && notices == []
    {
      this.place, this.limit, this.attempts, this.hasKick, this.redis := place, limit, attempts, hasKick, redis;
      this.replies, this.others, issued := replies, others, 0;
      unknown, kicked, left, placed, notices := map[], [], [], [], [];
    }

    ghost predicate Valid()
      reads this, redis
    {
      && place.Valid() && limit >= 1 && attempts >= 1 && Honest(replies)
      && |left| == issued && (issued > 0 ==> redis.db == left[issued - 1])
      && place.Chronicle(others, left, placed, notices)
    }

    /** The command was carried out on `db`, answered `v`, and wrote or did not. */
    ghost predicate Told(op: Op, v: Value, db: Store, wrote: bool) {
      match op
      case ReadTypes => v == Types(Fields(db, place.Registry()))
      case ReadType(agent) => v == PortType(Field(db, place.Registry(), agent))
      case AdmitTo(agents, _) =>
        && v.Answer? && (v.admission.Admitted? <==> wrote)
        && (v.admission.Full? ==> v.admission.index < |agents| && AtBound(agents[v.admission.index], db))
      case AdmitNotice(_, _) => v.Answer? && (v.admission.Admitted? <==> wrote)
      case PushDead(_, _, _) => v.Pushed? && wrote
    }

    /** That agent's ingress is at its bound. */
    ghost predicate AtBound(agent: string, db: Store) { |Items(db, place.Ingress(agent))| >= limit }

    /** Run the command on the database as it stands; a wrong-typed key is a plain response error. */
    method Perform(op: Op) returns (r: Result<Value, Exc>, ghost wrote: bool)
      requires op.AdmitTo? ==> AllSegments(op.agents)
      modifies redis
      ensures if wrote then place.Effect(op, old(redis.db), redis.db) else redis.db == old(redis.db)
      ensures r.Ok? ==> Told(op, r.value, old(redis.db), wrote)
      ensures op.IsRead() ==> !wrote
      ensures r.Err? ==> !wrote && r.error == ResponseError("WRONGTYPE") && place.Damaged(old(redis.db))
    {
      hide Grown, SameExcept, AllOpen, Items, Fields, Listy, Hashy, AgentKey, TenantKey, PutItems, AllSegments;
      ghost var before := redis.db;
      wrote := false;
      match op
      case ReadTypes =>
        if !Hashy(redis.db, place.Registry()) { return Err(ResponseError("WRONGTYPE")), false; }
        r := Ok(Types(Fields(redis.db, place.Registry())));
      case ReadType(agent) =>
        var field := HGet(redis.db, place.Registry(), agent);
        if field.Err? { return Err(ResponseError("WRONGTYPE")), false; }
        r := Ok(PortType(field.value));
      case AdmitTo(agents, raw) =>
        var answer := redis.Admit(place.Ingresses(agents), limit, Frame(raw));
        if answer.Err? { return Err(ResponseError("WRONGTYPE")), false; }
        wrote := answer.value.Admitted?;
        r := Ok(Answer(answer.value));
      case AdmitNotice(agent, raw) =>
        var answer := redis.Admit(place.Ingresses([agent]), limit, Frame(raw));
        if answer.Err? { return Err(ResponseError("WRONGTYPE")), false; }
        wrote := answer.value.Admitted?;
        r := Ok(Answer(answer.value));
      case PushDead(agent, raw, why) =>
        var after := RPush(redis.db, place.Dead(agent), Frame(raw));
        if after.Err? { return Err(ResponseError("WRONGTYPE")), false; }
        redis.db := after.value;
        wrote := true;
        r := Ok(Pushed);
    }

    /** One command: others act first, then it is refused, run with its reply lost, or answered. */
    method Issue(op: Op) returns (r: Result<Value, Exc>, ghost wrote: bool)
      requires Valid() && (op.AdmitTo? ==> AllSegments(op.agents))
      modifies this, redis
      ensures Valid() && issued == old(issued) + 1 && old(left) <= left && unknown == old(unknown) && kicked == old(kicked)
      ensures Logged(op, wrote, issued, old(placed), old(notices), placed, notices)
      ensures r.Ok? ==> Told(op, r.value, others(old(issued)), wrote)
      ensures r.Err? ==> Lost(r.error, old(issued)) || Raises(old(issued), r.error)
      ensures wrote && replies(old(issued)).Answered? ==> r.Ok?
      ensures op.IsRead() || (r.Err? && ProvablyRejected(r.error)) ==> !wrote
    {
      DefectsAreFinal();
      hide Told, AllSegments, CategoryOf, Rejected, RefusedByServer, Honest, Place.Chronicle, Place.Damaged, Place.Effect;
      var reply := replies(issued);
      if reply.Failed? {
        RejectionsExactly(reply.exc);
        if RefusedByServer(reply.exc) { HonestAt(replies, issued); }
      }
      redis.db := others(issued);
      wrote := false;
      if reply.Failed? && !reply.executed {
        r := Err(reply.exc);
      } else {
        r, wrote := Perform(op);
        if r.Ok? && reply.Failed? { r := Err(reply.exc); }
      }
      issued := issued + 1;
      Record(op, wrote);
    }

    /** Keep the history: the database as the command left it, and its write. */
    ghost method Record(op: Op, wrote: bool)
      requires place.Valid() && limit >= 1 && attempts >= 1 && Honest(replies) && issued == |left| + 1
      requires place.Chronicle(others, left, placed, notices)
      requires if wrote then place.Effect(op, others(|left|), redis.db) else redis.db == others(|left|)
      modifies this`left, this`placed, this`notices
      ensures Valid() && old(left) <= left && Logged(op, wrote, issued, old(placed), old(notices), placed, notices)
    {
      hide Honest, Place.Effect, Place.Chronicle;
      place.ChronicleGrows(others, left, placed, notices, op, wrote, redis.db);
      left := left + [redis.db];
      if wrote {
        if op.AdmitNotice? { notices := notices + [Write(op, issued - 1)]; } else { placed := placed + [Write(op, issued - 1)]; }
      }
    }

    /** A name that is no segment makes no key, so prefix() raises before any command. */
    method Execute(op: Op) returns (r: Result<Value, Exc>, ghost wrote: bool)
      requires Valid()
      modifies this, redis
      ensures Valid() && old(issued) <= issued <= old(issued) + 1
      ensures old(left) <= left && unknown == old(unknown) && kicked == old(kicked)
      ensures !op.AdmitTo? || wrote ==> issued == old(issued) + 1
      ensures Logged(op, wrote, issued, old(placed), old(notices), placed, notices)
      ensures r.Err? ==> Caused(r.error, old(issued), issued, op.Named())
      ensures r.Ok? ==> issued == old(issued) + 1 && Told(op, r.value, others(old(issued)), wrote)
      ensures wrote && replies(old(issued)).Answered? ==> r.Ok?
      ensures op.IsRead() || (r.Err? && ProvablyRejected(r.error)) ==> !wrote
      ensures r.Err? && CategoryOf(r.error).Some? ==> issued == old(issued) + 1 && Refused(old(issued))
    {
      DefectsAreFinal();
      hide Told, AllSegments, CategoryOf, Rejected, RefusedByServer, Honest, Place.Chronicle, Place.Damaged, Logged;
      if op.AdmitTo? && !AllSegments(op.agents) {
        NothingLogged(op, issued, placed, notices);
        return Err(OtherError), false;
      }
      r, wrote := Issue(op);
    }

    /** The n-th command met a database in which a key has another type. */
    ghost predicate Lost(exc: Exc, n: nat) { exc == ResponseError("WRONGTYPE") && place.Damaged(others(n)) }

    ghost predicate Raises(n: nat, exc: Exc) { replies(n).Failed? && replies(n).exc == exc }

    /** Some command in this range raised it, or met a wrong-typed key, or one of the names is no segment. */
    ghost predicate Caused(exc: Exc, from: nat, to: nat, names: seq<string>) {
      || (exc == OtherError && !AllSegments(names))
      || exists n :: from <= n < to && (Lost(exc, n) || Raises(n, exc))
    }

    lemma CausedWithin(exc: Exc, from: nat, wider: nat, to: nat, names: seq<string>)
      requires Caused(exc, from, to, names) && wider <= from
      ensures Caused(exc, wider, to, names)
    {
      hide AllSegments;
    }

    lemma OneSegment(name: string)
      requires IsSegment(name)
      ensures AllSegments([name])
    {
    }

    lemma NamesAreFine(exc: Exc, from: nat, to: nat, names: seq<string>)
      requires Caused(exc, from, to, names) && AllSegments(names)
      ensures Caused(exc, from, to, [])
    {
    }

    /** The n-th command met a transient error. */
    ghost predicate Refused(n: nat) { replies(n).Failed? && CategoryOf(replies(n).exc).Some? }

    /** The last `attempts` commands up to `end` all did. */
    ghost predicate Refusals(end: nat) { attempts <= end && AllRefused(end - attempts, end) }

    ghost predicate AllRefused(from: nat, to: nat) { forall n :: from <= n < to ==> Refused(n) }

    lemma OneMoreRefused(from: nat, to: nat)
      requires AllRefused(from, to) && Refused(to)
      ensures AllRefused(from, to + 1)
    {
    }

    /** _retrying: a command that may have run is never repeated. */
    method Retrying(op: Op, idempotent: bool) returns (r: Result<Value, Failure>, ghost wrote: bool)
      requires Valid() && (idempotent ==> op.IsRead())
      modifies this, redis
      ensures Valid() && old(issued) <= issued <= old(issued) + attempts && old(left) <= left
      ensures unknown == old(unknown) && kicked == old(kicked)
      ensures Logged(op, wrote, issued, old(placed), old(notices), placed, notices)
      ensures wrote ==> old(issued) < issued && !op.IsRead()
      ensures r.Err? ==> Caused(ExcOf(r.error), old(issued), issued, op.Named())
      ensures r.Ok? ==> old(issued) < issued && Told(op, r.value, others(issued - 1), wrote)
      ensures r.Err? && r.error.Exhausted? ==> !wrote && CategoryOf(r.error.cause) == Some(r.error.category)
      ensures r.Err? && r.error.Exhausted? ==> Rejected(r.error.category) || idempotent
      ensures r.Err? && r.error.Exhausted? ==> issued == old(issued) + attempts && Refusals(issued)
      ensures r.Err? && r.error.Raised? ==> !ProvablyRejected(r.error.exc) && (idempotent ==> CategoryOf(r.error.exc) == None)
    {
      assert AllRefused(issued, issued);
      hide Told, Honest, Place.Chronicle, Caused, Raises, Refused, AllRefused, CategoryOf, Op.Named, Op.IsRead, Rejected, Logged;
      var attempt := 1;
      wrote := false;
      while attempt <= attempts
        invariant 1 <= attempt <= attempts
        invariant Valid() && old(left) <= left && unknown == old(unknown) && kicked == old(kicked)
        invariant issued == old(issued) + attempt - 1 && AllRefused(old(issued), issued)
        invariant placed == old(placed) && notices == old(notices)
        decreases attempts - attempt
      {
        ghost var from := issued;
        var answer;
        answer, wrote := Execute(op);
        if answer.Ok? { return Ok(answer.value), wrote; }
        CausedWithin(answer.error, from, old(issued), issued, op.Named());
        var category := CategoryOf(answer.error);
        NotLogged(op, wrote, issued, old(placed), old(notices), placed, notices);
        if category.None? || !(Rejected(category.value) || idempotent) { return Err(Raised(answer.error)), wrote; }
        OneMoreRefused(old(issued), from);
        if attempt == attempts { return Err(Exhausted(category.value, answer.error)), wrote; }
        attempt := attempt + 1;
      }
    }

    /** _dead_letter: a write that was never run surfaces as its own cause, not as exhaustion. */
    method DeadLetter(sender: string, raw: Raw, why: Why) returns (r: Result<(), Exc>, ghost wrote: bool)
      requires Valid()
      modifies this, redis
      ensures Valid() && old(issued) <= issued && old(left) <= left && unknown == old(unknown) && kicked == old(kicked)
      ensures r.Err? ==> Caused(r.error, old(issued), issued, [])
      ensures Logged(PushDead(sender, raw, why), wrote, issued, old(placed), old(notices), placed, notices)
      ensures wrote ==> old(issued) < issued
      ensures r.Ok? ==> wrote
      ensures r.Err? && ProvablyRejected(r.error) ==> !wrote
    {
      hide Caused, AllSegments;
      var answer;
      answer, wrote := Retrying(PushDead(sender, raw, why), false);
      if answer.Err? { return Err(if answer.error.Exhausted? then answer.error.cause else answer.error.exc), wrote; }
      r := Ok(());
    }

    /** The admission of a frame; an outcome that cannot be known is counted by its category. */
    method AdmitFrame(agents: seq<string>, raw: Raw) returns (r: Result<Admission, Failure>, ghost wrote: bool)
      requires Valid()
      modifies this, redis
      ensures Valid() && old(issued) <= issued && old(left) <= left && kicked == old(kicked)
      ensures r.Err? ==> Caused(ExcOf(r.error), old(issued), issued, agents)
      ensures Logged(AdmitTo(agents, raw), wrote, issued, old(placed), old(notices), placed, notices)
      ensures wrote || r.Ok? ==> old(issued) < issued
      ensures r.Ok? ==> (r.value.Admitted? <==> wrote)
      ensures r.Ok? && r.value.Full? ==> r.value.index < |agents| && AtBound(agents[r.value.index], others(issued - 1))
      ensures r.Err? && r.error.Exhausted? ==> !wrote && old(issued) + attempts == issued && Refusals(issued)
      ensures unknown == if r.Err? && r.error.Raised? then Bump(old(unknown), CategoryOf(r.error.exc)) else old(unknown)
    {
      hide Caused, AllSegments;
      var answer;
      answer, wrote := Retrying(AdmitTo(agents, raw), false);
      if answer.Err? {
        if answer.error.Raised? { unknown := Bump(unknown, CategoryOf(answer.error.exc)); }
        return Err(answer.error), wrote;
      }
      r := Ok(answer.value.admission);
    }

    /** _kick: true when an attempt was started, whatever became of it. */
    method Kick(agent: string, portType: Option<string>) returns (started: bool)
      modifies this`kicked
      ensures started == (portType.Some? && hasKick)
      ensures kicked == if started then old(kicked) + [agent] else old(kicked)
    {
      started := portType.Some? && hasKick;
      if started { kicked := kicked + [agent]; }
    }

    /** _notify_broadcast_sender: one try, and no failure of it escapes. */
    method NotifySender(sender: string, senderType: Option<string>, notice: Raw)
      requires Valid()
      modifies this, redis
      ensures Valid() && issued == old(issued) + 1 && old(left) <= left && placed == old(placed) && unknown == old(unknown)
      ensures NotedOnce(sender, notice, old(issued), old(notices), notices)
      ensures kicked == old(kicked) || (kicked == old(kicked) + [sender] && senderType.Some? && hasKick && notices != old(notices))
      ensures notices != old(notices) && replies(old(issued)).Answered? && senderType.Some? && hasKick ==>
        kicked == old(kicked) + [sender]
    {
      hide Place.Chronicle, Honest;
      var answer;
      ghost var wrote;
      answer, wrote := Execute(AdmitNotice(sender, notice));
      if answer.Ok? && answer.value.admission.Admitted? {
        var started := Kick(sender, senderType);
      }
    }

    /** A delivery attempt can be started for this recipient. */
    ghost predicate Kickable(agent: string, types: map<string, string>) { hasKick && agent in types && types[agent] != "" }

    /** The recipients an attempt is started for, in order. */
    ghost function Kicks(recipients: seq<string>, types: map<string, string>): (r: seq<string>)
      ensures |r| <= |recipients| && (|r| == |recipients| <==> forall i :: 0 <= i < |recipients| ==> Kickable(recipients[i], types))
      decreases |recipients|
    {
      if recipients == [] then []
      else
        var n := |recipients| - 1;
        Kicks(recipients[..n], types) + (if Kickable(recipients[n], types) then [recipients[n]] else [])
    }

    /** Each of them that can be is kicked, once; after some were skipped, at most the sender as well, for the notice. */
    ghost predicate KickedAll(recipients: seq<string>, types: map<string, string>, sender: string, kicked: seq<string>,
        now: seq<string>) {
      || now == kicked + Kicks(recipients, types)
      || (now == kicked + Kicks(recipients, types) + [sender] && |Kicks(recipients, types)| < |recipients|)
    }

    /** The kicks are of exactly the recipients that can be kicked, each once, in the recipients' order. */
    lemma KicksExactly(recipients: seq<string>, types: map<string, string>)
      ensures forall a :: a in Kicks(recipients, types) <==> a in recipients && Kickable(a, types)
      ensures Distinct(recipients) ==> Distinct(Kicks(recipients, types))
      ensures IsSubsequence(Kicks(recipients, types), recipients)
    {
      hide Kickable, Kicks, IsSubsequence, Distinct;
      forall a ensures a in Kicks(recipients, types) <==> a in recipients && Kickable(a, types) {
        KicksWho(recipients, types, a);
      }
      if Distinct(recipients) { KicksDistinct(recipients, types); }
      KicksInOrder(recipients, types);
    }

    lemma {:induction false} KicksWho(recipients: seq<string>, types: map<string, string>, a: string)
      ensures a in Kicks(recipients, types) <==> a in recipients && Kickable(a, types)
      decreases |recipients|
    {
      hide Kickable, Kicks;
      if recipients == [] {
        KicksNone(types);
      } else {
        var n := |recipients| - 1;
        KicksWho(recipients[..n], types, a);
        KicksLast(recipients, types);
        assert recipients == recipients[..n] + [recipients[n]];
      }
    }

    lemma {:induction false} KicksDistinct(recipients: seq<string>, types: map<string, string>)
      requires Distinct(recipients)
      ensures Distinct(Kicks(recipients, types))
      decreases |recipients|
    {
      hide Kickable, Kicks;
      if recipients == [] {
        KicksNone(types);
      } else {
        var n := |recipients| - 1;
        KicksDistinct(recipients[..n], types);
        KicksLast(recipients, types);
        KicksWho(recipients[..n], types, recipients[n]);
      }
    }

    lemma {:induction false} KicksInOrder(recipients: seq<string>, types: map<string, string>)
      ensures IsSubsequence(Kicks(recipients, types), recipients)
      decreases |recipients|
    {
      hide Kickable, Kicks;
      if recipients == [] {
        KicksNone(types);
      } else {
        hide IsSubsequence;
        var n := |recipients| - 1;
        KicksInOrder(recipients[..n], types);
        KicksLast(recipients, types);
        assert recipients == recipients[..n] + [recipients[n]];
        if Kickable(recipients[n], types) {
          SubsequenceAppend(Kicks(recipients[..n], types), recipients[..n], recipients[n]);
        } else {
          SubsequenceSkip(Kicks(recipients[..n], types), recipients[..n], recipients[n]);
        }
      }
    }

    lemma KicksLast(recipients: seq<string>, types: map<string, string>)
      requires recipients != []
      ensures var n := |recipients| - 1;
        Kicks(recipients, types)
          == if Kickable(recipients[n], types) then Kicks(recipients[..n], types) + [recipients[n]] else Kicks(recipients[..n], types)
    {
      hide Kickable;
      assert Kicks(recipients[..|recipients| - 1], types) + [] == Kicks(recipients[..|recipients| - 1], types);
    }

    lemma KicksNone(types: map<string, string>)
      ensures Kicks([], types) == []
    {
    }

    lemma KicksMore(recipients: seq<string>, i: nat, types: map<string, string>)
      requires i < |recipients| && recipients[i] in types
      ensures Kicks(recipients[..i + 1], types)
        == Kicks(recipients[..i], types) + if hasKick && types[recipients[i]] != "" then [recipients[i]] else []
    {
      assert recipients[..i + 1][..i] == recipients[..i];
    }

    /** Kick every recipient that can be; `all` when none was skipped. */
    method KickEach(recipients: seq<string>, types: map<string, string>) returns (all: bool)
      requires forall a :: a in recipients ==> a in types
      modifies this`kicked
      ensures kicked == old(kicked) + Kicks(recipients, types) && (all <==> |Kicks(recipients, types)| == |recipients|)
    {
      hide Kicks, Kickable;
      all := true;
      KicksNone(types);
      for i := 0 to |recipients|
        invariant kicked == old(kicked) + Kicks(recipients[..i], types) && (all <==> |Kicks(recipients[..i], types)| == i)
      {
        KicksMore(recipients, i, types);
        var t := types[recipients[i]];
        var started := Kick(recipients[i], if t == "" then None else Some(t));
        all := all && started;
      }
      assert recipients[..|recipients|] == recipients;
    }

    /** Kick every recipient that can be, then tell the sender, once, if some could not. */
    method KickAll(sender: string, recipients: seq<string>, types: map<string, string>, notice: Raw)
      requires Valid() && forall a :: a in recipients ==> a in types
      modifies this, redis
      ensures Valid() && old(left) <= left && placed == old(placed) && unknown == old(unknown)
      ensures issued == old(issued) + if |Kicks(recipients, types)| == |recipients| then 0 else 1
      ensures NotedOnce(sender, notice, old(issued), old(notices), notices)
      ensures KickedAll(recipients, types, sender, old(kicked), kicked)
      ensures |Kicks(recipients, types)| == |recipients| ==> notices == old(notices)
      ensures notices != old(notices) && replies(old(issued)).Answered? && sender in types && hasKick ==>
        kicked == old(kicked) + Kicks(recipients, types) + [sender]
    {
      hide Honest, Place.Chronicle, Kicks;
      var all := KickEach(recipients, types);
      if !all {
        NotifySender(sender, if sender in types then Some(types[sender]) else None, notice);
      }
    }

    /** The registry as the n-th command found it. */
    ghost function TypesAt(n: nat): map<string, string> { Fields(others(n), place.Registry()) }

    /** The frame can go on, and this is where it is addressed. */
    ghost predicate Goes(raw: Raw, sender: string, destination: string)
      requires IsSegment(sender)
    {
      E.ParseForSwitch(raw).Ok? && Forwarded(raw, sender).Some? && E.ParseForSwitch(raw).value.destination == destination
    }

    /** By the registry as the n-th command found it, the frame is for that agent, perhaps among others. */
    ghost predicate Recipient(agent: string, destination: string, sender: string, n: nat) {
      agent in TypesAt(n) && if destination == "all" then agent != sender else agent == destination
    }

    /** By that registry, the frame is for exactly these agents. */
    ghost predicate Recipients(agents: seq<string>, destination: string, sender: string, n: nat) {
      && Distinct(agents) && agents != []
      && forall a :: a in agents <==> Recipient(a, destination, sender, n)
    }

    /** A dead letter by the at-th command has its reason in what an earlier command of the same call met. */
    ghost predicate Warranted(why: Why, sender: string, raw: Raw, from: nat, at: nat)
      requires IsSegment(sender)
    {
      match why
      case Unforwardable => Forwarded(raw, sender) == None
      case GaveUp(first) => from <= first && first + attempts <= at && Refusals(first + attempts)
      case NotRegistered =>
        exists n, destination ::
          && from <= n < at && Goes(raw, sender, destination)
          && destination != "all" && !Recipient(destination, destination, sender, n)
      case QueueFull(full, agent) =>
        && AtBound(agent, others(full))
        && exists n, destination ::
          from <= n < full < at && Goes(raw, sender, destination) && Recipient(agent, destination, sender, n)
    }

    lemma WarrantedWithin(why: Why, sender: string, raw: Raw, from: nat, at: nat, wider: nat, later: nat)
      requires IsSegment(sender) && Warranted(why, sender, raw, from, at) && wider <= from && at <= later
      ensures Warranted(why, sender, raw, wider, later)
    {
      hide IsSegment, Goes, Recipient, AtBound, Refusals, Forwarded;
    }

    /** Where a popped frame may properly end: the recipients' ingress, stamped and hopped, or the sender's dead list. */
    ghost predicate Fits(w: Write, sender: string, raw: Raw, from: nat)
      requires IsSegment(sender)
    {
      match w.op
      case PushDead(agent, r, why) => agent == sender && SameFrame(r, raw) && Warranted(why, sender, raw, from, w.at)
      case AdmitTo(agents, r) =>
        exists n, destination ::
          && from <= n < w.at && Goes(raw, sender, destination)
          && Forwarded(raw, sender) == Some(r) && Recipients(agents, destination, sender, n)
      case _ => false
    }

    /** A broadcast for which the registry named nobody else: the frame leaves the system by design. */
    ghost predicate Nobody(sender: string, raw: Raw, from: nat, to: nat)
      requires IsSegment(sender)
    {
      Goes(raw, sender, "all") && exists n :: from <= n < to && NobodyElse(sender, n)
    }

    /** The registry, as the n-th command found it, has nobody but the sender. */
    ghost predicate NobodyElse(sender: string, n: nat) { forall a :: a in TypesAt(n) ==> a == sender }

    /** Exactly one write was added to the log, by one of these commands, and it fits. */
    ghost predicate PlacedOnce(placed: seq<Write>, now: seq<Write>, sender: string, raw: Raw, from: nat, to: nat)
      requires IsSegment(sender)
    {
      && |now| == |placed| + 1 && now[..|placed|] == placed
      && from <= now[|placed|].at < to && Fits(now[|placed|], sender, raw, from)
    }

    /** The delivery attempts that go with the placement, by the very snapshot of the registry it was made from. */
    ghost predicate KickedFor(w: Write, sender: string, raw: Raw, from: nat, kicked: seq<string>, now: seq<string>)
      requires IsSegment(sender)
    {
      match w.op
      case AdmitTo(agents, _) =>
        exists n, destination ::
          && from <= n < w.at && Goes(raw, sender, destination) && Recipients(agents, destination, sender, n)
          && KickedFrom(agents, destination, sender, n, kicked, now)
      case _ => now == kicked
    }

    /** A broadcast kicks whom it can; the one destination of a unicast is kicked whatever its type. */
    ghost predicate KickedFrom(agents: seq<string>, destination: string, sender: string, n: nat, kicked: seq<string>,
        now: seq<string>) {
      if destination == "all" then KickedAll(agents, TypesAt(n), sender, kicked, now)
      else now == kicked + if hasKick then agents else []
    }

    /** One fitting write, and its delivery attempts. */
    ghost predicate Routed(placed: seq<Write>, placedNow: seq<Write>, sender: string, raw: Raw, from: nat, until: nat,
        kicked: seq<string>, kickedNow: seq<string>)
      requires IsSegment(sender)
    {
      PlacedOnce(placed, placedNow, sender, raw, from, until) && KickedFor(placedNow[|placed|], sender, raw, from, kicked, kickedNow)
    }

    /** An exception of a route: raised by a command or a wrong-typed key, or the registry held a name that is no segment. */
    ghost predicate Explained(exc: Exc, sender: string, from: nat, to: nat) {
      || Caused(exc, from, to, [])
      || (exc == OtherError && exists n, a :: from <= n < to && Recipient(a, "all", sender, n) && !IsSegment(a))
    }

    /** Dead-letter and return, as every rejecting branch of _forward does. */
    method Reject(sender: string, original: Raw, raw: Raw, why: Why, ghost from: nat) returns (r: Result<bool, Failure>)
      requires Valid() && IsSegment(sender) && SameFrame(raw, original)
      requires from <= issued && Warranted(why, sender, original, from, issued)
      modifies this, redis
      ensures Valid() && old(issued) <= issued && old(left) <= left && notices == old(notices) && unknown == old(unknown)
      ensures r.Err? ==> r.error.Raised? && Caused(r.error.exc, old(issued), issued, [])
      ensures r.Ok? ==> Routed(old(placed), placed, sender, original, from, issued, old(kicked), kicked)
      ensures r.Err? ==> kicked == old(kicked)
      ensures r.Err? ==> PlacedOnce(old(placed), placed, sender, original, from, issued) || placed == old(placed)
    {
      hide IsSegment, Forwarded, SameFrame, Honest, Place.Chronicle, Caused, Warranted;
      ghost var at := issued;
      var dead;
      ghost var wrote;
      dead, wrote := DeadLetter(sender, raw, why);
      if wrote { WarrantedWithin(why, sender, original, from, at, from, issued - 1); }
      if dead.Err? { return Err(Raised(dead.error)); }
      r := Ok(true);
    }

    method Broadcast(sender: string, original: Raw, raw: Raw, notice: Raw) returns (r: Result<bool, Failure>)
      requires Valid() && IsSegment(sender) && Goes(original, sender, "all") && Forwarded(original, sender) == Some(raw)
      modifies this, redis
      ensures Valid() && old(issued) <= issued && old(left) <= left
      ensures NotedOnce(sender, notice, old(issued), old(notices), notices)
      ensures r.Err? ==> Explained(ExcOf(r.error), sender, old(issued), issued)
      ensures r.Ok? ==>
        || Routed(old(placed), placed, sender, original, old(issued), issued, old(kicked), kicked)
        || (placed == old(placed) && kicked == old(kicked) && Nobody(sender, original, old(issued), issued))
      ensures r.Err? ==> kicked == old(kicked)
      ensures r.Err? && r.error.Exhausted? ==> placed == old(placed) && old(issued) + attempts <= issued && Refusals(issued)
      ensures r.Err? ==> PlacedOnce(old(placed), placed, sender, original, old(issued), issued) || placed == old(placed)
      ensures r.Ok? ==> unknown == old(unknown)
    {
      hide IsSegment, Goes, Forwarded, Fields, SameFrame, Fits, Place.Chronicle, Honest, Caused, Refusals;
      var read;
      ghost var wrote;
      read, wrote := Retrying(ReadTypes, true);
      if read.Err? { return Err(read.error); }
      ghost var n := issued - 1;
      var types := read.value.types;
      var recipients := Listing(types.Keys - {sender});
      assert forall a :: a in recipients <==> Recipient(a, "all", sender, n);
      if recipients == [] {
        assert NobodyElse(sender, n) by {
          forall a | a in TypesAt(n) ensures a == sender { assert Recipient(a, "all", sender, n) ==> a in recipients; }
        }
        return Ok(true);
      }
      r := SendToAll(sender, original, raw, recipients, types, notice, old(issued), n);
    }

    /** Admit to every recipient or to none; on success kick them all. */
    method SendToAll(sender: string, original: Raw, raw: Raw, recipients: seq<string>, types: map<string, string>, notice: Raw,
        ghost from: nat, ghost n: nat)
      returns (r: Result<bool, Failure>)
      requires Valid() && IsSegment(sender) && Goes(original, sender, "all") && Forwarded(original, sender) == Some(raw)
      requires from <= n < issued && Recipients(recipients, "all", sender, n) && types == TypesAt(n)
      modifies this, redis
      ensures Valid() && old(issued) <= issued && old(left) <= left
      ensures NotedOnce(sender, notice, from, old(notices), notices)
      ensures r.Err? ==> Explained(ExcOf(r.error), sender, from, issued)
      ensures r.Ok? ==> Routed(old(placed), placed, sender, original, from, issued, old(kicked), kicked)
      ensures r.Err? ==> kicked == old(kicked)
      ensures r.Err? && r.error.Exhausted? ==> placed == old(placed) && old(issued) + attempts <= issued && Refusals(issued)
      ensures r.Err? ==> PlacedOnce(old(placed), placed, sender, original, from, issued) || placed == old(placed)
      ensures r.Ok? ==> unknown == old(unknown)
    {
      hide IsSegment, Goes, Forwarded, Fields, SameFrame, Honest, Place.Chronicle, Caused, Refusals, AtBound;
      SameFrameForwarded(original, sender, raw);
      ghost var start := issued;
      var admitted;
      ghost var wrote;
      admitted, wrote := AdmitFrame(recipients, raw);
      if admitted.Err? {
        BroadcastFailed(ExcOf(admitted.error), sender, recipients, start, issued, from, n);
        return Err(admitted.error);
      }
      if admitted.value.Full? {
        assert Recipient(recipients[admitted.value.index], "all", sender, n);
        start := issued;
        r := Reject(sender, original, raw, QueueFull(issued - 1, recipients[admitted.value.index]), from);
        if r.Err? { CausedWithin(r.error.exc, start, from, issued, []); }
        return;
      }
      KickAll(sender, recipients, types, notice);
      r := Ok(true);
    }

    lemma BroadcastFailed(exc: Exc, sender: string, recipients: seq<string>, start: nat, to: nat, from: nat, n: nat)
      requires Caused(exc, start, to, recipients) && from <= n < start <= to && Recipients(recipients, "all", sender, n)
      ensures Explained(exc, sender, from, to)
    {
      hide IsSegment, Lost, Raises;
      if exc == OtherError && !AllSegments(recipients) {
        var i :| 0 <= i < |recipients| && !IsSegment(recipients[i]);
        assert Recipient(recipients[i], "all", sender, n);
      }
    }

    method Unicast(sender: string, original: Raw, raw: Raw, destination: string) returns (r: Result<bool, Failure>)
      requires Valid() && IsSegment(sender) && IsSegment(destination) && destination != "all"
      requires Goes(original, sender, destination) && Forwarded(original, sender) == Some(raw)
      modifies this, redis
      ensures Valid() && old(issued) <= issued && old(left) <= left && notices == old(notices)
      ensures r.Err? ==> Caused(ExcOf(r.error), old(issued), issued, [])
      ensures r.Ok? ==> Routed(old(placed), placed, sender, original, old(issued), issued, old(kicked), kicked)
      ensures r.Err? ==> kicked == old(kicked)
      ensures r.Err? && r.error.Exhausted? ==> placed == old(placed) && old(issued) + attempts <= issued && Refusals(issued)
      ensures r.Err? ==> PlacedOnce(old(placed), placed, sender, original, old(issued), issued) || placed == old(placed)
      ensures r.Ok? ==> unknown == old(unknown)
    {
      hide IsSegment, Goes, Forwarded, Fields, SameFrame, Honest, Place.Chronicle, Refusals, AtBound, Caused;
      SameFrameForwarded(original, sender, raw);
      ghost var from := issued;
      var read;
      ghost var wrote;
      read, wrote := Retrying(ReadType(destination), true);
      if read.Err? { return Err(read.error); }
      ghost var n := issued - 1;
      if read.value.portType.None? {
        assert !Recipient(destination, destination, sender, n);
        ghost var start := issued;
        r := Reject(sender, original, raw, NotRegistered, from);
        if r.Err? { CausedWithin(r.error.exc, start, from, issued, []); }
        return;
      }
      assert Recipients([destination], destination, sender, n);
      r := SendToOne(sender, original, raw, destination, read.value.portType, from, n);
    }

    /** Admit to the one recipient; on success kick it. */
    method SendToOne(sender: string, original: Raw, raw: Raw, destination: string, portType: Option<string>,
        ghost from: nat, ghost n: nat)
      returns (r: Result<bool, Failure>)
      requires Valid() && IsSegment(sender) && IsSegment(destination) && destination != "all" && portType.Some?
      requires Goes(original, sender, destination) && Forwarded(original, sender) == Some(raw) && SameFrame(raw, original)
      requires from <= n < issued && Recipients([destination], destination, sender, n)
      modifies this, redis
      ensures Valid() && old(issued) <= issued && old(left) <= left && notices == old(notices)
      ensures r.Err? ==> Caused(ExcOf(r.error), from, issued, [])
      ensures r.Ok? ==> Routed(old(placed), placed, sender, original, from, issued, old(kicked), kicked)
      ensures r.Err? ==> kicked == old(kicked)
      ensures r.Err? && r.error.Exhausted? ==> placed == old(placed) && old(issued) + attempts <= issued && Refusals(issued)
      ensures r.Err? ==> PlacedOnce(old(placed), placed, sender, original, from, issued) || placed == old(placed)
      ensures r.Ok? ==> unknown == old(unknown)
    {
      hide IsSegment, Goes, Forwarded, SameFrame, Honest, Place.Chronicle, Refusals, AtBound, Caused, Recipient, AllSegments;
      assert AllSegments([destination]) by { OneSegment(destination); }
      ghost var start := issued;
      var admitted;
      ghost var wrote;
      admitted, wrote := AdmitFrame([destination], raw);
      if admitted.Err? {
        NamesAreFine(ExcOf(admitted.error), start, issued, [destination]);
        CausedWithin(ExcOf(admitted.error), start, from, issued, []);
        return Err(admitted.error);
      }
      if admitted.value.Full? {
        start := issued;
        assert destination in [destination] && Recipient(destination, destination, sender, n);
        r := Reject(sender, original, raw, QueueFull(issued - 1, destination), from);
        if r.Err? { CausedWithin(r.error.exc, start, from, issued, []); }
        return;
      }
      var started := Kick(destination, portType);
      r := Ok(true);
    }

    /** _forward. `notice` is the encoded broadcast notice, should one be needed. */
    method Forward(sender: string, raw: Raw, notice: Raw) returns (r: Result<bool, Failure>)
      requires Valid() && IsSegment(sender)
      modifies this, redis
      ensures Valid() && old(issued) <= issued && old(left) <= left
      ensures NotedOnce(sender, notice, old(issued), old(notices), notices)
      ensures r.Err? ==> Explained(ExcOf(r.error), sender, old(issued), issued)
      ensures r.Ok? ==>
        || Routed(old(placed), placed, sender, raw, old(issued), issued, old(kicked), kicked)
        || (placed == old(placed) && kicked == old(kicked) && Nobody(sender, raw, old(issued), issued))
      ensures r.Err? ==> kicked == old(kicked)
      ensures r.Err? && r.error.Exhausted? ==> placed == old(placed) && old(issued) + attempts <= issued && Refusals(issued)
      ensures r.Err? ==> PlacedOnce(old(placed), placed, sender, raw, old(issued), issued) || placed == old(placed)
      ensures r.Ok? ==> unknown == old(unknown)
    {
      hide IsSegment, E.ParseForSwitch, Stamp, Advance, Place.Chronicle, Honest, Caused, Refusals, PlacedOnce, Nobody;
      var header := E.ParseForSwitch(raw);
      if header.Err? {
        r := Reject(sender, raw, raw, Unforwardable, issued);
        return;
      }
      SegmentFits(sender);
      var stamped := if header.value.source != sender then Stamp(raw, sender) else raw;
      var advanced := Advance(stamped, header.value);
      if advanced.Err? {
        r := Reject(sender, raw, stamped, Unforwardable, issued);
        return;
      }
      if Hopped(header.value).ttl == 0 {
        r := Reject(sender, raw, advanced.value, Unforwardable, issued);
        return;
      }
      if header.value.destination == "all" {
        r := Broadcast(sender, raw, advanced.value, notice);
      } else {
        r := Unicast(sender, raw, advanced.value, header.value.destination);
      }
    }

    /** The at-th command put exactly one copy at the end of the list of everyone named, and touched no other key. */
    ghost predicate Landed(w: Write, db: Store) {
      match w.op
      case PushDead(agent, r, _) =>
        OneMore(place.Dead(agent), Frame(r), others(w.at), db) && SameExcept(db, others(w.at), {place.Dead(agent)})
      case AdmitTo(agents, r) =>
        && SameExcept(db, others(w.at), set k | k in place.Ingresses(agents))
        && forall i :: 0 <= i < |agents| ==> OneMore(place.Ingress(agents[i]), Frame(r), others(w.at), db)
      case _ => false
    }

    lemma WritesLand(w: Write, sender: string, raw: Raw, from: nat, db: Store)
      requires place.Valid() && IsSegment(sender) && Fits(w, sender, raw, from) && place.Effect(w.op, others(w.at), db)
      ensures Landed(w, db)
    {
      hide IsSegment, Warranted, SameFrame, Goes, Recipient, AllSegments, Items, SameExcept, AgentKey;
      if w.op.AdmitTo? {
        forall i | 0 <= i < |w.op.agents| ensures OneMore(place.Ingress(w.op.agents[i]), Frame(w.op.raw), others(w.at), db) {
          OneCopyEach(place, w.op.agents, w.op.raw, others(w.at), db, i);
        }
      }
    }

    /**
     _route. A normal return leaves the popped frame once in every recipient's ingress, or once in the
     sender's dead list, or nowhere for a broadcast to nobody; a raise leaves it in at most one of
     these. Apart from that command and the notice, no command of the call changed the database.
     */
    method Route(sender: string, raw: Raw, notice: Raw) returns (r: Result<bool, Exc>)
      requires Valid() && IsSegment(sender)
      modifies this, redis
      ensures Valid() && old(left) <= left
      ensures r.Err? ==> Explained(r.error, sender, old(issued), issued)
      ensures r.Ok? ==>
        || Routed(old(placed), placed, sender, raw, old(issued), issued, old(kicked), kicked)
        || (placed == old(placed) && kicked == old(kicked) && Nobody(sender, raw, old(issued), issued))
      ensures r.Err? ==> kicked == old(kicked)
      ensures r.Err? ==> PlacedOnce(old(placed), placed, sender, raw, old(issued), issued) || placed == old(placed)
      ensures placed != old(placed) ==>
        var w := placed[|old(placed)|]; w.at < issued && Landed(w, left[w.at])
      ensures NotedOnce(sender, notice, old(issued), old(notices), notices)
      ensures forall n :: old(issued) <= n < issued && !WroteAt(placed, n) && !WroteAt(notices, n) ==> left[n] == others(n)
    {
      hide IsSegment, E.ParseForSwitch, Forwarded, Place.Effect, Honest, Caused, Nobody, Fits, Landed, Refused, KickedFor;
      ghost var before := placed;
      var forwarded := Forward(sender, raw, notice);
      if forwarded.Ok? {
        r := Ok(true);
      } else if forwarded.error.Raised? {
        r := Err(forwarded.error.exc);
      } else {
        r := GiveUp(sender, raw, old(issued));
      }
      if placed != before {
        var w := placed[|before|];
        WritesLand(w, sender, raw, old(issued), left[w.at]);
      }
    }

    /** Every attempt was refused: the frame goes to the sender's dead list. */
    method GiveUp(sender: string, raw: Raw, ghost from: nat) returns (r: Result<bool, Exc>)
      requires Valid() && IsSegment(sender) && from + attempts <= issued && Refusals(issued)
      modifies this, redis
      ensures Valid() && old(issued) <= issued && old(left) <= left && notices == old(notices)
      ensures r.Err? ==> Explained(r.error, sender, from, issued)
      ensures r.Ok? ==> Routed(old(placed), placed, sender, raw, from, issued, old(kicked), kicked)
      ensures r.Err? ==> kicked == old(kicked)
      ensures r.Err? ==> PlacedOnce(old(placed), placed, sender, raw, from, issued) || placed == old(placed)
    {
      hide IsSegment, Forwarded, Honest, Place.Chronicle, Caused, Refusals;
      ghost var start := issued;
      var dead;
      ghost var wrote;
      dead, wrote := DeadLetter(sender, raw, GaveUp(issued - attempts));
      if dead.Err? { CausedWithin(dead.error, start, from, issued, []); }
      r := if dead.Err? then Err(dead.error) else Ok(true);
    }
  }

  lemma SameFrameForwarded(raw: Raw, sender: string, after: Raw)
    requires IsSegment(sender) && Forwarded(raw, sender) == Some(after)
    ensures SameFrame(after, raw)
  {
    hide IsSegment, E.ParseForSwitch, Stamp, Advance;
    SegmentFits(sender);
  }

  lemma HonestAt(replies: nat -> Reply, n: nat)
    requires Honest(replies) && replies(n).Failed? && RefusedByServer(replies(n).exc)
    ensures !replies(n).executed
  {
  }

  function ExcOf(f: Failure): Exc {
    match f case Exhausted(_, cause) => cause case Raised(exc) => exc
  }

  function Bump(counts: map<Option<Category>, nat>, c: Option<Category>): map<Option<Category>, nat> {
    counts[c := (if c in counts then counts[c] else 0) + 1]
  }

  /** WRONGTYPE is no transient code. */
  lemma StartsWithW(text: string)
    requires text != "" && text[0] == 'W'
    ensures CategoryOf(ResponseError(text)) == None
  {
    FirstLetter(text);
    hide FirstWord, CodeCategory;
    NoCodeStartsWithW(Upper(FirstWord(text)));
  }

  /** Neither a wrong-typed key nor a name that makes no key is transient. */
  lemma DefectsAreFinal()
    ensures CategoryOf(ResponseError("WRONGTYPE")) == None && CategoryOf(OtherError) == None
  {
    assert "WRONGTYPE"[0] == 'W';
    StartsWithW("WRONGTYPE");
  }

  lemma NoCodeStartsWithW(code: string)
    requires code != "" && code[0] == 'W'
    ensures CodeCategory(code) == None
  {
    assert "BUSY"[0] == 'B' && "LOADING"[0] == 'L' && "READONLY"[0] == 'R' && "TRYAGAIN"[0] == 'T' && "MASTERDOWN"[0] == 'M';
  }

  lemma FirstLetter(t: string)
    requires t != "" && t[0] != ' '
    ensures |FirstWord(t)| >= 1 && FirstWord(t)[0] == t[0]
  {
  }
}
