/**
 The Lua scripts, command by command, over a typed database. EVAL does not roll back: a command
 that fails half-way leaves what was already written. Each script is proved to fail only before its
 first write, for every initial database.
 */
module Scripts {
  import opened Prelude
  import opened RedisStore

  datatype Admission = Full(index: nat, depth: nat) | Admitted

  /** KEYS of _REMOVE_MEMBERSHIP_AND_OWN_LEAD_LUA. `disposable` is KEYS[6..16] and KEYS[19]. */
  datatype RetireKeys = RetireKeys(
    registry: Key, lead: Key, processing: Key, opening: Key, ingress: Key, disposable: seq<Key>,
    undeliverable: Key, unresolved: Key, inbox: Key, retiredInbox: Key)
  {
    function Deleted(): seq<Key> { [inbox, processing, opening, ingress] + disposable }

    ghost predicate Distinct() {
      && registry !in Deleted() && lead !in Deleted() && undeliverable !in Deleted()
      && unresolved !in Deleted() && retiredInbox !in Deleted()
      && registry != lead && registry != undeliverable && registry != unresolved && registry != retiredInbox
      && lead != undeliverable && lead != unresolved && lead != retiredInbox
      && undeliverable != unresolved && undeliverable != retiredInbox && unresolved != retiredInbox
    }

    ghost function Touched(): set<Key> {
      {registry, lead, undeliverable, unresolved, retiredInbox} + (set k | k in Deleted())
    }

    ghost predicate Preflight(db: Store) {
      && Hashy(db, registry) && Stringy(db, lead) && Listy(db, processing) && Listy(db, opening)
      && Listy(db, ingress) && Listy(db, undeliverable) && Listy(db, unresolved) && Streamy(db, inbox)
      && Listy(db, retiredInbox)
    }

    /** What a completed retirement leaves: every raw as hex evidence, in order, and nothing else moved. */
    ghost predicate Withdrawn(before: Store, after: Store, agent: string) {
      && Fields(after, registry) == Fields(before, registry) - {agent}
      && Hashy(after, registry) && Stringy(after, lead)
      && Text(after, lead) == (if Text(before, lead) == Some(agent) then None else Text(before, lead))
      && Items(after, undeliverable) == Items(before, undeliverable)
           + Undeliverables(agent, Items(before, processing) + Items(before, ingress))
      && Items(after, unresolved) == Items(before, unresolved) + Unresolveds(agent, Items(before, opening))
      && Items(after, retiredInbox) == Items(before, retiredInbox)
           + RetiredInbox(agent, InboxReason(Field(before, registry, agent)), Entries(before, inbox))
      && (forall k :: k in Deleted() ==> k !in after)
      && SameExcept(after, before, Touched())
    }
  }

  function Bytes(x: Item): Raw { if x.Frame? then x.raw else [] }

  function UndeliverableRecord(agent: string, x: Item): Item {
    Json(CustodyRecord(agent, "destination retired before opening", Hex(Bytes(x))))
  }

  function UnresolvedRecord(agent: string, x: Item): Item {
    Json(CustodyRecord(agent, "opener outcome unknown when destination retired", Hex(Bytes(x))))
  }

  function InboxReason(portType: Option<string>): string {
    if portType == Some("api") then "destination retired with unread inbox content"
    else "destination retired with unread inbox content for a non-api port type"
  }

  function HexFields(fields: seq<(Raw, Raw)>): seq<(string, string)> {
    seq(|fields|, i requires 0 <= i < |fields| => (Hex(fields[i].0), Hex(fields[i].1)))
  }

  function RetiredInboxRecord(agent: string, reason: string, e: Entry): Item {
    Json(InboxRecord(agent, reason, e.id, HexFields(e.fields)))
  }

  function Undeliverables(agent: string, raws: seq<Item>): seq<Item> {
    seq(|raws|, i requires 0 <= i < |raws| => UndeliverableRecord(agent, raws[i]))
  }

  function Unresolveds(agent: string, raws: seq<Item>): seq<Item> {
    seq(|raws|, i requires 0 <= i < |raws| => UnresolvedRecord(agent, raws[i]))
  }

  function RetiredInbox(agent: string, reason: string, entries: seq<Entry>): seq<Item> {
    seq(|entries|, i requires 0 <= i < |entries| => RetiredInboxRecord(agent, reason, entries[i]))
  }

  /** `n` copies of a frame appended. */
  function Copies(x: Item, n: nat): seq<Item> { seq(n, _ => x) }

  ghost predicate AllOpen(db: Store, keys: seq<Key>, limit: nat) {
    forall k :: k in keys ==> Listy(db, k) && |Items(db, k)| < limit
  }

  /** Every list got one copy for each time it is named, and no other key changed. */
  ghost predicate Grown(before: Store, after: Store, raw: Item, keys: seq<Key>) {
    && SameExcept(after, before, set k | k in keys)
    && forall k :: Items(after, k) == Items(before, k) + Copies(raw, multiset(keys)[k])
  }

  lemma GrownNone(db: Store, raw: Item)
    ensures Grown(db, db, raw, [])
  {
  }

  lemma GrownFrame(before: Store, mid: Store, after: Store, keys: seq<Key>, key: Key)
    requires SameExcept(mid, before, set k | k in keys) && SameExcept(after, mid, {key})
    ensures SameExcept(after, before, set k | k in keys + [key])
  {
    hide SameExcept;
    Chain(after, mid, before, {key}, set k | k in keys);
    assert (set k | k in keys + [key]) == {key} + (set k | k in keys);
  }

  lemma GrownAt(base: seq<Item>, was: seq<Item>, raw: Item, keys: seq<Key>, key: Key, k: Key)
    requires was == base + Copies(raw, multiset(keys)[k])
    ensures (if k == key then was + [raw] else was) == base + Copies(raw, multiset(keys + [key])[k])
  {
    if k == key {
      assert Copies(raw, multiset(keys)[k]) + [raw] == Copies(raw, multiset(keys + [key])[k]);
    }
  }

  lemma GrownStep(before: Store, mid: Store, after: Store, raw: Item, keys: seq<Key>, key: Key)
    requires Grown(before, mid, raw, keys) && Listy(mid, key)
    requires after == PutItems(mid, key, Items(mid, key) + [raw])
    ensures Grown(before, after, raw, keys + [key])
  {
    hide PutItems, SameExcept, Items, Listy, Copies;
    GrownFrame(before, mid, after, keys, key);
    forall k ensures Items(after, k) == Items(before, k) + Copies(raw, multiset(keys + [key])[k]) {
      if k != key { Untouched(after, mid, {key}, k); }
      GrownAt(Items(before, k), Items(mid, k), raw, keys, key, k);
    }
  }

  lemma TransferFrame(before: Store, taken: Store, pushed: Store, after: Store, source: Key, destination: Key, cap: nat)
    requires SameExcept(taken, before, {source}) && SameExcept(pushed, taken, {destination})
    requires if cap > 0 then SameExcept(after, pushed, {destination}) else after == pushed
    ensures SameExcept(after, taken, {destination}) && SameExcept(after, before, {source, destination})
  {
    hide SameExcept;
    if cap > 0 {
      Chain(after, pushed, taken, {destination}, {destination});
      assert {destination} + {destination} == {destination};
    }
    Chain(after, taken, before, {destination}, {source});
    assert {destination} + {source} == {source, destination};
  }

  lemma LeadAfter(before: Store, after: Store, lead: Key, agent: string)
    requires Stringy(before, lead)
    requires after == if Text(before, lead) == Some(agent) then Del(before, lead) else before
    ensures SameExcept(after, before, {lead}) && Stringy(after, lead)
    ensures Text(after, lead) == if Text(before, lead) == Some(agent) then None else Text(before, lead)
  {
  }

  /** `if not current_lead or current_lead == ''` */
  predicate Vacant(lead: Option<string>) { lead == None || lead == Some("") }

  /** The keys of the three publish scripts. */
  datatype PublishKeys = PublishKeys(lead: Key, registry: Key, cause: Key, incarnation: Key) {
    predicate Distinct() {
      && lead != registry && lead != cause && lead != incarnation
      && registry != cause && registry != incarnation && cause != incarnation
    }

    ghost function Written(why: string, claims: bool): set<Key> {
      {registry, incarnation} + (if why != "" then {cause} else {}) + (if claims then {lead} else {})
    }

    /**
     What a publish script leaves. The incarnation id is minted only for a new or an unbound member;
     a cause is written only if there is one; the lead only if it was vacant.
     */
    ghost predicate Published(before: Store, after: Store, agent: string, portType: string, newId: string,
                              why: string, claims: bool) {
      && Hashy(after, registry) && Fields(after, registry) == Fields(before, registry)[agent := portType]
      && incarnation in after
      && after[incarnation] == (if agent in Fields(before, registry) && incarnation in before
                                then before[incarnation] else Str(newId))
      && (why != "" ==> Text(after, cause) == Some(why))
      && (claims ==> Text(after, lead) == Some(agent))
      && SameExcept(after, before, Written(why, claims))
    }
  }

  /** Each of the four keys is written by its own step only. */
  lemma LeadKept(K: PublishKeys, s: seq<Store>, at: seq<set<Key>>, why: string, claims: bool)
    requires K.Distinct() && Steps(s, at)
    requires at == [if why != "" then {K.cause} else {}, {K.incarnation}, {K.registry}, if claims then {K.lead} else {}]
    ensures Text(s[4], K.cause) == Text(s[1], K.cause)
    ensures Fields(s[4], K.registry) == Fields(s[3], K.registry) && Hashy(s[4], K.registry) == Hashy(s[3], K.registry)
    ensures K.incarnation in s[1] <==> K.incarnation in s[0]
    ensures K.incarnation in s[1] ==> s[1][K.incarnation] == s[0][K.incarnation]
    ensures K.incarnation in s[4] <==> K.incarnation in s[2]
    ensures K.incarnation in s[4] ==> s[4][K.incarnation] == s[2][K.incarnation]
    ensures SameExcept(s[4], s[0], K.Written(why, claims))
  {
    hide SameExcept, Items, Fields, Text, Listy, Hashy, Stringy, Steps;
    Kept(s, at, 1, 4, K.cause);
    Kept(s, at, 3, 4, K.registry);
    SameAt(s, at, 0, 1, K.incarnation);
    SameAt(s, at, 2, 4, K.incarnation);
    ChainAll(s, at, 4);
    assert at[..4] == at;
    assert Named(at) == K.Written(why, claims) by {
      forall k ensures k in Named(at) <==> k in K.Written(why, claims) {
        if k in K.Written(why, claims) { assert k in at[0] || k in at[1] || k in at[2] || k in at[3]; }
      }
    }
  }

  /** What the three groups of writes leave is what the script promises. */
  lemma RetireAdds(K: RetireKeys, s: seq<Store>)
    requires K.Distinct() && |s| == 4
    requires SameExcept(s[1], s[0], {K.registry, K.lead})
    requires SameExcept(s[2], s[1], {K.undeliverable, K.unresolved, K.retiredInbox})
    requires SameExcept(s[3], s[2], set k | k in K.Deleted())
    ensures Items(s[1], K.undeliverable) == Items(s[0], K.undeliverable)
    ensures Items(s[3], K.undeliverable) == Items(s[2], K.undeliverable)
    ensures Items(s[1], K.unresolved) == Items(s[0], K.unresolved) && Items(s[3], K.unresolved) == Items(s[2], K.unresolved)
    ensures Items(s[1], K.retiredInbox) == Items(s[0], K.retiredInbox)
    ensures Items(s[3], K.retiredInbox) == Items(s[2], K.retiredInbox)
    ensures Fields(s[3], K.registry) == Fields(s[1], K.registry) && Hashy(s[3], K.registry) == Hashy(s[1], K.registry)
    ensures Text(s[3], K.lead) == Text(s[1], K.lead) && Stringy(s[3], K.lead) == Stringy(s[1], K.lead)
    ensures SameExcept(s[3], s[0], K.Touched())
  {
    hide SameExcept, Items, Fields, Text, Listy, Hashy, Stringy, K.Deleted;
    var gone := set k | k in K.Deleted();
    var at := [{K.registry, K.lead}, {K.undeliverable, K.unresolved, K.retiredInbox}, gone];
    forall k | k in {K.undeliverable, K.unresolved, K.retiredInbox}
      ensures Items(s[1], k) == Items(s[0], k) && Items(s[3], k) == Items(s[2], k)
    {
      Kept(s, at, 0, 1, k);
      Kept(s, at, 2, 3, k);
    }
    Kept(s, at, 1, 3, K.registry);
    Kept(s, at, 1, 3, K.lead);
    ChainAll(s, at, 3);
    assert at[..3] == at;
    assert Named(at) == K.Touched() by {
      forall k ensures k in Named(at) <==> k in K.Touched() {
        if k in K.Touched() { assert k in at[0] || k in at[1] || k in at[2]; }
      }
    }
  }

  lemma EvidenceStillLists(K: RetireKeys, before: Store, after: Store)
    requires K.Distinct() && K.Preflight(before) && SameExcept(after, before, {K.registry, K.lead})
    ensures Listy(after, K.undeliverable) && Listy(after, K.unresolved) && Listy(after, K.retiredInbox)
  {
    hide SameExcept;
    forall k | k in {K.undeliverable, K.unresolved, K.retiredInbox} ensures Listy(after, k) {
      Untouched(after, before, {K.registry, K.lead}, k);
    }
  }

  class Redis {
    var db: Store

    constructor (db: Store)
      ensures this.db == db
    {
      this.db := db;
    }

    /** _TRANSFER_RECEIVE_CUSTODY */
    method Transfer(source: Key, destination: Key, raw: Item, value: Item, cap: nat) returns (r: Answer<nat>)
      modifies this
      ensures r.Err? <==> !(Listy(old(db), source) && Listy(old(db), destination))
      ensures r.Err? || r == Ok(0) ==> db == old(db)
      ensures r.Ok? ==> r.value == if raw in Items(old(db), source) then 1 else 0
      ensures r == Ok(1) ==> SameExcept(db, old(db), {source, destination})
      ensures source != destination && r == Ok(1) ==>
        && Items(db, source) == RemoveFirst(Items(old(db), source), raw)
        && Items(db, destination) == KeepLast(Items(old(db), destination) + [value], cap)
    {
      hide PutItems, RemoveFirst, SameExcept, Items, Listy;
      if !Listy(db, source) { return Err(WrongType(source)); }
      if !Listy(db, destination) { return Err(WrongType(destination)); }
      if raw !in Items(db, source) { return Ok(0); }
      ghost var before := db;
      db := Sure(LRem(db, source, raw));
      ghost var taken := db;
      if source != destination { Untouched(db, before, {source}, destination); }
      db := Sure(RPush(db, destination, value));
      ghost var pushed := db;
      if cap > 0 { db := Sure(LTrim(db, destination, cap)); }
      TransferFrame(before, taken, pushed, db, source, destination, cap);
      if source != destination { Untouched(db, taken, {destination}, source); }
      r := Ok(1);
    }

    /** The first queue that is full, if every queue before it is a list. */
    method FirstFull(keys: seq<Key>, limit: nat) returns (r: Answer<Admission>)
      ensures r.Err? <==> exists i :: 0 <= i < |keys| && !Listy(db, keys[i]) && AllOpen(db, keys[..i], limit)
      ensures r.Ok? && r.value.Full? ==>
        && r.value.index < |keys| && r.value.depth == |Items(db, keys[r.value.index])| >= limit
        && AllOpen(db, keys[..r.value.index], limit)
      ensures r.Ok? && r.value.Admitted? ==> AllOpen(db, keys, limit)
    {
      var i := 0;
      while i < |keys|
        invariant 0 <= i <= |keys| && AllOpen(db, keys[..i], limit)
      {
        var items := LRange(db, keys[i]);
        if items.Err? { return Err(items.error); }
        if |items.value| >= limit {
          assert forall j :: 0 <= j < i ==> keys[..i][j] == keys[j];
          return Ok(Full(i, |items.value|));
        }
        assert keys[..i + 1] == keys[..i] + [keys[i]];
        i := i + 1;
      }
      assert keys[..|keys|] == keys;
      r := Ok(Admitted);
    }

    /** One copy onto each list in turn. */
    method PushCopies(keys: seq<Key>, raw: Item)
      requires forall k :: k in keys ==> Listy(db, k)
      modifies this
      ensures Grown(old(db), db, raw, keys)
    {
      hide Grown;
      var i := 0;
      GrownNone(db, raw);
      while i < |keys|
        invariant 0 <= i <= |keys|
        invariant forall k :: k in keys ==> Listy(db, k)
        invariant Grown(old(db), db, raw, keys[..i])
      {
        ghost var before := db;
        db := Sure(RPush(db, keys[i], raw));
        forall k | k in keys ensures Listy(db, k) {
          if k != keys[i] { Untouched(db, before, {keys[i]}, k); }
        }
        GrownStep(old(db), before, db, raw, keys[..i], keys[i]);
        assert keys[..i + 1] == keys[..i] + [keys[i]];
        i := i + 1;
      }
      assert keys[..|keys|] == keys;
    }

    /** _ADMIT_INGRESS: every queue gets its copy, or none does. */
    method Admit(keys: seq<Key>, limit: nat, raw: Item) returns (r: Answer<Admission>)
      modifies this
      ensures r.Err? <==> exists i :: 0 <= i < |keys| && !Listy(old(db), keys[i]) && AllOpen(old(db), keys[..i], limit)
      ensures r.Err? || r.value.Full? ==> db == old(db)
      ensures r.Ok? && r.value.Full? ==>
        && r.value.index < |keys| && r.value.depth == |Items(old(db), keys[r.value.index])| >= limit
        && AllOpen(old(db), keys[..r.value.index], limit)
      ensures r.Ok? && r.value.Admitted? ==>
        && AllOpen(old(db), keys, limit)
        && Grown(old(db), db, raw, keys)
    {
      r := FirstFull(keys, limit);
      if r.Ok? && r.value.Admitted? { PushCopies(keys, raw); }
    }

    /** One RPUSH per record, so that no argument list can overflow. */
    method PushAll(key: Key, records: seq<Item>)
      requires Listy(db, key)
      modifies this
      ensures Listy(db, key) && Items(db, key) == Items(old(db), key) + records
      ensures SameExcept(db, old(db), {key})
    {
      hide PutItems, PutFields, RemoveFirst, KeepLast;
      var i := 0;
      while i < |records|
        invariant 0 <= i <= |records| && Listy(db, key)
        invariant Items(db, key) == Items(old(db), key) + records[..i]
        invariant SameExcept(db, old(db), {key})
      {
        assert Items(old(db), key) + records[..i] + [records[i]] == Items(old(db), key) + records[..i + 1];
        db := Sure(RPush(db, key, records[i]));
        i := i + 1;
      }
      assert records[..|records|] == records;
    }

    method DelAll(keys: seq<Key>)
      modifies this
      ensures forall k :: k in keys ==> k !in db
      ensures SameExcept(db, old(db), set k | k in keys)
    {
      var i := 0;
      while i < |keys|
        invariant 0 <= i <= |keys|
        invariant forall k :: k in db <==> k in old(db) && k !in keys[..i]
        invariant forall k :: k in db ==> db[k] == old(db)[k]
      {
        db := Del(db, keys[i]);
        i := i + 1;
      }
    }

    /** The script's reads and type checks: what it learns, or the first command that fails. */
    method RetirePreflight(K: RetireKeys, agent: string) returns (r: Answer<(Option<string>, Option<string>)>)
      ensures r.Ok? <==> K.Preflight(db)
      ensures r.Ok? ==> r.value == (Field(db, K.registry, agent), Text(db, K.lead))
    {
      hide Items, Entries, Text, Fields;
      var portType :- HGet(db, K.registry, agent);
      var lead :- Get(db, K.lead);
      var lists := [K.processing, K.opening, K.ingress, K.undeliverable, K.unresolved];
      var i := 0;
      while i < |lists|
        invariant 0 <= i <= |lists|
        invariant forall j :: 0 <= j < i ==> Listy(db, lists[j])
      {
        if !Listy(db, lists[i]) { return Err(WrongType(lists[i])); }
        i := i + 1;
      }
      assert Listy(db, lists[0]) && Listy(db, lists[1]) && Listy(db, lists[2]) && Listy(db, lists[3]) && Listy(db, lists[4]);
      if !Streamy(db, K.inbox) { return Err(WrongType(K.inbox)); }
      if !Listy(db, K.retiredInbox) { return Err(WrongType(K.retiredInbox)); }
      r := Ok((portType, lead));
    }

    /** _REMOVE_MEMBERSHIP_AND_OWN_LEAD_LUA */
    method Retire(K: RetireKeys, agent: string) returns (r: Answer<()>)
      requires K.Distinct()
      modifies this
      ensures r.Err? ==> db == old(db)
      ensures r.Ok? <==> K.Preflight(old(db))
      ensures r.Ok? ==> K.Withdrawn(old(db), db, agent)
    {
      hide K.Preflight, K.Withdrawn;
      var found :- RetirePreflight(K, agent);
      RetireWrites(K, agent, found.0, found.1);
      r := Ok(());
    }

    method RetireWrites(K: RetireKeys, agent: string, portType: Option<string>, lead: Option<string>)
      requires K.Distinct() && K.Preflight(db)
      requires portType == Field(db, K.registry, agent) && lead == Text(db, K.lead)
      modifies this
      ensures K.Withdrawn(old(db), db, agent)
    {
      hide PutItems, PutFields, SameExcept, Items, Fields, Text, Entries, Listy, Hashy, Stringy, Streamy;
      hide K.Deleted, K.Distinct, K.Touched, Undeliverables, Unresolveds, RetiredInbox, InboxReason, Field;
      var processing := Sure(LRange(db, K.processing));
      var opening := Sure(LRange(db, K.opening));
      var ingress := Sure(LRange(db, K.ingress));
      var undeliverable := Undeliverables(agent, processing + ingress);
      var unresolved := Unresolveds(agent, opening);
      var entries := Sure(XRange(db, K.inbox));
      var reason := InboxReason(portType);
      var retiredInbox := RetiredInbox(agent, reason, entries);

      ghost var s0 := db;
      Deregister(K, agent, lead);
      ghost var s1 := db;
      EvidenceStillLists(K, s0, s1);
      Conserve(K, undeliverable, unresolved, retiredInbox);
      ghost var s2 := db;
      DelAll(K.Deleted());
      RetireAdds(K, [s0, s1, s2, db]);
    }

    method Deregister(K: RetireKeys, agent: string, lead: Option<string>)
      requires K.Distinct() && Hashy(db, K.registry) && Stringy(db, K.lead) && lead == Text(db, K.lead)
      modifies this
      ensures Hashy(db, K.registry) && Fields(db, K.registry) == Fields(old(db), K.registry) - {agent}
      ensures Stringy(db, K.lead) && Text(db, K.lead) == if lead == Some(agent) then None else lead
      ensures SameExcept(db, old(db), {K.registry, K.lead})
    {
      hide PutFields, SameExcept, Fields, Text, Hashy, Stringy, K.Deleted;
      ghost var s0 := db;
      db := Sure(HDel(db, K.registry, agent));
      ghost var s1 := db;
      Untouched(s1, s0, {K.registry}, K.lead);
      if lead == Some(agent) { db := Del(db, K.lead); }
      LeadAfter(s1, db, K.lead, agent);
      Untouched(db, s1, {K.lead}, K.registry);
      Chain(db, s1, s0, {K.lead}, {K.registry});
      assert {K.lead} + {K.registry} == {K.registry, K.lead};
    }

    /** The three evidence lists, one RPUSH a record. */
    method Conserve(K: RetireKeys, undeliverable: seq<Item>, unresolved: seq<Item>, retiredInbox: seq<Item>)
      requires K.Distinct()
      requires Listy(db, K.undeliverable) && Listy(db, K.unresolved) && Listy(db, K.retiredInbox)
      modifies this
      ensures Items(db, K.undeliverable) == Items(old(db), K.undeliverable) + undeliverable
      ensures Items(db, K.unresolved) == Items(old(db), K.unresolved) + unresolved
      ensures Items(db, K.retiredInbox) == Items(old(db), K.retiredInbox) + retiredInbox
      ensures SameExcept(db, old(db), {K.undeliverable, K.unresolved, K.retiredInbox})
    {
      hide SameExcept, Items, Listy, K.Deleted;
      ghost var s0 := db;
      PushAll(K.undeliverable, undeliverable);
      ghost var s1 := db;
      Untouched(s1, s0, {K.undeliverable}, K.unresolved);
      Untouched(s1, s0, {K.undeliverable}, K.retiredInbox);
      PushAll(K.unresolved, unresolved);
      ghost var s2 := db;
      Untouched(s2, s1, {K.unresolved}, K.undeliverable);
      Untouched(s2, s1, {K.unresolved}, K.retiredInbox);
      PushAll(K.retiredInbox, retiredInbox);
      Untouched(db, s2, {K.retiredInbox}, K.undeliverable);
      Untouched(db, s2, {K.retiredInbox}, K.unresolved);
      Chain(s2, s1, s0, {K.unresolved}, {K.undeliverable});
      Chain(db, s2, s0, {K.retiredInbox}, {K.unresolved} + {K.undeliverable});
      assert {K.retiredInbox} + ({K.unresolved} + {K.undeliverable}) == {K.undeliverable, K.unresolved, K.retiredInbox};
    }

    /** _PUBLISH_MEMBERSHIP_LUA */
    method PublishMembership(K: PublishKeys, agent: string, portType: string, newId: string) returns (r: Answer<()>)
      requires K.Distinct()
      modifies this
      ensures r.Err? ==> db == old(db)
      ensures r.Ok? <==> Hashy(old(db), K.registry)
      ensures r.Ok? ==> K.Published(old(db), db, agent, portType, newId, "", false)
    {
      hide PutItems, PutFields;
      var member :- HGet(db, K.registry, agent);
      var bound := K.incarnation in db;
      if member.None? || !bound { db := Set(db, K.incarnation, newId); }
      db := Sure(HSet(db, K.registry, agent, portType));
      r := Ok(());
    }

    /** _PUBLISH_WINDOW_CAUSE_LUA */
    method PublishWindowCause(K: PublishKeys, cause: string, agent: string, portType: string, newId: string)
      returns (r: Answer<()>)
      requires K.Distinct() && cause != ""
      modifies this
      ensures r.Err? ==> db == old(db)
      ensures r.Ok? <==> Hashy(old(db), K.registry)
      ensures r.Ok? ==> K.Published(old(db), db, agent, portType, newId, cause, false)
    {
      hide PutItems, PutFields, SameExcept, Items, Fields, Text, Listy, Hashy, Stringy, Set;
      var member :- HGet(db, K.registry, agent);
      var bound := K.incarnation in db;
      ghost var s0 := db;
      if member.None? || !bound { db := Set(db, K.incarnation, newId); }
      ghost var s1 := db;
      Same(s0, {K.incarnation});
      Untouched(s1, s0, {K.incarnation}, K.registry);
      db := Sure(HSet(db, K.registry, agent, portType));
      ghost var s2 := db;
      db := Set(db, K.cause, cause);
      ghost var s := [s0, s1, s2, db];
      ghost var at := [{K.incarnation}, {K.registry}, {K.cause}];
      Kept(s, at, 2, 3, K.registry);
      SameAt(s, at, 1, 3, K.incarnation);
      ChainAll(s, at, 3);
      assert Named(at[..3]) == K.Written(cause, false) by {
        assert at[..3] == at;
        assert K.incarnation in at[0] && K.registry in at[1] && K.cause in at[2];
      }
      r := Ok(());
    }

    /** _PUBLISH_LEAD_MEMBERSHIP_LUA: 1 when the lead was claimed, 0 when an incumbent was kept. */
    method PublishLeadMembership(K: PublishKeys, agent: string, portType: string, cause: string, newId: string)
      returns (r: Answer<nat>)
      requires K.Distinct()
      modifies this
      ensures r.Err? ==> db == old(db)
      ensures r.Ok? <==> Stringy(old(db), K.lead) && Hashy(old(db), K.registry)
      ensures r.Ok? ==> r.value == if Vacant(Text(old(db), K.lead)) then 1 else 0
      ensures r.Ok? ==> K.Published(old(db), db, agent, portType, newId, cause, r.value == 1)
    {
      hide PutItems, PutFields, SameExcept, Items, Fields, Text, Listy, Hashy, Stringy, Set;
      var incumbent :- Get(db, K.lead);
      var member :- HGet(db, K.registry, agent);
      var bound := K.incarnation in db;
      ghost var s0 := db;
      if cause != "" { db := Set(db, K.cause, cause); }
      ghost var s1 := db;
      if member.None? || !bound { db := Set(db, K.incarnation, newId); }
      ghost var s2 := db;
      Same(s0, {});
      Same(s1, {K.incarnation});
      ghost var ofCause := if cause != "" then {K.cause} else {};
      Kept([s0, s1, s2], [ofCause, {K.incarnation}], 0, 2, K.registry);
      db := Sure(HSet(db, K.registry, agent, portType));
      ghost var s3 := db;
      if Vacant(incumbent) { db := Set(db, K.lead, agent); }
      Same(s3, {});
      ghost var ofLead := if Vacant(incumbent) then {K.lead} else {};
      LeadKept(K, [s0, s1, s2, s3, db], [ofCause, {K.incarnation}, {K.registry}, ofLead], cause, Vacant(incumbent));
      r := Ok(if Vacant(incumbent) then 1 else 0);
    }
  }
}
