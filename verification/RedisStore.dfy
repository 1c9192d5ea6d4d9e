/**
 A Redis database as typed values: a command on a key of the wrong type is an error, and a key
 whose list or hash becomes empty is gone.
 */
module RedisStore {
  import opened Prelude

  type Key = string

  /** A custody or inbox record; its JSON text is taken as an invertible encoding. */
  datatype Record =
    | CustodyRecord(agent: string, reason: string, envelopeHex: string)
    | OpeningRecord(agent: string, reason: string, envelope: Raw)
    | InboxRecord(agent: string, reason: string, entryId: string, fieldsHex: seq<(string, string)>)

  datatype Item = Frame(raw: Raw) | Json(record: Record)

  datatype Entry = Entry(id: string, fields: seq<(Raw, Raw)>)

  datatype Value =
    | Str(text: string)
    | List(items: seq<Item>)
    | Hash(fields: map<string, string>)
    | Stream(entries: seq<Entry>)
    | OtherValue

  type Store = map<Key, Value>

  datatype WrongType = WrongType(key: Key)

  type Answer<T> = Result<T, WrongType>

  /** A command issued after its script's preflight: it must be shown that it cannot fail. */
  function Sure<T>(answer: Answer<T>): T
    requires answer.Ok?
  {
    answer.value
  }

  predicate Listy(db: Store, k: Key) { k in db ==> db[k].List? }
  predicate Stringy(db: Store, k: Key) { k in db ==> db[k].Str? }
  predicate Hashy(db: Store, k: Key) { k in db ==> db[k].Hash? }
  predicate Streamy(db: Store, k: Key) { k in db ==> db[k].Stream? }

  function Items(db: Store, k: Key): seq<Item> { if k in db && db[k].List? then db[k].items else [] }
  function Fields(db: Store, k: Key): map<string, string> { if k in db && db[k].Hash? then db[k].fields else map[] }
  function Entries(db: Store, k: Key): seq<Entry> { if k in db && db[k].Stream? then db[k].entries else [] }

  /** What GET would answer, for a key that is a string or absent. */
  function Text(db: Store, k: Key): Option<string> { if k in db && db[k].Str? then Some(db[k].text) else None }

  /** What HGET would answer, for a key that is a hash or absent. */
  function Field(db: Store, k: Key, field: string): Option<string> {
    if field in Fields(db, k) then Some(Fields(db, k)[field]) else None
  }

  ghost predicate SameExcept(a: Store, b: Store, changed: set<Key>) {
    forall k :: k !in changed ==> (k in a <==> k in b) && (k in a ==> a[k] == b[k])
  }

  /** A key outside the changed ones reads as before, whatever its type. */
  lemma Untouched(a: Store, b: Store, changed: set<Key>, k: Key)
    requires SameExcept(a, b, changed) && k !in changed
    ensures k in a <==> k in b
    ensures k in a ==> a[k] == b[k]
    ensures Items(a, k) == Items(b, k) && Fields(a, k) == Fields(b, k) && Text(a, k) == Text(b, k)
    ensures Listy(a, k) == Listy(b, k) && Hashy(a, k) == Hashy(b, k) && Stringy(a, k) == Stringy(b, k)
  {
  }

  lemma Same(db: Store, changed: set<Key>)
    ensures SameExcept(db, db, changed)
  {
  }

  lemma Chain(a: Store, b: Store, c: Store, x: set<Key>, y: set<Key>)
    requires SameExcept(a, b, x) && SameExcept(b, c, y)
    ensures SameExcept(a, c, x + y)
  {
  }

  /** Successive databases `s`, each differing from the one before only at the keys in `at`. */
  ghost predicate Steps(s: seq<Store>, at: seq<set<Key>>) {
    && |s| == |at| + 1
    && forall i :: 0 <= i < |at| ==> SameExcept(s[i + 1], s[i], at[i])
  }

  /** A key that steps i to j do not name reads the same after them. */
  lemma {:induction false} Kept(s: seq<Store>, at: seq<set<Key>>, i: nat, j: nat, k: Key)
    requires Steps(s, at) && i <= j <= |at|
    requires forall n :: i <= n < j ==> k !in at[n]
    ensures Items(s[j], k) == Items(s[i], k) && Fields(s[j], k) == Fields(s[i], k) && Text(s[j], k) == Text(s[i], k)
    ensures Listy(s[j], k) == Listy(s[i], k) && Hashy(s[j], k) == Hashy(s[i], k) && Stringy(s[j], k) == Stringy(s[i], k)
    decreases j - i
  {
    hide SameExcept, Items, Fields, Text, Hashy, Stringy, Listy;
    if i < j {
      Untouched(s[i + 1], s[i], at[i], k);
      Kept(s, at, i + 1, j, k);
    }
  }

  lemma {:induction false} SameAt(s: seq<Store>, at: seq<set<Key>>, i: nat, j: nat, k: Key)
    requires Steps(s, at) && i <= j <= |at|
    requires forall n :: i <= n < j ==> k !in at[n]
    ensures k in s[j] <==> k in s[i]
    ensures k in s[j] ==> s[j][k] == s[i][k]
    decreases j - i
  {
    hide SameExcept;
    if i < j {
      Untouched(s[i + 1], s[i], at[i], k);
      SameAt(s, at, i + 1, j, k);
    }
  }

  /** The keys any of the steps names. */
  ghost function Named(at: seq<set<Key>>): set<Key> { set n, k | 0 <= n < |at| && k in at[n] :: k }

  lemma {:induction false} ChainAll(s: seq<Store>, at: seq<set<Key>>, j: nat)
    requires Steps(s, at) && j <= |at|
    ensures SameExcept(s[j], s[0], Named(at[..j]))
    decreases j
  {
    hide SameExcept;
    if j == 0 {
      Same(s[0], Named(at[..0]));
    } else {
      ChainAll(s, at, j - 1);
      Chain(s[j], s[j - 1], s[0], at[j - 1], Named(at[..j - 1]));
      assert Named(at[..j]) == at[j - 1] + Named(at[..j - 1]) by {
        assert at[..j] == at[..j - 1] + [at[j - 1]];
        forall k ensures k in Named(at[..j]) <==> k in at[j - 1] + Named(at[..j - 1]) {
          if k in at[j - 1] { assert k in at[..j][j - 1]; }
          if k in Named(at[..j - 1]) {
            var n :| 0 <= n < j - 1 && k in at[..j - 1][n];
            assert k in at[..j][n];
          }
        }
      }
    }
  }

  function Set(db: Store, k: Key, text: string): (after: Store)
    ensures SameExcept(after, db, {k}) && Stringy(after, k) && Text(after, k) == Some(text)
    ensures k in after && after[k] == Str(text)
  {
    db[k := Str(text)]
  }

  function Del(db: Store, k: Key): (after: Store)
    ensures SameExcept(after, db, {k}) && k !in after
  {
    db - {k}
  }

  function PutItems(db: Store, k: Key, items: seq<Item>): (after: Store)
    ensures SameExcept(after, db, {k}) && Listy(after, k) && Items(after, k) == items
  {
    if items == [] then db - {k} else db[k := List(items)]
  }

  function PutFields(db: Store, k: Key, fields: map<string, string>): (after: Store)
    ensures SameExcept(after, db, {k}) && Hashy(after, k) && Fields(after, k) == fields
  {
    if fields == map[] then db - {k} else db[k := Hash(fields)]
  }

  function Get(db: Store, k: Key): Answer<Option<string>> {
    if Stringy(db, k) then Ok(Text(db, k)) else Err(WrongType(k))
  }

  function LRange(db: Store, k: Key): Answer<seq<Item>> {
    if Listy(db, k) then Ok(Items(db, k)) else Err(WrongType(k))
  }

  function RPush(db: Store, k: Key, x: Item): Answer<Store> {
    if Listy(db, k) then Ok(PutItems(db, k, Items(db, k) + [x])) else Err(WrongType(k))
  }

  /** LREM key 1 x */
  function LRem(db: Store, k: Key, x: Item): Answer<Store> {
    if !Listy(db, k) then Err(WrongType(k))
    else Ok(if x in Items(db, k) then PutItems(db, k, RemoveFirst(Items(db, k), x)) else db)
  }

  /** LTRIM key -cap -1 */
  function LTrim(db: Store, k: Key, cap: nat): Answer<Store> {
    if Listy(db, k) then Ok(PutItems(db, k, KeepLast(Items(db, k), cap))) else Err(WrongType(k))
  }

  function HGet(db: Store, k: Key, field: string): Answer<Option<string>> {
    if !Hashy(db, k) then Err(WrongType(k))
    else Ok(Field(db, k, field))
  }

  function HSet(db: Store, k: Key, field: string, text: string): Answer<Store> {
    if Hashy(db, k) then Ok(PutFields(db, k, Fields(db, k)[field := text])) else Err(WrongType(k))
  }

  function HDel(db: Store, k: Key, field: string): Answer<Store> {
    if Hashy(db, k) then Ok(PutFields(db, k, Fields(db, k) - {field})) else Err(WrongType(k))
  }

  function XRange(db: Store, k: Key): Answer<seq<Entry>> {
    if Streamy(db, k) then Ok(Entries(db, k)) else Err(WrongType(k))
  }

  // ---- hex, as the retirement script writes it and the receipt trace reads it ----

  const HEX := "0123456789abcdef"

  /** string.format('%02x', byte) over a frame */
  function Hex(raw: Raw): (h: string)
    ensures |h| == 2 * |raw|
  {
    if raw == [] then "" else [HEX[raw[0] / 16], HEX[raw[0] % 16]] + Hex(raw[1..])
  }

  function HexDigit(c: char): (d: int)
    ensures -1 <= d < 16
  {
    if '0' <= c <= '9' then c as int - '0' as int
    else if 'a' <= c <= 'f' then c as int - 'a' as int + 10
    else -1
  }

  /** The trace's gsub('..'): each pair that is not two hex digits reads as 63. */
  function Unhex(h: string): Raw {
    if |h| < 2 then []
    else
      var hi, lo := HexDigit(h[0]), HexDigit(h[1]);
      [if hi < 0 || lo < 0 then 63 else 16 * hi + lo] + Unhex(h[2..])
  }

  lemma HexDigitOfHex(n: int)
    requires 0 <= n < 16
    ensures HexDigit(HEX[n]) == n
  {
    if n < 10 { assert HEX[n] == ("0123456789"[n]); }
  }

  /** Hex evidence decodes to the exact bytes. */
  lemma {:induction false} UnhexHex(raw: Raw)
    ensures Unhex(Hex(raw)) == raw
    decreases |raw|
  {
    if raw != [] {
      UnhexHex(raw[1..]);
      HexDigitOfHex(raw[0] / 16);
      HexDigitOfHex(raw[0] % 16);
      var h := Hex(raw);
      assert h[2..] == Hex(raw[1..]);
      assert [raw[0]] + raw[1..] == raw;
    }
  }

  /** Decoding only the first 2n digits gives the first n bytes. */
  lemma {:induction false} UnhexPrefix(raw: Raw, n: nat)
    ensures Unhex(if |Hex(raw)| <= 2 * n then Hex(raw) else Hex(raw)[..2 * n]) == if |raw| <= n then raw else raw[..n]
    decreases |raw|
  {
    if |raw| <= n {
      UnhexHex(raw);
    } else {
      HexTake(raw, n);
      UnhexHex(raw[..n]);
    }
  }

  lemma {:induction false} HexTake(raw: Raw, n: nat)
    requires n <= |raw|
    ensures Hex(raw)[..2 * n] == Hex(raw[..n])
    decreases n
  {
    if n > 0 {
      HexTake(raw[1..], n - 1);
      assert raw[..n][1..] == raw[1..][..n - 1];
      assert Hex(raw)[..2 * n] == Hex(raw)[..2] + Hex(raw)[2..][..2 * (n - 1)];
    }
  }
}
