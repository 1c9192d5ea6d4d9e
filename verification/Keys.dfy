/** h-app/core/keys.py: the only constructor of Redis keys. */
module Keys {
  import opened Prelude

  const RESERVED: set<string> := {"pod", "tenant", "agent", "all"}

  predicate IsDigit(c: char) { '0' <= c <= '9' }

  predicate IsNameChar(c: char) { 'a' <= c <= 'z' || IsDigit(c) || c == '-' }

  /** SEGMENT_REGEX.fullmatch */
  predicate MatchesSegment(s: string) {
    && 1 <= |s| <= 63 && s[0] != '-'
    && (forall c :: c in s ==> IsNameChar(c))
  }

  /** validate_segment: it matches, is not reserved, is not all digits. */
  predicate IsSegment(s: string) {
    && MatchesSegment(s)
    && s !in RESERVED
    && !(forall c :: c in s ==> IsDigit(c))
  }

  /** str.split(sep) for a one-character separator. */
  function Split(s: string, sep: char): (parts: seq<string>)
    ensures parts != []
  {
    if s == [] then [""]
    else
      var rest := Split(s[1..], sep);
      if s[0] == sep then [""] + rest else [[s[0]] + rest[0]] + rest[1..]
  }

  /** sep.join(parts) */
  function Join(parts: seq<string>, sep: char): string {
    if parts == [] then ""
    else if |parts| == 1 then parts[0]
    else parts[0] + [sep] + Join(parts[1..], sep)
  }

  ghost predicate Free(parts: seq<string>, sep: char) { forall i :: 0 <= i < |parts| ==> sep !in parts[i] }

  lemma {:induction false} SplitConcat(a: string, b: string, sep: char)
    requires sep !in a
    ensures Split(a + [sep] + b, sep) == [a] + Split(b, sep)
    ensures Split(a, sep) == [a]
    decreases |a|
  {
    if a == [] {
      assert a + [sep] + b == [sep] + b && ([sep] + b)[1..] == b;
    } else {
      SplitConcat(a[1..], b, sep);
      assert (a + [sep] + b)[1..] == a[1..] + [sep] + b;
      assert [a[0]] + a[1..] == a;
    }
  }

  /** Splitting a joined key gives the parts back. */
  lemma {:induction false} SplitJoin(parts: seq<string>, sep: char)
    requires parts != [] && Free(parts, sep)
    ensures Split(Join(parts, sep), sep) == parts
    decreases |parts|
  {
    if |parts| == 1 {
      SplitConcat(parts[0], "", sep);
    } else {
      SplitJoin(parts[1..], sep);
      SplitConcat(parts[0], Join(parts[1..], sep), sep);
      assert [parts[0]] + parts[1..] == parts;
    }
  }

  predicate IsResource(r: string) {
    r != "" && forall part :: part in Split(r, '.') ==> IsSegment(part)
  }

  /** A key's coordinates; `prefix` raises unless they are all valid. */
  datatype Coordinates = Coordinates(pod: string, tenant: string, agent: Option<string>, resource: Option<string>) {
    predicate Valid() {
      && IsSegment(pod) && IsSegment(tenant)
      && (agent.Some? ==> IsSegment(agent.value))
      && (resource.Some? ==> IsResource(resource.value))
    }

    function Parts(): seq<string> {
      ["pod", pod, "tenant", tenant]
      + (if agent.Some? then ["agent", agent.value] else [])
      + (if resource.Some? then [resource.value] else [])
    }
  }

  /** prefix(pod, tenant, agent, resource); None stands for the KeyError. */
  function Prefix(c: Coordinates): Option<string> {
    if c.Valid() then Some(Join(c.Parts(), ':')) else None
  }

  lemma {:induction false} SplitKeepsOut(s: string, sep: char, c: char)
    requires c != sep && forall i :: 0 <= i < |Split(s, sep)| ==> c !in Split(s, sep)[i]
    ensures c !in s
    decreases |s|
  {
    if s != [] {
      var parts, rest := Split(s, sep), Split(s[1..], sep);
      forall i | 0 <= i < |rest| ensures c !in rest[i] {
        if s[0] == sep { assert parts[i + 1] == rest[i]; }
        else if i == 0 { assert parts[0] == [s[0]] + rest[0]; }
        else { assert parts[i] == rest[i]; }
      }
      SplitKeepsOut(s[1..], sep, c);
      assert s[0] != sep ==> s[0] in parts[0];
    }
  }

  lemma ResourceHasNo(r: string, c: char)
    requires IsResource(r) && !IsNameChar(c) && c != '.'
    ensures c !in r
  {
    var parts := Split(r, '.');
    forall i | 0 <= i < |parts| ensures c !in parts[i] { assert parts[i] in parts; }
    SplitKeepsOut(r, '.', c);
  }

  lemma PartsAreFree(c: Coordinates)
    requires c.Valid()
    ensures Free(c.Parts(), ':') && Split(Prefix(c).value, ':') == c.Parts()
  {
    if c.resource.Some? { ResourceHasNo(c.resource.value, ':'); }
    assert !IsNameChar(':');
    SplitJoin(c.Parts(), ':');
  }

  /** No two valid resources share a key. */
  lemma PrefixInjective(a: Coordinates, b: Coordinates)
    requires a.Valid() && b.Valid() && Prefix(a) == Prefix(b)
    ensures a == b
  {
    PartsAreFree(a);
    PartsAreFree(b);
    var p, q := a.Parts(), b.Parts();
    assert p == q;
    assert p[1] == a.pod && q[1] == b.pod && p[3] == a.tenant && q[3] == b.tenant;
    if a.agent.Some? { assert p[5] == a.agent.value; }
    if b.agent.Some? { assert q[5] == b.agent.value; }
    if a.resource.Some? { assert p[|p| - 1] == a.resource.value; }
    if b.resource.Some? { assert q[|q| - 1] == b.resource.value; }
  }

  /** source_key.split(":")[-2] on an agent's key is that agent: how the switch names the sender. */
  lemma SenderOfKey(c: Coordinates)
    requires c.Valid() && c.agent.Some? && c.resource.Some?
    ensures var parts := Split(Prefix(c).value, ':'); |parts| >= 2 && parts[|parts| - 2] == c.agent.value
  {
    PartsAreFree(c);
  }

  // ---- the delivered-claim key of h-app/lib/reply_correlation.py ----

  predicate IsHexChar(c: char) { IsDigit(c) || 'a' <= c <= 'f' }

  predicate IsHexId(s: string) { |s| == 32 && forall c :: c in s ==> IsHexChar(c) }

  function DeliveredResource(streamId: string, incarnation: string): string {
    "delivered" + ['.'] + ("s" + streamId + ['.'] + ("i" + incarnation))
  }

  lemma PrefixedIdIsSegment(letter: char, id: string)
    requires IsHexId(id) && 'a' <= letter <= 'z'
    ensures IsSegment([letter] + id)
  {
    var s := [letter] + id;
    assert letter in s && |s| == 33;
    assert forall r :: r in RESERVED ==> |r| <= 6;
    forall c | c in s ensures IsNameChar(c) { assert c == letter || c in id; }
  }

  lemma DeliveredIsSegment()
    ensures IsSegment("delivered") && '.' !in "delivered"
  {
    assert 'd' in "delivered" by { assert "delivered"[0] == 'd'; }
    assert forall r :: r in RESERVED ==> |r| <= 6;
  }

  /** The letter prefixes make every id usable, all-digit ids included. */
  lemma DeliveredResourceIsValid(streamId: string, incarnation: string)
    requires IsHexId(streamId) && IsHexId(incarnation)
    ensures IsResource(DeliveredResource(streamId, incarnation))
    ensures Split(DeliveredResource(streamId, incarnation), '.') == ["delivered", "s" + streamId, "i" + incarnation]
  {
    hide IsSegment, Split;
    var s, i := "s" + streamId, "i" + incarnation;
    assert "s" == ['s'] && "i" == ['i'];
    DeliveredIsSegment();
    PrefixedIdIsSegment('s', streamId);
    PrefixedIdIsSegment('i', incarnation);
    SegmentHasNoDot(s);
    SegmentHasNoDot(i);
    SplitConcat("delivered", s + ['.'] + i, '.');
    SplitConcat(s, i, '.');
    SplitConcat(i, "", '.');
    assert "delivered" + ['.'] + (s + ['.'] + i) == DeliveredResource(streamId, incarnation);
    assert ["delivered"] + ([s] + [i]) == ["delivered", s, i];
  }

  lemma SegmentHasNoDot(s: string)
    requires IsSegment(s)
    ensures '.' !in s
  {
    assert !IsNameChar('.');
  }

  /** The delivered key of one agent, one frame and one incarnation determines all three. */
  lemma DeliveredKeyInjective(pod: string, tenant: string, a: string, sid: string, inc: string, b: string, sid': string,
      inc': string)
    requires IsSegment(pod) && IsSegment(tenant) && IsSegment(a) && IsSegment(b)
    requires IsHexId(sid) && IsHexId(inc) && IsHexId(sid') && IsHexId(inc')
    requires Prefix(Coordinates(pod, tenant, Some(a), Some(DeliveredResource(sid, inc))))
          == Prefix(Coordinates(pod, tenant, Some(b), Some(DeliveredResource(sid', inc'))))
    ensures a == b && sid == sid' && inc == inc'
  {
    DeliveredResourceIsValid(sid, inc);
    DeliveredResourceIsValid(sid', inc');
    PrefixInjective(Coordinates(pod, tenant, Some(a), Some(DeliveredResource(sid, inc))),
                    Coordinates(pod, tenant, Some(b), Some(DeliveredResource(sid', inc'))));
    var p, q := Split(DeliveredResource(sid, inc), '.'), Split(DeliveredResource(sid', inc'), '.');
    assert p[1][1..] == sid && q[1][1..] == sid' && p[2][1..] == inc && q[2][1..] == inc';
  }

  /** is_valid_reply_id: `$` with re.match also lets one trailing newline through. */
  predicate IsValidReplyId(s: string) {
    IsHexId(s) || (|s| == 33 && s[32] == '\n' && IsHexId(s[..32]))
  }

  /** Such an id is never a usable key: `prefix` raises on it, so nothing is recorded or verified under it. */
  lemma TrailingNewlineHasNoKey(s: string, incarnation: string)
    requires IsValidReplyId(s) && !IsHexId(s)
    ensures !IsResource(DeliveredResource(s, incarnation))
  {
    var r := DeliveredResource(s, incarnation);
    assert r[|"delivered"| + 2 + 32] == s[32] == '\n';
    if IsResource(r) { ResourceHasNo(r, '\n'); }
  }
}
