/** h-app/core/envelope.py: the version-four frame, its two parsers and its two in-place splices. */
module Envelope {
  import opened Prelude
  import opened Keys
  import Utf8

  const NAME_WIDTH: nat := 63
  const SOURCE_START: nat := 65
  const DESTINATION_START: nat := 128
  const TTL_START: nat := 191
  const HOPS_START: nat := 194
  const RESERVED_START: nat := 197
  const HEADER_WIDTH: nat := 256
  const DEFAULT_TTL: nat := 16

  /** EnvelopeError is what callers catch; parse and encode let the JSON library's other errors through. */
  datatype Fault = EnvelopeError | Uncaught

  type Answer<T> = Result<T, Fault>

  /** What the fixed-width header carries. */
  datatype Header = Header(streamId: string, correlationId: string, source: string, destination: string, ttl: nat, hops: nat) {
    predicate Valid() {
      && IsHexId(streamId) && IsHexId(correlationId) && IsSegment(source)
      && (destination == "all" || IsSegment(destination)) && ttl <= 999 && hops <= 999
    }
  }

  /** json.dumps with compact separators, None when it raises, and json.loads. */
  datatype Codec = Codec(dumps: JVal -> Option<string>, loads: string -> Loads) {
    /** The assumption about the JSON library: what dumps writes is ASCII, and loads reads it back. */
    ghost predicate Faithful() { forall v :: ReadsBack(v) }

    predicate ReadsBack(v: JVal) {
      dumps(v).Some? ==> loads(dumps(v).value) == Loaded(v) && Utf8.IsAsciiText(dumps(v).value)
    }
  }

  // ---- text helpers ----

  /** str.isspace, as str.rstrip uses it. */
  predicate IsSpace(c: char) {
    var n := c as int;
    || 0x09 <= n <= 0x0D || 0x1C <= n <= 0x20 || n == 0x85 || n == 0xA0 || n == 0x1680
    || 0x2000 <= n <= 0x200A || n == 0x2028 || n == 0x2029 || n == 0x202F || n == 0x205F || n == 0x3000
  }

  function RStrip(t: string): string
    decreases |t|
  {
    if t != [] && IsSpace(t[|t| - 1]) then RStrip(t[..|t| - 1]) else t
  }

  function Spaces(n: nat): (t: string)
    ensures |t| == n
  {
    seq(n, _ => ' ')
  }

  /** str.ljust(NAME_WIDTH) */
  function Pad(name: string): (t: string)
    requires |name| <= NAME_WIDTH
    ensures |t| == NAME_WIDTH
  {
    name + Spaces(NAME_WIDTH - |name|)
  }

  function Digit(n: nat): char
    requires n < 10
  {
    "0123456789"[n]
  }

  /** f"{n:03d}" */
  function Digits(n: nat): (t: string)
    requires n <= 999
    ensures |t| == 3
  {
    [Digit(n / 100), Digit(n / 10 % 10), Digit(n % 10)]
  }

  function DigitValue(c: char): int { c as int - '0' as int }

  /** _parse_counter: three blanks mean the field was never allocated. */
  function ParseCounter(t: string, default_: nat): Answer<nat>
    requires |t| == 3
  {
    if t == "   " then Ok(default_)
    else if !(IsDigit(t[0]) && IsDigit(t[1]) && IsDigit(t[2])) then Err(EnvelopeError)
    else Ok(100 * DigitValue(t[0]) + 10 * DigitValue(t[1]) + DigitValue(t[2]))
  }

  // ---- the parsers ----

  /** parse_for_switch on text. */
  function ParseHeader(t: string): (r: Answer<Header>)
    ensures r.Ok? ==> |t| >= HEADER_WIDTH && r.value.Valid()
  {
    if |t| < HEADER_WIDTH || t[0] != '4' then Err(EnvelopeError)
    else if !IsHexId(t[1..33]) || !IsHexId(t[33..SOURCE_START]) then Err(EnvelopeError)
    else
      var source := RStrip(t[SOURCE_START..DESTINATION_START]);
      var destination := RStrip(t[DESTINATION_START..TTL_START]);
      if !IsSegment(source) || !(destination == "all" || IsSegment(destination)) then Err(EnvelopeError)
      else
        var ttl :- ParseCounter(t[TTL_START..HOPS_START], DEFAULT_TTL);
        var hops :- ParseCounter(t[HOPS_START..RESERVED_START], 0);
        Ok(Header(t[1..33], t[33..SOURCE_START], source, destination, ttl, hops))
  }

  function HeaderBytes(raw: Raw): Raw { if |raw| <= HEADER_WIDTH then raw else raw[..HEADER_WIDTH] }

  /** parse_for_switch on bytes: only the header is decoded, and strictly as ASCII. */
  function ParseForSwitch(raw: Raw): (r: Answer<Header>)
    ensures r.Ok? ==> |raw| >= HEADER_WIDTH && r.value.Valid() && Utf8.IsAscii(raw[..HEADER_WIDTH])
  {
    var text := Utf8.DecodeAscii(HeaderBytes(raw));
    if text.None? then Err(EnvelopeError) else ParseHeader(text.value)
  }

  function Segment(v: JVal): Answer<string> {
    if v.JStr? && IsSegment(v.text) then Ok(v.text) else Err(EnvelopeError)
  }

  /** _address */
  predicate IsAddress(v: JVal, broadcast: bool) {
    || (broadcast && v == JStr("all"))
    || (v.JStr? &&
        var parts := Split(v.text, ':');
        |parts| == 3 && IsSegment(parts[0]) && IsSegment(parts[1])
        && ((broadcast && parts[2] == "all") || IsSegment(parts[2])))
  }

  predicate NonEmptyText(v: JVal) { v.JStr? && v.text != "" }

  /** _validate_body does not raise. */
  predicate ValidBody(frame: map<string, JVal>) {
    && NonEmptyText(Lookup(frame, "kind")) && NonEmptyText(Lookup(frame, "ts"))
    && Lookup(frame, "l3").JObj?
    && IsAddress(Lookup(Lookup(frame, "l3").members, "source"), false)
    && IsAddress(Lookup(Lookup(frame, "l3").members, "destination"), true)
    && Lookup(frame, "payload").JObj?
  }

  /** The body object; only JSONDecodeError is turned into EnvelopeError. */
  function Body(loads: Loads): Answer<map<string, JVal>> {
    if loads.TooManyDigits? || loads.TooDeep? then Err(Uncaught)
    else if loads.NotJson? || !loads.value.JObj? || !ValidBody(loads.value.members) then Err(EnvelopeError)
    else Ok(loads.value.members)
  }

  /** The header and the body object of a frame parse accepts. */
  function Parts(codec: Codec, raw: Raw): Answer<(Header, map<string, JVal>)> {
    var text := Utf8.Decode(raw);
    if text.None? then Err(EnvelopeError)
    else
      var header :- ParseHeader(text.value);
      var body :- Body(codec.loads(text.value[HEADER_WIDTH..]));
      Ok((header, body))
  }

  function L2(source: string, destination: string): JVal {
    JObj(map["source" := JStr(source), "destination" := JStr(destination)])
  }

  function HeaderFields(h: Header): map<string, JVal> {
    map["v" := JNum(4), "stream_id" := JStr(h.streamId), "correlation_id" := JStr(h.correlationId),
        "l2" := L2(h.source, h.destination), "ttl" := JNum(h.ttl), "hops" := JNum(h.hops)]
  }

  /** parse on bytes: {**header, **body}, so a body key wins over a header key of the same name. */
  function Parse(codec: Codec, raw: Raw): Answer<map<string, JVal>> {
    var parts :- Parts(codec, raw);
    Ok(HeaderFields(parts.0) + parts.1)
  }

  // ---- encode ----

  function Identifier(v: JVal): Answer<string> { if v.JStr? && IsHexId(v.text) then Ok(v.text) else Err(EnvelopeError) }

  function Counter(v: JVal): (r: Answer<nat>)
    ensures r.Ok? ==> r.value <= 999
  {
    if v.JNum? && 0 <= v.number <= 999 then Ok(v.number) else Err(EnvelopeError)
  }

  function GetOr(m: map<string, JVal>, key: string, default_: JVal): JVal { if key in m then m[key] else default_ }

  /** The header encode writes for a frame. */
  function HeaderOf(frame: map<string, JVal>): (r: Answer<Header>)
    ensures r.Ok? ==> r.value.Valid()
  {
    if Lookup(frame, "v") != JNum(4) then Err(EnvelopeError)
    else
      var streamId :- Identifier(Lookup(frame, "stream_id"));
      var correlationId :- Identifier(Lookup(frame, "correlation_id"));
      var l2 := Lookup(frame, "l2");
      if !l2.JObj? then Err(EnvelopeError)
      else
        var source :- Segment(Lookup(l2.members, "source"));
        var destination :- if Lookup(l2.members, "destination") == JStr("all") then Ok("all")
                           else Segment(Lookup(l2.members, "destination"));
        var ttl :- Counter(GetOr(frame, "ttl", JNum(DEFAULT_TTL)));
        var hops :- Counter(GetOr(frame, "hops", JNum(0)));
        Ok(Header(streamId, correlationId, source, destination, ttl, hops))
  }

  const BODY_FIELDS: set<string> := {"kind", "ts", "l3", "payload", "in_reply_to"}

  function BodyOf(frame: map<string, JVal>): map<string, JVal> {
    map k | k in frame && k in BODY_FIELDS :: frame[k]
  }

  function HeaderText(h: Header): (t: string)
    requires h.Valid()
    ensures |t| == HEADER_WIDTH
  {
    "4" + h.streamId + h.correlationId + Pad(h.source) + Pad(h.destination) + Digits(h.ttl) + Digits(h.hops)
    + Spaces(HEADER_WIDTH - RESERVED_START)
  }

  function Encode(codec: Codec, frame: map<string, JVal>): Answer<string> {
    var header :- HeaderOf(frame);
    if !ValidBody(frame) then Err(EnvelopeError)
    else if "in_reply_to" in frame && Identifier(frame["in_reply_to"]).Err? then Err(EnvelopeError)
    else
      var body := codec.dumps(JObj(BodyOf(frame)));
      if body.None? then Err(Uncaught) else Ok(HeaderText(header) + body.value)
  }

  // ---- reading back what was written ----

  lemma {:induction false} RStripSpaces(t: string, n: nat)
    requires t == "" || !IsSpace(t[|t| - 1])
    ensures RStrip(t + Spaces(n)) == t
    decreases n
  {
    var s := t + Spaces(n);
    if n > 0 {
      assert s[..|s| - 1] == t + Spaces(n - 1);
      RStripSpaces(t, n - 1);
    } else {
      assert s == t;
    }
  }

  lemma PadStrips(name: string)
    requires IsSegment(name) || name == "all"
    ensures |name| <= NAME_WIDTH && RStrip(Pad(name)) == name && Utf8.IsAsciiText(Pad(name))
  {
    if IsSegment(name) {
      assert name[|name| - 1] in name;
      forall i | 0 <= i < |Pad(name)| ensures Pad(name)[i] as int < 0x80 {
        if i < |name| { assert name[i] in name; }
      }
    }
    RStripSpaces(name, NAME_WIDTH - |name|);
  }

  lemma DigitsParse(n: nat, default_: nat)
    requires n <= 999
    ensures ParseCounter(Digits(n), default_) == Ok(n) && Utf8.IsAsciiText(Digits(n))
  {
    hide Digit, DigitValue;
    DigitSum(n);
    DigitIs(n / 100);
    DigitIs(n / 10 % 10);
    DigitIs(n % 10);
  }

  lemma DigitSum(n: nat)
    requires n <= 999
    ensures n / 100 < 10 && n == 100 * (n / 100) + 10 * (n / 10 % 10) + n % 10
  {
  }

  lemma DigitIs(n: nat)
    requires n < 10
    ensures IsDigit(Digit(n)) && DigitValue(Digit(n)) == n && Digit(n) as int < 0x80
  {
  }

  /** Where each field of a written header sits. */
  lemma HeaderSlices(h: Header, rest: string)
    requires h.Valid()
    ensures var t := HeaderText(h) + rest;
      && t[0] == '4' && t[1..33] == h.streamId && t[33..SOURCE_START] == h.correlationId
      && t[SOURCE_START..DESTINATION_START] == Pad(h.source) && t[DESTINATION_START..TTL_START] == Pad(h.destination)
      && t[TTL_START..HOPS_START] == Digits(h.ttl) && t[HOPS_START..RESERVED_START] == Digits(h.hops)
      && t[HEADER_WIDTH..] == rest
  {
    hide Pad, Digits, Spaces, IsSegment, IsHexId;
    assert |h.streamId| == 32 && |h.correlationId| == 32 by { IdWidth(h.streamId); IdWidth(h.correlationId); }
  }

  lemma IdWidth(s: string)
    requires IsHexId(s)
    ensures |s| == 32 && Utf8.IsAsciiText(s)
  {
    forall i | 0 <= i < |s| ensures s[i] as int < 0x80 { assert s[i] in s; }
  }

  /** Whatever follows, a written header is read back field by field. */
  lemma HeaderReadsBack(h: Header, rest: string)
    requires h.Valid()
    ensures ParseHeader(HeaderText(h) + rest) == Ok(h)
  {
    hide Pad, Digits, Spaces, IsSegment, IsHexId, ParseCounter, RStrip, HeaderText;
    HeaderSlices(h, rest);
    PadStrips(h.source);
    PadStrips(h.destination);
    DigitsParse(h.ttl, DEFAULT_TTL);
    DigitsParse(h.hops, 0);
  }

  lemma HeaderIsAscii(h: Header)
    requires h.Valid()
    ensures Utf8.IsAsciiText(HeaderText(h))
  {
    hide Pad, Digits, IsSegment, IsHexId, ParseCounter, RStrip;
    IdWidth(h.streamId);
    IdWidth(h.correlationId);
    PadStrips(h.source);
    PadStrips(h.destination);
    DigitsParse(h.ttl, 0);
    DigitsParse(h.hops, 0);
  }

  /** The frame as it comes back: known keys only, counters filled in. */
  function Canonical(frame: map<string, JVal>, h: Header): map<string, JVal> { HeaderFields(h) + BodyOf(frame) }

  lemma BodyStaysValid(frame: map<string, JVal>)
    requires ValidBody(frame)
    ensures ValidBody(BodyOf(frame))
  {
    hide IsAddress, NonEmptyText;
    assert forall k :: k in BODY_FIELDS ==> Lookup(BodyOf(frame), k) == Lookup(frame, k);
  }

  /** Everything encode accepts, parse and parse_for_switch read back; the header is exactly 256 wide. */
  lemma RoundTrip(codec: Codec, frame: map<string, JVal>)
    requires codec.Faithful() && Encode(codec, frame).Ok?
    ensures var t := Encode(codec, frame).value;
      && Utf8.IsAsciiText(t) && |t| >= HEADER_WIDTH
      && codec.loads(t[HEADER_WIDTH..]) == Loaded(JObj(BodyOf(frame)))
      && ParseForSwitch(Utf8.Bytes(t)) == HeaderOf(frame)
      && Parts(codec, Utf8.Bytes(t)) == Ok((HeaderOf(frame).value, BodyOf(frame)))
      && Parse(codec, Utf8.Bytes(t)) == Ok(Canonical(frame, HeaderOf(frame).value))
  {
    hide HeaderOf, ValidBody, HeaderText, ParseHeader, Utf8.Decode, BodyOf, Header.Valid;
    var h := HeaderOf(frame).value;
    var body := codec.dumps(JObj(BodyOf(frame))).value;
    var head := HeaderText(h);
    var t := head + body;
    assert t == Encode(codec, frame).value;
    assert codec.ReadsBack(JObj(BodyOf(frame)));
    HeaderIsAscii(h);
    HeaderReadsBack(h, body);
    HeaderReadsBack(h, "");
    assert head + "" == head;
    BodyStaysValid(frame);
    Utf8.DecodeBytes(t);
    var raw := Utf8.Bytes(t);
    assert HeaderBytes(raw) == Utf8.Bytes(head);
    Utf8.TextOfBytes(head);
  }

  // ---- build ----

  function Qualified(pod: string, tenant: string, agent: string): string { pod + ":" + tenant + ":" + agent }

  function ResolveDestination(pod: string, tenant: string, destination: string): Answer<(string, string)> {
    if !IsSegment(pod) || !IsSegment(tenant) then Err(EnvelopeError)
    else if destination == "all" then Ok((Qualified(pod, tenant, "all"), "all"))
    else if ':' !in destination then
      if IsSegment(destination) then Ok((Qualified(pod, tenant, destination), destination)) else Err(EnvelopeError)
    else
      var parts := Split(destination, ':');
      if |parts| != 3 || !IsSegment(parts[0]) || !IsSegment(parts[1]) || !IsSegment(parts[2]) then Err(EnvelopeError)
      else if parts[0] != pod || parts[1] != tenant then Err(EnvelopeError)
      else Ok((destination, parts[2]))
  }

  /** `streamId`, `freshId` and `ts` are what uuid4 and the clock supply. */
  function Build(kind: string, source: string, destination: string, payload: JVal, correlation: Option<JVal>,
                 pod: string, tenant: string, inReplyTo: Option<JVal>, streamId: string, freshId: string, ts: string)
    : Answer<map<string, JVal>>
  {
    if kind == "" || !IsSegment(pod) || !IsSegment(tenant) || !IsSegment(source) then Err(EnvelopeError)
    else
      var resolved :- ResolveDestination(pod, tenant, destination);
      if !payload.JObj? then Err(EnvelopeError)
      else
        var correlationId :- if correlation.None? then Ok(freshId) else Identifier(correlation.value);
        var reply :- if inReplyTo.None? then Ok(None) else ReplyId(inReplyTo.value);
        Ok(HeaderFields(Header(streamId, correlationId, source, resolved.1, DEFAULT_TTL, 0))
           + BodyFields(kind, ts, L2(Qualified(pod, tenant, source), resolved.0), payload, reply))
  }

  function ReplyId(v: JVal): Answer<Option<string>> {
    var id :- Identifier(v);
    Ok(Some(id))
  }

  function BodyFields(kind: string, ts: string, l3: JVal, payload: JVal, reply: Option<string>): map<string, JVal> {
    var body := map["kind" := JStr(kind), "ts" := JStr(ts), "l3" := l3, "payload" := payload];
    if reply.None? then body else body["in_reply_to" := JStr(reply.value)]
  }

  lemma QualifiedSplits(pod: string, tenant: string, agent: string)
    requires IsSegment(pod) && IsSegment(tenant) && (IsSegment(agent) || agent == "all")
    ensures Split(Qualified(pod, tenant, agent), ':') == [pod, tenant, agent]
  {
    assert !IsNameChar(':') && ':' !in "all";
    SplitConcat(pod, tenant + [':'] + agent, ':');
    SplitConcat(tenant, agent, ':');
    SplitConcat(agent, "", ':');
    assert pod + [':'] + (tenant + [':'] + agent) == Qualified(pod, tenant, agent);
  }

  lemma ResolvedIsAddress(pod: string, tenant: string, destination: string)
    requires ResolveDestination(pod, tenant, destination).Ok?
    ensures var r := ResolveDestination(pod, tenant, destination).value;
      IsAddress(JStr(r.0), true) && (r.1 == "all" || IsSegment(r.1))
  {
    hide IsSegment, Qualified;
    var r := ResolveDestination(pod, tenant, destination).value;
    if destination == "all" || ':' !in destination { QualifiedSplits(pod, tenant, r.1); }
  }

  const HEADER_FIELDS: set<string> := {"v", "stream_id", "correlation_id", "l2", "ttl", "hops"}

  lemma FieldsApart(h: Header, kind: string, ts: string, l3: JVal, payload: JVal, reply: Option<string>)
    ensures HeaderFields(h).Keys == HEADER_FIELDS
    ensures BodyFields(kind, ts, l3, payload, reply).Keys <= BODY_FIELDS
    ensures HEADER_FIELDS !! BODY_FIELDS
  {
  }

  lemma BodyFieldsAreValid(kind: string, ts: string, l3: JVal, payload: JVal, reply: Option<string>)
    requires kind != "" && ts != "" && payload.JObj? && l3.JObj?
    requires IsAddress(Lookup(l3.members, "source"), false) && IsAddress(Lookup(l3.members, "destination"), true)
    ensures ValidBody(BodyFields(kind, ts, l3, payload, reply))
    ensures "in_reply_to" in BodyFields(kind, ts, l3, payload, reply) <==> reply.Some?
    ensures reply.Some? ==> BodyFields(kind, ts, l3, payload, reply)["in_reply_to"] == JStr(reply.value)
  {
    hide IsAddress;
  }

  lemma HeaderFieldsReadBack(h: Header)
    requires h.Valid()
    ensures HeaderOf(HeaderFields(h)) == Ok(h)
  {
    hide IsSegment, IsHexId;
    var l2 := L2(h.source, h.destination);
    assert Lookup(l2.members, "source") == JStr(h.source) && Lookup(l2.members, "destination") == JStr(h.destination);
  }

  /** A frame made of header fields and disjoint body fields is canonical. */
  lemma MergedIsCanonical(h: Header, body: map<string, JVal>)
    requires h.Valid() && body.Keys <= BODY_FIELDS && HEADER_FIELDS !! BODY_FIELDS && HeaderFields(h).Keys == HEADER_FIELDS
    requires ValidBody(body)
    ensures var frame := HeaderFields(h) + body;
      HeaderOf(frame) == Ok(h) && Canonical(frame, h) == frame && ValidBody(frame)
      && ("in_reply_to" in frame <==> "in_reply_to" in body) && ("in_reply_to" in body ==> frame["in_reply_to"] == body["in_reply_to"])
  {
    hide HeaderFields, IsAddress, NonEmptyText, Identifier, Segment, Counter, Header.Valid;
    var frame := HeaderFields(h) + body;
    HeaderFieldsReadBack(h);
    assert forall k :: k in HEADER_FIELDS ==> Lookup(frame, k) == Lookup(HeaderFields(h), k);
    assert forall k :: k in BODY_FIELDS ==> Lookup(frame, k) == Lookup(body, k);
    assert BodyOf(frame) == body;
  }

  /** A frame built for this office goes through encode and parse unchanged, whenever its body can be written at all. */
  lemma BuildRoundTrip(codec: Codec, kind: string, source: string, destination: string, payload: JVal,
                       correlation: Option<JVal>, pod: string, tenant: string, inReplyTo: Option<JVal>,
                       streamId: string, freshId: string, ts: string)
    requires codec.Faithful() && IsHexId(streamId) && IsHexId(freshId) && ts != ""
    requires Build(kind, source, destination, payload, correlation, pod, tenant, inReplyTo, streamId, freshId, ts).Ok?
    ensures var frame := Build(kind, source, destination, payload, correlation, pod, tenant, inReplyTo, streamId, freshId, ts).value;
      && (Encode(codec, frame).Ok? <==> codec.dumps(JObj(BodyOf(frame))).Some?)
      && (Encode(codec, frame).Ok? ==>
            && Utf8.IsAsciiText(Encode(codec, frame).value)
            && Parse(codec, Utf8.Bytes(Encode(codec, frame).value)) == Ok(frame))
  {
    hide IsSegment, IsHexId, HeaderText, Split, Parts, Qualified, ValidBody, HeaderOf, Canonical, IsAddress,
      ResolveDestination, HeaderFields, BodyFields, HEADER_FIELDS, BODY_FIELDS;
    var resolved := ResolveDestination(pod, tenant, destination).value;
    var correlationId := if correlation.None? then freshId else correlation.value.text;
    var reply := if inReplyTo.None? then None else Some(inReplyTo.value.text);
    var l3 := L2(Qualified(pod, tenant, source), resolved.0);
    var h := Header(streamId, correlationId, source, resolved.1, DEFAULT_TTL, 0);
    var body := BodyFields(kind, ts, l3, payload, reply);
    SourceIsAddress(pod, tenant, source);
    ResolvedIsAddress(pod, tenant, destination);
    assert Lookup(l3.members, "source") == JStr(Qualified(pod, tenant, source));
    assert Lookup(l3.members, "destination") == JStr(resolved.0);
    FieldsApart(h, kind, ts, l3, payload, reply);
    BodyFieldsAreValid(kind, ts, l3, payload, reply);
    MergedIsCanonical(h, body);
    if Encode(codec, HeaderFields(h) + body).Ok? { RoundTrip(codec, HeaderFields(h) + body); }
  }

  lemma SourceIsAddress(pod: string, tenant: string, source: string)
    requires IsSegment(pod) && IsSegment(tenant) && IsSegment(source)
    ensures IsAddress(JStr(Qualified(pod, tenant, source)), false)
  {
    hide IsSegment, Qualified;
    QualifiedSplits(pod, tenant, source);
  }
}
