/** The switch's two in-place edits of a frame's bytes, and how often a frame can be forwarded. */
module Splice {
  import opened Prelude
  import opened Keys
  import opened Envelope
  import Utf8

  /** stamp_source on bytes. */
  function Stamp(raw: Raw, source: string): (r: Raw)
    requires |raw| >= HEADER_WIDTH && |source| <= NAME_WIDTH && Utf8.IsAsciiText(Pad(source))
    ensures |r| == |raw|
    ensures forall i :: 0 <= i < |raw| && !(SOURCE_START <= i < DESTINATION_START) ==> r[i] == raw[i]
  {
    raw[..SOURCE_START] + Utf8.Bytes(Pad(source)) + raw[DESTINATION_START..]
  }

  function Counters(ttl: nat, hops: nat): (t: string)
    requires ttl <= 999 && hops <= 999
    ensures |t| == 6 && Utf8.IsAsciiText(t)
  {
    DigitsParse(ttl, 0);
    DigitsParse(hops, 0);
    Digits(ttl) + Digits(hops)
  }

  function Hopped(h: Header): Header
    requires h.hops < 999
  {
    h.(ttl := if h.ttl == 0 then 0 else h.ttl - 1, hops := h.hops + 1)
  }

  /** advance_hop on bytes; the second result is the header it leaves. */
  function Advance(raw: Raw, h: Header): (r: Answer<Raw>)
    requires |raw| >= HEADER_WIDTH && h.Valid()
    ensures r.Err? <==> h.hops == 999
    ensures r.Ok? ==> |r.value| == |raw|
    ensures r.Ok? ==> forall i :: 0 <= i < |raw| && !(TTL_START <= i < RESERVED_START) ==> r.value[i] == raw[i]
  {
    if h.hops == 999 then Err(EnvelopeError)
    else Ok(raw[..TTL_START] + Utf8.Bytes(Counters(Hopped(h).ttl, Hopped(h).hops)) + raw[RESERVED_START..])
  }

  // ---- both parsers look at the same 256 characters ----

  lemma HeaderPrefixOnly(t: string, u: string)
    requires |t| >= HEADER_WIDTH && |u| >= HEADER_WIDTH && t[..HEADER_WIDTH] == u[..HEADER_WIDTH]
    ensures ParseHeader(t) == ParseHeader(u)
  {
    hide IsSegment, IsHexId, RStrip, ParseCounter;
    var a, b := t[..HEADER_WIDTH], u[..HEADER_WIDTH];
    assert t[0] == a[0] && u[0] == b[0];
    assert t[1..33] == a[1..33] && u[1..33] == b[1..33];
    assert t[33..SOURCE_START] == a[33..SOURCE_START] && u[33..SOURCE_START] == b[33..SOURCE_START];
    assert t[SOURCE_START..DESTINATION_START] == a[SOURCE_START..DESTINATION_START];
    assert u[SOURCE_START..DESTINATION_START] == b[SOURCE_START..DESTINATION_START];
    assert t[DESTINATION_START..TTL_START] == a[DESTINATION_START..TTL_START];
    assert u[DESTINATION_START..TTL_START] == b[DESTINATION_START..TTL_START];
    assert t[TTL_START..HOPS_START] == a[TTL_START..HOPS_START] && u[TTL_START..HOPS_START] == b[TTL_START..HOPS_START];
    assert t[HOPS_START..RESERVED_START] == a[HOPS_START..RESERVED_START];
    assert u[HOPS_START..RESERVED_START] == b[HOPS_START..RESERVED_START];
  }

  /** A frame with an ASCII header decodes to that header's text, then its body's text. */
  lemma DecodesInTwo(raw: Raw)
    requires |raw| >= HEADER_WIDTH && Utf8.IsAscii(raw[..HEADER_WIDTH])
    ensures var body := Utf8.Decode(raw[HEADER_WIDTH..]);
      Utf8.Decode(raw) == if body.None? then None else Some(Utf8.Text(raw[..HEADER_WIDTH]) + body.value)
  {
    Utf8.DecodeAsciiPrefix(raw[..HEADER_WIDTH], raw[HEADER_WIDTH..]);
    assert raw[..HEADER_WIDTH] + raw[HEADER_WIDTH..] == raw;
  }

  /** What parse makes of the bytes after the header. */
  function BodyPart(codec: Codec, rest: Raw): Answer<map<string, JVal>> {
    var text := Utf8.Decode(rest);
    if text.None? then Err(EnvelopeError)
    else Body(codec.loads(text.value))
  }

  /** Of bytes the switch accepts, parse reads that same header, then the body; it fails only for the body. */
  lemma PartsOfSwitchable(codec: Codec, raw: Raw)
    requires ParseForSwitch(raw).Ok?
    ensures Parts(codec, raw) == match BodyPart(codec, raw[HEADER_WIDTH..])
                                 case Err(e) => Err(e)
                                 case Ok(body) => Ok((ParseForSwitch(raw).value, body))
  {
    hide ParseHeader, ValidBody, Utf8.Decode, Utf8.Text;
    DecodesInTwo(raw);
    assert HeaderBytes(raw) == raw[..HEADER_WIDTH];
    var head := Utf8.Text(raw[..HEADER_WIDTH]);
    var rest := Utf8.Decode(raw[HEADER_WIDTH..]);
    if rest.Some? {
      var t := head + rest.value;
      assert t[..HEADER_WIDTH] == head[..HEADER_WIDTH];
      HeaderPrefixOnly(t, head);
      assert t[HEADER_WIDTH..] == rest.value;
    }
  }

  /** The two parsers never disagree about a header. */
  lemma ParsersAgree(codec: Codec, raw: Raw)
    requires ParseForSwitch(raw).Ok? && Parts(codec, raw).Ok?
    ensures Parts(codec, raw).value.0 == ParseForSwitch(raw).value
  {
    hide ParseForSwitch, Parts, BodyPart;
    PartsOfSwitchable(codec, raw);
  }

  /** A frame parse accepts is UTF-8: the receiver's later decode of it cannot fail. */
  lemma AcceptedDecodes(codec: Codec, raw: Raw)
    requires Parse(codec, raw).Ok?
    ensures Utf8.Decode(raw).Some?
  {
  }

  // ---- the edits change only their own fields ----

  lemma TextSplice(raw: Raw, from: nat, to: nat, middle: string)
    requires from <= to <= HEADER_WIDTH <= |raw| && |middle| == to - from
    requires Utf8.IsAscii(raw[..HEADER_WIDTH]) && Utf8.IsAsciiText(middle)
    ensures var r := raw[..from] + Utf8.Bytes(middle) + raw[to..];
      && |r| == |raw| && Utf8.IsAscii(r[..HEADER_WIDTH]) && r[HEADER_WIDTH..] == raw[HEADER_WIDTH..]
      && var t := Utf8.Text(raw[..HEADER_WIDTH]);
         Utf8.Text(r[..HEADER_WIDTH]) == t[..from] + middle + t[to..]
  {
    var r := raw[..from] + Utf8.Bytes(middle) + raw[to..];
    assert forall i :: 0 <= i < HEADER_WIDTH ==> r[..HEADER_WIDTH][i] == r[i];
    assert forall i :: 0 <= i < HEADER_WIDTH ==> raw[..HEADER_WIDTH][i] == raw[i];
    Utf8.TextOfBytes(middle);
  }

  lemma SourceSplice(t: string, source: string)
    requires |t| == HEADER_WIDTH && ParseHeader(t).Ok? && IsSegment(source) && |source| <= NAME_WIDTH
    ensures ParseHeader(t[..SOURCE_START] + Pad(source) + t[DESTINATION_START..]) == Ok(ParseHeader(t).value.(source := source))
  {
    hide IsSegment, IsHexId, RStrip, ParseCounter, Pad;
    var u := t[..SOURCE_START] + Pad(source) + t[DESTINATION_START..];
    PadStrips(source);
    assert u[0] == t[0] && u[1..33] == t[1..33] && u[33..SOURCE_START] == t[33..SOURCE_START];
    assert u[SOURCE_START..DESTINATION_START] == Pad(source);
    assert u[DESTINATION_START..TTL_START] == t[DESTINATION_START..TTL_START];
    assert u[TTL_START..HOPS_START] == t[TTL_START..HOPS_START] && u[HOPS_START..RESERVED_START] == t[HOPS_START..RESERVED_START];
  }

  lemma CounterSplice(t: string, ttl: nat, hops: nat)
    requires |t| == HEADER_WIDTH && ParseHeader(t).Ok? && ttl <= 999 && hops <= 999
    ensures ParseHeader(t[..TTL_START] + Counters(ttl, hops) + t[RESERVED_START..]) == Ok(ParseHeader(t).value.(ttl := ttl, hops := hops))
  {
    hide IsSegment, IsHexId, RStrip, ParseCounter, Digits;
    var u := t[..TTL_START] + Counters(ttl, hops) + t[RESERVED_START..];
    DigitsParse(ttl, DEFAULT_TTL);
    DigitsParse(hops, 0);
    assert u[0] == t[0] && u[1..33] == t[1..33] && u[33..SOURCE_START] == t[33..SOURCE_START];
    assert u[SOURCE_START..DESTINATION_START] == t[SOURCE_START..DESTINATION_START];
    assert u[DESTINATION_START..TTL_START] == t[DESTINATION_START..TTL_START];
    assert u[TTL_START..HOPS_START] == Digits(ttl) && u[HOPS_START..RESERVED_START] == Digits(hops);
  }

  lemma SwitchReads(raw: Raw)
    requires |raw| >= HEADER_WIDTH && Utf8.IsAscii(raw[..HEADER_WIDTH])
    ensures ParseForSwitch(raw) == ParseHeader(Utf8.Text(raw[..HEADER_WIDTH]))
  {
    assert HeaderBytes(raw) == raw[..HEADER_WIDTH];
  }

  lemma SegmentFits(source: string)
    requires IsSegment(source)
    ensures |source| <= NAME_WIDTH && Utf8.IsAsciiText(Pad(source))
  {
    PadStrips(source);
  }

  /** Stamping replaces the source and nothing else, for the switch and for the receiver. */
  lemma StampExact(codec: Codec, raw: Raw, source: string)
    requires ParseForSwitch(raw).Ok? && IsSegment(source) && |source| <= NAME_WIDTH && Utf8.IsAsciiText(Pad(source))
    ensures var h := ParseForSwitch(raw).value.(source := source);
      && ParseForSwitch(Stamp(raw, source)) == Ok(h)
      && Parts(codec, Stamp(raw, source)) == WithHeader(Parts(codec, raw), h)
  {
    hide IsSegment, ParseHeader, Pad, Utf8.Text, Parts, BodyPart;
    var t := Utf8.Text(raw[..HEADER_WIDTH]);
    SwitchReads(raw);
    TextSplice(raw, SOURCE_START, DESTINATION_START, Pad(source));
    SourceSplice(t, source);
    SwitchReads(Stamp(raw, source));
    PartsOfSwitchable(codec, raw);
    PartsOfSwitchable(codec, Stamp(raw, source));
  }

  function WithHeader(parts: Answer<(Header, map<string, JVal>)>, h: Header): Answer<(Header, map<string, JVal>)> {
    match parts
    case Err(e) => Err(e)
    case Ok((_, body)) => Ok((h, body))
  }

  /** Advancing a hop replaces the two counters and nothing else. */
  lemma AdvanceExact(codec: Codec, raw: Raw)
    requires ParseForSwitch(raw).Ok? && Advance(raw, ParseForSwitch(raw).value).Ok?
    ensures var h := ParseForSwitch(raw).value;
      var r := Advance(raw, h).value;
      && ParseForSwitch(r) == Ok(Hopped(h))
      && Parts(codec, r) == WithHeader(Parts(codec, raw), Hopped(h))
  {
    hide IsSegment, ParseHeader, Utf8.Text, Parts, BodyPart, Counters, Header.Valid;
    var h := ParseForSwitch(raw).value;
    var r := Advance(raw, h).value;
    var t := Utf8.Text(raw[..HEADER_WIDTH]);
    SwitchReads(raw);
    HeaderCounters(h);
    TextSplice(raw, TTL_START, RESERVED_START, Counters(Hopped(h).ttl, Hopped(h).hops));
    CounterSplice(t, Hopped(h).ttl, Hopped(h).hops);
    SwitchReads(r);
    PartsOfSwitchable(codec, raw);
    PartsOfSwitchable(codec, r);
  }

  lemma HeaderCounters(h: Header)
    requires h.Valid()
    ensures h.ttl <= 999 && h.hops <= 999
  {
  }

  // ---- how often a frame can be forwarded ----

  /** What the switch would admit of a frame popped from `sender`'s egress; None if it dead-letters it. */
  function Forwarded(raw: Raw, sender: string): (r: Option<Raw>)
    requires IsSegment(sender)
    ensures r.Some? ==> |r.value| == |raw|
  {
    SegmentFits(sender);
    var header := ParseForSwitch(raw);
    if header.Err? then None
    else
      var stamped := if header.value.source != sender then Stamp(raw, sender) else raw;
      var advanced := Advance(stamped, header.value);
      if advanced.Err? || Hopped(header.value).ttl == 0 then None else Some(advanced.value)
  }

  predicate AllSegments(names: seq<string>) { forall i :: 0 <= i < |names| ==> IsSegment(names[i]) }

  function ForwardedBy(raw: Raw, senders: seq<string>): Option<Raw>
    requires AllSegments(senders)
    decreases |senders|
  {
    hide Forwarded, IsSegment;
    if senders == [] then Some(raw)
    else
      var next := Forwarded(raw, senders[0]);
      if next.None? then None else ForwardedBy(next.value, senders[1..])
  }

  /** How many forwards a header still allows. */
  function Budget(h: Header): int {
    var byTtl := if h.ttl == 0 then 0 else h.ttl - 1;
    var byHops := 999 - h.hops;
    if byTtl < byHops then byTtl else byHops
  }

  /** One forward happens exactly when the budget is not spent, and it changes the header this way only. */
  lemma ForwardedExact(codec: Codec, raw: Raw, sender: string)
    requires ParseForSwitch(raw).Ok? && IsSegment(sender)
    ensures Forwarded(raw, sender).Some? <==> Budget(ParseForSwitch(raw).value) >= 1
    ensures Forwarded(raw, sender).Some? ==>
      var h := Hopped(ParseForSwitch(raw).value.(source := sender));
      && ParseForSwitch(Forwarded(raw, sender).value) == Ok(h)
      && Parts(codec, Forwarded(raw, sender).value) == WithHeader(Parts(codec, raw), h)
      && Budget(h) == Budget(ParseForSwitch(raw).value) - 1
  {
    hide IsSegment, ParseForSwitch, Parts, Stamp, Advance, Pad;
    SegmentFits(sender);
    var h := ParseForSwitch(raw).value;
    HeaderCounters(h);
    var stamped := if h.source != sender then Stamp(raw, sender) else raw;
    if h.source != sender { StampExact(codec, raw, sender); } else { PartsHeader(codec, raw); }
    SameAdvance(stamped, h, sender);
    if Advance(stamped, h).Ok? { AdvanceExact(codec, stamped); }
  }

  lemma PartsHeader(codec: Codec, raw: Raw)
    requires ParseForSwitch(raw).Ok?
    ensures WithHeader(Parts(codec, raw), ParseForSwitch(raw).value) == Parts(codec, raw)
  {
    hide ParseForSwitch, Parts, BodyPart;
    PartsOfSwitchable(codec, raw);
  }

  lemma SameAdvance(raw: Raw, h: Header, sender: string)
    requires |raw| >= HEADER_WIDTH && h.Valid() && IsSegment(sender)
    ensures h.(source := sender).Valid() && Advance(raw, h) == Advance(raw, h.(source := sender))
  {
    hide IsSegment, IsHexId, Counters;
  }

  /** Over any chain of senders, a frame is forwarded each time if and only if there are no more of them than its budget. */
  lemma {:induction false} ForwardsExactly(codec: Codec, raw: Raw, senders: seq<string>)
    requires ParseForSwitch(raw).Ok? && AllSegments(senders)
    ensures ForwardedBy(raw, senders).Some? <==> |senders| <= Budget(ParseForSwitch(raw).value)
    ensures ForwardedBy(raw, senders).Some? && senders != [] ==>
      && ParseForSwitch(ForwardedBy(raw, senders).value).Ok?
      && var h := ParseForSwitch(ForwardedBy(raw, senders).value).value;
         && h.streamId == ParseForSwitch(raw).value.streamId && h.destination == ParseForSwitch(raw).value.destination
         && h.source == senders[|senders| - 1]
         && Parts(codec, ForwardedBy(raw, senders).value) == WithHeader(Parts(codec, raw), h)
    decreases |senders|
  {
    hide IsSegment, ParseForSwitch, Parts, Forwarded;
    HeaderCounters(ParseForSwitch(raw).value);
    if senders != [] {
      ForwardedExact(codec, raw, senders[0]);
      var next := Forwarded(raw, senders[0]);
      if next.Some? { ForwardsExactly(codec, next.value, senders[1..]); }
    }
  }

  /** A built frame is forwarded at most fifteen times. */
  lemma BuiltFramesStop(codec: Codec, frame: map<string, JVal>, senders: seq<string>)
    requires codec.Faithful() && Encode(codec, frame).Ok? && AllSegments(senders)
    requires Lookup(frame, "ttl") == JNum(DEFAULT_TTL) && Lookup(frame, "hops") == JNum(0)
    ensures Utf8.IsAsciiText(Encode(codec, frame).value)
    ensures ForwardedBy(Utf8.Bytes(Encode(codec, frame).value), senders).Some? <==> |senders| <= 15
  {
    hide IsSegment, ParseForSwitch, Parts, Forwarded, ForwardedBy, AllSegments, WithHeader, HeaderOf, ValidBody,
      Header.Valid, Canonical, Parse, BodyOf, HeaderText;
    DefaultBudget(frame);
    RoundTrip(codec, frame);
    ForwardsExactly(codec, Utf8.Bytes(Encode(codec, frame).value), senders);
  }

  lemma DefaultBudget(frame: map<string, JVal>)
    requires HeaderOf(frame).Ok? && Lookup(frame, "ttl") == JNum(DEFAULT_TTL) && Lookup(frame, "hops") == JNum(0)
    ensures Budget(HeaderOf(frame).value) == 15
  {
    hide IsSegment, IsHexId;
  }
}
