/** The custody protocol's judgements, made by the frame parser itself, and the frames that make receive raise. */
module PortFrames {
  import opened Prelude
  import opened Keys
  import opened Custody
  import opened CustodyEvidence
  import opened Receive
  import Utf8
  import E = Envelope
  import Splice

  function VerdictOf(parsed: E.Answer<map<string, JVal>>): Verdict {
    match parsed
    case Ok(_) => Accepted
    case Err(EnvelopeError) => Refused
    case Err(Uncaught) => Broken
  }

  /** What _open_received looks up in an accepted frame. */
  function Field(codec: E.Codec, raw: Raw, key: string): JVal {
    var parsed := E.Parse(codec, raw);
    if parsed.Ok? then Lookup(parsed.value, key) else JNull
  }

  /** A port that opens the frames of these kinds. */
  function ConfigOf(codec: E.Codec, kinds: set<string>): Config {
    Config(
      raw => VerdictOf(E.Parse(codec, raw)),
      raw => Field(codec, raw, "kind").JStr? && Field(codec, raw, "kind").text in kinds,
      raw => Utf8.Decode(raw).Some?,
      raw => Field(codec, raw, "l2").JObj?)
  }

  /** What such a port accepts, it can decode again. */
  lemma AcceptedDecodes(codec: E.Codec, kinds: set<string>, raw: Raw)
    requires ConfigOf(codec, kinds).Accepts(raw)
    ensures ConfigOf(codec, kinds).decodes(raw)
  {
    hide Utf8.Decode, E.Parse;
    Splice.AcceptedDecodes(codec, raw);
  }

  /** An accepted frame has a kind, the one its body brings, and an opener exactly if that kind has one. */
  lemma OpensExactly(codec: E.Codec, kinds: set<string>, raw: Raw)
    requires ConfigOf(codec, kinds).Accepts(raw)
    ensures E.Parts(codec, raw).Ok?
    ensures var kind := Lookup(E.Parts(codec, raw).value.1, "kind");
      kind.JStr? && (ConfigOf(codec, kinds).opens(raw) <==> kind.text in kinds)
  {
    hide Utf8.Decode, E.ParseHeader;
    var parts := E.Parts(codec, raw).value;
    assert E.Parse(codec, raw) == Ok(E.HeaderFields(parts.0) + parts.1);
    assert "kind" in parts.1;
  }

  /** A frame that parses, has an opener, and whose sender can be told. */
  predicate Deliverable(codec: E.Codec, kinds: set<string>, raw: Raw) {
    var cfg := ConfigOf(codec, kinds); cfg.Accepts(raw) && cfg.opens(raw) && cfg.answerable(raw)
  }

  lemma BuiltFields(kind: string, source: string, destination: string, payload: JVal, correlation: Option<JVal>, pod: string,
                    tenant: string, inReplyTo: Option<JVal>, streamId: string, freshId: string, ts: string)
    requires E.Build(kind, source, destination, payload, correlation, pod, tenant, inReplyTo, streamId, freshId, ts).Ok?
    ensures var frame :=
        E.Build(kind, source, destination, payload, correlation, pod, tenant, inReplyTo, streamId, freshId, ts).value;
      Lookup(frame, "kind") == JStr(kind) && Lookup(frame, "l2").JObj?
  {
    hide IsSegment, IsHexId, E.ResolveDestination, E.Identifier, E.Qualified;
  }

  /** A frame a sender builds and writes to the queue parses, can be answered, and has an opener exactly if its kind has one. */
  lemma BuiltFramesOpen(codec: E.Codec, kinds: set<string>, kind: string, source: string, destination: string, payload: JVal,
                        correlation: Option<JVal>, pod: string, tenant: string, inReplyTo: Option<JVal>,
                        streamId: string, freshId: string, ts: string)
    requires codec.Faithful() && IsHexId(streamId) && IsHexId(freshId) && ts != ""
    requires E.Build(kind, source, destination, payload, correlation, pod, tenant, inReplyTo, streamId, freshId, ts).Ok?
    requires E.Encode(
      codec,
      E.Build(kind, source, destination, payload, correlation, pod, tenant, inReplyTo, streamId, freshId, ts).value).Ok?
    ensures var frame :=
        E.Build(kind, source, destination, payload, correlation, pod, tenant, inReplyTo, streamId, freshId, ts).value;
      var text := E.Encode(codec, frame).value;
      && Utf8.IsAsciiText(text)
      && var cfg, raw := ConfigOf(codec, kinds), Utf8.Bytes(text);
         cfg.Accepts(raw) && cfg.answerable(raw) && (cfg.opens(raw) <==> kind in kinds)
  {
    hide IsSegment, IsHexId, E.Parse, E.Encode, E.Build, Utf8.Decode, Utf8.IsAsciiText, Utf8.Bytes, Lookup, E.BodyOf,
      E.Codec.Faithful;
    E.BuildRoundTrip(codec, kind, source, destination, payload, correlation, pod, tenant, inReplyTo, streamId, freshId, ts);
    BuiltFields(kind, source, destination, payload, correlation, pod, tenant, inReplyTo, streamId, freshId, ts);
  }

  /**
   A frame of a kind without opener is never handed to one, nor is one that does not parse, in any run of any
   number of ports.
   */
  lemma UnknownKindNeverStarts(codec: E.Codec, kinds: set<string>, events: seq<Event>, raw: Raw)
    requires E.Parts(codec, raw).Err? || forall kind :: kind in kinds ==>
      Lookup(E.Parts(codec, raw).value.1, "kind") != JStr(kind)
    ensures Called(ConfigOf(codec, kinds), events, raw) == 0
    ensures raw !in Run(ConfigOf(codec, kinds), events).openedLog
  {
    var cfg := ConfigOf(codec, kinds);
    if cfg.Accepts(raw) { OpensExactly(codec, kinds, raw); }
    hide Run, Called, ConfigOf, E.Parts;
    if raw in Run(cfg, events).started || raw in Run(cfg, events).openedLog { OnlyAcceptedFramesOpen(cfg, events, raw); }
    CalledIsStarted(cfg, events, raw);
  }

  /** The sender of an accepted frame cannot be looked up exactly when the body brings an `l2` of its own that is no object. */
  lemma AnswerableExactly(codec: E.Codec, kinds: set<string>, raw: Raw)
    requires ConfigOf(codec, kinds).Accepts(raw)
    ensures E.Parts(codec, raw).Ok?
    ensures var body := E.Parts(codec, raw).value.1;
      ConfigOf(codec, kinds).answerable(raw) <==> ("l2" in body ==> body["l2"].JObj?)
  {
    hide Utf8.Decode, E.ParseHeader, E.ValidBody;
    var parts := E.Parts(codec, raw).value;
    assert E.Parse(codec, raw) == Ok(E.HeaderFields(parts.0) + parts.1);
  }

  /** parse raises something else than EnvelopeError exactly for a good header over a body the JSON library gives up on. */
  lemma BreaksExactly(codec: E.Codec, kinds: set<string>, raw: Raw)
    ensures ConfigOf(codec, kinds).Breaks(raw) <==>
      && Utf8.Decode(raw).Some? && E.ParseHeader(Utf8.Decode(raw).value).Ok?
      && var loads := codec.loads(Utf8.Decode(raw).value[E.HEADER_WIDTH..]); loads.TooManyDigits? || loads.TooDeep?
  {
    hide Utf8.Decode, E.ValidBody;
    if Utf8.Decode(raw).Some? { HeaderFaults(Utf8.Decode(raw).value); }
    hide E.ParseHeader;
  }

  /** The header's own faults are all EnvelopeErrors. */
  lemma HeaderFaults(t: string)
    ensures E.ParseHeader(t).Err? ==> E.ParseHeader(t).error == E.EnvelopeError
  {
    hide IsSegment, IsHexId, E.RStrip;
  }

  // ---- a queue of deliverable frames ----

  /** Of these frames, handed to their openers every fourth command, those whose opener ended so. */
  function Ending(opener: (Raw, nat) -> OpenerEnd, frames: seq<Raw>, at: nat, outcome: Outcome): seq<Raw>
    decreases |frames|
  {
    if frames == [] then []
    else (if opener(frames[0], at + 2) == Ends(outcome) then [frames[0]] else []) + Ending(opener, frames[1..], at + 4, outcome)
  }

  function Failures(raws: seq<Raw>): seq<Tagged<Doubt>> {
    seq(|raws|, i requires 0 <= i < |raws| => Tagged(OpenerFailed, raws[i]))
  }

  /** Every frame reaches its opener, in order, and is then exactly where its own opener's end puts it. */
  ghost predicate Served(opener: (Raw, nat) -> OpenerEnd, frames: seq<Raw>, at: nat, m: Marks, after: Marks) {
    && after.started == m.started + frames
    && after.dead == m.dead + Ending(opener, frames, at, RaisesDeadLetter)
    && after.unresolved == m.unresolved + Failures(Ending(opener, frames, at, RaisesOther))
    && after.receipts == KeepLast(m.receipts + Ending(opener, frames, at, Returns), OPENED_RECEIPT_MAX)
  }

  /** One deliverable frame is handed to its opener and recorded by its end. */
  lemma DeliverableMarked(codec: E.Codec, kinds: set<string>, opener: (Raw, nat) -> OpenerEnd, raw: Raw, at: nat, m: Marks)
    requires Deliverable(codec, kinds, raw) && opener(raw, at + 2).Ends? && |m.receipts| <= OPENED_RECEIPT_MAX
    ensures var cfg := ConfigOf(codec, kinds);
      && !Trips(cfg, opener, raw, at) && Commands(cfg, raw) == 3
      && Marked(cfg, opener, raw, at, m) == MarkOutcome(raw, opener(raw, at + 2).outcome, m.(started := m.started + [raw]))
      && |Marked(cfg, opener, raw, at, m).receipts| <= OPENED_RECEIPT_MAX
  {
    hide ConfigOf, KeepLast;
  }

  lemma EndingFirst(opener: (Raw, nat) -> OpenerEnd, raw: Raw, rest: seq<Raw>, at: nat, outcome: Outcome)
    ensures Ending(opener, [raw] + rest, at, outcome)
      == (if opener(raw, at + 2) == Ends(outcome) then [raw] else []) + Ending(opener, rest, at + 4, outcome)
  {
    assert ([raw] + rest)[1..] == rest;
  }

  lemma FailuresFirst(m: seq<Tagged<Doubt>>, raw: Raw, failed: seq<Raw>)
    ensures m + [Tagged(OpenerFailed, raw)] + Failures(failed) == m + Failures([raw] + failed)
  {
    assert [Tagged(OpenerFailed, raw)] + Failures(failed) == Failures([raw] + failed);
  }

  lemma Regroup<T>(a: seq<T>, x: T, b: seq<T>)
    ensures a + [x] + b == a + ([x] + b) && [] + b == b
  {
  }

  lemma ServedFirst(opener: (Raw, nat) -> OpenerEnd, raw: Raw, rest: seq<Raw>, at: nat, m: Marks, after: Marks)
    requires opener(raw, at + 2).Ends?
    requires Served(opener, rest, at + 4, MarkOutcome(raw, opener(raw, at + 2).outcome, m.(started := m.started + [raw])), after)
    ensures Served(opener, [raw] + rest, at, m, after)
  {
    hide KeepLast, Ending, Failures;
    EndingFirst(opener, raw, rest, at, RaisesDeadLetter);
    EndingFirst(opener, raw, rest, at, Returns);
    EndingFirst(opener, raw, rest, at, RaisesOther);
    var dead, said := Ending(opener, rest, at + 4, RaisesDeadLetter), Ending(opener, rest, at + 4, Returns);
    var failed := Ending(opener, rest, at + 4, RaisesOther);
    Regroup(m.started, raw, rest);
    Regroup(m.dead, raw, dead);
    Regroup(m.receipts, raw, said);
    Regroup(m.receipts, raw, failed);
    FailuresFirst(m.unresolved, raw, failed);
    KeepLastTwice(m.receipts + [raw], said, OPENED_RECEIPT_MAX);
  }

  lemma NothingServed(opener: (Raw, nat) -> OpenerEnd, at: nat, m: Marks)
    requires |m.receipts| <= OPENED_RECEIPT_MAX
    ensures Served(opener, [], at, m, m)
  {
    assert m.unresolved + Failures([]) == m.unresolved && m.receipts + [] == m.receipts;
  }

  /** Frames that are all deliverable are all opened, and none of them stops receive. */
  lemma {:induction false} DeliverableServed(codec: E.Codec, kinds: set<string>, opener: (Raw, nat) -> OpenerEnd,
      frames: seq<Raw>,
                                             at: nat, m: Marks)
    requires forall raw :: raw in frames ==> Deliverable(codec, kinds, raw)
    requires forall raw, k :: !opener(raw, k).Dies?
    requires |m.receipts| <= OPENED_RECEIPT_MAX
    ensures Reach(ConfigOf(codec, kinds), opener, frames, at) == |frames|
    ensures Served(opener, frames, at, m, MarkedAll(ConfigOf(codec, kinds), opener, frames, at, m))
    decreases |frames|
  {
    hide ConfigOf, KeepLast, Served, Deliverable, Trips, Marked, MarkOutcome, Commands;
    var cfg := ConfigOf(codec, kinds);
    if frames == [] {
      NothingServed(opener, at, m);
    } else {
      var raw, rest := frames[0], frames[1..];
      assert !opener(raw, at + 2).Dies?;
      DeliverableMarked(codec, kinds, opener, raw, at, m);
      var next := Marked(cfg, opener, raw, at, m);
      DeliverableServed(codec, kinds, opener, rest, at + 4, next);
      assert [raw] + rest == frames;
      ServedFirst(opener, raw, rest, at, m, MarkedAll(cfg, opener, rest, at + 4, next));
    }
  }

  /**
   receive, undisturbed, on an office whose queue holds deliverable frames only: it returns with the queue
   empty, every frame was handed to its opener in the order of the queue, and each is recorded as its
   opener ended.
   */
  method ReceiveDeliverable(port: Port, codec: E.Codec, kinds: set<string>) returns (exit: Exit)
    requires port.Valid() && port.id !in port.sys.ports && port.cfg == ConfigOf(codec, kinds) && port.Quiet()
    requires port.lists.processing == [] && port.lists.opening == []
    requires forall raw :: raw in port.lists.ingress ==> Deliverable(codec, kinds, raw)
    requires port.life >= 4 * |port.lists.ingress| + 6
    modifies port
    ensures exit == Fine && port.lists.ingress == [] && port.lists.processing == [] && port.lists.opening == []
    ensures Served(port.opener, old(port.lists.ingress), old(port.issued) + 3, MarksOf(old(port.sys)), MarksOf(port.sys))
  {
    hide Served, Deliverable, ConfigOf, MarkedAll, Reach, Run;
    ghost var before := MarksOf(port.sys);
    CappedListsAreNewest(port.cfg, port.trace);
    DeliverableServed(codec, kinds, port.opener, port.lists.ingress, port.issued + 3, before);
    assert Surfaced(before, []) == before by { NothingSurfaced(before); }
    assert [] + port.lists.ingress == port.lists.ingress;
    exit := port.Receive();
  }

  lemma NothingSurfaced(m: Marks)
    ensures Surfaced(m, []) == m
  {
    assert m.unresolved + Exited([]) == m.unresolved;
  }

  // ---- two kinds of frames ----

  /** A frame as a writer of the queue may put it together. */
  function FrameOf(h: E.Header, text: string): Raw
    requires h.Valid() && Utf8.IsAsciiText(text)
  {
    E.HeaderIsAscii(h);
    Utf8.Bytes(E.HeaderText(h) + text)
  }

  lemma FrameReadsBack(codec: E.Codec, h: E.Header, text: string)
    requires h.Valid() && Utf8.IsAsciiText(text)
    ensures Utf8.Decode(FrameOf(h, text)) == Some(E.HeaderText(h) + text)
    ensures E.ParseHeader(E.HeaderText(h) + text) == Ok(h) && (E.HeaderText(h) + text)[E.HEADER_WIDTH..] == text
  {
    hide E.HeaderText, E.ParseHeader, Utf8.Decode, E.Header.Valid;
    E.HeaderIsAscii(h);
    E.HeaderReadsBack(h, text);
    Utf8.DecodeBytes(E.HeaderText(h) + text);
  }

  /** {"kind": ..., "ts": "t", "l3": {...}, "payload": {}, "l2": null} */
  function NullL2(kind: string, pod: string, tenant: string, a: string, b: string): map<string, JVal> {
    map["kind" := JStr(kind), "ts" := JStr("t"), "payload" := JObj(map[]), "l2" := JNull,
        "l3" := E.L2(E.Qualified(pod, tenant, a), E.Qualified(pod, tenant, b))]
  }

  lemma NullL2IsValid(kind: string, pod: string, tenant: string, a: string, b: string)
    requires kind != "" && IsSegment(pod) && IsSegment(tenant) && IsSegment(a) && IsSegment(b)
    ensures E.ValidBody(NullL2(kind, pod, tenant, a, b))
  {
    hide IsSegment, E.Qualified;
    E.QualifiedSplits(pod, tenant, a);
    E.QualifiedSplits(pod, tenant, b);
  }

  /**
   A frame of a kind without opener whose body says `"l2": null` parses, is moved to dead, and then
   makes receive raise: the sender is looked up outside the notice's own try.
   */
  lemma NullL2Trips(codec: E.Codec, kinds: set<string>, opener: (Raw, nat) -> OpenerEnd, at: nat, h: E.Header, text: string,
                    kind: string, pod: string, tenant: string, a: string, b: string)
    requires h.Valid() && Utf8.IsAsciiText(text) && codec.loads(text) == Loaded(JObj(NullL2(kind, pod, tenant, a, b)))
    requires kind != "" && kind !in kinds && IsSegment(pod) && IsSegment(tenant) && IsSegment(a) && IsSegment(b)
    ensures var cfg, raw := ConfigOf(codec, kinds), FrameOf(h, text);
      && cfg.Accepts(raw) && !cfg.opens(raw) && !cfg.answerable(raw)
      && Trips(cfg, opener, raw, at) && Reach(cfg, opener, [raw], at) == 0
  {
    hide IsSegment, E.HeaderText, E.ParseHeader, Utf8.Decode, E.ValidBody, E.Header.Valid, FrameOf, E.Qualified;
    FrameReadsBack(codec, h, text);
    NullL2IsValid(kind, pod, tenant, a, b);
    var raw, body := FrameOf(h, text), NullL2(kind, pod, tenant, a, b);
    assert E.Parse(codec, raw) == Ok(E.HeaderFields(h) + body);
    assert Lookup(E.HeaderFields(h) + body, "l2") == JNull && Lookup(E.HeaderFields(h) + body, "kind") == JStr(kind);
  }

  /** A good header over a body with an integer of too many digits, or nested too deep, pins the port: no copy is ever settled. */
  lemma HugeBodyStays(codec: E.Codec, kinds: set<string>, h: E.Header, text: string, events: seq<Event>)
    requires h.Valid() && Utf8.IsAsciiText(text) && (codec.loads(text).TooManyDigits? || codec.loads(text).TooDeep?)
    ensures var s, raw := Run(ConfigOf(codec, kinds), events), FrameOf(h, text);
      multiset(s.lists.ingress)[raw] + multiset(s.lists.processing)[raw] + multiset(s.lists.undeliverable)[raw]
        == multiset(s.admitted)[raw]
  {
    hide Run, E.HeaderText, E.ParseHeader, Utf8.Decode, E.Header.Valid, FrameOf, ConfigOf;
    FrameReadsBack(codec, h, text);
    BreaksExactly(codec, kinds, FrameOf(h, text));
    BrokenFramesStay(ConfigOf(codec, kinds), events, FrameOf(h, text));
  }
}
