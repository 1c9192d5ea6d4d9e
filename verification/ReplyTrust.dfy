/**
 was_delivered, record_delivered and the api port's deliver_api, each command followed by whatever
 other processes do: the trust boundary an `in_reply_to` has to pass.
 */
module ReplyTrust {
  import opened Prelude
  import opened Keys
  import opened Correlation
  import E = Envelope

  lemma {:induction false} RunConcat(a: seq<Event>, b: seq<Event>, n: nat)
    requires n <= |b|
    ensures n < |b| ==> Run(a + b[..n + 1]) == Step(Run(a + b[..n]), b[n])
  {
    if n < |b| {
      assert (a + b[..n + 1])[..|a| + n] == a + b[..n];
      assert a + b[..n + 1] == a + b[..n] + [b[n]];
    }
  }

  /** Others never act under this process's recorder number. */
  ghost predicate NotMe(events: seq<Event>, me: nat) {
    forall i :: 0 <= i < |events| ==>
      (events[i].ReadIncarnation? ==> events[i].recorder != me) && (events[i].WriteClaim? ==> events[i].recorder != me)
  }

  /** `n` moments of the run: does nothing recorded for the current incarnation match? */
  ghost predicate NoMatch(w: World, agent: string, streamId: string, source: string) {
    agent !in w.incarnations || Verify(w, agent, streamId, w.incarnations[agent]) != Some(source)
  }

  /**
     A verified mismatch: the id is malformed, or nobody of that name was hired at the first read,
     or that incarnation had ended by the check, or the check found no matching claim.
   */
  ghost predicate Refuted(atRead: World, atCheck: World, agent: string, streamId: string, source: string) {
    || !IsValidReplyId(streamId) || agent !in atRead.incarnations
    || agent !in atCheck.incarnations || atCheck.incarnations[agent] != atRead.incarnations[agent]
    || NoMatch(atCheck, agent, streamId, source)
  }

  /** Why neither could be told: a command unanswered, or a name or id no key can be made of. */
  ghost predicate Unverifiable(answers: nat -> bool, from: nat, atRead: World, agent: string, streamId: string) {
    || !answers(from) || !answers(from + 1) || !IsSegment(agent)
    || (agent in atRead.incarnations && !IsResource(DeliveredResource(streamId, atRead.incarnations[agent])))
  }

  /** Why an in_reply_to that was kept can be believed, at the moment of the check. */
  ghost predicate Justified(events: seq<Event>, replier: string, streamId: string, client: string) {
    && IsHexId(streamId)
    && (FreshIds(events) ==> exists i: nat, j: nat :: Delivered(events, replier, streamId, client, i, j))
  }

  /** The envelope's own claim, at some moment of the run. */
  ghost predicate Trusted(events: seq<Event>, envelope: map<string, JVal>, client: string) {
    "in_reply_to" in envelope ==>
      && envelope["in_reply_to"].JStr? && Lookup(envelope, "l2").JObj?
      && Lookup(Lookup(envelope, "l2").members, "source").JStr?
      && exists n :: 0 <= n <= |events|
           && Justified(events[..n], Lookup(Lookup(envelope, "l2").members, "source").text, envelope["in_reply_to"].text, client)
  }

  lemma TrustedLater(events: seq<Event>, more: seq<Event>, envelope: map<string, JVal>, client: string)
    requires Trusted(events, envelope, client)
    ensures Trusted(events + more, envelope, client)
  {
    hide Justified;
    if "in_reply_to" in envelope {
      var n :| 0 <= n <= |events|
        && Justified(events[..n], Lookup(Lookup(envelope, "l2").members, "source").text, envelope["in_reply_to"].text, client);
      assert (events + more)[..n] == events[..n];
    }
  }

  /** is_valid_reply_id */
  predicate IsReplyIdValue(v: JVal) { v.JStr? && IsValidReplyId(v.text) }

  /** A well-formed reply id beside an `l2` the body replaced by something that is no object. */
  predicate Raises(envelope: map<string, JVal>) {
    "in_reply_to" in envelope && IsReplyIdValue(envelope["in_reply_to"]) && "l2" in envelope && !envelope["l2"].JObj?
  }

  /** The claim is well-formed and names who replies: it can be put to was_delivered. */
  predicate Checkable(envelope: map<string, JVal>) {
    && "in_reply_to" in envelope && IsReplyIdValue(envelope["in_reply_to"])
    && Lookup(envelope, "l2").JObj? && Lookup(Lookup(envelope, "l2").members, "source").JStr?
    && Lookup(Lookup(envelope, "l2").members, "source").text != ""
  }

  function Replier(envelope: map<string, JVal>): string
    requires Checkable(envelope)
  {
    Lookup(Lookup(envelope, "l2").members, "source").text
  }

  /** What a port hears from the others, beginning at some event and some command. */
  datatype Feed = Feed(others: nat -> seq<Event>, answers: nat -> bool, start: seq<Event>, from: nat)
  {
    /** Everything that has happened when the commands numbered below `n` have been carried out. */
    ghost function Heard(n: nat): seq<Event> { if n <= from then start else Heard(n - 1) + others(n - 1) }

    /** The world the first and the second command of a check meet, if the first has number `at`. */
    ghost function AtRead(at: nat): World { Run(Heard(at + 1)) }

    ghost function AtCheck(at: nat): World { Run(Heard(at + 2)) }
  }

  /** The first command was answered, and what it answered makes a key for the second. */
  ghost predicate Askable(f: Feed, at: nat, agent: string, streamId: string) {
    && f.answers(at) && IsSegment(agent) && agent in f.AtRead(at).incarnations
    && IsResource(DeliveredResource(streamId, f.AtRead(at).incarnations[agent]))
  }

  /** Both commands of the check were answered, and the second with a claim from this very source. */
  ghost predicate Confirmed(f: Feed, at: nat, agent: string, streamId: string, source: string) {
    && IsValidReplyId(streamId) && Askable(f, at, agent, streamId) && f.answers(at + 1)
    && Verify(f.AtCheck(at), agent, streamId, f.AtRead(at).incarnations[agent]) == Some(source)
  }

  /** The claim passes the check whose first command has number `at`. */
  ghost predicate Passes(f: Feed, at: nat, envelope: map<string, JVal>, client: string) {
    Checkable(envelope) && Confirmed(f, at, Replier(envelope), envelope["in_reply_to"].text, client)
  }

  /** The envelope as it is stored: the same, but for a claim that does not pass. */
  ghost function Screened(f: Feed, at: nat, envelope: map<string, JVal>, client: string): map<string, JVal> {
    if Passes(f, at, envelope, client) then envelope else envelope - {"in_reply_to"}
  }

  /** How many commands the check of an envelope takes. */
  ghost function Asks(f: Feed, at: nat, envelope: map<string, JVal>): nat {
    if !Checkable(envelope) then 0 else if !Askable(f, at, Replier(envelope), envelope["in_reply_to"].text) then 1 else 2
  }

  /** The number of the next command after these frames. */
  ghost function NextCommand(codec: E.Codec, f: Feed, raws: seq<Raw>): nat
    decreases |raws|
  {
    if raws == [] then f.from
    else
      var at, parsed := NextCommand(codec, f, raws[..|raws| - 1]), E.Parse(codec, raws[|raws| - 1]);
      if parsed.Ok? then at + Asks(f, at, parsed.value) else at
  }

  /** Each frame in turn: rejected ones to dead, the others to the inbox, as their own check leaves them. */
  ghost predicate Stores(codec: E.Codec, f: Feed, client: string, raws: seq<Raw>, inbox: seq<map<string, JVal>>, dead: seq<Raw>)
    decreases |raws|
  {
    if raws == [] then inbox == [] && dead == []
    else
      var init, last := raws[..|raws| - 1], raws[|raws| - 1];
      var parsed := E.Parse(codec, last);
      if parsed == Err(E.EnvelopeError) then
        dead != [] && dead[|dead| - 1] == last && Stores(codec, f, client, init, inbox, dead[..|dead| - 1])
      else
        && parsed.Ok? && inbox != [] && Stores(codec, f, client, init, inbox[..|inbox| - 1], dead)
        && inbox[|inbox| - 1] == Screened(f, NextCommand(codec, f, init), parsed.value, client)
  }

  /**
   A claim is taken out only if it is malformed, names nobody who replies, was refuted at its own check, or
   could not be told there.
   */
  lemma DroppedForReason(f: Feed, at: nat, envelope: map<string, JVal>, client: string)
    requires Screened(f, at, envelope, client) != envelope
    ensures "in_reply_to" in envelope
    ensures
      || !Checkable(envelope)
      || Refuted(f.AtRead(at), f.AtCheck(at), Replier(envelope), envelope["in_reply_to"].text, client)
      || Unverifiable(f.answers, at, f.AtRead(at), Replier(envelope), envelope["in_reply_to"].text)
  {
    hide Verify, IsSegment, IsResource, Run, IsValidReplyId;
    if "in_reply_to" !in envelope { NothingToDrop(envelope); }
  }

  lemma NothingToDrop(envelope: map<string, JVal>)
    ensures "in_reply_to" !in envelope ==> envelope - {"in_reply_to"} == envelope
  {
  }

  /** The agent has this incarnation, or none. */
  function Bound(w: World, agent: string): Option<string> {
    if agent in w.incarnations then Some(w.incarnations[agent]) else None
  }

  lemma StepLeavesBound(w: World, e: Event, agent: string)
    requires !Rebinds(e, agent)
    ensures Bound(Step(w, e), agent) == Bound(w, agent)
  {
  }

  /** While nobody is hired or stopped under the name, its incarnation stays. */
  lemma {:induction false} UndisturbedStays(events: seq<Event>, i: nat, n: nat, agent: string)
    requires i <= n <= |events| && Undisturbed(events, i, agent)
    ensures Bound(Run(events[..n]), agent) == Bound(Run(events[..i]), agent)
    decreases n
  {
    hide Run, Step, Bound, Rebinds;
    if i < n {
      UndisturbedStays(events, i, n - 1, agent);
      RunNext(events, n - 1);
      assert !Rebinds(events[n - 1], agent);
      StepLeavesBound(Run(events[..n - 1]), events[n - 1], agent);
    }
  }

  lemma HeardGrows(f: Feed, at: nat)
    ensures f.Heard(at + 1) <= f.Heard(at + 2)
  {
  }

  /**
     What the envelope replies to was recorded for the replier as coming from this client within the hour
     before the check, by a recorder that had read the replier's incarnation before the check did; nothing
     was recorded over it; and the check was answered.
   */
  ghost predicate RepliesToDelivered(f: Feed, at: nat, envelope: map<string, JVal>, client: string, i: nat, j: nat) {
    && Checkable(envelope) && f.answers(at) && f.answers(at + 1)
    && var e, agent, streamId := f.Heard(at + 2), Replier(envelope), envelope["in_reply_to"].text;
       && IsSegment(agent) && IsHexId(streamId) && Delivered(e, agent, streamId, client, i, j)
       && IsHexId(Run(e).incarnations[agent]) && i <= |f.Heard(at + 1)|
       && e[j].recorder in Run(e[..j]).holding
       && Run(e[..j]).holding[e[j].recorder] == Holding(agent, Run(e).incarnations[agent], i)
       && forall k :: j < k < |e| ==> !(e[k].WriteClaim? && e[k].streamId == streamId)
  }

  /** Such a reply keeps its field. */
  lemma DeliveredIsKept(f: Feed, at: nat, envelope: map<string, JVal>, client: string, i: nat, j: nat)
    requires RepliesToDelivered(f, at, envelope, client, i, j)
    ensures Screened(f, at, envelope, client) == envelope
  {
    var e, agent, streamId := f.Heard(at + 2), Replier(envelope), envelope["in_reply_to"].text;
    DeliveredMeansTrue(e, agent, streamId, client, i, j);
    HeardGrows(f, at);
    var read := f.Heard(at + 1);
    assert e[..|read|] == read && e[..|e|] == e;
    UndisturbedStays(e, i, |read|, agent);
    DeliveredResourceIsValid(streamId, Run(e).incarnations[agent]);
    hide Run, Verify, IsSegment, IsResource, IsHexId, Feed.Heard, DeliveredResource, Undisturbed;
  }

  /** And so it is stored, after whatever other frames. */
  lemma DeliveredIsStored(codec: E.Codec, f: Feed, client: string, raws: seq<Raw>, raw: Raw, inbox: seq<map<string, JVal>>,
                          dead: seq<Raw>, i: nat, j: nat)
    requires Stores(codec, f, client, raws + [raw], inbox, dead) && E.Parse(codec, raw).Ok?
    requires RepliesToDelivered(f, NextCommand(codec, f, raws), E.Parse(codec, raw).value, client, i, j)
    ensures inbox != [] && inbox[|inbox| - 1] == E.Parse(codec, raw).value && "in_reply_to" in inbox[|inbox| - 1]
  {
    hide RepliesToDelivered, Screened, E.Parse;
    assert (raws + [raw])[..|raws|] == raws;
    DeliveredIsKept(f, NextCommand(codec, f, raws), E.Parse(codec, raw).value, client, i, j);
    DeliveredIsCheckable(f, NextCommand(codec, f, raws), E.Parse(codec, raw).value, client, i, j);
  }

  lemma DeliveredIsCheckable(f: Feed, at: nat, envelope: map<string, JVal>, client: string, i: nat, j: nat)
    requires RepliesToDelivered(f, at, envelope, client, i, j)
    ensures "in_reply_to" in envelope
  {
  }

  /** This recorder wrote no claim in these events. */
  ghost predicate NoClaimBy(events: seq<Event>, me: nat) {
    forall i :: 0 <= i < |events| && events[i].WriteClaim? ==> events[i].recorder != me
  }

  lemma NoClaimYet(start: seq<Event>, batch: seq<Event>, me: nat)
    requires NotMe(batch, me)
    ensures NoClaimBy((start + batch)[|start|..], me)
    ensures batch == [] ==> start + batch == start
  {
    assert (start + batch)[|start|..] == batch;
  }

  lemma NoClaimMore(start: seq<Event>, so: seq<Event>, batch: seq<Event>, me: nat)
    requires start <= so && NoClaimBy(so[|start|..], me) && NoClaimBy(batch, me)
    ensures NoClaimBy((so + batch)[|start|..], me)
  {
    assert (so + batch)[|start|..] == so[|start|..] + batch;
  }

  function Held(w: World, p: nat): Option<Holding> { if p in w.holding then Some(w.holding[p]) else None }

  lemma OthersLeaveMine(w: World, batch: seq<Event>, i: nat, me: nat)
    requires NotMe(batch, me) && i < |batch|
    ensures Held(Step(w, batch[i]), me) == Held(w, me)
  {
  }

  class Port {
    const me: nat                       // this process as a recorder
    const others: nat -> seq<Event>     // what happens before the n-th command
    const answers: nat -> bool          // whether the n-th command is answered
    const ran: nat -> bool              // whether it was executed although it was not answered
    var world: World
    var issued: nat
    ghost var trace: seq<Event>

    constructor (me: nat, others: nat -> seq<Event>, answers: nat -> bool, ran: nat -> bool)
      requires forall n :: NotMe(others(n), me)
      ensures Valid() && trace == []
    {
      this.me, this.others, this.answers, this.ran := me, others, answers, ran;
      world, issued, trace := EMPTY, 0, [];
    }

    ghost predicate Valid()
      reads this
    {
      world == Run(trace) && forall n :: NotMe(others(n), me)
    }

    /** What this port has heard since the feed began. */
    ghost predicate Hears(f: Feed)
      reads this
    {
      f.others == others && f.answers == answers && f.from <= issued && trace == f.Heard(issued)
    }

    /** Everyone else acts, then this process's next command is or is not answered. */
    method Next() returns (answered: bool)
      requires Valid()
      modifies this
      ensures Valid() && old(trace) <= trace && issued == old(issued) + 1 && answered == answers(old(issued))
      ensures trace == old(trace) + others(old(issued))
      ensures Held(world, me) == Held(old(world), me)
    {
      hide Run, Step, Held, NotMe;
      var batch := others(issued);
      ghost var start := trace;
      assert trace + batch[..0] == trace;
      for i := 0 to |batch|
        invariant world == Run(trace) && trace == start + batch[..i] && issued == old(issued)
        invariant Held(world, me) == Held(old(world), me)
      {
        OthersLeaveMine(world, batch, i, me);
        RunConcat(start, batch, i);
        assert start + batch[..i + 1] == start + batch[..i] + [batch[i]];
        world, trace := Step(world, batch[i]), trace + [batch[i]];
      }
      assert batch[..|batch|] == batch;
      answered := answers(issued);
      issued := issued + 1;
    }

    /** was_delivered: None when it could not be verified. */
    method WasDelivered(agent: string, streamId: string, source: string, ghost f: Feed)
      returns (verdict: Option<bool>, ghost n: nat)
      requires Valid() && Hears(f)
      modifies this
      ensures Valid() && old(trace) <= trace && Hears(f)
      ensures verdict == Some(true) <==> Confirmed(f, old(issued), agent, streamId, source)
      ensures IsValidReplyId(streamId) ==>
        issued == old(issued) + if Askable(f, old(issued), agent, streamId) then 2 else 1
      ensures verdict == Some(true) ==> Justified(trace, agent, streamId, source)
      ensures n <= |trace|
      ensures verdict == Some(false) ==> Refuted(Run(trace[..n]), world, agent, streamId, source)
      ensures verdict == None ==> Unverifiable(answers, old(issued), Run(trace[..n]), agent, streamId)
    {
      hide Justified, IsHexId, IsSegment, IsResource, Run, Stored, IsValidReplyId;
      n := |trace|;
      if !IsValidReplyId(streamId) { return Some(false), n; }
      assert trace[..n] == trace;
      var read := Next();
      assert Hears(f);
      if !read || !IsSegment(agent) { return None, n; }
      n := |trace|;
      assert trace[..n] == trace;
      if agent !in world.incarnations { return Some(false), n; }
      var captured := world.incarnations[agent];
      ghost var first := trace;
      // _key raises for an id that is no segment, before the script is sent.
      if !IsResource(DeliveredResource(streamId, captured)) { return None, n; }
      var checked := Next();
      assert Hears(f) && trace[..n] == first;
      if !checked { return None, n; }
      var stored := Verify(world, agent, streamId, captured);
      if stored == Some(source) {
        UsableId(streamId, captured);
        VerifiedIsJustified(trace, agent, streamId, captured, source);
      }
      verdict := Some(stored == Some(source));
    }

    /**
     record_delivered: best effort. `wrote` when the claim was written under what was read, which a
     SET whose reply was lost may have done as well.
     */
    method RecordDelivered(agent: string, streamId: string, source: string)
      returns (recorded: bool, ghost wrote: bool, ghost n: nat)
      requires Valid()
      modifies this
      ensures Valid() && old(trace) <= trace && n <= |trace|
      ensures recorded ==> wrote
      ensures !recorded ==>
        || !IsValidReplyId(streamId) || agent !in Run(trace[..n]).incarnations
        || Unverifiable(answers, old(issued), Run(trace[..n]), agent, streamId)
      ensures wrote && !recorded ==> issued == old(issued) + 2 && !answers(issued - 1) && ran(issued - 1)
      ensures wrote ==>
        && trace != [] && trace[|trace| - 1] == WriteClaim(me, streamId, source)
        && me in Run(trace[..|trace| - 1]).holding
        && var h := Run(trace[..|trace| - 1]).holding[me];
           h.agent == agent && |old(trace)| <= h.readAt < |trace| && Stored(world, agent, streamId, h.incarnation) == Some(source)
      ensures !wrote ==> NoClaimBy(trace[|old(trace)|..], me)
    {
      hide IsHexId, IsSegment, IsResource, Run, Stored, NoClaimBy;
      n, wrote := |trace|, false;
      ghost var start := trace;
      assert trace[..n] == trace;
      NoClaimYet(start, [], me);
      if !IsValidReplyId(streamId) { return false, false, n; }
      var read := Next();
      n := |trace|;
      assert trace[..n] == trace;
      NoClaimYet(start, others(issued - 1), me);
      if !read || !IsSegment(agent) || agent !in world.incarnations { return false, false, n; }
      var captured := world.incarnations[agent];
      CountIsLength(trace);
      ghost var atRead := trace;
      Happen(ReadIncarnation(me, agent));
      assert trace[..n] == atRead;
      NoClaimMore(start, atRead, [ReadIncarnation(me, agent)], me);
      if !IsResource(DeliveredResource(streamId, captured)) { return false, false, n; }
      ghost var told := trace;
      var written := Next();
      assert trace[..n] == atRead;
      if !written && !ran(issued - 1) {
        NoClaimMore(start, told, others(issued - 1), me);
        return false, false, n;
      }
      ghost var before := world;
      Happen(WriteClaim(me, streamId, source));
      assert trace[..n] == atRead;
      ClaimIsStored(before, me, streamId, source);
      return written, true, n;
    }

    /**
     _drop_untrustworthy_reply_correlation: the envelope, with in_reply_to kept only when verified.
     It raises when the body replaced `l2` by something that is no object.
     */
    method DropUntrustworthy(envelope: map<string, JVal>, agent: string, ghost f: Feed)
      returns (r: Result<map<string, JVal>, ()>, ghost verdict: Option<bool>, ghost n: nat)
      requires Valid() && Hears(f)
      modifies this
      ensures Valid() && old(trace) <= trace && n <= |trace| && Hears(f)
      ensures r.Ok? ==> r.value == Screened(f, old(issued), envelope, agent)
      ensures issued == old(issued) + Asks(f, old(issued), envelope)
      ensures r.Err? <==> Raises(envelope)
      // The field is dropped only for a reason.
      ensures r.Ok? && r.value != envelope ==> !Checkable(envelope) || verdict != Some(true)
      ensures r.Ok? && Checkable(envelope) && verdict == Some(false) ==>
        Refuted(Run(trace[..n]), world, Replier(envelope), envelope["in_reply_to"].text, agent)
      ensures r.Ok? && Checkable(envelope) && verdict == None ==>
        Unverifiable(answers, old(issued), Run(trace[..n]), Replier(envelope), envelope["in_reply_to"].text)
      ensures r.Ok? ==> r.value == envelope || r.value == envelope - {"in_reply_to"}
      ensures r.Ok? ==> Trusted(trace, r.value, agent)
    {
      hide Justified, IsHexId, Run, Refuted, Unverifiable, Confirmed, Askable, Feed.Heard, IsValidReplyId;
      verdict, n := None, 0;
      if "in_reply_to" !in envelope {
        NothingToDrop(envelope);
        return Ok(envelope), None, 0;
      }
      var claimed := envelope["in_reply_to"];
      if !IsReplyIdValue(claimed) { return Ok(envelope - {"in_reply_to"}), None, 0; }
      var l2 := if "l2" in envelope then envelope["l2"] else JObj(map[]);
      if !l2.JObj? { return Err(()), None, 0; }
      var source := Lookup(l2.members, "source");
      // A source that is no string cannot name a key: could not verify.
      if !Truthy(source) || !source.JStr? { return Ok(envelope - {"in_reply_to"}), None, 0; }
      var answer;
      answer, n := WasDelivered(source.text, claimed.text, agent, f);
      verdict := answer;
      if answer != Some(true) { return Ok(envelope - {"in_reply_to"}), verdict, n; }
      assert trace[..|trace|] == trace;
      assert Justified(trace[..|trace|], source.text, claimed.text, agent);
      r := Ok(envelope);
    }

    /**
     deliver_api over one ingress snapshot: what goes to the inbox, what to dead, and how many frames it took
     before it raised, if it did.
     */
    method DeliverApi(codec: E.Codec, raws: seq<Raw>, agent: string)
      returns (inbox: seq<map<string, JVal>>, dead: seq<Raw>, taken: nat)
      requires Valid()
      modifies this
      ensures Valid() && old(trace) <= trace
      ensures forall k :: 0 <= k < |inbox| ==> Trusted(trace, inbox[k], agent)
      ensures taken <= |raws|
      ensures var f := Feed(others, answers, old(trace), old(issued));
        Stores(codec, f, agent, raws[..taken], inbox, dead) && issued == NextCommand(codec, f, raws[..taken])
      ensures taken < |raws| ==>
        var parsed := E.Parse(codec, raws[taken]); parsed == Err(E.Uncaught) || (parsed.Ok? && Raises(parsed.value))
    {
      hide Trusted, Run, E.Parse, Screened, Asks, Feed.Heard;
      inbox, dead, taken := [], [], 0;
      ghost var f := Feed(others, answers, trace, issued);
      HeardAtFirst(f);
      while taken < |raws|
        invariant 0 <= taken <= |raws| && Valid() && old(trace) <= trace
        invariant forall k :: 0 <= k < |inbox| ==> Trusted(trace, inbox[k], agent)
        invariant Hears(f) && issued == NextCommand(codec, f, raws[..taken])
        invariant Stores(codec, f, agent, raws[..taken], inbox, dead)
      {
        assert raws[..taken + 1][..taken] == raws[..taken] && raws[..taken + 1][taken] == raws[taken];
        var envelope := E.Parse(codec, raws[taken]);
        if envelope == Err(E.Uncaught) { return; }
        if envelope.Err? {
          assert envelope.error.EnvelopeError?;
          dead := dead + [raws[taken]];
        } else {
          ghost var earlier := trace;
          var kept, verdict, n := DropUntrustworthy(envelope.value, agent, f);
          forall k | 0 <= k < |inbox| ensures Trusted(trace, inbox[k], agent) {
            TrustedLater(earlier, trace[|earlier|..], inbox[k], agent);
            assert earlier + trace[|earlier|..] == trace;
          }
          if kept.Err? {
            RaisesAsksNothing(f, envelope.value);
            return;
          }
          inbox := inbox + [kept.value];
        }
        taken := taken + 1;
      }
    }

    /** This process's own command takes effect. */
    method Happen(e: Event)
      requires Valid()
      modifies this
      ensures Valid() && trace == old(trace) + [e] && world == Step(old(world), e) && issued == old(issued)
      ensures Run(trace[..|trace| - 1]) == old(world)
    {
      hide Step;
      assert (trace + [e])[..|trace|] == trace;
      world, trace := Step(world, e), trace + [e];
    }
  }

  lemma HeardAtFirst(f: Feed)
    ensures f.Heard(f.from) == f.start
  {
  }

  lemma RaisesAsksNothing(f: Feed, envelope: map<string, JVal>)
    requires Raises(envelope)
    ensures forall at: nat :: Asks(f, at, envelope) == 0
  {
  }

  lemma ClaimIsStored(w: World, me: nat, streamId: string, source: string)
    requires Held(w, me).Some?
    ensures var h := Held(w, me).value;
      Stored(Step(w, WriteClaim(me, streamId, source)), h.agent, streamId, h.incarnation) == Some(source)
  {
  }

  lemma {:induction false} CountIsLength(events: seq<Event>)
    ensures Run(events).count == |events|
    decreases |events|
  {
    if events != [] { CountIsLength(events[..|events| - 1]); }
  }

  lemma UsableId(streamId: string, incarnation: string)
    requires IsValidReplyId(streamId) && IsResource(DeliveredResource(streamId, incarnation))
    ensures IsHexId(streamId)
  {
    hide IsHexId, IsResource;
    if !IsHexId(streamId) { TrailingNewlineHasNoKey(streamId, incarnation); }
  }

  lemma VerifiedIsJustified(events: seq<Event>, agent: string, streamId: string, captured: string, source: string)
    requires IsHexId(streamId) && Verify(Run(events), agent, streamId, captured) == Some(source)
    ensures Justified(events, agent, streamId, source)
  {
    hide Delivered, Verify, Run;
    if FreshIds(events) {
      var i, j := TrueMeansDelivered(events, agent, streamId, captured, source);
    }
  }
}
