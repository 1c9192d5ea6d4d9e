/**
 Incarnation-bound reply correlation (h-app/lib/reply_correlation.py) as a transition system: records
 and checks are two commands each, and hires, stops and the clock interleave between them freely.
 */
module Correlation {
  import opened Prelude

  /** DELIVERED_TTL_SECONDS, in milliseconds. */
  const TTL: nat := 3600 * 1000

  datatype Event =
    | Tick(elapsed: nat)
    | Mint(agent: string, newId: string)          // a publish script binds a fresh incarnation
    | Stop(agent: string)                         // retirement deletes it
    | ReadIncarnation(recorder: nat, agent: string)              // first command of record_delivered
    | WriteClaim(recorder: nat, streamId: string, source: string) // second command: SET ... EX

  /** Who recorded: the incarnation it read, and when (as an event number). */
  datatype Holding = Holding(agent: string, incarnation: string, readAt: nat)

  datatype Claim = Claim(source: string, writtenAt: nat, writtenTime: nat, held: Holding)

  datatype World = World(
    count: nat, now: nat, incarnations: map<string, string>,
    holding: map<nat, Holding>, claims: map<(string, string, string), Claim>)

  const EMPTY := World(0, 0, map[], map[], map[])

  function Act(w: World, e: Event): World {
    match e
    case Tick(elapsed) => w.(now := w.now + elapsed)
    case Mint(a, id) => w.(incarnations := w.incarnations[a := id])
    case Stop(a) => w.(incarnations := w.incarnations - {a})
    case ReadIncarnation(p, a) =>
      if a in w.incarnations then w.(holding := w.holding[p := Holding(a, w.incarnations[a], w.count)])
      else w.(holding := w.holding - {p})
    case WriteClaim(p, sid, source) =>
      if p !in w.holding then w
      else
        var h := w.holding[p];
        w.(claims := w.claims[(h.agent, sid, h.incarnation) := Claim(source, w.count, w.now, h)])
  }

  function Step(w: World, e: Event): World { Act(w, e).(count := w.count + 1) }

  function Run(events: seq<Event>): World
    decreases |events|
  {
    if events == [] then EMPTY else Step(Run(events[..|events| - 1]), events[|events| - 1])
  }

  /** GET on a key that may have expired. */
  function Stored(w: World, agent: string, streamId: string, incarnation: string): Option<string> {
    var key := (agent, streamId, incarnation);
    if key in w.claims && w.now < w.claims[key].writtenTime + TTL then Some(w.claims[key].source) else None
  }

  /** _VERIFY_DELIVERY_LUA: one atomic look at both keys. */
  function Verify(w: World, agent: string, streamId: string, captured: string): Option<string> {
    if agent !in w.incarnations || w.incarnations[agent] != captured then None else Stored(w, agent, streamId, captured)
  }

  /** uuid4 never repeats an id. */
  ghost predicate FreshIds(events: seq<Event>) {
    forall i, j :: 0 <= i < j < |events| && events[i].Mint? && events[j].Mint? ==> events[i].newId != events[j].newId
  }

  predicate Rebinds(e: Event, agent: string) {
    (e.Mint? && e.agent == agent) || e == Stop(agent)
  }

  /** No stop and no hire of `agent` from event i on. */
  ghost predicate Undisturbed(events: seq<Event>, i: nat, agent: string) {
    forall k :: i <= k < |events| ==> !Rebinds(events[k], agent)
  }

  /**
     `streamId` was recorded as delivered to `agent` from `source` less than an hour ago, by a
     recorder that read the agent's incarnation after the agent was last hired.
   */
  ghost predicate Delivered(events: seq<Event>, agent: string, streamId: string, source: string, i: nat, j: nat) {
    && i < j < |events|
    && events[j].WriteClaim? && events[j].streamId == streamId && events[j].source == source
    && events[i] == ReadIncarnation(events[j].recorder, agent)
    && agent in Run(events).incarnations && agent in Run(events[..i]).incarnations
    && Run(events[..i]).incarnations[agent] == Run(events).incarnations[agent]
    && Undisturbed(events, i, agent)
    && Run(events).now < Run(events[..j]).now + TTL
  }

  // ---- what the state remembers is what happened ----

  ghost predicate HoldingTrue(events: seq<Event>, n: nat, p: nat, h: Holding) {
    && h.readAt < n <= |events| && events[h.readAt] == ReadIncarnation(p, h.agent)
    && h.agent in Run(events[..h.readAt]).incarnations
    && Run(events[..h.readAt]).incarnations[h.agent] == h.incarnation
  }

  ghost predicate ClaimTrue(events: seq<Event>, n: nat, key: (string, string, string), c: Claim) {
    && c.writtenAt < n <= |events| && events[c.writtenAt].WriteClaim?
    && events[c.writtenAt].streamId == key.1 && events[c.writtenAt].source == c.source
    && c.writtenTime == Run(events[..c.writtenAt]).now
    && c.held.agent == key.0 && c.held.incarnation == key.2 && c.held.readAt < c.writtenAt
    && HoldingTrue(events, n, events[c.writtenAt].recorder, c.held)
  }

  ghost predicate Remembers(events: seq<Event>, n: nat)
    requires n <= |events|
  {
    var w := Run(events[..n]);
    && w.count == n
    && (forall p :: p in w.holding ==> HoldingTrue(events, n, p, w.holding[p]))
    && (forall key :: key in w.claims ==> ClaimTrue(events, n, key, w.claims[key]))
  }

  lemma RunNext(events: seq<Event>, n: nat)
    requires n < |events|
    ensures Run(events[..n + 1]) == Step(Run(events[..n]), events[n])
  {
    assert events[..n + 1][..n] == events[..n];
  }

  lemma {:induction false} RemembersAll(events: seq<Event>, n: nat)
    requires n <= |events|
    ensures Remembers(events, n)
    decreases n
  {
    if n > 0 {
      RemembersAll(events, n - 1);
      RunNext(events, n - 1);
      RemembersStep(events, n - 1);
    }
  }

  lemma StillTrue(events: seq<Event>, n: nat, p: nat, h: Holding, key: (string, string, string), c: Claim)
    requires n < |events|
    ensures HoldingTrue(events, n, p, h) ==> HoldingTrue(events, n + 1, p, h)
    ensures ClaimTrue(events, n, key, c) ==> ClaimTrue(events, n + 1, key, c)
  {
    hide Run;
  }

  /** A recorder that reads an incarnation holds what was current. */
  lemma NewHolding(events: seq<Event>, n: nat, w: World)
    requires n < |events| && w == Run(events[..n]) && w.count == n && events[n].ReadIncarnation?
    requires events[n].agent in w.incarnations
    ensures HoldingTrue(events, n + 1, events[n].recorder, Holding(events[n].agent, w.incarnations[events[n].agent], n))
  {
    hide Run;
  }

  /** A claim is written under what its recorder holds. */
  lemma NewClaim(events: seq<Event>, n: nat, w: World)
    requires n < |events| && w == Run(events[..n]) && w.count == n && events[n].WriteClaim?
    requires events[n].recorder in w.holding && HoldingTrue(events, n, events[n].recorder, w.holding[events[n].recorder])
    ensures var h := w.holding[events[n].recorder];
      ClaimTrue(events, n + 1, (h.agent, events[n].streamId, h.incarnation), Claim(events[n].source, n, w.now, h))
  {
    hide Run;
  }

  lemma RemembersStep(events: seq<Event>, n: nat)
    requires n < |events| && Remembers(events, n) && Run(events[..n + 1]) == Step(Run(events[..n]), events[n])
    ensures Remembers(events, n + 1)
  {
    hide Run, HoldingTrue, ClaimTrue;
    var w, w' := Run(events[..n]), Run(events[..n + 1]);
    var e := events[n];
    var none := Holding("", "", 0);
    if e.ReadIncarnation? && e.agent in w.incarnations { NewHolding(events, n, w); }
    if e.WriteClaim? && e.recorder in w.holding { NewClaim(events, n, w); }
    forall p | p in w'.holding ensures HoldingTrue(events, n + 1, p, w'.holding[p]) {
      if p in w.holding { StillTrue(events, n, p, w.holding[p], ("", "", ""), Claim("", 0, 0, none)); }
    }
    forall key | key in w'.claims ensures ClaimTrue(events, n + 1, key, w'.claims[key]) {
      if key in w.claims { StillTrue(events, n, 0, none, key, w.claims[key]); }
    }
  }

  /** An incarnation held after n events was minted by an event since when nothing rebound the agent. */
  lemma {:induction false} MintedAt(events: seq<Event>, n: nat, agent: string) returns (m: nat)
    requires n <= |events| && agent in Run(events[..n]).incarnations
    ensures m < n && events[m] == Mint(agent, Run(events[..n]).incarnations[agent])
    ensures forall k :: m < k < n ==> !Rebinds(events[k], agent)
    decreases n
  {
    assert n > 0;
    RunNext(events, n - 1);
    hide Run;
    if events[n - 1].Mint? && events[n - 1].agent == agent {
      m := n - 1;
    } else {
      m := MintedAt(events, n - 1, agent);
    }
  }

  /** With fresh ids, holding one incarnation at two moments means nothing rebound the agent in between. */
  lemma SameIncarnation(events: seq<Event>, i: nat, agent: string)
    requires FreshIds(events) && i <= |events|
    requires agent in Run(events[..i]).incarnations && agent in Run(events).incarnations
    requires Run(events[..i]).incarnations[agent] == Run(events).incarnations[agent]
    ensures Undisturbed(events, i, agent)
  {
    hide Run;
    assert events[..|events|] == events;
    var a := MintedAt(events, i, agent);
    var b := MintedAt(events, |events|, agent);
    assert a == b;
  }

  /** A verified match means a delivery to this very incarnation, from this source, within the hour. */
  lemma TrueMeansDelivered(events: seq<Event>, agent: string, streamId: string, captured: string, source: string)
    returns (i: nat, j: nat)
    requires FreshIds(events) && Verify(Run(events), agent, streamId, captured) == Some(source)
    ensures Delivered(events, agent, streamId, source, i, j)
  {
    var w := Run(events);
    assert events[..|events|] == events;
    RemembersAll(events, |events|);
    var key := (agent, streamId, captured);
    var c := w.claims[key];
    assert ClaimTrue(events, |events|, key, c);
    i, j := c.held.readAt, c.writtenAt;
    SameIncarnation(events, i, agent);
  }

  /** And conversely: such a delivery, not overwritten by another source since, verifies. */
  lemma DeliveredMeansTrue(events: seq<Event>, agent: string, streamId: string, source: string, i: nat, j: nat)
    requires Delivered(events, agent, streamId, source, i, j)
    requires events[j].recorder in Run(events[..j]).holding
    requires Run(events[..j]).holding[events[j].recorder] == Holding(agent, Run(events).incarnations[agent], i)
    requires forall k :: j < k < |events| ==> !(events[k].WriteClaim? && events[k].streamId == streamId)
    ensures Verify(Run(events), agent, streamId, Run(events).incarnations[agent]) == Some(source)
  {
    var inc := Run(events).incarnations[agent];
    RemembersAll(events, j);
    RunNext(events, j);
    assert events[..|events|] == events;
    hide Run, HoldingTrue, ClaimTrue, Undisturbed;
    ClaimStays(events, j, |events|, (agent, streamId, inc));
  }

  lemma {:induction false} ClaimStays(events: seq<Event>, j: nat, n: nat, key: (string, string, string))
    requires j < n <= |events| && key in Run(events[..j + 1]).claims
    requires forall k :: j < k < n ==> !(events[k].WriteClaim? && events[k].streamId == key.1)
    ensures key in Run(events[..n]).claims && Run(events[..n]).claims[key] == Run(events[..j + 1]).claims[key]
    decreases n
  {
    if n > j + 1 {
      ClaimStays(events, j, n - 1, key);
      RunNext(events, n - 1);
      hide Run;
      assert !(events[n - 1].WriteClaim? && events[n - 1].streamId == key.1);
    }
  }
}
