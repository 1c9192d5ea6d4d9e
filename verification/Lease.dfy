/** The renewable delivery lease of h-app/core/dispatch.py, over real time. */
module Lease {
  import opened Prelude

  type Token = string

  /** The lock key: whose it is and when it expires; an expired key is as good as absent. */
  datatype Lock = Lock(token: Token, expires: real)

  function Live(key: Option<Lock>, now: real): Option<Token> {
    if key.Some? && now < key.value.expires then Some(key.value.token) else None
  }

  /** SET key token NX PX lease */
  function AfterAcquire(key: Option<Lock>, now: real, token: Token, lease: nat): Option<Lock> {
    if Live(key, now).None? then Some(Lock(token, now + lease as real)) else key
  }

  /** _RENEW_DELIVERY_LOCK */
  function AfterRenew(key: Option<Lock>, now: real, token: Token, lease: nat): Option<Lock> {
    if Live(key, now) == Some(token) then Some(Lock(token, now + lease as real)) else key
  }

  /** _RELEASE_DELIVERY_LOCK */
  function AfterRelease(key: Option<Lock>, now: real, token: Token): Option<Lock> {
    if Live(key, now) == Some(token) then None else key
  }

  // ---- the holders' schedule ----

  /** interval = max(lease_ms / 3000.0, 0.001), in milliseconds. */
  function Interval(lease: nat): real { if lease < 3 then 1.0 else lease as real / 3.0 }

  /** A renewal turn comes less than this long after the turn before it. */
  function Gap(lease: nat): real { Interval(lease) + lease as real / 6.0 }

  /** A body in progress: its last renewal turn (or acquisition), and whether that turn failed. */
  datatype Body = Body(lastTurn: real, failed: bool)

  datatype World = World(now: real, key: Option<Lock>, bodies: map<Token, Body>)

  datatype Event =
    | Wait(elapsed: real)
    | Enter(token: Token)                  // one attempt to acquire; the body starts if it succeeds
    | Turn(token: Token, executed: bool)   // a renewal turn of a body; not executed means it failed
    | Leave(token: Token, executed: bool)  // the body ends and its release is or is not executed
    | Late(token: Token)                   // a renewal of a body that already ended
    | LateRelease(token: Token)
    | Delete                               // stop_agent removes the key, whoever holds it

  function Step(lease: nat, w: World, e: Event): World {
    match e
    case Wait(d) => w.(now := w.now + d)
    case Enter(t) =>
      if Live(w.key, w.now).None? then w.(key := AfterAcquire(w.key, w.now, t, lease), bodies := w.bodies[t := Body(w.now, false)])
      else w
    case Turn(t, executed) =>
      w.(key := if executed then AfterRenew(w.key, w.now, t, lease) else w.key, bodies := w.bodies[t := Body(w.now, !executed)])
    case Leave(t, executed) =>
      w.(key := if executed then AfterRelease(w.key, w.now, t) else w.key, bodies := w.bodies - {t})
    case Late(t) => w.(key := AfterRenew(w.key, w.now, t, lease))
    case LateRelease(t) => w.(key := AfterRelease(w.key, w.now, t))
    case Delete => w.(key := None)
  }

  const IDLE := World(0.0, None, map[])

  /**
     The conditions exclusion rests on: tokens are fresh, every body takes its turns in time and
     never fails two in a row, and nothing deletes the key.
   */
  ghost predicate Allowed(lease: nat, w: World, e: Event) {
    match e
    case Wait(d) => d >= 0.0 && forall t :: t in w.bodies ==> w.now + d < w.bodies[t].lastTurn + Gap(lease)
    case Enter(t) => t !in w.bodies && (w.key.Some? ==> w.key.value.token != t)
    case Turn(t, executed) => t in w.bodies && (executed || !w.bodies[t].failed)
    case Leave(t, _) => t in w.bodies
    case Late(t) => t !in w.bodies
    case LateRelease(t) => t !in w.bodies
    case Delete => false
  }

  ghost function RunFrom(lease: nat, w: World, events: seq<Event>): World
    decreases |events|
  {
    if events == [] then w else Step(lease, RunFrom(lease, w, events[..|events| - 1]), events[|events| - 1])
  }

  ghost function Run(lease: nat, events: seq<Event>): World { RunFrom(lease, IDLE, events) }

  ghost predicate AllAllowed(lease: nat, events: seq<Event>) {
    forall i :: 0 <= i < |events| ==> Allowed(lease, Run(lease, events[..i]), events[i])
  }

  /** Every body holds the live key, with enough left to outlast one more turn if its last turn failed. */
  ghost predicate Held(lease: nat, w: World) {
    forall t :: t in w.bodies ==>
      && Live(w.key, w.now) == Some(t)
      && w.bodies[t].lastTurn <= w.now < w.bodies[t].lastTurn + Gap(lease)
      && w.key.value.expires >= w.bodies[t].lastTurn + lease as real - (if w.bodies[t].failed then Gap(lease) else 0.0)
  }

  /** Two turns, each less than a gap late, still fall inside the lease. */
  predicate Fits(lease: nat, a: real, b: real) {
    0.0 <= a < Gap(lease) && 0.0 <= b < Gap(lease) ==> a + b < lease as real
  }

  /** One failed renewal is survivable exactly when the lease is at least three milliseconds. */
  lemma TwoGapsFit(lease: nat)
    requires lease > 0
    ensures (forall a, b :: Fits(lease, a, b)) <==> lease >= 3
    ensures lease >= 3 <==> 2.0 * Gap(lease) <= lease as real
  {
    if lease < 3 {
      var g := Gap(lease) - 0.1;
      assert !Fits(lease, g, g);
    } else {
      assert Gap(lease) == lease as real / 2.0;
    }
  }

  lemma HeldStep(lease: nat, w: World, e: Event)
    requires lease >= 3 && Held(lease, w) && Allowed(lease, w, e)
    ensures Held(lease, Step(lease, w, e))
  {
    TwoGapsFit(lease);
    assert Gap(lease) > 0.0;
  }

  lemma {:induction false} AlwaysHeld(lease: nat, events: seq<Event>)
    requires lease >= 3 && AllAllowed(lease, events)
    ensures Held(lease, Run(lease, events))
    decreases |events|
  {
    hide Allowed, Step, Held;
    if events == [] {
      NobodyHolds(lease);
    } else {
      var init := events[..|events| - 1];
      forall i | 0 <= i < |init| ensures Allowed(lease, Run(lease, init[..i]), init[i]) {
        assert init[..i] == events[..i];
      }
      AlwaysHeld(lease, init);
      HeldStep(lease, Run(lease, init), events[|events| - 1]);
    }
  }

  lemma NobodyHolds(lease: nat)
    ensures Held(lease, IDLE)
  {
  }

  /** No two bodies overlap, whatever single renewals fail, whoever polls, and however late old threads act. */
  lemma NoOverlap(lease: nat, events: seq<Event>, t: Token, u: Token)
    requires lease >= 3 && AllAllowed(lease, events)
    requires t in Run(lease, events).bodies && u in Run(lease, events).bodies
    ensures t == u
  {
    hide Run;
    AlwaysHeld(lease, events);
  }

  /** Not an act of this token, nor the deletion of the key; permitted or not. */
  predicate Foreign(e: Event, t: Token) {
    match e
    case Wait(d) => d >= 0.0
    case Delete => false
    case _ => e.token != t
  }

  /**
     From any state, whatever everyone else does, permitted or not, late renewals and releases included: a
     live lease stays exactly as its owner left it until it expires.
   */
  lemma {:induction false} LeaseIsOnesOwn(lease: nat, w: World, events: seq<Event>, t: Token)
    requires Live(w.key, w.now) == Some(t) && forall i :: 0 <= i < |events| ==> Foreign(events[i], t)
    ensures w.now <= RunFrom(lease, w, events).now
    ensures RunFrom(lease, w, events).now < w.key.value.expires ==> RunFrom(lease, w, events).key == w.key
    decreases |events|
  {
    if events != [] {
      LeaseIsOnesOwn(lease, w, events[..|events| - 1], t);
    }
  }

  // ---- where the guarantee ends ----

  /** With a two-millisecond lease, a permitted run with one failed renewal makes two bodies overlap. */
  lemma TwoMillisecondsOverlap()
    ensures var events := [Enter("a"), Wait(1.3), Turn("a", false), Wait(1.3), Enter("b")];
      AllAllowed(2, events) && "a" in Run(2, events).bodies && "b" in Run(2, events).bodies
  {
    var all := [Enter("a"), Wait(1.3), Turn("a", false), Wait(1.3), Enter("b")];
    assert Interval(2) == 1.0 && Gap(2) == 1.0 + 2.0 / 6.0;
    assert "a"[0] != "b"[0];
    assert all[..5] == all && all[..5][..4] == all[..4] && all[..4][..3] == all[..3];
    assert all[..3][..2] == all[..2] && all[..2][..1] == all[..1] && all[..1][..0] == all[..0];
    assert Run(2, all[..0]) == IDLE;
    assert Run(2, all[..1]) == World(0.0, Some(Lock("a", 2.0)), map["a" := Body(0.0, false)]);
    assert Run(2, all[..2]) == World(1.3, Some(Lock("a", 2.0)), map["a" := Body(0.0, false)]);
    assert Run(2, all[..3]) == World(1.3, Some(Lock("a", 2.0)), map["a" := Body(1.3, true)]);
    assert Run(2, all[..4]) == World(2.6, Some(Lock("a", 2.0)), map["a" := Body(1.3, true)]);
    assert Run(2, all[..5]) == World(2.6, Some(Lock("b", 4.6)), map["a" := Body(1.3, true), "b" := Body(2.6, false)]);
    forall i | 0 <= i < |all| ensures Allowed(2, Run(2, all[..i]), all[i]) {
      if i == 0 {} else if i == 1 {} else if i == 2 {} else if i == 3 {} else {}
    }
  }

  /** Whatever the lease, a stop in the middle lets a successor in beside the running body. */
  lemma StopEndsExclusion(lease: nat)
    ensures var w := Step(lease, Step(lease, Step(lease, IDLE, Enter("a")), Delete), Enter("b"));
      "a" in w.bodies && "b" in w.bodies
  {
  }

  /** With a one-millisecond lease no renewal has to fail: the first turn may come too late. */
  lemma OneMillisecondOverlaps()
    ensures var events := [Enter("a"), Wait(1.1), Enter("b")];
      AllAllowed(1, events) && "a" in Run(1, events).bodies && "b" in Run(1, events).bodies
  {
    var all := [Enter("a"), Wait(1.1), Enter("b")];
    assert Interval(1) == 1.0 && Gap(1) == 1.0 + 1.0 / 6.0;
    assert "a"[0] != "b"[0];
    assert all[..3] == all && all[..3][..2] == all[..2] && all[..2][..1] == all[..1] && all[..1][..0] == all[..0];
    assert Run(1, all[..0]) == IDLE;
    assert Run(1, all[..1]) == World(0.0, Some(Lock("a", 1.0)), map["a" := Body(0.0, false)]);
    assert Run(1, all[..2]) == World(1.1, Some(Lock("a", 1.0)), map["a" := Body(0.0, false)]);
    assert Run(1, all[..3]) == World(1.1, Some(Lock("b", 2.1)), map["a" := Body(0.0, false), "b" := Body(1.1, false)]);
    forall i | 0 <= i < |all| ensures Allowed(1, Run(1, all[..i]), all[i]) {
      if i == 0 {} else if i == 1 {} else {}
    }
  }

  /** A permitted run with two bodies at once. */
  ghost predicate Overlaps(lease: nat, events: seq<Event>, t: Token, u: Token) {
    AllAllowed(lease, events) && t in Run(lease, events).bodies && u in Run(lease, events).bodies && t != u
  }

  /** Some permitted run overlaps if and only if the lease is below three milliseconds. */
  lemma OverlapsExactly(lease: nat)
    requires lease > 0
    ensures (exists events, t, u :: Overlaps(lease, events, t, u)) <==> lease < 3
  {
    hide Run, AllAllowed;
    assert "a"[0] != "b"[0];
    if lease == 1 {
      OneMillisecondOverlaps();
      assert Overlaps(1, [Enter("a"), Wait(1.1), Enter("b")], "a", "b");
    } else if lease == 2 {
      TwoMillisecondsOverlap();
      assert Overlaps(2, [Enter("a"), Wait(1.3), Turn("a", false), Wait(1.3), Enter("b")], "a", "b");
    } else {
      forall events, t, u | Overlaps(lease, events, t, u) ensures false {
        NoOverlap(lease, events, t, u);
      }
    }
  }
}
