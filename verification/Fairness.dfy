/** The rotation of Switch.step (h-app/core/service.py): no egress queue can starve another. */
module Fairness {
  import opened Prelude

  function Rotate(agents: seq<string>, offset: nat): (r: seq<string>)
    requires offset <= |agents|
    ensures |r| == |agents|
  {
    agents[offset..] + agents[..offset]
  }

  /** BLPOP: the first key, in the order given, whose list is not empty. */
  ghost predicate FirstNonEmpty(order: seq<string>, waiting: set<string>, popped: Option<string>) {
    match popped
    case None => forall i :: 0 <= i < |order| ==> order[i] !in waiting
    case Some(agent) => exists i :: 0 <= i < |order| && order[i] == agent && agent in waiting
                          && forall j :: 0 <= j < i ==> order[j] !in waiting
  }

  /** One call of step: what it pops and the offset it leaves, for one registry and one set of waiting agents. */
  ghost predicate Stepped(agents: seq<string>, before: nat, waiting: set<string>, popped: Option<string>, after: nat) {
    if agents == [] then popped == None && after == before
    else
      var offset := before % |agents|;
      after == (offset + 1) % |agents| && FirstNonEmpty(Rotate(agents, offset), waiting, popped)
  }

  class Rotation {
    var offset: nat

    constructor ()
      ensures offset == 0
    {
      offset := 0;
    }

    method Step(agents: seq<string>, waiting: set<string>) returns (popped: Option<string>)
      modifies this
      ensures Stepped(agents, old(offset), waiting, popped, offset)
    {
      if agents == [] { return None; }
      offset := offset % |agents|;
      var order := Rotate(agents, offset);
      offset := (offset + 1) % |agents|;
      for i := 0 to |order|
        invariant forall j :: 0 <= j < i ==> order[j] !in waiting
      {
        if order[i] in waiting { return Some(order[i]); }
      }
      popped := None;
    }
  }

  /** A run of calls: offsets[i] before call i, with whatever queues were non-empty at that call. */
  ghost predicate Calls(agents: seq<string>, offsets: seq<nat>, waiting: seq<set<string>>, popped: seq<Option<string>>) {
    && |offsets| == |waiting| + 1 && |popped| == |waiting|
    && forall i :: 0 <= i < |waiting| ==> Stepped(agents, offsets[i], waiting[i], popped[i], offsets[i + 1])
  }

  lemma SmallMod(x: nat, n: nat)
    requires x < n
    ensures x % n == x && n % n == 0
  {
  }

  /** Where a rotation that starts at `s` stands `i` calls later, for i below n. */
  function Wrapped(s: nat, i: nat, n: nat): nat
    requires s < n && i < n
  {
    if s + i < n then s + i else s + i - n
  }

  lemma {:induction false} OffsetAfter(agents: seq<string>, offsets: seq<nat>, waiting: seq<set<string>>,
      popped: seq<Option<string>>, i: nat)
    requires agents != [] && Calls(agents, offsets, waiting, popped) && i < |offsets| && i < |agents|
    ensures offsets[i] % |agents| == Wrapped(offsets[0] % |agents|, i, |agents|)
    decreases i
  {
    hide FirstNonEmpty;
    if i > 0 {
      var n := |agents|;
      OffsetAfter(agents, offsets, waiting, popped, i - 1);
      var before := offsets[i - 1] % n;
      assert Stepped(agents, offsets[i - 1], waiting[i - 1], popped[i - 1], offsets[i]);
      assert offsets[i] == (before + 1) % n;
      if before + 1 < n { SmallMod(before + 1, n); } else { SmallMod(0, n); }
      SmallMod(offsets[i], n);
    }
  }

  /**
     With the registry unchanged, an agent whose egress stays non-empty is popped within as many
     calls as there are agents, whatever the other queues hold.
   */
  lemma BoundedWait(agents: seq<string>, offsets: seq<nat>, waiting: seq<set<string>>, popped: seq<Option<string>>, k: nat)
    requires Calls(agents, offsets, waiting, popped) && |waiting| == |agents| && k < |agents|
    requires forall i :: 0 <= i < |waiting| ==> agents[k] in waiting[i]
    ensures Some(agents[k]) in popped
  {
    var s := offsets[0] % |agents|;
    var j := if k >= s then k - s else k + |agents| - s;
    OffsetAfter(agents, offsets, waiting, popped, j);
    var order := Rotate(agents, k);
    assert Stepped(agents, offsets[j], waiting[j], popped[j], offsets[j + 1]);
    assert order[0] == agents[k] && FirstNonEmpty(order, waiting[j], popped[j]);
    assert popped[j] == Some(agents[k]);
  }
}
