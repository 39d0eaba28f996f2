/** The bounded promise cache: a map in insertion order, touched on a hit. */
module PromiseCache {
  import opened Sequences

  function Without(s: seq<string>, key: string): (r: seq<string>)
    ensures forall k :: k in r <==> k in s && k != key
    ensures key !in s ==> r == s
    ensures |r| <= |s|
  {
    if s == [] then []
    else if s[0] == key then Without(s[1..], key)
    else [s[0]] + Without(s[1..], key)
  }

  lemma {:induction false} WithoutJoins(a: seq<string>, b: seq<string>, key: string)
    ensures Without(a + b, key) == Without(a, key) + Without(b, key)
  {
    if a == [] {
      assert a + b == b;
    } else {
      assert (a + b)[1..] == a[1..] + b;
      WithoutJoins(a[1..], b, key);
    }
  }

  lemma WithoutLast(s: seq<string>, key: string)
    requires key !in s
    ensures Without(s + [key], key) == s
  {
    WithoutJoins(s, [key], key);
  }

  lemma {:induction false} WithoutDistinct(s: seq<string>, key: string)
    requires Distinct(s)
    ensures Distinct(Without(s, key))
    ensures |Without(s, key)| == |s| - if key in s then 1 else 0
  {
    if s != [] {
      assert Distinct(s[1..]) && s[0] !in s[1..];
      WithoutDistinct(s[1..], key);
    }
  }

  /** The last `limit` of a list. */
  function Newest(s: seq<string>, limit: nat): seq<string> {
    if |s| <= limit then s else s[|s| - limit..]
  }

  lemma NewestDistinct(s: seq<string>, limit: nat)
    requires Distinct(s)
    ensures Distinct(Newest(s, limit))
  {
    if |s| > limit {
      var r := s[|s| - limit..];
      assert forall i :: 0 <= i < |r| ==> r[i] == s[|s| - limit + i];
    }
  }

  // ---- what happens to a cache ----------------------------------------------------------

  /** An ask for a key, or the failure of a key's latest load. */
  datatype Event = Asked(key: string) | Failed(key: string)

  /** The keys once `key` is asked for. */
  function Touched(keys: seq<string>, key: string, limit: nat): seq<string> {
    Newest(Without(keys, key) + [key], limit)
  }

  /** A key kept moves to the end; a new one may put out the oldest. */
  lemma TouchedIs(keys: seq<string>, key: string, limit: nat)
    requires Distinct(keys) && |keys| <= limit
    ensures var touched := Touched(keys, key, limit);
      && Distinct(touched) && |touched| <= limit
      && (key in keys ==> touched == Without(keys, key) + [key] && forall k :: k in touched <==> k in keys)
      && (key !in keys ==> touched == Newest(keys + [key], limit))
    ensures key !in keys ==> Distinct(keys + [key])
  {
    WithoutDistinct(keys, key);
    NewestDistinct(Without(keys, key) + [key], limit);
  }

  function Next(keys: seq<string>, event: Event, limit: nat): seq<string> {
    if event.Asked? then Touched(keys, event.key, limit) else Without(keys, event.key)
  }

  /** The keys a cache of `limit` keeps, oldest first. */
  function OrderAfter(trail: seq<Event>, limit: nat): seq<string> {
    if trail == [] then []
    else Next(OrderAfter(trail[..|trail| - 1], limit), trail[|trail| - 1], limit)
  }

  /** The plain recency list, which no limit cuts. */
  function Recency(trail: seq<Event>): seq<string> {
    if trail == [] then []
    else
      var before, event := Recency(trail[..|trail| - 1]), trail[|trail| - 1];
      Without(before, event.key) + if event.Asked? then [event.key] else []
  }

  lemma OrderNext(before: seq<Event>, event: Event, limit: nat)
    ensures OrderAfter(before + [event], limit) == Next(OrderAfter(before, limit), event, limit)
  {
    assert (before + [event])[..|before|] == before;
  }

  lemma RecencyNext(before: seq<Event>, event: Event)
    ensures Recency(before + [event]) == Without(Recency(before), event.key) + if event.Asked? then [event.key] else []
  {
    assert (before + [event])[..|before|] == before;
  }

  /** The load is the latest of its key. */
  predicate Latest(loadedFor: seq<string>, promise: nat) {
    promise < |loadedFor| && forall p :: promise < p < |loadedFor| ==> loadedFor[p] != loadedFor[promise]
  }

  ghost predicate HoldsLatest(held: map<string, nat>, loadedFor: seq<string>) {
    forall k :: k in held ==> Latest(loadedFor, held[k]) && loadedFor[held[k]] == k
  }

  lemma LoadIsLatest(held: map<string, nat>, loadedFor: seq<string>, key: string)
    requires HoldsLatest(held, loadedFor) && key !in held
    ensures HoldsLatest(held[key := |loadedFor|], loadedFor + [key])
    ensures Latest(loadedFor + [key], |loadedFor|)
  {
  }

  lemma FewerHoldLatest(few: map<string, nat>, held: map<string, nat>, loadedFor: seq<string>)
    requires HoldsLatest(held, loadedFor)
    requires forall k :: k in few ==> k in held && few[k] == held[k]
    ensures HoldsLatest(few, loadedFor)
  {
  }

  // ---- the cache -----------------------------------------------------------------------

  /** Promises are numbered by their load. */
  class Cache {
    const limit: nat
    var order: seq<string>
    var held: map<string, nat>
    // each load's key, as its failure handler closed over it
    var loadedFor: seq<string>
    ghost var trail: seq<Event>

    /** Each promise held is its key's latest load, and the keys are what the trail leaves. */
    ghost predicate Valid()
      reads this
    {
      && Distinct(order) && |order| <= limit
      && (forall k :: k in held <==> k in order)
      && HoldsLatest(held, loadedFor)
      && order == OrderAfter(trail, limit)
    }

    constructor (limit: nat)
      ensures Valid() && this.limit == limit && order == [] && trail == [] && loadedFor == []
    {
      this.limit, order, held, loadedFor, trail := limit, [], map[], [], [];
    }

    method Ask(key: string) returns (promise: nat)
      requires Valid()
      modifies this
      ensures Valid() && trail == old(trail) + [Asked(key)]
      ensures Latest(loadedFor, promise) && loadedFor[promise] == key
      ensures if key in old(held) then promise == old(held)[key] && loadedFor == old(loadedFor)
        else promise == |old(loadedFor)| && loadedFor == old(loadedFor) + [key]
      ensures key in held ==> held[key] == promise
      ensures forall k :: k in held && k != key ==> k in old(held) && held[k] == old(held)[k]
    {
      TouchedIs(order, key, limit);
      OrderNext(trail, Asked(key), limit);
      trail := trail + [Asked(key)];
      if key in held {
        promise := held[key];
        order := Without(order, key);
        order := order + [key];
        return;
      }
      promise := |loadedFor|;
      LoadIsLatest(held, loadedFor, key);
      loadedFor := loadedFor + [key];
      order := order + [key];
      held := held[key := promise];
      ghost var all := held;
      Evict();
      FewerHoldLatest(held, all, loadedFor);
    }

    method Evict()
      requires Distinct(order)
      requires forall k :: k in held <==> k in order
      modifies `order, `held
      ensures order == Newest(old(order), limit)
      ensures forall k :: k in held <==> k in order
      ensures forall k :: k in held ==> k in old(held) && held[k] == old(held)[k]
    {
      ghost var n := 0;
      while |order| > limit
        invariant n <= |old(order)| && order == old(order)[n..]
        invariant |order| >= limit || n == 0
        invariant Distinct(order)
        invariant forall k :: k in held <==> k in order
        invariant forall k :: k in held ==> k in old(held) && held[k] == old(held)[k]
        decreases |order|
      {
        var oldest := order[0];
        HeadOnce(order);
        held := held - {oldest};
        order := order[1..];
        n := n + 1;
      }
    }

    /**
     * A load failed: only its own entry goes, and only while it is the one held. A load that a
     * later one of its key has replaced leaves no trace.
     */
    method OnFailure(promise: nat)
      requires Valid() && promise < |loadedFor|
      modifies `order, `held, `trail
      ensures Valid()
      ensures trail == old(trail) + if Latest(loadedFor, promise) then [Failed(loadedFor[promise])] else []
      ensures held == if loadedFor[promise] in old(held) && old(held)[loadedFor[promise]] == promise
        then old(held) - {loadedFor[promise]} else old(held)
    {
      var key := loadedFor[promise];
      WithoutDistinct(order, key);
      if Latest(loadedFor, promise) {
        OrderNext(trail, Failed(key), limit);
        trail := trail + [Failed(key)];
      }
      if key in held && held[key] == promise {
        FewerHoldLatest(held - {key}, held, loadedFor);
        held := held - {key};
        order := Without(order, key);
      }
    }
  }

  lemma HeadOnce(order: seq<string>)
    requires Distinct(order) && order != []
    ensures forall k :: k in order[1..] <==> k in order && k != order[0]
    ensures Distinct(order[1..])
  {
  }

  // ---- what the recency list is ---------------------------------------------------------

  /** Where the trail last names `key`. */
  function LastNamed(trail: seq<Event>, key: string): (i: int)
    ensures -1 <= i < |trail|
    ensures i >= 0 ==> trail[i].key == key
  {
    if trail == [] then -1
    else if trail[|trail| - 1].key == key then |trail| - 1
    else LastNamed(trail[..|trail| - 1], key)
  }

  ghost predicate ByLastNamed(trail: seq<Event>, keys: seq<string>) {
    forall i, j :: 0 <= i < j < |keys| ==> LastNamed(trail, keys[i]) < LastNamed(trail, keys[j])
  }

  lemma HeadBefore(trail: seq<Event>, keys: seq<string>, rest: seq<string>)
    requires keys != [] && ByLastNamed(trail, keys) && ByLastNamed(trail, rest)
    requires forall k :: k in rest ==> k in keys[1..]
    ensures ByLastNamed(trail, [keys[0]] + rest)
  {
    var r := [keys[0]] + rest;
    forall i, j | 0 <= i < j < |r|
      ensures LastNamed(trail, r[i]) < LastNamed(trail, r[j])
    {
      assert r[j] == rest[j - 1] && rest[j - 1] in rest;
    }
  }

  lemma {:induction false} ByLastNamedWithout(trail: seq<Event>, keys: seq<string>, key: string)
    requires ByLastNamed(trail, keys)
    ensures ByLastNamed(trail, Without(keys, key))
  {
    if keys != [] {
      assert forall i :: 0 <= i < |keys| - 1 ==> keys[1..][i] == keys[i + 1];
      ByLastNamedWithout(trail, keys[1..], key);
      HeadBefore(trail, keys, Without(keys[1..], key));
    }
  }

  lemma NamedNext(before: seq<Event>, event: Event, key: string)
    ensures LastNamed(before + [event], key) == if key == event.key then |before| else LastNamed(before, key)
  {
    assert (before + [event])[..|before|] == before;
  }

  lemma NamedLast(before: seq<Event>, event: Event, rest: seq<string>)
    requires ByLastNamed(before, rest) && event.key !in rest
    ensures ByLastNamed(before + [event], rest) && ByLastNamed(before + [event], rest + [event.key])
  {
    var after, r := before + [event], rest + [event.key];
    forall i, j | 0 <= i < j < |r|
      ensures LastNamed(after, r[i]) < LastNamed(after, r[j])
    {
      assert r[i] == rest[i];
      NamedNext(before, event, rest[i]);
      NamedNext(before, event, r[j]);
    }
    assert forall i :: 0 <= i < |rest| ==> r[i] == rest[i];
  }

  /** The recency list is the keys last asked for rather than failed, in the order of those asks. */
  lemma {:induction false} RecencyIs(trail: seq<Event>)
    ensures forall k :: k in Recency(trail) <==> LastNamed(trail, k) >= 0 && trail[LastNamed(trail, k)].Asked?
    ensures Distinct(Recency(trail)) && ByLastNamed(trail, Recency(trail))
  {
    if trail != [] {
      var before, event := trail[..|trail| - 1], trail[|trail| - 1];
      RecencyIs(before);
      assert before + [event] == trail;
      WithoutDistinct(Recency(before), event.key);
      ByLastNamedWithout(before, Recency(before), event.key);
      NamedLast(before, event, Without(Recency(before), event.key));
      forall k
        ensures k in Recency(trail) <==> LastNamed(trail, k) >= 0 && trail[LastNamed(trail, k)].Asked?
      {
        NamedNext(before, event, k);
      }
    }
  }

  // ---- the keys kept against the recency list -------------------------------------------

  lemma NewestOfTail(older: seq<string>, kept: seq<string>, last: seq<string>, limit: nat)
    ensures var newest := Newest(kept + last, limit);
      |newest| <= limit && newest == Newest(older + kept + last, |newest|)
  {
    assert older + kept + last == older + (kept + last);
  }

  /** A step on the newest of a list is the newest of the step on the whole list. */
  lemma NextOfTail(older: seq<string>, kept: seq<string>, event: Event, limit: nat)
    requires |kept| <= limit
    ensures var all := Without(older + kept, event.key) + if event.Asked? then [event.key] else [];
      var next := Next(kept, event, limit);
      |next| <= limit && |next| <= |all| && next == Newest(all, |next|)
  {
    WithoutJoins(older, kept, event.key);
    var last := if event.Asked? then [event.key] else [];
    NewestOfTail(Without(older, event.key), Without(kept, event.key), last, limit);
    assert event.Failed? ==> Without(kept, event.key) + last == Without(kept, event.key);
  }

  /** Whatever is asked and whatever fails, the keys kept are the newest of the recency list. */
  lemma {:induction false} KeepsNewest(trail: seq<Event>, limit: nat)
    ensures var kept := OrderAfter(trail, limit);
      |kept| <= limit && |kept| <= |Recency(trail)| && kept == Newest(Recency(trail), |kept|)
  {
    if trail != [] {
      var before := trail[..|trail| - 1];
      KeepsNewest(before, limit);
      var all, kept := Recency(before), OrderAfter(before, limit);
      assert all == all[..|all| - |kept|] + kept;
      NextOfTail(all[..|all| - |kept|], kept, trail[|trail| - 1], limit);
    }
  }

  /** Nothing that the limit leaves room for is missing. */
  predicate Whole(trail: seq<Event>, limit: nat) {
    OrderAfter(trail, limit) == Newest(Recency(trail), limit)
  }

  lemma WholeCounts(trail: seq<Event>, limit: nat)
    ensures Whole(trail, limit) <==>
      |OrderAfter(trail, limit)| == limit || |OrderAfter(trail, limit)| == |Recency(trail)|
  {
    KeepsNewest(trail, limit);
  }

  /** A key kept fails though the limit has already put others out. */
  predicate LeavesRoom(before: seq<Event>, event: Event, limit: nat) {
    event.Failed? && event.key in OrderAfter(before, limit) && |Recency(before)| > limit
  }

  lemma {:induction false} WholeStep(before: seq<Event>, event: Event, limit: nat)
    requires Whole(before, limit)
    ensures Whole(before + [event], limit) <==> !LeavesRoom(before, event, limit)
  {
    var after := before + [event];
    assert after[..|after| - 1] == before;
    var all, kept := Recency(before), OrderAfter(before, limit);
    RecencyIs(before);
    KeepsNewest(before, limit);
    NewestDistinct(all, |kept|);
    WithoutDistinct(all, event.key);
    WithoutDistinct(kept, event.key);
    WholeCounts(before, limit);
    WholeCounts(after, limit);
  }

  lemma {:induction false} StaysWhole(trail: seq<Event>, limit: nat)
    requires forall n :: 0 <= n < |trail| ==> !LeavesRoom(trail[..n], trail[n], limit)
    ensures Whole(trail, limit)
  {
    if trail != [] {
      var last := |trail| - 1;
      var before := trail[..last];
      assert forall n :: 0 <= n < last ==> before[..n] == trail[..n];
      StaysWhole(before, limit);
      WholeStep(before, trail[last], limit);
      assert before + [trail[last]] == trail;
    }
  }

  /**
   * The keys kept are the recency list cut to the limit all along a run, exactly when no key
   * kept ever fails while more keys are wanted than the limit allows.
   */
  lemma {:induction false} WholeExactly(trail: seq<Event>, limit: nat)
    ensures (forall n :: 0 <= n <= |trail| ==> Whole(trail[..n], limit))
      <==> forall n :: 0 <= n < |trail| ==> !LeavesRoom(trail[..n], trail[n], limit)
  {
    if forall n :: 0 <= n <= |trail| ==> Whole(trail[..n], limit) {
      forall n | 0 <= n < |trail|
        ensures !LeavesRoom(trail[..n], trail[n], limit)
      {
        assert trail[..n] + [trail[n]] == trail[..n + 1];
        WholeStep(trail[..n], trail[n], limit);
      }
    }
    if forall n :: 0 <= n < |trail| ==> !LeavesRoom(trail[..n], trail[n], limit) {
      forall n | 0 <= n <= |trail|
        ensures Whole(trail[..n], limit)
      {
        assert forall m :: 0 <= m < n ==> trail[..n][..m] == trail[..m];
        StaysWhole(trail[..n], limit);
      }
    }
  }

  /** Two are kept of three; the newest fails; the oldest, though it has not failed, is not there to fill its place. */
  lemma RoomLeft(a: string, b: string, c: string)
    requires a != b && b != c && c != a
    ensures var trail := [Asked(a), Asked(b), Asked(c), Failed(c)];
      OrderAfter(trail, 2) == [b] && Recency(trail) == [a, b] && !Whole(trail, 2)
  {
    var one := [Asked(a)];
    var two := one + [Asked(b)];
    var three := two + [Asked(c)];
    RecencyNext([], Asked(a));
    OrderNext([], Asked(a), 2);
    assert [] + one == one;
    RecencyNext(one, Asked(b));
    OrderNext(one, Asked(b), 2);
    assert Recency(two) == [a, b] == OrderAfter(two, 2);
    RecencyNext(two, Asked(c));
    OrderNext(two, Asked(c), 2);
    assert Recency(three) == [a, b] + [c] && OrderAfter(three, 2) == [b] + [c];
    RecencyNext(three, Failed(c));
    OrderNext(three, Failed(c), 2);
    WithoutLast([a, b], c);
    WithoutLast([b], c);
    assert three + [Failed(c)] == [Asked(a), Asked(b), Asked(c), Failed(c)];
  }
}
