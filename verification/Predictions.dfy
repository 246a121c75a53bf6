/** The bounded heap that predictions are collected in, with the standard library's heap functions by contract. */
module Predictions {
  datatype Scored = Scored(score: real, node: int)

  /** All that callers see of `std::push_heap` and `std::pop_heap` with `comparePairs`: the least score comes first. */
  ghost predicate MinFirst(h: seq<Scored>) {
    forall i :: 0 <= i < |h| ==> h[0].score <= h[i].score
  }

  ghost predicate Falling(h: seq<Scored>) {
    forall i, j :: 0 <= i <= j < |h| ==> h[j].score <= h[i].score
  }

  class Heap {
    var items: seq<Scored>

    constructor ()
      ensures items == []
    {
      items := [];
    }

    method Push(x: Scored)
      requires MinFirst(items)
      modifies this
      ensures MinFirst(items) && multiset(items) == multiset(old(items)) + multiset{x} && |items| == |old(items)| + 1
    {
      if |items| > 0 && items[0].score <= x.score {
        items := items + [x];
      } else {
        items := [x] + items;
      }
    }

    method PopLeast() returns (x: Scored)
      requires |items| > 0 && MinFirst(items)
      modifies this
      ensures MinFirst(items) && multiset(items) + multiset{x} == multiset(old(items)) && |items| + 1 == |old(items)|
      ensures x == old(items)[0]
    {
      hide MinFirst;
      x := items[0];
      var rest := items[1..];
      assert items == [x] + rest;
      var least := 0;
      for i := 0 to |rest|
        invariant |rest| > 0 ==> 0 <= least < |rest|
        invariant forall j :: 0 <= j < i ==> rest[least].score <= rest[j].score
      {
        if rest[i].score < rest[least].score { least := i; }
      }
      LeastFirst(rest, least);
      items := if |rest| > 0 then [rest[least]] + rest[..least] + rest[least + 1..] else [];
    }

    /** `std::sort_heap` with the same comparison: best first. */
    method SortBestFirst()
      requires MinFirst(items)
      modifies this
      ensures Falling(items) && multiset(items) == multiset(old(items)) && |items| == |old(items)|
    {
      var sorted: seq<Scored> := [];
      while |items| > 0
        invariant MinFirst(items) && Falling(sorted)
        invariant multiset(items) + multiset(sorted) == multiset(old(items)) && |items| + |sorted| == |old(items)|
        invariant forall i, j :: 0 <= i < |sorted| && 0 <= j < |items| ==> sorted[i].score <= items[j].score
        decreases |items|
      {
        ghost var was := items;
        var x := PopLeast();
        LaterOnes(was, x, items);
        assert forall i :: 0 <= i < |sorted| ==> sorted[i].score <= was[0].score;
        sorted := [x] + sorted;
      }
      items := sorted;
    }
  }

  lemma LeastFirst(rest: seq<Scored>, least: nat)
    requires |rest| > 0 ==> least < |rest| && forall j :: 0 <= j < |rest| ==> rest[least].score <= rest[j].score
    ensures |rest| > 0 ==> var h := [rest[least]] + rest[..least] + rest[least + 1..];
      multiset(h) == multiset(rest) && |h| == |rest| && MinFirst(h)
    ensures MinFirst([])
  {
    if |rest| > 0 { assert rest == rest[..least] + [rest[least]] + rest[least + 1..]; }
  }

  lemma LaterOnes(was: seq<Scored>, x: Scored, now: seq<Scored>)
    requires MinFirst(was) && |was| > 0 && x == was[0] && multiset(now) + multiset{x} == multiset(was)
    ensures forall j :: 0 <= j < |now| ==> x.score <= now[j].score
  {
    forall j | 0 <= j < |now| ensures x.score <= now[j].score {
      assert now[j] in multiset(now);
      assert now[j] in multiset(was);
      var i :| 0 <= i < |was| && was[i] == now[j];
    }
  }
}
