/** The best `k` labels: exhaustively (`findKBest`) and by branch and bound over the tree (`dfs`, `predict`). */
module TopK {
  import opened Predictions

  // ---- what a selection of the best means ----

  /** `x` may be left out: it scores below the floor, or no better than any of `k` selected, up to `slack`. */
  ghost predicate MayLeaveOut(x: Scored, h: seq<Scored>, k: nat, floor: real, slack: real) {
    x.score < floor + slack || (|h| == k && |h| > 0 && x.score <= h[0].score + slack)
  }

  /** `h` are the best `k` of `all` that reach the floor. */
  ghost predicate Best(h: seq<Scored>, all: multiset<Scored>, k: nat, floor: real) {
    && multiset(h) <= all && |h| <= k
    && (forall x :: x in h ==> floor <= x.score)
    && (forall x :: x in all - multiset(h) ==>
      x.score < floor || (|h| == k && forall y :: y in h ==> x.score <= y.score))
  }

  lemma SmallerIsFewer(a: multiset<Scored>, b: multiset<Scored>)
    requires a <= b
    ensures |a| <= |b|
  {
    assert |b| == |a| + |b - a|;
  }

  lemma MoreOfSome(a: multiset<Scored>, b: multiset<Scored>) returns (x: Scored)
    requires |a| > |b|
    ensures a[x] > b[x]
  {
    if a <= b { SmallerIsFewer(a, b); }
    x :| a[x] > b[x];
  }

  /** The first `i + 1` of `g` include one more of some element than all of `h`, when those all beat `h[i]`. */
  lemma Surplus(h: seq<Scored>, g: seq<Scored>, i: nat) returns (x: Scored)
    requires Falling(h) && Falling(g) && i < |g| && (i < |h| ==> h[i].score < g[i].score)
    ensures x in g && g[i].score <= x.score && multiset(g)[x] > multiset(h)[x]
  {
    var a, b := g[..i + 1], if i < |h| then h[..i] else h;
    x := MoreOfSome(multiset(a), multiset(b));
    assert x in a;
    var j :| 0 <= j <= i && a[j] == x;
    assert g == a + g[i + 1..];
    assert multiset(g) == multiset(a) + multiset(g[i + 1..]);
    NoLater(h, i, x);
  }

  lemma NoLater(h: seq<Scored>, i: nat, x: Scored)
    requires Falling(h) && (i < |h| ==> h[i].score < x.score)
    ensures multiset(h)[x] == multiset(if i < |h| then h[..i] else h)[x]
  {
    if i < |h| {
      assert h == h[..i] + h[i..];
      assert multiset(h) == multiset(h[..i]) + multiset(h[i..]);
      assert forall j :: 0 <= j < |h[i..]| ==> h[i..][j] == h[i + j];
      assert x !in h[i..];
    }
  }

  /** What one selection has more of than another, the other leaves out for being full of no worse. */
  lemma LeftOutForBetter(h: seq<Scored>, g: seq<Scored>, all: multiset<Scored>, k: nat, floor: real, x: Scored)
    requires Best(h, all, k, floor) && Best(g, all, k, floor) && x in g && multiset(g)[x] > multiset(h)[x]
    ensures |h| == k && forall j :: 0 <= j < |h| ==> x.score <= h[j].score
  {
    assert multiset(g)[x] <= all[x];
    assert x in all - multiset(h);
    forall j | 0 <= j < |h| ensures x.score <= h[j].score { assert h[j] in h; }
  }

  lemma BestIsNoWorse(h: seq<Scored>, g: seq<Scored>, all: multiset<Scored>, k: nat, floor: real, i: nat)
    requires Best(h, all, k, floor) && Best(g, all, k, floor) && Falling(h) && Falling(g) && i < |g|
    ensures i < |h| && g[i].score <= h[i].score
  {
    if i >= |h| || h[i].score < g[i].score {
      var x := Surplus(h, g, i);
      LeftOutForBetter(h, g, all, k, floor, x);
    }
  }

  /** The scores of the best are unique, whatever breaks the ties. */
  lemma BestScoresAreUnique(h: seq<Scored>, g: seq<Scored>, all: multiset<Scored>, k: nat, floor: real)
    requires Best(h, all, k, floor) && Best(g, all, k, floor) && Falling(h) && Falling(g)
    ensures |h| == |g| && forall i :: 0 <= i < |h| ==> h[i].score == g[i].score
  {
    if |h| > |g| { BestIsNoWorse(g, h, all, k, floor, |g|); }
    if |g| > |h| { BestIsNoWorse(h, g, all, k, floor, |h|); }
    forall i | 0 <= i < |h| ensures h[i].score == g[i].score {
      BestIsNoWorse(h, g, all, k, floor, i);
      BestIsNoWorse(g, h, all, k, floor, i);
    }
  }

  // ---- exhaustive search ----

  /** Everything that was left out up to now may be left out. */
  ghost predicate LossOk(lost: multiset<Scored>, h: seq<Scored>, k: nat, floor: real, slack: Scored -> real) {
    forall x :: x in lost ==> MayLeaveOut(x, h, k, floor, slack(x))
  }

  ghost predicate AtLeast(h: seq<Scored>, floor: real) {
    forall i :: 0 <= i < |h| ==> floor <= h[i].score
  }

  ghost predicate HeapOk(h: seq<Scored>, k: nat, floor: real) {
    MinFirst(h) && |h| <= k && AtLeast(h, floor)
  }

  /** A full heap stays full and its least score does not fall. */
  ghost predicate Rises(h: seq<Scored>, h': seq<Scored>, k: nat) {
    |h| == k && k > 0 ==> |h'| == k && h[0].score <= h'[0].score
  }

  lemma LossKept(lost: multiset<Scored>, h: seq<Scored>, h': seq<Scored>, k: nat, floor: real, slack: Scored -> real)
    requires LossOk(lost, h, k, floor, slack) && Rises(h, h', k)
    ensures LossOk(lost, h', k, floor, slack)
  {
    forall x | x in lost ensures MayLeaveOut(x, h', k, floor, slack(x)) {
      assert MayLeaveOut(x, h, k, floor, slack(x));
    }
  }

  lemma LossJoins(a: multiset<Scored>, b: multiset<Scored>, h: seq<Scored>, k: nat, floor: real, slack: Scored -> real)
    requires LossOk(a, h, k, floor, slack) && LossOk(b, h, k, floor, slack)
    ensures LossOk(a + b, h, k, floor, slack)
  {
  }

  ghost predicate NoneNegative(slack: Scored -> real) {
    forall x :: slack(x) >= 0.0
  }

  /** A candidate goes into the heap, and the least out of it when there is one too many. */
  method Offer(heap: Heap, x: Scored, k: nat, ghost floor: real, ghost slack: Scored -> real)
      returns (ghost lost: multiset<Scored>)
    requires k >= 1 && HeapOk(heap.items, k, floor) && floor <= x.score && NoneNegative(slack)
    modifies heap
    ensures HeapOk(heap.items, k, floor) && Rises(old(heap.items), heap.items, k)
    ensures multiset(heap.items) + lost == multiset(old(heap.items)) + multiset{x}
    ensures LossOk(lost, heap.items, k, floor, slack)
  {
    ghost var before := heap.items;
    heap.Push(x);
    lost := multiset{};
    ghost var pushed := heap.items;
    AllAtLeast(before, pushed, x, floor);
    if |heap.items| > k {
      var y := heap.PopLeast();
      lost := multiset{y};
      LaterOnes(pushed, y, heap.items);
      Popped(before, pushed, heap.items, x, y, k, floor);
      assert slack(y) >= 0.0;
    }
  }

  lemma AllAtLeast(h: seq<Scored>, h': seq<Scored>, x: Scored, floor: real)
    requires AtLeast(h, floor) && floor <= x.score && multiset(h') == multiset(h) + multiset{x}
    ensures AtLeast(h', floor)
  {
    forall i | 0 <= i < |h'| ensures floor <= h'[i].score {
      assert h'[i] in multiset(h');
      assert h'[i] == x || h'[i] in h;
    }
  }

  lemma Popped(before: seq<Scored>, pushed: seq<Scored>, now: seq<Scored>, x: Scored, y: Scored, k: nat, floor: real)
    requires MinFirst(before) && AtLeast(pushed, floor) && |before| <= k && |pushed| == |before| + 1 && |now| == k &&
      |pushed| == k + 1 && k >= 1
    requires multiset(pushed) == multiset(before) + multiset{x} && multiset(now) + multiset{y} == multiset(pushed)
    requires forall j :: 0 <= j < |now| ==> y.score <= now[j].score
    ensures AtLeast(now, floor) && Rises(before, now, k) && y.score <= now[0].score
  {
    forall i | 0 <= i < |now| ensures floor <= now[i].score {
      assert now[i] in multiset(now) && now[i] in multiset(pushed);
      assert now[i] in pushed;
    }
    FrontRises(before, now, x, y);
  }

  /** Exchanging the least element for one no smaller than it does not lower the least score. */
  lemma FrontRises(before: seq<Scored>, now: seq<Scored>, x: Scored, y: Scored)
    requires |before| > 0 && |now| > 0 && MinFirst(before) &&
      multiset(now) + multiset{y} == multiset(before) + multiset{x}
    requires forall j :: 0 <= j < |now| ==> y.score <= now[j].score
    ensures before[0].score <= now[0].score
  {
    assert y in multiset(now) + multiset{y};
    if y in multiset(before) {
      assert y in before;
    } else {
      assert y == x;
      assert multiset(now) == multiset(now) + multiset{y} - multiset{y} == multiset(before);
      assert now[0] in multiset(before);
      assert now[0] in before;
    }
  }

  ghost predicate Increasing(f: real -> real) {
    forall a, b :: a < b ==> f(a) < f(b)
  }

  /** The candidates of an exhaustive search: every output, as `std_log` scores it. */
  ghost function Outputs(output: seq<real>, stdLog: real -> real, n: nat): (all: multiset<Scored>)
    requires n <= |output|
  {
    if n == 0 then multiset{} else Outputs(output, stdLog, n - 1) + multiset{Scored(stdLog(output[n - 1]), n - 1)}
  }

  function NoSlack(x: Scored): real {
    0.0
  }

  /** Of the candidates so far, some are in the heap and the others were rightly left out. */
  ghost predicate Progress(h: seq<Scored>, lost: multiset<Scored>, all: multiset<Scored>, k: nat, floor: real,
      slack: Scored -> real) {
    HeapOk(h, k, floor) && multiset(h) + lost == all && LossOk(lost, h, k, floor, slack)
  }

  lemma ProgressSkip(h: seq<Scored>, lost: multiset<Scored>, all: multiset<Scored>, k: nat, floor: real,
      slack: Scored -> real, x: multiset<Scored>)
    requires Progress(h, lost, all, k, floor, slack) && LossOk(x, h, k, floor, slack)
    ensures Progress(h, lost + x, all + x, k, floor, slack)
  {
    LossJoins(lost, x, h, k, floor, slack);
  }

  lemma ProgressOffer(h: seq<Scored>, h': seq<Scored>, lost: multiset<Scored>, more: multiset<Scored>,
      all: multiset<Scored>, k: nat, floor: real, slack: Scored -> real, x: multiset<Scored>)
    requires Progress(h, lost, all, k, floor, slack) && HeapOk(h', k, floor) && Rises(h, h', k)
    requires multiset(h') + more == multiset(h) + x && LossOk(more, h', k, floor, slack)
    ensures Progress(h', lost + more, all + x, k, floor, slack)
  {
    LossKept(lost, h, h', k, floor, slack);
    LossJoins(lost, more, h', k, floor, slack);
    assert multiset(h') + (lost + more) == multiset(h) + x + lost;
  }

  /** `findKBest`, for any increasing logarithm: the heap ends with the best `k` outputs that reach the threshold. */
  method FindKBest(k: nat, threshold: real, heap: Heap, output: seq<real>, stdLog: real -> real)
    requires k >= 1 && heap.items == [] && Increasing(stdLog)
    modifies heap
    ensures MinFirst(heap.items) && Best(heap.items, Outputs(output, stdLog, |output|), k, stdLog(threshold))
  {
    hide Progress, Best, LossOk;
    ghost var floor, lost := stdLog(threshold), multiset{};
    NothingYet(k, floor, NoSlack);
    for i := 0 to |output|
      invariant Progress(heap.items, lost, Outputs(output, stdLog, i), k, floor, NoSlack)
    {
      ghost var before, x := heap.items, Scored(stdLog(output[i]), i);
      if output[i] < threshold {
        OneLost(before, x, k, floor);
        ProgressSkip(before, lost, Outputs(output, stdLog, i), k, floor, NoSlack, multiset{x});
        lost := lost + multiset{x};
        continue;
      }
      ProgressHeap(before, lost, Outputs(output, stdLog, i), k, floor, NoSlack);
      if |heap.items| == k && stdLog(output[i]) < heap.items[0].score {
        OneLost(before, x, k, floor);
        ProgressSkip(before, lost, Outputs(output, stdLog, i), k, floor, NoSlack, multiset{x});
        lost := lost + multiset{x};
        continue;
      }
      ghost var more := Offer(heap, Scored(stdLog(output[i]), i), k, floor, NoSlack);
      ProgressOffer(before, heap.items, lost, more, Outputs(output, stdLog, i), k, floor, NoSlack, multiset{x});
      lost := lost + more;
    }
    ProgressHeap(heap.items, lost, Outputs(output, stdLog, |output|), k, floor, NoSlack);
    LossMeansBest(heap.items, lost, Outputs(output, stdLog, |output|), k, floor);
  }

  lemma NothingYet(k: nat, floor: real, slack: Scored -> real)
    ensures Progress([], multiset{}, multiset{}, k, floor, slack)
  {
  }

  lemma OneLost(h: seq<Scored>, x: Scored, k: nat, floor: real)
    requires x.score < floor || (|h| == k && |h| > 0 && x.score < h[0].score)
    ensures LossOk(multiset{x}, h, k, floor, NoSlack)
  {
  }

  lemma ProgressHeap(h: seq<Scored>, lost: multiset<Scored>, all: multiset<Scored>, k: nat, floor: real,
      slack: Scored -> real)
    requires Progress(h, lost, all, k, floor, slack)
    ensures HeapOk(h, k, floor) && multiset(h) + lost == all && LossOk(lost, h, k, floor, slack)
  {
  }

  /** Nothing wrongly left out, without slack: the heap holds the best. */
  lemma LossMeansBest(h: seq<Scored>, lost: multiset<Scored>, all: multiset<Scored>, k: nat, floor: real)
    requires HeapOk(h, k, floor) && multiset(h) + lost == all && LossOk(lost, h, k, floor, NoSlack)
    ensures Best(h, all, k, floor)
  {
    assert all - multiset(h) == lost;
    forall x | x in lost ensures x.score < floor || (|h| == k && forall y :: y in h ==> x.score <= y.score) {
      assert MayLeaveOut(x, h, k, floor, NoSlack(x));
    }
  }
}
