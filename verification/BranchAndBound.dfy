/** `HierarchicalSoftmaxLoss::dfs` and `predict`: best labels without visiting every leaf. */
module BranchAndBound {
  import opened Huffman
  import opened HuffmanCodes
  import opened HierarchicalSoftmax
  import opened Predictions
  import opened TopK

  /** What a node's two edges add to the score, as `std_log` of its two probabilities: never more than `eps`. */
  predicate Bounded(logs: seq<(real, real)>, eps: real) {
    eps >= 0.0 && forall r :: 0 <= r < |logs| ==> logs[r].0 <= eps && logs[r].1 <= eps
  }

  function EdgeScore(logs: seq<(real, real)>, row: int, bit: bool): real {
    if 0 <= row < |logs| then (if bit then logs[row].1 else logs[row].0) else 0.0
  }

  /** The score of a path: what `forward` adds up over the same rows and bits. */
  function PathScore(logs: seq<(real, real)>, rows: seq<int>, bits: seq<bool>): real {
    if |rows| == 0 || |bits| == 0 then 0.0 else
    EdgeScore(logs, rows[0], bits[0]) + PathScore(logs, rows[1..], bits[1..])
  }

  ghost function NodeScore(s: seq<TreeNode>, counts: seq<int>, logs: seq<(real, real)>, k: int): real
    requires IsNode(s, counts, k)
  {
    PathScore(logs, PathUp(s, counts, k), CodeUp(s, counts, k))
  }

  ghost function Depth(s: seq<TreeNode>, counts: seq<int>, k: int): nat {
    if IsNode(s, counts, k) then |CodeUp(s, counts, k)| else 0
  }

  ghost function DepthSlack(s: seq<TreeNode>, counts: seq<int>, eps: real): Scored -> real {
    (x: Scored) => eps * Depth(s, counts, x.node) as real
  }

  /** Every leaf below `node`, with the score it gets when the search arrives there with `score`. */
  ghost function Below(s: seq<TreeNode>, counts: seq<int>, logs: seq<(real, real)>, node: int,
      score: real): multiset<Scored>
    requires IsNode(s, counts, node)
    decreases node
  {
    InnerHasChildren(s, counts, node);
    if node < |counts| then multiset{Scored(score, node)} else
    Below(s, counts, logs, s[node].left, score + EdgeScore(logs, node - |counts|, false)) +
    Below(s, counts, logs, s[node].right, score + EdgeScore(logs, node - |counts|, true))
  }

  ghost function BelowLeft(s: seq<TreeNode>, counts: seq<int>, logs: seq<(real, real)>, node: int,
      score: real): multiset<Scored>
    requires IsNode(s, counts, node) && IsNode(s, counts, s[node].left)
  {
    Below(s, counts, logs, s[node].left, score + EdgeScore(logs, node - |counts|, false))
  }

  ghost function BelowRight(s: seq<TreeNode>, counts: seq<int>, logs: seq<(real, real)>, node: int,
      score: real): multiset<Scored>
    requires IsNode(s, counts, node) && IsNode(s, counts, s[node].right)
  {
    Below(s, counts, logs, s[node].right, score + EdgeScore(logs, node - |counts|, true))
  }

  lemma BelowStep(s: seq<TreeNode>, counts: seq<int>, logs: seq<(real, real)>, node: int, score: real)
    requires IsNode(s, counts, node)
    ensures node < |counts| ==> Below(s, counts, logs, node, score) == multiset{Scored(score, node)}
    ensures node >= |counts| ==>
      IsNode(s, counts, s[node].left) && IsNode(s, counts, s[node].right) && s[node].left < node && s[node].right < node
    ensures node >= |counts| ==>
      Below(s, counts, logs, node, score) == BelowLeft(s, counts, logs, node, score) +
      BelowRight(s, counts, logs, node, score)
  {
    InnerHasChildren(s, counts, node);
    hide Built;
  }

  lemma OneDown(s: seq<TreeNode>, counts: seq<int>, node: int)
    requires IsNode(s, counts, node) && node >= |counts|
    ensures IsNode(s, counts, s[node].left) && IsNode(s, counts, s[node].right)
    ensures Depth(s, counts, s[node].left) == Depth(s, counts, s[node].right) == Depth(s, counts, node) + 1
  {
    InnerHasChildren(s, counts, node);
    ParentFacts(s, counts, node);
    hide Built;
    UpStep(s, counts, s[node].left);
    UpStep(s, counts, s[node].right);
  }

  lemma Slope(eps: real, a: nat, b: nat)
    requires eps >= 0.0
    ensures eps * (a + 1) as real == eps * a as real + eps
    ensures a <= b ==> eps * a as real <= eps * b as real
    ensures eps * a as real >= 0.0
  {
  }

  /** No leaf below a node beats the node's score by more than `eps` an edge. */
  lemma {:induction false} BelowIsBounded(s: seq<TreeNode>, counts: seq<int>, logs: seq<(real, real)>, eps: real,
      node: int, score: real, x: Scored)
    requires IsNode(s, counts, node) && Bounded(logs, eps) && x in Below(s, counts, logs, node, score)
    ensures x.score <= score + DepthSlack(s, counts, eps)(x) - eps * Depth(s, counts, node) as real
    decreases node
  {
    hide Built, Below, Depth, EdgeScore, Bounded;
    BelowStep(s, counts, logs, node, score);
    if node >= |counts| {
      OneDown(s, counts, node);
      EdgeBound(logs, eps, node - |counts|);
      Slope(eps, Depth(s, counts, node), 0);
      if x in BelowLeft(s, counts, logs, node, score) {
        BelowIsBounded(s, counts, logs, eps, s[node].left, score + EdgeScore(logs, node - |counts|, false), x);
      } else {
        BelowIsBounded(s, counts, logs, eps, s[node].right, score + EdgeScore(logs, node - |counts|, true), x);
      }
    }
  }

  lemma EdgeBound(logs: seq<(real, real)>, eps: real, row: int)
    requires Bounded(logs, eps)
    ensures eps >= 0.0 && EdgeScore(logs, row, false) <= eps && EdgeScore(logs, row, true) <= eps
  {
  }

  /** A whole subtree may be left out when its own score says so. */
  lemma PruneOk(s: seq<TreeNode>, counts: seq<int>, logs: seq<(real, real)>, eps: real, node: int, score: real,
      h: seq<Scored>, k: nat, floor: real)
    requires IsNode(s, counts, node) && Bounded(logs, eps) &&
      (score < floor || (|h| == k && |h| > 0 && score < h[0].score))
    ensures LossOk(Below(s, counts, logs, node, score), h, k, floor, DepthSlack(s, counts, eps))
  {
    hide Built, Below;
    forall x | x in Below(s, counts, logs, node, score)
      ensures MayLeaveOut(x, h, k, floor, DepthSlack(s, counts, eps)(x)) {
      BelowIsBounded(s, counts, logs, eps, node, score, x);
      Slope(eps, Depth(s, counts, node), 0);
    }
  }

  lemma SlackNonNegative(s: seq<TreeNode>, counts: seq<int>, eps: real)
    requires eps >= 0.0
    ensures NoneNegative(DepthSlack(s, counts, eps))
  {
    hide Depth;
    forall x ensures DepthSlack(s, counts, eps)(x) >= 0.0 { Slope(eps, Depth(s, counts, x.node), 0); }
  }

  /** What a search below one node does to the heap. */
  ghost predicate Searched(h: seq<Scored>, h': seq<Scored>, lost: multiset<Scored>, all: multiset<Scored>, k: nat,
      floor: real, slack: Scored -> real) {
    && HeapOk(h', k, floor) && Rises(h, h', k)
    && multiset(h') + lost == multiset(h) + all && LossOk(lost, h', k, floor, slack)
  }

  lemma SearchedTwice(h: seq<Scored>, h1: seq<Scored>, h2: seq<Scored>, a: multiset<Scored>, b: multiset<Scored>,
      all1: multiset<Scored>, all2: multiset<Scored>, k: nat, floor: real, slack: Scored -> real)
    requires Searched(h, h1, a, all1, k, floor, slack) && Searched(h1, h2, b, all2, k, floor, slack)
    ensures Searched(h, h2, a + b, all1 + all2, k, floor, slack)
  {
    LossKept(a, h1, h2, k, floor, slack);
    LossJoins(a, b, h2, k, floor, slack);
    assert multiset(h2) + (a + b) == (multiset(h2) + b) + a;
    assert multiset(h1) + all2 + a == (multiset(h1) + a) + all2;
    assert multiset(h) + all1 + all2 == multiset(h) + (all1 + all2);
  }

  lemma SearchedNothing(h: seq<Scored>, lost: multiset<Scored>, k: nat, floor: real, slack: Scored -> real)
    requires HeapOk(h, k, floor) && LossOk(lost, h, k, floor, slack)
    ensures Searched(h, h, lost, lost, k, floor, slack)
  {
  }

  lemma SearchedLeaf(s: seq<TreeNode>, counts: seq<int>, logs: seq<(real, real)>, node: int, score: real)
    requires IsNode(s, counts, node)
    ensures s[node].left == -1 && s[node].right == -1 <==> node < |counts|
  {
    InnerHasChildren(s, counts, node);
  }

  /** Branch and bound below `node`. */
  method Dfs(loss: HierarchicalSoftmaxLoss, ghost counts: seq<int>, k: nat, floor: real, node: nat, score: real,
      heap: Heap, logs: seq<(real, real)>, ghost eps: real)
    returns (ghost lost: multiset<Scored>)
    requires |counts| == loss.osz && IsNode(loss.tree[..], counts, node) && |logs| == loss.osz - 1 && Bounded(logs, eps)
    requires k >= 1 && HeapOk(heap.items, k, floor)
    modifies heap
    ensures Searched(old(heap.items), heap.items, lost, Below(loss.tree[..], counts, logs, node, score), k, floor,
      DepthSlack(loss.tree[..], counts, eps))
    decreases node
  {
    hide Built, Below, DepthSlack, LossOk, HeapOk, Bounded, Searched;
    ghost var s, before, all := loss.tree[..], heap.items, Below(loss.tree[..], counts, logs, node, score);
    ghost var slack := DepthSlack(s, counts, eps);
    if score < floor {
      PruneOk(s, counts, logs, eps, node, score, heap.items, k, floor);
      SearchedNothing(heap.items, all, k, floor, slack);
      return all;
    }
    if |heap.items| == k && score < heap.items[0].score {
      PruneOk(s, counts, logs, eps, node, score, heap.items, k, floor);
      SearchedNothing(heap.items, all, k, floor, slack);
      return all;
    }
    ParentFacts(s, counts, node);
    SearchedLeaf(s, counts, logs, node, score);
    BelowStep(s, counts, logs, node, score);
    if loss.tree[node].left == -1 && loss.tree[node].right == -1 {
      EpsNonNegative(logs, eps);
      SlackNonNegative(s, counts, eps);
      lost := Offer(heap, Scored(score, node), k, floor, slack);
      OfferSearched(before, heap.items, lost, Scored(score, node), k, floor, slack);
      return;
    }
    var leftScore, rightScore := score + logs[node - loss.osz].0, score + logs[node - loss.osz].1;
    ghost var lost1 := Dfs(loss, counts, k, floor, loss.tree[node].left, leftScore, heap, logs, eps);
    ghost var between := heap.items;
    SearchedHeap(before, between, lost1, Below(s, counts, logs, loss.tree[node].left, leftScore), k, floor, slack);
    ghost var lost2 := Dfs(loss, counts, k, floor, loss.tree[node].right, rightScore, heap, logs, eps);
    SearchedTwice(before, between, heap.items, lost1, lost2, Below(s, counts, logs, loss.tree[node].left, leftScore),
      Below(s, counts, logs, loss.tree[node].right, rightScore), k, floor, slack);
    lost := lost1 + lost2;
  }

  lemma EpsNonNegative(logs: seq<(real, real)>, eps: real)
    requires Bounded(logs, eps)
    ensures eps >= 0.0
  {
  }

  lemma OfferSearched(h: seq<Scored>, h': seq<Scored>, lost: multiset<Scored>, x: Scored, k: nat, floor: real,
      slack: Scored -> real)
    requires HeapOk(h', k, floor) && Rises(h, h', k) && multiset(h') + lost == multiset(h) + multiset{x} &&
      LossOk(lost, h', k, floor, slack)
    ensures Searched(h, h', lost, multiset{x}, k, floor, slack)
  {
  }

  lemma SearchedHeap(h: seq<Scored>, h': seq<Scored>, lost: multiset<Scored>, all: multiset<Scored>, k: nat,
      floor: real, slack: Scored -> real)
    requires Searched(h, h', lost, all, k, floor, slack)
    ensures HeapOk(h', k, floor) && multiset(h') + lost == multiset(h) + all && LossOk(lost, h', k, floor, slack)
  {
  }

  // ---- every leaf once ----

  /** All labels with the scores of their paths. */
  ghost function Labels(s: seq<TreeNode>, counts: seq<int>, logs: seq<(real, real)>, n: nat): multiset<Scored>
    requires Built(s, counts) && n <= |counts|
  {
    assert |counts| <= |s|;
    if n == 0 then multiset{} else
    Labels(s, counts, logs, n - 1) + multiset{Scored(NodeScore(s, counts, logs, n - 1), n - 1)}
  }

  lemma NodeScoreDown(s: seq<TreeNode>, counts: seq<int>, logs: seq<(real, real)>, k: int)
    requires IsNode(s, counts, k) && k < |s| - 1
    ensures |counts| <= s[k].parent < |s| && NodeScore(s, counts, logs, k) == NodeScore(s, counts, logs, s[k].parent) +
      EdgeScore(logs, s[k].parent - |counts|, s[k].binary)
  {
    hide Built, PathUp, CodeUp, PathScore, EdgeScore;
    UpStep(s, counts, k);
    OneEdgeMore(logs, s[k].parent - |counts|, PathUp(s, counts, s[k].parent), s[k].binary,
      CodeUp(s, counts, s[k].parent));
  }

  lemma OneEdgeMore(logs: seq<(real, real)>, row: int, rows: seq<int>, bit: bool, bits: seq<bool>)
    ensures PathScore(logs, [row] + rows, [bit] + bits) == EdgeScore(logs, row, bit) + PathScore(logs, rows, bits)
  {
    assert ([row] + rows)[1..] == rows && ([bit] + bits)[1..] == bits;
  }

  /** How often `x` is found below each node, with the score of the node's own path. */
  ghost function Finds(s: seq<TreeNode>, counts: seq<int>, logs: seq<(real, real)>, x: Scored): (f: seq<real>)
    requires Built(s, counts)
    ensures |f| == |s| && forall k :: 0 <= k < |s| ==>
      IsNode(s, counts, k) && f[k] == Below(s, counts, logs, k, NodeScore(s, counts, logs, k))[x] as real
  {
    seq(|s|, k requires 0 <= k < |s| && IsNode(s, counts, k) =>
      Below(s, counts, logs, k, NodeScore(s, counts, logs, k))[x] as real)
  }

  lemma FindsHandDown(s: seq<TreeNode>, counts: seq<int>, logs: seq<(real, real)>, x: Scored)
    requires Built(s, counts)
    ensures HandsDown(s, |counts|, Finds(s, counts, logs, x))
  {
    hide Built, Below, NodeScore, EdgeScore;
    forall k | |counts| <= k < |s| ensures HandsDownAt(s, Finds(s, counts, logs, x), k) {
      BelowStep(s, counts, logs, k, NodeScore(s, counts, logs, k));
      InnerHasChildren(s, counts, k);
      ParentFacts(s, counts, k);
      NodeScoreDown(s, counts, logs, s[k].left);
      NodeScoreDown(s, counts, logs, s[k].right);
    }
  }

  lemma {:induction false} LabelsTotal(s: seq<TreeNode>, counts: seq<int>, logs: seq<(real, real)>, x: Scored, n: nat)
    requires Built(s, counts) && n <= |counts| <= |s|
    ensures Labels(s, counts, logs, n)[x] as real == Total(Finds(s, counts, logs, x), n)
  {
    hide Built, NodeScore, Finds, Below;
    if n > 0 {
      LabelsTotal(s, counts, logs, x, n - 1);
      LeafFinds(s, counts, logs, x, n - 1);
    }
  }

  lemma LeafFinds(s: seq<TreeNode>, counts: seq<int>, logs: seq<(real, real)>, x: Scored, k: nat)
    requires IsNode(s, counts, k) && k < |counts|
    ensures Finds(s, counts, logs, x)[k] == if x == Scored(NodeScore(s, counts, logs, k), k) then 1.0 else 0.0
  {
    hide Built, NodeScore, Finds, Below;
    BelowStep(s, counts, logs, k, NodeScore(s, counts, logs, k));
  }

  /** From the root every label is found exactly once, with the score of its own path. */
  lemma RootFindsAll(s: seq<TreeNode>, counts: seq<int>, logs: seq<(real, real)>)
    requires IsNode(s, counts, |s| - 1)
    ensures Below(s, counts, logs, |s| - 1, 0.0) == Labels(s, counts, logs, |counts|)
  {
    RootHasNoPath(s, counts);
    ParentFacts(s, counts, |s| - 1);
    assert NodeScore(s, counts, logs, |s| - 1) == 0.0;
    hide Built, Below, Labels, NodeScore, HandsDown, Total;
    forall x ensures Below(s, counts, logs, |s| - 1, 0.0)[x] == Labels(s, counts, logs, |counts|)[x] {
      FindsHandDown(s, counts, logs, x);
      LeavesAddUp(s, counts, Finds(s, counts, logs, x));
      LabelsTotal(s, counts, logs, x, |counts|);
    }
  }

  // ---- the prediction ----

  /** `h` is a selection of labels in which a label is missing only if it scores below the floor, or no better than
      the last of `k` selected, up to `eps` for every edge on its path. */
  ghost predicate Predicted(h: seq<Scored>, s: seq<TreeNode>, counts: seq<int>, labels: multiset<Scored>, k: nat,
      floor: real, eps: real) {
    && Falling(h) && |h| <= k && multiset(h) <= labels && AtLeast(h, floor)
    && forall x :: x in labels - multiset(h) ==> Beaten(x, h, k, floor, DepthSlack(s, counts, eps)(x))
  }

  ghost predicate Beaten(x: Scored, h: seq<Scored>, k: nat, floor: real, slack: real) {
    x.score < floor + slack || (|h| == k && |h| > 0 && x.score <= h[|h| - 1].score + slack)
  }

  method Predict(loss: HierarchicalSoftmaxLoss, ghost counts: seq<int>, k: nat, floor: real, heap: Heap,
      logs: seq<(real, real)>, ghost eps: real)
    requires |counts| == loss.osz && Built(loss.tree[..], counts) && |logs| == loss.osz - 1 && Bounded(logs, eps)
    requires k >= 1 && heap.items == []
    modifies heap
    ensures Predicted(heap.items, loss.tree[..], counts, Labels(loss.tree[..], counts, logs, loss.osz), k, floor, eps)
  {
    hide Built, Searched, Bounded, Labels, Below, Predicted, DepthSlack, IsNode, HeapOk, LossOk, AtLeast, Falling,
      MinFirst;
    ghost var s := loss.tree[..];
    RootIsNode(s, counts);
    EmptyHeap(k, floor);
    ghost var lost := Dfs(loss, counts, k, floor, 2 * loss.osz - 2, 0.0, heap, logs, eps);
    RootFindsAll(s, counts, logs);
    ghost var found := heap.items;
    ghost var labels := Labels(s, counts, logs, |counts|);
    SearchedAll(found, lost, labels, k, floor, DepthSlack(s, counts, eps));
    heap.SortBestFirst();
    SortedPrediction(found, heap.items, s, counts, labels, lost, k, floor, eps);
  }

  lemma RootIsNode(s: seq<TreeNode>, counts: seq<int>)
    requires Built(s, counts)
    ensures |s| == 2 * |counts| - 1 && |counts| >= 1 && IsNode(s, counts, |s| - 1)
  {
    ParentFacts(s, counts, |s| - 1);
  }

  lemma EmptyHeap(k: nat, floor: real)
    ensures HeapOk([], k, floor)
  {
  }

  /** A search of everything, starting with nothing. */
  lemma SearchedAll(found: seq<Scored>, lost: multiset<Scored>, labels: multiset<Scored>, k: nat, floor: real,
      slack: Scored -> real)
    requires Searched([], found, lost, labels, k, floor, slack)
    ensures HeapOk(found, k, floor) && MinFirst(found) && multiset(found) + lost == labels &&
      LossOk(lost, found, k, floor, slack)
  {
    SearchedHeap([], found, lost, labels, k, floor, slack);
    EmptyPlus(labels);
  }

  lemma EmptyPlus(m: multiset<Scored>)
    ensures var none: seq<Scored> := []; multiset(none) + m == m
  {
  }

  lemma SortedPrediction(found: seq<Scored>, h: seq<Scored>, s: seq<TreeNode>, counts: seq<int>,
      labels: multiset<Scored>, lost: multiset<Scored>, k: nat, floor: real, eps: real)
    requires HeapOk(found, k, floor) && multiset(found) + lost == labels &&
      LossOk(lost, found, k, floor, DepthSlack(s, counts, eps))
    requires Falling(h) && multiset(h) == multiset(found) && |h| == |found|
    ensures Predicted(h, s, counts, labels, k, floor, eps)
  {
    hide DepthSlack;
    assert labels - multiset(h) == lost;
    forall i | 0 <= i < |h| ensures floor <= h[i].score {
      assert h[i] in multiset(found);
      assert h[i] in found;
    }
    if |h| > 0 {
      assert h[|h| - 1] in multiset(found);
      assert h[|h| - 1] in found;
    }
    forall x | x in lost ensures Beaten(x, h, k, floor, DepthSlack(s, counts, eps)(x)) {
      assert MayLeaveOut(x, found, k, floor, DepthSlack(s, counts, eps)(x));
    }
  }

  /** When no edge raises a score, branch and bound is exact: it finds the best `k` labels that reach the floor. */
  lemma ExactWithoutSlack(h: seq<Scored>, s: seq<TreeNode>, counts: seq<int>, labels: multiset<Scored>, k: nat,
      floor: real)
    requires Predicted(h, s, counts, labels, k, floor, 0.0)
    ensures Best(h, labels, k, floor)
  {
    forall x | x in labels - multiset(h) ensures x.score < floor ||
      (|h| == k && forall y :: y in h ==> x.score <= y.score) {
      assert Beaten(x, h, k, floor, DepthSlack(s, counts, 0.0)(x));
    }
  }

  /** ... and then it returns exactly the scores of any exhaustive search of the same labels. */
  lemma SameScoresAsExhaustive(h: seq<Scored>, g: seq<Scored>, s: seq<TreeNode>, counts: seq<int>,
      labels: multiset<Scored>, k: nat, floor: real)
    requires Predicted(h, s, counts, labels, k, floor, 0.0) && Best(g, labels, k, floor) && Falling(g)
    ensures |h| == |g| && forall i :: 0 <= i < |h| ==> h[i].score == g[i].score
  {
    ExactWithoutSlack(h, s, counts, labels, k, floor);
    BestScoresAreUnique(h, g, labels, k, floor);
  }
}
