/** Why the two queues always deliver the two lightest roots, and why that makes the tree optimal. */
module HuffmanOptimality {
  import opened CodeTrees
  import opened Huffman

  // ---- the two queues ----

  /** Unmerged inner nodes were created in non-decreasing order of count. */
  ghost predicate QueueSorted(s: seq<TreeNode>, node: nat, i: nat) {
    i <= |s| && forall j, k :: node <= j <= k < i ==> s[j].count <= s[k].count
  }

  ghost predicate HeadsAbove(s: seq<TreeNode>, leaf: int, node: nat, i: nat, w: int) {
    && leaf < |s| && i <= |s|
    && (leaf >= 0 ==> w <= s[leaf].count) && (node < i ==> w <= s[node].count)
  }

  /** `low` is the heavier of the two nodes merged last. */
  ghost predicate Ordered(s: seq<TreeNode>, n: nat, leaf: int, node: nat, i: nat, low: int) {
    && QueueSorted(s, node, i) && HeadsAbove(s, leaf, node, i, low)
    && 0 <= low && (n < i ==> s[i - 1].count <= 2 * low)
  }

  ghost predicate LeavesOk(s: seq<TreeNode>, counts: seq<int>) {
    |counts| <= |s| && forall k :: 0 <= k < |counts| ==> s[k].count == counts[k]
  }

  lemma PickIsLightest(s: seq<TreeNode>, counts: seq<int>, leaf: int, node: nat, i: nat, w: int)
    requires Descending(counts) && LeavesOk(s, counts) && PickOk(s, |counts|, leaf, node, i)
    requires QueueSorted(s, node, i) && HeadsAbove(s, leaf, node, i, w)
    ensures PickLeaf(s, leaf, node) ==> w <= s[leaf].count && HeadsAbove(s, leaf - 1, node, i, s[leaf].count)
    ensures !PickLeaf(s, leaf, node) ==>
      node < i && w <= s[node].count && HeadsAbove(s, leaf, node + 1, i, s[node].count)
  {
    assert leaf >= 1 ==> counts[leaf] <= counts[leaf - 1];
  }

  /** A merged node goes to the end of its queue without disturbing the order. */
  lemma MergeOrdered(s: seq<TreeNode>, n: nat, leaf: int, node: nat, i: nat, low: int, a: nat, b: nat, leaf': int,
      node': nat)
    requires Ordered(s, n, leaf, node, i, low) && n <= node <= node' <= i < |s| && leaf' <= leaf < n && a < i &&
      b < i && a != b
    requires low <= s[a].count <= s[b].count && HeadsAbove(s, leaf', node', i, s[b].count)
    ensures Ordered(Merge(s, i, a, b), n, leaf', node', i + 1, s[b].count)
  {
    MergeIs(s, i, a, b);
    var s' := Merge(s, i, a, b);
    forall k | 0 <= k < |s| ensures s'[k].count == if k == i then s[a].count + s[b].count else s[k].count {
      assert MergedAt(s, s', i, a, b, k);
    }
  }

  // ---- what the roots weigh and cost ----

  ghost function InnerWeights(s: seq<TreeNode>, node: nat, i: nat): multiset<int>
    requires i <= |s|
    decreases i - node
  {
    if node >= i then multiset{} else multiset{s[node].count} + InnerWeights(s, node + 1, i)
  }

  ghost function RootWeights(s: seq<TreeNode>, counts: seq<int>, leaf: int, node: nat, i: nat): multiset<int>
    requires i <= |s| && -1 <= leaf < |counts|
  {
    multiset(counts[..leaf + 1]) + InnerWeights(s, node, i)
  }

  ghost function RootCost(trees: seq<Tree>, node: nat, i: nat): int
    requires i <= |trees|
    decreases i - node
  {
    if node >= i then 0 else Cost(trees[node]) + RootCost(trees, node + 1, i)
  }

  lemma {:induction false} InnerWeightsMerge(s: seq<TreeNode>, node: nat, i: nat, a: nat, b: nat)
    requires node <= i < |s| && a < i && b < i && a != b
    ensures InnerWeights(Merge(s, i, a, b), node, i + 1) == InnerWeights(s, node, i) + multiset{s[a].count + s[b].count}
    decreases i - node
  {
    var s' := Merge(s, i, a, b);
    MergeIs(s, i, a, b);
    assert MergedAt(s, s', i, a, b, node);
    if node < i {
      InnerWeightsMerge(s, node + 1, i, a, b);
    } else {
      assert InnerWeights(s', i + 1, i + 1) == multiset{};
    }
  }

  lemma {:induction false} RootCostMerge(trees: seq<Tree>, node: nat, t: Tree)
    requires node <= |trees|
    ensures RootCost(trees + [t], node, |trees| + 1) == RootCost(trees, node, |trees|) + Cost(t)
    decreases |trees| - node
  {
    if node < |trees| {
      RootCostMerge(trees, node + 1, t);
    }
  }

  lemma LeafWeight(counts: seq<int>, leaf: nat)
    requires leaf < |counts|
    ensures multiset(counts[..leaf + 1]) == multiset(counts[..leaf]) + multiset{counts[leaf]}
  {
    assert counts[..leaf + 1] == counts[..leaf] + [counts[leaf]];
  }

  lemma PickWeight(s: seq<TreeNode>, counts: seq<int>, leaf: int, node: nat, i: nat)
    requires i <= |s| && -1 <= leaf < |counts| && LeavesOk(s, counts)
    ensures leaf >= 0 ==>
      RootWeights(s, counts, leaf, node, i) == RootWeights(s, counts, leaf - 1, node, i) + multiset{s[leaf].count}
    ensures node < i ==>
      RootWeights(s, counts, leaf, node, i) == RootWeights(s, counts, leaf, node + 1, i) + multiset{s[node].count}
  {
    if leaf >= 0 { LeafWeight(counts, leaf); }
  }

  lemma {:induction false} InnerAbove(s: seq<TreeNode>, node: nat, i: nat, w: int)
    requires QueueSorted(s, node, i) && (node < i ==> w <= s[node].count)
    ensures forall c :: c in InnerWeights(s, node, i) ==> w <= c
    decreases i - node
  {
    if node < i { InnerAbove(s, node + 1, i, w); }
  }

  lemma RootsAbove(s: seq<TreeNode>, counts: seq<int>, leaf: int, node: nat, i: nat, w: int)
    requires Descending(counts) && LeavesOk(s, counts) && -1 <= leaf < |counts| && QueueSorted(s, node, i) &&
      HeadsAbove(s, leaf, node, i, w)
    ensures forall c :: c in RootWeights(s, counts, leaf, node, i) ==> w <= c
  {
    InnerAbove(s, node, i, w);
    forall c | c in RootWeights(s, counts, leaf, node, i) ensures w <= c {
      if c !in InnerWeights(s, node, i) {
        assert c in counts[..leaf + 1];
        var k :| 0 <= k < leaf + 1 && counts[..leaf + 1][k] == c;
        assert counts[leaf] <= counts[k];
      }
    }
  }

  // ---- optimality ----

  /** However the leaves are arranged in a tree, the roots can be arranged in one at least `c` cheaper. */
  ghost predicate Covers(counts: seq<int>, roots: multiset<int>, c: int) {
    forall u :: Leaves(u) == multiset(counts) ==> exists v :: Leaves(v) == roots && Cost(v) + c <= Cost(u)
  }

  lemma CoversStart(counts: seq<int>)
    ensures Covers(counts, multiset(counts), 0)
  {
    forall u | Leaves(u) == multiset(counts) ensures exists v ::
      Leaves(v) == multiset(counts) && Cost(v) + 0 <= Cost(u) {
      assert Leaves(u) == multiset(counts) && Cost(u) + 0 <= Cost(u);
    }
  }

  /** Merging the two lightest roots loses nothing. */
  lemma CoversStep(counts: seq<int>, roots: multiset<int>, c: int, a: int, b: int)
    requires Covers(counts, roots, c) && Lightest(a, b, roots)
    ensures Covers(counts, roots - multiset{a, b} + multiset{a + b}, c + a + b)
  {
    forall u | Leaves(u) == multiset(counts)
      ensures exists v :: Leaves(v) == roots - multiset{a, b} + multiset{a + b} && Cost(v) + (c + a + b) <= Cost(u)
    {
      var t :| Leaves(t) == roots && Cost(t) + c <= Cost(u);
      var v := Reduce(t, a, b);
    }
  }

  /** The tree that each node of the array stands for. */
  ghost predicate Grown(s: seq<TreeNode>, counts: seq<int>, trees: seq<Tree>) {
    && |counts| <= |trees| <= |s|
    && (forall k :: 0 <= k < |trees| ==> GrownAt(s, counts, trees, k))
  }

  ghost predicate GrownAt(s: seq<TreeNode>, counts: seq<int>, trees: seq<Tree>, k: nat)
    requires k < |trees| <= |s|
  {
    && Weight(trees[k]) == s[k].count
    && if k < |counts| then trees[k] == Leaf(counts[k])
      else 0 <= s[k].left < k && 0 <= s[k].right < k && trees[k] == Node(trees[s[k].left], trees[s[k].right])
  }

  lemma MergeGrown(s: seq<TreeNode>, counts: seq<int>, trees: seq<Tree>, a: nat, b: nat)
    requires Grown(s, counts, trees) && |trees| < |s| && a < |trees| && b < |trees| && a != b
    ensures Grown(Merge(s, |trees|, a, b), counts, trees + [Node(trees[a], trees[b])])
  {
    var i := |trees|;
    var s', trees' := Merge(s, i, a, b), trees + [Node(trees[a], trees[b])];
    MergeIs(s, i, a, b);
    assert GrownAt(s, counts, trees, a) && GrownAt(s, counts, trees, b);
    forall k | 0 <= k < |trees'| ensures GrownAt(s', counts, trees', k) {
      assert MergedAt(s, s', i, a, b, k);
      if k < i { assert GrownAt(s, counts, trees, k); }
    }
  }

  /** The whole of what the merging loop keeps when the counts come in descending order. */
  ghost predicate Greedy(s: seq<TreeNode>, counts: seq<int>, leaf: int, node: nat, i: nat, low: int, trees: seq<Tree>) {
    && |trees| == i <= |s| && -1 <= leaf < |counts| <= node <= i
    && LeavesOk(s, counts) && Ordered(s, |counts|, leaf, node, i, low) && Grown(s, counts, trees)
    && Covers(counts, RootWeights(s, counts, leaf, node, i), RootCost(trees, node, i))
  }

  lemma GreedyStart(s: seq<TreeNode>, counts: seq<int>, trees: seq<Tree>)
    requires Descending(counts) && 1 <= |counts| <= |s| && LeavesOk(s, counts) &&
      trees == seq(|counts|, k requires 0 <= k < |counts| => Leaf(counts[k]))
    ensures Greedy(s, counts, |counts| - 1, |counts|, |counts|, 0, trees)
  {
    hide Covers;
    CoversStart(counts);
    WholeRoots(s, counts);
    forall k | 0 <= k < |counts| ensures GrownAt(s, counts, trees, k) { }
  }

  lemma WholeRoots(s: seq<TreeNode>, counts: seq<int>)
    requires 1 <= |counts| <= |s|
    ensures RootWeights(s, counts, |counts| - 1, |counts|, |counts|) == multiset(counts)
  {
    assert counts[..|counts|] == counts;
    assert InnerWeights(s, |counts|, |counts|) == multiset{};
  }

  /** One pick, as the weights and costs of the roots see it. */
  ghost predicate TakesOne(s: seq<TreeNode>, counts: seq<int>, trees: seq<Tree>, leaf: int, node: nat, i: nat, k: nat,
      leaf': int, node': nat)
    requires |trees| == i <= |s| && -1 <= leaf < |counts| && -1 <= leaf' < |counts| && k < i
  {
    && RootWeights(s, counts, leaf, node, i) == RootWeights(s, counts, leaf', node', i) + multiset{s[k].count}
    && RootCost(trees, node, i) == RootCost(trees, node', i) + Cost(trees[k])
  }

  lemma PickTakesOne(s: seq<TreeNode>, counts: seq<int>, trees: seq<Tree>, leaf: int, node: nat, i: nat)
    requires |trees| == i <= |s| && -1 <= leaf < |counts| <= node && LeavesOk(s, counts) && Grown(s, counts, trees)
    ensures leaf >= 0 ==> TakesOne(s, counts, trees, leaf, node, i, leaf, leaf - 1, node)
    ensures node < i ==> TakesOne(s, counts, trees, leaf, node, i, node, leaf, node + 1)
  {
    PickWeight(s, counts, leaf, node, i);
    if leaf >= 0 { assert GrownAt(s, counts, trees, leaf); }
  }

  lemma MergeCovers(s: seq<TreeNode>, counts: seq<int>, trees: seq<Tree>, leaf: int, node: nat, i: nat, a: nat, b: nat,
      leaf1: int, node1: nat, leaf': int, node': nat)
    requires |trees| == i < |s| && -1 <= leaf < |counts| && -1 <= leaf1 < |counts| && -1 <= leaf' < |counts| &&
      a < i && b < i && a != b && node' <= i
    requires Covers(counts, RootWeights(s, counts, leaf, node, i), RootCost(trees, node, i)) && Grown(s, counts, trees)
    requires TakesOne(s, counts, trees, leaf, node, i, a, leaf1, node1) &&
      TakesOne(s, counts, trees, leaf1, node1, i, b, leaf', node')
    requires s[a].count <= s[b].count && forall c :: c in RootWeights(s, counts, leaf', node', i) ==> s[b].count <= c
    ensures Covers(counts, RootWeights(Merge(s, i, a, b), counts, leaf', node', i + 1),
      RootCost(trees + [Node(trees[a], trees[b])], node', i + 1))
  {
    hide Covers, RootWeights, Merge, RootCost, Grown, Cost, TakesOne;
    MergeCost(s, counts, trees, leaf, node, i, a, b, leaf1, node1, leaf', node');
    RootWeightsMerge(s, counts, leaf', node', i, a, b);
    CoversMerge(counts, RootWeights(s, counts, leaf, node, i), RootWeights(s, counts, leaf', node', i),
      RootCost(trees, node, i), s[a].count, s[b].count);
  }

  lemma MergeCost(s: seq<TreeNode>, counts: seq<int>, trees: seq<Tree>, leaf: int, node: nat, i: nat, a: nat, b: nat,
      leaf1: int, node1: nat, leaf': int, node': nat)
    requires |trees| == i < |s| && -1 <= leaf < |counts| && -1 <= leaf1 < |counts| && -1 <= leaf' < |counts| &&
      a < i && b < i && node' <= i && Grown(s, counts, trees)
    requires TakesOne(s, counts, trees, leaf, node, i, a, leaf1, node1) &&
      TakesOne(s, counts, trees, leaf1, node1, i, b, leaf', node')
    ensures RootCost(trees + [Node(trees[a], trees[b])], node', i + 1) == RootCost(trees, node, i) + s[a].count +
      s[b].count
    ensures RootWeights(s, counts, leaf, node, i) == RootWeights(s, counts, leaf', node', i) + multiset{s[b].count} +
      multiset{s[a].count}
  {
    assert GrownAt(s, counts, trees, a) && GrownAt(s, counts, trees, b);
    RootCostMerge(trees, node', Node(trees[a], trees[b]));
    hide RootCost, RootWeights, GrownAt;
  }

  lemma CoversMerge(counts: seq<int>, roots: multiset<int>, rest: multiset<int>, c: int, x: int, y: int)
    requires Covers(counts, roots, c) && roots == rest + multiset{y} + multiset{x}
    requires x <= y && forall z :: z in rest ==> y <= z
    ensures Covers(counts, rest + multiset{x + y}, c + x + y)
  {
    hide Covers, Lightest;
    TakeTwo(rest, x, y);
    CoversStep(counts, roots, c, x, y);
  }

  lemma RootWeightsMerge(s: seq<TreeNode>, counts: seq<int>, leaf: int, node: nat, i: nat, a: nat, b: nat)
    requires node <= i < |s| && a < i && b < i && a != b && -1 <= leaf < |counts|
    ensures RootWeights(Merge(s, i, a, b), counts, leaf, node, i + 1) == RootWeights(s, counts, leaf, node, i) +
      multiset{s[a].count + s[b].count}
  {
    InnerWeightsMerge(s, node, i, a, b);
  }

  lemma TakeTwo(rest: multiset<int>, x: int, y: int)
    requires x <= y && forall c :: c in rest ==> y <= c
    ensures Lightest(x, y, rest + multiset{y} + multiset{x}) &&
      rest + multiset{y} + multiset{x} - multiset{x, y} == rest
  {
    assert multiset{y} + multiset{x} == multiset{x, y};
    assert rest + multiset{y} + multiset{x} == rest + multiset{x, y};
  }

  /** One root left: it is the last node made. */
  lemma LastRoot(s: seq<TreeNode>, counts: seq<int>, trees: seq<Tree>, leaf: int, node: nat)
    requires |trees| == |s| == 2 * |counts| - 1 && -1 <= leaf < |counts| <= node <= |s| &&
      leaf + 1 + (|s| - node) == 1 && Grown(s, counts, trees)
    requires |counts| < |s| ==> node < |s|
    ensures exists w :: RootWeights(s, counts, leaf, node, |s|) == multiset{w}
    ensures RootCost(trees, node, |s|) == Cost(trees[|s| - 1])
  {
    if node < |s| {
      assert counts[..leaf + 1] == [];
      assert InnerWeights(s, node + 1, |s|) == multiset{};
      assert RootCost(trees, node + 1, |s|) == 0;
      assert RootWeights(s, counts, leaf, node, |s|) == multiset{s[node].count};
    } else {
      assert |counts| == 1 && counts[..1] == [counts[0]];
      assert GrownAt(s, counts, trees, 0);
      assert RootWeights(s, counts, leaf, node, |s|) == multiset{counts[0]};
    }
  }

  /** When one root is left, its tree is as cheap as any. */
  lemma OneRootIsOptimal(s: seq<TreeNode>, counts: seq<int>, trees: seq<Tree>, leaf: int, node: nat, low: int, u: Tree)
    requires Greedy(s, counts, leaf, node, |s|, low, trees) && leaf + 1 + (|s| - node) == 1 &&
      |s| == 2 * |counts| - 1 && Leaves(u) == multiset(counts)
    requires |counts| < |s| ==> node < |s|
    ensures Cost(trees[|s| - 1]) <= Cost(u)
  {
    hide Ordered, RootWeights, RootCost;
    LastRoot(s, counts, trees, leaf, node);
    var roots, c := RootWeights(s, counts, leaf, node, |s|), RootCost(trees, node, |s|);
    var v :| Leaves(v) == roots && Cost(v) + c <= Cost(u);
    var w :| roots == multiset{w};
    NodeCount(v);
  }

  /** Two picks in a row: both in range, the lighter first, nothing lighter left. */
  ghost predicate GoodPicks(s: seq<TreeNode>, leaf: int, node: nat, i: nat, low: int, a: nat, b: nat, leaf': int,
      node': nat) {
    && a < i <= |s| && b < i && a != b && low <= s[a].count <= s[b].count
    && -1 <= leaf' <= leaf && node <= node' <= i && HeadsAbove(s, leaf', node', i, s[b].count)
  }

  lemma PicksAreGood(s: seq<TreeNode>, counts: seq<int>, leaf: int, node: nat, i: nat, low: int, a: nat, b: nat,
      leaf1: int, node1: nat, leaf': int, node': nat)
    requires Descending(counts) && LeavesOk(s, counts) && Ordered(s, |counts|, leaf, node, i, low)
    requires PickOk(s, |counts|, leaf, node, i) && IsPick(s, leaf, node, a, leaf1, node1)
    requires PickOk(s, |counts|, leaf1, node1, i) && IsPick(s, leaf1, node1, b, leaf', node')
    ensures GoodPicks(s, leaf, node, i, low, a, b, leaf', node')
  {
    PickIsLightest(s, counts, leaf, node, i, low);
    PickIsLightest(s, counts, leaf1, node1, i, s[a].count);
  }

  lemma PicksTakeTwo(s: seq<TreeNode>, counts: seq<int>, trees: seq<Tree>, leaf: int, node: nat, i: nat, a: nat,
      b: nat, leaf1: int, node1: nat, leaf': int, node': nat)
    requires |trees| == i <= |s| && |counts| <= node && LeavesOk(s, counts) && Grown(s, counts, trees) && a < i && b < i
    requires PickOk(s, |counts|, leaf, node, i) && IsPick(s, leaf, node, a, leaf1, node1)
    requires PickOk(s, |counts|, leaf1, node1, i) && IsPick(s, leaf1, node1, b, leaf', node')
    ensures TakesOne(s, counts, trees, leaf, node, i, a, leaf1, node1) &&
      TakesOne(s, counts, trees, leaf1, node1, i, b, leaf', node')
  {
    hide TakesOne, Grown;
    PickTakesOne(s, counts, trees, leaf, node, i);
    PickTakesOne(s, counts, trees, leaf1, node1, i);
  }

  /** One turn of the merging loop. */
  lemma GreedyStep(s: seq<TreeNode>, counts: seq<int>, leaf: int, node: nat, i: nat, low: int, trees: seq<Tree>,
      a: nat, b: nat, leaf1: int, node1: nat, leaf': int, node': nat)
    requires Descending(counts) && Greedy(s, counts, leaf, node, i, low, trees) && i < |s|
    requires PickOk(s, |counts|, leaf, node, i) && IsPick(s, leaf, node, a, leaf1, node1)
    requires PickOk(s, |counts|, leaf1, node1, i) && IsPick(s, leaf1, node1, b, leaf', node')
    ensures a < i && b < i && a != b && Greedy(Merge(s, i, a, b), counts, leaf', node', i + 1, s[b].count, trees +
      [Node(trees[a], trees[b])])
  {
    hide Merge, Covers, RootWeights, RootCost, Grown, Descending, QueueSorted, IsPick, PickLeaf, TakesOne, Ordered,
      HeadsAbove, LeavesOk, InnerWeights;
    PicksAreGood(s, counts, leaf, node, i, low, a, b, leaf1, node1, leaf', node');
    PicksTakeTwo(s, counts, trees, leaf, node, i, a, b, leaf1, node1, leaf', node');
    LaterSorted(s, |counts|, leaf, node, node', i, low);
    RootsAbove(s, counts, leaf', node', i, s[b].count);
    MergeOrdered(s, |counts|, leaf, node, i, low, a, b, leaf', node');
    MergeGrown(s, counts, trees, a, b);
    MergeCounts(s, counts, i, a, b);
    MergeCovers(s, counts, trees, leaf, node, i, a, b, leaf1, node1, leaf', node');
  }

  lemma LaterSorted(s: seq<TreeNode>, n: nat, leaf: int, node: nat, node': nat, i: nat, low: int)
    requires Ordered(s, n, leaf, node, i, low) && node <= node'
    ensures QueueSorted(s, node', i)
  {
  }

  lemma MergeCounts(s: seq<TreeNode>, counts: seq<int>, i: nat, a: nat, b: nat)
    requires LeavesOk(s, counts) && |counts| <= i < |s| && a < i && b < i && a != b
    ensures LeavesOk(Merge(s, i, a, b), counts)
  {
    MergeIs(s, i, a, b);
    forall k | 0 <= k < |counts| ensures Merge(s, i, a, b)[k].count == counts[k] {
      assert MergedAt(s, Merge(s, i, a, b), i, a, b, k);
    }
  }
}
