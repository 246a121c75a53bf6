/** `HierarchicalSoftmaxLoss`: the tree, the paths and the codes, as they are built in place. */
module HierarchicalSoftmax {
  import opened CodeTrees
  import opened Huffman
  import opened HuffmanOptimality
  import opened HuffmanCodes

  ghost predicate PathsOk(s: seq<TreeNode>, counts: seq<int>, paths: seq<seq<int>>, codes: seq<seq<bool>>) {
    && Built(s, counts) && |paths| == |codes| <= |counts|
    && forall i :: 0 <= i < |paths| ==>
      IsNode(s, counts, i) && paths[i] == PathUp(s, counts, i) && codes[i] == CodeUp(s, counts, i)
  }

  /** No binary tree with these leaves, however shaped, costs less than `cost`. */
  ghost predicate IsOptimal(counts: seq<int>, cost: int) {
    forall u :: Leaves(u) == multiset(counts) ==> cost <= Cost(u)
  }

  class HierarchicalSoftmaxLoss {
    const osz: nat
    var tree: array<TreeNode>
    var paths: seq<seq<int>>
    var codes: seq<seq<bool>>

    constructor (counts: seq<int>)
      requires Countable(counts)
      ensures fresh(tree) && PathsOk(tree[..], counts, paths, codes) && |codes| == |counts| == osz
      ensures Descending(counts) ==> IsOptimal(counts, WeightedLength(counts, codes))
    {
      osz := |counts|;
      tree := new TreeNode[0];
      paths, codes := [], [];
      new;
      BuildTree(counts);
    }

    /** Huffman's algorithm.  For counts in descending order the codes have the least weighted length there is. */
    method BuildTree(counts: seq<int>)
      requires |counts| == osz && Countable(counts) && paths == [] && codes == []
      modifies this
      ensures fresh(tree) && PathsOk(tree[..], counts, paths, codes) && |codes| == |counts|
      ensures Descending(counts) ==> IsOptimal(counts, WeightedLength(counts, codes))
    {
      hide Built, Descending, Cost, WeightedLength;
      ResetTree(counts);
      MergeAll(counts);
      ReadPaths(counts);
      CostIsWeightedLength(tree[..], counts, codes);
    }

    /** Leaves with their counts, and inner nodes that look heavier than any. */
    method ResetTree(counts: seq<int>)
      requires |counts| == osz >= 1
      modifies `tree
      ensures fresh(tree) && tree.Length == 2 * osz - 1
      ensures forall k :: 0 <= k < tree.Length ==>
        tree[k] == if k < osz then UNTOUCHED.(count := counts[k]) else UNTOUCHED
    {
      var nodes := new TreeNode[2 * osz - 1];
      for i := 0 to 2 * osz - 1
        invariant forall k :: 0 <= k < i ==> nodes[k] == UNTOUCHED
      {
        nodes[i] := TreeNode(-1, -1, -1, NO_COUNT, false);
      }
      for i := 0 to osz
        invariant forall k :: 0 <= k < nodes.Length ==>
          nodes[k] == if k < i then UNTOUCHED.(count := counts[k]) else UNTOUCHED
      {
        nodes[i] := nodes[i].(count := counts[i]);
      }
      tree := nodes;
    }

    /** The lighter of the two queues' heads. */
    method Pick(leaf: int, node: nat) returns (k: int, leaf': int, node': nat)
      requires leaf < tree.Length && node < tree.Length
      ensures IsPick(tree[..], leaf, node, k, leaf', node')
    {
      if leaf >= 0 && tree[leaf].count < tree[node].count {
        k, leaf', node' := leaf, leaf - 1, node;
      } else {
        k, leaf', node' := node, leaf, node + 1;
      }
    }

    /** Node `i` becomes the parent of `a` and `b`. */
    method MergeNodes(i: nat, a: nat, b: nat)
      requires i < tree.Length && a < i && b < i && a != b
      modifies tree
      ensures tree[..] == Merge(old(tree[..]), i, a, b)
    {
      tree[i] := tree[i].(left := a, right := b, count := tree[a].count + tree[b].count);
      tree[a] := tree[a].(parent := i);
      tree[b] := tree[b].(parent := i, binary := true);
    }

    method MergeAll(counts: seq<int>)
      requires |counts| == osz && Countable(counts) && tree.Length == 2 * osz - 1
      requires forall k :: 0 <= k < tree.Length ==>
        tree[k] == if k < osz then UNTOUCHED.(count := counts[k]) else UNTOUCHED
      modifies tree
      ensures Built(tree[..], counts)
      ensures Descending(counts) ==> IsOptimal(counts, Cost(TreeOf(tree[..], counts, tree.Length - 1)))
    {
      hide Merging, Greedy, Built, Merge, PickOk, IsPick, Descending, Countable, IsOptimal;
      var leaf, node := osz - 1, osz;
      ghost var low, trees := 0, seq(osz, k requires 0 <= k < |counts| => Leaf(counts[k]));
      StartMerging(tree[..], counts, trees);
      for i := osz to 2 * osz - 1
        invariant Merging(tree[..], counts, leaf, node, i)
        invariant Descending(counts) ==> Greedy(tree[..], counts, leaf, node, i, low, trees)
      {
        ghost var s := tree[..];
        BothPicksOk(s, counts, leaf, node, i);
        var a, leaf1, node1 := Pick(leaf, node);
        var b, leaf2, node2 := Pick(leaf1, node1);
        PicksBelow(s, |counts|, leaf, node, i, a, leaf1, node1, b, leaf2, node2);
        MergeNodes(i, a, b);
        LoopStep(s, counts, leaf, node, i, low, trees, a, b, leaf1, node1, leaf2, node2);
        low, trees := s[b].count, if Descending(counts) then trees + [Node(trees[a], trees[b])] else trees;
        leaf, node := leaf2, node2;
      }
      FinishMerging(tree[..], counts, leaf, node, low, trees);
    }

    /** From each leaf up to the root. */
    method ReadPaths(counts: seq<int>)
      requires |counts| == osz && Built(tree[..], counts) && paths == [] && codes == []
      modifies `paths, `codes
      ensures PathsOk(tree[..], counts, paths, codes) && |codes| == |counts|
    {
      hide PathsOk;
      NoPathsYet(tree[..], counts);
      for i := 0 to osz
        invariant |paths| == |codes| == i && PathsOk(tree[..], counts, paths, codes)
      {
        var path, code := ReadPath(counts, i);
        OneMorePath(tree[..], counts, paths, codes, path, code);
        paths := paths + [path];
        codes := codes + [code];
      }
    }

    /** From one leaf up to the root. */
    method ReadPath(counts: seq<int>, i: nat) returns (path: seq<int>, code: seq<bool>)
      requires |counts| == osz && IsNode(tree[..], counts, i)
      ensures path == PathUp(tree[..], counts, i) && code == CodeUp(tree[..], counts, i)
    {
      hide Built, PathUp, CodeUp;
      ghost var s := tree[..];
      var j: int := i;
      path, code := [], [];
      while tree[j].parent != -1
        invariant 0 <= j < tree.Length && IsNode(s, counts, j)
        invariant path + PathUp(s, counts, j) == PathUp(s, counts, i)
        invariant code + CodeUp(s, counts, j) == CodeUp(s, counts, i)
        decreases tree.Length - j
      {
        ParentFacts(s, counts, j);
        UpStep(s, counts, j);
        path := path + [tree[j].parent - osz];
        code := code + [tree[j].binary];
        j := tree[j].parent;
      }
      AtTheRoot(s, counts, j);
    }
  }

  lemma NoPathsYet(s: seq<TreeNode>, counts: seq<int>)
    requires Built(s, counts)
    ensures PathsOk(s, counts, [], []) && |counts| <= |s|
  {
  }

  lemma OneMorePath(s: seq<TreeNode>, counts: seq<int>, paths: seq<seq<int>>, codes: seq<seq<bool>>, path: seq<int>,
      code: seq<bool>)
    requires PathsOk(s, counts, paths, codes) && |paths| < |counts| && IsNode(s, counts, |paths|)
    requires path == PathUp(s, counts, |paths|) && code == CodeUp(s, counts, |paths|)
    ensures PathsOk(s, counts, paths + [path], codes + [code])
  {
    hide Built;
  }

  lemma BothPicksOk(s: seq<TreeNode>, counts: seq<int>, leaf: int, node: nat, i: nat)
    requires Countable(counts) && Merging(s, counts, leaf, node, i) && i < |s|
    ensures leaf < |s| && node < |s| && PickOk(s, |counts|, leaf, node, i)
    ensures forall k: int, leaf': int, node': nat :: IsPick(s, leaf, node, k, leaf', node') ==>
      leaf' < |s| && node' < |s| && PickOk(s, |counts|, leaf', node', i)
  {
    PicksAreRoots(s, counts, leaf, node, i);
  }

  lemma PicksBelow(s: seq<TreeNode>, n: nat, leaf: int, node: nat, i: nat, a: int, leaf1: int, node1: nat, b: int,
      leaf2: int, node2: nat)
    requires PickOk(s, n, leaf, node, i) && IsPick(s, leaf, node, a, leaf1, node1)
    requires PickOk(s, n, leaf1, node1, i) && IsPick(s, leaf1, node1, b, leaf2, node2)
    ensures 0 <= a < i && 0 <= b < i && a != b
  {
  }

  lemma AtTheRoot(s: seq<TreeNode>, counts: seq<int>, j: int)
    requires IsNode(s, counts, j) && s[j].parent == -1
    ensures PathUp(s, counts, j) == [] && CodeUp(s, counts, j) == []
  {
    ParentFacts(s, counts, j);
    RootHasNoPath(s, counts);
  }

  lemma StartMerging(s: seq<TreeNode>, counts: seq<int>, trees: seq<Tree>)
    requires Countable(counts) && |s| == 2 * |counts| - 1
    requires forall k :: 0 <= k < |s| ==> s[k] == if k < |counts| then UNTOUCHED.(count := counts[k]) else UNTOUCHED
    requires trees == seq(|counts|, k requires 0 <= k < |counts| => Leaf(counts[k]))
    ensures Merging(s, counts, |counts| - 1, |counts|, |counts|)
    ensures Descending(counts) ==> Greedy(s, counts, |counts| - 1, |counts|, |counts|, 0, trees)
  {
    if Descending(counts) { GreedyStart(s, counts, trees); }
  }

  lemma LoopStep(s: seq<TreeNode>, counts: seq<int>, leaf: int, node: nat, i: nat, low: int, trees: seq<Tree>, a: nat,
      b: nat, leaf1: int, node1: nat, leaf': int, node': nat)
    requires Merging(s, counts, leaf, node, i) && i < |s| &&
      (Descending(counts) ==> Greedy(s, counts, leaf, node, i, low, trees))
    requires PickOk(s, |counts|, leaf, node, i) && IsPick(s, leaf, node, a, leaf1, node1)
    requires PickOk(s, |counts|, leaf1, node1, i) && IsPick(s, leaf1, node1, b, leaf', node')
    ensures Merging(Merge(s, i, a, b), counts, leaf', node', i + 1)
    ensures Descending(counts) ==>
      a < |trees| && b < |trees| && Greedy(Merge(s, i, a, b), counts, leaf', node', i + 1, s[b].count, trees +
      [Node(trees[a], trees[b])])
  {
    hide Greedy, Merge;
    MergeKeeps(s, counts, leaf, node, i, a, b, leaf1, node1, leaf', node');
    if Descending(counts) {
      TreesReach(s, counts, leaf, node, i, low, trees);
      GreedyStep(s, counts, leaf, node, i, low, trees, a, b, leaf1, node1, leaf', node');
    }
  }

  lemma TreesReach(s: seq<TreeNode>, counts: seq<int>, leaf: int, node: nat, i: nat, low: int, trees: seq<Tree>)
    requires Greedy(s, counts, leaf, node, i, low, trees)
    ensures |trees| == i
  {
  }

  lemma {:induction false} TreesAreTreesOf(s: seq<TreeNode>, counts: seq<int>, trees: seq<Tree>, k: nat)
    requires IsNode(s, counts, k) && Grown(s, counts, trees) && k < |trees|
    ensures trees[k] == TreeOf(s, counts, k)
    decreases k
  {
    hide Built;
    InnerHasChildren(s, counts, k);
    assert GrownAt(s, counts, trees, k);
    if k >= |counts| {
      TreesAreTreesOf(s, counts, trees, s[k].left);
      TreesAreTreesOf(s, counts, trees, s[k].right);
    }
  }

  lemma FinishMerging(s: seq<TreeNode>, counts: seq<int>, leaf: int, node: nat, low: int, trees: seq<Tree>)
    requires Merging(s, counts, leaf, node, |s|) &&
      (Descending(counts) ==> Greedy(s, counts, leaf, node, |s|, low, trees))
    ensures Built(s, counts)
    ensures Descending(counts) ==> IsOptimal(counts, Cost(TreeOf(s, counts, |s| - 1)))
  {
    MergingDone(s, counts, leaf, node);
    MergingBounds(s, counts, leaf, node);
    hide Merging, Built, Greedy, IsOptimal, Cost, TreeOf;
    if Descending(counts) { RootIsOptimal(s, counts, leaf, node, low, trees); }
  }

  lemma RootIsOptimal(s: seq<TreeNode>, counts: seq<int>, leaf: int, node: nat, low: int, trees: seq<Tree>)
    requires Greedy(s, counts, leaf, node, |s|, low, trees) && |s| == 2 * |counts| - 1 && leaf + 1 + (|s| - node) == 1
    requires IsNode(s, counts, |s| - 1) && (|counts| < |s| ==> node < |s|)
    ensures IsOptimal(counts, Cost(TreeOf(s, counts, |s| - 1)))
  {
    hide Built, Ordered, Covers, RootWeights, RootCost, TreeOf, Cost, Leaves;
    TreesAreTreesOf(s, counts, trees, |s| - 1);
    forall u | Leaves(u) == multiset(counts) ensures Cost(TreeOf(s, counts, |s| - 1)) <= Cost(u) {
      OneRootIsOptimal(s, counts, trees, leaf, node, low, u);
    }
  }

  lemma MergingBounds(s: seq<TreeNode>, counts: seq<int>, leaf: int, node: nat)
    requires Merging(s, counts, leaf, node, |s|)
    ensures 1 <= |counts| && |s| == 2 * |counts| - 1 && leaf + 1 + (|s| - node) == 1 && 0 <= |s| - 1
  {
  }
}
