/** `HierarchicalSoftmaxLoss::buildTree`: the two-queue Huffman algorithm on a flat array of nodes. */
module Huffman {
  /** The count of a node that has not been made yet. */
  const NO_COUNT: int := 1_000_000_000_000_000

  datatype TreeNode = TreeNode(parent: int, left: int, right: int, count: int, binary: bool)

  const UNTOUCHED: TreeNode := TreeNode(-1, -1, -1, NO_COUNT, false)

  /** What the constructor's caller provides: a count per label, each below the sentinel. */
  predicate Countable(counts: seq<int>) {
    |counts| >= 1 && forall k :: 0 <= k < |counts| ==> counts[k] < NO_COUNT
  }

  /** As the dictionary delivers them: most frequent label first. */
  predicate Descending(counts: seq<int>) {
    && (forall k :: 0 <= k < |counts| ==> counts[k] >= 0)
    && (forall j, k :: 0 <= j <= k < |counts| ==> counts[k] <= counts[j])
  }

  // ---- the array while it is being filled ----

  ghost predicate LeafOk(s: seq<TreeNode>, counts: seq<int>, k: nat)
    requires k < |s| && k < |counts|
  {
    s[k].left == -1 && s[k].right == -1 && s[k].count == counts[k]
  }

  ghost predicate InnerOk(s: seq<TreeNode>, k: nat)
    requires k < |s|
  {
    && 0 <= s[k].left < k && 0 <= s[k].right < k && s[k].left != s[k].right
    && s[s[k].left].parent == k && s[s[k].right].parent == k
    && !s[s[k].left].binary && s[s[k].right].binary
    && s[k].count == s[s[k].left].count + s[s[k].right].count
  }

  ghost predicate ChildOk(s: seq<TreeNode>, n: nat, k: nat, i: nat)
    requires k < |s|
  {
    (s[k].parent == -1 && !s[k].binary) ||
    (n <= s[k].parent < i && k < s[k].parent < |s| && k == if s[k].binary then s[s[k].parent].right
      else s[s[k].parent].left)
  }

  ghost predicate IsRoot(n: nat, leaf: int, node: nat, k: nat) {
    if k < n then k <= leaf else node <= k
  }

  /** Nodes below `i` are made; those not yet merged are the leaves up to `leaf` and the inner nodes from `node`. */
  ghost predicate Merging(s: seq<TreeNode>, counts: seq<int>, leaf: int, node: nat, i: nat) {
    var n := |counts|;
    && 1 <= n <= i <= |s| == 2 * n - 1
    && -1 <= leaf < n <= node <= i && leaf + 1 + (i - node) == 2 * n - i
    && (forall k :: 0 <= k < n ==> LeafOk(s, counts, k))
    && (forall k :: n <= k < i ==> InnerOk(s, k))
    && (forall k :: i <= k < |s| ==> s[k] == UNTOUCHED)
    && (forall k :: 0 <= k < i ==> PlaceOk(s, n, leaf, node, k, i))
  }

  /** The node's parent has it as a child, unless it is still to be merged. */
  ghost predicate PlaceOk(s: seq<TreeNode>, n: nat, leaf: int, node: nat, k: nat, i: nat)
    requires k < |s|
  {
    ChildOk(s, n, k, i) && (s[k].parent == -1 <==> IsRoot(n, leaf, node, k))
  }

  /** Node `i` made from `a` and `b`. */
  function Merge(s: seq<TreeNode>, i: nat, a: nat, b: nat): (r: seq<TreeNode>)
    requires i < |s| && a < |s| && b < |s|
  {
    var s1 := s[i := TreeNode(s[i].parent, a, b, s[a].count + s[b].count, s[i].binary)];
    var s2 := s1[a := s1[a].(parent := i)];
    s2[b := s2[b].(parent := i, binary := true)]
  }

  /** The smaller of the two queues' heads; on a tie, the inner node. */
  function PickLeaf(s: seq<TreeNode>, leaf: int, node: nat): bool
    requires leaf < |s| && node < |s|
  {
    leaf >= 0 && s[leaf].count < s[node].count
  }

  /** A pick always finds a made, unmerged node: an unmade one looks heavier than any leaf. */
  ghost predicate PickOk(s: seq<TreeNode>, n: nat, leaf: int, node: nat, i: nat) {
    -1 <= leaf < n <= node <= i < |s| && leaf + 1 + (i - node) >= 1 &&
    (node == i ==> leaf >= 0 && s[leaf].count < s[i].count)
  }

  /** What a pick yields: the node, and what is left of the queues. */
  predicate IsPick(s: seq<TreeNode>, leaf: int, node: nat, k: int, leaf': int, node': nat)
    requires leaf < |s| && node < |s|
  {
    if PickLeaf(s, leaf, node) then k == leaf && leaf' == leaf - 1 && node' == node
    else k == node && leaf' == leaf && node' == node + 1
  }

  lemma PicksAreRoots(s: seq<TreeNode>, counts: seq<int>, leaf: int, node: nat, i: nat)
    requires Countable(counts) && Merging(s, counts, leaf, node, i) && i < |s|
    ensures PickOk(s, |counts|, leaf, node, i)
    ensures PickLeaf(s, leaf, node) ==> PickOk(s, |counts|, leaf - 1, node, i)
    ensures !PickLeaf(s, leaf, node) ==> PickOk(s, |counts|, leaf, node + 1, i)
  {
    assert s[i] == UNTOUCHED;
    assert leaf >= 0 ==> LeafOk(s, counts, leaf);
    assert leaf >= 1 ==> LeafOk(s, counts, leaf - 1);
  }

  ghost predicate Picked(n: nat, leaf: int, node: nat, k: int, leaf': int, node': nat) {
    (k == leaf && leaf' == leaf - 1 && node' == node && 0 <= leaf) || (k == node && leaf' == leaf && node' == node + 1)
  }

  /** What merging makes of each node. */
  ghost predicate MergedAt(s: seq<TreeNode>, s': seq<TreeNode>, i: nat, a: nat, b: nat, k: nat)
    requires k < |s| == |s'| && a < |s| && b < |s|
  {
    s'[k] ==
      if k == a then TreeNode(i, s[k].left, s[k].right, s[k].count, s[k].binary)
      else if k == b then TreeNode(i, s[k].left, s[k].right, s[k].count, true)
      else if k == i then TreeNode(s[k].parent, a, b, s[a].count + s[b].count, s[k].binary)
      else s[k]
  }

  ghost predicate MergedAll(s: seq<TreeNode>, s': seq<TreeNode>, i: nat, a: nat, b: nat)
    requires |s| == |s'| && a < |s| && b < |s|
  {
    forall k :: 0 <= k < |s| ==> MergedAt(s, s', i, a, b, k)
  }

  lemma MergeIs(s: seq<TreeNode>, i: nat, a: nat, b: nat)
    requires i < |s| && a < i && b < i && a != b
    ensures MergedAll(s, Merge(s, i, a, b), i, a, b)
  {
  }

  lemma MergeLeaves(s: seq<TreeNode>, s': seq<TreeNode>, counts: seq<int>, i: nat, a: nat, b: nat, k: nat)
    requires |counts| <= i < |s| == |s'| && a < i && b < i && MergedAll(s, s', i, a, b) && k < |counts| &&
      LeafOk(s, counts, k)
    ensures LeafOk(s', counts, k)
  {
    assert MergedAt(s, s', i, a, b, k);
  }

  lemma MergeInner(s: seq<TreeNode>, s': seq<TreeNode>, i: nat, a: nat, b: nat, k: nat)
    requires i < |s| == |s'| && a < i && b < i && a != b && MergedAll(s, s', i, a, b)
    requires s[a].parent == -1 && s[b].parent == -1 && !s[a].binary && k <= i && (k < i ==> InnerOk(s, k))
    ensures InnerOk(s', k)
  {
    assert MergedAt(s, s', i, a, b, k) && MergedAt(s, s', i, a, b, a) && MergedAt(s, s', i, a, b, b);
    if k < i { assert MergedAt(s, s', i, a, b, s[k].left) && MergedAt(s, s', i, a, b, s[k].right); }
  }

  lemma MergeChild(s: seq<TreeNode>, s': seq<TreeNode>, n: nat, i: nat, a: nat, b: nat, k: nat)
    requires n <= i < |s| == |s'| && a < i && b < i && a != b && MergedAll(s, s', i, a, b) && s[i] == UNTOUCHED
    requires s[a].parent == -1 && s[b].parent == -1 && !s[a].binary && k <= i && (k < i ==> ChildOk(s, n, k, i))
    ensures ChildOk(s', n, k, i + 1)
    ensures s'[k].parent == -1 <==> k == i || (s[k].parent == -1 && k != a && k != b)
  {
    assert MergedAt(s, s', i, a, b, k) && MergedAt(s, s', i, a, b, i);
    if k < i && s[k].parent != -1 { assert MergedAt(s, s', i, a, b, s[k].parent); }
  }

  lemma MergeKeeps(s: seq<TreeNode>, counts: seq<int>, leaf: int, node: nat, i: nat, a: nat, b: nat, leaf1: int,
      node1: nat, leaf': int, node': nat)
    requires Merging(s, counts, leaf, node, i) && i < |s| && -1 <= leaf' && node' <= i
    requires Picked(|counts|, leaf, node, a, leaf1, node1) && Picked(|counts|, leaf1, node1, b, leaf', node') &&
      a < i && b < i
    ensures Merging(Merge(s, i, a, b), counts, leaf', node', i + 1)
  {
    var n, s' := |counts|, Merge(s, i, a, b);
    assert s[i] == UNTOUCHED && PlaceOk(s, n, leaf, node, a, i) && PlaceOk(s, n, leaf, node, b, i);
    MergeIs(s, i, a, b);
    hide Merge, MergedAll, MergedAt, LeafOk, InnerOk, ChildOk;
    forall k | 0 <= k < n ensures LeafOk(s', counts, k) { MergeLeaves(s, s', counts, i, a, b, k); }
    forall k | n <= k < i + 1 ensures InnerOk(s', k) { MergeInner(s, s', i, a, b, k); }
    forall k | i + 1 <= k < |s| ensures s'[k] == UNTOUCHED { MergeLater(s, s', i, a, b, k); }
    var i' := i + 1;
    forall k | 0 <= k < i' ensures PlaceOk(s', n, leaf', node', k, i') {
      if k < i { assert PlaceOk(s, n, leaf, node, k, i); }
      MergeChild(s, s', n, i, a, b, k);
    }
  }

  lemma MergeLater(s: seq<TreeNode>, s': seq<TreeNode>, i: nat, a: nat, b: nat, k: nat)
    requires i < k < |s| == |s'| && a < i && b < i && MergedAll(s, s', i, a, b)
    ensures s'[k] == s[k]
  {
    assert MergedAt(s, s', i, a, b, k);
  }

  // ---- the finished tree ----

  /** Every node but the last has a parent, and the parent has it on the side its bit says. */
  ghost predicate Built(s: seq<TreeNode>, counts: seq<int>) {
    var n := |counts|;
    && 1 <= n && |s| == 2 * n - 1
    && (forall k :: 0 <= k < n ==> LeafOk(s, counts, k))
    && (forall k :: n <= k < |s| ==> InnerOk(s, k))
    && (forall k :: 0 <= k < |s| ==> Placed(s, n, k))
  }

  ghost predicate Placed(s: seq<TreeNode>, n: nat, k: nat)
    requires k < |s|
  {
    ChildOk(s, n, k, |s|) && (s[k].parent == -1 <==> k == |s| - 1)
  }

  lemma MergingDone(s: seq<TreeNode>, counts: seq<int>, leaf: int, node: nat)
    requires Merging(s, counts, leaf, node, |s|)
    ensures Built(s, counts) && (|counts| < |s| ==> node < |s|)
  {
    var last := |s| - 1;
    assert PlaceOk(s, |counts|, leaf, node, last, |s|);
    forall k | 0 <= k < |s| ensures Placed(s, |counts|, k) { assert PlaceOk(s, |counts|, leaf, node, k, |s|); }
  }
}
