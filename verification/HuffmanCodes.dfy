/** What the codes and paths read off a finished tree are good for. */
module HuffmanCodes {
  import opened CodeTrees
  import opened Huffman

  ghost predicate IsNode(s: seq<TreeNode>, counts: seq<int>, k: int) {
    Built(s, counts) && 0 <= k < |s|
  }

  /** The output rows on the way from node `k` to the root. */
  ghost function PathUp(s: seq<TreeNode>, counts: seq<int>, k: int): seq<int>
    requires IsNode(s, counts, k)
    decreases |s| - k
  {
    assert Placed(s, |counts|, k);
    if s[k].parent == -1 then [] else [s[k].parent - |counts|] + PathUp(s, counts, s[k].parent)
  }

  /** The bits on the way from node `k` to the root. */
  ghost function CodeUp(s: seq<TreeNode>, counts: seq<int>, k: int): seq<bool>
    requires IsNode(s, counts, k)
    decreases |s| - k
  {
    assert Placed(s, |counts|, k);
    if s[k].parent == -1 then [] else [s[k].binary] + CodeUp(s, counts, s[k].parent)
  }

  /** The way up, as one node sees it. */
  lemma ParentFacts(s: seq<TreeNode>, counts: seq<int>, k: int)
    requires IsNode(s, counts, k)
    ensures 1 <= |counts| && |s| == 2 * |counts| - 1
    ensures s[k].parent == -1 <==> k == |s| - 1
    ensures k < |s| - 1 ==> var p := s[k].parent;
      |counts| <= p < |s| && k < p && k == (if s[k].binary then s[p].right else s[p].left)
  {
    assert Placed(s, |counts|, k);
  }

  function Reverse<T>(xs: seq<T>): (r: seq<T>)
    ensures |r| == |xs|
  {
    if |xs| == 0 then [] else Reverse(xs[1..]) + [xs[0]]
  }

  lemma ReverseCons<T>(x: T, xs: seq<T>)
    ensures Reverse([x] + xs) == Reverse(xs) + [x]
  {
    assert ([x] + xs)[1..] == xs;
  }

  /** The code of node `k`, read from the root. */
  ghost function Code(s: seq<TreeNode>, counts: seq<int>, k: int): seq<bool>
    requires IsNode(s, counts, k)
  {
    Reverse(CodeUp(s, counts, k))
  }

  /** What one step up looks like. */
  lemma UpStep(s: seq<TreeNode>, counts: seq<int>, k: int)
    requires IsNode(s, counts, k) && k < |s| - 1
    ensures var p := s[k].parent; |counts| <= p < |s| && k < p && k == (if s[k].binary then s[p].right else s[p].left)
    ensures PathUp(s, counts, k) == [s[k].parent - |counts|] + PathUp(s, counts, s[k].parent)
    ensures CodeUp(s, counts, k) == [s[k].binary] + CodeUp(s, counts, s[k].parent)
  {
    hide Built;
    ParentFacts(s, counts, k);
  }

  lemma CodeStep(s: seq<TreeNode>, counts: seq<int>, k: int)
    requires IsNode(s, counts, k) && k < |s| - 1 && IsNode(s, counts, s[k].parent)
    ensures Code(s, counts, k) == Code(s, counts, s[k].parent) + [s[k].binary]
  {
    hide Built, CodeUp, Reverse;
    UpStep(s, counts, k);
    ReverseCons(s[k].binary, CodeUp(s, counts, s[k].parent));
  }

  lemma RootHasNoPath(s: seq<TreeNode>, counts: seq<int>)
    requires Built(s, counts)
    ensures PathUp(s, counts, |s| - 1) == [] && CodeUp(s, counts, |s| - 1) == []
  {
    ParentFacts(s, counts, |s| - 1);
  }

  /** Every chain of parents runs through rows of the output matrix and ends at the last node, the root. */
  lemma {:induction false} PathsRunToTheRoot(s: seq<TreeNode>, counts: seq<int>, k: int)
    requires IsNode(s, counts, k)
    ensures |PathUp(s, counts, k)| == |CodeUp(s, counts, k)|
    ensures forall r :: r in PathUp(s, counts, k) ==> 0 <= r < |counts| - 1
    ensures k < |s| - 1 ==>
      |PathUp(s, counts, k)| > 0 && PathUp(s, counts, k)[|PathUp(s, counts, k)| - 1] == |s| - 1 - |counts|
    decreases |s| - k
  {
    ParentFacts(s, counts, k);
    RootHasNoPath(s, counts);
    if k < |s| - 1 {
      UpStep(s, counts, k);
      PathsRunToTheRoot(s, counts, s[k].parent);
    }
  }

  // ---- walking down ----

  /** Where the bits lead from `node`, or -1 when they run past a leaf. */
  ghost function Walk(s: seq<TreeNode>, node: int, bits: seq<bool>): int
    decreases |bits|
  {
    if |bits| == 0 || !(0 <= node < |s|) then node
    else if s[node].left == -1 && s[node].right == -1 then -1
    else Walk(s, if bits[0] then s[node].right else s[node].left, bits[1..])
  }

  /** The output rows of the inner nodes crossed on the way. */
  ghost function Rows(s: seq<TreeNode>, n: nat, node: int, bits: seq<bool>): seq<int>
    decreases |bits|
  {
    if |bits| == 0 || !(0 <= node < |s|) then []
    else [node - n] + Rows(s, n, if bits[0] then s[node].right else s[node].left, bits[1..])
  }

  lemma {:induction false} WalkOn(s: seq<TreeNode>, node: int, a: seq<bool>, b: seq<bool>)
    requires 0 <= Walk(s, node, a) < |s| && 0 <= node < |s|
    ensures Walk(s, node, a + b) == Walk(s, Walk(s, node, a), b)
    decreases |a|
  {
    if |a| == 0 {
      assert a + b == b;
    } else {
      assert (a + b)[0] == a[0] && (a + b)[1..] == a[1..] + b;
      var next := if a[0] then s[node].right else s[node].left;
      if 0 <= next < |s| { WalkOn(s, next, a[1..], b); }
    }
  }

  lemma {:induction false} RowsOn(s: seq<TreeNode>, n: nat, node: int, a: seq<bool>, b: bool)
    requires 0 <= Walk(s, node, a) < |s| && 0 <= node < |s|
    ensures Rows(s, n, node, a + [b]) == Rows(s, n, node, a) + [Walk(s, node, a) - n]
    decreases |a|
  {
    if |a| == 0 {
      assert a + [b] == [b];
    } else {
      assert (a + [b])[0] == a[0] && (a + [b])[1..] == a[1..] + [b];
      var next := if a[0] then s[node].right else s[node].left;
      if 0 <= next < |s| { RowsOn(s, n, next, a[1..], b); }
    }
  }

  lemma InnerHasChildren(s: seq<TreeNode>, counts: seq<int>, k: int)
    requires IsNode(s, counts, k)
    ensures k >= |counts| ==>
      0 <= s[k].left < k && 0 <= s[k].right < k && s[s[k].left].parent == k && s[s[k].right].parent == k
    ensures k >= |counts| ==>
      !s[s[k].left].binary && s[s[k].right].binary && s[k].left != s[k].right &&
      s[k].count == s[s[k].left].count + s[s[k].right].count
    ensures k < |counts| ==> s[k].left == -1 && s[k].right == -1 && s[k].count == counts[k]
  {
    if k >= |counts| { assert InnerOk(s, k); } else { assert LeafOk(s, counts, k); }
  }

  /** Following a node's code from the root reaches the node, across exactly the rows of its path. */
  lemma {:induction false} CodeLeadsThere(s: seq<TreeNode>, counts: seq<int>, k: int)
    requires IsNode(s, counts, k)
    ensures Walk(s, |s| - 1, Code(s, counts, k)) == k
    ensures Rows(s, |counts|, |s| - 1, Code(s, counts, k)) == Reverse(PathUp(s, counts, k))
    decreases |s| - k
  {
    ParentFacts(s, counts, k);
    RootHasNoPath(s, counts);
    hide Built, CodeUp, PathUp;
    if k < |s| - 1 {
      CodeLeadsThere(s, counts, s[k].parent);
      OneStepDown(s, counts, k);
    }
  }

  lemma OneStepDown(s: seq<TreeNode>, counts: seq<int>, k: int)
    requires IsNode(s, counts, k) && k < |s| - 1 && k < s[k].parent < |s|
    requires Walk(s, |s| - 1, Code(s, counts, s[k].parent)) == s[k].parent
    requires Rows(s, |counts|, |s| - 1, Code(s, counts, s[k].parent)) == Reverse(PathUp(s, counts, s[k].parent))
    ensures Walk(s, |s| - 1, Code(s, counts, k)) == k
    ensures Rows(s, |counts|, |s| - 1, Code(s, counts, k)) == Reverse(PathUp(s, counts, k))
  {
    hide Built, Code, CodeUp, PathUp, Reverse, Walk, Rows;
    UpStep(s, counts, k);
    CodeStep(s, counts, k);
    var p, b := s[k].parent, s[k].binary;
    InnerHasChildren(s, counts, p);
    WalkOn(s, |s| - 1, Code(s, counts, p), [b]);
    RowsOn(s, |counts|, |s| - 1, Code(s, counts, p), b);
    OneBit(s, p, b);
    ReverseCons(p - |counts|, PathUp(s, counts, p));
  }

  lemma OneBit(s: seq<TreeNode>, p: int, b: bool)
    requires 0 <= p < |s| && s[p].left != -1
    ensures Walk(s, p, [b]) == if b then s[p].right else s[p].left
  {
    assert [b][1..] == [];
  }

  /** A walk that has ended at a leaf goes nowhere else. */
  lemma PrefixEndsThere(s: seq<TreeNode>, root: int, a: seq<bool>, b: seq<bool>)
    requires 0 <= root < |s| && a <= b && 0 <= Walk(s, root, a) < |s| && Walk(s, root, b) >= 0
    requires s[Walk(s, root, a)].left == -1 && s[Walk(s, root, a)].right == -1
    ensures Walk(s, root, a) == Walk(s, root, b)
  {
    hide Walk;
    assert b == a + b[|a|..];
    WalkOn(s, root, a, b[|a|..]);
    StaysAtLeaf(s, Walk(s, root, a), b[|a|..]);
  }

  /** No leaf's code is a prefix of another's. */
  lemma PrefixFree(s: seq<TreeNode>, counts: seq<int>, i: int, j: int)
    requires Built(s, counts) && 0 <= i < |counts| && 0 <= j < |counts| && i != j
    ensures !(Code(s, counts, i) <= Code(s, counts, j))
  {
    ParentFacts(s, counts, |s| - 1);
    hide Built, Code, Walk;
    CodeLeadsThere(s, counts, i);
    CodeLeadsThere(s, counts, j);
    InnerHasChildren(s, counts, i);
    if Code(s, counts, i) <= Code(s, counts, j) { PrefixEndsThere(s, |s| - 1, Code(s, counts, i), Code(s, counts, j)); }
  }

  lemma StaysAtLeaf(s: seq<TreeNode>, i: int, bits: seq<bool>)
    requires 0 <= i < |s| && s[i].left == -1 && s[i].right == -1
    ensures Walk(s, i, bits) == if |bits| == 0 then i else -1
  {
  }

  // ---- sums over the leaves ----

  ghost predicate Crosses(s: seq<TreeNode>, k: nat, m: nat)
    requires k < |s|
  {
    s[k].parent == -1 || s[k].parent >= m
  }

  /** The sum of `f` over the nodes below `m` whose parents are not: the frontier of the tree at `m`. */
  ghost function Frontier(s: seq<TreeNode>, f: seq<real>, m: nat, upTo: nat): real
    requires upTo <= |s| == |f|
  {
    if upTo == 0 then 0.0 else
    Frontier(s, f, m, upTo - 1) + (if Crosses(s, upTo - 1, m) then f[upTo - 1] else 0.0)
  }

  ghost function Total(f: seq<real>, n: nat): real
    requires n <= |f|
  {
    if n == 0 then 0.0 else Total(f, n - 1) + f[n - 1]
  }

  /** A quantity that every inner node hands down to its two children. */
  ghost predicate HandsDown(s: seq<TreeNode>, n: nat, f: seq<real>) {
    |f| == |s| && forall k :: n <= k < |s| ==> HandsDownAt(s, f, k)
  }

  ghost predicate HandsDownAt(s: seq<TreeNode>, f: seq<real>, k: nat)
    requires k < |s| == |f|
  {
    0 <= s[k].left < |s| && 0 <= s[k].right < |s| && f[k] == f[s[k].left] + f[s[k].right]
  }

  ghost predicate ChildrenOf(s: seq<TreeNode>, m: nat, l: nat, r: nat) {
    m <= |s| && l < m && r < m && l != r && forall k :: 0 <= k < m ==> (s[k].parent == m <==> k == l || k == r)
  }

  lemma ChildrenAre(s: seq<TreeNode>, counts: seq<int>, m: nat)
    requires IsNode(s, counts, m) && |counts| <= m
    ensures 0 <= s[m].left && 0 <= s[m].right && ChildrenOf(s, m, s[m].left, s[m].right)
  {
    InnerHasChildren(s, counts, m);
    forall k | 0 <= k < m ensures s[k].parent == m <==> k == s[m].left || k == s[m].right {
      ParentFacts(s, counts, k);
      hide *;
    }
  }

  lemma {:induction false} FrontierOpens(s: seq<TreeNode>, f: seq<real>, m: nat, upTo: nat, l: nat, r: nat)
    requires ChildrenOf(s, m, l, r) && |s| == |f| && upTo <= m
    ensures Frontier(s, f, m, upTo) == Frontier(s, f, m + 1, upTo) + (if l < upTo then f[l] else 0.0) +
      (if r < upTo then f[r] else 0.0)
  {
    if upTo > 0 {
      FrontierOpens(s, f, m, upTo - 1, l, r);
    }
  }

  lemma {:induction false} FrontierIsConstant(s: seq<TreeNode>, counts: seq<int>, f: seq<real>, m: nat)
    requires Built(s, counts) && HandsDown(s, |counts|, f) && |counts| <= m <= |s|
    ensures Frontier(s, f, m, m) == f[|s| - 1]
    decreases |s| - m
  {
    if m == |s| {
      OnlyTheRoot(s, counts, f, |s|);
    } else {
      ParentFacts(s, counts, m);
      FrontierIsConstant(s, counts, f, m + 1);
      ChildrenAre(s, counts, m);
      assert HandsDownAt(s, f, m);
      FrontierOpens(s, f, m, m, s[m].left, s[m].right);
      hide Built, HandsDown, ChildrenOf;
    }
  }

  lemma {:induction false} OnlyTheRoot(s: seq<TreeNode>, counts: seq<int>, f: seq<real>, upTo: nat)
    requires Built(s, counts) && |s| == |f| && upTo <= |s|
    ensures Frontier(s, f, |s|, upTo) == if upTo == |s| then f[|s| - 1] else 0.0
  {
    if upTo > 0 {
      OnlyTheRoot(s, counts, f, upTo - 1);
      ParentFacts(s, counts, upTo - 1);
      hide Built;
    }
  }

  lemma {:induction false} LeafFrontier(s: seq<TreeNode>, counts: seq<int>, f: seq<real>, upTo: nat)
    requires Built(s, counts) && |s| == |f| && upTo <= |counts|
    ensures Frontier(s, f, |counts|, upTo) == Total(f, upTo)
  {
    if upTo > 0 {
      LeafFrontier(s, counts, f, upTo - 1);
      ParentFacts(s, counts, upTo - 1);
      hide Built;
    }
  }

  /** Each leaf is reached exactly once: what is handed down from the root adds up over the leaves. */
  lemma LeavesAddUp(s: seq<TreeNode>, counts: seq<int>, f: seq<real>)
    requires Built(s, counts) && HandsDown(s, |counts|, f)
    ensures Total(f, |counts|) == f[|s| - 1]
  {
    FrontierIsConstant(s, counts, f, |counts|);
    LeafFrontier(s, counts, f, |counts|);
  }

  // ---- probabilities ----

  /** What one row and bit contribute to the probability of a label; `p` gives each row's probability of a one. */
  function Edge(p: seq<real>, row: int, bit: bool): real {
    if 0 <= row < |p| then (if bit then p[row] else 1.0 - p[row]) else 1.0
  }

  /** The probability of a label: the product along its path of what `forward` adds up in logarithms. */
  function PathProbability(p: seq<real>, rows: seq<int>, bits: seq<bool>): real {
    if |rows| == 0 || |bits| == 0 then 1.0 else Edge(p, rows[0], bits[0]) * PathProbability(p, rows[1..], bits[1..])
  }

  ghost function Probability(s: seq<TreeNode>, counts: seq<int>, p: seq<real>, k: int): real
    requires IsNode(s, counts, k)
  {
    PathProbability(p, PathUp(s, counts, k), CodeUp(s, counts, k))
  }

  lemma ProbabilityUp(s: seq<TreeNode>, counts: seq<int>, p: seq<real>, k: int)
    requires IsNode(s, counts, k) && k < |s| - 1
    ensures |counts| <= s[k].parent < |s| && Probability(s, counts, p, k) ==
      Edge(p, s[k].parent - |counts|, s[k].binary) * Probability(s, counts, p, s[k].parent)
  {
    hide Built, PathUp, CodeUp, PathProbability, Edge;
    UpStep(s, counts, k);
    OneEdge(p, s[k].parent - |counts|, PathUp(s, counts, s[k].parent), s[k].binary, CodeUp(s, counts, s[k].parent));
  }

  lemma OneEdge(p: seq<real>, row: int, rows: seq<int>, bit: bool, bits: seq<bool>)
    ensures PathProbability(p, [row] + rows, [bit] + bits) == Edge(p, row, bit) * PathProbability(p, rows, bits)
  {
    assert ([row] + rows)[1..] == rows && ([bit] + bits)[1..] == bits;
  }

  /** Whatever the node probabilities, the probabilities of the labels sum to one. */
  lemma ProbabilitiesSumToOne(s: seq<TreeNode>, counts: seq<int>, p: seq<real>)
    requires Built(s, counts) && |p| == |counts| - 1
    ensures var f := seq(|s|, k requires 0 <= k < |s| && IsNode(s, counts, k) => Probability(s, counts, p, k));
      Total(f, |counts|) == 1.0
  {
    var f := seq(|s|, k requires 0 <= k < |s| && IsNode(s, counts, k) => Probability(s, counts, p, k));
    RootHasNoPath(s, counts);
    forall k | |counts| <= k < |s| ensures HandsDownAt(s, f, k) {
      hide Built, Probability, Edge;
      ProbabilitySplits(s, counts, p, k);
    }
    LeavesAddUp(s, counts, f);
  }

  lemma ProbabilitySplits(s: seq<TreeNode>, counts: seq<int>, p: seq<real>, k: int)
    requires IsNode(s, counts, k) && |counts| <= k && |p| == |counts| - 1
    ensures 0 <= s[k].left < |s| && 0 <= s[k].right < |s|
    ensures Probability(s, counts, p, k) == Probability(s, counts, p, s[k].left) + Probability(s, counts, p, s[k].right)
  {
    hide Built, Probability, Edge;
    InnerHasChildren(s, counts, k);
    ParentFacts(s, counts, k);
    ProbabilityUp(s, counts, p, s[k].left);
    ProbabilityUp(s, counts, p, s[k].right);
    EdgesSumToOne(p, k - |counts|);
    Halves(Edge(p, k - |counts|, false), Edge(p, k - |counts|, true), Probability(s, counts, p, k));
  }

  lemma EdgesSumToOne(p: seq<real>, row: nat)
    requires row < |p|
    ensures Edge(p, row, false) + Edge(p, row, true) == 1.0
  {
  }

  lemma Halves(a: real, b: real, x: real)
    ensures a + b == 1.0 ==> a * x + b * x == x
  {
    assert a * x + b * x == (a + b) * x;
  }

  function HalfPower(n: nat): real {
    if n == 0 then 1.0 else 0.5 * HalfPower(n - 1)
  }

  lemma {:induction false} EvenOdds(p: seq<real>, rows: seq<int>, bits: seq<bool>)
    requires |rows| == |bits| && (forall r :: 0 <= r < |p| ==> p[r] == 0.5) && forall k :: 0 <= k < |rows| ==>
      0 <= rows[k] < |p|
    ensures PathProbability(p, rows, bits) == HalfPower(|bits|)
  {
    if |rows| > 0 { EvenOdds(p, rows[1..], bits[1..]); }
  }

  ghost function KraftSum(codes: seq<seq<bool>>): real {
    if |codes| == 0 then 0.0 else KraftSum(codes[..|codes| - 1]) + HalfPower(|codes[|codes| - 1]|)
  }

  lemma {:induction false} KraftTotal(codes: seq<seq<bool>>, f: seq<real>)
    requires |codes| <= |f| && forall k :: 0 <= k < |codes| ==> f[k] == HalfPower(|codes[k]|)
    ensures KraftSum(codes) == Total(f, |codes|)
  {
    if |codes| > 0 { KraftTotal(codes[..|codes| - 1], f); }
  }

  /** The codes waste nothing: two to the minus length sums to one. */
  lemma KraftEquality(s: seq<TreeNode>, counts: seq<int>, codes: seq<seq<bool>>)
    requires Built(s, counts) && |codes| == |counts| && forall k :: 0 <= k < |counts| ==>
      codes[k] == CodeUp(s, counts, k)
    ensures KraftSum(codes) == 1.0
  {
    var p := seq(|counts| - 1, _ => 0.5);
    ProbabilitiesSumToOne(s, counts, p);
    var f := seq(|s|, k requires 0 <= k < |s| && IsNode(s, counts, k) => Probability(s, counts, p, k));
    hide Built, Probability, HalfPower, Total, KraftSum;
    forall k | 0 <= k < |codes| ensures f[k] == HalfPower(|codes[k]|) { EvenProbability(s, counts, p, k); }
    KraftTotal(codes, f);
  }

  lemma EvenProbability(s: seq<TreeNode>, counts: seq<int>, p: seq<real>, k: int)
    requires IsNode(s, counts, k) && |p| == |counts| - 1 && forall r :: 0 <= r < |p| ==> p[r] == 0.5
    ensures Probability(s, counts, p, k) == HalfPower(|CodeUp(s, counts, k)|)
  {
    hide Built, PathUp, CodeUp, HalfPower, PathProbability;
    PathsRunToTheRoot(s, counts, k);
    forall i | 0 <= i < |PathUp(s, counts, k)| ensures 0 <= PathUp(s, counts, k)[i] < |p| {
      assert PathUp(s, counts, k)[i] in PathUp(s, counts, k);
    }
    EvenOdds(p, PathUp(s, counts, k), CodeUp(s, counts, k));
  }

  // ---- weighted length ----

  ghost function TreeOf(s: seq<TreeNode>, counts: seq<int>, k: int): Tree
    requires IsNode(s, counts, k)
    decreases k
  {
    InnerHasChildren(s, counts, k);
    if k < |counts| then Leaf(counts[k]) else Node(TreeOf(s, counts, s[k].left), TreeOf(s, counts, s[k].right))
  }

  lemma {:induction false} TreeWeight(s: seq<TreeNode>, counts: seq<int>, k: int)
    requires IsNode(s, counts, k)
    ensures Weight(TreeOf(s, counts, k)) == s[k].count
    decreases k
  {
    InnerHasChildren(s, counts, k);
    if k >= |counts| {
      TreeWeight(s, counts, s[k].left);
      TreeWeight(s, counts, s[k].right);
    }
  }

  /** What training minimises: the sum over all labels of count times code length. */
  function WeightedLength(counts: seq<int>, codes: seq<seq<bool>>): int
    requires |codes| <= |counts|
  {
    if |codes| == 0 then 0 else
    WeightedLength(counts, codes[..|codes| - 1]) + counts[|codes| - 1] * |codes[|codes| - 1]|
  }

  lemma {:induction false} LengthTotal(counts: seq<int>, codes: seq<seq<bool>>, f: seq<real>)
    requires |codes| <= |counts| && |codes| <= |f| && forall k :: 0 <= k < |codes| ==>
      f[k] == (counts[k] * |codes[k]|) as real
    ensures WeightedLength(counts, codes) as real == Total(f, |codes|)
  {
    if |codes| > 0 { LengthTotal(counts, codes[..|codes| - 1], f); }
  }

  ghost function DeepCost(s: seq<TreeNode>, counts: seq<int>, k: int): int
    requires IsNode(s, counts, k)
  {
    Cost(TreeOf(s, counts, k)) + s[k].count * |CodeUp(s, counts, k)|
  }

  lemma DeepCostHandsDown(s: seq<TreeNode>, counts: seq<int>, k: int)
    requires IsNode(s, counts, k) && k >= |counts|
    ensures 0 <= s[k].left < |s| && 0 <= s[k].right < |s|
    ensures DeepCost(s, counts, k) == DeepCost(s, counts, s[k].left) + DeepCost(s, counts, s[k].right)
  {
    InnerHasChildren(s, counts, k);
    var l, r := s[k].left, s[k].right;
    TreeWeight(s, counts, l);
    TreeWeight(s, counts, r);
    UpStep(s, counts, l);
    UpStep(s, counts, r);
    OneDeeper(s[l].count, s[r].count, |CodeUp(s, counts, k)|);
  }

  lemma OneDeeper(a: int, b: int, d: int)
    ensures a * (d + 1) + b * (d + 1) == (a + b) * d + a + b
  {
  }

  ghost function DeepCosts(s: seq<TreeNode>, counts: seq<int>): (f: seq<real>)
    requires Built(s, counts)
    ensures |f| == |s| && forall k :: 0 <= k < |s| ==> IsNode(s, counts, k) && f[k] == DeepCost(s, counts, k) as real
  {
    seq(|s|, k requires 0 <= k < |s| && IsNode(s, counts, k) => DeepCost(s, counts, k) as real)
  }

  lemma DeepCostsHandDown(s: seq<TreeNode>, counts: seq<int>)
    requires Built(s, counts)
    ensures HandsDown(s, |counts|, DeepCosts(s, counts))
  {
    hide Built, DeepCost;
    forall k | |counts| <= k < |s| ensures HandsDownAt(s, DeepCosts(s, counts), k) {
      DeepCostHandsDown(s, counts, k);
    }
  }

  /** The cost of the tree is what its codes cost. */
  lemma CostIsWeightedLength(s: seq<TreeNode>, counts: seq<int>, codes: seq<seq<bool>>)
    requires Built(s, counts) && |codes| == |counts| && forall k :: 0 <= k < |counts| ==>
      codes[k] == CodeUp(s, counts, k)
    ensures WeightedLength(counts, codes) == Cost(TreeOf(s, counts, |s| - 1))
  {
    ParentFacts(s, counts, |s| - 1);
    hide Built, DeepCost, Total, HandsDown, CodeUp, WeightedLength, DeepCosts, TreeOf, Cost;
    var f := DeepCosts(s, counts);
    DeepCostsHandDown(s, counts);
    LeavesAddUp(s, counts, f);
    forall k | 0 <= k < |codes| ensures f[k] == (counts[k] * |codes[k]|) as real { LeafDeepCost(s, counts, k); }
    RootDeepCost(s, counts);
    LengthTotal(counts, codes, f);
  }

  lemma LeafDeepCost(s: seq<TreeNode>, counts: seq<int>, k: int)
    requires IsNode(s, counts, k) && k < |counts|
    ensures DeepCost(s, counts, k) == counts[k] * |CodeUp(s, counts, k)|
  {
    InnerHasChildren(s, counts, k);
    hide Built;
  }

  lemma RootDeepCost(s: seq<TreeNode>, counts: seq<int>)
    requires IsNode(s, counts, |s| - 1)
    ensures DeepCost(s, counts, |s| - 1) == Cost(TreeOf(s, counts, |s| - 1))
  {
    RootHasNoPath(s, counts);
  }

  function CountSum(counts: seq<int>): int {
    if |counts| == 0 then 0 else CountSum(counts[..|counts| - 1]) + counts[|counts| - 1]
  }

  lemma {:induction false} CountTotal(counts: seq<int>, f: seq<real>)
    requires |counts| <= |f| && forall k :: 0 <= k < |counts| ==> f[k] == counts[k] as real
    ensures CountSum(counts) as real == Total(f, |counts|)
  {
    if |counts| > 0 { CountTotal(counts[..|counts| - 1], f); }
  }

  lemma RootCountsAll(s: seq<TreeNode>, counts: seq<int>)
    requires Built(s, counts)
    ensures s[|s| - 1].count == CountSum(counts)
  {
    var f := seq(|s|, j requires 0 <= j < |s| => s[j].count as real);
    ParentFacts(s, counts, |s| - 1);
    forall j | |counts| <= j < |s| ensures HandsDownAt(s, f, j) { InnerHasChildren(s, counts, j); }
    LeavesAddUp(s, counts, f);
    hide Built, HandsDown;
    forall j | 0 <= j < |counts| ensures f[j] == counts[j] as real { InnerHasChildren(s, counts, j); }
    CountTotal(counts, f);
  }

  /** No node counts more than all labels together: a 64-bit total is enough. */
  lemma {:induction false} CountsAreBounded(s: seq<TreeNode>, counts: seq<int>, k: int)
    requires IsNode(s, counts, k) && forall j :: 0 <= j < |counts| ==> counts[j] >= 0
    ensures 0 <= s[k].count <= CountSum(counts)
    decreases |s| - k
  {
    NonNegative(s, counts, k);
    if k == |s| - 1 {
      RootCountsAll(s, counts);
    } else {
      UpStep(s, counts, k);
      var p := s[k].parent;
      CountsAreBounded(s, counts, p);
      InnerHasChildren(s, counts, p);
      NonNegative(s, counts, s[p].left);
      NonNegative(s, counts, s[p].right);
      hide Built;
    }
  }

  lemma {:induction false} NonNegative(s: seq<TreeNode>, counts: seq<int>, k: int)
    requires IsNode(s, counts, k) && forall j :: 0 <= j < |counts| ==> counts[j] >= 0
    ensures s[k].count >= 0
    decreases k
  {
    InnerHasChildren(s, counts, k);
    if k >= |counts| {
      NonNegative(s, counts, s[k].left);
      NonNegative(s, counts, s[k].right);
    }
  }
}
