/** Binary trees with weighted leaves, and the exchange argument behind Huffman's algorithm: the two lightest leaves
    of any tree may be taken for siblings at the bottom of it. */
module CodeTrees {
  datatype Tree = Leaf(w: int) | Node(left: Tree, right: Tree)

  ghost function Leaves(t: Tree): multiset<int> {
    match t
    case Leaf(w) => multiset{w}
    case Node(l, r) => Leaves(l) + Leaves(r)
  }

  function Weight(t: Tree): int {
    match t
    case Leaf(w) => w
    case Node(l, r) => Weight(l) + Weight(r)
  }

  /** The sum over all leaves of weight times depth. */
  function Cost(t: Tree): int {
    match t
    case Leaf(_) => 0
    case Node(l, r) => Cost(l) + Cost(r) + Weight(l) + Weight(r)
  }

  function Height(t: Tree): nat {
    match t
    case Leaf(_) => 0
    case Node(l, r) => 1 + if Height(l) > Height(r) then Height(l) else Height(r)
  }

  // ---- subtrees by path ----

  type Path = seq<bool>

  ghost predicate Has(t: Tree, p: Path) {
    |p| == 0 || (t.Node? && Has(if p[0] then t.right else t.left, p[1..]))
  }

  ghost function At(t: Tree, p: Path): Tree
    requires Has(t, p)
  {
    if |p| == 0 then t else At(if p[0] then t.right else t.left, p[1..])
  }

  ghost function Put(t: Tree, p: Path, x: Tree): Tree
    requires Has(t, p)
  {
    if |p| == 0 then x
    else if p[0] then Node(t.left, Put(t.right, p[1..], x))
    else Node(Put(t.left, p[1..], x), t.right)
  }

  /** Neither path runs into the other. */
  ghost predicate Apart(p: Path, q: Path) {
    |p| > 0 && |q| > 0 && (p[0] == q[0] ==> Apart(p[1..], q[1..]))
  }

  lemma {:induction false} PutLeaves(t: Tree, p: Path, x: Tree)
    requires Has(t, p)
    ensures Leaves(At(t, p)) <= Leaves(t) && Leaves(Put(t, p, x)) == Leaves(t) - Leaves(At(t, p)) + Leaves(x)
  {
    if |p| > 0 {
      var inside, outside := if p[0] then t.right else t.left, if p[0] then t.left else t.right;
      PutLeaves(inside, p[1..], x);
      PlusCommutes(Leaves(inside), Leaves(outside));
      PlusCommutes(Leaves(Put(inside, p[1..], x)), Leaves(outside));
      Replaced(Leaves(inside), Leaves(outside), Leaves(At(t, p)), Leaves(x));
    } else {
      assert Leaves(t) - Leaves(t) + Leaves(x) == Leaves(x);
    }
  }

  lemma PlusCommutes(a: multiset<int>, b: multiset<int>)
    ensures a + b == b + a
  {
  }

  lemma Replaced(a: multiset<int>, b: multiset<int>, was: multiset<int>, to: multiset<int>)
    requires was <= a
    ensures was <= a + b && (a - was + to) + b == a + b - was + to
  {
  }

  lemma {:induction false} PutWeight(t: Tree, p: Path, x: Tree)
    requires Has(t, p)
    ensures Weight(Put(t, p, x)) == Weight(t) - Weight(At(t, p)) + Weight(x)
  {
    if |p| > 0 {
      PutWeight(if p[0] then t.right else t.left, p[1..], x);
    }
  }

  function Times(n: nat, d: int): int {
    n * d
  }

  lemma {:induction false} PutCost(t: Tree, p: Path, x: Tree, d: int)
    requires Has(t, p) && d == Weight(x) - Weight(At(t, p))
    ensures Cost(Put(t, p, x)) == Cost(t) - Cost(At(t, p)) + Cost(x) + Times(|p|, d)
  {
    if |p| > 0 {
      var inside, outside := if p[0] then t.right else t.left, if p[0] then t.left else t.right;
      PutCost(inside, p[1..], x, d);
      PutWeight(inside, p[1..], x);
      assert Cost(Put(t, p, x)) == Cost(Put(inside, p[1..], x)) + Cost(outside) + Weight(Put(inside, p[1..], x)) +
        Weight(outside);
      OneMore(|p[1..]|, d);
    }
  }

  lemma OneMore(n: nat, d: int)
    ensures Times(n + 1, d) == Times(n, d) + d
  {
  }

  lemma {:induction false} PutApart(t: Tree, p: Path, q: Path, x: Tree)
    requires Has(t, p) && Has(t, q) && Apart(p, q)
    ensures Has(Put(t, q, x), p) && At(Put(t, q, x), p) == At(t, p)
  {
    if p[0] == q[0] {
      PutApart(if p[0] then t.right else t.left, p[1..], q[1..], x);
    }
  }

  lemma {:induction false} PutHere(t: Tree, p: Path, x: Tree)
    requires Has(t, p)
    ensures Has(Put(t, p, x), p) && At(Put(t, p, x), p) == x
  {
    if |p| > 0 {
      PutHere(if p[0] then t.right else t.left, p[1..], x);
    }
  }

  lemma {:induction false} PutHeight(t: Tree, p: Path, x: Tree)
    requires Has(t, p) && Height(x) == Height(At(t, p))
    ensures Height(Put(t, p, x)) == Height(t)
  {
    if |p| > 0 {
      PutHeight(if p[0] then t.right else t.left, p[1..], x);
    }
  }

  lemma {:induction false} DepthBelowHeight(t: Tree, p: Path)
    requires Has(t, p)
    ensures |p| <= Height(t)
  {
    if |p| > 0 {
      DepthBelowHeight(if p[0] then t.right else t.left, p[1..]);
    }
  }

  lemma {:induction false} FindLeaf(t: Tree, w: int) returns (q: Path)
    requires w in Leaves(t)
    ensures Has(t, q) && At(t, q) == Leaf(w)
  {
    if t.Leaf? {
      q := [];
    } else if w in Leaves(t.left) {
      var r := FindLeaf(t.left, w);
      q := [false] + r;
    } else {
      var r := FindLeaf(t.right, w);
      q := [true] + r;
    }
  }

  /** A leaf weight that is not used up by the subtree at `p` occurs outside it. */
  lemma {:induction false} FindLeafApart(t: Tree, p: Path, w: int) returns (q: Path)
    requires Has(t, p) && Leaves(At(t, p)) <= Leaves(t) && w in Leaves(t) - Leaves(At(t, p))
    ensures Has(t, q) && At(t, q) == Leaf(w) && Apart(p, q)
  {
    assert |p| > 0;
    var inside, outside := if p[0] then t.right else t.left, if p[0] then t.left else t.right;
    PutLeaves(inside, p[1..], Leaf(0));
    if w in Leaves(outside) {
      var r := FindLeaf(outside, w);
      q := [!p[0]] + r;
    } else {
      var r := FindLeafApart(inside, p[1..], w);
      q := [p[0]] + r;
    }
  }

  lemma {:induction false} DeepestPair(t: Tree) returns (p: Path)
    requires t.Node?
    ensures Has(t, p) && |p| + 1 == Height(t) && At(t, p).Node? && At(t, p).left.Leaf? && At(t, p).right.Leaf?
  {
    if t.left.Leaf? && t.right.Leaf? {
      p := [];
    } else if Height(t.left) > Height(t.right) {
      var r := DeepestPair(t.left);
      p := [false] + r;
    } else {
      var r := DeepestPair(t.right);
      p := [true] + r;
    }
  }

  // ---- the exchange ----

  ghost predicate PairAt(t: Tree, p: Path, x: int, y: int) {
    Has(t, p) && |p| + 1 == Height(t) && At(t, p) == Node(Leaf(x), Leaf(y))
  }

  /** The first half of an exchange: the leaf at `q` gets the weight `to`. */
  lemma Reweigh(t: Tree, p: Path, q: Path, was: int, to: int, d: int)
    requires Has(t, p) && Has(t, q) && Apart(p, q) && At(t, q) == Leaf(was) && d == to - was
    ensures var t' := Put(t, q, Leaf(to));
      && Has(t', p) && At(t', p) == At(t, p) && Height(t') == Height(t)
      && Leaves(t') == Leaves(t) - multiset{was} + multiset{to} && Cost(t') == Cost(t) + Times(|q|, d)
    ensures was in Leaves(t)
  {
    hide Times, Put, At, Has, Apart, Leaves, Weight, Cost, Height;
    LeafFacts(was);
    LeafFacts(to);
    PutApart(t, p, q, Leaf(to));
    PutLeaves(t, q, Leaf(to));
    PutCost(t, q, Leaf(to), d);
    PutHeight(t, q, Leaf(to));
    assert was in Leaves(At(t, q));
  }

  lemma LeafFacts(w: int)
    ensures Leaves(Leaf(w)) == multiset{w} && Weight(Leaf(w)) == w && Cost(Leaf(w)) == 0 && Height(Leaf(w)) == 0
  {
  }

  /** The second half: the pair at `p` is replaced by another. */
  lemma Repair(t: Tree, p: Path, pair: Tree, to: Tree, d: int)
    requires d == Weight(to) - Weight(pair)
    requires Has(t, p) && |p| + 1 == Height(t) && At(t, p) == pair && Height(pair) == Height(to) == 1 &&
      Cost(pair) == Weight(pair) && Cost(to) == Weight(to)
    ensures var t' := Put(t, p, to);
      && Has(t', p) && At(t', p) == to && Height(t') == Height(t)
      && Leaves(pair) <= Leaves(t) && Leaves(t') == Leaves(t) - Leaves(pair) + Leaves(to) &&
        Cost(t') == Cost(t) + Times(|p| + 1, d)
  {
    hide Times, Put, At, Has, Leaves, Weight, Cost, Height;
    PutLeaves(t, p, to);
    PutCost(t, p, to, d);
    PutHere(t, p, to);
    PutHeight(t, p, to);
    OneMore(|p|, d);
  }

  /** Bringing the leaf at `q` down to the bottom pair, and one of the pair up to `q`. */
  lemma ExchangeAt(t: Tree, p: Path, q: Path, x: int, y: int, m: int, keep: int) returns (t': Tree)
    requires PairAt(t, p, x, y) && Has(t, q) && Apart(p, q) && At(t, q) == Leaf(m) && m <= x + y - keep
    ensures PairAt(t', p, keep, m) && Cost(t') <= Cost(t)
    ensures Leaves(t') == Leaves(t) - multiset{m} + multiset{x + y - keep} - multiset{x, y} + multiset{keep, m}
  {
    hide Times, Put, At, Apart, Leaves, Weight, Cost, Height;
    var d := x + y - keep - m;
    var pair, to := Node(Leaf(x), Leaf(y)), Node(Leaf(keep), Leaf(m));
    PairLeaves(x, y);
    PairLeaves(keep, m);
    Reweigh(t, p, q, m, x + y - keep, d);
    var t1 := Put(t, q, Leaf(x + y - keep));
    Repair(t1, p, pair, to, -d);
    t' := Put(t1, p, to);
    DepthBelowHeight(t, q);
    ExchangePays(|p|, |q|, d);
  }

  /** Bringing a leaf `m` from elsewhere down to the bottom pair, in exchange for a leaf that is no lighter. */
  lemma Exchange(t: Tree, p: Path, x: int, y: int, m: int, keep: int) returns (t': Tree)
    requires PairAt(t, p, x, y) && (keep == x || keep == y) && m in Leaves(t) - multiset{x, y} && m <= x + y - keep
    ensures PairAt(t', p, keep, m) && Leaves(t') == Leaves(t) && Cost(t') <= Cost(t)
  {
    PairLeaves(x, y);
    PutLeaves(t, p, Leaf(0));
    var q := FindLeafApart(t, p, m);
    t' := ExchangeAt(t, p, q, x, y, m, keep);
    SwapLeaves(Leaves(t), x, y, keep, m);
  }

  lemma PairLeaves(x: int, y: int)
    ensures var pair := Node(Leaf(x), Leaf(y));
      Leaves(pair) == multiset{x, y} && Height(pair) == 1 && Cost(pair) == Weight(pair) == x + y
  {
  }

  lemma SwapLeaves(all: multiset<int>, x: int, y: int, keep: int, m: int)
    requires multiset{x, y} <= all && m in all - multiset{x, y} && (keep == x || keep == y)
    ensures all - multiset{m} + multiset{x + y - keep} - multiset{x, y} + multiset{keep, m} == all
  {
    assert multiset{x, y} == multiset{keep, x + y - keep};
  }

  lemma ExchangePays(p: nat, q: nat, d: int)
    requires q <= p + 1 && d >= 0
    ensures Times(q, d) + Times(p + 1, -d) <= 0
  {
    var gap: nat := p + 1 - q;
    assert 0 <= gap * d == (p + 1) * d - q * d;
    assert (p + 1) * (-d) == -((p + 1) * d);
  }

  /** The bottom pair merged into one leaf. */
  lemma MergePair(t: Tree, p: Path, x: int, y: int)
    requires PairAt(t, p, x, y)
    ensures Leaves(Put(t, p, Leaf(x + y))) == Leaves(t) - multiset{x, y} + multiset{x + y}
    ensures Cost(Put(t, p, Leaf(x + y))) == Cost(t) - (x + y)
  {
    hide Put, Leaves, Cost, Weight, Height, Times;
    PutLeaves(t, p, Leaf(x + y));
    PairLeaves(x, y);
    LeafIs(x + y);
    PutCost(t, p, Leaf(x + y), 0);
    NoTimes(|p|);
  }

  lemma LeafIs(w: int)
    ensures Leaves(Leaf(w)) == multiset{w} && Weight(Leaf(w)) == w && Cost(Leaf(w)) == 0
  {
  }

  lemma NoTimes(n: nat)
    ensures Times(n, 0) == 0
  {
  }

  /** `a` and `b` are two lightest leaves. */
  ghost predicate Lightest(a: int, b: int, m: multiset<int>) {
    a <= b && multiset{a, b} <= m && forall c :: c in m - multiset{a, b} ==> b <= c
  }

  lemma {:induction false} NodeCount(t: Tree)
    ensures |Leaves(t)| >= 1 && (t.Leaf? <==> |Leaves(t)| == 1)
  {
    if t.Node? {
      NodeCount(t.left);
      NodeCount(t.right);
    }
  }

  lemma TwoLeavesNode(t: Tree, a: int, b: int)
    requires multiset{a, b} <= Leaves(t)
    ensures t.Node?
  {
    NodeCount(t);
    assert |Leaves(t)| == |multiset{a, b}| + |Leaves(t) - multiset{a, b}|;
  }

  /** Any tree is matched by one in which the two lightest leaves are siblings at the bottom. */
  lemma LightestAtBottom(u: Tree, a: int, b: int) returns (t: Tree, p: Path)
    requires Lightest(a, b, Leaves(u))
    ensures (PairAt(t, p, a, b) || PairAt(t, p, b, a)) && Leaves(t) == Leaves(u) && Cost(t) <= Cost(u)
  {
    TwoLeavesNode(u, a, b);
    p := DeepestPair(u);
    var x, y := At(u, p).left.w, At(u, p).right.w;
    PutLeaves(u, p, Leaf(0));
    PairLeaves(x, y);
    var m := Leaves(u);
    if multiset{x, y} == multiset{a, b} {
      assert x in multiset{a, b} && y in multiset{a, b} && a in multiset{x, y} && b in multiset{x, y};
      t := u;
    } else {
      OneOrNone(m, a, b, x, y);
      if x == a || y == a {
        // `b` is elsewhere: exchange it for the other one
        t := Exchange(u, p, x, y, b, a);
      } else if x == b || y == b {
        t := Exchange(u, p, x, y, a, b);
      } else {
        var t1 := Exchange(u, p, x, y, a, y);
        t := Exchange(t1, p, y, a, b, a);
      }
    }
  }

  /** How the two lightest leaves `a <= b` can overlap with a pair `x`, `y` of leaves. */
  lemma OneOrNone(m: multiset<int>, a: int, b: int, x: int, y: int)
    requires Lightest(a, b, m) && multiset{x, y} <= m && multiset{x, y} != multiset{a, b}
    ensures x == a || y == a ==> b in m - multiset{x, y} && b <= x + y - a
    ensures x != a && y != a && (x == b || y == b) ==> a in m - multiset{x, y} && a <= x + y - b
    ensures x != a && y != a && x != b && y != b ==>
      a in m - multiset{x, y} && a <= x && b in m - multiset{y, a} && b <= y
  {
    var rest := m - multiset{a, b};
    if x == a || y == a {
      var z := x + y - a;
      assert multiset{x, y} == multiset{a, z};
      assert z != b;
      assert m[z] >= multiset{a, z}[z];
      assert z in rest;
      assert multiset{a, b}[b] <= m[b] && multiset{a, z}[b] < multiset{a, b}[b];
    } else if x == b || y == b {
      var z := x + y - b;
      assert multiset{x, y} == multiset{b, z};
      assert multiset{b, z}[z] <= m[z] && z in rest;
    } else {
      assert x in rest && y in rest;
      assert multiset{a, b}[b] <= m[b] && multiset{y, a}[b] < multiset{a, b}[b];
    }
  }

  /** Merging the two lightest leaves: every tree yields one on the merged leaves that is cheaper by their sum. */
  lemma Reduce(u: Tree, a: int, b: int) returns (v: Tree)
    requires Lightest(a, b, Leaves(u))
    ensures Leaves(v) == Leaves(u) - multiset{a, b} + multiset{a + b} && Cost(v) + (a + b) <= Cost(u)
  {
    var t, p := LightestAtBottom(u, a, b);
    v := Put(t, p, Leaf(a + b));
    if PairAt(t, p, a, b) {
      MergePair(t, p, a, b);
    } else {
      MergePair(t, p, b, a);
      assert multiset{a, b} == multiset{b, a};
    }
  }
}
