/** `ProductQuantizer`: the flat layout of the centroids, nearest codes, and products with coded vectors. */
module ProductCodes {
  import opened Modular
  import opened RealSums

  const KSUB: nat := 256

  type Code = c: int | 0 <= c < 256

  /** Sub-vectors of `dsub` coordinates, the last of `lastdsub`. */
  datatype Layout = Layout(dim: nat, nsubq: nat, dsub: nat, lastdsub: nat)

  function MakeLayout(dim: nat, dsub: nat): Layout
    requires dsub > 0
  {
    if dim % dsub == 0 then Layout(dim, dim / dsub, dsub, dsub) else Layout(dim, dim / dsub + 1, dsub, dim % dsub)
  }

  ghost predicate Fits(l: Layout) {
    1 <= l.nsubq && 0 < l.lastdsub <= l.dsub && l.dim == (l.nsubq - 1) * l.dsub + l.lastdsub
  }

  lemma MadeToFit(dim: nat, dsub: nat)
    requires dim > 0 && dsub > 0
    ensures Fits(MakeLayout(dim, dsub))
  {
    assert dim == (dim / dsub) * dsub + dim % dsub;
    assert (dim / dsub - 1) * dsub == (dim / dsub) * dsub - dsub;
    if dim / dsub <= 0 { Monotone(0, 0, dsub); }
  }

  function Width(l: Layout, m: int): nat {
    if m == l.nsubq - 1 then l.lastdsub else l.dsub
  }

  /** `get_centroids`: where centroid `i` of sub-quantizer `m` starts. */
  function Offset(l: Layout, m: int, i: int): int {
    if m == l.nsubq - 1 then m * KSUB * l.dsub + i * l.lastdsub else (m * KSUB + i) * l.dsub
  }

  function Cell(l: Layout, m: int, i: int, j: int): int {
    Offset(l, m, i) + j
  }

  ghost predicate InLayout(l: Layout, m: int, i: int, j: int) {
    0 <= m < l.nsubq && 0 <= i < KSUB && 0 <= j < Width(l, m)
  }

  // ---- the regions tile the array ----

  lemma DivUnique(q: nat, r: nat, b: nat)
    requires r < b
    ensures (q * b + r) / b == q && (q * b + r) % b == r
  {
    MultipleMod(q, r, b);
    var a := q * b + r;
    assert a == (a / b) * b + a % b;
    assert (a / b - q) * b == (a / b) * b - q * b == 0;
    if a / b - q >= 1 { MultipleSize(a / b - q, b); } else if a / b - q <= -1 { MultipleSize(a / b - q, b); }
  }

  lemma Monotone(a: nat, b: nat, d: nat)
    requires a <= b
    ensures a * d <= b * d
  {
    assert (b - a) * d >= 0;
    assert b * d == (b - a) * d + a * d;
  }

  /** A centroid's place within its sub-quantizer's region. */
  lemma Within(l: Layout, m: int, i: int, j: int)
    requires Fits(l) && InLayout(l, m, i, j)
    ensures Cell(l, m, i, j) == m * (KSUB * l.dsub) + (i * Width(l, m) + j)
    ensures 0 <= i * Width(l, m) + j < KSUB * Width(l, m) <= KSUB * l.dsub
  {
    assert (m * KSUB + i) * l.dsub == m * KSUB * l.dsub + i * l.dsub;
    assert m * KSUB * l.dsub == m * (KSUB * l.dsub);
    Monotone(i + 1, KSUB, Width(l, m));
    assert (i + 1) * Width(l, m) == i * Width(l, m) + Width(l, m);
  }

  /** The sub-quantizer, centroid and coordinate that a cell belongs to. */
  function OwnerOf(l: Layout, p: nat): (int, int, int)
    requires l.dsub > 0 && l.lastdsub > 0
  {
    var m := p / (KSUB * l.dsub);
    var r := p % (KSUB * l.dsub);
    (m, r / Width(l, m), r % Width(l, m))
  }

  /** No two centroids share a cell. */
  lemma RegionsAreDisjoint(l: Layout, m: int, i: int, j: int)
    requires Fits(l) && InLayout(l, m, i, j)
    ensures 0 <= Cell(l, m, i, j) && OwnerOf(l, Cell(l, m, i, j)) == (m, i, j)
  {
    Within(l, m, i, j);
    Monotone(0, m, KSUB * l.dsub);
    DivUnique(m, i * Width(l, m) + j, KSUB * l.dsub);
    DivUnique(i, j, Width(l, m));
  }

  lemma RegionsStayInside(l: Layout, m: int, i: int, j: int)
    requires Fits(l) && InLayout(l, m, i, j)
    ensures 0 <= Cell(l, m, i, j) < l.dim * KSUB
  {
    Within(l, m, i, j);
    RegionsAreDisjoint(l, m, i, j);
    assert l.dim * KSUB == (l.nsubq - 1) * (KSUB * l.dsub) + KSUB * l.lastdsub;
    if m < l.nsubq - 1 {
      Monotone(m + 1, l.nsubq - 1, KSUB * l.dsub);
      assert (m + 1) * (KSUB * l.dsub) == m * (KSUB * l.dsub) + KSUB * l.dsub;
    }
  }

  lemma DivMod(p: nat, s: nat)
    requires s > 0
    ensures p == (p / s) * s + p % s && 0 <= p % s < s && 0 <= p / s
  {
  }

  lemma TotalCells(l: Layout, s: nat)
    requires Fits(l) && s == KSUB * l.dsub
    ensures l.dim * KSUB == (l.nsubq - 1) * s + KSUB * l.lastdsub && l.nsubq * s == (l.nsubq - 1) * s + s
  {
    assert (l.nsubq - 1) * (KSUB * l.dsub) == KSUB * ((l.nsubq - 1) * l.dsub);
  }

  /** The block of a cell, and the cell's place in it. */
  lemma BlockOfCell(l: Layout, p: nat, s: nat, m: nat, r: nat)
    requires Fits(l) && p < l.dim * KSUB && s == KSUB * l.dsub && p == m * s + r && r < s
    ensures m < l.nsubq && r < KSUB * Width(l, m)
  {
    TotalCells(l, s);
    if m >= l.nsubq { Monotone(l.nsubq, m, s); }
  }

  /** Every one of the `dim * 256` cells belongs to a centroid, the short last sub-vector included. */
  lemma RegionsCoverAll(l: Layout, p: nat)
    requires Fits(l) && p < l.dim * KSUB
    ensures var (m, i, j) := OwnerOf(l, p); InLayout(l, m, i, j) && Cell(l, m, i, j) == p
  {
    hide Cell;
    var s := KSUB * l.dsub;
    var m, r := p / s, p % s;
    DivMod(p, s);
    BlockOfCell(l, p, s, m, r);
    Quotients(r, Width(l, m), KSUB);
    Within(l, m, r / Width(l, m), r % Width(l, m));
  }

  lemma Quotients(r: nat, w: nat, n: nat)
    requires w > 0 && r < n * w
    ensures 0 <= r / w < n && 0 <= r % w < w && r == (r / w) * w + r % w
  {
    assert r == (r / w) * w + r % w;
    if r / w >= n { Monotone(n, r / w, w); }
  }

  // ---- distances ----

  ghost function SqDiff(x: seq<real>, xo: int, c: seq<real>, co: int): int -> real {
    n => Sq(At(x, xo + n) - At(c, co + n))
  }

  /** The squared distance between `d` coordinates of two arrays. */
  ghost function Dist(x: seq<real>, xo: int, c: seq<real>, co: int, d: nat): real {
    SumTo(d, SqDiff(x, xo, c, co))
  }

  method DistL2(x: seq<real>, xo: nat, c: array<real>, co: nat, d: nat) returns (dist: real)
    requires xo + d <= |x| && co + d <= c.Length
    ensures dist == Dist(x, xo, c[..], co, d)
  {
    dist := 0.0;
    for i := 0 to d
      invariant dist == Dist(x, xo, c[..], co, i)
    {
      var tmp := x[xo + i] - c[co + i];
      assert At(x, xo + i) - At(c[..], co + i) == tmp;
      assert SqDiff(x, xo, c[..], co)(i) == Sq(tmp) == tmp * tmp;
      dist := dist + tmp * tmp;
    }
  }

  /** The vector that a code stands for, coordinate by coordinate. */
  ghost function Decoded(l: Layout, c: seq<real>, code: seq<Code>): int -> real {
    t => if l.dsub > 0 && 0 <= t / l.dsub < |code| then At(c, Cell(l, t / l.dsub, code[t / l.dsub], t % l.dsub))
      else 0.0
  }

  ghost function SqErr(x: seq<real>, f: int -> real): int -> real {
    t => Sq(At(x, t) - f(t))
  }

  ghost function Products(x: seq<real>, f: int -> real): int -> real {
    t => At(x, t) * f(t)
  }

  /** The squared distance of a vector from what a code stands for. */
  ghost function CodeDist(l: Layout, c: seq<real>, x: seq<real>, code: seq<Code>): real {
    SumTo(l.dim, SqErr(x, Decoded(l, c, code)))
  }

  // ---- sums over all coordinates, block by block ----

  ghost function Shift(f: int -> real, a: int): int -> real {
    n => f(a + n)
  }

  ghost function BlockSums(l: Layout, f: int -> real): int -> real {
    m => SumTo(Width(l, m), Shift(f, m * l.dsub))
  }

  lemma {:induction false} WholeBlocks(l: Layout, f: int -> real, m: nat)
    requires Fits(l) && m < l.nsubq
    ensures SumTo(m * l.dsub, f) == SumTo(m, BlockSums(l, f))
  {
    if m > 0 {
      WholeBlocks(l, f, m - 1);
      assert m * l.dsub == (m - 1) * l.dsub + l.dsub;
      SumSplit((m - 1) * l.dsub, l.dsub, f, Shift(f, (m - 1) * l.dsub));
    }
  }

  lemma AllBlocks(l: Layout, f: int -> real)
    requires Fits(l)
    ensures SumTo(l.dim, f) == SumTo(l.nsubq, BlockSums(l, f))
  {
    var m := l.nsubq - 1;
    WholeBlocks(l, f, m);
    SumSplit(m * l.dsub, l.lastdsub, f, Shift(f, m * l.dsub));
  }

  /** Within a block the decoded vector is the block's centroid. */
  lemma DecodedInBlock(l: Layout, c: seq<real>, code: seq<Code>, m: nat, n: nat)
    requires Fits(l) && |code| == l.nsubq && m < l.nsubq && n < Width(l, m)
    ensures Decoded(l, c, code)(m * l.dsub + n) == At(c, Offset(l, m, code[m]) + n)
  {
    DivUnique(m, n, l.dsub);
  }

  lemma BlockDist(l: Layout, c: seq<real>, x: seq<real>, code: seq<Code>, m: nat)
    requires Fits(l) && |code| == l.nsubq && m < l.nsubq
    ensures BlockSums(l, SqErr(x, Decoded(l, c, code)))(m) == Dist(x, m * l.dsub, c, Offset(l, m, code[m]), Width(l, m))
  {
    var f := SqErr(x, Decoded(l, c, code));
    forall n | 0 <= n < Width(l, m) ensures Shift(f, m * l.dsub)(n) ==
      SqDiff(x, m * l.dsub, c, Offset(l, m, code[m]))(n) {
      DecodedInBlock(l, c, code, m, n);
    }
    SumSame(Width(l, m), Shift(f, m * l.dsub), SqDiff(x, m * l.dsub, c, Offset(l, m, code[m])));
  }

  /** In block `m` no centroid is nearer than centroid `i`. */
  ghost predicate NearestIn(l: Layout, c: seq<real>, x: seq<real>, m: nat, i: int) {
    forall j :: 0 <= j < KSUB ==>
      Dist(x, m * l.dsub, c, Offset(l, m, i), Width(l, m)) <= Dist(x, m * l.dsub, c, Offset(l, m, j), Width(l, m))
  }

  /** A code that is nearest in every block is nearest of all `256^nsubq` codes. */
  lemma NearestCode(l: Layout, c: seq<real>, x: seq<real>, code: seq<Code>, other: seq<Code>)
    requires Fits(l) && |code| == |other| == l.nsubq && forall m :: 0 <= m < l.nsubq ==> NearestIn(l, c, x, m, code[m])
    ensures CodeDist(l, c, x, code) <= CodeDist(l, c, x, other)
  {
    var f, g := SqErr(x, Decoded(l, c, code)), SqErr(x, Decoded(l, c, other));
    AllBlocks(l, f);
    AllBlocks(l, g);
    forall m | 0 <= m < l.nsubq ensures BlockSums(l, f)(m) <= BlockSums(l, g)(m) {
      BlockDist(l, c, x, code, m);
      BlockDist(l, c, x, other, m);
      assert NearestIn(l, c, x, m, code[m]);
    }
    SumAtMost(l.nsubq, BlockSums(l, f), BlockSums(l, g));
  }

  class ProductQuantizer {
    const l: Layout
    const centroids: array<real>

    ghost predicate Valid()
      reads this
    {
      Fits(l) && centroids.Length == l.dim * KSUB
    }

    constructor (dim: nat, dsub: nat)
      requires dim > 0 && dsub > 0
      ensures Valid() && l == MakeLayout(dim, dsub) && fresh(centroids)
    {
      MadeToFit(dim, dsub);
      l := MakeLayout(dim, dsub);
      centroids := new real[dim * KSUB](_ => 0.0);
    }

    /** The nearest of 256 centroids stored one after the other; the first one on a tie. */
    method AssignCentroid(x: seq<real>, xo: nat, c0: nat, code: array<Code>, at_: nat, d: nat) returns (dis: real)
      requires xo + d <= |x| && c0 + KSUB * d <= centroids.Length && at_ < code.Length
      modifies code
      ensures dis == Dist(x, xo, centroids[..], c0 + code[at_] * d, d)
      ensures forall j :: 0 <= j < KSUB ==> dis <= Dist(x, xo, centroids[..], c0 + j * d, d)
      ensures forall j :: 0 <= j < code[at_] ==> dis < Dist(x, xo, centroids[..], c0 + j * d, d)
      ensures forall i :: 0 <= i < code.Length && i != at_ ==> code[i] == old(code[i])
    {
      hide Dist;
      var c := c0;
      assert c0 + 0 * d == c0;
      dis := DistL2(x, xo, centroids, c, d);
      code[at_] := 0;
      for j := 1 to KSUB
        invariant c == c0 + (j - 1) * d && c + d <= c0 + KSUB * d
        invariant 0 <= code[at_] < j && dis == Dist(x, xo, centroids[..], c0 + code[at_] * d, d)
        invariant forall i :: 0 <= i < j ==> dis <= Dist(x, xo, centroids[..], c0 + i * d, d)
        invariant forall i :: 0 <= i < code[at_] ==> dis < Dist(x, xo, centroids[..], c0 + i * d, d)
        invariant forall i :: 0 <= i < code.Length && i != at_ ==> code[i] == old(code[i])
      {
        NextCentroid(c0, j, d);
        c := c + d;
        var disij := DistL2(x, xo, centroids, c, d);
        if disij < dis {
          code[at_] := j;
          dis := disij;
        }
      }
    }

    /** `compute_code`: in every block the nearest centroid. */
    method ComputeCode(x: seq<real>, code: array<Code>)
      requires Valid() && |x| == l.dim && code.Length == l.nsubq
      modifies code
      ensures forall m :: 0 <= m < l.nsubq ==> NearestIn(l, centroids[..], x, m, code[m])
      ensures forall other: seq<Code> :: |other| == l.nsubq ==>
        CodeDist(l, centroids[..], x, code[..]) <= CodeDist(l, centroids[..], x, other)
    {
      hide NearestIn, CodeDist;
      var d := l.dsub;
      for m := 0 to l.nsubq
        invariant d == l.dsub
        invariant forall k :: 0 <= k < m ==> NearestIn(l, centroids[..], x, k, code[k])
      {
        if m == l.nsubq - 1 { d := l.lastdsub; }
        BlockBounds(l, m, |centroids[..]|);
        ghost var before := code[..];
        var dis := AssignCentroid(x, m * l.dsub, Offset(l, m, 0), code, m, d);
        AssignedIsNearest(l, centroids[..], x, m, code[m], dis);
        d := l.dsub;
      }
      forall other: seq<Code> | |other| == l.nsubq
        ensures CodeDist(l, centroids[..], x, code[..]) <= CodeDist(l, centroids[..], x, other) {
        NearestCode(l, centroids[..], x, code[..], other);
      }
    }

    /** `mulcode`: the product with what the `t`-th code stands for. */
    method MulCode(x: seq<real>, codes: seq<Code>, t: nat, alpha: real) returns (res: real)
      requires Valid() && |x| == l.dim && HasCode(l, codes, t)
      ensures res == alpha * SumTo(l.dim, Products(x, Decoded(l, centroids[..], CodeAt(l, codes, t))))
    {
      hide Decoded, Offset, CodeAt, BlockSums;
      ghost var f := Products(x, Decoded(l, centroids[..], CodeAt(l, codes, t)));
      res := 0.0;
      for m := 0 to l.nsubq
        invariant res == SumTo(m, BlockSums(l, f))
      {
        ReadCode(l, codes, t, m);
        var i := codes[l.nsubq * t + m];
        var d := if m == l.nsubq - 1 then l.lastdsub else l.dsub;
        CodedBlock(l, m, i, centroids.Length);
        var part := MulBlock(x, m * l.dsub, Offset(l, m, i), d);
        BlockProduct(l, centroids[..], x, CodeAt(l, codes, t), m);
        res := res + part;
      }
      AllBlocks(l, f);
      res := res * alpha;
    }

    method MulBlock(x: seq<real>, xo: nat, o: nat, d: nat) returns (res: real)
      requires xo + d <= |x| && o + d <= centroids.Length
      ensures res == SumTo(d, ProductAt(x, xo, centroids[..], o))
    {
      res := 0.0;
      for n := 0 to d
        invariant res == SumTo(n, ProductAt(x, xo, centroids[..], o))
      {
        assert At(x, xo + n) == x[xo + n] && At(centroids[..], o + n) == centroids[o + n];
        assert ProductAt(x, xo, centroids[..], o)(n) == x[xo + n] * centroids[o + n];
        res := res + x[xo + n] * centroids[o + n];
      }
    }

    /** `addcode`: what the `t`-th code stands for is added in place. */
    method AddCode(x: array<real>, codes: seq<Code>, t: nat, alpha: real)
      requires Valid() && x.Length == l.dim && HasCode(l, codes, t) && x != centroids
      modifies x
      ensures AddedUpTo(x[..], old(x[..]), Decoded(l, centroids[..], CodeAt(l, codes, t)), alpha, l.dim)
    {
      hide Decoded, Offset, CodeAt;
      ghost var c, code, before := centroids[..], CodeAt(l, codes, t), x[..];
      ghost var f := Decoded(l, c, code);
      for m := 0 to l.nsubq
        invariant AddedUpTo(x[..], before, f, alpha, Start(l, m))
      {
        ReadCode(l, codes, t, m);
        var i := codes[l.nsubq * t + m];
        var d := if m == l.nsubq - 1 then l.lastdsub else l.dsub;
        CodedBlock(l, m, i, centroids.Length);
        ghost var now := x[..];
        AddBlock(x, m * l.dsub, Offset(l, m, i), d, alpha);
        BlockAdded(l, c, code, m, before, now, x[..], alpha);
      }
    }

    method AddBlock(x: array<real>, xo: nat, o: nat, d: nat, alpha: real)
      requires xo + d <= x.Length && o + d <= centroids.Length && x != centroids
      modifies x
      ensures forall i :: 0 <= i < x.Length ==>
        x[i] == old(x[i]) + if xo <= i < xo + d then alpha * centroids[o + (i - xo)] else 0.0
    {
      for n := 0 to d
        invariant forall i :: 0 <= i < x.Length ==>
          x[i] == old(x[i]) + if xo <= i < xo + n then alpha * centroids[o + (i - xo)] else 0.0
      {
        x[xo + n] := x[xo + n] + alpha * centroids[o + n];
      }
    }
  }

  lemma NextCentroid(c0: nat, j: nat, d: nat)
    requires 1 <= j < KSUB
    ensures c0 + (j - 1) * d + d == c0 + j * d && c0 + j * d + d <= c0 + KSUB * d
  {
    assert (j - 1) * d + d == j * d && j * d + d == (j + 1) * d;
    Monotone(j + 1, KSUB, d);
  }

  /** A block lies within the vector, and its centroids within the array. */
  lemma BlockBounds(l: Layout, m: nat, cells: nat)
    requires Fits(l) && m < l.nsubq && cells == l.dim * KSUB
    ensures m * l.dsub + Width(l, m) <= l.dim && 0 <= Offset(l, m, 0) && Offset(l, m, 0) + KSUB * Width(l, m) <= cells
    ensures forall i :: Offset(l, m, i) == Offset(l, m, 0) + i * Width(l, m)
  {
    NextBlock(l, m);
    Monotone(0, m, l.dsub);
    var s := KSUB * l.dsub;
    TotalCells(l, s);
    if m < l.nsubq - 1 {
      Monotone(m + 1, l.nsubq - 1, s);
      assert (m + 1) * s == m * s + s;
    }
    FirstCentroid(l, m);
    Monotone(0, m, s);
    forall i ensures Offset(l, m, i) == Offset(l, m, 0) + i * Width(l, m) {
      assert (m * KSUB + i) * l.dsub == m * KSUB * l.dsub + i * l.dsub;
    }
  }

  lemma FirstCentroid(l: Layout, m: nat)
    ensures Offset(l, m, 0) == m * (KSUB * l.dsub)
  {
    assert m * KSUB * l.dsub == m * (KSUB * l.dsub);
  }

  lemma NextBlock(l: Layout, m: nat)
    requires Fits(l) && m < l.nsubq
    ensures (m + 1) * l.dsub == m * l.dsub + l.dsub
    ensures m == l.nsubq - 1 ==> m * l.dsub + l.lastdsub == l.dim
    ensures m < l.nsubq - 1 ==> m * l.dsub + l.dsub <= l.dim - l.lastdsub
  {
    assert (m + 1) * l.dsub == m * l.dsub + l.dsub;
    if m < l.nsubq - 1 { Monotone(m + 1, l.nsubq - 1, l.dsub); }
  }

  /** The centroid that a code names in a block lies within the array, and the block within the vector. */
  lemma CodedBlock(l: Layout, m: nat, i: Code, cells: nat)
    requires Fits(l) && m < l.nsubq && cells == l.dim * KSUB
    ensures 0 <= m * l.dsub && m * l.dsub + Width(l, m) <= l.dim && 0 <= Offset(l, m, i) &&
      Offset(l, m, i) + Width(l, m) <= cells
  {
    BlockBounds(l, m, cells);
    Monotone(i + 1, KSUB, Width(l, m));
    Monotone(0, i, Width(l, m));
    assert (i + 1) * Width(l, m) == i * Width(l, m) + Width(l, m);
    Monotone(0, m, l.dsub);
  }

  lemma AssignedIsNearest(l: Layout, c: seq<real>, x: seq<real>, m: nat, i: Code, dis: real)
    requires Fits(l) && m < l.nsubq && |c| == l.dim * KSUB
    requires dis == Dist(x, m * l.dsub, c, Offset(l, m, 0) + i * Width(l, m), Width(l, m))
    requires forall j :: 0 <= j < KSUB ==> dis <= Dist(x, m * l.dsub, c, Offset(l, m, 0) + j * Width(l, m), Width(l, m))
    ensures NearestIn(l, c, x, m, i)
  {
    hide Offset, Dist;
    BlockBounds(l, m, |c|);
  }

  /** The first `n` coordinates have been added to, the others not yet. */
  ghost predicate AddedUpTo(x: seq<real>, before: seq<real>, f: int -> real, alpha: real, n: int) {
    && |x| == |before|
    && (forall i :: 0 <= i < |x| ==> x[i] == if i < n then before[i] + alpha * f(i) else before[i])
  }

  /** The `t`-th of the codes stored one after the other. */
  predicate HasCode(l: Layout, codes: seq<Code>, t: nat) {
    0 <= l.nsubq * t && l.nsubq * t + l.nsubq <= |codes|
  }

  function CodeAt(l: Layout, codes: seq<Code>, t: nat): (code: seq<Code>)
    requires HasCode(l, codes, t)
    ensures |code| == l.nsubq
  {
    codes[l.nsubq * t..l.nsubq * t + l.nsubq]
  }

  lemma ReadCode(l: Layout, codes: seq<Code>, t: nat, m: nat)
    requires HasCode(l, codes, t) && m < l.nsubq
    ensures 0 <= l.nsubq * t + m < |codes| && codes[l.nsubq * t + m] == CodeAt(l, codes, t)[m]
  {
  }

  ghost function ProductAt(x: seq<real>, xo: int, c: seq<real>, co: int): int -> real {
    n => At(x, xo + n) * At(c, co + n)
  }

  lemma BlockProduct(l: Layout, c: seq<real>, x: seq<real>, code: seq<Code>, m: nat)
    requires Fits(l) && |code| == l.nsubq && m < l.nsubq
    ensures BlockSums(l, Products(x, Decoded(l, c, code)))(m) ==
      SumTo(Width(l, m), ProductAt(x, m * l.dsub, c, Offset(l, m, code[m])))
  {
    hide Decoded, Offset;
    var f := Products(x, Decoded(l, c, code));
    forall n | 0 <= n < Width(l, m) ensures Shift(f, m * l.dsub)(n) ==
      ProductAt(x, m * l.dsub, c, Offset(l, m, code[m]))(n) {
      DecodedInBlock(l, c, code, m, n);
    }
    SumSame(Width(l, m), Shift(f, m * l.dsub), ProductAt(x, m * l.dsub, c, Offset(l, m, code[m])));
  }

  /** How many coordinates come before block `m`. */
  ghost function Start(l: Layout, m: int): int {
    if m == l.nsubq then l.dim else m * l.dsub
  }

  lemma BlockAdded(l: Layout, c: seq<real>, code: seq<Code>, m: nat, before: seq<real>, now: seq<real>, x: seq<real>,
      alpha: real)
    requires Fits(l) && |code| == l.nsubq && m < l.nsubq && |now| == |x| == l.dim && |c| == l.dim * KSUB
    requires AddedUpTo(now, before, Decoded(l, c, code), alpha, m * l.dsub) && 0 <= Offset(l, m, code[m]) &&
      Offset(l, m, code[m]) + Width(l, m) <= |c|
    requires var xo := m * l.dsub;
      forall i :: 0 <= i < |x| ==>
      x[i] == now[i] + if xo <= i < xo + Width(l, m) then alpha * c[Offset(l, m, code[m]) + (i - xo)] else 0.0
    ensures AddedUpTo(x, before, Decoded(l, c, code), alpha, Start(l, m + 1))
  {
    hide Decoded, Offset;
    NextBlock(l, m);
    var xo := m * l.dsub;
    assert Start(l, m + 1) == xo + Width(l, m);
    forall i | 0 <= i < |x| ensures x[i] == if i < xo + Width(l, m) then before[i] + alpha * Decoded(l, c, code)(i)
      else before[i] {
      if xo <= i < xo + Width(l, m) { DecodedInBlock(l, c, code, m, i - xo); }
    }
  }
}
