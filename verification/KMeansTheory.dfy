/** Why the mean step of k-means cannot increase the total squared distance. */
module KMeansTheory {
  import opened RealSums
  import opened ProductCodes

  ghost function X(x: seq<real>, d: nat, i: int, j: int): real {
    At(x, i * d + j)
  }

  /** Coordinate `j` of centroid `k` in the region that starts at `c0`. */
  ghost function C(c: seq<real>, c0: nat, d: nat, k: int, j: int): real {
    At(c, c0 + k * d + j)
  }

  /** How many of the first `n` points are in cluster `k`, and what they add up to. */
  ghost function Size(codes: seq<Code>, k: int, n: nat): nat
    requires n <= |codes|
  {
    if n == 0 then 0 else Size(codes, k, n - 1) + if codes[n - 1] == k then 1 else 0
  }

  ghost function ClusterSum(x: seq<real>, d: nat, codes: seq<Code>, k: int, j: int, n: nat): real
    requires n <= |codes|
  {
    if n == 0 then 0.0 else ClusterSum(x, d, codes, k, j, n - 1) + if codes[n - 1] == k then X(x, d, n - 1, j) else 0.0
  }

  /** The squared distances, in coordinate `j`, of the points of cluster `k` from `a`. */
  ghost function Spread(x: seq<real>, d: nat, codes: seq<Code>, k: int, j: int, a: real, n: nat): real
    requires n <= |codes|
  {
    if n == 0 then 0.0 else Spread(x, d, codes, k, j, a, n - 1) + if codes[n - 1] == k then Sq(X(x, d, n - 1, j) - a)
      else 0.0
  }

  /** What one point at `e` adds when the reference point moves: `f` is twice the way moved, `q` its square. */
  function Gain(e: real, b: real, f: real, q: real): real {
    f * (e - b) + q
  }

  /** ... and what `m` points that sum to `s` add. */
  function Gains(s: real, m: nat, b: real, f: real, q: real): real {
    f * (s - m as real * b) + m as real * q
  }

  lemma SquareMoves(x: real, a: real, b: real, f: real, q: real)
    requires f == 2.0 * (b - a) && q == Sq(b - a)
    ensures Sq(x - a) == Sq(x - b) + Gain(x, b, f, q)
  {
    var u, v := x - b, b - a;
    assert x - a == u + v;
    assert (u + v) * (u + v) == u * u + 2.0 * v * u + v * v;
  }

  lemma OneGainMore(s: real, m: nat, e: real, b: real, f: real, q: real)
    ensures Gains(s, m, b, f, q) + Gain(e, b, f, q) == Gains(s + e, m + 1, b, f, q)
  {
    var r := m as real;
    assert f * (s - r * b) + f * (e - b) == f * ((s - r * b) + (e - b));
    assert (r + 1.0) * b == r * b + b && (r + 1.0) * q == r * q + q;
  }

  /** Moving the reference point from `b` to `a`. */
  lemma {:induction false} SpreadMoves(x: seq<real>, d: nat, codes: seq<Code>, k: int, j: int, a: real, b: real,
      n: nat, f: real, q: real)
    requires n <= |codes| && f == 2.0 * (b - a) && q == Sq(b - a)
    ensures Spread(x, d, codes, k, j, a, n) == Spread(x, d, codes, k, j, b, n) +
      Gains(ClusterSum(x, d, codes, k, j, n), Size(codes, k, n), b, f, q)
  {
    hide Gains, Gain, Sq, X;
    if n > 0 {
      SpreadMoves(x, d, codes, k, j, a, b, n - 1, f, q);
      if codes[n - 1] == k {
        var e := X(x, d, n - 1, j);
        SquareMoves(e, a, b, f, q);
        OneGainMore(ClusterSum(x, d, codes, k, j, n - 1), Size(codes, k, n - 1), e, b, f, q);
      }
    } else {
      NoGain(b, f, q);
    }
  }

  lemma NoGain(b: real, f: real, q: real)
    ensures Gains(0.0, 0, b, f, q) == 0.0
  {
  }

  lemma GainsAtMean(s: real, m: nat, b: real, f: real, q: real)
    requires m as real * b == s && q >= 0.0
    ensures Gains(s, m, b, f, q) >= 0.0
  {
    assert f * (s - m as real * b) == f * 0.0 == 0.0;
    assert m as real * q >= 0.0;
  }

  lemma SquareNonNegative(a: real)
    ensures Sq(a) >= 0.0
  {
  }

  /** The mean is the best reference point. */
  lemma MeanIsBest(x: seq<real>, d: nat, codes: seq<Code>, k: int, j: int, a: real, mean: real, n: nat)
    requires n <= |codes| && Size(codes, k, n) as real * mean == ClusterSum(x, d, codes, k, j, n)
    ensures Spread(x, d, codes, k, j, mean, n) <= Spread(x, d, codes, k, j, a, n)
  {
    hide Gains, Sq, Spread, ClusterSum, Size;
    SpreadMoves(x, d, codes, k, j, a, mean, n, 2.0 * (mean - a), Sq(mean - a));
    SquareNonNegative(mean - a);
    GainsAtMean(ClusterSum(x, d, codes, k, j, n), Size(codes, k, n), mean, 2.0 * (mean - a), Sq(mean - a));
  }

  // ---- the total ----

  ghost function Err(x: seq<real>, c: seq<real>, c0: nat, d: nat, codes: seq<Code>): (int, int) -> real {
    (i: int, j: int) => if 0 <= i < |codes| then Sq(X(x, d, i, j) - C(c, c0, d, codes[i], j)) else 0.0
  }

  /** The total squared distance of the points from their centroids. */
  ghost function TotalDist(x: seq<real>, c: seq<real>, c0: nat, d: nat, codes: seq<Code>): real {
    SumTo(|codes|, RowSum(Err(x, c, c0, d, codes), d))
  }

  ghost function InCluster(x: seq<real>, c: seq<real>, c0: nat, d: nat, codes: seq<Code>, j: int): (int, int) -> real {
    (i: int, k: int) => if 0 <= i < |codes| && codes[i] == k then Sq(X(x, d, i, j) - C(c, c0, d, k, j)) else 0.0
  }

  ghost function Spreads(x: seq<real>, c: seq<real>, c0: nat, d: nat, codes: seq<Code>, j: int): int -> real {
    k => Spread(x, d, codes, k, j, C(c, c0, d, k, j), |codes|)
  }

  lemma {:induction false} SpreadIsSum(x: seq<real>, c: seq<real>, c0: nat, d: nat, codes: seq<Code>, j: int, k: int,
      n: nat, f: int -> real)
    requires n <= |codes| && forall i :: 0 <= i < n ==> f(i) == InCluster(x, c, c0, d, codes, j)(i, k)
    ensures SumTo(n, f) == Spread(x, d, codes, k, j, C(c, c0, d, k, j), n)
  {
    if n > 0 { SpreadIsSum(x, c, c0, d, codes, j, k, n - 1, f); }
  }

  /** One coordinate of the total, cluster by cluster. */
  lemma ColumnIsSpreads(x: seq<real>, c: seq<real>, c0: nat, d: nat, codes: seq<Code>, j: int)
    ensures ColumnSum(Err(x, c, c0, d, codes), |codes|)(j) == SumTo(KSUB, Spreads(x, c, c0, d, codes, j))
  {
    var n, e, g := |codes|, Err(x, c, c0, d, codes), InCluster(x, c, c0, d, codes, j);
    var column: int -> real := i => e(i, j);
    forall i | 0 <= i < n ensures column(i) == RowSum(g, KSUB)(i) {
      SumSingle(KSUB, k => g(i, k), codes[i]);
    }
    SumSame(n, column, RowSum(g, KSUB));
    SumSame(n, i => e(i, j), column);
    SumSwap(n, KSUB, g);
    forall k | 0 <= k < KSUB ensures ColumnSum(g, n)(k) == Spreads(x, c, c0, d, codes, j)(k) {
      SpreadIsSum(x, c, c0, d, codes, j, k, n, i => g(i, k));
    }
    SumSame(KSUB, ColumnSum(g, n), Spreads(x, c, c0, d, codes, j));
  }

  /** Every centroid is the mean of its cluster. */
  ghost predicate AreMeans(x: seq<real>, c: seq<real>, c0: nat, d: nat, codes: seq<Code>) {
    forall k, j :: 0 <= k < KSUB && 0 <= j < d ==> IsMean(x, c, c0, d, codes, k, j)
  }

  ghost predicate IsMean(x: seq<real>, c: seq<real>, c0: nat, d: nat, codes: seq<Code>, k: int, j: int) {
    Size(codes, k, |codes|) as real * C(c, c0, d, k, j) == ClusterSum(x, d, codes, k, j, |codes|)
  }

  /** For given clusters no centroids are better than the means. */
  lemma MeansAreBest(x: seq<real>, c: seq<real>, means: seq<real>, c0: nat, d: nat, codes: seq<Code>)
    requires AreMeans(x, means, c0, d, codes)
    ensures TotalDist(x, means, c0, d, codes) <= TotalDist(x, c, c0, d, codes)
  {
    hide AreMeans, Err, ColumnSum;
    var n, e, f := |codes|, Err(x, means, c0, d, codes), Err(x, c, c0, d, codes);
    SumSwap(n, d, e);
    SumSwap(n, d, f);
    forall j | 0 <= j < d ensures ColumnSum(e, n)(j) <= ColumnSum(f, n)(j) {
      MeansAreBestIn(x, c, means, c0, d, codes, j);
    }
    SumAtMost(d, ColumnSum(e, n), ColumnSum(f, n));
  }

  lemma MeansAreBestIn(x: seq<real>, c: seq<real>, means: seq<real>, c0: nat, d: nat, codes: seq<Code>, j: nat)
    requires AreMeans(x, means, c0, d, codes) && j < d
    ensures ColumnSum(Err(x, means, c0, d, codes), |codes|)(j) <= ColumnSum(Err(x, c, c0, d, codes), |codes|)(j)
  {
    hide Err, ColumnSum, C, Spread, Size, ClusterSum;
    ColumnIsSpreads(x, means, c0, d, codes, j);
    ColumnIsSpreads(x, c, c0, d, codes, j);
    forall k | 0 <= k < KSUB ensures Spreads(x, means, c0, d, codes, j)(k) <= Spreads(x, c, c0, d, codes, j)(k) {
      assert IsMean(x, means, c0, d, codes, k, j);
      MeanIsBest(x, d, codes, k, j, C(c, c0, d, k, j), C(means, c0, d, k, j), |codes|);
    }
    SumAtMost(KSUB, Spreads(x, means, c0, d, codes, j), Spreads(x, c, c0, d, codes, j));
  }

  /** A point's share of the total is its distance from its centroid. */
  lemma PointDist(x: seq<real>, c: seq<real>, c0: nat, d: nat, codes: seq<Code>, i: nat)
    requires i < |codes|
    ensures RowSum(Err(x, c, c0, d, codes), d)(i) == Dist(x, i * d, c, c0 + codes[i] * d, d)
  {
    var e := Err(x, c, c0, d, codes);
    SumSame(d, j => e(i, j), SqDiff(x, i * d, c, c0 + codes[i] * d));
  }

  /** Centroid `k` is no nearer to point `i` than the one it is assigned. */
  ghost predicate NoNearer(x: seq<real>, c: seq<real>, c0: nat, d: nat, i: int, own: Code, k: int) {
    Dist(x, i * d, c, c0 + own * d, d) <= Dist(x, i * d, c, c0 + k * d, d)
  }

  /** Assigning every point to a nearest centroid does not increase the total. */
  lemma NearestIsBetter(x: seq<real>, c: seq<real>, c0: nat, d: nat, codes: seq<Code>, nearest: seq<Code>)
    requires |nearest| == |codes|
    requires forall i, k :: 0 <= i < |codes| && 0 <= k < KSUB ==> NoNearer(x, c, c0, d, i, nearest[i], k)
    ensures TotalDist(x, c, c0, d, nearest) <= TotalDist(x, c, c0, d, codes)
  {
    hide Dist, Err;
    forall i | 0 <= i < |codes| ensures RowSum(Err(x, c, c0, d, nearest), d)(i) <=
      RowSum(Err(x, c, c0, d, codes), d)(i) {
      PointDist(x, c, c0, d, codes, i);
      PointDist(x, c, c0, d, nearest, i);
      assert NoNearer(x, c, c0, d, i, nearest[i], codes[i]);
    }
    SumAtMost(|codes|, RowSum(Err(x, c, c0, d, nearest), d), RowSum(Err(x, c, c0, d, codes), d));
  }

  // ---- cells ----

  /** Nothing changes outside the region of `KSUB` centroids that starts at `c0`. */
  ghost predicate OnlyInside(c: seq<real>, c': seq<real>, c0: nat, d: nat) {
    |c'| == |c| && forall p :: 0 <= p < |c| && !(c0 <= p < c0 + KSUB * d) ==> c'[p] == c[p]
  }

  /** Cells of different clusters, or of different coordinates, are different cells. */
  lemma BlocksApart(k: nat, j: nat, m: nat, d: nat)
    requires j < d && k != m
    ensures !(m * d <= k * d + j < m * d + d)
  {
    if k < m {
      Monotone(k + 1, m, d);
      assert (k + 1) * d == k * d + d;
    } else {
      Monotone(m + 1, k, d);
      assert (m + 1) * d == m * d + d;
    }
  }

  lemma BlockWithin(k: nat, c0: nat, d: nat, cells: nat)
    requires k < KSUB && c0 + KSUB * d <= cells
    ensures 0 <= k * d && c0 + k * d + d <= cells
  {
    Monotone(k + 1, KSUB, d);
    Monotone(0, k, d);
    assert (k + 1) * d == k * d + d;
  }
}
