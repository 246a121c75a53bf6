/** The two steps of k-means, in place on one sub-quantizer's region of the centroids. */
module KMeans {
  import opened ProductCodes
  import opened KMeansTheory
  import opened ClusterRepair
  import opened Sums

  /** `Estep`: every point gets a nearest centroid. */
  method EStep(pq: ProductQuantizer, x: seq<real>, c0: nat, codes: array<Code>, d: nat, n: nat)
    requires n * d <= |x| && c0 + KSUB * d <= pq.centroids.Length && codes.Length == n
    modifies codes
    ensures forall i, k :: 0 <= i < n && 0 <= k < KSUB ==> NoNearer(x, pq.centroids[..], c0, d, i, codes[i], k)
  {
    hide NoNearer;
    for i := 0 to n
      invariant forall m, k :: 0 <= m < i && 0 <= k < KSUB ==> NoNearer(x, pq.centroids[..], c0, d, m, codes[m], k)
    {
      PointWithin(i, n, d);
      ghost var before := codes[..];
      var dis := pq.AssignCentroid(x, i * d, c0, codes, i, d);
      AssignedHasNoNearer(x, pq.centroids[..], c0, d, i, codes[i], dis);
    }
  }

  lemma PointWithin(i: nat, n: nat, d: nat)
    requires i < n
    ensures i * d + d <= n * d
  {
    Monotone(i + 1, n, d);
    assert (i + 1) * d == i * d + d;
  }

  lemma AssignedHasNoNearer(x: seq<real>, c: seq<real>, c0: nat, d: nat, i: nat, own: Code, dis: real)
    requires dis == Dist(x, i * d, c, c0 + own * d, d) && forall j :: 0 <= j < KSUB ==>
      dis <= Dist(x, i * d, c, c0 + j * d, d)
    ensures forall k :: 0 <= k < KSUB ==> NoNearer(x, c, c0, d, i, own, k)
  {
    hide Dist;
  }

  // ---- sums and means, in place ----

  ghost predicate AreSums(x: seq<real>, c: seq<real>, c0: nat, d: nat, codes: seq<Code>, n: nat)
    requires n <= |codes|
  {
    forall k, j :: 0 <= k < KSUB && 0 <= j < d ==> IsSum(x, c, c0, d, codes, k, j, n)
  }

  ghost predicate IsSum(x: seq<real>, c: seq<real>, c0: nat, d: nat, codes: seq<Code>, k: int, j: int, n: nat)
    requires n <= |codes|
  {
    C(c, c0, d, k, j) == ClusterSum(x, d, codes, k, j, n)
  }

  ghost predicate AreSizes(nelts: seq<int>, codes: seq<Code>, n: nat)
    requires n <= |codes|
  {
    |nelts| == KSUB && forall k :: 0 <= k < KSUB ==> nelts[k] == Size(codes, k, n)
  }

  method AddPoint(x: seq<real>, xo: nat, c: array<real>, co: nat, d: nat)
    requires xo + d <= |x| && co + d <= c.Length
    modifies c
    ensures forall p :: 0 <= p < c.Length ==> c[p] == old(c[p]) + if co <= p < co + d then x[xo + (p - co)] else 0.0
  {
    for j := 0 to d
      invariant forall p :: 0 <= p < c.Length ==> c[p] == old(c[p]) + if co <= p < co + j then x[xo + (p - co)] else 0.0
    {
      c[co + j] := c[co + j] + x[xo + j];
    }
  }

  lemma SumsStep(x: seq<real>, c: seq<real>, c': seq<real>, c0: nat, d: nat, codes: seq<Code>, i: nat)
    requires i < |codes| && AreSums(x, c, c0, d, codes, i) && i * d + d <= |x| && |c'| == |c| && c0 + KSUB * d <= |c|
    requires var co := c0 + codes[i] * d;
      forall p :: 0 <= p < |c| ==> c'[p] == c[p] + if co <= p < co + d then x[i * d + (p - co)] else 0.0
    ensures AreSums(x, c', c0, d, codes, i + 1)
  {
    var next := i + 1;
    forall k, j | 0 <= k < KSUB && 0 <= j < d ensures IsSum(x, c', c0, d, codes, k, j, next) {
      assert IsSum(x, c, c0, d, codes, k, j, i);
      BlockWithin(k, c0, d, |c|);
      if k != codes[i] { BlocksApart(k, j, codes[i], d); }
    }
  }

  lemma SizesStep(nelts: seq<int>, codes: seq<Code>, i: nat)
    requires i < |codes| && AreSizes(nelts, codes, i)
    ensures AreSizes(nelts[codes[i] := nelts[codes[i]] + 1], codes, i + 1)
  {
  }

  /** The first half of `Mstep`: cluster sums and sizes. */
  method Accumulate(x: seq<real>, c: array<real>, c0: nat, codes: seq<Code>, d: nat, n: nat) returns (nelts: seq<int>)
    requires n * d <= |x| && c0 + KSUB * d <= c.Length && |codes| == n
    modifies c
    ensures AreSums(x, c[..], c0, d, codes, n) && AreSizes(nelts, codes, n) && OnlyInside(old(c[..]), c[..], c0, d)
  {
    hide AreSums, AreSizes;
    nelts := seq(KSUB, _ => 0);
    for p := 0 to KSUB * d
      invariant forall q :: 0 <= q < c.Length ==> c[q] == if c0 <= q < c0 + p then 0.0 else old(c[q])
    {
      c[c0 + p] := 0.0;
    }
    NoSums(x, c[..], c0, d, codes, nelts);
    for i := 0 to n
      invariant |nelts| == KSUB && AreSums(x, c[..], c0, d, codes, i) && AreSizes(nelts, codes, i)
      invariant forall q :: 0 <= q < c.Length && !(c0 <= q < c0 + KSUB * d) ==> c[q] == old(c[q])
    {
      var k := codes[i];
      ghost var before := c[..];
      PointWithin(i, n, d);
      BlockWithin(k, c0, d, c0 + KSUB * d);
      AddPoint(x, i * d, c, c0 + k * d, d);
      SumsStep(x, before, c[..], c0, d, codes, i);
      SizesStep(nelts, codes, i);
      nelts := nelts[k := nelts[k] + 1];
    }
  }

  lemma NoSums(x: seq<real>, c: seq<real>, c0: nat, d: nat, codes: seq<Code>, nelts: seq<int>)
    requires c0 + KSUB * d <= |c| && (forall q :: c0 <= q < c0 + KSUB * d ==> c[q] == 0.0) && nelts == seq(KSUB, _ => 0)
    ensures AreSums(x, c, c0, d, codes, 0) && AreSizes(nelts, codes, 0)
  {
    forall k, j | 0 <= k < KSUB && 0 <= j < d ensures IsSum(x, c, c0, d, codes, k, j, 0) {
      BlockWithin(k, c0, d, c0 + KSUB * d);
    }
  }

  method DivideBlock(c: array<real>, co: nat, d: nat, z: real)
    requires co + d <= c.Length && z != 0.0
    modifies c
    ensures forall p :: 0 <= p < c.Length ==> c[p] == if co <= p < co + d then old(c[p]) / z else old(c[p])
  {
    for j := 0 to d
      invariant forall p :: 0 <= p < c.Length ==> c[p] == if co <= p < co + j then old(c[p]) / z else old(c[p])
    {
      c[co + j] := c[co + j] / z;
    }
  }

  /** Means up to cluster `upTo`, sums beyond. */
  ghost predicate Divided(x: seq<real>, c: seq<real>, c0: nat, d: nat, codes: seq<Code>, upTo: nat) {
    && (forall k, j :: 0 <= k < upTo && 0 <= j < d ==> IsMean(x, c, c0, d, codes, k, j))
    && (forall k, j :: upTo <= k < KSUB && 0 <= j < d ==> IsSum(x, c, c0, d, codes, k, j, |codes|))
  }

  lemma {:induction false} EmptySum(x: seq<real>, d: nat, codes: seq<Code>, k: int, j: int, n: nat)
    requires n <= |codes| && Size(codes, k, n) == 0
    ensures ClusterSum(x, d, codes, k, j, n) == 0.0
  {
    if n > 0 { EmptySum(x, d, codes, k, j, n - 1); }
  }

  lemma QuotientIsMean(s: real, z: real, q: real)
    requires z != 0.0 && q == s / z
    ensures z * q == s
  {
  }

  lemma DividedStep(x: seq<real>, c: seq<real>, c': seq<real>, c0: nat, d: nat, codes: seq<Code>, m: nat, z: real)
    requires m < KSUB && Divided(x, c, c0, d, codes, m) && |c'| == |c| && c0 + KSUB * d <= |c| &&
      z == Size(codes, m, |codes|) as real
    requires z == 0.0 ==> c' == c
    requires z != 0.0 ==> var co := c0 + m * d;
      forall p :: 0 <= p < |c| ==> c'[p] == if co <= p < co + d then c[p] / z else c[p]
    ensures Divided(x, c', c0, d, codes, m + 1)
  {
    hide C, Size, ClusterSum;
    forall k, j | 0 <= k < m && 0 <= j < d ensures IsMean(x, c', c0, d, codes, k, j) {
      assert IsMean(x, c, c0, d, codes, k, j);
      DividedElsewhere(c, c', c0, d, m, z, k, j);
    }
    forall k, j | m < k < KSUB && 0 <= j < d ensures IsSum(x, c', c0, d, codes, k, j, |codes|) {
      assert IsSum(x, c, c0, d, codes, k, j, |codes|);
      DividedElsewhere(c, c', c0, d, m, z, k, j);
    }
    forall j | 0 <= j < d ensures IsMean(x, c', c0, d, codes, m, j) {
      assert IsSum(x, c, c0, d, codes, m, j, |codes|);
      DividedHere(x, c, c', c0, d, codes, m, z, j);
    }
  }

  lemma DividedElsewhere(c: seq<real>, c': seq<real>, c0: nat, d: nat, m: nat, z: real, k: nat, j: nat)
    requires m < KSUB && k < KSUB && k != m && j < d && |c'| == |c| && c0 + KSUB * d <= |c| && (z == 0.0 ==> c' == c)
    requires z != 0.0 ==> var co := c0 + m * d;
      forall p :: 0 <= p < |c| ==> c'[p] == if co <= p < co + d then c[p] / z else c[p]
    ensures C(c', c0, d, k, j) == C(c, c0, d, k, j)
  {
    BlockWithin(k, c0, d, |c|);
    BlocksApart(k, j, m, d);
  }

  lemma DividedHere(x: seq<real>, c: seq<real>, c': seq<real>, c0: nat, d: nat, codes: seq<Code>, m: nat, z: real,
      j: nat)
    requires m < KSUB && j < d && IsSum(x, c, c0, d, codes, m, j, |codes|) && |c'| == |c| && c0 + KSUB * d <= |c| &&
      z == Size(codes, m, |codes|) as real
    requires z == 0.0 ==> c' == c
    requires z != 0.0 ==> var co := c0 + m * d;
      forall p :: 0 <= p < |c| ==> c'[p] == if co <= p < co + d then c[p] / z else c[p]
    ensures IsMean(x, c', c0, d, codes, m, j)
  {
    BlockWithin(m, c0, d, |c|);
    if z == 0.0 {
      EmptySum(x, d, codes, m, j, |codes|);
    } else {
      QuotientIsMean(C(c, c0, d, m, j), z, C(c', c0, d, m, j));
    }
  }

  /** The second half: every centroid becomes the mean of its cluster. */
  method Divide(c: array<real>, c0: nat, d: nat, nelts: seq<int>, ghost x: seq<real>, ghost codes: seq<Code>)
    requires c0 + KSUB * d <= c.Length && AreSums(x, c[..], c0, d, codes, |codes|) && AreSizes(nelts, codes, |codes|)
    modifies c
    ensures AreMeans(x, c[..], c0, d, codes) && OnlyInside(old(c[..]), c[..], c0, d)
  {
    hide Divided, Size, ClusterSum;
    StartDivided(x, c[..], c0, d, codes);
    for k := 0 to KSUB
      invariant Divided(x, c[..], c0, d, codes, k)
      invariant forall q :: 0 <= q < c.Length && !(c0 <= q < c0 + KSUB * d) ==> c[q] == old(c[q])
    {
      ghost var before := c[..];
      var z := nelts[k] as real;
      if z != 0.0 {
        BlockWithin(k, c0, d, c0 + KSUB * d);
        DivideBlock(c, c0 + k * d, d, z);
      }
      DividedStep(x, before, c[..], c0, d, codes, k, z);
    }
    EndDivided(x, c[..], c0, d, codes);
  }

  lemma StartDivided(x: seq<real>, c: seq<real>, c0: nat, d: nat, codes: seq<Code>)
    requires AreSums(x, c, c0, d, codes, |codes|)
    ensures Divided(x, c, c0, d, codes, 0)
  {
  }

  lemma EndDivided(x: seq<real>, c: seq<real>, c0: nat, d: nat, codes: seq<Code>)
    requires Divided(x, c, c0, d, codes, KSUB)
    ensures AreMeans(x, c, c0, d, codes)
  {
  }

  // ---- the whole step ----

  /** The sizes of the clusters sum to the number of points. */
  lemma {:induction false} SizesSum(nelts: seq<int>, codes: seq<Code>, n: nat)
    requires n <= |codes| && AreSizes(nelts, codes, n)
    ensures |nelts| == KSUB && Populated(nelts, n)
    decreases n
  {
    if n == 0 {
      SumAll(nelts, Id, 0);
    } else {
      var k := codes[n - 1];
      var before := nelts[k := nelts[k] - 1];
      SizesSum(before, codes, n - 1);
      SumUpdate(before, k, nelts[k], Id);
      assert before[k := nelts[k]] == nelts;
    }
  }

  /** A step from centroids `c` to `c'`: the means of the clusters, and then whatever repair they needed. */
  ghost predicate SteppedFrom(x: seq<real>, c: seq<real>, means: seq<real>, nelts: seq<int>, ok: bool,
      draws: seq<real>, c': seq<real>, c0: nat, d: nat, codes: seq<Code>)
    requires |nelts| == KSUB
  {
    && OnlyInside(c, means, c0, d) && AreMeans(x, means, c0, d, codes)
    && exists sizes ::
      && AreSizes(sizes, codes, |codes|) && Repaired(sizes, means, nelts, c', c0, d, KSUB)
      && var o := Outcomes(sizes, |codes|, draws, 0, 0);
        nelts == o.sizes && ok == o.ok && (!ok ==> Rejected(nelts, |codes|, draws, o.next, |draws|))
  }

  lemma SteppedInside(x: seq<real>, c: seq<real>, means: seq<real>, nelts: seq<int>, ok: bool,
      draws: seq<real>, c': seq<real>, c0: nat, d: nat, codes: seq<Code>)
    requires |nelts| == KSUB && SteppedFrom(x, c, means, nelts, ok, draws, c', c0, d, codes)
    ensures OnlyInside(c, c', c0, d)
  {
    hide AreMeans, Outcomes;
  }

  /** A cluster that no repair touched has its mean for a centroid. */
  lemma UntouchedIsMean(x: seq<real>, c: seq<real>, means: seq<real>, nelts: seq<int>, ok: bool,
      draws: seq<real>, c': seq<real>, c0: nat, d: nat, codes: seq<Code>, k: int, j: int)
    requires |nelts| == KSUB && SteppedFrom(x, c, means, nelts, ok, draws, c', c0, d, codes)
    requires 0 <= k < KSUB && 0 <= j < d && nelts[k] == Size(codes, k, |codes|)
    ensures IsMean(x, c', c0, d, codes, k, j)
  {
    hide C, Size, Outcomes, ClusterSum, HasOrigin;
    var sizes :| AreSizes(sizes, codes, |codes|) && Repaired(sizes, means, nelts, c', c0, d, KSUB);
    assert Stays(means, c', c0, d, k) && IsMean(x, means, c0, d, codes, k, j);
  }

  /** `Mstep`: the centroids become the means of their clusters.  Then no cluster is left empty unless the draws run
      out, and clusters that are neither empty nor split keep their means. */
  method MStep(x: seq<real>, c: array<real>, c0: nat, codes: seq<Code>, d: nat, n: nat, draws: seq<real>)
    returns (nelts: seq<int>, ok: bool, ghost means: seq<real>)
    requires n * d <= |x| && c0 + KSUB * d <= c.Length && |codes| == n && n >= KSUB && Uniform(draws)
    modifies c
    ensures |nelts| == KSUB && Populated(nelts, n)
    ensures SteppedFrom(x, old(c[..]), means, nelts, ok, draws, c[..], c0, d, codes)
    ensures OnlyInside(old(c[..]), c[..], c0, d)
    ensures forall k, j :: 0 <= k < KSUB && 0 <= j < d && nelts[k] == Size(codes, k, n) ==>
      IsMean(x, c[..], c0, d, codes, k, j)
    ensures ok <==> forall k :: 0 <= k < KSUB ==> nelts[k] > 0
    ensures SmallDraws(draws, n) ==> ok
    ensures (forall k :: 0 <= k < KSUB ==> Size(codes, k, n) > 0) ==> ok && AreMeans(x, c[..], c0, d, codes)
  {
    hide Populated, Uniform, AreMeans, AreSums, Size, Outcomes, Repaired, Rejected, SmallDraws, OnlyInside;
    ghost var before := c[..];
    var sizes := Accumulate(x, c, c0, codes, d, n);
    SizesSum(sizes, codes, n);
    ghost var sums := c[..];
    Divide(c, c0, d, sizes, x, codes);
    means := c[..];
    InsideTwice(before, sums, means, c0, d);
    nelts, ok := Repair(sizes, c, c0, d, n, draws);
    SteppedInside(x, before, means, nelts, ok, draws, c[..], c0, d, codes);
    forall k, j | 0 <= k < KSUB && 0 <= j < d && nelts[k] == Size(codes, k, n)
      ensures IsMean(x, c[..], c0, d, codes, k, j) {
      UntouchedIsMean(x, before, means, nelts, ok, draws, c[..], c0, d, codes, k, j);
    }
  }

  lemma InsideTwice(c: seq<real>, c1: seq<real>, c2: seq<real>, c0: nat, d: nat)
    requires OnlyInside(c, c1, c0, d) && OnlyInside(c1, c2, c0, d)
    ensures OnlyInside(c, c2, c0, d)
  {
  }

  /** One round of k-means.  The means it arrives at are no worse in total squared distance than the centroids before,
      and they are the centroids after it except where an empty cluster was repaired. */
  method Round(pq: ProductQuantizer, x: seq<real>, c0: nat, codes: array<Code>, d: nat, n: nat, draws: seq<real>)
    returns (nelts: seq<int>, ok: bool, ghost means: seq<real>)
    requires n * d <= |x| && c0 + KSUB * d <= pq.centroids.Length && codes.Length == n && n >= KSUB && Uniform(draws)
    modifies codes, pq.centroids
    ensures forall i, k :: 0 <= i < n && 0 <= k < KSUB ==> NoNearer(x, old(pq.centroids[..]), c0, d, i, codes[i], k)
    ensures |nelts| == KSUB && Populated(nelts, n)
    ensures SteppedFrom(x, old(pq.centroids[..]), means, nelts, ok, draws, pq.centroids[..], c0, d, codes[..])
    ensures OnlyInside(old(pq.centroids[..]), pq.centroids[..], c0, d)
    ensures TotalDist(x, means, c0, d, codes[..]) <= TotalDist(x, old(pq.centroids[..]), c0, d, old(codes[..]))
    ensures ok <==> forall k :: 0 <= k < KSUB ==> nelts[k] > 0
    ensures SmallDraws(draws, n) ==> ok
    ensures (forall k :: 0 <= k < KSUB ==> Size(codes[..], k, n) > 0) ==>
      ok && TotalDist(x, pq.centroids[..], c0, d, codes[..]) <=
        TotalDist(x, old(pq.centroids[..]), c0, d, old(codes[..]))
  {
    hide Populated, Uniform, AreMeans, NoNearer, TotalDist, Size, Outcomes, Repaired, Rejected, SmallDraws, OnlyInside;
    ghost var c, before := pq.centroids[..], codes[..];
    EStep(pq, x, c0, codes, d, n);
    forall i, k | 0 <= i < n && 0 <= k < KSUB ensures NoNearer(x, c, c0, d, i, codes[..][i], k) {
      assert NoNearer(x, pq.centroids[..], c0, d, i, codes[i], k);
    }
    NearestIsBetter(x, c, c0, d, before, codes[..]);
    nelts, ok, means := MStep(x, pq.centroids, c0, codes[..], d, n, draws);
    MeansAreBest(x, c, means, c0, d, codes[..]);
    if forall k :: 0 <= k < KSUB ==> Size(codes[..], k, n) > 0 {
      MeansAreBest(x, c, pq.centroids[..], c0, d, codes[..]);
    }
  }
}
