/** The repair of empty clusters, in place.  Random numbers are given; the resampling loop may run out of them. */
module ClusterRepair {
  import opened ProductCodes
  import opened KMeansTheory
  import opened Sums

  const EPS: real := 0.0000001

  function Id(x: int): int {
    x
  }

  /** Numbers drawn uniformly from zero to one. */
  predicate Uniform(draws: seq<real>) {
    forall t :: 0 <= t < |draws| ==> 0.0 <= draws[t] < 1.0
  }

  ghost predicate Populated(nelts: seq<int>, n: nat) {
    |nelts| == KSUB && (forall k :: 0 <= k < KSUB ==> nelts[k] >= 0) && Sum(nelts, Id) == n
  }

  /** A draw settles on a cluster. */
  predicate Accepts(draw: real, n: nat, size: int) {
    draw * (n - KSUB) as real < (size - 1) as real
  }

  lemma AcceptedHasTwo(draw: real, n: nat, size: int)
    requires 0.0 <= draw && KSUB <= n && Accepts(draw, n, size)
    ensures size >= 2
  {
    assert draw * (n - KSUB) as real >= 0.0;
  }

  /** The search from draw `from` on, which goes round the clusters, rejects every draw before `upTo`. */
  ghost predicate Rejected(nelts: seq<int>, n: nat, draws: seq<real>, from: nat, upTo: nat)
    requires |nelts| == KSUB && upTo <= |draws|
  {
    forall s :: from <= s < upTo ==> !Accepts(draws[s], n, nelts[(s - from) % KSUB])
  }

  /** The resampling loop, from the `from`-th draw: it settles on the first cluster that a draw accepts, which has two
      points or more, and fails only when every draw left is rejected. */
  method PickCluster(nelts: seq<int>, n: nat, draws: seq<real>, from: nat) returns (m: nat, next: nat, found: bool)
    requires |nelts| == KSUB && n >= KSUB && from <= |draws| && Uniform(draws)
    ensures found ==>
      from < next <= |draws| && m == (next - 1 - from) % KSUB && Rejected(nelts, n, draws, from, next - 1)
    ensures found ==> Accepts(draws[next - 1], n, nelts[m]) && nelts[m] >= 2
    ensures !found ==> Rejected(nelts, n, draws, from, |draws|)
    ensures Settles(nelts, n, draws, from, from) == if found then next - 1 else |draws|
  {
    hide Accepts;
    m, next, found := 0, from, false;
    while next < |draws| && !found
      invariant from <= next <= |draws| && m < KSUB
      invariant !found ==> m == (next - from) % KSUB && Rejected(nelts, n, draws, from, next)
      invariant found ==> from < next && m == (next - 1 - from) % KSUB && Rejected(nelts, n, draws, from, next - 1)
      invariant found ==> Accepts(draws[next - 1], n, nelts[m]) && nelts[m] >= 2
      decreases |draws| - next, !found
    {
      if Accepts(draws[next], n, nelts[m]) {
        AcceptedHasTwo(draws[next], n, nelts[m]);
        found := true;
      } else {
        m := (m + 1) % KSUB;
      }
      next := next + 1;
    }
    SettlesAt(nelts, n, draws, from, from, if found then next - 1 else |draws|);
  }

  /** The first draw from `s` on that settles a search which began with draw `from`, or the number of draws. */
  ghost function Settles(nelts: seq<int>, n: nat, draws: seq<real>, from: nat, s: nat): (t: nat)
    requires |nelts| == KSUB && from <= s <= |draws|
    ensures s <= t <= |draws|
    decreases |draws| - s
  {
    if s == |draws| || Accepts(draws[s], n, nelts[(s - from) % KSUB]) then s else Settles(nelts, n, draws, from, s + 1)
  }

  lemma {:induction false} SettlesAt(nelts: seq<int>, n: nat, draws: seq<real>, from: nat, s: nat, t: nat)
    requires |nelts| == KSUB && from <= s <= t <= |draws| && Rejected(nelts, n, draws, from, t)
    requires t == |draws| || Accepts(draws[t], n, nelts[(t - from) % KSUB])
    ensures Settles(nelts, n, draws, from, s) == t
    decreases t - s
  {
    if s < t { SettlesAt(nelts, n, draws, from, s + 1, t); }
  }

  /** How a repair ends: the sizes, whether the draws were enough, and the draw where the next search would begin or
      the failed one began. */
  datatype Outcome = Outcome(sizes: seq<int>, ok: bool, next: nat)

  /** The outcome of repairing the empty clusters from `k` on with the draws from `next` on. */
  ghost function Outcomes(nelts: seq<int>, n: nat, draws: seq<real>, next: nat, k: nat): (o: Outcome)
    requires |nelts| == KSUB && next <= |draws| && k <= KSUB
    ensures |o.sizes| == KSUB && o.next <= |draws|
    decreases KSUB - k
  {
    if k == KSUB then Outcome(nelts, true, next)
    else if nelts[k] != 0 then Outcomes(nelts, n, draws, next, k + 1)
    else
      var t := Settles(nelts, n, draws, next, next);
      if t == |draws| then Outcome(nelts, false, next) else
      var m := (t - next) % KSUB;
      Outcomes(nelts[k := nelts[m] / 2][m := nelts[m] - nelts[m] / 2], n, draws, t + 1, k + 1)
  }

  lemma {:induction false} SettlesSame(nelts: seq<int>, n: nat, draws: seq<real>, more: seq<real>, from: nat, s: nat)
    requires |nelts| == KSUB && from <= s <= |draws| && draws <= more && Settles(nelts, n, draws, from, s) < |draws|
    ensures Settles(nelts, n, more, from, s) == Settles(nelts, n, draws, from, s)
    decreases |draws| - s
  {
    hide Accepts;
    if s < |draws| && !Accepts(draws[s], n, nelts[(s - from) % KSUB]) {
      SettlesSame(nelts, n, draws, more, from, s + 1);
    }
  }

  /** Draws that are enough decide the outcome, whatever would be drawn after them. */
  lemma {:induction false} EnoughDraws(nelts: seq<int>, n: nat, draws: seq<real>, more: seq<real>, next: nat, k: nat)
    requires |nelts| == KSUB && next <= |draws| && k <= KSUB && draws <= more && Outcomes(nelts, n, draws, next, k).ok
    ensures Outcomes(nelts, n, more, next, k) == Outcomes(nelts, n, draws, next, k)
    decreases KSUB - k
  {
    hide Settles;
    if k < KSUB && nelts[k] != 0 {
      EnoughDraws(nelts, n, draws, more, next, k + 1);
    } else if k < KSUB {
      var t := Settles(nelts, n, draws, next, next);
      SettlesSame(nelts, n, draws, more, next, next);
      var m := (t - next) % KSUB;
      EnoughDraws(nelts[k := nelts[m] / 2][m := nelts[m] - nelts[m] / 2], n, draws, more, t + 1, k + 1);
    }
  }

  /** Draws so small that they settle on any cluster of two, enough of them for any number of repairs. */
  ghost predicate SmallDraws(draws: seq<real>, n: nat) {
    KSUB * KSUB <= |draws| && forall s :: 0 <= s < KSUB * KSUB ==> Accepts(draws[s], n, 2)
  }

  lemma MoreAccept(draw: real, n: nat, size: int)
    requires Accepts(draw, n, 2) && size >= 2
    ensures Accepts(draw, n, size)
  {
  }

  /** With small draws the search for a cluster does not take a whole turn. */
  lemma SearchIsShort(nelts: seq<int>, n: nat, k: nat, draws: seq<real>, from: nat, upTo: nat)
    requires Populated(nelts, n) && n >= KSUB && k < KSUB && nelts[k] == 0
    requires SmallDraws(draws, n) && from <= k * KSUB && upTo <= |draws| && Rejected(nelts, n, draws, from, upTo)
    ensures upTo < from + KSUB
  {
    hide Accepts;
    SomeoneHasTwo(nelts, n, k);
    var m :| 0 <= m < KSUB && nelts[m] >= 2;
    assert (from + m - from) % KSUB == m;
    MoreAccept(draws[from + m], n, nelts[m]);
  }

  lemma {:induction false} SmallSum(s: seq<int>)
    requires forall k :: 0 <= k < |s| ==> s[k] <= 1
    ensures Sum(s, Id) <= |s|
  {
    if |s| > 0 { SmallSum(s[..|s| - 1]); }
  }

  /** With at least as many points as clusters, an empty cluster means another has two. */
  lemma SomeoneHasTwo(nelts: seq<int>, n: nat, k: nat)
    requires Populated(nelts, n) && n >= KSUB && k < KSUB && nelts[k] == 0
    ensures exists m :: 0 <= m < KSUB && nelts[m] >= 2
  {
    if forall m :: 0 <= m < KSUB ==> nelts[m] < 2 {
      SumUpdate(nelts, k, 1, Id);
      SmallSum(nelts[k := 1]);
    }
  }

  /** Half of cluster `m` goes to the empty cluster `k`. */
  lemma HalvesKeepSum(nelts: seq<int>, n: nat, k: nat, m: nat)
    requires Populated(nelts, n) && k < KSUB && m < KSUB && nelts[k] == 0 && nelts[m] >= 2
    ensures k != m
    ensures var half := nelts[m] / 2;
      Populated(nelts[k := half][m := nelts[m] - half], n) && half > 0 && nelts[m] - half > 0
  {
    var half := nelts[m] / 2;
    SumUpdate(nelts, k, half, Id);
    SumUpdate(nelts[k := half], m, nelts[m] - half, Id);
  }

  /** The sign that alternates over the coordinates, times the offset. */
  function Nudge(j: int): real {
    if j % 2 == 0 then -EPS else EPS
  }

  /** The empty cluster's centroid is put beside the other's, and the other's moved the opposite way. */
  method SplitCentroid(c: array<real>, ko: nat, mo: nat, d: nat)
    requires ko + d <= c.Length && mo + d <= c.Length && (ko + d <= mo || mo + d <= ko)
    modifies c
    ensures forall p :: ko <= p < ko + d ==> c[p] == old(c[mo + (p - ko)]) + Nudge(p - ko)
    ensures forall p :: mo <= p < mo + d ==> c[p] == old(c[p]) - Nudge(p - mo)
    ensures forall p :: 0 <= p < c.Length && !(ko <= p < ko + d) && !(mo <= p < mo + d) ==> c[p] == old(c[p])
  {
    hide Nudge;
    CopyBlock(c, ko, mo, d);
    for j := 0 to d
      invariant forall p :: ko <= p < ko + d ==>
        c[p] == old(c[mo + (p - ko)]) + if p < ko + j then Nudge(p - ko) else 0.0
      invariant forall p :: mo <= p < mo + d ==> c[p] == old(c[p]) - if p < mo + j then Nudge(p - mo) else 0.0
      invariant forall p :: 0 <= p < c.Length && !(ko <= p < ko + d) && !(mo <= p < mo + d) ==> c[p] == old(c[p])
    {
      c[ko + j] := c[ko + j] + Nudge(j);
      c[mo + j] := c[mo + j] - Nudge(j);
    }
  }

  method CopyBlock(c: array<real>, ko: nat, mo: nat, d: nat)
    requires ko + d <= c.Length && mo + d <= c.Length && (ko + d <= mo || mo + d <= ko)
    modifies c
    ensures forall p :: 0 <= p < c.Length ==> c[p] == if ko <= p < ko + d then old(c[mo + (p - ko)]) else old(c[p])
  {
    for j := 0 to d
      invariant forall p :: 0 <= p < c.Length ==> c[p] == if ko <= p < ko + j then old(c[mo + (p - ko)]) else old(c[p])
    {
      c[ko + j] := c[mo + j];
    }
  }

  lemma ClustersApart(k: nat, m: nat, d: nat)
    requires k != m
    ensures k * d + d <= m * d || m * d + d <= k * d
  {
    if k < m {
      Monotone(k + 1, m, d);
      assert (k + 1) * d == k * d + d;
    } else {
      Monotone(m + 1, k, d);
      assert (m + 1) * d == m * d + d;
    }
  }

  // ---- what a repair does to the centroids ----

  ghost predicate Stays(c: seq<real>, c': seq<real>, c0: nat, d: nat, k: int) {
    forall j :: 0 <= j < d ==> C(c', c0, d, k, j) == C(c, c0, d, k, j)
  }

  /** Centroid `k` of `c'` is beside centroid `m` of `c`, at most `splits` offsets away. */
  ghost predicate Beside(c: seq<real>, m: int, c': seq<real>, k: int, c0: nat, d: nat, splits: nat) {
    forall j :: 0 <= j < d ==> Close(C(c', c0, d, k, j), C(c, c0, d, m, j), splits)
  }

  ghost predicate Close(a: real, b: real, splits: nat) {
    -(splits as real * EPS) <= a - b <= splits as real * EPS
  }

  /** Cluster `k` is where it was, or, if it was empty, beside where a cluster with points was. */
  ghost predicate HasOrigin(sizes: seq<int>, c: seq<real>, c': seq<real>, k: int, c0: nat, d: nat, splits: nat)
    requires |sizes| == KSUB && 0 <= k < KSUB
  {
    exists m :: 0 <= m < KSUB && sizes[m] > 0 && (sizes[k] > 0 ==> m == k) && Beside(c, m, c', k, c0, d, splits)
  }

  /** Nothing outside the region changes, clusters that keep their size keep their centroids, clusters with points keep
      some and stay in place up to the offsets, and every other cluster that has points now was split off one of
      them. */
  ghost predicate Repaired(sizes: seq<int>, c: seq<real>, nelts: seq<int>, c': seq<real>, c0: nat, d: nat, splits: nat)
    requires |sizes| == |nelts| == KSUB
  {
    && OnlyInside(c, c', c0, d)
    && (forall k :: 0 <= k < KSUB && nelts[k] == sizes[k] ==> Stays(c, c', c0, d, k))
    && (forall k :: 0 <= k < KSUB && sizes[k] > 0 ==> 0 < nelts[k] <= sizes[k])
    && (forall k :: 0 <= k < KSUB && nelts[k] > 0 ==> HasOrigin(sizes, c, c', k, c0, d, splits))
  }

  /** Centroid `m` split in two, half of it in the place of centroid `k`. */
  ghost predicate IsSplit(c: seq<real>, c': seq<real>, k: int, m: int, c0: nat, d: nat) {
    && (forall j :: 0 <= j < d ==> C(c', c0, d, k, j) == C(c, c0, d, m, j) + Nudge(j))
    && (forall j :: 0 <= j < d ==> C(c', c0, d, m, j) == C(c, c0, d, m, j) - Nudge(j))
    && (forall i :: 0 <= i < KSUB && i != k && i != m ==> Stays(c, c', c0, d, i))
    && OnlyInside(c, c', c0, d)
  }

  lemma NothingSplit(sizes: seq<int>, n: nat, c: seq<real>, c0: nat, d: nat)
    requires Populated(sizes, n)
    ensures Repaired(sizes, c, sizes, c, c0, d, 0)
  {
    forall k | 0 <= k < KSUB && sizes[k] > 0 ensures HasOrigin(sizes, c, c, k, c0, d, 0) {
      assert Beside(c, k, c, k, c0, d, 0);
    }
  }

  lemma FartherOff(c: seq<real>, m: int, c1: seq<real>, c2: seq<real>, i: int, k: int, c0: nat, d: nat, splits: nat)
    requires Beside(c, m, c1, i, c0, d, splits)
    requires forall j :: 0 <= j < d ==> Close(C(c2, c0, d, k, j), C(c1, c0, d, i, j), 1)
    ensures Beside(c, m, c2, k, c0, d, splits + 1)
  {
    hide C;
    forall j | 0 <= j < d ensures Close(C(c2, c0, d, k, j), C(c, c0, d, m, j), splits + 1) {
      assert Close(C(c1, c0, d, i, j), C(c, c0, d, m, j), splits);
    }
  }

  /** The origin of a cluster after a split is that of the cluster it was, or was split off. */
  lemma OriginKept(sizes: seq<int>, c: seq<real>, c1: seq<real>, c2: seq<real>, i: int, k: int, c0: nat, d: nat,
      splits: nat)
    requires |sizes| == KSUB && 0 <= i < KSUB && 0 <= k < KSUB && HasOrigin(sizes, c, c1, i, c0, d, splits) &&
      (sizes[k] > 0 ==> i == k)
    requires forall j :: 0 <= j < d ==> Close(C(c2, c0, d, k, j), C(c1, c0, d, i, j), 1)
    ensures HasOrigin(sizes, c, c2, k, c0, d, splits + 1)
  {
    hide Close, C;
    var m :| 0 <= m < KSUB && sizes[m] > 0 && (sizes[i] > 0 ==> m == i) && Beside(c, m, c1, i, c0, d, splits);
    FartherOff(c, m, c1, c2, i, k, c0, d, splits);
  }

  lemma SplitOnce(sizes: seq<int>, c: seq<real>, nelts: seq<int>, c1: seq<real>, k: nat, m: nat, half: int,
      c2: seq<real>, c0: nat, d: nat, splits: nat)
    requires |sizes| == |nelts| == KSUB && Repaired(sizes, c, nelts, c1, c0, d, splits) && IsSplit(c1, c2, k, m, c0, d)
    requires k < KSUB && m < KSUB && k != m && nelts[k] == 0 && 0 < half < nelts[m] && sizes[k] >= 0 && sizes[m] >= 0
    ensures Repaired(sizes, c, nelts[k := half][m := nelts[m] - half], c2, c0, d, splits + 1)
  {
    hide C, HasOrigin;
    var after := nelts[k := half][m := nelts[m] - half];
    forall i | 0 <= i < KSUB && after[i] == sizes[i] ensures Stays(c, c2, c0, d, i) {
      assert Stays(c, c1, c0, d, i) && Stays(c1, c2, c0, d, i);
    }
    forall i | 0 <= i < KSUB && after[i] > 0 ensures HasOrigin(sizes, c, c2, i, c0, d, splits + 1) {
      var was := if i == k then m else i;
      if i != k && i != m { assert Stays(c1, c2, c0, d, i); }
      OriginKept(sizes, c, c1, c2, was, i, c0, d, splits);
    }
  }

  /** The repair loop.  Every cluster has points afterwards, unless the search for one to split rejected all the draws
      left; small draws make sure that it does not.  With no empty cluster nothing changes. */
  method Repair(sizes: seq<int>, c: array<real>, c0: nat, d: nat, n: nat, draws: seq<real>)
      returns (nelts: seq<int>, ok: bool)
    requires |sizes| == KSUB && Populated(sizes, n) && n >= KSUB && c0 + KSUB * d <= c.Length && Uniform(draws)
    modifies c
    ensures |nelts| == KSUB && Populated(nelts, n) && Repaired(sizes, old(c[..]), nelts, c[..], c0, d, KSUB)
    ensures var o := Outcomes(sizes, n, draws, 0, 0);
      nelts == o.sizes && ok == o.ok && (!ok ==> Rejected(nelts, n, draws, o.next, |draws|))
    ensures ok <==> forall k :: 0 <= k < KSUB ==> nelts[k] > 0
    ensures SmallDraws(draws, n) ==> ok
    ensures (forall k :: 0 <= k < KSUB ==> sizes[k] > 0) ==> nelts == sizes && c[..] == old(c[..])
  {
    hide Populated, Uniform, Accepts, Repaired, IsSplit, Rejected, Settles;
    nelts, ok := sizes, true;
    var next: nat := 0;
    NothingSplit(sizes, n, c[..], c0, d);
    for k := 0 to KSUB
      invariant |nelts| == KSUB && Populated(nelts, n) && next <= |draws| && (SmallDraws(draws, n) ==> next <= k * KSUB)
      invariant Repaired(sizes, old(c[..]), nelts, c[..], c0, d, k)
      invariant Outcomes(sizes, n, draws, 0, 0) == Outcomes(nelts, n, draws, next, k)
      invariant forall i :: 0 <= i < k ==> nelts[i] > 0
      invariant (forall i :: 0 <= i < KSUB ==> sizes[i] > 0) ==> nelts == sizes && c[..] == old(c[..])
    {
      NoneNegative(nelts, n, k);
      if nelts[k] == 0 {
        var m, next', found := PickCluster(nelts, n, draws, next);
        if SmallDraws(draws, n) { SearchIsShort(nelts, n, k, draws, next, if found then next' - 1 else |draws|); }
        if !found {
          ok := false;
          MoreSplits(sizes, old(c[..]), nelts, c[..], c0, d, k, KSUB);
          return;
        }
        next := next';
        HalvesKeepSum(nelts, n, k, m);
        ghost var before := c[..];
        SplitCluster(c, k, m, c0, d);
        var half := nelts[m] / 2;
        NoneNegative(sizes, n, k);
        NoneNegative(sizes, n, m);
        SplitOnce(sizes, old(c[..]), nelts, before, k, m, half, c[..], c0, d, k);
        nelts := nelts[k := half][m := nelts[m] - half];
      } else {
        MoreSplits(sizes, old(c[..]), nelts, c[..], c0, d, k, k + 1);
      }
    }
  }

  lemma MoreSplits(sizes: seq<int>, c: seq<real>, nelts: seq<int>, c': seq<real>, c0: nat, d: nat, few: nat, many: nat)
    requires |sizes| == |nelts| == KSUB && Repaired(sizes, c, nelts, c', c0, d, few) && few <= many
    ensures Repaired(sizes, c, nelts, c', c0, d, many)
  {
    hide C;
    forall k | 0 <= k < KSUB && nelts[k] > 0 ensures HasOrigin(sizes, c, c', k, c0, d, many) {
      var m :| 0 <= m < KSUB && sizes[m] > 0 && (sizes[k] > 0 ==> m == k) && Beside(c, m, c', k, c0, d, few);
      forall j | 0 <= j < d ensures Close(C(c', c0, d, k, j), C(c, c0, d, m, j), many) {
        assert Close(C(c', c0, d, k, j), C(c, c0, d, m, j), few);
      }
      assert Beside(c, m, c', k, c0, d, many);
    }
  }

  /** The split of cluster `m` for the empty cluster `k`. */
  method SplitCluster(c: array<real>, k: nat, m: nat, c0: nat, d: nat)
    requires k < KSUB && m < KSUB && k != m && c0 + KSUB * d <= c.Length
    modifies c
    ensures IsSplit(old(c[..]), c[..], k, m, c0, d)
  {
    hide IsSplit, Nudge;
    ghost var before := c[..];
    BlockWithin(k, c0, d, c0 + KSUB * d);
    BlockWithin(m, c0, d, c0 + KSUB * d);
    ClustersApart(k, m, d);
    SplitCentroid(c, c0 + k * d, c0 + m * d, d);
    CellsAreSplit(before, c[..], k, m, c0, d);
  }

  lemma CellsAreSplit(c: seq<real>, c': seq<real>, k: nat, m: nat, c0: nat, d: nat)
    requires k < KSUB && m < KSUB && k != m && c0 + KSUB * d <= |c| == |c'|
    requires var ko := c0 + k * d; var mo := c0 + m * d; 0 <= ko && ko + d <= |c| && 0 <= mo && mo + d <= |c|
    requires var ko := c0 + k * d; var mo := c0 + m * d;
      forall p :: ko <= p < ko + d ==> c'[p] == c[mo + (p - ko)] + Nudge(p - ko)
    requires var mo := c0 + m * d; forall p :: mo <= p < mo + d ==> c'[p] == c[p] - Nudge(p - mo)
    requires var ko := c0 + k * d; var mo := c0 + m * d;
      forall p :: 0 <= p < |c| && !(ko <= p < ko + d) && !(mo <= p < mo + d) ==> c'[p] == c[p]
    ensures IsSplit(c, c', k, m, c0, d)
  {
    hide Nudge;
    BlockWithin(k, c0, d, c0 + KSUB * d);
    BlockWithin(m, c0, d, c0 + KSUB * d);
    forall i | 0 <= i < KSUB && i != k && i != m ensures Stays(c, c', c0, d, i) {
      BlockWithin(i, c0, d, |c|);
      forall j | 0 <= j < d ensures C(c', c0, d, i, j) == C(c, c0, d, i, j) {
        BlocksApart(i, j, k, d);
        BlocksApart(i, j, m, d);
      }
    }
  }

  lemma NoneNegative(nelts: seq<int>, n: nat, k: nat)
    requires Populated(nelts, n) && k < KSUB
    ensures nelts[k] >= 0
  {
  }
}
