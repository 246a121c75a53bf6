/** Finite sums of reals. */
module RealSums {
  function SumTo(n: nat, f: int -> real): real {
    if n == 0 then 0.0 else SumTo(n - 1, f) + f(n - 1)
  }

  /** An element, or zero beyond the end. */
  function At(x: seq<real>, i: int): real {
    if 0 <= i < |x| then x[i] else 0.0
  }

  function Sq(a: real): real {
    a * a
  }

  lemma {:induction false} SumSame(n: nat, f: int -> real, g: int -> real)
    requires forall i :: 0 <= i < n ==> f(i) == g(i)
    ensures SumTo(n, f) == SumTo(n, g)
  {
    if n > 0 { SumSame(n - 1, f, g); }
  }

  lemma {:induction false} SumAtMost(n: nat, f: int -> real, g: int -> real)
    requires forall i :: 0 <= i < n ==> f(i) <= g(i)
    ensures SumTo(n, f) <= SumTo(n, g)
  {
    if n > 0 { SumAtMost(n - 1, f, g); }
  }

  lemma {:induction false} SumZero(n: nat, f: int -> real)
    requires forall i :: 0 <= i < n ==> f(i) == 0.0
    ensures SumTo(n, f) == 0.0
  {
    if n > 0 { SumZero(n - 1, f); }
  }

  lemma {:induction false} SumPlus(n: nat, f: int -> real, g: int -> real, h: int -> real)
    requires forall i :: 0 <= i < n ==> h(i) == f(i) + g(i)
    ensures SumTo(n, h) == SumTo(n, f) + SumTo(n, g)
  {
    if n > 0 { SumPlus(n - 1, f, g, h); }
  }

  /** A sum of which only one term is not zero. */
  lemma {:induction false} SumSingle(n: nat, f: int -> real, k: int)
    requires 0 <= k < n && forall i :: 0 <= i < n && i != k ==> f(i) == 0.0
    ensures SumTo(n, f) == f(k)
  {
    if k == n - 1 { SumZero(n - 1, f); } else { SumSingle(n - 1, f, k); }
  }

  /** A sum in two parts. */
  lemma {:induction false} SumSplit(a: nat, b: nat, f: int -> real, g: int -> real)
    requires forall i :: 0 <= i < b ==> g(i) == f(a + i)
    ensures SumTo(a + b, f) == SumTo(a, f) + SumTo(b, g)
  {
    if b > 0 { SumSplit(a, b - 1, f, g); }
  }

  ghost function RowSum(f: (int, int) -> real, m: nat): int -> real {
    i => SumTo(m, j => f(i, j))
  }

  ghost function ColumnSum(f: (int, int) -> real, n: nat): int -> real {
    j => SumTo(n, i => f(i, j))
  }

  /** Rows first or columns first. */
  lemma {:induction false} SumSwap(n: nat, m: nat, f: (int, int) -> real)
    ensures SumTo(n, RowSum(f, m)) == SumTo(m, ColumnSum(f, n))
  {
    if n == 0 {
      SumZero(m, ColumnSum(f, 0));
    } else {
      SumSwap(n - 1, m, f);
      var last: int -> real := j => f(n - 1, j);
      forall j | 0 <= j < m ensures ColumnSum(f, n)(j) == ColumnSum(f, n - 1)(j) + last(j) {
        SumSame(n - 1, i => f(i, j), i => f(i, j));
      }
      SumPlus(m, ColumnSum(f, n - 1), last, ColumnSum(f, n));
      SumSame(m, last, j => f(n - 1, j));
    }
  }
}
