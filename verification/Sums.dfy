/** Sums over sequences, for invariants that add up what every thread holds. */
module Sums {
  ghost function Sum<T>(s: seq<T>, f: T -> int): int {
    if |s| == 0 then 0 else Sum(s[..|s| - 1], f) + f(s[|s| - 1])
  }

  lemma {:induction false} SumUpdate<T>(s: seq<T>, i: nat, x: T, f: T -> int)
    requires i < |s|
    ensures Sum(s[i := x], f) == Sum(s, f) - f(s[i]) + f(x)
  {
    var last := |s| - 1;
    if i < last {
      assert s[i := x][..last] == s[..last][i := x];
      SumUpdate(s[..last], i, x, f);
    } else {
      assert s[i := x][..last] == s[..last];
    }
  }

  lemma {:induction false} SumAll<T>(s: seq<T>, f: T -> int, v: int)
    requires forall i :: 0 <= i < |s| ==> f(s[i]) == v
    ensures Sum(s, f) == |s| * v
  {
    if |s| > 0 {
      SumAll(s[..|s| - 1], f, v);
    }
  }

  /** A sum of non-negative terms is at least each of them. */
  lemma {:induction false} SumAtLeast<T>(s: seq<T>, f: T -> int, i: nat)
    requires forall j :: 0 <= j < |s| ==> f(s[j]) >= 0
    requires i < |s|
    ensures Sum(s, f) >= f(s[i])
  {
    var last := |s| - 1;
    if i < last {
      SumAtLeast(s[..last], f, i);
    } else {
      SumNonNegative(s[..last], f);
    }
  }

  lemma {:induction false} SumNonNegative<T>(s: seq<T>, f: T -> int)
    requires forall j :: 0 <= j < |s| ==> f(s[j]) >= 0
    ensures Sum(s, f) >= 0
  {
    if |s| > 0 {
      SumNonNegative(s[..|s| - 1], f);
    }
  }
}
