/** Character n-grams of a word and their hashes, on bytes. */
module Subwords {
  type Bytes = seq<bv8>

  /** `minn`, `maxn`, `bucket` and `wordNgrams` are C++ ints; `prefix` marks a label. */
  datatype Args = Args(minn: int, maxn: int, bucket: int, wordNgrams: int, prefix: Bytes)

  const TWO_64: nat := 0x1_0000_0000_0000_0000
  const TWO_32: nat := 0x1_0000_0000

  /** A signed value compared with a `size_t`. */
  function AsSize(x: int): nat
    requires -0x8000_0000 <= x
  {
    if x < 0 then x + TWO_64 else x
  }

  /** FNV-1a as released models use it: each byte sign-extended before the exclusive or. */
  function SignExtend(c: bv8): bv32 {
    if c & 0x80 == 0 then c as bv32 else 0xFFFF_FF00 | (c as bv32)
  }

  function Mix(h: bv32, c: bv8): bv32 {
    (h ^ SignExtend(c)) * 16777619
  }

  function HashBytes(s: Bytes): bv32 {
    if |s| == 0 then 2166136261 else Mix(HashBytes(s[..|s| - 1]), s[|s| - 1])
  }

  function Hash(s: Bytes): (h: nat)
    ensures h < TWO_32
  {
    HashBytes(s) as int
  }

  method ComputeHash(s: Bytes) returns (h: bv32)
    ensures h == HashBytes(s)
  {
    hide Mix;
    h := 2166136261;
    for i := 0 to |s|
      invariant h == HashBytes(s[..i])
    {
      assert s[..i + 1][..i] == s[..i];
      h := Mix(h, s[i]);
    }
    assert s[..|s|] == s;
  }

  predicate Continues(c: bv8) {
    c & 0xC0 == 0x80
  }

  /** The next character boundary at or after `j`. */
  function Boundary(w: Bytes, j: nat): (k: nat)
    requires j <= |w|
    ensures j <= k <= |w| && (k < |w| ==> !Continues(w[k])) && forall m :: j <= m < k ==> Continues(w[m])
    decreases |w| - j
  {
    if j < |w| && Continues(w[j]) then Boundary(w, j + 1) else j
  }

  /** An n-gram of `n` characters from `i` to `k` counts unless it is too short, or a boundary marker by itself. */
  predicate Counts(a: Args, w: Bytes, i: nat, k: nat, n: nat)
    requires -0x8000_0000 <= a.minn
  {
    n >= AsSize(a.minn) && !(n == 1 && (i == 0 || k == |w|))
  }

  predicate Sizes(a: Args) {
    -0x8000_0000 <= a.minn && -0x8000_0000 <= a.maxn
  }

  /** The n-grams starting at `i` that extend beyond `j`, where `n - 1` characters lie before `j`. */
  function NgramsFrom(a: Args, w: Bytes, i: nat, j: nat, n: nat): seq<Bytes>
    requires i <= j <= |w| && Sizes(a)
    decreases |w| - j
  {
    if j >= |w| || n > AsSize(a.maxn) then [] else
    var k := Boundary(w, j + 1);
    (if Counts(a, w, i, k, n) then [w[i..k]] else []) + NgramsFrom(a, w, i, k, n + 1)
  }

  function NgramsAt(a: Args, w: Bytes, i: nat): seq<Bytes>
    requires i < |w| && Sizes(a)
  {
    if Continues(w[i]) then [] else NgramsFrom(a, w, i, i, 1)
  }

  /** All n-grams that start before `upTo`, in the order in which they are made. */
  function Ngrams(a: Args, w: Bytes, upTo: nat): seq<Bytes>
    requires upTo <= |w| && Sizes(a)
  {
    if upTo == 0 then [] else Ngrams(a, w, upTo - 1) + NgramsAt(a, w, upTo - 1)
  }

  // ---- what n-grams are ----

  /** How many characters start in `i .. k`. */
  ghost function Characters(w: Bytes, i: nat, k: nat): nat
    requires i <= k <= |w|
  {
    if i == k then 0 else Characters(w, i, k - 1) + (if Continues(w[k - 1]) then 0 else 1)
  }

  ghost predicate AtBoundary(w: Bytes, k: nat) {
    k <= |w| && (k < |w| ==> !Continues(w[k]))
  }

  /** `g` is a run of whole characters of `w`, between `minn` and `maxn` of them, and not a single first or last one. */
  ghost predicate IsNgram(a: Args, w: Bytes, i: nat, k: nat)
    requires Sizes(a)
  {
    && i < k <= |w| && AtBoundary(w, i) && AtBoundary(w, k)
    && Characters(w, i, k) <= AsSize(a.maxn) && Counts(a, w, i, k, Characters(w, i, k))
  }

  lemma {:induction false} CharactersStep(w: Bytes, i: nat, j: nat, k: nat)
    requires i <= j < k <= |w| && AtBoundary(w, j) && forall m :: j < m < k ==> Continues(w[m])
    ensures Characters(w, i, k) == Characters(w, i, j) + 1
  {
    if k > j + 1 { CharactersStep(w, i, j, k - 1); }
  }

  lemma {:induction false} CharactersGrow(w: Bytes, i: nat, j: nat, k: nat)
    requires i <= j <= k <= |w|
    ensures Characters(w, i, j) <= Characters(w, i, k)
  {
    if j < k { CharactersGrow(w, i, j, k - 1); }
  }

  lemma NoneBetween(w: Bytes, j: nat)
    requires j < |w|
    ensures forall m :: j < m < Boundary(w, j + 1) ==> !AtBoundary(w, m)
  {
    forall m | j < m < Boundary(w, j + 1) ensures !AtBoundary(w, m) { assert Continues(w[m]); }
  }

  /** The n-grams found from one start: exactly the runs of whole characters that end beyond `j`. */
  lemma {:induction false} NgramsFromAre(a: Args, w: Bytes, i: nat, j: nat, n: nat, g: Bytes)
    requires i <= j <= |w| && Sizes(a) && i < |w| && AtBoundary(w, i) && AtBoundary(w, j) &&
      n == Characters(w, i, j) + 1
    ensures g in NgramsFrom(a, w, i, j, n) <==> exists k :: j < k <= |w| && IsNgram(a, w, i, k) && g == w[i..k]
    decreases |w| - j
  {
    if j < |w| && n <= AsSize(a.maxn) {
      var k := Boundary(w, j + 1);
      CharactersStep(w, i, j, k);
      NgramsFromAre(a, w, i, k, n + 1, g);
      NoneBetween(w, j);
      assert Counts(a, w, i, k, n) <==> IsNgram(a, w, i, k);
    } else {
      forall k | j < k <= |w| && AtBoundary(w, k) ensures !IsNgram(a, w, i, k) {
        var m := Boundary(w, j + 1);
        CharactersStep(w, i, j, m);
        NoneBetween(w, j);
        CharactersGrow(w, i, m, k);
      }
    }
  }

  /** `g` is an n-gram of `w` that starts at `i`. */
  ghost predicate NgramStarting(a: Args, w: Bytes, i: nat, g: Bytes)
    requires Sizes(a)
  {
    exists k: nat :: IsNgram(a, w, i, k) && g == w[i..k]
  }

  lemma NgramsAtAre(a: Args, w: Bytes, i: nat, g: Bytes)
    requires Sizes(a) && i < |w|
    ensures g in NgramsAt(a, w, i) <==> NgramStarting(a, w, i, g)
  {
    if !Continues(w[i]) { NgramsFromAre(a, w, i, i, 1, g); }
  }

  /** `computeSubwords` finds exactly the runs of between `minn` and `maxn` whole characters of the word, leaving out
      the first and the last character by themselves. */
  lemma {:induction false} NgramsAre(a: Args, w: Bytes, upTo: nat, g: Bytes)
    requires Sizes(a) && upTo <= |w|
    ensures g in Ngrams(a, w, upTo) <==> exists i: nat :: i < upTo && NgramStarting(a, w, i, g)
  {
    hide NgramStarting, NgramsAt;
    if upTo > 0 {
      NgramsAre(a, w, upTo - 1, g);
      NgramsAtAre(a, w, upTo - 1, g);
    }
  }
}
