/** Machine indices of `w` bits against the unbounded ones used elsewhere: as long as true distances stay below half the
    range, comparisons, masks, signed division and ring positions agree, however often the indices wrap. */
module WrapAround {
  import opened Modular
  import opened BlockIndex

  /** `half` is 2^(w-1).  Blocks and rings are powers of two below it, so they divide it. */
  predicate Width(half: nat) {
    half > 0 && half % BLOCK_SIZE == 0
  }

  /** The machine word of a true index. */
  function Wrap(x: int, half: nat): (r: nat)
    requires half > 0
    ensures r < 2 * half
  {
    x % (2 * half)
  }

  /** `circular_less_than` on machine words. */
  predicate CircularLess(a: nat, b: nat, half: nat)
    requires half > 0
  {
    Wrap(a - b, half) > half
  }

  lemma WrapDifference(x: int, y: int, half: nat)
    requires half > 0
    ensures Wrap(Wrap(x, half) - Wrap(y, half), half) == Wrap(x - y, half)
  {
    var m := 2 * half;
    CongruentMod(x, m);
    CongruentMod(y, m);
    CongruentAdd(Wrap(x, half), x, 0 - Wrap(y, half), m);
    var q := Quotient(Wrap(y, half), y, m);
    assert x - y == x - Wrap(y, half) + q * m;
    FromQuotient(x - y, x - Wrap(y, half), m, q);
  }

  lemma WrapNear(d: int, half: nat)
    requires half > 0 && -2 * half <= d < 2 * half
    ensures Wrap(d, half) == if d < 0 then d + 2 * half else d
  {
    if d < 0 {
      MultipleMod(-1, d + 2 * half, 2 * half);
      assert -1 * (2 * half) + (d + 2 * half) == d;
    } else {
      SmallMod(d, 2 * half);
    }
  }

  /** For true indices less than a whole range apart, the machine comparison is right exactly when the first is at most
      half a range ahead of, and less than half a range behind, the second. */
  lemma CircularLessIsExact(x: int, y: int, half: nat)
    requires half > 0 && -2 * half < y - x < 2 * half
    ensures (CircularLess(Wrap(x, half), Wrap(y, half), half) <==> x < y) <==> 0 <= y - x + half < 2 * half
  {
    WrapDifference(x, y, half);
    WrapNear(x - y, half);
  }

  /** What the producer and the dequeuers use: a signed difference is positive. */
  lemma PositiveDifference(d: int, half: nat)
    requires half > 0 && 0 <= d + half < 2 * half
    ensures CircularLess(0, Wrap(d, half), half) <==> 0 < d
  {
    SmallMod(0, 2 * half);
    CircularLessIsExact(0, d, half);
  }

  /** The guard of `enqueue`: refusing a new block exactly when its end would be half a range or more ahead of the
      head.  Passing it keeps the distance below half a range, which is what every other comparison needs. */
  lemma EnqueueGuard(head: int, tail: int, half: nat)
    requires half > BLOCK_SIZE && 0 <= tail - head < half
    ensures !CircularLess(Wrap(head, half), Wrap(tail + BLOCK_SIZE, half), half) <==> tail + BLOCK_SIZE - head >= half
    ensures CircularLess(Wrap(head, half), Wrap(tail + BLOCK_SIZE, half), half) ==> 0 < tail + BLOCK_SIZE - head < half
  {
    CircularLessIsExact(head, tail + BLOCK_SIZE, half);
  }

  // ---- blocks ----

  lemma WidthMultiple(half: nat)
    requires Width(half)
    ensures (2 * half) % BLOCK_SIZE == 0
  {
    DivisorTwice(half, BLOCK_SIZE);
  }

  /** Masking off the low bits gives the base of the block, wrapped. */
  lemma BaseMask(x: int, half: nat)
    requires Width(half)
    ensures Wrap(x, half) - Wrap(x, half) % BLOCK_SIZE == Wrap(x - x % BLOCK_SIZE, half)
    ensures Wrap(x, half) % BLOCK_SIZE == x % BLOCK_SIZE
  {
    var m := 2 * half;
    WidthMultiple(half);
    CongruentMod(x, m);
    CongruentDivisor(Wrap(x, half), x, m, BLOCK_SIZE);
    CongruentAdd(Wrap(x, half), x, 0 - x % BLOCK_SIZE, m);
    SmallMod(Wrap(x, half) - x % BLOCK_SIZE, m);
  }

  /** No block base ever wraps to the key that marks an unused entry. */
  lemma NeverInvalid(k: int, half: nat)
    requires Width(half)
    ensures Wrap(Base(k), half) != INVALID_BLOCK_BASE
  {
    BaseMask(Base(k), half);
    MultipleMod(k, 0, BLOCK_SIZE);
  }

  /** Wrapped keys are equal exactly when the block numbers are, as long as these are less than a range apart. */
  lemma KeysTellBlocksApart(j: int, k: int, half: nat)
    requires Width(half) && -2 * half < Base(k) - Base(j) < 2 * half
    ensures Wrap(Base(j), half) == Wrap(Base(k), half) <==> j == k
  {
    if Wrap(Base(j), half) == Wrap(Base(k), half) { CongruentClose(Base(j), Base(k), 2 * half); }
  }

  /** A machine word read as signed. */
  function Signed(v: nat, half: nat): int {
    if v < half then v else v - 2 * half
  }

  lemma SignedDifference(x: int, y: int, half: nat)
    requires half > 0 && 0 <= x - y + half < 2 * half
    ensures Signed(Wrap(Wrap(x, half) - Wrap(y, half), half), half) == x - y
  {
    WrapDifference(x, y, half);
    WrapNear(x - y, half);
  }

  /** The slot that the lookup computes from machine words: a signed difference, divided, added as a `size_t`,
      masked. */
  function MachineSlot(capacity: nat, tail: nat, tailKey: nat, key: nat, half: nat): nat
    requires half > 0 && capacity > 0
  {
    Wrap(tail + Wrap(TruncDiv(Signed(Wrap(key - tailKey, half), half), BLOCK_SIZE), half), half) % capacity
  }

  lemma WrapThenRing(tail: int, d: int, capacity: nat, half: nat)
    requires half > 0 && capacity > 0 && (2 * half) % capacity == 0
    ensures Wrap(tail + Wrap(d, half), half) % capacity == (tail + d) % capacity
  {
    var m := 2 * half;
    CongruentMod(d, m);
    CongruentAdd(Wrap(d, half), d, tail, m);
    assert Wrap(d, half) + tail == tail + Wrap(d, half) && d + tail == tail + d;
    CongruentMod(tail + Wrap(d, half), m);
    CongruentDivisor(Wrap(tail + Wrap(d, half), half), tail + d, m, capacity);
  }

  /** The machine lookup is the lookup on true indices, for any block less than half a range from the tail's. */
  lemma LookupAgrees(hd: Header, tail: nat, q: int, k: int, half: nat)
    requires Width(half) && hd.capacity > 0 && (2 * half) % hd.capacity == 0 && 0 <= Base(k) - Base(q) + half < 2 * half
    ensures MachineSlot(hd.capacity, tail, Wrap(Base(q), half), Wrap(Base(k), half), half) ==
      LookupSlot(hd, tail, Base(q), Base(k))
  {
    SignedDifference(Base(k), Base(q), half);
    WrapThenRing(tail, TruncDiv(Base(k) - Base(q), BLOCK_SIZE), hd.capacity, half);
  }
}
