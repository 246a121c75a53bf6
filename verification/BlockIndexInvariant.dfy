/** The index invariant: arrays that share an entry agree on the block numbers it stands for, and every live block
    is found through the current array. */
module BlockIndexInvariant {
  import opened Options
  import opened Modular
  import opened BlockIndex

  ghost predicate Injective(index: seq<nat>) {
    forall i, j :: 0 <= i < j < |index| ==> index[i] != index[j]
  }

  /** The key at this slot is a block base whose number belongs in this slot of this array. */
  ghost predicate KeyInPlace(r: Ring, h: nat, slot: nat) {
    && h < |r.headers| && HeaderShape(r, h) && slot < r.headers[h].capacity
    && var key := EntryAt(r, h, slot).key;
      key == Base(key / BLOCK_SIZE) && slot == Slot(r.headers[h], key / BLOCK_SIZE)
  }

  /** A shared entry stands for the same block numbers, modulo the smaller capacity, in both arrays. */
  ghost predicate AlignedAt(a: Header, b: Header, i: nat, j: nat)
    requires a.capacity > 0
  {
    Congruent(i - a.shift, j - b.shift, a.capacity)
  }

  ghost predicate Aligned(a: Header, b: Header)
    requires 0 < a.capacity == |a.index| && |b.index| == b.capacity
  {
    && b.capacity % a.capacity == 0
    && (forall i, j :: 0 <= i < a.capacity && 0 <= j < b.capacity && a.index[i] == b.index[j] ==> AlignedAt(a, b, i, j))
  }

  ghost predicate HeaderInv(r: Ring, h: nat)
    requires |r.headers| > 0 && HeaderShape(r, Current(r)) && h < |r.headers|
  {
    HeaderShape(r, h) && Injective(r.headers[h].index) && Aligned(r.headers[h], r.headers[Current(r)])
  }

  ghost predicate RingInv(r: Ring) {
    && Usable(r)
    && (forall h :: 0 <= h < |r.headers| ==> HeaderInv(r, h))
    && r.headers[Current(r)].tail == Slot(r.headers[Current(r)], r.last)
  }

  /** The entry that block number `k` has in array `h`. */
  ghost function EntryOf(r: Ring, h: nat, k: int): Entry
    requires h < |r.headers| && HeaderShape(r, h)
  {
    CongruentMod(k + r.headers[h].shift, r.headers[h].capacity);
    EntryAt(r, h, Slot(r.headers[h], k))
  }

  /** A lookup of block number `k` through array `h` finds block `b`. */
  ghost predicate Found(r: Ring, h: nat, k: int, b: Block) {
    h < |r.headers| && HeaderShape(r, h) && EntryOf(r, h, k) == Entry(Base(k), Some(b))
  }

  /** Everything from live block `q` up to the newest sits, under its own key, within one turn of the ring. */
  ghost predicate LiveAt(r: Ring, top: int, q: int, b: Block) {
    && Usable(r)
    && 0 <= q <= top && top - q < r.headers[Current(r)].capacity
    && (forall k :: q <= k <= top ==> EntryOf(r, Current(r), k).key == Base(k))
    && EntryOf(r, Current(r), q).value == Some(b)
  }

  ghost predicate LiveInv(r: Ring, top: int, live: map<int, Block>) {
    forall q :: q in live ==> LiveAt(r, top, q, live[q])
  }

  lemma FirstInv(garbage: seq<Option<Block>>)
    requires |garbage| == INITIAL_INDEX_SIZE
    ensures RingInv(First(garbage))
  {
    var r := First(garbage);
    assert Aligned(r.headers[0], r.headers[0]);
    assert HeaderShape(r, 0) && HeaderInv(r, 0);
  }

  lemma NewTailIsNextSlot(r: Ring)
    requires RingInv(r)
    ensures NewTail(r) == Slot(r.headers[Current(r)], r.last + 1)
    ensures EntryOf(r, Current(r), r.last + 1) == r.entries[NewEntry(r)]
  {
    var hd := r.headers[Current(r)];
    Step(r.last + hd.shift, hd.capacity);
    assert r.last + 1 + hd.shift == r.last + hd.shift + 1;
  }

  /** The slot looked up from any key in place is the block's own slot. */
  lemma LookupIsSlot(r: Ring, h: nat, tail: nat, k: int)
    requires KeyInPlace(r, h, tail)
    ensures LookupSlot(r.headers[h], tail, EntryAt(r, h, tail).key, Base(k)) == Slot(r.headers[h], k)
  {
    var hd := r.headers[h];
    var q := EntryAt(r, h, tail).key / BLOCK_SIZE;
    assert TruncDiv(Base(k) - Base(q), BLOCK_SIZE) == k - q;
    CongruentMod(q + hd.shift, hd.capacity);
    CongruentAdd((q + hd.shift) % hd.capacity, q + hd.shift, k - q, hd.capacity);
    assert q + hd.shift + (k - q) == k + hd.shift;
  }

  /** Block numbers less than one turn apart have different entries. */
  lemma DistinctSlots(r: Ring, h: nat, j: int, k: int)
    requires h < |r.headers| && HeaderShape(r, h) && j < k < j + r.headers[h].capacity
    ensures Slot(r.headers[h], j) != Slot(r.headers[h], k)
  {
    var hd := r.headers[h];
    if Slot(hd, j) == Slot(hd, k) {
      CongruentClose(j + hd.shift, k + hd.shift, hd.capacity);
    }
  }

  lemma AlignedSlot(r: Ring, h: nat, i: nat, k: int)
    requires RingInv(r) && h < |r.headers| && HeaderShape(r, h) && i < r.headers[h].capacity
    requires r.headers[h].index[i] == r.headers[Current(r)].index[Slot(r.headers[Current(r)], k)]
    ensures i == Slot(r.headers[h], k)
  {
    var a, b := r.headers[h], r.headers[Current(r)];
    var j := Slot(b, k);
    assert HeaderInv(r, h);
    CongruentMod(k + b.shift, b.capacity);
    assert AlignedAt(a, b, i, j);
    CongruentDivisor(j, k + b.shift, b.capacity, a.capacity);
    CongruentAdd(j, k + b.shift, a.shift - b.shift, a.capacity);
    CongruentAdd(i - a.shift, j - b.shift, a.shift, a.capacity);
    assert k + b.shift + (a.shift - b.shift) == k + a.shift && j + (a.shift - b.shift) == j - b.shift + a.shift &&
      i - a.shift + a.shift == i;
    SmallMod(i, a.capacity);
  }

  // ---- storing a key: the first half of an insertion ----

  function InsertKey(r: Ring): Ring
    requires Usable(r)
  {
    StoreKey(r, NewEntry(r), Base(r.last + 1))
  }

  lemma InsertKeyInv(r: Ring)
    requires RingInv(r)
    ensures RingInv(InsertKey(r))
  {
    var r' := InsertKey(r);
    forall h | 0 <= h < |r'.headers| ensures HeaderShape(r', h) && HeaderInv(r', h) {
      assert HeaderInv(r, h);
    }
  }

  lemma InsertKeyInPlace(r: Ring, h: nat, slot: nat)
    requires RingInv(r) && KeyInPlace(r, h, slot)
    ensures KeyInPlace(InsertKey(r), h, slot)
  {
    NewTailIsNextSlot(r);
    if r.headers[h].index[slot] == NewEntry(r) {
      AlignedSlot(r, h, slot, r.last + 1);
    }
  }

  /** The slot taken is never that of a live block, however old: a free slot ahead of the tail means every live
      block is less than one turn behind the block being inserted. */
  lemma InsertKeyLive(r: Ring, live: map<int, Block>)
    requires RingInv(r) && LiveInv(r, r.last, live) && IsFree(r, NewEntry(r))
    ensures LiveInv(InsertKey(r), r.last, live)
    ensures forall q :: q in live ==> r.last + 1 - q < r.headers[Current(r)].capacity
    ensures EntryOf(InsertKey(r), Current(r), r.last + 1).key == Base(r.last + 1)
  {
    var r' := InsertKey(r);
    var hd := r.headers[Current(r)];
    NewTailIsNextSlot(r);
    InsertKeyInv(r);
    assert HeaderInv(r, Current(r));
    forall q | q in live ensures LiveAt(r', r.last, q, live[q]) && r.last + 1 - q < hd.capacity {
      assert LiveAt(r, r.last, q, live[q]);
      if r.last + 1 - q == hd.capacity {
        FromQuotient(r.last + 1 + hd.shift, q + hd.shift, hd.capacity, 1);
      }
      forall k | q <= k <= r.last ensures EntryOf(r', Current(r'), k) == EntryOf(r, Current(r), k) {
        DistinctSlots(r, Current(r), k, r.last + 1);
      }
    }
  }

  lemma InsertKeyFound(r: Ring, h: nat, k: int, b: Block)
    requires Usable(r) && Found(r, h, k, b) && IsFree(r, NewEntry(r))
    ensures Found(InsertKey(r), h, k, b)
  {
  }

  // ---- moving the tail ----

  lemma AlignedIgnoresTail(a: Header, b: Header, a': Header, b': Header)
    requires 0 < a.capacity == |a.index| && |b.index| == b.capacity && Aligned(a, b)
    requires a' == a.(tail := a'.tail) && b' == b.(tail := b'.tail)
    ensures Aligned(a', b')
  {
    forall i, j | 0 <= i < a'.capacity && 0 <= j < b'.capacity && a'.index[i] == b'.index[j]
      ensures AlignedAt(a', b', i, j) {
      assert AlignedAt(a, b, i, j);
    }
  }

  lemma StoreTailInv(r: Ring, tail: nat, last: int)
    requires RingInv(r) && tail == Slot(r.headers[Current(r)], last)
    ensures RingInv(StoreTail(r, tail, last))
  {
    var r' := StoreTail(r, tail, last);
    var c := Current(r);
    CongruentMod(last + r.headers[c].shift, r.headers[c].capacity);
    forall h | 0 <= h < |r'.headers| ensures HeaderShape(r', h) && HeaderInv(r', h) {
      assert HeaderInv(r, h);
      AlignedIgnoresTail(r.headers[h], r.headers[c], r'.headers[h], r'.headers[c]);
    }
  }

  lemma StoreTailFrame(r: Ring, tail: nat, last: int, h: nat)
    requires Usable(r) && h < |r.headers| && HeaderShape(r, h) && tail < r.headers[Current(r)].capacity
    ensures var r' := StoreTail(r, tail, last);
      && HeaderShape(r', h) && r'.headers[h] == r.headers[h].(tail := r'.headers[h].tail)
      && (h != Current(r) ==> r'.headers[h] == r.headers[h])
      && forall k :: EntryOf(r', h, k) == EntryOf(r, h, k)
  {
  }

  lemma StoreTailLive(r: Ring, tail: nat, last: int, top: int, live: map<int, Block>)
    requires Usable(r) && LiveInv(r, top, live) && tail < r.headers[Current(r)].capacity &&
      Usable(StoreTail(r, tail, last))
    ensures LiveInv(StoreTail(r, tail, last), top, live)
  {
    StoreTailFrame(r, tail, last, Current(r));
    forall q | q in live ensures LiveAt(StoreTail(r, tail, last), top, q, live[q]) {
      assert LiveAt(r, top, q, live[q]);
    }
  }

  lemma AdvanceInv(r: Ring)
    requires RingInv(r)
    ensures RingInv(Advance(r))
  {
    NewTailIsNextSlot(r);
    StoreTailInv(r, NewTail(r), r.last + 1);
  }

  lemma RewindInv(r: Ring)
    requires RingInv(r)
    ensures RingInv(Rewind(r))
  {
    var hd := r.headers[Current(r)];
    CongruentMod(r.last + hd.shift, hd.capacity);
    CongruentAdd((r.last + hd.shift) % hd.capacity, r.last + hd.shift, -1, hd.capacity);
    assert r.last + hd.shift + -1 == r.last - 1 + hd.shift;
    StoreTailInv(r, (hd.tail - 1) % hd.capacity, r.last - 1);
  }

  // ---- storing a value ----

  lemma StoreValueInv(r: Ring, e: nat, value: Option<Block>)
    requires RingInv(r) && e < |r.entries|
    ensures RingInv(StoreValue(r, e, value))
  {
    var r' := StoreValue(r, e, value);
    forall h | 0 <= h < |r'.headers| ensures HeaderShape(r', h) && HeaderInv(r', h) {
      assert HeaderInv(r, h);
    }
  }

  lemma StoreValueInPlace(r: Ring, e: nat, value: Option<Block>, h: nat, slot: nat)
    requires e < |r.entries| && KeyInPlace(r, h, slot)
    ensures KeyInPlace(StoreValue(r, e, value), h, slot)
  {
  }

  /** Clearing or filling the entry of a block that is not live disturbs no live one. */
  lemma StoreValueLive(r: Ring, e: nat, value: Option<Block>, top: int, live: map<int, Block>)
    requires RingInv(r) && LiveInv(r, top, live) && e < |r.entries|
    requires forall q :: q in live ==> r.entries[e].key != Base(q)
    ensures LiveInv(StoreValue(r, e, value), top, live)
  {
    var r' := StoreValue(r, e, value);
    StoreValueInv(r, e, value);
    forall q | q in live ensures LiveAt(r', top, q, live[q]) {
      assert LiveAt(r, top, q, live[q]);
      forall k | q <= k <= top ensures EntryOf(r', Current(r'), k).key == Base(k) {
        assert EntryOf(r, Current(r), k).key == Base(k);
      }
      assert EntryOf(r, Current(r), q).key == Base(q);
    }
  }

  lemma StoreValueFound(r: Ring, e: nat, value: Option<Block>, h: nat, k: int, b: Block)
    requires e < |r.entries| && Found(r, h, k, b) && r.entries[e].key != Base(k)
    ensures Found(StoreValue(r, e, value), h, k, b)
  {
  }

  /** Publishing the newest block makes it live. */
  lemma StoreValueNew(r: Ring, e: nat, b: Block, live: map<int, Block>)
    requires RingInv(r) && LiveInv(r, r.last, live) && r.last !in live && r.last >= 0
    requires e == r.headers[Current(r)].index[Slot(r.headers[Current(r)], r.last)] && r.entries[e].key == Base(r.last)
    ensures LiveInv(StoreValue(r, e, Some(b)), r.last, live[r.last := b])
  {
    StoreValueLive(r, e, Some(b), r.last, live);
    StoreValueInv(r, e, Some(b));
  }

  // ---- doubling ----

  lemma CapacityDivides(c: nat)
    requires c > 0
    ensures c % c == 0 && (2 * c) % c == 0 && (2 * c) % (2 * c) == 0
  {
    MultipleMod(1, 0, c);
    MultipleMod(2, 0, c);
    MultipleMod(1, 0, 2 * c);
  }

  lemma RotatedAligned(prev: Header, last: int, i: nat, j: nat)
    requires 0 < prev.capacity == |prev.index| && Injective(prev.index) && i < prev.capacity && j < prev.capacity
    requires prev.tail == Slot(prev, last) && prev.index[i] == Rotated(prev)[j]
    ensures Congruent(i - prev.shift, j - (prev.capacity - 1 - last), prev.capacity)
  {
    var c := prev.capacity;
    assert i == (prev.tail + 1 + j) % c;
    CongruentMod(prev.tail + 1 + j, c);
    CongruentMod(last + prev.shift, c);
    CongruentAdd(prev.tail, last + prev.shift, 1 + j - prev.shift, c);
    CongruentAdd(i, prev.tail + 1 + j, -prev.shift, c);
    assert last + prev.shift + (1 + j - prev.shift) == last + 1 + j;
    assert prev.tail + 1 + j + -prev.shift == prev.tail + (1 + j - prev.shift);
    FromQuotient(last + 1 + j, j - (c - 1 - last), c, 1);
  }

  lemma RotatedInjective(prev: Header)
    requires 0 < prev.capacity == |prev.index| && Injective(prev.index)
    ensures Injective(Rotated(prev))
  {
    forall i, j | 0 <= i < j < prev.capacity ensures Rotated(prev)[i] != Rotated(prev)[j] {
      var a, b := (prev.tail + 1 + i) % prev.capacity, (prev.tail + 1 + j) % prev.capacity;
      if a == b {
        CongruentClose(prev.tail + 1 + i, prev.tail + 1 + j, prev.capacity);
      }
      assert a < b || b < a;
    }
  }

  lemma GrowAligned(r: Ring, garbage: seq<Option<Block>>)
    requires RingInv(r) && |garbage| == r.headers[Current(r)].capacity
    ensures var r' := Grow(r, garbage); var b := r'.headers[Current(r')];
      && Injective(b.index) && HeaderShape(r', Current(r')) && Aligned(r.headers[Current(r)], b) && Aligned(b, b)
      && b.tail == Slot(b, r'.last)
  {
    var prev := r.headers[Current(r)];
    var r' := Grow(r, garbage);
    var b := r'.headers[Current(r')];
    assert HeaderInv(r, Current(r));
    CapacityDivides(prev.capacity);
    forall i, j | 0 <= i < prev.capacity && 0 <= j < b.capacity && prev.index[i] == b.index[j]
      ensures AlignedAt(prev, b, i, j) {
      assert j < prev.capacity;
      RotatedAligned(prev, r.last, i, j);
    }
    RotatedInjective(prev);
    SmallMod(prev.capacity - 1, b.capacity);
    assert b.index == Rotated(prev) + Fresh(|r.entries|, prev.capacity);
    forall i, j | 0 <= i < b.capacity && 0 <= j < b.capacity && b.index[i] == b.index[j] ensures AlignedAt(b, b, i, j) {
      assert i == j;
    }
  }

  lemma AlignedTrans(a: Header, b: Header, c: Header)
    requires 0 < a.capacity == |a.index| && 0 < b.capacity == |b.index| && |c.index| == c.capacity
    requires Aligned(a, b) && Aligned(b, c) && c.capacity == 2 * b.capacity
    requires forall i, j :: 0 <= i < a.capacity && 0 <= j < c.capacity && a.index[i] == c.index[j] ==>
      c.index[j] in b.index
    ensures Aligned(a, c)
  {
    DivisorTwice(b.capacity, a.capacity);
    forall i, j | 0 <= i < a.capacity && 0 <= j < c.capacity && a.index[i] == c.index[j] ensures AlignedAt(a, c, i, j) {
      var k :| 0 <= k < b.capacity && b.index[k] == c.index[j];
      assert AlignedAt(a, b, i, k) && AlignedAt(b, c, k, j);
      CongruentDivisor(k - b.shift, j - c.shift, b.capacity, a.capacity);
    }
  }

  lemma GrowInv(r: Ring, garbage: seq<Option<Block>>)
    requires RingInv(r) && |garbage| == r.headers[Current(r)].capacity
    ensures RingInv(Grow(r, garbage))
  {
    var r' := Grow(r, garbage);
    var b := r'.headers[Current(r')];
    GrowAligned(r, garbage);
    assert HeaderInv(r, Current(r));
    forall h | 0 <= h < |r'.headers| ensures HeaderShape(r', h) && HeaderInv(r', h) {
      if h < |r.headers| {
        assert HeaderInv(r, h);
        AlignedTrans(r.headers[h], r.headers[Current(r)], b);
      }
    }
  }

  lemma GrowInPlace(r: Ring, garbage: seq<Option<Block>>, h: nat, slot: nat)
    requires RingInv(r) && |garbage| == r.headers[Current(r)].capacity && KeyInPlace(r, h, slot)
    ensures KeyInPlace(Grow(r, garbage), h, slot)
  {
  }

  lemma GrowFound(r: Ring, garbage: seq<Option<Block>>, h: nat, k: int, b: Block)
    requires Usable(r) && |garbage| == r.headers[Current(r)].capacity && Found(r, h, k, b)
    ensures Found(Grow(r, garbage), h, k, b)
  {
  }

  /** Within one turn behind the tail the doubled array holds exactly what the old one held. */
  lemma GrowKeepsTurn(r: Ring, garbage: seq<Option<Block>>, k: int)
    requires RingInv(r) && |garbage| == r.headers[Current(r)].capacity
    requires r.last - r.headers[Current(r)].capacity < k <= r.last
    ensures var r' := Grow(r, garbage);
      HeaderShape(r', Current(r')) && EntryOf(r', Current(r'), k) == EntryOf(r, Current(r), k)
  {
    GrowAligned(r, garbage);
    var prev := r.headers[Current(r)];
    var r' := Grow(r, garbage);
    var b := r'.headers[Current(r')];
    var j := prev.capacity - 1 - (r.last - k);
    SmallMod(j, b.capacity);
    assert Slot(b, k) == j;
    var i := (prev.tail + 1 + j) % prev.capacity;
    CongruentMod(prev.tail + 1 + j, prev.capacity);
    assert b.index[j] == Rotated(prev)[j] == prev.index[i];
    CongruentMod(r.last + prev.shift, prev.capacity);
    CongruentAdd(prev.tail, r.last + prev.shift, k - r.last + prev.capacity, prev.capacity);
    FromQuotient(r.last + prev.shift + (k - r.last + prev.capacity), k + prev.shift, prev.capacity, 1);
    assert i == Slot(prev, k);
  }

  lemma GrowLive(r: Ring, garbage: seq<Option<Block>>, live: map<int, Block>)
    requires RingInv(r) && |garbage| == r.headers[Current(r)].capacity && LiveInv(r, r.last, live)
    ensures LiveInv(Grow(r, garbage), r.last, live)
  {
    var r' := Grow(r, garbage);
    GrowInv(r, garbage);
    forall q | q in live ensures LiveAt(r', r.last, q, live[q]) {
      assert LiveAt(r, r.last, q, live[q]);
      GrowKeepsTurn(r, garbage, q);
      forall k | q <= k <= r.last ensures EntryOf(r', Current(r'), k).key == Base(k) {
        GrowKeepsTurn(r, garbage, k);
      }
    }
  }

  /** After doubling the next slot has never been used, as the source asserts. */
  lemma GrowMakesRoom(r: Ring, garbage: seq<Option<Block>>)
    requires RingInv(r) && |garbage| == r.headers[Current(r)].capacity
    ensures var r' := Grow(r, garbage); Usable(r') && r'.entries[NewEntry(r')].key == INVALID_BLOCK_BASE
  {
    GrowInv(r, garbage);
    var prev := r.headers[Current(r)];
    SmallMod(prev.capacity, 2 * prev.capacity);
  }
}
