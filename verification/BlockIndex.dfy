/** The block index of an implicit producer: a ring of entries, shared between successive index arrays, that maps
    an element index to the block holding it.  The operations below are those of the source on one ring. */
module BlockIndex {
  import opened Options
  import opened Modular

  type Block = nat

  const BLOCK_SIZE: nat := 32
  const INVALID_BLOCK_BASE: int := 1
  const INITIAL_INDEX_SIZE: nat := 32

  datatype Entry = Entry(key: int, value: Option<Block>)

  /** `index` holds positions in the shared `entries`.  `shift` is auxiliary: block number `k` lives in slot
      `(k + shift) mod capacity` of this array for as long as the array is in use. */
  datatype Header = Header(capacity: nat, tail: nat, index: seq<nat>, shift: int)

  /** All index arrays ever made, the last being the current one.  `last` is auxiliary: the block number the
      current tail stands for, `-1` before the first. */
  datatype Ring = Ring(entries: seq<Entry>, headers: seq<Header>, last: int)

  function Base(k: int): int {
    k * BLOCK_SIZE
  }

  /** C's signed division, which truncates toward zero. */
  function TruncDiv(a: int, b: nat): int
    requires b > 0
  {
    if a >= 0 then a / b else -((-a) / b)
  }

  predicate Usable(r: Ring) {
    && |r.headers| > 0
    && HeaderShape(r, Current(r))
    && (forall h :: 0 <= h < |r.headers| ==> HeaderShape(r, h))
  }

  predicate HeaderShape(r: Ring, h: nat)
    requires h < |r.headers|
  {
    var hd := r.headers[h];
    && 0 < hd.capacity == |hd.index| && hd.tail < hd.capacity
    && (forall i :: 0 <= i < |hd.index| ==> hd.index[i] < |r.entries|)
  }

  function Current(r: Ring): nat
    requires |r.headers| > 0
  {
    |r.headers| - 1
  }

  function EntryAt(r: Ring, h: nat, slot: nat): Entry
    requires h < |r.headers| && HeaderShape(r, h) && slot < r.headers[h].capacity
  {
    r.entries[r.headers[h].index[slot]]
  }

  function Slot(hd: Header, k: int): nat
    requires hd.capacity > 0
  {
    (k + hd.shift) % hd.capacity
  }

  /** The slot after the tail of the current array, where the next block goes. */
  function NewTail(r: Ring): nat
    requires Usable(r)
  {
    (r.headers[Current(r)].tail + 1) % r.headers[Current(r)].capacity
  }

  function NewEntry(r: Ring): nat
    requires Usable(r)
  {
    r.headers[Current(r)].index[NewTail(r)]
  }

  predicate IsFree(r: Ring, e: nat)
    requires e < |r.entries|
  {
    r.entries[e].key == INVALID_BLOCK_BASE || r.entries[e].value == None
  }

  function StoreKey(r: Ring, e: nat, key: int): Ring
    requires e < |r.entries|
  {
    r.(entries := r.entries[e := r.entries[e].(key := key)])
  }

  function StoreValue(r: Ring, e: nat, value: Option<Block>): Ring
    requires e < |r.entries|
  {
    r.(entries := r.entries[e := r.entries[e].(value := value)])
  }

  function StoreTail(r: Ring, tail: nat, last: int): Ring
    requires |r.headers| > 0
  {
    var c := Current(r);
    r.(headers := r.headers[c := r.headers[c].(tail := tail)], last := last)
  }

  function Advance(r: Ring): Ring
    requires Usable(r)
  {
    StoreTail(r, NewTail(r), r.last + 1)
  }

  function Rewind(r: Ring): Ring
    requires Usable(r)
  {
    var hd := r.headers[Current(r)];
    StoreTail(r, (hd.tail - 1) % hd.capacity, r.last - 1)
  }

  /** The rotated copy of an index array, oldest entry first. */
  function Rotated(hd: Header): (index: seq<nat>)
    requires 0 < hd.capacity == |hd.index|
    ensures |index| == hd.capacity
  {
    seq(hd.capacity, i requires 0 <= i < hd.capacity => hd.index[(hd.tail + 1 + i) % hd.capacity])
  }

  function Fresh(from: nat, n: nat): (ids: seq<nat>)
    ensures |ids| == n && forall i :: 0 <= i < n ==> ids[i] == from + i
  {
    seq(n, i => from + i)
  }

  /** `new_block_index` after a successful allocation: twice the entries, the old ones shared.  The values of the
      new entries are whatever memory held. */
  function Grow(r: Ring, garbage: seq<Option<Block>>): Ring
    requires Usable(r)
    requires |garbage| == r.headers[Current(r)].capacity
  {
    var prev := r.headers[Current(r)];
    var header := Header(2 * prev.capacity, prev.capacity - 1, Rotated(prev) + Fresh(|r.entries|, prev.capacity),
      prev.capacity - 1 - r.last);
    r.(entries := r.entries + seq(prev.capacity, i requires 0 <= i < prev.capacity =>
      Entry(INVALID_BLOCK_BASE, garbage[i])),
      headers := r.headers + [header])
  }

  /** The array made by the producer's constructor. */
  function First(garbage: seq<Option<Block>>): Ring
    requires |garbage| == INITIAL_INDEX_SIZE
  {
    Ring(seq(INITIAL_INDEX_SIZE, i requires 0 <= i < INITIAL_INDEX_SIZE => Entry(INVALID_BLOCK_BASE, garbage[i])),
      [Header(INITIAL_INDEX_SIZE, INITIAL_INDEX_SIZE - 1, Fresh(0, INITIAL_INDEX_SIZE), 0)], -1)
  }

  /** The slot a lookup computes from the tail slot it read, that slot's key, and the base it looks for. */
  function LookupSlot(hd: Header, tail: nat, tailBase: int, base: int): nat
    requires hd.capacity > 0
  {
    (tail + TruncDiv(base - tailBase, BLOCK_SIZE)) % hd.capacity
  }

  /** The source's copying loop makes exactly `Rotated`. */
  method CopyIndex(hd: Header) returns (index: seq<nat>)
    requires 0 < hd.capacity == |hd.index| && hd.tail < hd.capacity
    ensures index == Rotated(hd)
  {
    var prevPos := hd.tail;
    index := [];
    SmallMod(hd.tail, hd.capacity);
    while |index| == 0 || prevPos != hd.tail
      invariant |index| <= hd.capacity && prevPos == (hd.tail + |index|) % hd.capacity
      invariant index == Rotated(hd)[..|index|]
      decreases hd.capacity - |index|
    {
      ghost var n := |index|;
      AroundOnce(hd.tail, n, hd.capacity);
      Step(hd.tail + n, hd.capacity);
      prevPos := (prevPos + 1) % hd.capacity;
      index := index + [hd.index[prevPos]];
      assert hd.tail + 1 + n == hd.tail + n + 1;
      assert Rotated(hd)[..n + 1] == Rotated(hd)[..n] + [Rotated(hd)[n]];
    }
    AroundOnce(hd.tail, |index|, hd.capacity);
  }

  /** Going round a ring comes back to the start after exactly `c` steps. */
  lemma AroundOnce(a: nat, n: nat, c: nat)
    requires a < c && n <= c
    ensures (a + n) % c == a <==> n == 0 || n == c
  {
    SmallMod(a, c);
    if (a + n) % c == a && 0 < n < c {
      CongruentClose(a + n, a, c);
    }
    if n == c {
      FromQuotient(a + n, a, c, 1);
    }
  }
}
