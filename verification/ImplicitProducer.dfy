/** One implicit producer's sub-queue below the ticket protocol: blocks, the block index, and the recycling of
    blocks through the pool.  One producer enqueues in bulk (a single enqueue is a bulk of one) while any number of
    consumers move out the slots they have claimed.  Every shared access is one step. */
module ImplicitProducer {
  import opened Options
  import opened BlockIndex

  type Tid = nat

  /** Half the range of a 64-bit index: the most `circular_less_than` can tell apart. */
  const INDEX_HALF: nat := 0x8000_0000_0000_0000

  /** The producer's program counter.  `xs` is what it is asked to enqueue, `got` the blocks it has installed so
      far in this call (the source threads them through `Block::next`). */
  datatype ProducerPC<T> =
    | PIdle
    | PNext(xs: seq<T>, got: seq<Block>)
    | PSlot(xs: seq<T>, got: seq<Block>)
    | PGrow(xs: seq<T>, got: seq<Block>)
    | PKey(xs: seq<T>, got: seq<Block>)
    | PTail(xs: seq<T>, got: seq<Block>)
    | PBlock(xs: seq<T>, got: seq<Block>)
    | PReset(xs: seq<T>, got: seq<Block>, b: Block)
    | PValue(xs: seq<T>, got: seq<Block>, b: Block)
    | PWrite(xs: seq<T>, got: seq<Block>, n: nat)
    | PPublish(xs: seq<T>, got: seq<Block>)
    | PRewind(got: seq<Block>)
    | PNull(got: seq<Block>)
    | PUndoFind(got: seq<Block>, j: nat)
    | PUndoNull(got: seq<Block>, j: nat, e: nat)
    | PUndoTail(got: seq<Block>, j: nat)
    | PFree(got: seq<Block>, j: nat)

  /** A consumer's program counter.  It works on the claimed slots `pos .. end`, one block at a time; within a
      block it has moved out `start .. pos` and will stop at `stop`. */
  datatype ConsumerPC =
    | CIdle
    | CHeader(pos: nat, end: nat)
    | CTail(pos: nat, end: nat, h: nat)
    | CKey(pos: nat, end: nat, h: nat, tail: nat)
    | CValue(pos: nat, end: nat, h: nat, slot: nat)
    | CMove(start: nat, pos: nat, stop: nat, end: nat, h: nat, slot: nat, b: Block)
    | CCount(start: nat, stop: nat, end: nat, h: nat, slot: nat, b: Block)
    | CNull(stop: nat, end: nat, h: nat, slot: nat, b: Block)
    | CFree(stop: nat, end: nat, h: nat, slot: nat, b: Block)

  /** Auxiliary: what has become of a claimed slot. */
  datatype Slot =
    | Waiting(t: Tid)
    | Moved(t: Tid)
    | Counted

  /** Auxiliary: where a block is.  `Elsewhere` is the pool, the free list, or another producer. */
  datatype Place =
    | Elsewhere
    | Transit
    | Installed(k: int)
    | Released(t: Tid)

  /** `tail`, `head`, `ring`, `cells` and `done` are shared; `done` is `elementsCompletelyDequeued`.  Auxiliary:
      `items` enqueued so far, `slots` one entry per claimed index, `taken` the values moved out, `live` the block
      of each block number in use, `place` where each block is. */
  datatype State<T> = State(
    tail: nat,
    head: nat,
    ring: Ring,
    cells: map<Block, seq<Option<T>>>,
    done: map<Block, nat>,
    tailBlock: Option<Block>,
    producer: ProducerPC<T>,
    consumers: seq<ConsumerPC>,
    items: seq<T>,
    slots: seq<Slot>,
    taken: map<nat, T>,
    live: map<int, Block>,
    place: map<Block, Place>)

  datatype Action<T> =
    | CallEnqueue(xs: seq<T>)
    | Produce
    | NoMemory
    | GrowIndex(garbage: seq<Option<Block>>)
    | TakeBlock(b: Block)
    | Claim(t: Tid, n: nat)
    | Consume(t: Tid)
    | Outside(b: Block, contents: seq<Option<T>>, count: nat)

  function BlockOf(i: int): int {
    i / BLOCK_SIZE
  }

  function CellOf(i: nat): nat {
    i % BLOCK_SIZE
  }

  /** The first block number with no published element in it. */
  function FirstNew(tail: nat): nat {
    (tail + BLOCK_SIZE - 1) / BLOCK_SIZE
  }

  function EndOfBlock(i: nat): nat {
    (i / BLOCK_SIZE + 1) * BLOCK_SIZE
  }

  function Min(a: nat, b: nat): nat {
    if a < b then a else b
  }

  predicate HasIndex(r: Ring) {
    Usable(r)
  }

  predicate Initial<T>(s: State<T>) {
    && s.tail == 0 && s.head == 0 && s.items == [] && s.slots == [] && s.taken == map[] && s.live == map[]
    && s.tailBlock == None && s.producer == PIdle
    && (forall t :: 0 <= t < |s.consumers| ==> s.consumers[t] == CIdle)
    &&
      (|s.ring.headers| == 0 || (|s.ring.entries| == INITIAL_INDEX_SIZE &&
      s.ring == First(seq(INITIAL_INDEX_SIZE, i requires 0 <= i < INITIAL_INDEX_SIZE => s.ring.entries[i].value))))
    && s.ring.last == -1
    && s.cells == map[] && s.done == map[] && s.place == map[]
  }

  predicate Enabled<T>(s: State<T>, a: Action<T>) {
    match a
    case CallEnqueue(_) => s.producer == PIdle
    case Produce => s.producer != PIdle && !s.producer.PGrow? && !s.producer.PBlock?
    case NoMemory => s.producer.PGrow? || s.producer.PBlock?
    case GrowIndex(g) => s.producer.PGrow? && HasIndex(s.ring) && |g| == s.ring.headers[Current(s.ring)].capacity
    case TakeBlock(b) => s.producer.PBlock? && b in s.place && s.place[b] == Elsewhere
    // what the ticket protocol guarantees about a claim
    case Claim(t, n) => t < |s.consumers| && s.consumers[t] == CIdle && s.head + n <= s.tail
    case Consume(t) => t < |s.consumers| && s.consumers[t] != CIdle
    // a new block, or whatever its other owners do to a block that is not ours
    case Outside(b, c, n) => |c| == BLOCK_SIZE && (b !in s.place || s.place[b] == Elsewhere)
  }

  /** A claim of no slots still looks up a block and counts nothing in it: see `RecycleOnce`. */
  predicate ClaimsSome<T>(a: Action<T>) {
    a.Claim? ==> a.n >= 1
  }

  function Apply<T>(s: State<T>, a: Action<T>): State<T> {
    match a
    case CallEnqueue(xs) => s.(producer := PNext(xs, []))
    case Produce => ProducerStep(s, s.producer)
    case NoMemory =>
      s.(producer :=
        if s.producer.PGrow? then PUndoFind(s.producer.got, 0)
        else if s.producer.PBlock? then PRewind(s.producer.got)
        else s.producer)
    case GrowIndex(g) =>
      if s.producer.PGrow? && HasIndex(s.ring) && |g| == s.ring.headers[Current(s.ring)].capacity then
        s.(ring := Grow(s.ring, g), producer := PKey(s.producer.xs, s.producer.got))
      else s
    case TakeBlock(b) =>
      if s.producer.PBlock? then
        s.(producer := PReset(s.producer.xs, s.producer.got, b), place := s.place[b := Transit])
      else s
    case Claim(t, n) =>
      if t < |s.consumers| then
        s.(head := s.head + n,
          consumers := s.consumers[t := CHeader(s.head, s.head + n)],
          slots := s.slots + seq(n, _ => Waiting(t)))
      else s
    case Consume(t) => if t < |s.consumers| then ConsumerStep(s, t, s.consumers[t]) else s
    case Outside(b, c, n) => s.(cells := s.cells[b := c], done := s.done[b := n], place := s.place[b := Elsewhere])
  }

  /** The block number a call is about to install. */
  function NextBlock(tail: nat, got: seq<Block>): nat {
    FirstNew(tail) + |got|
  }

  /** The block that element `tail + n` of this call is written to. */
  function WriteBlock(tail: nat, tailBlock: Option<Block>, got: seq<Block>, n: nat): Option<Block> {
    var k := BlockOf(tail + n) - FirstNew(tail);
    if k < 0 then tailBlock else if k < |got| then Some(got[k]) else None
  }

  function Cells<T>(cells: map<Block, seq<Option<T>>>, b: Block): (c: seq<Option<T>>)
    ensures |c| == BLOCK_SIZE
  {
    if b in cells && |cells[b]| == BLOCK_SIZE then cells[b] else seq(BLOCK_SIZE, _ => None)
  }

  /** Entry of the slot the lookup computes, or none when there is no index. */
  function FindEntry(r: Ring, base: int): Option<nat> {
    if !Usable(r) then None else
    var hd := r.headers[Current(r)];
    var slot := LookupSlot(hd, hd.tail, EntryAt(r, Current(r), hd.tail).key, base);
    if slot < |hd.index| then Some(hd.index[slot]) else None
  }

  // ---- the producer's steps ----

  /** Another block needed?  The distance to the head is checked before taking it. */
  function AskForBlock<T>(s: State<T>, xs: seq<T>, got: seq<Block>): State<T> {
    s.(producer :=
      if Base(NextBlock(s.tail, got)) >= s.tail + |xs| then PWrite(xs, got, 0)
      else if Base(NextBlock(s.tail, got)) + BLOCK_SIZE - s.head < INDEX_HALF then PSlot(xs, got)
      else PUndoFind(got, 0))
  }

  function FindSlot<T>(s: State<T>, xs: seq<T>, got: seq<Block>): State<T> {
    s.(producer :=
      if !HasIndex(s.ring) then PUndoFind(got, 0)
      else if IsFree(s.ring, NewEntry(s.ring)) then PKey(xs, got)
      else PGrow(xs, got))
  }

  function KeySlot<T>(s: State<T>, xs: seq<T>, got: seq<Block>): State<T> {
    if HasIndex(s.ring) then
      s.(ring := StoreKey(s.ring, NewEntry(s.ring), Base(NextBlock(s.tail, got))), producer := PTail(xs, got))
    else s
  }

  function AdvanceTail<T>(s: State<T>, xs: seq<T>, got: seq<Block>): State<T> {
    if HasIndex(s.ring) then s.(ring := Advance(s.ring), producer := PBlock(xs, got)) else s
  }

  function Install<T>(s: State<T>, xs: seq<T>, got: seq<Block>, b: Block): State<T> {
    if HasIndex(s.ring) then
      var hd := s.ring.headers[Current(s.ring)];
      s.(ring := StoreValue(s.ring, hd.index[hd.tail], Some(b)),
        producer := PNext(xs, got + [b]),
        live := s.live[NextBlock(s.tail, got) := b],
        place := s.place[b := Installed(NextBlock(s.tail, got))])
    else s
  }

  function WriteOne<T>(s: State<T>, xs: seq<T>, got: seq<Block>, n: nat): State<T> {
    var b := WriteBlock(s.tail, s.tailBlock, got, n);
    if n < |xs| && b.None? then s else
    s.(cells :=
        if n < |xs| then s.cells[b.value := Cells(s.cells, b.value)[CellOf(s.tail + n) := Some(xs[n])]] else s.cells,
      producer := if n < |xs| then PWrite(xs, got, n + 1) else PPublish(xs, got))
  }

  function Publish<T>(s: State<T>, xs: seq<T>, got: seq<Block>): State<T> {
    s.(tail := s.tail + |xs|, items := s.items + xs, producer := PIdle,
      tailBlock := if |got| > 0 then Some(got[|got| - 1]) else s.tailBlock)
  }

  /** No block to be had: the insertion just made is taken back, and then every earlier one of this call. */
  function RewindTail<T>(s: State<T>, got: seq<Block>): State<T> {
    if HasIndex(s.ring) then s.(ring := Rewind(s.ring), producer := PNull(got)) else s
  }

  function ClearSlot<T>(s: State<T>, got: seq<Block>): State<T> {
    if HasIndex(s.ring) then s.(ring := StoreValue(s.ring, NewEntry(s.ring), None), producer := PUndoFind(got, 0))
      else s
  }

  function FindInstalled<T>(s: State<T>, got: seq<Block>, j: nat): State<T> {
    var e := FindEntry(s.ring, Base(FirstNew(s.tail) + j));
    if j < |got| && e.None? then s else
    s.(producer := if j < |got| then PUndoNull(got, j, e.value) else PFree(got, 0))
  }

  function Uninstall<T>(s: State<T>, got: seq<Block>, j: nat, e: nat): State<T> {
    if j < |got| && e < |s.ring.entries| then
      s.(ring := StoreValue(s.ring, e, None), producer := PUndoTail(got, j),
        live := s.live - {FirstNew(s.tail) + j},
        place := s.place[got[j] := Transit])
    else s
  }

  function RewindInstalled<T>(s: State<T>, got: seq<Block>, j: nat): State<T> {
    if HasIndex(s.ring) then s.(ring := Rewind(s.ring), producer := PUndoFind(got, j + 1)) else s
  }

  function GiveBack<T>(s: State<T>, got: seq<Block>, j: nat): State<T> {
    s.(producer := if j < |got| then PFree(got, j + 1) else PIdle,
      place := if j < |got| then s.place[got[j] := Elsewhere] else s.place)
  }

  function ProducerStep<T>(s: State<T>, pc: ProducerPC<T>): State<T> {
    match pc
    case PIdle => s
    case PGrow(_, _) => s
    case PBlock(_, _) => s
    case PNext(xs, got) => AskForBlock(s, xs, got)
    case PSlot(xs, got) => FindSlot(s, xs, got)
    case PKey(xs, got) => KeySlot(s, xs, got)
    case PTail(xs, got) => AdvanceTail(s, xs, got)
    case PReset(xs, got, b) => s.(done := s.done[b := 0], producer := PValue(xs, got, b))
    case PValue(xs, got, b) => Install(s, xs, got, b)
    case PWrite(xs, got, n) => WriteOne(s, xs, got, n)
    case PPublish(xs, got) => Publish(s, xs, got)
    case PRewind(got) => RewindTail(s, got)
    case PNull(got) => ClearSlot(s, got)
    case PUndoFind(got, j) => FindInstalled(s, got, j)
    case PUndoNull(got, j, e) => Uninstall(s, got, j, e)
    case PUndoTail(got, j) => RewindInstalled(s, got, j)
    case PFree(got, j) => GiveBack(s, got, j)
  }

  // ---- a consumer's steps ----

  /** On to the next block of the claim, in the next slot of the same array, or done. */
  function NextPiece(r: Ring, stop: nat, end: nat, h: nat, slot: nat): ConsumerPC {
    if stop < end && h < |r.headers| && r.headers[h].capacity > 0 then
      CValue(stop, end, h, (slot + 1) % r.headers[h].capacity)
    else
      CIdle
  }

  function LoadKey<T>(s: State<T>, t: Tid, pos: nat, end: nat, h: nat, tail: nat): State<T>
    requires t < |s.consumers|
  {
    if h < |s.ring.headers| && HeaderShape(s.ring, h) && tail < s.ring.headers[h].capacity then
      var slot := LookupSlot(s.ring.headers[h], tail, EntryAt(s.ring, h, tail).key, Base(BlockOf(pos)));
      s.(consumers := s.consumers[t := CValue(pos, end, h, slot)])
    else s
  }

  function LoadValue<T>(s: State<T>, t: Tid, pos: nat, end: nat, h: nat, slot: nat): State<T>
    requires t < |s.consumers|
  {
    if h < |s.ring.headers| && HeaderShape(s.ring, h) && slot < s.ring.headers[h].capacity &&
      EntryAt(s.ring, h, slot).value.Some? then
      var b := EntryAt(s.ring, h, slot).value.value;
      s.(consumers := s.consumers[t := CMove(pos, pos, Min(end, EndOfBlock(pos)), end, h, slot, b)])
    else s
  }

  function MoveOne<T>(s: State<T>, t: Tid, start: nat, pos: nat, stop: nat, end: nat, h: nat, slot: nat,
      b: Block): State<T>
    requires t < |s.consumers|
  {
    var v := Cells(s.cells, b)[CellOf(pos)];
    s.(cells := if pos < stop then s.cells[b := Cells(s.cells, b)[CellOf(pos) := None]] else s.cells,
      taken := if pos < stop && v.Some? then s.taken[pos := v.value] else s.taken,
      slots := if pos < stop && pos < |s.slots| then s.slots[pos := Moved(t)] else s.slots,
      consumers := s.consumers[t :=
        if pos < stop then CMove(start, pos + 1, stop, end, h, slot, b) else CCount(start, stop, end, h, slot, b)])
  }

  /** `set_many_empty`: whoever completes the block goes on to free it. */
  function CountPiece<T>(s: State<T>, t: Tid, start: nat, stop: nat, end: nat, h: nat, slot: nat, b: Block): State<T>
    requires t < |s.consumers|
  {
    var n := (if b in s.done then s.done[b] else 0) + (if start <= stop then stop - start else 0);
    s.(done := s.done[b := n],
      slots := seq(|s.slots|, i requires 0 <= i < |s.slots| => if start <= i < stop then Counted else s.slots[i]),
      consumers := s.consumers[t :=
        if n == BLOCK_SIZE then CNull(stop, end, h, slot, b) else NextPiece(s.ring, stop, end, h, slot)],
      live := if n == BLOCK_SIZE then s.live - {BlockOf(start)} else s.live,
      place := if n == BLOCK_SIZE then s.place[b := Released(t)] else s.place)
  }

  function ClearEntry<T>(s: State<T>, t: Tid, stop: nat, end: nat, h: nat, slot: nat, b: Block): State<T>
    requires t < |s.consumers|
  {
    if h < |s.ring.headers| && HeaderShape(s.ring, h) && slot < s.ring.headers[h].capacity then
      s.(ring := StoreValue(s.ring, s.ring.headers[h].index[slot], None),
        consumers := s.consumers[t := CFree(stop, end, h, slot, b)])
    else s
  }

  function ConsumerStep<T>(s: State<T>, t: Tid, pc: ConsumerPC): State<T>
    requires t < |s.consumers|
  {
    match pc
    case CIdle => s
    case CHeader(pos, end) =>
      if HasIndex(s.ring) then s.(consumers := s.consumers[t := CTail(pos, end, Current(s.ring))]) else s
    case CTail(pos, end, h) =>
      if h < |s.ring.headers| then s.(consumers := s.consumers[t := CKey(pos, end, h, s.ring.headers[h].tail)]) else s
    case CKey(pos, end, h, tail) => LoadKey(s, t, pos, end, h, tail)
    case CValue(pos, end, h, slot) => LoadValue(s, t, pos, end, h, slot)
    case CMove(start, pos, stop, end, h, slot, b) => MoveOne(s, t, start, pos, stop, end, h, slot, b)
    case CCount(start, stop, end, h, slot, b) => CountPiece(s, t, start, stop, end, h, slot, b)
    case CNull(stop, end, h, slot, b) => ClearEntry(s, t, stop, end, h, slot, b)
    case CFree(stop, end, h, slot, b) =>
      s.(place := s.place[b := Elsewhere], consumers := s.consumers[t := NextPiece(s.ring, stop, end, h, slot)])
  }

  lemma ProduceIs<T>(s: State<T>)
    ensures Apply(s, Produce) == ProducerStep(s, s.producer)
  {
    hide ProducerStep;
  }

  lemma ConsumeIs<T>(s: State<T>, t: Tid)
    requires t < |s.consumers|
    ensures Apply(s, Consume(t)) == ConsumerStep(s, t, s.consumers[t])
  {
    hide ConsumerStep;
  }
}

/** What holds in every reachable state of an implicit producer's sub-queue. */
module ImplicitInvariant {
  import opened Options
  import opened BlockIndex
  import opened BlockIndexInvariant
  import opened ImplicitProducer

  // ---- claimed slots ----

  ghost predicate AllSlots(slots: seq<Slot>, lo: nat, hi: nat, x: Slot) {
    hi <= |slots| && forall i :: lo <= i < hi ==> slots[i] == x
  }

  /** How many of the `n` indices from `lo` on have been counted as dequeued. */
  ghost function CountFrom(slots: seq<Slot>, lo: nat, n: nat): nat {
    if n == 0 then 0 else
    CountFrom(slots, lo, n - 1) + (if lo + n - 1 < |slots| && slots[lo + n - 1] == Counted then 1 else 0)
  }

  /** Every claimed slot that has been moved out yielded the element enqueued there. */
  ghost predicate RangesOk<T>(tail: nat, head: nat, slots: seq<Slot>, items: seq<T>, taken: map<nat, T>) {
    && head == |slots| <= tail == |items|
    && (forall i :: 0 <= i < |slots| && !slots[i].Waiting? ==> i in taken && taken[i] == items[i])
  }

  // ---- the producer's bookkeeping ----

  function Got<T>(pc: ProducerPC<T>): seq<Block> {
    match pc
    case PIdle => []
    case PNext(_, got) => got
    case PSlot(_, got) => got
    case PGrow(_, got) => got
    case PKey(_, got) => got
    case PTail(_, got) => got
    case PBlock(_, got) => got
    case PReset(_, got, _) => got
    case PValue(_, got, _) => got
    case PWrite(_, got, _) => got
    case PPublish(_, got) => got
    case PRewind(got) => got
    case PNull(got) => got
    case PUndoFind(got, _) => got
    case PUndoNull(got, _, _) => got
    case PUndoTail(got, _) => got
    case PFree(got, _) => got
  }

  /** The current tail of the index stands for the block being inserted. */
  predicate Inserting<T>(pc: ProducerPC<T>) {
    pc.PBlock? || pc.PReset? || pc.PValue? || pc.PRewind?
  }

  /** How many insertions of this call have been taken back from the tail, and how many from the entries. */
  function TailUndone<T>(pc: ProducerPC<T>): nat {
    match pc
    case PUndoFind(_, j) => j
    case PUndoNull(_, j, _) => j
    case PUndoTail(_, j) => j
    case PFree(got, _) => |got|
    case _ => 0
  }

  function ValuesUndone<T>(pc: ProducerPC<T>): nat {
    match pc
    case PUndoTail(_, j) => j + 1
    case _ => TailUndone(pc)
  }

  /** The newest block number that the entries of the index still account for. */
  function Top<T>(tail: nat, pc: ProducerPC<T>): int {
    FirstNew(tail) - 1 + (if pc.PFree? then 0 else |Got(pc)|) + (if Inserting(pc) then 1 else 0)
  }

  function Last<T>(tail: nat, pc: ProducerPC<T>): int {
    FirstNew(tail) - 1 + |Got(pc)| - TailUndone(pc) + (if Inserting(pc) then 1 else 0)
  }

  ghost predicate IndexOk<T>(ring: Ring, live: map<int, Block>, tail: nat, pc: ProducerPC<T>) {
    && ring.last == Last(tail, pc)
    && (Usable(ring) || |ring.headers| == 0)
    && (Usable(ring) ==> RingInv(ring) && LiveInv(ring, Top(tail, pc), live))
    && (!Usable(ring) ==> live == map[] && tail == 0 && |Got(pc)| == 0)
  }

  // ---- blocks ----

  ghost predicate CellHolds<T>(cells: map<Block, seq<Option<T>>>, b: Block, i: nat, x: T) {
    b in cells && |cells[b]| == BLOCK_SIZE && cells[b][CellOf(i)] == Some(x)
  }

  /** A published element not yet counted has a live block; until it is moved out the block holds its value. */
  ghost predicate ElementOk<T>(slots: seq<Slot>, live: map<int, Block>, cells: map<Block, seq<Option<T>>>, i: nat,
      x: T) {
    i >= |slots| || slots[i] != Counted ==>
      && BlockOf(i) in live
      && (i >= |slots| || slots[i].Waiting? ==> CellHolds(cells, live[BlockOf(i)], i, x))
  }

  ghost predicate ElementsOk<T>(slots: seq<Slot>, live: map<int, Block>, cells: map<Block, seq<Option<T>>>,
      items: seq<T>) {
    forall i :: 0 <= i < |items| ==> ElementOk(slots, live, cells, i, items[i])
  }

  /** A live block is installed under its number and counts exactly its dequeued elements, short of a full block. */
  ghost predicate BlockOk(live: map<int, Block>, place: map<Block, Place>, done: map<Block, nat>, slots: seq<Slot>,
      k: int) {
    && 0 <= k && k in live && live[k] in place && place[live[k]] == Installed(k)
    && live[k] in done && done[live[k]] == CountFrom(slots, Base(k), BLOCK_SIZE) < BLOCK_SIZE
  }

  ghost predicate BlocksOk(live: map<int, Block>, place: map<Block, Place>, done: map<Block, nat>, slots: seq<Slot>) {
    forall k :: k in live ==> BlockOk(live, place, done, slots, k)
  }

  ghost predicate CellsOk<T>(place: map<Block, Place>, cells: map<Block, seq<Option<T>>>) {
    forall b :: b in place ==> b in cells && |cells[b]| == BLOCK_SIZE
  }

  /** The blocks the producer has in hand, neither installed nor in the pool. */
  ghost predicate InHand<T>(pc: ProducerPC<T>, b: Block) {
    match pc
    case PReset(_, _, c) => b == c
    case PValue(_, _, c) => b == c
    case PFree(got, j) => exists i :: j <= i < |got| && got[i] == b
    case _ => exists i :: 0 <= i < |Got(pc)| && i < ValuesUndone(pc) && Got(pc)[i] == b
  }

  ghost predicate Frees(pc: ConsumerPC, b: Block) {
    (pc.CNull? || pc.CFree?) && pc.b == b
  }

  /** Wherever a block is said to be, the one thread responsible for it is there too. */
  ghost predicate PlaceOk<T>(p: Place, live: map<int, Block>, pc: ProducerPC<T>, consumers: seq<ConsumerPC>, b: Block) {
    match p
    case Elsewhere => true
    case Installed(k) => k in live && live[k] == b
    case Transit => InHand(pc, b)
    case Released(t) => t < |consumers| && Frees(consumers[t], b)
  }

  ghost predicate PlacesOk<T>(place: map<Block, Place>, live: map<int, Block>, pc: ProducerPC<T>,
      consumers: seq<ConsumerPC>) {
    forall b :: b in place ==> PlaceOk(place[b], live, pc, consumers, b)
  }

  ghost predicate TailBlockOk(tail: nat, live: map<int, Block>, tailBlock: Option<Block>) {
    CellOf(tail) != 0 ==> BlockOf(tail) in live && tailBlock == Some(live[BlockOf(tail)])
  }

  // ---- the producer ----

  ghost predicate Distinct(got: seq<Block>) {
    forall i, j :: 0 <= i < j < |got| ==> got[i] != got[j]
  }

  ghost predicate LiveIs(live: map<int, Block>, k: int, b: Block) {
    k in live && live[k] == b
  }

  /** Blocks `j ..` of this call are installed under the numbers from `first` on. */
  ghost predicate GotLive(live: map<int, Block>, first: nat, got: seq<Block>, j: nat) {
    forall i {:trigger got[i]} :: j <= i < |got| ==> LiveIs(live, first + i, got[i])
  }

  ghost predicate GotInHand(place: map<Block, Place>, got: seq<Block>, from: nat, to: nat) {
    to <= |got| && forall i :: from <= i < to ==> got[i] in place && place[got[i]] == Transit
  }

  /** The keys of this call's insertions are in the current array. */
  ghost predicate GotKeys(r: Ring, first: nat, n: nat) {
    n > 0 ==> Usable(r) && forall k :: first <= k < first + n ==> EntryOf(r, Current(r), k).key == Base(k)
  }

  /** Live block numbers from `first` on start at `from`. */
  ghost predicate LiveFrom(live: map<int, Block>, first: nat, from: nat) {
    forall k :: k in live && k >= first ==> k >= from
  }

  ghost predicate LiveBelow(live: map<int, Block>, limit: nat) {
    forall k :: k in live ==> k < limit
  }

  ghost predicate Needed<T>(tail: nat, xs: seq<T>, got: seq<Block>) {
    Base(NextBlock(tail, got)) < tail + |xs|
  }

  ghost predicate NeededSoFar<T>(tail: nat, xs: seq<T>, got: seq<Block>) {
    |got| > 0 ==> Base(NextBlock(tail, got) - 1) < tail + |xs|
  }

  ghost predicate Enough<T>(tail: nat, xs: seq<T>, got: seq<Block>) {
    NeededSoFar(tail, xs, got) && Base(NextBlock(tail, got)) >= tail + |xs|
  }

  ghost predicate WrittenAt<T>(s: State<T>, xs: seq<T>, got: seq<Block>, j: nat)
    requires j < |xs|
  {
    var b := WriteBlock(s.tail, s.tailBlock, got, j);
    b.Some? && CellHolds(s.cells, b.value, s.tail + j, xs[j])
  }

  ghost predicate Written<T>(s: State<T>, xs: seq<T>, got: seq<Block>, n: nat) {
    n <= |xs| && forall j :: 0 <= j < n ==> WrittenAt(s, xs, got, j)
  }

  /** Block number `k` starts within reach of the head for machine indices. */
  ghost predicate Reach(head: nat, k: int) {
    Base(k) - head < INDEX_HALF
  }

  /** The key of block `k` is stored in the current array, and no live block is a whole turn behind it. */
  ghost predicate NewKeyStored(r: Ring, live: map<int, Block>, k: int) {
    && Usable(r) && EntryOf(r, Current(r), k).key == Base(k)
    && forall q :: q in live ==> k - q < r.headers[Current(r)].capacity
  }

  /** What holds while a call still means to succeed. */
  ghost predicate Trying<T>(s: State<T>, xs: seq<T>, got: seq<Block>) {
    GotLive(s.live, FirstNew(s.tail), got, 0) && Reach(s.head, NextBlock(s.tail, got))
  }

  ghost predicate TryingNext<T>(s: State<T>, xs: seq<T>, got: seq<Block>) {
    Trying(s, xs, got) && Needed(s.tail, xs, got) && Reach(s.head, NextBlock(s.tail, got) + 1)
  }

  ghost predicate Undoing<T>(s: State<T>, got: seq<Block>, values: nat) {
    && values <= |got|
    && GotLive(s.live, FirstNew(s.tail), got, values) && GotInHand(s.place, got, 0, values)
    && GotKeys(s.ring, FirstNew(s.tail), |got|) && LiveFrom(s.live, FirstNew(s.tail), FirstNew(s.tail) + values)
  }

  ghost predicate PhaseOk<T>(s: State<T>) {
    match s.producer
    case PIdle => true
    case PNext(xs, got) => Trying(s, xs, got) && NeededSoFar(s.tail, xs, got)
    case PSlot(xs, got) => TryingNext(s, xs, got)
    case PGrow(xs, got) => TryingNext(s, xs, got) && Usable(s.ring)
    case PKey(xs, got) => TryingNext(s, xs, got) && Usable(s.ring) && IsFree(s.ring, NewEntry(s.ring))
    case PTail(xs, got) => TryingNext(s, xs, got) && NewKeyStored(s.ring, s.live, NextBlock(s.tail, got))
    case PBlock(xs, got) => TryingNext(s, xs, got) && NewKeyStored(s.ring, s.live, NextBlock(s.tail, got))
    case PReset(xs, got, b) =>
      TryingNext(s, xs, got) && NewKeyStored(s.ring, s.live, NextBlock(s.tail, got)) && b in s.place &&
        s.place[b] == Transit
    case PValue(xs, got, b) =>
      && TryingNext(s, xs, got) && NewKeyStored(s.ring, s.live, NextBlock(s.tail, got)) && b in s.place &&
        s.place[b] == Transit
      && b in s.done && s.done[b] == 0
    case PWrite(xs, got, n) => Trying(s, xs, got) && Enough(s.tail, xs, got) && Written(s, xs, got, n)
    case PPublish(xs, got) => Trying(s, xs, got) && Enough(s.tail, xs, got) && Written(s, xs, got, |xs|)
    case PRewind(got) => GotLive(s.live, FirstNew(s.tail), got, 0) &&
      NewKeyStored(s.ring, s.live, NextBlock(s.tail, got))
    case PNull(got) => GotLive(s.live, FirstNew(s.tail), got, 0) && NewKeyStored(s.ring, s.live, NextBlock(s.tail, got))
    case PUndoFind(got, j) => Undoing(s, got, j)
    case PUndoNull(got, j, e) =>
      Undoing(s, got, j) && j < |got| && e < |s.ring.entries| && s.ring.entries[e].key == Base(FirstNew(s.tail) + j)
    case PUndoTail(got, j) => Undoing(s, got, j + 1)
    case PFree(got, j) => GotInHand(s.place, got, j, |got|) && j <= |got| && LiveBelow(s.live, FirstNew(s.tail))
  }

  ghost predicate ProducerOk<T>(s: State<T>) {
    && Distinct(Got(s.producer))
    && Reach(s.head, FirstNew(s.tail))
    && LiveBelow(s.live, FirstNew(s.tail) + |Got(s.producer)|)
    && PhaseOk(s)
  }

  // ---- the consumers ----

  /** The block of element `i` is live and a lookup through array `h` finds it. */
  ghost predicate Located(r: Ring, live: map<int, Block>, h: nat, i: nat) {
    BlockOf(i) in live && Found(r, h, BlockOf(i), live[BlockOf(i)])
  }

  ghost predicate LocatedAll(r: Ring, live: map<int, Block>, h: nat, lo: nat, hi: nat) {
    forall i :: lo <= i < hi ==> Located(r, live, h, i)
  }

  ghost predicate InArray(r: Ring, h: nat, slot: nat) {
    h < |r.headers| && HeaderShape(r, h) && slot < r.headers[h].capacity
  }

  ghost predicate SlotOf(r: Ring, h: nat, slot: nat, k: int) {
    InArray(r, h, slot) && slot == BlockIndex.Slot(r.headers[h], k)
  }

  ghost predicate Waits(slots: seq<Slot>, t: Tid, lo: nat, hi: nat) {
    lo <= hi && AllSlots(slots, lo, hi, Waiting(t))
  }

  ghost predicate ConsumerOk(r: Ring, live: map<int, Block>, place: map<Block, Place>, slots: seq<Slot>, t: Tid,
      pc: ConsumerPC) {
    match pc
    case CIdle => true
    case CHeader(pos, end) => pos < end && Waits(slots, t, pos, end)
    case CTail(pos, end, h) =>
      && pos < end && Waits(slots, t, pos, end) && LocatedAll(r, live, h, pos, end)
      && h < |r.headers| && KeyInPlace(r, h, r.headers[h].tail)
    case CKey(pos, end, h, tail) =>
      && pos < end && Waits(slots, t, pos, end) && LocatedAll(r, live, h, pos, end)
      && KeyInPlace(r, h, tail)
    case CValue(pos, end, h, slot) =>
      && pos < end && Waits(slots, t, pos, end) && LocatedAll(r, live, h, pos, end)
      && SlotOf(r, h, slot, BlockOf(pos))
    case CMove(start, pos, stop, end, h, slot, b) =>
      && start <= pos <= stop && start < stop && stop == Min(end, EndOfBlock(start))
      && AllSlots(slots, start, pos, Moved(t)) && Waits(slots, t, pos, end) && LocatedAll(r, live, h, start, end)
      && SlotOf(r, h, slot, BlockOf(start))
      && BlockOf(start) in live && b == live[BlockOf(start)]
    case CCount(start, stop, end, h, slot, b) =>
      && start < stop && stop == Min(end, EndOfBlock(start))
      && AllSlots(slots, start, stop, Moved(t)) && Waits(slots, t, stop, end) && LocatedAll(r, live, h, start, end)
      && SlotOf(r, h, slot, BlockOf(start))
      && BlockOf(start) in live && b == live[BlockOf(start)]
    case CNull(stop, end, h, slot, b) =>
      && 0 < stop && (stop < end ==> CellOf(stop) == 0)
      && Waits(slots, t, stop, end) && LocatedAll(r, live, h, stop, end)
      && SlotOf(r, h, slot, BlockOf(stop - 1))
      && EntryAt(r, h, slot) == Entry(Base(BlockOf(stop - 1)), Some(b)) && BlockOf(stop - 1) !in live
      && b in place && place[b] == Released(t)
    case CFree(stop, end, h, slot, b) =>
      && 0 < stop && (stop < end ==> CellOf(stop) == 0)
      && Waits(slots, t, stop, end) && LocatedAll(r, live, h, stop, end)
      && SlotOf(r, h, slot, BlockOf(stop - 1))
      && b in place && place[b] == Released(t)
  }

  ghost predicate ConsumersOk(r: Ring, live: map<int, Block>, place: map<Block, Place>, slots: seq<Slot>,
      consumers: seq<ConsumerPC>) {
    forall t :: 0 <= t < |consumers| ==> ConsumerOk(r, live, place, slots, t, consumers[t])
  }

  ghost predicate Inv<T>(s: State<T>) {
    && RangesOk(s.tail, s.head, s.slots, s.items, s.taken)
    && IndexOk(s.ring, s.live, s.tail, s.producer)
    && ElementsOk(s.slots, s.live, s.cells, s.items)
    && BlocksOk(s.live, s.place, s.done, s.slots)
    && CellsOk(s.place, s.cells)
    && PlacesOk(s.place, s.live, s.producer, s.consumers)
    && TailBlockOk(s.tail, s.live, s.tailBlock)
    && ProducerOk(s)
    && ConsumersOk(s.ring, s.live, s.place, s.slots, s.consumers)
  }

  lemma InitialInv<T>(s: State<T>)
    requires Initial(s)
    ensures Inv(s)
  {
    if |s.ring.headers| > 0 {
      FirstInv(seq(INITIAL_INDEX_SIZE, i requires 0 <= i < INITIAL_INDEX_SIZE => s.ring.entries[i].value));
    }
  }
}
