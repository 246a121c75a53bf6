/** What a step of one thread leaves intact for the others. */
module ImplicitFrames {
  import opened BlockIndex
  import opened BlockIndexInvariant
  import opened ImplicitProducer
  import opened ImplicitInvariant

  /** The slot is at work in the hands of a thread other than `t`. */
  ghost predicate Theirs(x: Slot, t: Tid) {
    (x.Waiting? || x.Moved?) && x.t != t
  }

  ghost predicate SlotsKept(a: seq<Slot>, b: seq<Slot>, t: Tid) {
    |a| <= |b| && forall i :: 0 <= i < |a| && Theirs(a[i], t) ==> b[i] == a[i]
  }

  ghost predicate LiveKept(slots: seq<Slot>, live: map<int, Block>, live': map<int, Block>, t: Tid) {
    forall i :: 0 <= i < |slots| && Theirs(slots[i], t) && BlockOf(i) in live ==>
      BlockOf(i) in live' && live'[BlockOf(i)] == live[BlockOf(i)]
  }

  ghost predicate DeadKept(slots: seq<Slot>, live: map<int, Block>, live': map<int, Block>) {
    forall k :: k in live' && k !in live ==> Base(k) >= |slots|
  }

  ghost predicate FoundKept(r: Ring, live: map<int, Block>, r': Ring, live': map<int, Block>) {
    forall h, k :: k in live && k in live' && Found(r, h, k, live[k]) ==> Found(r', h, k, live[k])
  }

  ghost predicate KeysKept(r: Ring, r': Ring) {
    forall h, slot :: KeyInPlace(r, h, slot) ==> KeyInPlace(r', h, slot)
  }

  ghost predicate ArraysKept(r: Ring, r': Ring) {
    && |r.headers| <= |r'.headers|
    && (forall h :: 0 <= h < |r.headers| && HeaderShape(r, h) ==>
      HeaderShape(r', h) && r'.headers[h] == r.headers[h].(tail := r'.headers[h].tail))
  }

  ghost predicate ReleasedKept(place: map<Block, Place>, place': map<Block, Place>, t: Tid) {
    forall b :: b in place && place[b].Released? && place[b].t != t ==> b in place' && place'[b] == place[b]
  }

  /** The entry of a block of claimed elements that some other consumer has emptied and not yet cleared. */
  ghost predicate Clearing(e: Entry, place: map<Block, Place>, claimed: nat, t: Tid) {
    e.key != INVALID_BLOCK_BASE && e.key < claimed && e.value.Some? && e.value.value in place &&
      place[e.value.value].Released? && place[e.value.value].t != t
  }

  ghost predicate EntriesKept(r: Ring, r': Ring, place: map<Block, Place>, claimed: nat, t: Tid) {
    |r.entries| <= |r'.entries| && forall e :: 0 <= e < |r.entries| && Clearing(r.entries[e], place, claimed, t) ==>
      r'.entries[e] == r.entries[e]
  }

  ghost predicate Gentle<T>(s: State<T>, s': State<T>, t: Tid) {
    && SlotsKept(s.slots, s'.slots, t)
    && LiveKept(s.slots, s.live, s'.live, t)
    && DeadKept(s.slots, s.live, s'.live)
    && FoundKept(s.ring, s.live, s'.ring, s'.live)
    && KeysKept(s.ring, s'.ring)
    && ArraysKept(s.ring, s'.ring)
    && ReleasedKept(s.place, s'.place, t)
    && EntriesKept(s.ring, s'.ring, s.place, |s.slots|, t)
  }

  /** A reader about to load a tail still finds a key in place under it. */
  ghost predicate TailKept(r: Ring, r': Ring, pc: ConsumerPC) {
    pc.CTail? && pc.h < |r.headers| ==>
      pc.h < |r'.headers| && (r'.headers[pc.h].tail == r.headers[pc.h].tail ||
        KeyInPlace(r', pc.h, r'.headers[pc.h].tail))
  }

  lemma LocatedKept<T>(s: State<T>, s': State<T>, t: Tid, u: Tid, h: nat, lo: nat, mid: nat, hi: nat)
    requires Gentle(s, s', t) && u != t && lo <= mid && AllSlots(s.slots, lo, mid, Moved(u)) &&
      Waits(s.slots, u, mid, hi)
    requires LocatedAll(s.ring, s.live, h, lo, hi)
    ensures LocatedAll(s'.ring, s'.live, h, lo, hi)
  {
    forall i | lo <= i < hi ensures Located(s'.ring, s'.live, h, i) {
      assert Located(s.ring, s.live, h, i);
      assert Theirs(s.slots[i], t);
    }
  }

  lemma WaitsKept<T>(s: State<T>, s': State<T>, t: Tid, u: Tid, lo: nat, hi: nat, x: Slot)
    requires SlotsKept(s.slots, s'.slots, t) && u != t && (x == Waiting(u) || x == Moved(u)) &&
      AllSlots(s.slots, lo, hi, x)
    ensures AllSlots(s'.slots, lo, hi, x)
  {
  }

  lemma OtherReading<T>(s: State<T>, s': State<T>, t: Tid, u: Tid, pc: ConsumerPC)
    requires Gentle(s, s', t) && u != t && TailKept(s.ring, s'.ring, pc)
    requires pc.CHeader? || pc.CTail? || pc.CKey? || pc.CValue?
    requires ConsumerOk(s.ring, s.live, s.place, s.slots, u, pc)
    ensures ConsumerOk(s'.ring, s'.live, s'.place, s'.slots, u, pc)
  {
    WaitsKept(s, s', t, u, pc.pos, pc.end, Waiting(u));
    if !pc.CHeader? {
      LocatedKept(s, s', t, u, pc.h, pc.pos, pc.pos, pc.end);
    }
  }

  lemma OtherMoving<T>(s: State<T>, s': State<T>, t: Tid, u: Tid, pc: ConsumerPC)
    requires Gentle(s, s', t) && u != t && (pc.CMove? || pc.CCount?)
    requires ConsumerOk(s.ring, s.live, s.place, s.slots, u, pc)
    ensures ConsumerOk(s'.ring, s'.live, s'.place, s'.slots, u, pc)
  {
    var mid := if pc.CMove? then pc.pos else pc.stop;
    WaitsKept(s, s', t, u, pc.start, mid, Moved(u));
    WaitsKept(s, s', t, u, mid, pc.end, Waiting(u));
    LocatedKept(s, s', t, u, pc.h, pc.start, mid, pc.end);
    assert Theirs(s.slots[pc.start], t);
  }

  lemma OtherFreeing<T>(s: State<T>, s': State<T>, t: Tid, u: Tid, pc: ConsumerPC)
    requires Gentle(s, s', t) && u != t && (pc.CNull? || pc.CFree?)
    requires ConsumerOk(s.ring, s.live, s.place, s.slots, u, pc)
    ensures ConsumerOk(s'.ring, s'.live, s'.place, s'.slots, u, pc)
  {
    WaitsKept(s, s', t, u, pc.stop, pc.end, Waiting(u));
    LocatedKept(s, s', t, u, pc.h, pc.stop, pc.stop, pc.end);
    if pc.CNull? {
      assert Clearing(EntryAt(s.ring, pc.h, pc.slot), s.place, |s.slots|, t);
      assert Base(BlockOf(pc.stop - 1)) < |s.slots|;
    }
  }

  lemma OtherConsumer<T>(s: State<T>, s': State<T>, t: Tid, u: Tid, pc: ConsumerPC)
    requires Gentle(s, s', t) && u != t && TailKept(s.ring, s'.ring, pc)
    requires ConsumerOk(s.ring, s.live, s.place, s.slots, u, pc)
    ensures ConsumerOk(s'.ring, s'.live, s'.place, s'.slots, u, pc)
  {
    if pc.CHeader? || pc.CTail? || pc.CKey? || pc.CValue? {
      OtherReading(s, s', t, u, pc);
    } else if pc.CMove? || pc.CCount? {
      OtherMoving(s, s', t, u, pc);
    } else if pc.CNull? || pc.CFree? {
      OtherFreeing(s, s', t, u, pc);
    }
  }

  /** A step of consumer `t` keeps every consumer right when it is right about `t` and gentle to the rest. */
  lemma ConsumersStep<T>(s: State<T>, s': State<T>, t: Tid)
    requires Gentle(s, s', t) && t < |s.consumers| && |s'.consumers| == |s.consumers| &&
      s'.consumers == s.consumers[t := s'.consumers[t]]
    requires ConsumersOk(s.ring, s.live, s.place, s.slots, s.consumers)
    requires |s'.ring.headers| == |s.ring.headers| && forall h :: 0 <= h < |s.ring.headers| ==>
      s'.ring.headers[h] == s.ring.headers[h]
    requires ConsumerOk(s'.ring, s'.live, s'.place, s'.slots, t, s'.consumers[t])
    ensures ConsumersOk(s'.ring, s'.live, s'.place, s'.slots, s'.consumers)
  {
    hide Gentle, ConsumerOk;
    forall u | 0 <= u < |s'.consumers| ensures ConsumerOk(s'.ring, s'.live, s'.place, s'.slots, u, s'.consumers[u]) {
      if u != t {
        OtherConsumer(s, s', t, u, s.consumers[u]);
      }
    }
  }

  /** A step of the producer or of the outside world concerns no consumer directly. */
  lemma ConsumersUntouched<T>(s: State<T>, s': State<T>)
    requires Gentle(s, s', |s.consumers|) && s'.consumers == s.consumers
    requires ConsumersOk(s.ring, s.live, s.place, s.slots, s.consumers)
    requires forall u :: 0 <= u < |s.consumers| ==> TailKept(s.ring, s'.ring, s.consumers[u])
    ensures ConsumersOk(s'.ring, s'.live, s'.place, s'.slots, s'.consumers)
  {
    hide Gentle, ConsumerOk, TailKept;
    forall u | 0 <= u < |s'.consumers| ensures ConsumerOk(s'.ring, s'.live, s'.place, s'.slots, u, s'.consumers[u]) {
      OtherConsumer(s, s', |s.consumers|, u, s.consumers[u]);
    }
  }
}

/** Every step of a consumer keeps the invariant. */
module ImplicitConsumer {
  import opened Options
  import opened Modular
  import opened BlockIndex
  import opened BlockIndexInvariant
  import opened ImplicitProducer
  import opened ImplicitInvariant
  import opened ImplicitFrames

  // ---- counting dequeued elements ----

  lemma {:induction false} CountBound(slots: seq<Slot>, lo: nat, n: nat)
    ensures CountFrom(slots, lo, n) <= n
  {
    if n > 0 { CountBound(slots, lo, n - 1); }
  }

  lemma {:induction false} CountSame(a: seq<Slot>, b: seq<Slot>, lo: nat, n: nat)
    requires forall i :: lo <= i < lo + n ==> (i < |a| && a[i] == Counted <==> i < |b| && b[i] == Counted)
    ensures CountFrom(a, lo, n) == CountFrom(b, lo, n)
  {
    if n > 0 { CountSame(a, b, lo, n - 1); }
  }

  lemma {:induction false} CountNone(slots: seq<Slot>, lo: nat, n: nat)
    requires |slots| <= lo
    ensures CountFrom(slots, lo, n) == 0
  {
    if n > 0 { CountNone(slots, lo, n - 1); }
  }

  lemma {:induction false} CountMarked(a: seq<Slot>, b: seq<Slot>, lo: nat, n: nat, from: nat, to: nat)
    requires lo <= from <= to <= lo + n && to <= |a| == |b|
    requires forall i :: 0 <= i < |a| ==> b[i] == (if from <= i < to then Counted else a[i])
    requires forall i :: from <= i < to ==> a[i] != Counted
    ensures CountFrom(b, lo, n) == CountFrom(a, lo, n) + (to - from)
    decreases n, 1
  {
    if n > 0 {
      if to == lo + n && from < to {
        CountMarkedLast(a, b, lo, n, from, to);
      } else if from == to {
        CountSame(a, b, lo, n);
      } else {
        CountMarked(a, b, lo, n - 1, from, to);
      }
    }
  }

  lemma {:induction false} CountMarkedLast(a: seq<Slot>, b: seq<Slot>, lo: nat, n: nat, from: nat, to: nat)
    requires n > 0 && lo <= from < to == lo + n && to <= |a| == |b|
    requires forall i :: 0 <= i < |a| ==> b[i] == (if from <= i < to then Counted else a[i])
    requires forall i :: from <= i < to ==> a[i] != Counted
    ensures CountFrom(b, lo, n) == CountFrom(a, lo, n) + (to - from)
    decreases n, 0
  {
    var c := b[to - 1 := a[to - 1]];
    CountMarked(a, c, lo, n - 1, from, to - 1);
    CountSame(b, c, lo, n - 1);
  }

  lemma {:induction false} CountFull(slots: seq<Slot>, lo: nat, n: nat)
    requires CountFrom(slots, lo, n) == n
    ensures lo + n <= |slots| || n == 0
    ensures forall i :: lo <= i < lo + n ==> slots[i] == Counted
  {
    if n > 0 {
      CountBound(slots, lo, n - 1);
      CountFull(slots, lo, n - 1);
    }
  }

  // ---- what consumers do to the producer: nothing ----

  /** Only entry values changed, and only to null. */
  ghost predicate OnlyClears(r: Ring, r': Ring) {
    && r'.headers == r.headers && r'.last == r.last && |r'.entries| == |r.entries|
    && (forall e :: 0 <= e < |r.entries| ==>
      && r'.entries[e].key == r.entries[e].key
      && (r'.entries[e].value == r.entries[e].value || r'.entries[e].value == None))
  }

  ghost predicate TransitKept<T>(s: State<T>, s': State<T>) {
    forall b :: b in s.place && s.place[b] == Transit ==>
      b in s'.place && s'.place[b] == Transit && (b in s.done ==> b in s'.done && s'.done[b] == s.done[b])
  }

  /** Only blocks of fully dequeued, hence published, numbers leave the live ones. */
  ghost predicate LiveShrinks(live: map<int, Block>, live': map<int, Block>, first: nat) {
    && (forall k :: k in live' ==> k in live && live'[k] == live[k])
    && (forall k :: k in live && k >= first ==> k in live')
  }

  ghost predicate WritesKept<T>(s: State<T>, s': State<T>) {
    && (s.producer.PWrite? && Written(s, s.producer.xs, s.producer.got, s.producer.n) ==>
      Written(s', s.producer.xs, s.producer.got, s.producer.n))
    && (s.producer.PPublish? && Written(s, s.producer.xs, s.producer.got, |s.producer.xs|) ==>
      Written(s', s.producer.xs, s.producer.got, |s.producer.xs|))
  }

  ghost predicate Aside<T>(s: State<T>, s': State<T>) {
    && s'.tail == s.tail && s'.tailBlock == s.tailBlock && s'.producer == s.producer && s.head <= s'.head
    && OnlyClears(s.ring, s'.ring)
    && TransitKept(s, s')
    && LiveShrinks(s.live, s'.live, FirstNew(s.tail))
    && WritesKept(s, s')
  }

  lemma OnlyClearsUsable(r: Ring, r': Ring)
    requires OnlyClears(r, r') && Usable(r)
    ensures Usable(r')
  {
    forall h | 0 <= h < |r'.headers| ensures HeaderShape(r', h) {
      assert HeaderShape(r, h);
    }
  }

  lemma NewKeyKept<T>(s: State<T>, s': State<T>, k: int)
    requires Aside(s, s') && NewKeyStored(s.ring, s.live, k)
    ensures NewKeyStored(s'.ring, s'.live, k)
  {
    OnlyClearsUsable(s.ring, s'.ring);
  }

  lemma UndoingKept<T>(s: State<T>, s': State<T>, got: seq<Block>, j: nat)
    requires Aside(s, s') && Undoing(s, got, j)
    ensures Undoing(s', got, j)
  {
    if |got| > 0 {
      OnlyClearsUsable(s.ring, s'.ring);
      forall k | FirstNew(s.tail) <= k < FirstNew(s.tail) + |got|
        ensures EntryOf(s'.ring, Current(s'.ring), k).key == Base(k) {
        assert EntryOf(s.ring, Current(s.ring), k).key == Base(k);
      }
    }
  }

  lemma TryingKept<T>(s: State<T>, s': State<T>, xs: seq<T>, got: seq<Block>)
    requires Aside(s, s')
    ensures Trying(s, xs, got) ==> Trying(s', xs, got)
    ensures TryingNext(s, xs, got) ==> TryingNext(s', xs, got)
  {
  }

  lemma TryingAside<T>(s: State<T>, s': State<T>)
    requires PhaseOk(s) && Aside(s, s') && !Taking(s.producer) && !TakingBack(s.producer)
    ensures PhaseOk(s')
  {
    hide Aside, Trying, TryingNext, Undoing, NewKeyStored;
    ProducerAsideBounds(s, s');
    match s.producer {
      case PIdle =>
      case PNext(xs, got) => TryingKept(s, s', xs, got);
      case PSlot(xs, got) => TryingKept(s, s', xs, got);
      case PGrow(xs, got) => TryingKept(s, s', xs, got);
      case PKey(xs, got) => TryingKept(s, s', xs, got);
      case PWrite(xs, got, n) => TryingKept(s, s', xs, got);
      case PPublish(xs, got) => TryingKept(s, s', xs, got);
    }
  }

  predicate Taking<T>(pc: ProducerPC<T>) {
    pc.PTail? || pc.PBlock? || pc.PReset? || pc.PValue?
  }

  predicate TakingBack<T>(pc: ProducerPC<T>) {
    pc.PRewind? || pc.PNull? || pc.PUndoFind? || pc.PUndoNull? || pc.PUndoTail? || pc.PFree?
  }

  lemma TakingAside<T>(s: State<T>, s': State<T>)
    requires PhaseOk(s) && Aside(s, s') && Taking(s.producer)
    ensures PhaseOk(s')
  {
    hide Aside, Trying, TryingNext, Undoing, NewKeyStored;
    ProducerAsideBounds(s, s');
    TryingKept(s, s', s.producer.xs, s.producer.got);
    NewKeyKept(s, s', NextBlock(s.tail, s.producer.got));
  }

  lemma TakingBackAside<T>(s: State<T>, s': State<T>)
    requires PhaseOk(s) && Aside(s, s') && TakingBack(s.producer)
    ensures PhaseOk(s')
  {
    hide Aside, Trying, TryingNext, Undoing, NewKeyStored;
    ProducerAsideBounds(s, s');
    match s.producer {
      case PRewind(got) => NewKeyKept(s, s', NextBlock(s.tail, got));
      case PNull(got) => NewKeyKept(s, s', NextBlock(s.tail, got));
      case PUndoFind(got, j) => UndoingKept(s, s', got, j);
      case PUndoNull(got, j, e) => UndoingKept(s, s', got, j);
      case PUndoTail(got, j) => UndoingKept(s, s', got, j + 1);
      case PFree(got, j) =>
    }
  }

  lemma ProducerAside<T>(s: State<T>, s': State<T>)
    requires ProducerOk(s) && Aside(s, s')
    ensures ProducerOk(s')
  {
    hide Aside, PhaseOk;
    ProducerAsideBounds(s, s');
    if Taking(s.producer) {
      TakingAside(s, s');
    } else if TakingBack(s.producer) {
      TakingBackAside(s, s');
    } else {
      TryingAside(s, s');
    }
  }

  lemma ProducerAsideBounds<T>(s: State<T>, s': State<T>)
    requires Aside(s, s')
    ensures s'.tail == s.tail && s'.producer == s.producer && s'.tailBlock == s.tailBlock
    ensures Reach(s.head, FirstNew(s.tail)) ==> Reach(s'.head, FirstNew(s.tail))
    ensures forall m: nat :: LiveBelow(s.live, m) ==> LiveBelow(s'.live, m)
    ensures Usable(s.ring) ==> Usable(s'.ring)
    ensures Usable(s.ring) && IsFree(s.ring, NewEntry(s.ring)) ==> IsFree(s'.ring, NewEntry(s'.ring))
    ensures |s'.ring.entries| == |s.ring.entries| && forall e :: 0 <= e < |s.ring.entries| ==>
      s'.ring.entries[e].key == s.ring.entries[e].key
    ensures TransitKept(s, s') && WritesKept(s, s')
    ensures GotLive(s.live, FirstNew(s.tail), Got(s.producer), 0) ==>
      GotLive(s'.live, FirstNew(s.tail), Got(s.producer), 0)
  {
    if Usable(s.ring) { OnlyClearsUsable(s.ring, s'.ring); }
  }

  // ---- the steps ----

  /** A step that changes nothing but the consumer's own program counter. */
  lemma QuietStep<T>(s: State<T>, s': State<T>, t: Tid)
    requires Inv(s) && t < |s.consumers| && |s'.consumers| == |s.consumers| &&
      s' == s.(consumers := s.consumers[t := s'.consumers[t]])
    requires ConsumerOk(s.ring, s.live, s.place, s.slots, t, s'.consumers[t])
    requires !s.consumers[t].CNull? && !s.consumers[t].CFree?
    ensures Inv(s')
  {
    QuietPlaces(s, s', t);
    QuietProducer(s, s', t);
    QuietGentle(s, s', t);
    ConsumersStep(s, s', t);
  }

  lemma QuietPlaces<T>(s: State<T>, s': State<T>, t: Tid)
    requires PlacesOk(s.place, s.live, s.producer, s.consumers) && t < |s.consumers| && |s'.consumers| == |s.consumers|
    requires s'.consumers == s.consumers[t := s'.consumers[t]] && !s.consumers[t].CNull? && !s.consumers[t].CFree?
    ensures PlacesOk(s.place, s.live, s.producer, s'.consumers)
  {
    forall b | b in s.place ensures PlaceOk(s.place[b], s.live, s.producer, s'.consumers, b) {
      assert PlaceOk(s.place[b], s.live, s.producer, s.consumers, b);
    }
  }

  lemma QuietProducer<T>(s: State<T>, s': State<T>, t: Tid)
    requires ProducerOk(s) && t < |s.consumers| && |s'.consumers| == |s.consumers| &&
      s' == s.(consumers := s'.consumers)
    ensures ProducerOk(s')
  {
    assert WritesKept(s, s') by {
      SameWritten(s, s');
    }
    ProducerAside(s, s');
  }

  lemma SameWritten<T>(s: State<T>, s': State<T>)
    requires s'.tail == s.tail && s'.tailBlock == s.tailBlock && s'.cells == s.cells && s'.producer == s.producer
    ensures WritesKept(s, s')
  {
    if s.producer.PWrite? && Written(s, s.producer.xs, s.producer.got, s.producer.n) {
      forall j | 0 <= j < s.producer.n ensures WrittenAt(s', s.producer.xs, s.producer.got, j) {
        assert WrittenAt(s, s.producer.xs, s.producer.got, j);
      }
    }
    if s.producer.PPublish? && Written(s, s.producer.xs, s.producer.got, |s.producer.xs|) {
      forall j | 0 <= j < |s.producer.xs| ensures WrittenAt(s', s.producer.xs, s.producer.got, j) {
        assert WrittenAt(s, s.producer.xs, s.producer.got, j);
      }
    }
  }

  lemma QuietGentle<T>(s: State<T>, s': State<T>, t: Tid)
    requires s'.slots == s.slots && s'.live == s.live && s'.ring == s.ring && s'.place == s.place
    ensures Gentle(s, s', t)
  {
  }

  /** Elements waiting to be moved are in live blocks that the current array finds. */
  lemma WaitingLocated<T>(s: State<T>, t: Tid, pos: nat, end: nat)
    requires Inv(s) && pos < end && Waits(s.slots, t, pos, end)
    ensures Usable(s.ring) && RingInv(s.ring) && LocatedAll(s.ring, s.live, Current(s.ring), pos, end)
    ensures KeyInPlace(s.ring, Current(s.ring), s.ring.headers[Current(s.ring)].tail)
  {
    forall i | pos <= i < end ensures BlockOf(i) in s.live {
      assert ElementOk(s.slots, s.live, s.cells, i, s.items[i]);
    }
    var q := BlockOf(pos);
    forall i | pos <= i < end ensures Located(s.ring, s.live, Current(s.ring), i) {
      assert LiveAt(s.ring, Top(s.tail, s.producer), BlockOf(i), s.live[BlockOf(i)]);
    }
    LastInRange(s, q);
    TailKeyInPlace(s.ring, Top(s.tail, s.producer), q, s.live[q]);
  }

  /** The tail always stands for a block between the published ones and the newest. */
  lemma LastInRange<T>(s: State<T>, q: int)
    requires RangesOk(s.tail, s.head, s.slots, s.items, s.taken) && ProducerOk(s) && Base(q) < s.tail
    ensures q <= FirstNew(s.tail) - 1 <= Last(s.tail, s.producer) <= Top(s.tail, s.producer)
  {
  }

  lemma TailKeyInPlace(r: Ring, top: int, q: int, b: Block)
    requires RingInv(r) && LiveAt(r, top, q, b) && q <= r.last <= top
    ensures KeyInPlace(r, Current(r), r.headers[Current(r)].tail)
  {
    assert EntryOf(r, Current(r), r.last).key == Base(r.last);
    CongruentMod(r.last + r.headers[Current(r)].shift, r.headers[Current(r)].capacity);
  }

  lemma HeaderStep<T>(s: State<T>, t: Tid)
    requires Inv(s) && t < |s.consumers| && s.consumers[t].CHeader?
    ensures Usable(s.ring) && Inv(Apply(s, Consume(t)))
  {
    assert ConsumerOk(s.ring, s.live, s.place, s.slots, t, s.consumers[t]);
    WaitingLocated(s, t, s.consumers[t].pos, s.consumers[t].end);
    QuietStep(s, Apply(s, Consume(t)), t);
  }

  lemma TailStep<T>(s: State<T>, t: Tid)
    requires Inv(s) && t < |s.consumers| && s.consumers[t].CTail?
    ensures s.consumers[t].h < |s.ring.headers| && Inv(Apply(s, Consume(t)))
  {
    assert ConsumerOk(s.ring, s.live, s.place, s.slots, t, s.consumers[t]);
    QuietStep(s, Apply(s, Consume(t)), t);
  }

  /** The lookup: its two assertions hold, and the slot it computes is the block's own. */
  lemma KeyStep<T>(s: State<T>, t: Tid)
    requires Inv(s) && t < |s.consumers| && s.consumers[t].CKey?
    ensures InArray(s.ring, s.consumers[t].h, s.consumers[t].tail)
    ensures EntryAt(s.ring, s.consumers[t].h, s.consumers[t].tail).key != INVALID_BLOCK_BASE
    ensures Inv(Apply(s, Consume(t)))
  {
    hide IndexOk, ElementsOk, BlocksOk, CellsOk, PlacesOk, TailBlockOk, ProducerOk;
    var CKey(pos, end, h, tail) := s.consumers[t];
    assert ConsumerOk(s.ring, s.live, s.place, s.slots, t, s.consumers[t]);
    LookupIsSlot(s.ring, h, tail, BlockOf(pos));
    CongruentMod(BlockOf(pos) + s.ring.headers[h].shift, s.ring.headers[h].capacity);
    QuietStep(s, Apply(s, Consume(t)), t);
  }

  lemma ValueStep<T>(s: State<T>, t: Tid)
    requires Inv(s) && t < |s.consumers| && s.consumers[t].CValue?
    ensures InArray(s.ring, s.consumers[t].h, s.consumers[t].slot)
    ensures var k := BlockOf(s.consumers[t].pos);
      k in s.live && EntryAt(s.ring, s.consumers[t].h, s.consumers[t].slot) == Entry(Base(k), Some(s.live[k]))
    ensures Inv(Apply(s, Consume(t)))
  {
    hide IndexOk, ElementsOk, BlocksOk, CellsOk, PlacesOk, TailBlockOk, ProducerOk;
    var CValue(pos, end, h, slot) := s.consumers[t];
    assert ConsumerOk(s.ring, s.live, s.place, s.slots, t, s.consumers[t]);
    assert Located(s.ring, s.live, h, pos);
    QuietStep(s, Apply(s, Consume(t)), t);
  }

  lemma MoveEndStep<T>(s: State<T>, t: Tid)
    requires Inv(s) && t < |s.consumers| && s.consumers[t].CMove? && s.consumers[t].pos >= s.consumers[t].stop
    ensures Inv(Apply(s, Consume(t)))
  {
    hide IndexOk, ElementsOk, BlocksOk, CellsOk, PlacesOk, TailBlockOk, ProducerOk;
    assert ConsumerOk(s.ring, s.live, s.place, s.slots, t, s.consumers[t]);
    QuietStep(s, Apply(s, Consume(t)), t);
  }

  // ---- claiming ----

  lemma ClaimStep<T>(s: State<T>, t: Tid, n: nat)
    requires Inv(s) && Enabled(s, Action.Claim(t, n)) && n >= 1
    ensures Inv(Apply(s, Action.Claim(t, n)))
  {
    var s' := Apply(s, Action.Claim(t, n));
    forall i | 0 <= i < |s'.items| ensures ElementOk(s'.slots, s'.live, s'.cells, i, s'.items[i]) {
      assert ElementOk(s.slots, s.live, s.cells, i, s.items[i]);
    }
    ClaimBlocks(s, t, n);
    QuietPlaces(s, s', t);
    SameWritten(s, s');
    ProducerAside(s, s');
    ClaimGentle(s, s', t);
    ConsumersStep(s, s', t);
  }

  lemma ClaimGentle<T>(s: State<T>, s': State<T>, t: Tid)
    requires s.slots <= s'.slots && s'.live == s.live && s'.ring == s.ring && s'.place == s.place
    ensures Gentle(s, s', t)
  {
  }

  lemma ClaimBlocks<T>(s: State<T>, t: Tid, n: nat)
    requires BlocksOk(s.live, s.place, s.done, s.slots)
    ensures BlocksOk(s.live, s.place, s.done, s.slots + seq(n, _ => Waiting(t)))
  {
    var slots' := s.slots + seq(n, _ => Waiting(t));
    forall k | k in s.live ensures BlockOk(s.live, s.place, s.done, slots', k) {
      assert BlockOk(s.live, s.place, s.done, s.slots, k);
      CountSame(s.slots, slots', Base(k), BLOCK_SIZE);
    }
  }

  // ---- moving an element out ----

  lemma MoveStep<T>(s: State<T>, t: Tid)
    requires Inv(s) && t < |s.consumers| && s.consumers[t].CMove? && s.consumers[t].pos < s.consumers[t].stop
    ensures Inv(Apply(s, Consume(t)))
    ensures Apply(s, Consume(t)).taken == s.taken[s.consumers[t].pos := s.items[s.consumers[t].pos]]
  {
    hide ConsumerOk, Gentle, ProducerOk, ElementsOk, BlocksOk, PlacesOk, CellsOk, IndexOk;
    var s' := Apply(s, Consume(t));
    var pos, b := s.consumers[t].pos, s.consumers[t].b;
    ConsumerIsOk(s, t);
    MoveFinds(s, t);
    MoveElements(s, s', pos, b);
    MoveBlocks(s, s', pos);
    QuietPlaces(s, s', t);
    MoveProducer(s, s', pos, b);
    MoveSelf(s, s', t);
    ConsumersStep(s, s', t);
  }

  lemma ConsumerIsOk<T>(s: State<T>, t: Tid)
    requires Inv(s) && t < |s.consumers|
    ensures ConsumerOk(s.ring, s.live, s.place, s.slots, t, s.consumers[t])
  {
  }

  lemma MoveProducer<T>(s: State<T>, s': State<T>, pos: nat, b: Block)
    requires ProducerOk(s) && BlocksOk(s.live, s.place, s.done, s.slots) && TailBlockOk(s.tail, s.live, s.tailBlock)
    requires pos < s.tail && BlockOf(pos) in s.live && s.live[BlockOf(pos)] == b
    requires b in s.cells && |s.cells[b]| == BLOCK_SIZE && s'.cells == s.cells[b := s.cells[b][CellOf(pos) := None]]
    requires s' == s.(cells := s'.cells, taken := s'.taken, slots := s'.slots, consumers := s'.consumers)
    ensures ProducerOk(s')
  {
    MoveWrites(s, s', pos, b);
    ProducerAside(s, s');
  }

  /** The cell about to be moved out holds the element that was enqueued at its index. */
  lemma MoveFinds<T>(s: State<T>, t: Tid)
    requires Inv(s) && t < |s.consumers| && s.consumers[t].CMove? && s.consumers[t].pos < s.consumers[t].stop
    ensures s.consumers[t].pos < |s.slots| <= |s.items| && s.slots[s.consumers[t].pos] == Waiting(t)
    ensures BlockOf(s.consumers[t].pos) == BlockOf(s.consumers[t].start) &&
      LiveIs(s.live, BlockOf(s.consumers[t].pos), s.consumers[t].b)
    ensures CellHolds(s.cells, s.consumers[t].b, s.consumers[t].pos, s.items[s.consumers[t].pos])
    ensures Cells(s.cells, s.consumers[t].b)[CellOf(s.consumers[t].pos)] == Some(s.items[s.consumers[t].pos])
  {
    var pc := s.consumers[t];
    assert ConsumerOk(s.ring, s.live, s.place, s.slots, t, pc);
    assert ElementOk(s.slots, s.live, s.cells, pc.pos, s.items[pc.pos]);
  }

  /** Two elements in the same cell of the same live block are the same element. */
  lemma SameCell(live: map<int, Block>, place: map<Block, Place>, done: map<Block, nat>, slots: seq<Slot>, i: nat,
      j: nat)
    requires BlocksOk(live, place, done, slots) && BlockOf(i) in live && BlockOf(j) in live
    ensures live[BlockOf(i)] == live[BlockOf(j)] && CellOf(i) == CellOf(j) ==> i == j
  {
    assert BlockOk(live, place, done, slots, BlockOf(i)) && BlockOk(live, place, done, slots, BlockOf(j));
  }

  lemma MoveElements<T>(s: State<T>, s': State<T>, pos: nat, b: Block)
    requires ElementsOk(s.slots, s.live, s.cells, s.items) && BlocksOk(s.live, s.place, s.done, s.slots) &&
      CellsOk(s.place, s.cells)
    requires pos < |s.slots| && s.slots[pos].Waiting? && BlockOf(pos) in s.live && s.live[BlockOf(pos)] == b
    requires |s'.slots| == |s.slots| && s'.slots == s.slots[pos := s'.slots[pos]] && s'.slots[pos].Moved?
    requires b in s.cells && |s.cells[b]| == BLOCK_SIZE && s'.cells == s.cells[b := s.cells[b][CellOf(pos) := None]]
    requires s'.live == s.live && s'.items == s.items && s'.place == s.place
    ensures ElementsOk(s'.slots, s'.live, s'.cells, s'.items) && CellsOk(s'.place, s'.cells)
  {
    forall i | 0 <= i < |s'.items| ensures ElementOk(s'.slots, s'.live, s'.cells, i, s'.items[i]) {
      assert ElementOk(s.slots, s.live, s.cells, i, s.items[i]);
      if BlockOf(i) in s.live {
        SameCell(s.live, s.place, s.done, s.slots, i, pos);
      }
    }
  }

  lemma MoveBlocks<T>(s: State<T>, s': State<T>, pos: nat)
    requires BlocksOk(s.live, s.place, s.done, s.slots) && s'.live == s.live && s'.place == s.place && s'.done == s.done
    requires pos < |s.slots| == |s'.slots| && s'.slots == s.slots[pos := s'.slots[pos]] && s.slots[pos].Waiting? &&
      s'.slots[pos].Moved?
    ensures BlocksOk(s'.live, s'.place, s'.done, s'.slots)
  {
    forall k | k in s.live ensures BlockOk(s'.live, s'.place, s'.done, s'.slots, k) {
      assert BlockOk(s.live, s.place, s.done, s.slots, k);
      CountSame(s.slots, s'.slots, Base(k), BLOCK_SIZE);
    }
  }

  /** The block an element of the current call goes to is live under the element's block number. */
  lemma WriteBlockLive<T>(s: State<T>, xs: seq<T>, got: seq<Block>, j: nat)
    requires GotLive(s.live, FirstNew(s.tail), got, 0) && TailBlockOk(s.tail, s.live, s.tailBlock)
    requires j < |xs| && Base(NextBlock(s.tail, got)) >= s.tail + |xs|
    ensures BlockOf(s.tail + j) in s.live && WriteBlock(s.tail, s.tailBlock, got, j) ==
      Some(s.live[BlockOf(s.tail + j)])
  {
    var k := BlockOf(s.tail + j) - FirstNew(s.tail);
    if k >= 0 {
      assert got[k] == got[k];
      assert LiveIs(s.live, FirstNew(s.tail) + k, got[k]);
    } else {
      assert BlockOf(s.tail + j) == BlockOf(s.tail);
    }
  }

  lemma MoveKeepsWritten<T>(s: State<T>, s': State<T>, pos: nat, b: Block, xs: seq<T>, got: seq<Block>, n: nat)
    requires BlocksOk(s.live, s.place, s.done, s.slots) && TailBlockOk(s.tail, s.live, s.tailBlock)
    requires GotLive(s.live, FirstNew(s.tail), got, 0) && Base(NextBlock(s.tail, got)) >= s.tail + |xs| &&
      Written(s, xs, got, n)
    requires pos < s.tail && BlockOf(pos) in s.live && s.live[BlockOf(pos)] == b
    requires b in s.cells && |s.cells[b]| == BLOCK_SIZE && s'.cells == s.cells[b := s.cells[b][CellOf(pos) := None]]
    requires s'.tail == s.tail && s'.tailBlock == s.tailBlock
    ensures Written(s', xs, got, n)
  {
    forall j | 0 <= j < n ensures WrittenAt(s', xs, got, j) {
      assert WrittenAt(s, xs, got, j);
      WriteBlockLive(s, xs, got, j);
      SameCell(s.live, s.place, s.done, s.slots, s.tail + j, pos);
    }
  }

  lemma MoveWrites<T>(s: State<T>, s': State<T>, pos: nat, b: Block)
    requires BlocksOk(s.live, s.place, s.done, s.slots) && TailBlockOk(s.tail, s.live, s.tailBlock) && PhaseOk(s)
    requires pos < s.tail && BlockOf(pos) in s.live && s.live[BlockOf(pos)] == b
    requires b in s.cells && |s.cells[b]| == BLOCK_SIZE && s'.cells == s.cells[b := s.cells[b][CellOf(pos) := None]]
    requires s'.tail == s.tail && s'.tailBlock == s.tailBlock && s'.producer == s.producer
    ensures WritesKept(s, s')
  {
    if s.producer.PWrite? {
      MoveKeepsWritten(s, s', pos, b, s.producer.xs, s.producer.got, s.producer.n);
    } else if s.producer.PPublish? {
      MoveKeepsWritten(s, s', pos, b, s.producer.xs, s.producer.got, |s.producer.xs|);
    }
  }

  lemma MoveSelf<T>(s: State<T>, s': State<T>, t: Tid)
    requires t < |s.consumers| && s.consumers[t].CMove? &&
      ConsumerOk(s.ring, s.live, s.place, s.slots, t, s.consumers[t])
    requires s.consumers[t].pos < s.consumers[t].stop && s.consumers[t].pos < |s.slots|
    requires s'.slots == s.slots[s.consumers[t].pos := Moved(t)] && |s'.consumers| == |s.consumers|
    requires var CMove(start, pos, stop, end, h, slot, b) := s.consumers[t];
      s'.consumers[t] == CMove(start, pos + 1, stop, end, h, slot, b)
    requires s'.live == s.live && s'.ring == s.ring && s'.place == s.place
    ensures Gentle(s, s', t) && ConsumerOk(s'.ring, s'.live, s'.place, s'.slots, t, s'.consumers[t])
  {
  }

  // ---- counting moved elements, and freeing a block that is empty ----

  ghost predicate CountsPiece(a: seq<Slot>, b: seq<Slot>, start: nat, stop: nat, t: Tid) {
    && start < stop <= |a| == |b| && BlockOf(stop - 1) == BlockOf(start)
    && AllSlots(a, start, stop, Moved(t))
    && forall i :: 0 <= i < |a| ==> b[i] == (if start <= i < stop then Counted else a[i])
  }

  lemma CountOther(live: map<int, Block>, place: map<Block, Place>, done: map<Block, nat>, slots: seq<Slot>,
      slots': seq<Slot>, start: nat, stop: nat, t: Tid, n: nat, k: int)
    requires CountsPiece(slots, slots', start, stop, t) && BlockOk(live, place, done, slots, k)
    requires BlockOf(start) in live && live[BlockOf(start)] in place &&
      place[live[BlockOf(start)]] == Installed(BlockOf(start)) && k != BlockOf(start)
    ensures BlockOk(live, place, done[live[BlockOf(start)] := n], slots', k)
  {
    CountSame(slots, slots', Base(k), BLOCK_SIZE);
  }

  lemma CountThis(slots: seq<Slot>, slots': seq<Slot>, start: nat, stop: nat, t: Tid)
    requires CountsPiece(slots, slots', start, stop, t)
    ensures CountFrom(slots', Base(BlockOf(start)), BLOCK_SIZE) == CountFrom(slots, Base(BlockOf(start)), BLOCK_SIZE) +
      (stop - start) <= BLOCK_SIZE
  {
    CountMarked(slots, slots', Base(BlockOf(start)), BLOCK_SIZE, start, stop);
    CountBound(slots', Base(BlockOf(start)), BLOCK_SIZE);
  }

  lemma CountElements<T>(s: State<T>, s': State<T>, start: nat, stop: nat, t: Tid)
    requires ElementsOk(s.slots, s.live, s.cells, s.items) && CountsPiece(s.slots, s'.slots, start, stop, t)
    requires s'.cells == s.cells && s'.items == s.items
    requires s'.live == s.live || (s'.live == s.live - {BlockOf(start)} &&
      CountFrom(s'.slots, Base(BlockOf(start)), BLOCK_SIZE) == BLOCK_SIZE)
    ensures ElementsOk(s'.slots, s'.live, s'.cells, s'.items)
  {
    if s'.live != s.live {
      CountFull(s'.slots, Base(BlockOf(start)), BLOCK_SIZE);
    }
    forall i | 0 <= i < |s'.items| ensures ElementOk(s'.slots, s'.live, s'.cells, i, s'.items[i]) {
      assert ElementOk(s.slots, s.live, s.cells, i, s.items[i]);
      if BlockOf(i) == BlockOf(start) && s'.live != s.live {
        assert s'.slots[i] == Counted;
      }
    }
  }

  /** On to the next block: it lies in the next slot of the same array. */
  lemma NextPieceOk(r: Ring, live: map<int, Block>, place: map<Block, Place>, slots: seq<Slot>, t: Tid, stop: nat,
      end: nat, h: nat, slot: nat)
    requires 0 < stop && Waits(slots, t, stop, end) && (stop < end ==> CellOf(stop) == 0) &&
      LocatedAll(r, live, h, stop, end)
    requires SlotOf(r, h, slot, BlockOf(stop - 1))
    ensures ConsumerOk(r, live, place, slots, t, NextPiece(r, stop, end, h, slot))
  {
    if stop < end {
      var hd := r.headers[h];
      Step(BlockOf(stop - 1) + hd.shift, hd.capacity);
      assert BlockOf(stop) == BlockOf(stop - 1) + 1;
      CongruentMod(BlockOf(stop) + hd.shift, hd.capacity);
    }
  }

  lemma CountSelf<T>(s: State<T>, s': State<T>, t: Tid)
    requires t < |s.consumers| && s.consumers[t].CCount? &&
      ConsumerOk(s.ring, s.live, s.place, s.slots, t, s.consumers[t])
    requires CountsPiece(s.slots, s'.slots, s.consumers[t].start, s.consumers[t].stop, t)
    requires s' == s.(done := s'.done, slots := s'.slots, consumers := s'.consumers) && |s'.consumers| == |s.consumers|
    requires s'.consumers[t] == NextPiece(s.ring, s.consumers[t].stop, s.consumers[t].end, s.consumers[t].h,
      s.consumers[t].slot)
    ensures Gentle(s, s', t) && ConsumerOk(s'.ring, s'.live, s'.place, s'.slots, t, s'.consumers[t])
  {
    var CCount(start, stop, end, h, slot, b) := s.consumers[t];
    NextPieceOk(s'.ring, s'.live, s'.place, s'.slots, t, stop, end, h, slot);
  }

  /** What counting does to one state: the piece is counted, and the block's counter is its number of dequeued
      elements. */
  lemma CountFacts<T>(s: State<T>, t: Tid)
    requires Inv(s) && t < |s.consumers| && s.consumers[t].CCount?
    ensures CountsPiece(s.slots, Apply(s, Consume(t)).slots, s.consumers[t].start, s.consumers[t].stop, t)
    ensures LiveIs(s.live, BlockOf(s.consumers[t].start), s.consumers[t].b)
    ensures BlockOk(s.live, s.place, s.done, s.slots, BlockOf(s.consumers[t].start))
    ensures s.done[s.consumers[t].b] + (s.consumers[t].stop - s.consumers[t].start) ==
      CountFrom(Apply(s, Consume(t)).slots, Base(BlockOf(s.consumers[t].start)), BLOCK_SIZE) <= BLOCK_SIZE
  {
    hide IndexOk, ElementsOk, CellsOk, PlacesOk, TailBlockOk, ProducerOk, LocatedAll;
    ConsumerIsOk(s, t);
    CountThis(s.slots, Apply(s, Consume(t)).slots, s.consumers[t].start, s.consumers[t].stop, t);
  }

  lemma CountSomeStep<T>(s: State<T>, t: Tid)
    requires Inv(s) && t < |s.consumers| && s.consumers[t].CCount?
    requires s.consumers[t].b in s.done && s.done[s.consumers[t].b] +
      (s.consumers[t].stop - s.consumers[t].start) != BLOCK_SIZE
    ensures Inv(Apply(s, Consume(t)))
  {
    hide Gentle, ProducerOk, ElementsOk, PlacesOk, CellsOk, IndexOk, CountsPiece;
    var s' := Apply(s, Consume(t));
    var CCount(start, stop, end, h, slot, b) := s.consumers[t];
    ConsumerIsOk(s, t);
    CountFacts(s, t);
    CountElements(s, s', start, stop, t);
    forall k | k in s'.live ensures BlockOk(s'.live, s'.place, s'.done, s'.slots, k) {
      if k != BlockOf(start) { CountOther(s.live, s.place, s.done, s.slots, s'.slots, start, stop, t, s'.done[b], k); }
    }
    CountTaken(s.tail, s.head, s.slots, s.items, s.taken, s'.slots, start, stop, t);
    QuietPlaces(s, s', t);
    CountProducer(s, s', b);
    CountSelf(s, s', t);
    ConsumersStep(s, s', t);
  }

  lemma CountTaken<T>(tail: nat, head: nat, slots: seq<Slot>, items: seq<T>, taken: map<nat, T>, slots': seq<Slot>,
      start: nat, stop: nat, t: Tid)
    requires RangesOk(tail, head, slots, items, taken) && CountsPiece(slots, slots', start, stop, t)
    ensures RangesOk(tail, head, slots', items, taken)
  {
  }

  lemma CountProducer<T>(s: State<T>, s': State<T>, b: Block)
    requires ProducerOk(s) && b in s.place && s.place[b].Installed? && b in s'.done &&
      s'.done == s.done[b := s'.done[b]]
    requires s' == s.(done := s'.done, slots := s'.slots, consumers := s'.consumers)
    ensures ProducerOk(s')
  {
    SameWritten(s, s');
    ProducerAside(s, s');
  }

  // the last element of the block

  lemma LastPlaces<T>(s: State<T>, s': State<T>, t: Tid, k: int, b: Block)
    requires PlacesOk(s.place, s.live, s.producer, s.consumers) && LiveIs(s.live, k, b) && b in s.place
    requires t < |s.consumers| && |s'.consumers| == |s.consumers| && s'.consumers == s.consumers[t := s'.consumers[t]]
    requires s.consumers[t].CCount? && Frees(s'.consumers[t], b)
    ensures PlacesOk(s.place[b := Released(t)], s.live - {k}, s.producer, s'.consumers)
  {
    var place' := s.place[b := Released(t)];
    forall c | c in place' ensures PlaceOk(place'[c], s.live - {k}, s.producer, s'.consumers, c) {
      if c != b { assert PlaceOk(s.place[c], s.live, s.producer, s.consumers, c); }
    }
  }

  lemma LastBlocks<T>(s: State<T>, s': State<T>, t: Tid, start: nat, stop: nat, n: nat)
    requires BlocksOk(s.live, s.place, s.done, s.slots) && CountsPiece(s.slots, s'.slots, start, stop, t) &&
      BlockOf(start) in s.live
    ensures BlocksOk(s.live - {BlockOf(start)}, s.place[s.live[BlockOf(start)] := Released(t)],
      s.done[s.live[BlockOf(start)] := n], s'.slots)
  {
    var k0 := BlockOf(start);
    assert BlockOk(s.live, s.place, s.done, s.slots, k0);
    forall k | k in s.live && k != k0 ensures BlockOk(s.live - {k0}, s.place[s.live[k0] := Released(t)],
      s.done[s.live[k0] := n], s'.slots, k) {
      assert BlockOk(s.live, s.place, s.done, s.slots, k);
      CountOther(s.live, s.place, s.done, s.slots, s'.slots, start, stop, t, n, k);
    }
  }

  lemma LiveWithout(r: Ring, top: int, live: map<int, Block>, k: int)
    requires LiveInv(r, top, live)
    ensures LiveInv(r, top, live - {k})
  {
    forall q | q in live - {k} ensures LiveAt(r, top, q, (live - {k})[q]) {
      assert LiveAt(r, top, q, live[q]);
    }
  }

  /** The consumer that empties a block finds its entry still naming the block. */
  lemma LastSelf<T>(s: State<T>, s': State<T>, t: Tid)
    requires t < |s.consumers| && s.consumers[t].CCount? &&
      ConsumerOk(s.ring, s.live, s.place, s.slots, t, s.consumers[t])
    requires CountsPiece(s.slots, s'.slots, s.consumers[t].start, s.consumers[t].stop, t)
    requires forall i :: 0 <= i < |s'.slots| && BlockOf(i) == BlockOf(s.consumers[t].start) ==> s'.slots[i] == Counted
    requires s'.live == s.live - {BlockOf(s.consumers[t].start)} &&
      s'.place == s.place[s.consumers[t].b := Released(t)] && s'.ring == s.ring
    requires |s'.consumers| == |s.consumers|
    requires var CCount(start, stop, end, h, slot, b) := s.consumers[t]; s'.consumers[t] == CNull(stop, end, h, slot, b)
    ensures ConsumerOk(s'.ring, s'.live, s'.place, s'.slots, t, s'.consumers[t])
  {
    var CCount(start, stop, end, h, slot, b) := s.consumers[t];
    assert Located(s.ring, s.live, h, start);
    forall i | stop <= i < end ensures Located(s'.ring, s'.live, h, i) {
      assert Located(s.ring, s.live, h, i);
      assert s'.slots[i] == Waiting(t);
    }
  }

  lemma LastGentle<T>(s: State<T>, s': State<T>, t: Tid, k: int, b: Block)
    requires k in s.live && b in s.place && s.place[b] == Installed(k)
    requires s'.live == s.live - {k} && s'.place == s.place[b := Released(t)] && s'.ring == s.ring
    requires |s'.slots| == |s.slots| && forall i :: 0 <= i < |s.slots| && Theirs(s.slots[i], t) ==>
      s'.slots[i] == s.slots[i]
    requires forall i :: 0 <= i < |s.slots| && BlockOf(i) == k ==> s'.slots[i] == Counted
    ensures Gentle(s, s', t)
  {
  }

  lemma CountLastStep<T>(s: State<T>, t: Tid)
    requires Inv(s) && t < |s.consumers| && s.consumers[t].CCount?
    requires s.consumers[t].b in s.done && s.done[s.consumers[t].b] + (s.consumers[t].stop - s.consumers[t].start) ==
      BLOCK_SIZE
    ensures Inv(Apply(s, Consume(t)))
  {
    hide Gentle, ProducerOk, ElementsOk, PlacesOk, BlocksOk, CountsPiece, LiveInv, RingInv, Usable, ConsumerOk;
    var s' := Apply(s, Consume(t));
    var CCount(start, stop, end, h, slot, b) := s.consumers[t];
    ConsumerIsOk(s, t);
    CountFacts(s, t);
    CountElements(s, s', start, stop, t);
    LastBlocks(s, s', t, start, stop, s'.done[b]);
    LastPlaces(s, s', t, BlockOf(start), b);
    CountTaken(s.tail, s.head, s.slots, s.items, s.taken, s'.slots, start, stop, t);
    if Usable(s.ring) { LiveWithout(s.ring, Top(s.tail, s.producer), s.live, BlockOf(start)); }
    FullIsPublished(s.slots, s'.slots, s.tail, start, stop, t);
    LastProducer(s, s', BlockOf(start), b, t);
    LastThreads(s, s', t);
  }

  lemma LastThreads<T>(s: State<T>, s': State<T>, t: Tid)
    requires Inv(s) && t < |s.consumers| && s.consumers[t].CCount? && s' == Apply(s, Consume(t))
    requires s.consumers[t].b in s.done && s.done[s.consumers[t].b] + (s.consumers[t].stop - s.consumers[t].start) ==
      BLOCK_SIZE
    ensures ConsumersOk(s'.ring, s'.live, s'.place, s'.slots, s'.consumers)
  {
    hide Gentle, ProducerOk, ElementsOk, PlacesOk, BlocksOk, IndexOk, ConsumerOk;
    var CCount(start, stop, end, h, slot, b) := s.consumers[t];
    ConsumerIsOk(s, t);
    CountFacts(s, t);
    CountFull(s'.slots, Base(BlockOf(start)), BLOCK_SIZE);
    LastGentle(s, s', t, BlockOf(start), b);
    LastSelf(s, s', t);
    ConsumersStep(s, s', t);
  }

  lemma FullIsPublished(slots: seq<Slot>, slots': seq<Slot>, tail: nat, start: nat, stop: nat, t: Tid)
    requires CountsPiece(slots, slots', start, stop, t) && |slots| <= tail &&
      CountFrom(slots', Base(BlockOf(start)), BLOCK_SIZE) == BLOCK_SIZE
    ensures Base(BlockOf(start) + 1) <= tail && BlockOf(start) < FirstNew(tail) &&
      (CellOf(tail) != 0 ==> BlockOf(tail) != BlockOf(start))
  {
    CountFull(slots', Base(BlockOf(start)), BLOCK_SIZE);
  }

  lemma LastProducer<T>(s: State<T>, s': State<T>, k: int, b: Block, t: Tid)
    requires ProducerOk(s) && b in s.place && s.place[b].Installed? && b in s'.done &&
      s'.done == s.done[b := s'.done[b]]
    requires s' == s.(done := s'.done, slots := s'.slots, consumers := s'.consumers, live := s.live - {k}, place :=
      s.place[b := Released(t)])
    requires k < FirstNew(s.tail)
    ensures ProducerOk(s')
  {
    SameWritten(s, s');
    ProducerAside(s, s');
  }

  // ---- clearing the entry and giving the block back ----

  ghost predicate ClearsOwn(r: Ring, e: nat, live: map<int, Block>, place: map<Block, Place>, t: Tid) {
    && e < |r.entries| && r.entries[e].value.Some? && r.entries[e].value.value in place &&
      place[r.entries[e].value.value] == Released(t)
    && forall q :: q in live ==> r.entries[e].key != Base(q)
  }

  lemma NullGentle<T>(s: State<T>, s': State<T>, t: Tid, e: nat)
    requires ClearsOwn(s.ring, e, s.live, s.place, t)
    requires s'.slots == s.slots && s'.live == s.live && s'.place == s.place && s'.ring == StoreValue(s.ring, e, None)
    ensures Gentle(s, s', t)
  {
    forall h, k | k in s.live && Found(s.ring, h, k, s.live[k]) ensures Found(s'.ring, h, k, s.live[k]) {
      StoreValueFound(s.ring, e, None, h, k, s.live[k]);
    }
  }

  lemma NullProducer<T>(s: State<T>, s': State<T>, e: nat)
    requires ProducerOk(s) && e < |s.ring.entries|
    requires s' == s.(ring := StoreValue(s.ring, e, None), consumers := s'.consumers)
    ensures ProducerOk(s')
  {
    SameWritten(s, s');
    ProducerAside(s, s');
  }

  lemma NullPlaces<T>(s: State<T>, s': State<T>, t: Tid)
    requires PlacesOk(s.place, s.live, s.producer, s.consumers) && t < |s.consumers| && |s'.consumers| == |s.consumers|
    requires s'.consumers == s.consumers[t := s'.consumers[t]] && forall b :: Frees(s.consumers[t], b) ==>
      Frees(s'.consumers[t], b)
    ensures PlacesOk(s.place, s.live, s.producer, s'.consumers)
  {
    forall b | b in s.place ensures PlaceOk(s.place[b], s.live, s.producer, s'.consumers, b) {
      assert PlaceOk(s.place[b], s.live, s.producer, s.consumers, b);
    }
  }

  lemma NullSelf<T>(s: State<T>, s': State<T>, t: Tid)
    requires t < |s.consumers| && s.consumers[t].CNull? &&
      ConsumerOk(s.ring, s.live, s.place, s.slots, t, s.consumers[t])
    requires Gentle(s, s', t) && s'.slots == s.slots && s'.live == s.live && s'.place == s.place &&
      s'.ring.headers == s.ring.headers
    requires |s'.consumers| == |s.consumers|
    requires var CNull(stop, end, h, slot, b) := s.consumers[t]; s'.consumers[t] == CFree(stop, end, h, slot, b)
    ensures ConsumerOk(s'.ring, s'.live, s'.place, s'.slots, t, s'.consumers[t])
  {
    var CNull(stop, end, h, slot, b) := s.consumers[t];
    forall i | stop <= i < end ensures Located(s'.ring, s'.live, h, i) {
      assert Located(s.ring, s.live, h, i);
    }
  }

  lemma NullEntry<T>(s: State<T>, t: Tid)
    requires Inv(s) && t < |s.consumers| && s.consumers[t].CNull?
    ensures Usable(s.ring) && InArray(s.ring, s.consumers[t].h, s.consumers[t].slot)
    ensures ClearsOwn(s.ring, s.ring.headers[s.consumers[t].h].index[s.consumers[t].slot], s.live, s.place, t)
  {
    hide ElementsOk, BlocksOk, CellsOk, PlacesOk, TailBlockOk, ProducerOk, RingInv, LiveInv, LocatedAll;
    ConsumerIsOk(s, t);
    forall q | q in s.live ensures Base(BlockOf(s.consumers[t].stop - 1)) != Base(q) { }
  }

  lemma NullStep<T>(s: State<T>, t: Tid)
    requires Inv(s) && t < |s.consumers| && s.consumers[t].CNull?
    ensures Inv(Apply(s, Consume(t)))
  {
    hide Gentle, ProducerOk, ElementsOk, PlacesOk, BlocksOk, LiveInv, RingInv, ConsumerOk;
    var s' := Apply(s, Consume(t));
    var CNull(stop, end, h, slot, b) := s.consumers[t];
    ConsumerIsOk(s, t);
    NullEntry(s, t);
    var e := s.ring.headers[h].index[slot];
    StoreValueInv(s.ring, e, None);
    StoreValueLive(s.ring, e, None, Top(s.tail, s.producer), s.live);
    StoreValueUsable(s.ring, e, None);
    NullGentle(s, s', t, e);
    NullProducer(s, s', e);
    NullPlaces(s, s', t);
    NullSelf(s, s', t);
    ConsumersStep(s, s', t);
  }

  lemma StoreValueUsable(r: Ring, e: nat, v: Option<Block>)
    requires Usable(r) && e < |r.entries|
    ensures Usable(StoreValue(r, e, v))
  {
    forall h | 0 <= h < |r.headers| ensures HeaderShape(StoreValue(r, e, v), h) {
      assert HeaderShape(r, h);
    }
  }

  lemma FreeStep<T>(s: State<T>, t: Tid)
    requires Inv(s) && t < |s.consumers| && s.consumers[t].CFree?
    ensures Inv(Apply(s, Consume(t)))
  {
    hide Gentle, ProducerOk, ElementsOk, IndexOk, ConsumerOk, BlocksOk, PlacesOk;
    var s' := Apply(s, Consume(t));
    var CFree(stop, end, h, slot, b) := s.consumers[t];
    ConsumerIsOk(s, t);
    FreeSelf(s, s', t);
    FreeBlocks(s.live, s.place, s.done, s.slots, b, t);
    FreePlaces(s, s', t, b);
    FreeProducer(s, s', b);
    ConsumersStep(s, s', t);
  }

  lemma FreeSelf<T>(s: State<T>, s': State<T>, t: Tid)
    requires t < |s.consumers| && s.consumers[t].CFree? &&
      ConsumerOk(s.ring, s.live, s.place, s.slots, t, s.consumers[t]) && s' == Apply(s, Consume(t))
    ensures s.consumers[t].b in s.place && s.place[s.consumers[t].b] == Released(t)
    ensures Gentle(s, s', t) && ConsumerOk(s'.ring, s'.live, s'.place, s'.slots, t, s'.consumers[t])
  {
    var CFree(stop, end, h, slot, b) := s.consumers[t];
    NextPieceOk(s'.ring, s'.live, s'.place, s'.slots, t, stop, end, h, slot);
  }

  lemma FreeBlocks(live: map<int, Block>, place: map<Block, Place>, done: map<Block, nat>, slots: seq<Slot>, b: Block,
      t: Tid)
    requires BlocksOk(live, place, done, slots) && b in place && place[b] == Released(t)
    ensures BlocksOk(live, place[b := Elsewhere], done, slots)
  {
    forall k | k in live ensures BlockOk(live, place[b := Elsewhere], done, slots, k) {
      assert BlockOk(live, place, done, slots, k);
    }
  }

  lemma FreePlaces<T>(s: State<T>, s': State<T>, t: Tid, b: Block)
    requires PlacesOk(s.place, s.live, s.producer, s.consumers) && t < |s.consumers| && |s'.consumers| == |s.consumers|
    requires s'.consumers == s.consumers[t := s'.consumers[t]] && forall c :: Frees(s.consumers[t], c) ==> c == b
    ensures PlacesOk(s.place[b := Elsewhere], s.live, s.producer, s'.consumers)
  {
    var place' := s.place[b := Elsewhere];
    forall c | c in place' ensures PlaceOk(place'[c], s.live, s.producer, s'.consumers, c) {
      if c != b { assert PlaceOk(s.place[c], s.live, s.producer, s.consumers, c); }
    }
  }

  lemma FreeProducer<T>(s: State<T>, s': State<T>, b: Block)
    requires ProducerOk(s) && b in s.place && s.place[b].Released?
    requires s' == s.(place := s.place[b := Elsewhere], consumers := s'.consumers)
    ensures ProducerOk(s')
  {
    SameWritten(s, s');
    ProducerAside(s, s');
  }

  /** Every step of a consumer keeps the invariant. */
  lemma ConsumeKeepsInv<T>(s: State<T>, t: Tid)
    requires Inv(s) && Enabled(s, Consume(t))
    ensures Inv(Apply(s, Consume(t)))
  {
    hide Inv, Apply;
    match s.consumers[t] {
      case CHeader(_, _) => HeaderStep(s, t);
      case CTail(_, _, _) => TailStep(s, t);
      case CKey(_, _, _, _) => KeyStep(s, t);
      case CValue(_, _, _, _) => ValueStep(s, t);
      case CMove(_, pos, stop, _, _, _, _) => if pos < stop { MoveStep(s, t); } else { MoveEndStep(s, t); }
      case CCount(start, stop, _, _, _, b) =>
        CountFacts(s, t);
        if s.done[b] + (stop - start) == BLOCK_SIZE { CountLastStep(s, t); } else { CountSomeStep(s, t); }
      case CNull(_, _, _, _, _) => NullStep(s, t);
      case CFree(_, _, _, _, _) => FreeStep(s, t);
    }
  }
}

/** Every step of the producer, and everything others do to blocks that are not ours, keeps the invariant. */
module ImplicitEnqueue {
  import opened Options
  import opened Modular
  import opened BlockIndex
  import opened BlockIndexInvariant
  import opened ImplicitProducer
  import opened ImplicitInvariant
  import opened ImplicitFrames
  import opened ImplicitConsumer

  // ---- steps that only move the producer along ----

  ghost predicate InHandKept<T>(pc: ProducerPC<T>, pc': ProducerPC<T>) {
    forall b :: InHand(pc, b) ==> InHand(pc', b)
  }

  lemma PlacesMove<T>(s: State<T>, pc': ProducerPC<T>)
    requires PlacesOk(s.place, s.live, s.producer, s.consumers) && InHandKept(s.producer, pc')
    ensures PlacesOk(s.place, s.live, pc', s.consumers)
  {
    forall b | b in s.place ensures PlaceOk(s.place[b], s.live, pc', s.consumers, b) {
      assert PlaceOk(s.place[b], s.live, s.producer, s.consumers, b);
    }
  }

  lemma LiveLowerTop(r: Ring, top: int, top': int, live: map<int, Block>)
    requires LiveInv(r, top, live) && top' <= top && forall q :: q in live ==> q <= top'
    ensures LiveInv(r, top', live)
  {
    forall q | q in live ensures LiveAt(r, top', q, live[q]) {
      assert LiveAt(r, top, q, live[q]);
    }
  }

  lemma IndexMoves<T>(s: State<T>, pc': ProducerPC<T>)
    requires IndexOk(s.ring, s.live, s.tail, s.producer)
    requires Last(s.tail, pc') == Last(s.tail, s.producer) && Top(s.tail, pc') <= Top(s.tail, s.producer)
    requires Got(pc') == Got(s.producer)
    requires forall q :: q in s.live ==> q <= Top(s.tail, pc')
    ensures IndexOk(s.ring, s.live, s.tail, pc')
  {
    if Usable(s.ring) {
      LiveLowerTop(s.ring, Top(s.tail, s.producer), Top(s.tail, pc'), s.live);
    }
  }

  /** A step that changes nothing but the producer's program counter. */
  lemma QuietProduce<T>(s: State<T>, s': State<T>)
    requires Inv(s) && s' == s.(producer := s'.producer)
    requires Last(s.tail, s'.producer) == Last(s.tail, s.producer) &&
      Top(s.tail, s'.producer) <= Top(s.tail, s.producer)
    requires Got(s'.producer) == Got(s.producer)
    requires forall q :: q in s.live ==> q <= Top(s.tail, s'.producer)
    requires InHandKept(s.producer, s'.producer)
    requires PhaseOk(s')
    ensures Inv(s')
  {
    hide PhaseOk;
    IndexMoves(s, s'.producer);
    PlacesMove(s, s'.producer);
  }

  lemma LiveAtMostTop<T>(s: State<T>)
    requires Inv(s)
    ensures forall q :: q in s.live ==> q <= Top(s.tail, s.producer)
  {
    forall q | q in s.live ensures q <= Top(s.tail, s.producer) {
      if Usable(s.ring) { assert LiveAt(s.ring, Top(s.tail, s.producer), q, s.live[q]); }
    }
  }

  lemma PhaseHolds<T>(s: State<T>)
    requires Inv(s)
    ensures PhaseOk(s) && ProducerOk(s) && IndexOk(s.ring, s.live, s.tail, s.producer)
  {
  }

  lemma CallEnqueueStep<T>(s: State<T>, xs: seq<T>)
    requires Inv(s) && s.producer == PIdle
    ensures Inv(Apply(s, CallEnqueue(xs)))
  {
    hide ElementsOk, BlocksOk, CellsOk, PlacesOk, TailBlockOk, ConsumersOk, RingInv, LiveInv;
    LiveAtMostTop(s);
    QuietProduce(s, Apply(s, CallEnqueue(xs)));
  }

  lemma NextStep<T>(s: State<T>)
    requires Inv(s) && s.producer.PNext?
    ensures Inv(Apply(s, Produce))
  {
    hide Inv, PhaseOk, ProducerOk, IndexOk;
    LiveAtMostTop(s);
    PhaseHolds(s);
    NextPhase(s);
    QuietProduce(s, Apply(s, Produce));
  }

  lemma GotKeysFromLive(r: Ring, live: map<int, Block>, first: nat, got: seq<Block>)
    requires |got| > 0 && LiveInv(r, first + |got| - 1, live) && GotLive(live, first, got, 0)
    ensures GotKeys(r, first, |got|)
  {
    assert LiveIs(live, first + 0, got[0]);
    assert LiveAt(r, first + |got| - 1, first, live[first]);
  }

  /** Giving up: every insertion of this call is still in the index under its key. */
  lemma GiveUp<T>(s: State<T>, got: seq<Block>)
    requires IndexOk(s.ring, s.live, s.tail, s.producer) && Got(s.producer) == got &&
      Top(s.tail, s.producer) == FirstNew(s.tail) + |got| - 1
    requires GotLive(s.live, FirstNew(s.tail), got, 0)
    ensures Undoing(s, got, 0)
  {
    if |got| > 0 {
      assert LiveIs(s.live, FirstNew(s.tail) + 0, got[0]);
      GotKeysFromLive(s.ring, s.live, FirstNew(s.tail), got);
    }
  }

  lemma AskIs<T>(s: State<T>)
    requires s.producer.PNext?
    ensures Apply(s, Produce) == AskForBlock(s, s.producer.xs, s.producer.got)
  {
    hide AskForBlock;
  }

  lemma NextPhase<T>(s: State<T>)
    requires s.producer.PNext? && PhaseOk(s) && IndexOk(s.ring, s.live, s.tail, s.producer)
    ensures PhaseOk(Apply(s, Produce))
  {
    hide IndexOk, Apply, ProducerStep;
    AskIs(s);
    var PNext(xs, got) := s.producer;
    if Base(NextBlock(s.tail, got)) < s.tail + |xs| &&
      !(Base(NextBlock(s.tail, got)) + BLOCK_SIZE - s.head < INDEX_HALF) {
      GiveUp(s, got);
    }
  }

  lemma SlotStep<T>(s: State<T>)
    requires Inv(s) && s.producer.PSlot?
    ensures Inv(Apply(s, Produce))
  {
    hide Inv, PhaseOk, ProducerOk, IndexOk;
    LiveAtMostTop(s);
    PhaseHolds(s);
    SlotPhase(s);
    QuietProduce(s, Apply(s, Produce));
  }

  lemma SlotPhase<T>(s: State<T>)
    requires s.producer.PSlot? && PhaseOk(s) && IndexOk(s.ring, s.live, s.tail, s.producer)
    ensures PhaseOk(Apply(s, Produce))
  {
    if !Usable(s.ring) { GiveUp(s, s.producer.got); }
  }

  lemma NoMemoryStep<T>(s: State<T>)
    requires Inv(s) && (s.producer.PGrow? || s.producer.PBlock?)
    ensures Inv(Apply(s, NoMemory))
  {
    hide ElementsOk, BlocksOk, CellsOk, PlacesOk, TailBlockOk, ConsumersOk, RingInv, LiveInv;
    LiveAtMostTop(s);
    PhaseHolds(s);
    if s.producer.PGrow? { GiveUp(s, s.producer.got); }
    QuietProduce(s, Apply(s, NoMemory));
  }

  /** A lookup from the tail's key finds any key in place. */
  lemma FindsThroughTail(r: Ring, k: int)
    requires Usable(r) && r.headers[Current(r)].tail == BlockIndex.Slot(r.headers[Current(r)], r.last)
    requires EntryOf(r, Current(r), r.last).key == Base(r.last) && EntryOf(r, Current(r), k).key == Base(k)
    ensures FindEntry(r, Base(k)).Some?
    ensures var e := FindEntry(r, Base(k)).value; e < |r.entries| && r.entries[e].key == Base(k)
  {
    var hd := r.headers[Current(r)];
    CongruentMod(r.last + hd.shift, hd.capacity);
    assert KeyInPlace(r, Current(r), hd.tail);
    LookupIsSlot(r, Current(r), hd.tail, k);
    CongruentMod(k + hd.shift, hd.capacity);
  }

  /** The producer's own lookup while undoing: the tail key is in place, and the entry found is the block's. */
  lemma UndoLookup<T>(s: State<T>, got: seq<Block>, j: nat)
    requires IndexOk(s.ring, s.live, s.tail, s.producer) && s.producer == PUndoFind(got, j) && Undoing(s, got, j) &&
      j < |got|
    ensures FindEntry(s.ring, Base(FirstNew(s.tail) + j)).Some?
    ensures var e := FindEntry(s.ring, Base(FirstNew(s.tail) + j)).value;
      e < |s.ring.entries| && s.ring.entries[e].key == Base(FirstNew(s.tail) + j)
  {
    hide HeaderInv, LiveInv, GotLive, GotInHand, LiveFrom, FindEntry, Base;
    var r := s.ring;
    assert EntryOf(r, Current(r), r.last).key == Base(r.last);
    assert EntryOf(r, Current(r), FirstNew(s.tail) + j).key == Base(FirstNew(s.tail) + j);
    FindsThroughTail(r, FirstNew(s.tail) + j);
  }

  lemma UndoFindAgain<T>(s: State<T>)
    requires s.producer.PUndoFind? && PhaseOk(s) && IndexOk(s.ring, s.live, s.tail, s.producer) &&
      s.producer.j < |s.producer.got|
    ensures PhaseOk(Apply(s, Produce))
    ensures var s' := Apply(s, Produce);
      s'.producer.PUndoNull? && s' == s.(producer := PUndoNull(s.producer.got, s.producer.j, s'.producer.e))
  {
    UndoLookup(s, s.producer.got, s.producer.j);
  }

  lemma UndoFindStep<T>(s: State<T>)
    requires Inv(s) && s.producer.PUndoFind?
    ensures Inv(Apply(s, Produce))
  {
    hide Inv, Apply;
    if s.producer.j >= |s.producer.got| { UndoFindLast(s); } else { UndoFindNext(s); }
  }

  lemma UndoFindLast<T>(s: State<T>)
    requires Inv(s) && s.producer.PUndoFind? && s.producer.j >= |s.producer.got|
    ensures Inv(Apply(s, Produce))
  {
    hide Inv, PhaseOk, ProducerOk, IndexOk, Apply;
    LiveAtMostTop(s);
    PhaseHolds(s);
    UndoFindEnd(s);
    QuietProduce(s, Apply(s, Produce));
  }

  lemma UndoFindNext<T>(s: State<T>)
    requires Inv(s) && s.producer.PUndoFind? && s.producer.j < |s.producer.got|
    ensures Inv(Apply(s, Produce))
  {
    hide Inv, PhaseOk, ProducerOk, IndexOk, Apply;
    LiveAtMostTop(s);
    PhaseHolds(s);
    UndoFindAgain(s);
    QuietProduce(s, Apply(s, Produce));
  }

  /** The undo loop is over: no unpublished block is left in the index. */
  lemma UndoFindEnd<T>(s: State<T>)
    requires ProducerOk(s) && s.producer.PUndoFind? && s.producer.j >= |s.producer.got|
    ensures var s' := Apply(s, Produce);
      s' == s.(producer := PFree(s.producer.got, 0)) && InHandKept(s.producer, s'.producer) && PhaseOk(s')
    ensures s.producer.j == |s.producer.got|
    ensures forall q :: q in s.live ==> q < FirstNew(s.tail)
  {
    forall q | q in s.live ensures q < FirstNew(s.tail) {
      assert LiveFrom(s.live, FirstNew(s.tail), FirstNew(s.tail) + s.producer.j);
    }
  }

  lemma WriteEndStep<T>(s: State<T>)
    requires Inv(s) && s.producer.PWrite? && s.producer.n >= |s.producer.xs|
    ensures Inv(Apply(s, Produce))
  {
    hide Inv, PhaseOk, ProducerOk, IndexOk;
    LiveAtMostTop(s);
    PhaseHolds(s);
    WriteEndPhase(s);
    QuietProduce(s, Apply(s, Produce));
  }

  lemma WriteEndPhase<T>(s: State<T>)
    requires PhaseOk(s) && s.producer.PWrite? && s.producer.n >= |s.producer.xs|
    ensures PhaseOk(Apply(s, Produce))
  {
    var s' := Apply(s, Produce);
    var PWrite(xs, got, n) := s.producer;
    forall j | 0 <= j < |xs| ensures WrittenAt(s', xs, got, j) {
      assert WrittenAt(s, xs, got, j);
    }
  }

  // ---- inserting a block into the index ----

  /** Ring and live blocks change together; cells, slots and places stay. */
  ghost predicate RingStep<T>(s: State<T>, s': State<T>) {
    s' == s.(ring := s'.ring, producer := s'.producer)
  }

  /** What every consumer needs of a change of the ring. */
  lemma RingGentle<T>(s: State<T>, s': State<T>)
    requires RingStep(s, s')
    requires FoundKept(s.ring, s.live, s'.ring, s.live) && KeysKept(s.ring, s'.ring) && ArraysKept(s.ring, s'.ring)
    requires EntriesKept(s.ring, s'.ring, s.place, |s.slots|, |s.consumers|)
    ensures Gentle(s, s', |s.consumers|)
  {
  }

  lemma InsertKeyKeeps(r: Ring, live: map<int, Block>, place: map<Block, Place>, claimed: nat, t: Tid)
    requires RingInv(r) && IsFree(r, NewEntry(r))
    ensures FoundKept(r, live, InsertKey(r), live) && KeysKept(r, InsertKey(r)) && ArraysKept(r, InsertKey(r))
    ensures EntriesKept(r, InsertKey(r), place, claimed, t)
  {
    var r' := InsertKey(r);
    forall h, k | k in live && Found(r, h, k, live[k]) ensures Found(r', h, k, live[k]) {
      InsertKeyFound(r, h, k, live[k]);
    }
    forall h, slot | KeyInPlace(r, h, slot) ensures KeyInPlace(r', h, slot) {
      InsertKeyInPlace(r, h, slot);
    }
  }

  lemma KeyStepRing<T>(s: State<T>)
    requires s.producer.PKey? && PhaseOk(s) && IndexOk(s.ring, s.live, s.tail, s.producer)
    ensures var s' := Apply(s, Produce);
      RingStep(s, s') && s'.ring == InsertKey(s.ring) && s'.producer == PTail(s.producer.xs, s.producer.got)
    ensures var s' := Apply(s, Produce); IndexOk(s'.ring, s'.live, s'.tail, s'.producer) && PhaseOk(s')
  {
    InsertKeyInv(s.ring);
    InsertKeyLive(s.ring, s.live);
  }

  lemma PKeyStep<T>(s: State<T>)
    requires Inv(s) && s.producer.PKey?
    ensures Inv(Apply(s, Produce))
  {
    PhaseHolds(s);
    KeyStepRing(s);
    InsertKeyKeeps(s.ring, s.live, s.place, |s.slots|, |s.consumers|);
    hide PhaseOk, IndexOk, Gentle, FoundKept, KeysKept, ArraysKept, EntriesKept;
    var s' := Apply(s, Produce);
    RingGentle(s, s');
    PlacesMove(s, s'.producer);
    ConsumersUntouched(s, s');
  }

  // ---- moving the tail of the index ----

  /** A consumer about to read a tail it does not know yet will find a key in place there. */
  lemma TailsKept<T>(s: State<T>, s': State<T>)
    requires Inv(s) && RingStep(s, s') && IndexOk(s'.ring, s.live, s.tail, s'.producer)
    requires FirstNew(s.tail) - 1 <= Last(s.tail, s'.producer) <= Top(s.tail, s'.producer)
    requires |s'.ring.headers| == |s.ring.headers| && forall h :: 0 <= h < |s.ring.headers| - 1 ==>
      s'.ring.headers[h] == s.ring.headers[h]
    ensures forall u :: 0 <= u < |s.consumers| ==> TailKept(s.ring, s'.ring, s.consumers[u])
  {
    forall u | 0 <= u < |s.consumers| ensures TailKept(s.ring, s'.ring, s.consumers[u]) {
      if s.consumers[u].CTail? {
        ReaderTailKept(s, s', u);
      }
    }
  }

  lemma ReaderTailKept<T>(s: State<T>, s': State<T>, u: Tid)
    requires Inv(s) && RingStep(s, s') && IndexOk(s'.ring, s.live, s.tail, s'.producer) && u < |s.consumers| &&
      s.consumers[u].CTail?
    requires FirstNew(s.tail) - 1 <= Last(s.tail, s'.producer) <= Top(s.tail, s'.producer)
    requires |s'.ring.headers| == |s.ring.headers| && forall h :: 0 <= h < |s.ring.headers| - 1 ==>
      s'.ring.headers[h] == s.ring.headers[h]
    ensures TailKept(s.ring, s'.ring, s.consumers[u])
  {
    hide ElementsOk, BlocksOk, CellsOk, PlacesOk, TailBlockOk, ProducerOk;
    ConsumerIsOk(s, u);
    var q := BlockOf(s.consumers[u].pos);
    assert Located(s.ring, s.live, s.consumers[u].h, s.consumers[u].pos);
    assert LiveAt(s'.ring, Top(s.tail, s'.producer), q, s.live[q]);
    TailKeyInPlace(s'.ring, Top(s.tail, s'.producer), q, s.live[q]);
  }

  lemma StoreTailKeeps(r: Ring, tail: nat, last: int, live: map<int, Block>, place: map<Block, Place>, claimed: nat,
      t: Tid)
    requires Usable(r) && tail < r.headers[Current(r)].capacity
    ensures var r' := StoreTail(r, tail, last);
      FoundKept(r, live, r', live) && KeysKept(r, r') && ArraysKept(r, r') && EntriesKept(r, r', place, claimed, t)
  {
    var r' := StoreTail(r, tail, last);
    forall h, k | k in live && Found(r, h, k, live[k]) ensures Found(r', h, k, live[k]) {
      StoreTailFrame(r, tail, last, h);
    }
  }

  lemma LiveRaiseTop(r: Ring, top: int, live: map<int, Block>)
    requires LiveInv(r, top, live) && NewKeyStored(r, live, top + 1)
    ensures LiveInv(r, top + 1, live)
  {
    forall q | q in live ensures LiveAt(r, top + 1, q, live[q]) {
      assert LiveAt(r, top, q, live[q]);
    }
  }

  lemma NewKeyStoreTail(r: Ring, tail: nat, last: int, live: map<int, Block>, k: int)
    requires NewKeyStored(r, live, k) && tail < r.headers[Current(r)].capacity && Usable(StoreTail(r, tail, last))
    ensures NewKeyStored(StoreTail(r, tail, last), live, k)
  {
    StoreTailFrame(r, tail, last, Current(r));
  }

  lemma AdvanceIs<T>(s: State<T>)
    requires s.producer.PTail? && HasIndex(s.ring)
    ensures Apply(s, Produce) == s.(ring := Advance(s.ring), producer := PBlock(s.producer.xs, s.producer.got))
  {
    hide Advance;
  }

  /** The new key under the tail. */
  lemma AdvanceRing(r: Ring, live: map<int, Block>)
    requires RingInv(r) && LiveInv(r, r.last, live) && NewKeyStored(r, live, r.last + 1)
    ensures Usable(Advance(r)) && Advance(r).last == r.last + 1 && |Advance(r).headers| == |r.headers|
    ensures RingInv(Advance(r)) && LiveInv(Advance(r), r.last + 1, live) && NewKeyStored(Advance(r), live, r.last + 1)
  {
    hide LiveInv, NewKeyStored, HeaderInv;
    AdvanceInv(r);
    hide RingInv;
    LiveRaiseTop(r, r.last, live);
    CongruentMod(r.headers[Current(r)].tail + 1, r.headers[Current(r)].capacity);
    StoreTailLive(r, NewTail(r), r.last + 1, r.last + 1, live);
    NewKeyStoreTail(r, NewTail(r), r.last + 1, live, r.last + 1);
  }

  lemma TailStepRing<T>(s: State<T>)
    requires s.producer.PTail? && PhaseOk(s) && IndexOk(s.ring, s.live, s.tail, s.producer)
    ensures var s' := Apply(s, Produce);
      RingStep(s, s') && s'.ring == Advance(s.ring) && s'.producer == PBlock(s.producer.xs, s.producer.got)
    ensures var s' := Apply(s, Produce); IndexOk(s'.ring, s'.live, s'.tail, s'.producer) && PhaseOk(s')
  {
    hide Apply, RingInv, LiveInv, NewKeyStored, GotLive, Reach, Usable, Advance;
    KeyIsStored(s);
    AdvanceIs(s);
    AdvanceRing(s.ring, s.live);
  }

  lemma KeyIsStored<T>(s: State<T>)
    requires s.producer.PTail? && PhaseOk(s) && IndexOk(s.ring, s.live, s.tail, s.producer)
    ensures NewKeyStored(s.ring, s.live, s.ring.last + 1) && s.ring.last + 1 == NextBlock(s.tail, s.producer.got)
    ensures Usable(s.ring) && RingInv(s.ring) && LiveInv(s.ring, s.ring.last, s.live)
  {
    hide RingInv, LiveInv, Trying;
  }

  lemma PTailStep<T>(s: State<T>)
    requires Inv(s) && s.producer.PTail?
    ensures Inv(Apply(s, Produce))
  {
    hide PhaseOk, IndexOk, Gentle, FoundKept, KeysKept, ArraysKept, EntriesKept, TailKept, Apply, ConsumersOk,
      ElementsOk, BlocksOk;
    PhaseHolds(s);
    TailStepRing(s);
    TailMoves(s, Apply(s, Produce), NewTail(s.ring), s.ring.last + 1);
  }

  /** The common end of the steps that move the tail. */
  lemma TailMoves<T>(s: State<T>, s': State<T>, tail: nat, last: int)
    requires Inv(s) && RingStep(s, s') && Usable(s.ring) && tail < s.ring.headers[Current(s.ring)].capacity
    requires s'.ring == StoreTail(s.ring, tail, last)
    requires IndexOk(s'.ring, s.live, s.tail, s'.producer) && ProducerOk(s') && InHandKept(s.producer, s'.producer)
    requires FirstNew(s.tail) - 1 <= Last(s.tail, s'.producer) <= Top(s.tail, s'.producer)
    ensures Inv(s')
  {
    StoreTailKeeps(s.ring, tail, last, s.live, s.place, |s.slots|, |s.consumers|);
    TailsKept(s, s');
    hide PhaseOk, IndexOk, Gentle, FoundKept, KeysKept, ArraysKept, EntriesKept, TailKept;
    RingGentle(s, s');
    PlacesMove(s, s'.producer);
    ConsumersUntouched(s, s');
  }

  /** Rewinding the newest key, while no block is live under it. */
  lemma RewindLive(r: Ring, live: map<int, Block>)
    requires Usable(r) && RingInv(r) && LiveInv(r, r.last, live) && 0 <= r.last && LiveBelow(live, r.last)
    ensures Usable(Rewind(r)) && RingInv(Rewind(r)) && LiveInv(Rewind(r), r.last - 1, live)
  {
    var hd := r.headers[Current(r)];
    RewindInv(r);
    LiveLowerTop(r, r.last, r.last - 1, live);
    CongruentMod(hd.tail - 1, hd.capacity);
    StoreTailLive(r, (hd.tail - 1) % hd.capacity, r.last - 1, r.last - 1, live);
  }

  lemma RewindStepRing<T>(s: State<T>)
    requires s.producer.PRewind? && PhaseOk(s) && ProducerOk(s) && IndexOk(s.ring, s.live, s.tail, s.producer)
    ensures var s' := Apply(s, Produce);
      RingStep(s, s') && s'.ring == Rewind(s.ring) && s'.producer == PNull(s.producer.got)
    ensures var s' := Apply(s, Produce); IndexOk(s'.ring, s'.live, s'.tail, s'.producer)
    ensures Usable(s.ring)
  {
    RewindLive(s.ring, s.live);
  }

  lemma RewindPhase<T>(s: State<T>)
    requires s.producer.PRewind? && PhaseOk(s) && IndexOk(s.ring, s.live, s.tail, s.producer)
    ensures PhaseOk(Apply(s, Produce))
  {
    var r := s.ring;
    var hd := r.headers[Current(r)];
    RewindInv(r);
    CongruentMod(hd.tail - 1, hd.capacity);
    NewKeyStoreTail(r, (hd.tail - 1) % hd.capacity, r.last - 1, s.live, r.last);
  }

  lemma PRewindStep<T>(s: State<T>)
    requires Inv(s) && s.producer.PRewind?
    ensures Inv(Apply(s, Produce))
  {
    hide PhaseOk, IndexOk, Gentle, FoundKept, KeysKept, ArraysKept, EntriesKept, TailKept, Apply, ConsumersOk,
      ElementsOk, BlocksOk;
    PhaseHolds(s);
    RewindStepRing(s);
    RewindPhase(s);
    CongruentMod(s.ring.headers[Current(s.ring)].tail - 1, s.ring.headers[Current(s.ring)].capacity);
    TailMoves(s, Apply(s, Produce),
      (s.ring.headers[Current(s.ring)].tail - 1) % s.ring.headers[Current(s.ring)].capacity, s.ring.last - 1);
  }

  lemma GotKeysStoreTail(r: Ring, tail: nat, last: int, first: nat, n: nat)
    requires Usable(r) && GotKeys(r, first, n) && tail < r.headers[Current(r)].capacity &&
      Usable(StoreTail(r, tail, last))
    ensures GotKeys(StoreTail(r, tail, last), first, n)
  {
    StoreTailFrame(r, tail, last, Current(r));
  }

  lemma UndoTailRing<T>(s: State<T>)
    requires s.producer.PUndoTail? && Undoing(s, s.producer.got, s.producer.j + 1) &&
      IndexOk(s.ring, s.live, s.tail, s.producer)
    ensures var s' := Apply(s, Produce);
      RingStep(s, s') && s'.ring == Rewind(s.ring) && s'.producer == PUndoFind(s.producer.got, s.producer.j + 1)
    ensures var s' := Apply(s, Produce); IndexOk(s'.ring, s'.live, s'.tail, s'.producer)
    ensures Usable(s.ring) && s.producer.j < |s.producer.got|
  {
    var r := s.ring;
    var hd := r.headers[Current(r)];
    RewindInv(r);
    CongruentMod(hd.tail - 1, hd.capacity);
    StoreTailLive(r, (hd.tail - 1) % hd.capacity, r.last - 1, Top(s.tail, s.producer), s.live);
  }

  lemma UndoTailPhase<T>(s: State<T>)
    requires s.producer.PUndoTail? && PhaseOk(s) && Usable(s.ring) && Usable(Rewind(s.ring)) &&
      Apply(s, Produce).ring == Rewind(s.ring)
    ensures PhaseOk(Apply(s, Produce))
  {
    var r := s.ring;
    var hd := r.headers[Current(r)];
    CongruentMod(hd.tail - 1, hd.capacity);
    GotKeysStoreTail(r, (hd.tail - 1) % hd.capacity, r.last - 1, FirstNew(s.tail), |s.producer.got|);
  }

  lemma PUndoTailStep<T>(s: State<T>)
    requires Inv(s) && s.producer.PUndoTail?
    ensures Inv(Apply(s, Produce))
  {
    hide IndexOk, Gentle, FoundKept, KeysKept, ArraysKept, EntriesKept, TailKept, Apply, ConsumersOk, ElementsOk,
      BlocksOk, Undoing;
    PhaseHolds(s);
    UndoTailRing(s);
    IndexUsable(s);
    RewindInv(s.ring);
    UndoTailPhase(s);
    CongruentMod(s.ring.headers[Current(s.ring)].tail - 1, s.ring.headers[Current(s.ring)].capacity);
    TailMoves(s, Apply(s, Produce),
      (s.ring.headers[Current(s.ring)].tail - 1) % s.ring.headers[Current(s.ring)].capacity, s.ring.last - 1);
  }

  // ---- doubling the index ----

  lemma GrowKeeps(r: Ring, garbage: seq<Option<Block>>, live: map<int, Block>, place: map<Block, Place>, claimed: nat,
      t: Tid)
    requires RingInv(r) && |garbage| == r.headers[Current(r)].capacity
    ensures var r' := Grow(r, garbage);
      FoundKept(r, live, r', live) && KeysKept(r, r') && ArraysKept(r, r') && EntriesKept(r, r', place, claimed, t)
  {
    var r' := Grow(r, garbage);
    forall h, k | k in live && Found(r, h, k, live[k]) ensures Found(r', h, k, live[k]) {
      GrowFound(r, garbage, h, k, live[k]);
    }
    forall h, slot | KeyInPlace(r, h, slot) ensures KeyInPlace(r', h, slot) {
      GrowInPlace(r, garbage, h, slot);
    }
  }

  lemma GrowRing<T>(s: State<T>, g: seq<Option<Block>>)
    requires Enabled(s, GrowIndex(g)) && PhaseOk(s) && IndexOk(s.ring, s.live, s.tail, s.producer)
    ensures var s' := Apply(s, GrowIndex(g));
      RingStep(s, s') && s'.ring == Grow(s.ring, g) && s'.producer == PKey(s.producer.xs, s.producer.got)
    ensures var s' := Apply(s, GrowIndex(g)); IndexOk(s'.ring, s'.live, s'.tail, s'.producer) && PhaseOk(s')
    ensures forall h :: 0 <= h < |s.ring.headers| ==> Apply(s, GrowIndex(g)).ring.headers[h] == s.ring.headers[h]
  {
    GrowInv(s.ring, g);
    GrowLive(s.ring, g, s.live);
    GrowMakesRoom(s.ring, g);
  }

  lemma GrowIndexStep<T>(s: State<T>, g: seq<Option<Block>>)
    requires Inv(s) && Enabled(s, GrowIndex(g))
    ensures Inv(Apply(s, GrowIndex(g)))
  {
    hide PhaseOk, IndexOk, Gentle, FoundKept, KeysKept, ArraysKept, EntriesKept, Apply;
    PhaseHolds(s);
    GrowRing(s, g);
    IndexUsable(s);
    GrowKeeps(s.ring, g, s.live, s.place, |s.slots|, |s.consumers|);
    var s' := Apply(s, GrowIndex(g));
    RingGentle(s, s');
    PlacesMove(s, s'.producer);
    ConsumersUntouched(s, s');
  }

  lemma IndexUsable<T>(s: State<T>)
    requires IndexOk(s.ring, s.live, s.tail, s.producer) && Usable(s.ring)
    ensures RingInv(s.ring)
  {
  }

  // ---- storing values ----

  /** Storing into an entry whose key is beyond the claimed elements and not live. */
  lemma StoreNewKeeps(r: Ring, e: nat, v: Option<Block>, live: map<int, Block>, place: map<Block, Place>, claimed: nat,
      t: Tid)
    requires Usable(r) && e < |r.entries| && r.entries[e].key >= claimed && forall q :: q in live ==>
      r.entries[e].key != Base(q)
    ensures var r' := StoreValue(r, e, v);
      FoundKept(r, live, r', live) && KeysKept(r, r') && ArraysKept(r, r') && EntriesKept(r, r', place, claimed, t)
  {
    var r' := StoreValue(r, e, v);
    forall h, k | k in live && Found(r, h, k, live[k]) ensures Found(r', h, k, live[k]) {
      StoreValueFound(r, e, v, h, k, live[k]);
    }
    forall h, slot | KeyInPlace(r, h, slot) ensures KeyInPlace(r', h, slot) {
      StoreValueInPlace(r, e, v, h, slot);
    }
  }

  lemma NullStepRing<T>(s: State<T>)
    requires s.producer.PNull? && PhaseOk(s) && ProducerOk(s) && IndexOk(s.ring, s.live, s.tail, s.producer)
    ensures Usable(s.ring) && s.ring.entries[NewEntry(s.ring)].key == Base(FirstNew(s.tail) + |s.producer.got|)
    ensures var s' := Apply(s, Produce);
      RingStep(s, s') && s'.ring == StoreValue(s.ring, NewEntry(s.ring), None) &&
      s'.producer == PUndoFind(s.producer.got, 0)
    ensures var s' := Apply(s, Produce); IndexOk(s'.ring, s'.live, s'.tail, s'.producer)
  {
    var r := s.ring;
    NewTailIsNextSlot(r);
    StoreValueInv(r, NewEntry(r), None);
    StoreValueUsable(r, NewEntry(r), None);
    StoreValueLive(r, NewEntry(r), None, r.last, s.live);
  }

  lemma NullPhase<T>(s: State<T>)
    requires s.producer.PNull? && PhaseOk(s) &&
      IndexOk(Apply(s, Produce).ring, s.live, s.tail, Apply(s, Produce).producer)
    requires RingStep(s, Apply(s, Produce)) && Apply(s, Produce).producer == PUndoFind(s.producer.got, 0)
    ensures PhaseOk(Apply(s, Produce))
  {
    GiveUp(Apply(s, Produce), s.producer.got);
  }

  lemma PNullStep<T>(s: State<T>)
    requires Inv(s) && s.producer.PNull?
    ensures Inv(Apply(s, Produce))
  {
    hide PhaseOk, IndexOk, Gentle, FoundKept, KeysKept, ArraysKept, EntriesKept, Apply, ConsumersOk, ElementsOk,
      BlocksOk;
    PhaseHolds(s);
    NullStepRing(s);
    NullPhase(s);
    StoreNewKeeps(s.ring, NewEntry(s.ring), None, s.live, s.place, |s.slots|, |s.consumers|);
    var s' := Apply(s, Produce);
    RingGentle(s, s');
    PlacesMove(s, s'.producer);
    ConsumersUntouched(s, s');
  }

  // publishing a block in the index

  lemma ValueRing<T>(s: State<T>)
    requires s.producer.PValue? && PhaseOk(s) && ProducerOk(s) && IndexOk(s.ring, s.live, s.tail, s.producer)
    ensures Usable(s.ring) && NextBlock(s.tail, s.producer.got) == s.ring.last && s.ring.last !in s.live
    ensures var e := s.ring.headers[Current(s.ring)].index[s.ring.headers[Current(s.ring)].tail];
      e < |s.ring.entries| && s.ring.entries[e].key == Base(s.ring.last) &&
        Apply(s, Produce).ring == StoreValue(s.ring, e, Some(s.producer.b))
    ensures var s' := Apply(s, Produce); IndexOk(s'.ring, s'.live, s'.tail, s'.producer)
  {
    var r := s.ring;
    var hd := r.headers[Current(r)];
    CongruentMod(r.last + hd.shift, hd.capacity);
    StoreValueNew(r, hd.index[hd.tail], s.producer.b, s.live);
    StoreValueInv(r, hd.index[hd.tail], Some(s.producer.b));
  }

  lemma ValueBlocks<T>(s: State<T>, k: int, b: Block)
    requires BlocksOk(s.live, s.place, s.done, s.slots) && b in s.place && s.place[b] == Transit && b in s.done &&
      s.done[b] == 0
    requires k >= 0 && Base(k) >= |s.slots| && k !in s.live
    ensures BlocksOk(s.live[k := b], s.place[b := Installed(k)], s.done, s.slots)
  {
    var live', place' := s.live[k := b], s.place[b := Installed(k)];
    CountNone(s.slots, Base(k), BLOCK_SIZE);
    forall q | q in live' ensures BlockOk(live', place', s.done, s.slots, q) {
      if q != k { assert BlockOk(s.live, s.place, s.done, s.slots, q); }
    }
  }

  lemma ValueElements<T>(s: State<T>, k: int, b: Block)
    requires ElementsOk(s.slots, s.live, s.cells, s.items) && k !in s.live
    ensures ElementsOk(s.slots, s.live[k := b], s.cells, s.items)
  {
    forall i | 0 <= i < |s.items| ensures ElementOk(s.slots, s.live[k := b], s.cells, i, s.items[i]) {
      assert ElementOk(s.slots, s.live, s.cells, i, s.items[i]);
    }
  }

  lemma ValuePlaces<T>(s: State<T>, k: int, b: Block, pc': ProducerPC<T>)
    requires PlacesOk(s.place, s.live, s.producer, s.consumers) && s.producer.PValue? && s.producer.b == b &&
      k !in s.live
    ensures PlacesOk(s.place[b := Installed(k)], s.live[k := b], pc', s.consumers)
  {
    var place' := s.place[b := Installed(k)];
    forall c | c in place' ensures PlaceOk(place'[c], s.live[k := b], pc', s.consumers, c) {
      if c != b { assert PlaceOk(s.place[c], s.live, s.producer, s.consumers, c); }
    }
  }

  lemma ValueProducer<T>(s: State<T>)
    requires s.producer.PValue? && ProducerOk(s) && BlocksOk(s.live, s.place, s.done, s.slots) && Usable(s.ring)
    ensures ProducerOk(Apply(s, Produce))
  {
    var s' := Apply(s, Produce);
    var PValue(xs, got, b) := s.producer;
    var got' := got + [b];
    forall i | 0 <= i < |got| ensures got[i] != b && LiveIs(s'.live, FirstNew(s.tail) + i, got[i]) {
      assert LiveIs(s.live, FirstNew(s.tail) + i, got[i]);
      assert BlockOk(s.live, s.place, s.done, s.slots, FirstNew(s.tail) + i);
    }
    forall i | 0 <= i < |got'| ensures LiveIs(s'.live, FirstNew(s.tail) + i, got'[i]) {
      if i < |got| { assert got'[i] == got[i]; }
    }
    assert s'.producer == PNext(xs, got');
  }

  lemma ValueGentle<T>(s: State<T>, s': State<T>, k: int, b: Block, e: nat)
    requires e < |s.ring.entries| && s'.ring == StoreValue(s.ring, e, Some(b)) && s.ring.entries[e].key == Base(k)
    requires s'.slots == s.slots && s'.live == s.live[k := b] && k !in s.live && Base(k) >= |s.slots|
    requires b in s.place && s.place[b] == Transit && s'.place == s.place[b := Installed(k)]
    requires FoundKept(s.ring, s.live, s'.ring, s.live) && KeysKept(s.ring, s'.ring) && ArraysKept(s.ring, s'.ring)
    requires EntriesKept(s.ring, s'.ring, s.place, |s.slots|, |s.consumers|)
    ensures Gentle(s, s', |s.consumers|)
  {
    forall h, j | j in s.live && Found(s.ring, h, j, s.live[j]) ensures Found(s'.ring, h, j, s.live[j]) {
    }
  }

  lemma PValueStep<T>(s: State<T>)
    requires Inv(s) && s.producer.PValue?
    ensures Inv(Apply(s, Produce))
  {
    hide PhaseOk, IndexOk, Gentle, FoundKept, KeysKept, ArraysKept, EntriesKept, ConsumersOk, ElementsOk, BlocksOk,
      PlacesOk;
    PhaseHolds(s);
    var s' := Apply(s, Produce);
    var k, b := NextBlock(s.tail, s.producer.got), s.producer.b;
    ValueRing(s);
    ValueFresh(s);
    ValueBlocks(s, k, b);
    ValueElements(s, k, b);
    ValuePlaces(s, k, b, s'.producer);
    ValueProducer(s);
    ValueThreads(s);
  }

  lemma ValueFresh<T>(s: State<T>)
    requires PhaseOk(s) && s.producer.PValue?
    ensures s.producer.b in s.place && s.place[s.producer.b] == Transit && s.producer.b in s.done &&
      s.done[s.producer.b] == 0
  {
  }

  lemma ValueThreads<T>(s: State<T>)
    requires Inv(s) && s.producer.PValue?
    ensures var s' := Apply(s, Produce); ConsumersOk(s'.ring, s'.live, s'.place, s'.slots, s'.consumers)
  {
    hide PhaseOk, IndexOk, Gentle, FoundKept, KeysKept, ArraysKept, EntriesKept, ConsumersOk, ElementsOk, BlocksOk,
      PlacesOk;
    PhaseHolds(s);
    var s' := Apply(s, Produce);
    ValueRing(s);
    var e := s.ring.headers[Current(s.ring)].index[s.ring.headers[Current(s.ring)].tail];
    ValueFresh(s);
    StoreNewKeeps(s.ring, e, Some(s.producer.b), s.live, s.place, |s.slots|, |s.consumers|);
    ValueGentle(s, s', NextBlock(s.tail, s.producer.got), s.producer.b, e);
    ConsumersUntouched(s, s');
  }

  // ---- taking and resetting a block ----

  lemma PlaceGentle<T>(s: State<T>, s': State<T>, b: Block)
    requires s'.slots == s.slots && s'.live == s.live && s'.ring == s.ring
    requires b in s'.place && s'.place == s.place[b := s'.place[b]] && (b in s.place ==> !s.place[b].Released?)
    ensures Gentle(s, s', |s.consumers|)
  {
  }

  lemma PlaceBlocks(live: map<int, Block>, place: map<Block, Place>, done: map<Block, nat>, slots: seq<Slot>, b: Block,
      p: Place, n: nat)
    requires BlocksOk(live, place, done, slots) && (b in place ==> !place[b].Installed?)
    ensures BlocksOk(live, place[b := p], done, slots) && BlocksOk(live, place[b := p], done[b := n], slots)
  {
    forall k | k in live ensures BlockOk(live, place[b := p], done, slots, k) &&
      BlockOk(live, place[b := p], done[b := n], slots, k) {
      assert BlockOk(live, place, done, slots, k);
    }
  }

  lemma TakePlaces<T>(s: State<T>, b: Block, pc': ProducerPC<T>)
    requires PlacesOk(s.place, s.live, s.producer, s.consumers) && s.producer.PBlock? &&
      pc' == PReset(s.producer.xs, s.producer.got, b)
    ensures PlacesOk(s.place[b := Transit], s.live, pc', s.consumers)
  {
    var place' := s.place[b := Transit];
    forall c | c in place' ensures PlaceOk(place'[c], s.live, pc', s.consumers, c) {
      if c != b { assert PlaceOk(s.place[c], s.live, s.producer, s.consumers, c); }
    }
  }

  lemma TakeProducer<T>(s: State<T>, b: Block)
    requires ProducerOk(s) && Enabled(s, TakeBlock(b))
    ensures ProducerOk(Apply(s, TakeBlock(b)))
  {
  }

  lemma SameIndex<T>(s: State<T>, pc': ProducerPC<T>)
    requires IndexOk(s.ring, s.live, s.tail, s.producer)
    requires Last(s.tail, pc') == Last(s.tail, s.producer) && Top(s.tail, pc') == Top(s.tail, s.producer) &&
      |Got(pc')| == |Got(s.producer)|
    ensures IndexOk(s.ring, s.live, s.tail, pc')
  {
  }

  lemma TakeBlockStep<T>(s: State<T>, b: Block)
    requires Inv(s) && Enabled(s, TakeBlock(b))
    ensures Inv(Apply(s, TakeBlock(b)))
  {
    hide PhaseOk, IndexOk, Gentle, ConsumersOk, ElementsOk, BlocksOk, PlacesOk, ProducerOk;
    var s' := Apply(s, TakeBlock(b));
    PhaseHolds(s);
    SameIndex(s, s'.producer);
    PlaceBlocks(s.live, s.place, s.done, s.slots, b, Transit, 0);
    TakePlaces(s, b, s'.producer);
    TakeProducer(s, b);
    PlaceGentle(s, s', b);
    ConsumersUntouched(s, s');
  }

  lemma ResetProducer<T>(s: State<T>)
    requires ProducerOk(s) && s.producer.PReset?
    ensures ProducerOk(Apply(s, Produce)) && s.producer.b in s.place && s.place[s.producer.b] == Transit
  {
  }

  lemma PResetStep<T>(s: State<T>)
    requires Inv(s) && s.producer.PReset?
    ensures Inv(Apply(s, Produce))
  {
    hide PhaseOk, IndexOk, Gentle, ConsumersOk, ElementsOk, BlocksOk, PlacesOk, ProducerOk;
    var s' := Apply(s, Produce);
    var b := s.producer.b;
    PhaseHolds(s);
    SameIndex(s, s'.producer);
    ResetProducer(s);
    PlaceBlocks(s.live, s.place, s.done, s.slots, b, Transit, 0);
    assert s.place[b := Transit] == s.place;
    PlacesMove(s, s'.producer);
    PlaceGentle(s, s', b);
    ConsumersUntouched(s, s');
  }

  // ---- writing and publishing elements ----

  lemma WriteTarget<T>(s: State<T>)
    requires Inv(s) && s.producer.PWrite? && s.producer.n < |s.producer.xs|
    ensures var i := s.tail + s.producer.n;
      BlockOf(i) in s.live && WriteBlock(s.tail, s.tailBlock, s.producer.got, s.producer.n) == Some(s.live[BlockOf(i)])
    ensures var b := s.live[BlockOf(s.tail + s.producer.n)]; b in s.cells && |s.cells[b]| == BLOCK_SIZE
  {
    PhaseHolds(s);
    WriteBlockLive(s, s.producer.xs, s.producer.got, s.producer.n);
    assert BlockOk(s.live, s.place, s.done, s.slots, BlockOf(s.tail + s.producer.n));
  }

  /** A write never lands on an element that is still to be dequeued. */
  lemma WriteElements<T>(s: State<T>, s': State<T>, i: nat, b: Block, x: T)
    requires ElementsOk(s.slots, s.live, s.cells, s.items) && BlocksOk(s.live, s.place, s.done, s.slots) &&
      CellsOk(s.place, s.cells)
    requires |s.items| <= i && BlockOf(i) in s.live && s.live[BlockOf(i)] == b && b in s.cells &&
      |s.cells[b]| == BLOCK_SIZE
    requires s'.cells == s.cells[b := s.cells[b][CellOf(i) := Some(x)]]
    ensures ElementsOk(s.slots, s.live, s'.cells, s.items) && CellsOk(s.place, s'.cells)
  {
    forall j | 0 <= j < |s.items| ensures ElementOk(s.slots, s.live, s'.cells, j, s.items[j]) {
      assert ElementOk(s.slots, s.live, s.cells, j, s.items[j]);
      if BlockOf(j) in s.live {
        SameCell(s.live, s.place, s.done, s.slots, i, j);
      }
    }
  }

  lemma WritePhase<T>(s: State<T>)
    requires PhaseOk(s) && s.producer.PWrite? && s.producer.n < |s.producer.xs| &&
      BlocksOk(s.live, s.place, s.done, s.slots) && TailBlockOk(s.tail, s.live, s.tailBlock)
    requires BlockOf(s.tail + s.producer.n) in s.live &&
      WriteBlock(s.tail, s.tailBlock, s.producer.got, s.producer.n) == Some(s.live[BlockOf(s.tail + s.producer.n)])
    requires var b := s.live[BlockOf(s.tail + s.producer.n)]; b in s.cells && |s.cells[b]| == BLOCK_SIZE
    ensures PhaseOk(Apply(s, Produce))
  {
    var s' := Apply(s, Produce);
    var PWrite(xs, got, n) := s.producer;
    forall j | 0 <= j < n + 1 ensures WrittenAt(s', xs, got, j) {
      OneMoreWritten(s, s', xs, got, n, j);
    }
  }

  lemma OneMoreWritten<T>(s: State<T>, s': State<T>, xs: seq<T>, got: seq<Block>, n: nat, j: nat)
    requires BlocksOk(s.live, s.place, s.done, s.slots) && TailBlockOk(s.tail, s.live, s.tailBlock)
    requires GotLive(s.live, FirstNew(s.tail), got, 0) && Base(NextBlock(s.tail, got)) >= s.tail + |xs|
    requires j <= n < |xs| && (j < n ==> WrittenAt(s, xs, got, j)) && BlockOf(s.tail + n) in s.live
    requires var b := s.live[BlockOf(s.tail + n)]; b in s.cells && |s.cells[b]| == BLOCK_SIZE
    requires s' == s.(cells := s'.cells, producer := s'.producer)
    requires var b := s.live[BlockOf(s.tail + n)];
      s'.cells == s.cells[b := s.cells[b][CellOf(s.tail + n) := Some(xs[n])]]
    ensures WrittenAt(s', xs, got, j)
  {
    WriteBlockLive(s, xs, got, j);
    SameCell(s.live, s.place, s.done, s.slots, s.tail + j, s.tail + n);
  }

  lemma CellsGentle<T>(s: State<T>, s': State<T>)
    requires s'.slots == s.slots && s'.live == s.live && s'.ring == s.ring && s'.place == s.place
    ensures Gentle(s, s', |s.consumers|)
  {
  }

  lemma PWriteStep<T>(s: State<T>)
    requires Inv(s) && s.producer.PWrite? && s.producer.n < |s.producer.xs|
    ensures Inv(Apply(s, Produce))
  {
    hide PhaseOk, IndexOk, Gentle, ConsumersOk, ElementsOk, BlocksOk, PlacesOk, CellsOk;
    var s' := Apply(s, Produce);
    PhaseHolds(s);
    WriteTarget(s);
    var i := s.tail + s.producer.n;
    SameIndex(s, s'.producer);
    WriteElements(s, s', i, s.live[BlockOf(i)], s.producer.xs[s.producer.n]);
    WritePhase(s);
    PlacesMove(s, s'.producer);
    CellsGentle(s, s');
    ConsumersUntouched(s, s');
  }

  lemma PublishedBlocks<T>(tail: nat, xs: seq<T>, got: seq<Block>)
    requires Enough(tail, xs, got)
    ensures FirstNew(tail + |xs|) == FirstNew(tail) + |got|
  {
  }

  lemma PublishElements<T>(s: State<T>)
    requires s.producer.PPublish? && PhaseOk(s) && ElementsOk(s.slots, s.live, s.cells, s.items) &&
      TailBlockOk(s.tail, s.live, s.tailBlock)
    requires |s.slots| <= s.tail == |s.items|
    ensures ElementsOk(s.slots, s.live, s.cells, s.items + s.producer.xs)
  {
    var PPublish(xs, got) := s.producer;
    forall i | 0 <= i < |s.items + xs| ensures ElementOk(s.slots, s.live, s.cells, i, (s.items + xs)[i]) {
      if i < |s.items| {
        assert ElementOk(s.slots, s.live, s.cells, i, s.items[i]);
      } else {
        assert WrittenAt(s, xs, got, i - s.tail);
        WriteBlockLive(s, xs, got, i - s.tail);
      }
    }
  }

  lemma PublishTail<T>(s: State<T>)
    requires s.producer.PPublish? && PhaseOk(s) && TailBlockOk(s.tail, s.live, s.tailBlock)
    ensures var s' := Apply(s, Produce); TailBlockOk(s'.tail, s.live, s'.tailBlock)
  {
    var PPublish(xs, got) := s.producer;
    PublishedBlocks(s.tail, xs, got);
    if |got| > 0 {
      assert LiveIs(s.live, FirstNew(s.tail) + (|got| - 1), got[|got| - 1]);
    }
  }

  lemma PublishProducer<T>(s: State<T>)
    requires s.producer.PPublish? && ProducerOk(s)
    ensures ProducerOk(Apply(s, Produce))
  {
    PublishedBlocks(s.tail, s.producer.xs, s.producer.got);
  }

  lemma PublishIndex<T>(s: State<T>)
    requires s.producer.PPublish? && PhaseOk(s) && IndexOk(s.ring, s.live, s.tail, s.producer) &&
      TailBlockOk(s.tail, s.live, s.tailBlock)
    ensures IndexOk<T>(s.ring, s.live, s.tail + |s.producer.xs|, PIdle)
  {
    var PPublish(xs, got) := s.producer;
    PublishedBlocks(s.tail, xs, got);
  }

  lemma PPublishStep<T>(s: State<T>)
    requires Inv(s) && s.producer.PPublish?
    ensures Inv(Apply(s, Produce))
  {
    hide PhaseOk, IndexOk, Gentle, ConsumersOk, ElementsOk, BlocksOk, PlacesOk, ProducerOk, TailBlockOk;
    var s' := Apply(s, Produce);
    PhaseHolds(s);
    PublishElements(s);
    PublishTail(s);
    PublishProducer(s);
    PublishIndex(s);
    PlacesMove(s, s'.producer);
    CellsGentle(s, s');
    ConsumersUntouched(s, s');
  }

  // ---- taking back an insertion ----

  /** What is known of the entry found for the block to be taken back. */
  lemma UndoEntry<T>(s: State<T>)
    requires s.producer.PUndoNull? && PhaseOk(s) && IndexOk(s.ring, s.live, s.tail, s.producer)
    ensures s.producer.j < |s.producer.got| && s.producer.e < |s.ring.entries|
    ensures s.ring.entries[s.producer.e].key == Base(FirstNew(s.tail) + s.producer.j)
    ensures LiveIs(s.live, FirstNew(s.tail) + s.producer.j, s.producer.got[s.producer.j])
    ensures Usable(s.ring) && RingInv(s.ring) && LiveInv(s.ring, Top(s.tail, s.producer), s.live)
  {
    hide RingInv, LiveInv, GotKeys, LiveFrom, GotInHand;
    var PUndoNull(got, j, e) := s.producer;
    assert LiveIs(s.live, FirstNew(s.tail) + j, got[j]);
  }

  lemma UndoNullRing<T>(s: State<T>)
    requires s.producer.PUndoNull? && PhaseOk(s) && IndexOk(s.ring, s.live, s.tail, s.producer)
    ensures s.producer.j < |s.producer.got| && s.producer.e < |s.ring.entries|
    ensures s.ring.entries[s.producer.e].key == Base(FirstNew(s.tail) + s.producer.j)
    ensures Usable(s.ring) && Apply(s, Produce).ring == StoreValue(s.ring, s.producer.e, None)
    ensures LiveIs(s.live, FirstNew(s.tail) + s.producer.j, s.producer.got[s.producer.j])
    ensures var s' := Apply(s, Produce); IndexOk(s'.ring, s'.live, s'.tail, s'.producer)
  {
    hide Apply, PhaseOk, RingInv, LiveInv;
    UndoEntry(s);
    UninstallIs(s);
    var PUndoNull(got, j, e) := s.producer;
    LiveWithout(s.ring, Top(s.tail, s.producer), s.live, FirstNew(s.tail) + j);
    StoreValueInv(s.ring, e, None);
    StoreValueLive(s.ring, e, None, Top(s.tail, s.producer), s.live - {FirstNew(s.tail) + j});
    StoreValueUsable(s.ring, e, None);
  }

  lemma UndoBlocks<T>(s: State<T>, k: int, b: Block)
    requires BlocksOk(s.live, s.place, s.done, s.slots) && LiveIs(s.live, k, b)
    ensures BlocksOk(s.live - {k}, s.place[b := Transit], s.done, s.slots)
  {
    assert BlockOk(s.live, s.place, s.done, s.slots, k);
    forall q | q in s.live - {k} ensures BlockOk(s.live - {k}, s.place[b := Transit], s.done, s.slots, q) {
      assert BlockOk(s.live, s.place, s.done, s.slots, q);
    }
  }

  lemma UndoElements<T>(s: State<T>, k: int)
    requires ElementsOk(s.slots, s.live, s.cells, s.items) && |s.items| == s.tail && k >= FirstNew(s.tail)
    ensures ElementsOk(s.slots, s.live - {k}, s.cells, s.items)
  {
    forall i | 0 <= i < |s.items| ensures ElementOk(s.slots, s.live - {k}, s.cells, i, s.items[i]) {
      assert ElementOk(s.slots, s.live, s.cells, i, s.items[i]);
    }
  }

  lemma UndoPlaces<T>(s: State<T>, k: int, pc': ProducerPC<T>)
    requires PlacesOk(s.place, s.live, s.producer, s.consumers) && s.producer.PUndoNull? &&
      s.producer.j < |s.producer.got|
    requires LiveIs(s.live, k, s.producer.got[s.producer.j]) && pc' == PUndoTail(s.producer.got, s.producer.j)
    ensures PlacesOk(s.place[s.producer.got[s.producer.j] := Transit], s.live - {k}, pc', s.consumers)
  {
    var b := s.producer.got[s.producer.j];
    var place' := s.place[b := Transit];
    forall c | c in place' ensures PlaceOk(place'[c], s.live - {k}, pc', s.consumers, c) {
      if c != b {
        assert PlaceOk(s.place[c], s.live, s.producer, s.consumers, c);
        if s.place[c] == Transit {
          var i :| 0 <= i < |Got(s.producer)| && i < ValuesUndone(s.producer) && Got(s.producer)[i] == c;
          assert Got(pc')[i] == c;
        }
      } else {
        assert Got(pc')[s.producer.j] == b;
      }
    }
  }

  lemma UninstallIs<T>(s: State<T>)
    requires s.producer.PUndoNull? && s.producer.j < |s.producer.got| && s.producer.e < |s.ring.entries|
    ensures var PUndoNull(got, j, e) := s.producer;
      Apply(s, Produce) == s.(ring := StoreValue(s.ring, e, None), producer := PUndoTail(got, j),
        live := s.live - {FirstNew(s.tail) + j}, place := s.place[got[j] := Transit])
  {
    hide StoreValue, FirstNew;
  }

  lemma UndoPhase<T>(s: State<T>)
    requires s.producer.PUndoNull? && ProducerOk(s) && s.producer.j < |s.producer.got| && Usable(s.ring) &&
      s.producer.e < |s.ring.entries|
    ensures ProducerOk(Apply(s, Produce))
  {
    hide Apply, GotLive, LiveFrom, GotKeys;
    UninstallIs(s);
    var PUndoNull(got, j, e) := s.producer;
    UndoGotLive(s.live, FirstNew(s.tail), got, j);
    UndoLiveFrom(s.live, FirstNew(s.tail), j);
    UndoGotKeys(s.ring, e, FirstNew(s.tail), |got|);
  }

  lemma UndoGotKeys(r: Ring, e: nat, first: nat, n: nat)
    requires Usable(r) && e < |r.entries| && GotKeys(r, first, n)
    ensures GotKeys(StoreValue(r, e, None), first, n)
  {
    StoreValueUsable(r, e, None);
    var r' := StoreValue(r, e, None);
    forall k | first <= k < first + n ensures EntryOf(r', Current(r'), k).key == Base(k) {
      assert EntryOf(r, Current(r), k).key == Base(k);
    }
  }

  lemma UndoLiveFrom(live: map<int, Block>, first: nat, j: nat)
    requires LiveFrom(live, first, first + j)
    ensures LiveFrom(live - {first + j}, first, first + j + 1)
  {
  }

  lemma UndoGotLive(live: map<int, Block>, first: nat, got: seq<Block>, j: nat)
    requires GotLive(live, first, got, j) && j < |got|
    ensures GotLive(live - {first + j}, first, got, j + 1)
  {
    forall i | j + 1 <= i < |got| ensures LiveIs(live - {first + j}, first + i, got[i]) {
      assert LiveIs(live, first + i, got[i]);
    }
  }

  lemma UndoGentle<T>(s: State<T>, s': State<T>, k: int, b: Block, e: nat)
    requires e < |s.ring.entries| && s'.ring == StoreValue(s.ring, e, None) && s.ring.entries[e].key == Base(k)
    requires s'.slots == s.slots && s'.live == s.live - {k} && Base(k) >= |s.slots|
    requires b in s.place && s.place[b].Installed? && s'.place == s.place[b := Transit]
    ensures Gentle(s, s', |s.consumers|)
  {
    forall h, j | j in s'.live && Found(s.ring, h, j, s.live[j]) ensures Found(s'.ring, h, j, s.live[j]) {
      StoreValueFound(s.ring, e, None, h, j, s.live[j]);
    }
    forall h, slot | KeyInPlace(s.ring, h, slot) ensures KeyInPlace(s'.ring, h, slot) {
      StoreValueInPlace(s.ring, e, None, h, slot);
    }
  }

  lemma PUndoNullStep<T>(s: State<T>)
    requires Inv(s) && s.producer.PUndoNull?
    ensures Inv(Apply(s, Produce))
  {
    hide PhaseOk, IndexOk, Gentle, ConsumersOk, ElementsOk, BlocksOk, PlacesOk;
    var s' := Apply(s, Produce);
    PhaseHolds(s);
    UndoNullRing(s);
    var k, b := FirstNew(s.tail) + s.producer.j, s.producer.got[s.producer.j];
    UndoBlocks(s, k, b);
    UndoElements(s, k);
    UndoPlaces(s, k, s'.producer);
    UndoPhase(s);
    assert b in s.place && s.place[b].Installed? by { InstalledAt(s, k); }
    UndoGentle(s, s', k, b, s.producer.e);
    ConsumersUntouched(s, s');
  }

  lemma InstalledAt<T>(s: State<T>, k: int)
    requires BlocksOk(s.live, s.place, s.done, s.slots) && k in s.live
    ensures s.live[k] in s.place && s.place[s.live[k]] == Installed(k)
  {
    assert BlockOk(s.live, s.place, s.done, s.slots, k);
  }

  // ---- giving blocks back, and the world outside ----

  lemma FreePlacesBack<T>(s: State<T>, pc': ProducerPC<T>)
    requires PlacesOk(s.place, s.live, s.producer, s.consumers) && s.producer.PFree? && s.producer.j < |s.producer.got|
    requires pc' == PFree(s.producer.got, s.producer.j + 1)
    ensures PlacesOk(s.place[s.producer.got[s.producer.j] := Elsewhere], s.live, pc', s.consumers)
  {
    var place' := s.place[s.producer.got[s.producer.j] := Elsewhere];
    forall c | c in place' ensures PlaceOk(place'[c], s.live, pc', s.consumers, c) {
      if c != s.producer.got[s.producer.j] { assert PlaceOk(s.place[c], s.live, s.producer, s.consumers, c); }
    }
  }

  lemma FreeBackProducer<T>(s: State<T>)
    requires ProducerOk(s) && s.producer.PFree? && s.producer.j < |s.producer.got|
    ensures ProducerOk(Apply(s, Produce)) && s.producer.got[s.producer.j] in s.place &&
      s.place[s.producer.got[s.producer.j]] == Transit
  {
  }

  lemma PFreeStep<T>(s: State<T>)
    requires Inv(s) && s.producer.PFree? && s.producer.j < |s.producer.got|
    ensures Inv(Apply(s, Produce))
  {
    hide PhaseOk, IndexOk, Gentle, ConsumersOk, ElementsOk, BlocksOk, PlacesOk, ProducerOk;
    var s' := Apply(s, Produce);
    var b := s.producer.got[s.producer.j];
    PhaseHolds(s);
    SameIndex(s, s'.producer);
    FreeBackProducer(s);
    PlaceBlocks(s.live, s.place, s.done, s.slots, b, Elsewhere, 0);
    FreePlacesBack(s, s'.producer);
    PlaceGentle(s, s', b);
    ConsumersUntouched(s, s');
  }

  lemma FreeEndProducer<T>(s: State<T>)
    requires ProducerOk(s) && s.producer.PFree? && s.producer.j >= |s.producer.got| &&
      IndexOk(s.ring, s.live, s.tail, s.producer)
    ensures ProducerOk(Apply(s, Produce)) && InHandKept<T>(s.producer, PIdle) &&
      IndexOk<T>(s.ring, s.live, s.tail, PIdle)
  {
  }

  lemma PFreeEndStep<T>(s: State<T>)
    requires Inv(s) && s.producer.PFree? && s.producer.j >= |s.producer.got|
    ensures Inv(Apply(s, Produce))
  {
    hide PhaseOk, IndexOk, Gentle, ConsumersOk, ElementsOk, BlocksOk, PlacesOk, ProducerOk;
    var s' := Apply(s, Produce);
    PhaseHolds(s);
    FreeEndProducer(s);
    PlacesMove(s, s'.producer);
    CellsGentle(s, s');
    ConsumersUntouched(s, s');
  }

  lemma OutsideElements<T>(s: State<T>, b: Block, c: seq<Option<T>>)
    requires ElementsOk(s.slots, s.live, s.cells, s.items) && BlocksOk(s.live, s.place, s.done, s.slots) &&
      CellsOk(s.place, s.cells)
    requires |c| == BLOCK_SIZE && (b in s.place ==> s.place[b] == Elsewhere)
    ensures ElementsOk(s.slots, s.live, s.cells[b := c], s.items) && CellsOk(s.place[b := Elsewhere], s.cells[b := c])
  {
    forall i | 0 <= i < |s.items| ensures ElementOk(s.slots, s.live, s.cells[b := c], i, s.items[i]) {
      assert ElementOk(s.slots, s.live, s.cells, i, s.items[i]);
      if BlockOf(i) in s.live { InstalledAt(s, BlockOf(i)); }
    }
  }

  lemma OutsidePlaces<T>(s: State<T>, b: Block)
    requires PlacesOk(s.place, s.live, s.producer, s.consumers)
    ensures PlacesOk(s.place[b := Elsewhere], s.live, s.producer, s.consumers)
  {
    var place' := s.place[b := Elsewhere];
    forall c | c in place' ensures PlaceOk(place'[c], s.live, s.producer, s.consumers, c) {
      if c != b { assert PlaceOk(s.place[c], s.live, s.producer, s.consumers, c); }
    }
  }

  lemma OutsideWrites<T>(s: State<T>, s': State<T>, b: Block, xs: seq<T>, got: seq<Block>, n: nat)
    requires BlocksOk(s.live, s.place, s.done, s.slots) && TailBlockOk(s.tail, s.live, s.tailBlock)
    requires GotLive(s.live, FirstNew(s.tail), got, 0) && Base(NextBlock(s.tail, got)) >= s.tail + |xs| &&
      Written(s, xs, got, n)
    requires (b in s.place ==> s.place[b] == Elsewhere) && b in s'.cells && s'.cells == s.cells[b := s'.cells[b]]
    requires s'.tail == s.tail && s'.tailBlock == s.tailBlock
    ensures Written(s', xs, got, n)
  {
    forall j | 0 <= j < n ensures WrittenAt(s', xs, got, j) {
      assert WrittenAt(s, xs, got, j);
      WriteBlockLive(s, xs, got, j);
      InstalledAt(s, BlockOf(s.tail + j));
    }
  }

  lemma OutsideProducer<T>(s: State<T>, s': State<T>, b: Block)
    requires ProducerOk(s) && BlocksOk(s.live, s.place, s.done, s.slots) && TailBlockOk(s.tail, s.live, s.tailBlock)
    requires (b in s.place ==> s.place[b] == Elsewhere) && b in s'.cells && b in s'.done
    requires s' == s.(cells := s.cells[b := s'.cells[b]], done := s.done[b := s'.done[b]], place :=
      s.place[b := Elsewhere])
    ensures ProducerOk(s')
  {
    if s.producer.PWrite? {
      OutsideWrites(s, s', b, s.producer.xs, s.producer.got, s.producer.n);
    } else if s.producer.PPublish? {
      OutsideWrites(s, s', b, s.producer.xs, s.producer.got, |s.producer.xs|);
    }
    ProducerAside(s, s');
  }

  /** Blocks that are not ours may be created, written and counted by anyone. */
  lemma OutsideStep<T>(s: State<T>, b: Block, c: seq<Option<T>>, n: nat)
    requires Inv(s) && Enabled(s, Outside(b, c, n))
    ensures Inv(Apply(s, Outside(b, c, n)))
  {
    hide PhaseOk, IndexOk, Gentle, ConsumersOk, ElementsOk, BlocksOk, PlacesOk, ProducerOk, TailBlockOk, CellsOk;
    var s' := Apply(s, Outside(b, c, n));
    OutsideElements(s, b, c);
    PlaceBlocks(s.live, s.place, s.done, s.slots, b, Elsewhere, n);
    OutsidePlaces(s, b);
    OutsideProducer(s, s', b);
    PlaceGentle(s, s', b);
    ConsumersUntouched(s, s');
  }

  /** Every step of the producer keeps the invariant. */
  lemma ProduceKeepsInv<T>(s: State<T>)
    requires Inv(s) && Enabled(s, Produce)
    ensures Inv(Apply(s, Produce))
  {
    hide Inv, Apply;
    match s.producer {
      case PNext(_, _) => NextStep(s);
      case PSlot(_, _) => SlotStep(s);
      case PKey(_, _) => PKeyStep(s);
      case PTail(_, _) => PTailStep(s);
      case PReset(_, _, _) => PResetStep(s);
      case PValue(_, _, _) => PValueStep(s);
      case PWrite(xs, _, n) => if n < |xs| { PWriteStep(s); } else { WriteEndStep(s); }
      case PPublish(_, _) => PPublishStep(s);
      case PRewind(_) => PRewindStep(s);
      case PNull(_) => PNullStep(s);
      case PUndoFind(_, _) => UndoFindStep(s);
      case PUndoNull(_, _, _) => PUndoNullStep(s);
      case PUndoTail(_, _) => PUndoTailStep(s);
      case PFree(got, j) => if j < |got| { PFreeStep(s); } else { PFreeEndStep(s); }
    }
  }

  /** Every step of every thread keeps the invariant. */
  lemma StepKeepsInv<T>(s: State<T>, a: Action<T>)
    requires Inv(s) && Enabled(s, a) && ClaimsSome(a)
    ensures Inv(Apply(s, a))
  {
    hide Inv, Apply;
    match a {
      case CallEnqueue(xs) => CallEnqueueStep(s, xs);
      case Produce => ProduceKeepsInv(s);
      case NoMemory => NoMemoryStep(s);
      case GrowIndex(g) => GrowIndexStep(s, g);
      case TakeBlock(b) => TakeBlockStep(s, b);
      case Claim(t, n) => ClaimStep(s, t, n);
      case Consume(t) => ConsumeKeepsInv(s, t);
      case Outside(b, c, n) => OutsideStep(s, b, c, n);
    }
  }
}
