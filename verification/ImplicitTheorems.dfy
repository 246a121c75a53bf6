/** What the implicit producer's sub-queue guarantees over whole runs. */
module ImplicitTheorems {
  import opened Options
  import opened BlockIndex
  import opened BlockIndexInvariant
  import opened ImplicitProducer
  import opened ImplicitInvariant
  import opened ImplicitConsumer
  import opened ImplicitEnqueue

  // ---- who holds a claimed slot ----

  ghost predicate WaitsFor(pc: ConsumerPC, i: nat) {
    match pc
    case CIdle => false
    case CHeader(pos, end) => pos <= i < end
    case CTail(pos, end, _) => pos <= i < end
    case CKey(pos, end, _, _) => pos <= i < end
    case CValue(pos, end, _, _) => pos <= i < end
    case CMove(_, pos, _, end, _, _, _) => pos <= i < end
    case CCount(_, stop, end, _, _, _) => stop <= i < end
    case CNull(stop, end, _, _, _) => stop <= i < end
    case CFree(stop, end, _, _, _) => stop <= i < end
  }

  /** Past the lookup: moving elements out of a block, counting them, or freeing the block. */
  ghost predicate Working(pc: ConsumerPC) {
    pc.CMove? || pc.CCount? || pc.CNull? || pc.CFree?
  }

  ghost predicate HasMoved(pc: ConsumerPC, i: nat) {
    (pc.CMove? && pc.start <= i < pc.pos) || (pc.CCount? && pc.start <= i < pc.stop)
  }

  ghost predicate SlotHeld(x: Slot, consumers: seq<ConsumerPC>, i: nat) {
    match x
    case Waiting(t) => t < |consumers| && WaitsFor(consumers[t], i)
    case Moved(t) => t < |consumers| && HasMoved(consumers[t], i)
    case Counted => true
  }

  ghost predicate TakenOnly<T>(slots: seq<Slot>, taken: map<nat, T>) {
    forall i :: i in taken ==> i < |slots| && !slots[i].Waiting?
  }

  /** Every claimed slot not yet counted is in the hands of a consumer, and only moved slots have been taken. */
  ghost predicate HeldInv<T>(s: State<T>) {
    && TakenOnly(s.slots, s.taken)
    && forall i :: 0 <= i < |s.slots| ==> SlotHeld(s.slots[i], s.consumers, i)
  }

  /** What a step of consumer `t` must respect for slots to stay held. */
  ghost predicate HoldsOn<T>(s: State<T>, s': State<T>, t: Tid) {
    && |s'.slots| == |s.slots| && t < |s.consumers| == |s'.consumers| &&
      s'.consumers == s.consumers[t := s'.consumers[t]]
    && forall i :: 0 <= i < |s.slots| ==>
      if s.slots[i] == Waiting(t) || s.slots[i] == Moved(t) then SlotHeld(s'.slots[i], s'.consumers, i)
        else s'.slots[i] == s.slots[i]
  }

  lemma HoldsOnKeeps<T>(s: State<T>, s': State<T>, t: Tid)
    requires HeldInv(s) && HoldsOn(s, s', t) && TakenOnly(s'.slots, s'.taken)
    ensures HeldInv(s')
  {
    forall i | 0 <= i < |s'.slots| ensures SlotHeld(s'.slots[i], s'.consumers, i) {
      assert SlotHeld(s.slots[i], s.consumers, i);
    }
  }

  /** A reader goes on waiting for what it was waiting for. */
  lemma LookupWaits<T>(s: State<T>, t: Tid, i: nat)
    requires Inv(s) && t < |s.consumers| && WaitsFor(s.consumers[t], i)
    requires s.consumers[t].CHeader? || s.consumers[t].CTail? || s.consumers[t].CKey? || s.consumers[t].CValue?
    ensures WaitsFor(ConsumerStep(s, t, s.consumers[t]).consumers[t], i)
  {
    hide Inv, LookupSlot, EntryAt, Base;
  }

  lemma LookupIs<T>(s: State<T>, t: Tid)
    requires t < |s.consumers|
    requires s.consumers[t].CHeader? || s.consumers[t].CTail? || s.consumers[t].CKey? || s.consumers[t].CValue?
    ensures var s' := ConsumerStep(s, t, s.consumers[t]);
      t < |s'.consumers| && s' == s.(consumers := s.consumers[t := s'.consumers[t]])
  {
    hide ConsumerStep;
    if s.consumers[t].CHeader? || s.consumers[t].CTail? { HeaderIs(s, t); } else { EntryIs(s, t); }
  }

  lemma HeaderIs<T>(s: State<T>, t: Tid)
    requires t < |s.consumers| && (s.consumers[t].CHeader? || s.consumers[t].CTail?)
    ensures var s' := ConsumerStep(s, t, s.consumers[t]);
      t < |s'.consumers| && s' == s.(consumers := s.consumers[t := s'.consumers[t]])
  {
    hide Usable;
  }

  lemma EntryIs<T>(s: State<T>, t: Tid)
    requires t < |s.consumers| && (s.consumers[t].CKey? || s.consumers[t].CValue?)
    ensures var s' := ConsumerStep(s, t, s.consumers[t]);
      t < |s'.consumers| && s' == s.(consumers := s.consumers[t := s'.consumers[t]])
  {
    hide LookupSlot, EntryAt, EndOfBlock, BlockOf, Base, Min;
  }

  lemma LookupHolds<T>(s: State<T>, t: Tid)
    requires Inv(s) && HeldInv(s) && t < |s.consumers|
    requires s.consumers[t].CHeader? || s.consumers[t].CTail? || s.consumers[t].CKey? || s.consumers[t].CValue?
    ensures HeldInv(Apply(s, Consume(t)))
  {
    hide Inv, Apply, ConsumerStep;
    ConsumeIs(s, t);
    LookupIs(s, t);
    var s' := Apply(s, Consume(t));
    forall i | 0 <= i < |s.slots| && (s.slots[i] == Waiting(t) || s.slots[i] == Moved(t))
      ensures SlotHeld(s'.slots[i], s'.consumers, i) {
      assert SlotHeld(s.slots[i], s.consumers, i);
      if s.slots[i] == Waiting(t) { LookupWaits(s, t, i); }
    }
    HoldsOnKeeps(s, s', t);
  }

  lemma MoveIs<T>(s: State<T>, t: Tid)
    requires t < |s.consumers| && s.consumers[t].CMove?
    ensures var s' := ConsumerStep(s, t, s.consumers[t]);
      var CMove(start, pos, stop, end, h, slot, b) := s.consumers[t];
      && s'.slots == (if pos < stop && pos < |s.slots| then s.slots[pos := Moved(t)] else s.slots)
      && (forall i :: i in s'.taken ==> i in s.taken || (pos < stop && i == pos))
      && s'.consumers == s.consumers[t :=
        if pos < stop then CMove(start, pos + 1, stop, end, h, slot, b) else CCount(start, stop, end, h, slot, b)]
  {
    hide Cells, CellOf;
  }

  lemma MoveHolds<T>(s: State<T>, t: Tid)
    requires Inv(s) && HeldInv(s) && t < |s.consumers| && s.consumers[t].CMove?
    ensures HeldInv(Apply(s, Consume(t)))
  {
    hide Inv, Apply, ConsumerStep, LocatedAll;
    ConsumeIs(s, t);
    MoveIs(s, t);
    var s' := Apply(s, Consume(t));
    ConsumerIsOk(s, t);
    if s.consumers[t].pos < s.consumers[t].stop { MoveFinds(s, t); }
    forall i | 0 <= i < |s.slots| && (s.slots[i] == Waiting(t) || s.slots[i] == Moved(t))
      ensures SlotHeld(s'.slots[i], s'.consumers, i) {
      assert SlotHeld(s.slots[i], s.consumers, i);
    }
    HoldsOnKeeps(s, s', t);
  }

  /** The rest of a claim goes on waiting when a block is done with. */
  lemma NextHolds<T>(s: State<T>, t: Tid)
    requires Inv(s) && t < |s.consumers| && (s.consumers[t].CCount? || s.consumers[t].CNull? || s.consumers[t].CFree?)
    ensures var pc := s.consumers[t];
      forall i: nat :: pc.stop <= i < pc.end ==> WaitsFor(NextPiece(s.ring, pc.stop, pc.end, pc.h, pc.slot), i)
  {
    hide Inv;
    ConsumerIsOk(s, t);
    var pc := s.consumers[t];
    assert pc.stop < pc.end ==> Located(s.ring, s.live, pc.h, pc.stop);
  }

  lemma CountHolds<T>(s: State<T>, t: Tid)
    requires Inv(s) && HeldInv(s) && t < |s.consumers| && s.consumers[t].CCount?
    ensures HeldInv(Apply(s, Consume(t)))
  {
    hide Inv, NextPiece;
    var s' := Apply(s, Consume(t));
    NextHolds(s, t);
    CountFacts(s, t);
    CountedHeld(s, s', t);
    HoldsOnKeeps(s, s', t);
  }

  lemma CountedHeld<T>(s: State<T>, s': State<T>, t: Tid)
    requires HeldInv(s) && t < |s.consumers| == |s'.consumers| && s.consumers[t].CCount?
    requires CountsPiece(s.slots, s'.slots, s.consumers[t].start, s.consumers[t].stop, t) && s'.taken == s.taken
    requires s'.consumers == s.consumers[t := s'.consumers[t]]
    requires var pc := s.consumers[t]; forall i: nat :: pc.stop <= i < pc.end ==> WaitsFor(s'.consumers[t], i)
    ensures HoldsOn(s, s', t) && TakenOnly(s'.slots, s'.taken)
  {
    forall i | 0 <= i < |s.slots| && (s.slots[i] == Waiting(t) || s.slots[i] == Moved(t))
      ensures SlotHeld(s'.slots[i], s'.consumers, i) {
      assert SlotHeld(s.slots[i], s.consumers, i);
    }
  }

  lemma FreeIs<T>(s: State<T>, t: Tid)
    requires t < |s.consumers| && (s.consumers[t].CNull? || s.consumers[t].CFree?)
    ensures var s', pc := ConsumerStep(s, t, s.consumers[t]), s.consumers[t];
      && s'.slots == s.slots && s'.taken == s.taken && t < |s'.consumers|
      && s'.consumers == s.consumers[t := s'.consumers[t]]
      && (s'.consumers[t] == pc || s'.consumers[t] == CFree(pc.stop, pc.end, pc.h, pc.slot, pc.b) ||
        s'.consumers[t] == NextPiece(s.ring, pc.stop, pc.end, pc.h, pc.slot))
  {
    hide NextPiece;
  }

  lemma FreeHolds<T>(s: State<T>, t: Tid)
    requires Inv(s) && HeldInv(s) && t < |s.consumers| && (s.consumers[t].CNull? || s.consumers[t].CFree?)
    ensures HeldInv(Apply(s, Consume(t)))
  {
    hide Inv, NextPiece, Apply, ConsumerStep;
    ConsumeIs(s, t);
    FreeIs(s, t);
    var s' := Apply(s, Consume(t));
    NextHolds(s, t);
    forall i | 0 <= i < |s.slots| && (s.slots[i] == Waiting(t) || s.slots[i] == Moved(t))
      ensures SlotHeld(s'.slots[i], s'.consumers, i) {
      assert SlotHeld(s.slots[i], s.consumers, i);
    }
    HoldsOnKeeps(s, s', t);
  }

  lemma ClaimHolds<T>(s: State<T>, t: Tid, n: nat)
    requires Inv(s) && HeldInv(s) && Enabled(s, Claim(t, n))
    ensures HeldInv(Apply(s, Claim(t, n)))
  {
    var s' := Apply(s, Claim(t, n));
    forall i | 0 <= i < |s'.slots| ensures SlotHeld(s'.slots[i], s'.consumers, i) {
      if i < |s.slots| { assert SlotHeld(s.slots[i], s.consumers, i); }
    }
  }

  /** What only the producer and the outside world change. */
  ghost predicate SameClaims<T>(s: State<T>, s': State<T>) {
    s'.slots == s.slots && s'.consumers == s.consumers && s'.taken == s.taken && s'.head == s.head
  }

  lemma OthersClaimNothing<T>(s: State<T>, a: Action<T>)
    requires Enabled(s, a) && !a.Claim? && !a.Consume?
    ensures SameClaims(s, Apply(s, a))
  {
    hide Apply, Enabled;
    if a.Produce? {
      ProduceIs(s);
      ProducerClaimsNothing(s);
    } else {
      NoItems(s, a);
    }
  }

  lemma ProducerClaimsNothing<T>(s: State<T>)
    ensures SameClaims(s, ProducerStep(s, s.producer))
    ensures ProducerStep(s, s.producer).items == if s.producer.PPublish? then s.items + s.producer.xs else s.items
    ensures ProducerStep(s, s.producer).tail == if s.producer.PPublish? then s.tail + |s.producer.xs| else s.tail
  {
    hide ProducerStep;
    if TakingBack(s.producer) { TakingBackClaimsNothing(s); }
    else if s.producer.PWrite? || s.producer.PPublish? { WritingClaimsNothing(s); }
    else if Taking(s.producer) || s.producer.PKey? { TakingClaimsNothing(s); }
    else { AskingClaimsNothing(s); }
  }

  lemma AskingClaimsNothing<T>(s: State<T>)
    requires s.producer.PIdle? || s.producer.PNext? || s.producer.PSlot? || s.producer.PGrow?
    ensures SameClaims(s, ProducerStep(s, s.producer)) && ProducerStep(s, s.producer).items == s.items &&
      ProducerStep(s, s.producer).tail == s.tail
  {
    hide ProducerStep;
    if s.producer.PNext? { NextMovesOnly(s); } else if s.producer.PSlot? { SlotMovesOnly(s); } else { WaitsStill(s); }
  }

  lemma NextMovesOnly<T>(s: State<T>)
    requires s.producer.PNext?
    ensures ProducerStep(s, s.producer) == s.(producer := ProducerStep(s, s.producer).producer)
  {
    hide FirstNew, NextBlock, Base;
  }

  lemma SlotMovesOnly<T>(s: State<T>)
    requires s.producer.PSlot?
    ensures ProducerStep(s, s.producer) == s.(producer := ProducerStep(s, s.producer).producer)
  {
    hide Usable, NewEntry, IsFree;
  }

  lemma WaitsStill<T>(s: State<T>)
    requires s.producer.PIdle? || s.producer.PGrow?
    ensures ProducerStep(s, s.producer) == s
  {
  }

  lemma WritingClaimsNothing<T>(s: State<T>)
    requires s.producer.PWrite? || s.producer.PPublish?
    ensures SameClaims(s, ProducerStep(s, s.producer))
    ensures ProducerStep(s, s.producer).items == if s.producer.PPublish? then s.items + s.producer.xs else s.items
    ensures ProducerStep(s, s.producer).tail == if s.producer.PPublish? then s.tail + |s.producer.xs| else s.tail
  {
    hide Cells, WriteBlock;
  }

  lemma TakingClaimsNothing<T>(s: State<T>)
    requires Taking(s.producer) || s.producer.PKey?
    ensures SameClaims(s, ProducerStep(s, s.producer)) && ProducerStep(s, s.producer).items == s.items &&
      ProducerStep(s, s.producer).tail == s.tail
  {
    hide ProducerStep;
    if s.producer.PKey? || s.producer.PTail? { KeyClaimsNothing(s); } else { ValueClaimsNothing(s); }
  }

  lemma KeyClaimsNothing<T>(s: State<T>)
    requires s.producer.PKey? || s.producer.PTail?
    ensures SameClaims(s, ProducerStep(s, s.producer)) && ProducerStep(s, s.producer).items == s.items &&
      ProducerStep(s, s.producer).tail == s.tail
  {
    hide FirstNew, NextBlock, StoreKey, Advance, Usable, NewEntry, Current, Base;
  }

  lemma ValueClaimsNothing<T>(s: State<T>)
    requires Taking(s.producer) && !s.producer.PTail?
    ensures SameClaims(s, ProducerStep(s, s.producer)) && ProducerStep(s, s.producer).items == s.items &&
      ProducerStep(s, s.producer).tail == s.tail
  {
    hide FirstNew, NextBlock, StoreValue, Usable, Current;
  }

  lemma TakingBackClaimsNothing<T>(s: State<T>)
    requires TakingBack(s.producer)
    ensures SameClaims(s, ProducerStep(s, s.producer)) && ProducerStep(s, s.producer).items == s.items &&
      ProducerStep(s, s.producer).tail == s.tail
  {
    hide ProducerStep;
    if s.producer.PRewind? || s.producer.PNull? || s.producer.PUndoTail? { UninsertClaimsNothing(s); }
    else { UndoClaimsNothing(s); }
  }

  lemma UninsertClaimsNothing<T>(s: State<T>)
    requires s.producer.PRewind? || s.producer.PNull? || s.producer.PUndoTail?
    ensures SameClaims(s, ProducerStep(s, s.producer)) && ProducerStep(s, s.producer).items == s.items &&
      ProducerStep(s, s.producer).tail == s.tail
  {
    hide StoreValue, Rewind, Usable, NewEntry;
  }

  lemma UndoClaimsNothing<T>(s: State<T>)
    requires s.producer.PUndoFind? || s.producer.PUndoNull? || s.producer.PFree?
    ensures SameClaims(s, ProducerStep(s, s.producer)) && ProducerStep(s, s.producer).items == s.items &&
      ProducerStep(s, s.producer).tail == s.tail
  {
    hide FirstNew, StoreValue, Usable, FindEntry, Base;
  }

  lemma HeldStep<T>(s: State<T>, a: Action<T>)
    requires Inv(s) && HeldInv(s) && Enabled(s, a)
    ensures HeldInv(Apply(s, a))
  {
    hide Inv, Apply, HeldInv;
    match a {
      case Claim(t, n) => ClaimHolds(s, t, n);
      case Consume(t) =>
        var pc := s.consumers[t];
        if pc.CMove? { MoveHolds(s, t); } else if pc.CCount? { CountHolds(s, t); }
        else if pc.CNull? || pc.CFree? { FreeHolds(s, t); } else { LookupHolds(s, t); }
      case _ =>
        OthersClaimNothing(s, a);
        SameClaimsHeld(s, Apply(s, a));
    }
  }

  lemma SameClaimsHeld<T>(s: State<T>, s': State<T>)
    requires HeldInv(s) && SameClaims(s, s')
    ensures HeldInv(s')
  {
    forall i | 0 <= i < |s'.slots| ensures SlotHeld(s'.slots[i], s'.consumers, i) {
      assert SlotHeld(s.slots[i], s.consumers, i);
    }
  }

  /** Both invariants at once. */
  lemma StorageKeepsInv<T>(s: State<T>, a: Action<T>)
    requires Inv(s) && HeldInv(s) && Enabled(s, a) && ClaimsSome(a)
    ensures Inv(Apply(s, a)) && HeldInv(Apply(s, a))
  {
    hide Inv, HeldInv, Apply;
    StepKeepsInv(s, a);
    HeldStep(s, a);
  }

  // ---- runs ----

  /** A run in which every claim is for at least one element. */
  ghost predicate IsRun<T>(run: seq<State<T>>, acts: seq<Action<T>>) {
    && |run| == |acts| + 1 && Initial(run[0])
    && forall i :: 0 <= i < |acts| ==>
      Enabled(run[i], acts[i]) && ClaimsSome(acts[i]) && run[i + 1] == Apply(run[i], acts[i])
  }

  /** Safety over whole runs: any interleaving of one producer, any consumers, index growth, failed allocations
      and foreign use of the pool stays within the invariant. */
  lemma {:induction false} RunKeepsInv<T>(run: seq<State<T>>, acts: seq<Action<T>>, i: nat)
    requires IsRun(run, acts) && i < |run|
    ensures Inv(run[i]) && HeldInv(run[i])
  {
    hide Inv, HeldInv, Apply, Enabled;
    if i == 0 {
      InitialInv(run[0]);
      InitialHeld(run[0]);
    } else {
      RunKeepsInv(run, acts, i - 1);
      StorageKeepsInv(run[i - 1], acts[i - 1]);
    }
  }

  lemma InitialHeld<T>(s: State<T>)
    requires Initial(s)
    ensures HeldInv(s)
  {
  }

  /** A lookup racing with insertions, rewinds and doubling finds the entry that carries the element's own block
      base and a block, and that block holds the element. */
  lemma LookupIsRight<T>(run: seq<State<T>>, acts: seq<Action<T>>, i: nat, t: Tid)
    requires IsRun(run, acts) && i < |run| && t < |run[i].consumers|
    ensures var s := run[i]; s.consumers[t].CKey? ==>
      InArray(s.ring, s.consumers[t].h, s.consumers[t].tail) &&
        EntryAt(s.ring, s.consumers[t].h, s.consumers[t].tail).key != INVALID_BLOCK_BASE
    ensures var s := run[i]; s.consumers[t].CValue? ==>
      && InArray(s.ring, s.consumers[t].h, s.consumers[t].slot)
      && EntryAt(s.ring, s.consumers[t].h, s.consumers[t].slot).key == Base(BlockOf(s.consumers[t].pos))
      && EntryAt(s.ring, s.consumers[t].h, s.consumers[t].slot).value.Some?
    ensures var s := run[i]; s.consumers[t].CMove? && s.consumers[t].pos < s.consumers[t].stop ==>
      s.consumers[t].pos < |s.items| && Cells(s.cells, s.consumers[t].b)[CellOf(s.consumers[t].pos)] ==
        Some(s.items[s.consumers[t].pos])
  {
    hide Inv, HeldInv, Apply, IsRun;
    RunKeepsInv(run, acts, i);
    var s := run[i];
    if s.consumers[t].CKey? { KeyStep(s, t); }
    if s.consumers[t].CValue? { ValueStep(s, t); }
    if s.consumers[t].CMove? && s.consumers[t].pos < s.consumers[t].stop { MoveFinds(s, t); }
  }

  /** The entry about to be given a new key is no live block's entry in any array a lookup may go through.  Giving it
      the key leaves every such lookup as it was, and every live block less than a turn behind. */
  lemma FreshEntryIsDead<T>(run: seq<State<T>>, acts: seq<Action<T>>, i: nat, h: nat, k: int)
    requires IsRun(run, acts) && i < |run| && run[i].producer.PKey? && k in run[i].live
    requires Found(run[i].ring, h, k, run[i].live[k])
    ensures HasIndex(run[i].ring) &&
      run[i].ring.headers[h].index[BlockIndex.Slot(run[i].ring.headers[h], k)] != NewEntry(run[i].ring)
    ensures var s' := Apply(run[i], Produce); Found(s'.ring, h, k, run[i].live[k]) && s'.live == run[i].live
    ensures run[i].ring.last + 1 - k < run[i].ring.headers[Current(run[i].ring)].capacity
  {
    hide IsRun, HeldInv, Inv;
    RunKeepsInv(run, acts, i);
    KeyedEntryIsDead(run[i], h, k);
  }

  lemma KeyedEntryIsDead<T>(s: State<T>, h: nat, k: int)
    requires Inv(s) && s.producer.PKey? && k in s.live && Found(s.ring, h, k, s.live[k])
    ensures HasIndex(s.ring) && s.ring.headers[h].index[BlockIndex.Slot(s.ring.headers[h], k)] != NewEntry(s.ring)
    ensures var s' := Apply(s, Produce); Found(s'.ring, h, k, s.live[k]) && s'.live == s.live
    ensures s.ring.last + 1 - k < s.ring.headers[Current(s.ring)].capacity
  {
    hide ElementsOk, BlocksOk, CellsOk, PlacesOk, TailBlockOk, ConsumersOk, RingInv, LiveInv, Found, IsFree;
    InsertKeyLive(s.ring, s.live);
    InsertKeyFound(s.ring, h, k, s.live[k]);
    KeySlotIs(s);
    FreeIsNotFound(s.ring, h, k, s.live[k]);
  }

  lemma KeySlotIs<T>(s: State<T>)
    requires s.producer.PKey? && HasIndex(s.ring)
    ensures Apply(s, Produce) == s.(ring := StoreKey(s.ring, NewEntry(s.ring), Base(NextBlock(s.tail, s.producer.got))),
      producer := PTail(s.producer.xs, s.producer.got))
  {
    hide StoreKey, NewEntry, Base;
  }

  lemma FreeIsNotFound(r: Ring, h: nat, k: int, b: Block)
    requires Usable(r) && IsFree(r, NewEntry(r)) && Found(r, h, k, b)
    ensures r.headers[h].index[BlockIndex.Slot(r.headers[h], k)] != NewEntry(r)
  {
    assert EntryOf(r, h, k).value.Some? && EntryOf(r, h, k).key != INVALID_BLOCK_BASE;
  }

  /** Every value moved out is the value enqueued at that index, once. */
  lemma DeliveredAsEnqueued<T>(run: seq<State<T>>, acts: seq<Action<T>>, i: nat, k: nat)
    requires IsRun(run, acts) && i < |run| && k in run[i].taken
    ensures k < run[i].head <= |run[i].items| && run[i].taken[k] == run[i].items[k]
  {
    RunKeepsInv(run, acts, i);
  }

  /** No value moved out is ever moved out again or forgotten. */
  lemma {:induction false} TakenOnce<T>(run: seq<State<T>>, acts: seq<Action<T>>, i: nat, j: nat, k: nat)
    requires IsRun(run, acts) && i <= j < |run| && k in run[i].taken
    ensures k in run[j].taken && run[j].taken[k] == run[i].taken[k]
    ensures forall t :: 0 <= t < |run[j].consumers| ==> !WaitsFor(run[j].consumers[t], k)
    decreases j
  {
    hide Inv, Apply, Enabled;
    RunKeepsInv(run, acts, j);
    if i < j {
      TakenOnce(run, acts, i, j - 1, k);
      RunKeepsInv(run, acts, j - 1);
      TakenStays(run[j - 1], acts[j - 1], k);
    }
    forall t | 0 <= t < |run[j].consumers| ensures !WaitsFor(run[j].consumers[t], k) {
      ConsumerIsOk(run[j], t);
    }
  }

  lemma TakenStays<T>(s: State<T>, a: Action<T>, k: nat)
    requires Enabled(s, a) && k in s.taken && forall t :: 0 <= t < |s.consumers| ==> !WaitsFor(s.consumers[t], k)
    requires Inv(s)
    ensures k in Apply(s, a).taken && Apply(s, a).taken[k] == s.taken[k]
  {
    hide Inv, Apply, ConsumerStep, LocatedAll;
    if a.Consume? {
      ConsumeIs(s, a.t);
      ConsumerIsOk(s, a.t);
      OthersTaken(s, a.t, k);
    } else if a.Claim? {
      ClaimTaken(s, a.t, a.n);
    } else {
      OthersClaimNothing(s, a);
    }
  }

  lemma ClaimTaken<T>(s: State<T>, t: Tid, n: nat)
    ensures Apply(s, Action.Claim(t, n)).taken == s.taken
  {
  }

  /** A step takes nothing but the element the consumer is at. */
  lemma OthersTaken<T>(s: State<T>, t: Tid, k: nat)
    requires t < |s.consumers| && k in s.taken
    requires s.consumers[t].CMove? && s.consumers[t].pos < s.consumers[t].stop ==> k != s.consumers[t].pos
    ensures var s' := ConsumerStep(s, t, s.consumers[t]); k in s'.taken && s'.taken[k] == s.taken[k]
  {
    hide ConsumerStep;
    if s.consumers[t].CMove? { MoveTakes(s, t, k); } else { OthersTakeNothing(s, t); }
  }

  lemma MoveTakes<T>(s: State<T>, t: Tid, k: nat)
    requires t < |s.consumers| && k in s.taken && s.consumers[t].CMove?
    requires s.consumers[t].pos < s.consumers[t].stop ==> k != s.consumers[t].pos
    ensures var s' := ConsumerStep(s, t, s.consumers[t]); k in s'.taken && s'.taken[k] == s.taken[k]
  {
    hide Cells, CellOf;
  }

  lemma OthersTakeNothing<T>(s: State<T>, t: Tid)
    requires t < |s.consumers| && !s.consumers[t].CMove?
    ensures ConsumerStep(s, t, s.consumers[t]).taken == s.taken
  {
    hide ConsumerStep;
    if s.consumers[t].CCount? { CountTakesNothing(s, t); }
    else if s.consumers[t].CNull? || s.consumers[t].CFree? { FreeIs(s, t); }
    else if s.consumers[t] != CIdle { LookupIs(s, t); }
    else { IdleStays(s, t); }
  }

  lemma CountTakesNothing<T>(s: State<T>, t: Tid)
    requires t < |s.consumers| && s.consumers[t].CCount?
    ensures ConsumerStep(s, t, s.consumers[t]).taken == s.taken
  {
    hide NextPiece, BlockOf;
  }

  lemma IdleStays<T>(s: State<T>, t: Tid)
    requires t < |s.consumers| && s.consumers[t] == CIdle
    ensures ConsumerStep(s, t, s.consumers[t]) == s
  {
  }

  /** The block a consumer frees: no element of it is still to be moved out or counted, and nobody else frees it,
      uses it, or finds it. */
  lemma FreedWhenEmpty<T>(run: seq<State<T>>, acts: seq<Action<T>>, i: nat, t: Tid)
    requires IsRun(run, acts) && i < |run| && t < |run[i].consumers|
    requires var pc := run[i].consumers[t];
      pc.CCount? && (if pc.b in run[i].done then run[i].done[pc.b] else 0) + (pc.stop - pc.start) == BLOCK_SIZE
    ensures var s' := Apply(run[i], Consume(t)); var k := BlockOf(run[i].consumers[t].start);
      s'.consumers[t].CNull? && AllSlots(s'.slots, Base(k), Base(k) + BLOCK_SIZE, Counted)
  {
    hide Inv, HeldInv, IsRun;
    RunKeepsInv(run, acts, i);
    CountFacts(run[i], t);
    CountFull(Apply(run[i], Consume(t)).slots, Base(BlockOf(run[i].consumers[t].start)), BLOCK_SIZE);
  }

  /** At any time a block is in exactly one place, and the thread or index that place names is the one that has it. */
  lemma BlockIsSomewhere<T>(run: seq<State<T>>, acts: seq<Action<T>>, i: nat, b: Block)
    requires IsRun(run, acts) && i < |run| && b in run[i].place
    ensures var s := run[i]; s.place[b] == Transit ==> InHand(s.producer, b)
    ensures forall k :: k in run[i].live && run[i].live[k] == b ==> run[i].place[b] == Installed(k)
    ensures forall k :: run[i].place[b] == Installed(k) ==> k in run[i].live && run[i].live[k] == b
    ensures forall t :: 0 <= t < |run[i].consumers| && Frees(run[i].consumers[t], b) ==> run[i].place[b] == Released(t)
    ensures forall t: Tid :: run[i].place[b] == Released(t) ==> t < |run[i].consumers| && Frees(run[i].consumers[t], b)
  {
    hide IsRun;
    RunKeepsInv(run, acts, i);
    var s := run[i];
    assert PlaceOk(s.place[b], s.live, s.producer, s.consumers, b);
    forall k | k in s.live && s.live[k] == b ensures s.place[b] == Installed(k) { InstalledAt(s, k); }
    forall t | 0 <= t < |s.consumers| && Frees(s.consumers[t], b) ensures s.place[b] == Released(t) {
      ConsumerIsOk(s, t);
    }
  }

  /** The producer's own pieces of memory are nobody else's. */
  lemma InHandIsTransit<T>(run: seq<State<T>>, acts: seq<Action<T>>, i: nat, b: Block)
    requires IsRun(run, acts) && i < |run| && InHand(run[i].producer, b)
    ensures b in run[i].place && run[i].place[b] == Transit
  {
    hide IsRun, IndexOk, ElementsOk, BlocksOk, CellsOk, PlacesOk, TailBlockOk, ConsumersOk;
    RunKeepsInv(run, acts, i);
  }

  /** The distance from head to tail stays within half the range of a machine index. */
  lemma TailNearHead<T>(run: seq<State<T>>, acts: seq<Action<T>>, i: nat)
    requires IsRun(run, acts) && i < |run|
    ensures 0 <= run[i].tail - run[i].head < INDEX_HALF
  {
    hide IsRun, IndexOk, ElementsOk, BlocksOk, CellsOk, PlacesOk, TailBlockOk, ConsumersOk, PhaseOk;
    RunKeepsInv(run, acts, i);
  }

  // ---- outcomes of an enqueue ----

  /** Elements become visible all at once, when the tail is published, and never otherwise. */
  lemma OnlyPublishAppends<T>(s: State<T>, a: Action<T>)
    requires Inv(s) && Enabled(s, a)
    ensures Apply(s, a).items == if a.Produce? && s.producer.PPublish? then s.items + s.producer.xs else s.items
  {
    hide Inv, ProducerStep, ConsumerStep, Grow;
    if a.Produce? { ProducerClaimsNothing(s); } else if a.Consume? { ConsumerKeepsClaims(s, a.t); }
  }

  /** A consumer at work claims nothing, publishes nothing, and hands slots on to no other thread. */
  lemma ConsumerKeepsClaims<T>(s: State<T>, t: Tid)
    requires Inv(s) && Enabled(s, Consume(t))
    ensures var s' := Apply(s, Consume(t));
      && s'.tail == s.tail && s'.head == s.head && s'.items == s.items
      && |s'.slots| == |s.slots| && |s'.consumers| == |s.consumers|
      && (forall u :: 0 <= u < |s.consumers| && u != t ==> s'.consumers[u] == s.consumers[u])
      && (forall i :: 0 <= i < |s.slots| ==>
        s'.slots[i] == s.slots[i] || s'.slots[i] == Counted || (s.slots[i] == Waiting(t) && s'.slots[i] == Moved(t)))
  {
    hide Inv, ConsumerStep;
    if s.consumers[t].CMove? {
      if s.consumers[t].pos < s.consumers[t].stop { MoveFinds(s, t); }
      MoveClaims(s, t);
    } else if Working(s.consumers[t]) {
      WorkClaims(s, t);
    } else {
      LookupClaims(s, t);
    }
  }

  ghost predicate ClaimsKept<T>(s: State<T>, s': State<T>, t: Tid) {
    && s'.tail == s.tail && s'.head == s.head && s'.items == s.items
    && |s'.slots| == |s.slots| && |s'.consumers| == |s.consumers|
    && (forall u :: 0 <= u < |s.consumers| && u != t ==> s'.consumers[u] == s.consumers[u])
  }

  lemma MoveClaims<T>(s: State<T>, t: Tid)
    requires t < |s.consumers| && s.consumers[t].CMove?
    ensures ClaimsKept(s, ConsumerStep(s, t, s.consumers[t]), t)
    ensures var pos := s.consumers[t].pos;
      ConsumerStep(s, t, s.consumers[t]).slots == if pos < s.consumers[t].stop &&
      pos < |s.slots| then s.slots[pos := Moved(t)] else s.slots
  {
    hide Cells, BlockOf, CellOf;
  }

  lemma WorkClaims<T>(s: State<T>, t: Tid)
    requires t < |s.consumers| && (s.consumers[t].CCount? || s.consumers[t].CNull? || s.consumers[t].CFree?)
    ensures ClaimsKept(s, ConsumerStep(s, t, s.consumers[t]), t)
    ensures var s' := ConsumerStep(s, t, s.consumers[t]);
      forall i :: 0 <= i < |s.slots| ==> s'.slots[i] == s.slots[i] || s'.slots[i] == Counted
  {
    hide Cells, NextPiece, BlockOf, CellOf;
  }

  lemma LookupClaims<T>(s: State<T>, t: Tid)
    requires t < |s.consumers| && !Working(s.consumers[t])
    ensures ClaimsKept(s, ConsumerStep(s, t, s.consumers[t]), t) && ConsumerStep(s, t, s.consumers[t]).slots == s.slots
  {
    hide LookupSlot, EntryAt, EndOfBlock, BlockOf, Base, Min;
  }

  /** What a consumer's step leaves alone even when the storage is in disorder. */
  lemma ConsumerOnly<T>(s: State<T>, t: Tid)
    requires Enabled(s, Consume(t))
    ensures ClaimsKept(s, Apply(s, Consume(t)), t)
  {
    hide ConsumerStep;
    if s.consumers[t].CMove? {
      MoveClaims(s, t);
    } else if Working(s.consumers[t]) {
      WorkClaims(s, t);
    } else {
      LookupClaims(s, t);
    }
  }

  lemma OthersPublish<T>(s: State<T>, a: Action<T>)
    requires Enabled(s, a) && !a.Claim? && !a.Consume?
    ensures var xs := if a.Produce? && s.producer.PPublish? then s.producer.xs else [];
      Apply(s, a).tail == s.tail + |xs| && Apply(s, a).items == s.items + xs
  {
    hide Apply, Enabled;
    if a.Produce? {
      ProduceIs(s);
      ProducerClaimsNothing(s);
    } else {
      NoItems(s, a);
    }
  }

  lemma NoItems<T>(s: State<T>, a: Action<T>)
    requires !a.Claim? && !a.Consume? && !a.Produce?
    ensures SameClaims(s, Apply(s, a)) && Apply(s, a).tail == s.tail && Apply(s, a).items == s.items
  {
    hide Apply;
    if a.GrowIndex? || a.NoMemory? { MemoryNoItems(s, a); } else { BlockNoItems(s, a); }
  }

  lemma MemoryNoItems<T>(s: State<T>, a: Action<T>)
    requires a.GrowIndex? || a.NoMemory?
    ensures SameClaims(s, Apply(s, a)) && Apply(s, a).tail == s.tail && Apply(s, a).items == s.items
  {
    hide Grow, HasIndex;
  }

  lemma BlockNoItems<T>(s: State<T>, a: Action<T>)
    requires a.CallEnqueue? || a.TakeBlock? || a.Outside?
    ensures SameClaims(s, Apply(s, a)) && Apply(s, a).tail == s.tail && Apply(s, a).items == s.items
  {
  }

  /** A failed call leaves no trace in the index: no block beyond the published ones, the tail entry where it was
      before the call, and every block of the call back in the pool or about to be. */
  lemma FailureLeavesNothing<T>(run: seq<State<T>>, acts: seq<Action<T>>, i: nat)
    requires IsRun(run, acts) && i < |run| && run[i].producer.PFree?
    ensures run[i].ring.last == FirstNew(run[i].tail) - 1
    ensures forall k :: k in run[i].live ==> k < FirstNew(run[i].tail)
    ensures forall j :: run[i].producer.j <= j < |run[i].producer.got| ==>
      run[i].producer.got[j] in run[i].place && run[i].place[run[i].producer.got[j]] == Transit
  {
    hide IsRun, ElementsOk, BlocksOk, CellsOk, PlacesOk, TailBlockOk, ConsumersOk;
    RunKeepsInv(run, acts, i);
    assert PhaseOk(run[i]);
  }

  // ---- progress ----

  lemma ProducerMoves<T>(s: State<T>)
    requires Inv(s) && Enabled(s, Produce)
    ensures Apply(s, Produce).producer != s.producer
  {
    hide Inv, Apply, PhaseOk, IndexOk, ProducerOk;
    PhaseHolds(s);
    match s.producer {
      case PUndoFind(got, j) => if j < |got| { UndoFindAgain(s); } else { UndoFindEnd(s); }
      case PUndoNull(_, _, _) => UndoNullMoves(s);
      case PWrite(xs, got, n) => WriteMoves(s);
      case _ => IndexedMoves(s);
    }
  }

  lemma UndoNullMoves<T>(s: State<T>)
    requires s.producer.PUndoNull? && PhaseOk(s)
    ensures Apply(s, Produce).producer != s.producer
  {
  }

  lemma WriteMoves<T>(s: State<T>)
    requires Inv(s) && s.producer.PWrite?
    ensures Apply(s, Produce).producer != s.producer
  {
    hide IndexOk, ElementsOk, BlocksOk, CellsOk, PlacesOk, ConsumersOk;
    var PWrite(xs, got, n) := s.producer;
    if n < |xs| { WriteBlockLive(s, xs, got, n); }
  }

  lemma IndexedMoves<T>(s: State<T>)
    requires PhaseOk(s) && IndexOk(s.ring, s.live, s.tail, s.producer) && Enabled(s, Produce)
    requires !s.producer.PUndoFind? && !s.producer.PUndoNull? && !s.producer.PWrite?
    ensures Apply(s, Produce).producer != s.producer
  {
    hide PhaseOk, IndexOk, Apply, ProducerStep;
    ProduceIs(s);
    if NeedsIndex(s.producer) {
      IndexIsThere(s);
      RingMoves(s);
    } else {
      PlainMoves(s);
    }
  }

  predicate NeedsIndex<T>(pc: ProducerPC<T>) {
    pc.PKey? || pc.PTail? || pc.PValue? || pc.PRewind? || pc.PNull? || pc.PUndoTail?
  }

  lemma IndexIsThere<T>(s: State<T>)
    requires PhaseOk(s) && IndexOk(s.ring, s.live, s.tail, s.producer) && NeedsIndex(s.producer)
    ensures Usable(s.ring)
  {
    hide RingInv, LiveInv, GotLive, LiveIs;
    if s.producer.PUndoTail? { assert GotKeys(s.ring, FirstNew(s.tail), |s.producer.got|); }
  }

  lemma RingMoves<T>(s: State<T>)
    requires Usable(s.ring) && NeedsIndex(s.producer)
    ensures ProducerStep(s, s.producer).producer != s.producer
  {
    hide FirstNew, NextBlock, StoreKey, StoreValue, Advance, Rewind, Base;
  }

  lemma PlainMoves<T>(s: State<T>)
    requires Enabled(s, Produce) && !NeedsIndex(s.producer)
    requires !s.producer.PUndoFind? && !s.producer.PUndoNull? && !s.producer.PWrite?
    ensures ProducerStep(s, s.producer).producer != s.producer
  {
    hide ProducerStep;
    if s.producer.PNext? { AskMoves(s); } else if s.producer.PSlot? { SlotMoves(s); } else { EndMoves(s); }
  }

  lemma AskMoves<T>(s: State<T>)
    requires s.producer.PNext?
    ensures !ProducerStep(s, s.producer).producer.PNext?
  {
    hide FirstNew, NextBlock, Base;
  }

  lemma SlotMoves<T>(s: State<T>)
    requires s.producer.PSlot?
    ensures !ProducerStep(s, s.producer).producer.PSlot?
  {
    hide Usable, NewEntry, IsFree;
  }

  lemma EndMoves<T>(s: State<T>)
    requires s.producer.PReset? || s.producer.PPublish? || s.producer.PFree?
    ensures ProducerStep(s, s.producer).producer != s.producer
  {
  }

  lemma LookupMoves<T>(s: State<T>, t: Tid)
    requires Inv(s) && t < |s.consumers|
    requires s.consumers[t].CHeader? || s.consumers[t].CTail? || s.consumers[t].CKey? || s.consumers[t].CValue?
    ensures ConsumerStep(s, t, s.consumers[t]).consumers != s.consumers
  {
    hide Inv, RingInv, LiveInv, LookupSlot, EntryAt, KeyInPlace;
    match s.consumers[t] {
      case CHeader(_, _) => HeaderStep(s, t);
      case CTail(_, _, _) => TailStep(s, t);
      case CKey(_, _, _, _) => KeyStep(s, t);
      case CValue(_, _, _, _) => ValueStep(s, t);
    }
  }

  lemma WorkMoves<T>(s: State<T>, t: Tid)
    requires Inv(s) && t < |s.consumers|
    requires Working(s.consumers[t])
    ensures ConsumerStep(s, t, s.consumers[t]).consumers != s.consumers
  {
    hide Inv, RingInv, LiveInv, Cells;
    if s.consumers[t].CNull? { NullEntry(s, t); }
  }

  lemma ConsumerMoves<T>(s: State<T>, t: Tid)
    requires Inv(s) && Enabled(s, Consume(t))
    ensures Apply(s, Consume(t)).consumers != s.consumers
  {
    hide Inv, ConsumerStep;
    if Working(s.consumers[t]) { WorkMoves(s, t); } else { LookupMoves(s, t); }
  }

  /** No thread ever gets stuck: every step of a thread at work changes where it is. */
  lemma NobodyIsStuck<T>(run: seq<State<T>>, acts: seq<Action<T>>, i: nat)
    requires IsRun(run, acts) && i < |run|
    ensures Enabled(run[i], Produce) ==> Apply(run[i], Produce).producer != run[i].producer
    ensures forall t: Tid :: Enabled(run[i], Consume(t)) ==> Apply(run[i], Consume(t)).consumers != run[i].consumers
  {
    hide IsRun, Inv, HeldInv, Apply, Enabled;
    RunKeepsInv(run, acts, i);
    if Enabled(run[i], Produce) { ProducerMoves(run[i]); }
    forall t: Tid | Enabled(run[i], Consume(t)) ensures Apply(run[i], Consume(t)).consumers != run[i].consumers {
      ConsumerMoves(run[i], t);
    }
  }

  // ---- at rest ----

  ghost predicate AtRest<T>(s: State<T>) {
    s.producer == PIdle && forall t :: 0 <= t < |s.consumers| ==> s.consumers[t] == CIdle
  }

  /** When nobody is at work, exactly the claimed elements have been delivered, each as it was enqueued; every
      block is in the pool or installed; and the installed blocks are exactly those with an element not yet
      claimed. */
  lemma RestIsExact<T>(run: seq<State<T>>, acts: seq<Action<T>>, i: nat)
    requires IsRun(run, acts) && i < |run| && AtRest(run[i])
    ensures var s := run[i]; forall k: nat :: k in s.taken <==> k < s.head
    ensures var s := run[i]; forall k :: k in s.taken ==> k < |s.items| && s.taken[k] == s.items[k]
    ensures forall b :: b in run[i].place ==> run[i].place[b] == Elsewhere || run[i].place[b].Installed?
    ensures forall k :: k in run[i].live <==> BlockOf(run[i].head) <= k < FirstNew(run[i].tail) && 0 <= k
  {
    hide IsRun;
    RunKeepsInv(run, acts, i);
    var s := run[i];
    forall k | 0 <= k < s.head ensures s.slots[k] == Counted { assert SlotHeld(s.slots[k], s.consumers, k); }
    forall b | b in s.place ensures s.place[b] == Elsewhere || s.place[b].Installed? {
      assert PlaceOk(s.place[b], s.live, s.producer, s.consumers, b);
    }
    forall k ensures k in s.live <==> BlockOf(s.head) <= k < FirstNew(s.tail) && 0 <= k { RestBlocks(s, k); }
  }

  lemma RestBlocks<T>(s: State<T>, k: int)
    requires Inv(s) && s.producer == PIdle && AllSlots(s.slots, 0, s.head, Counted)
    ensures k in s.live <==> BlockOf(s.head) <= k < FirstNew(s.tail) && 0 <= k
  {
    hide CellsOk, PlacesOk, ConsumersOk, IndexOk, BlocksOk, AllSlots;
    if k in s.live { LiveAtRest(s, k); }
    if BlockOf(s.head) <= k < FirstNew(s.tail) && 0 <= k {
      var i := if Base(k) < s.head then s.head else Base(k);
      assert i < s.tail ==> ElementOk(s.slots, s.live, s.cells, i, s.items[i]);
    }
  }

  lemma LiveAtRest<T>(s: State<T>, k: int)
    requires Inv(s) && s.producer == PIdle && AllSlots(s.slots, 0, s.head, Counted) && k in s.live
    ensures BlockOf(s.head) <= k < FirstNew(s.tail) && 0 <= k
  {
    hide ElementsOk, CellsOk, PlacesOk, ConsumersOk, IndexOk;
    assert BlockOk(s.live, s.place, s.done, s.slots, k);
    if Base(k) + BLOCK_SIZE <= s.head { CountAll(s.slots, Base(k), BLOCK_SIZE); }
  }

  lemma {:induction false} CountAll(slots: seq<Slot>, lo: nat, n: nat)
    requires AllSlots(slots, lo, lo + n, Counted)
    ensures CountFrom(slots, lo, n) == n
  {
    if n > 0 { CountAll(slots, lo, n - 1); }
  }
}
