/** The lookups of an implicit producer's sub-queue on machine words.  The key that a lookup measures from stands for
    the block it looks for or one less than a turn newer, however long the reader was held up between its loads; so
    the words give the slot that the true indices give. */
module LookupWraps {
  import opened Options
  import opened BlockIndex
  import opened BlockIndexInvariant
  import opened ImplicitProducer
  import opened ImplicitInvariant
  import opened ImplicitConsumer
  import opened ImplicitTheorems
  import opened WrapAround

  /** The key under a slot of array `h` stands for block `k` or for one less than a turn newer. */
  ghost predicate Near(r: Ring, h: nat, slot: nat, k: int) {
    && Usable(r) && h < |r.headers| && HeaderShape(r, h) && slot < r.headers[h].capacity
    && 0 <= EntryAt(r, h, slot).key - Base(k) < Base(r.headers[Current(r)].capacity)
  }

  ghost predicate ReaderNear(r: Ring, pc: ConsumerPC) {
    && (pc.CTail? ==> pc.h < |r.headers| && Near(r, pc.h, r.headers[pc.h].tail, BlockOf(pc.pos)))
    && (pc.CKey? ==> Near(r, pc.h, pc.tail, BlockOf(pc.pos)))
  }

  ghost predicate ReadersNear<T>(s: State<T>) {
    forall t :: 0 <= t < |s.consumers| ==> ReaderNear(s.ring, s.consumers[t])
  }

  /** The current tail of the index is less than a turn ahead of any live block with published elements. */
  lemma TailIsNear<T>(s: State<T>, q: int)
    requires Inv(s) && q in s.live && Base(q) < s.tail
    ensures Usable(s.ring) && Near(s.ring, Current(s.ring), s.ring.headers[Current(s.ring)].tail, q)
  {
    hide ElementsOk, BlocksOk, CellsOk, PlacesOk, TailBlockOk, ConsumersOk, PhaseOk;
    LastInRange(s, q);
    var r := s.ring;
    assert LiveAt(r, Top(s.tail, s.producer), q, s.live[q]);
    assert EntryOf(r, Current(r), r.last).key == Base(r.last);
  }

  /** What a reader reads about is live and published. */
  lemma ReadsLive<T>(s: State<T>, t: Tid)
    requires Inv(s) && t < |s.consumers| && (s.consumers[t].CHeader? || s.consumers[t].CTail? || s.consumers[t].CKey?)
    ensures BlockOf(s.consumers[t].pos) in s.live && Base(BlockOf(s.consumers[t].pos)) < s.tail
  {
    hide IndexOk, BlocksOk, CellsOk, PlacesOk, TailBlockOk, ProducerOk, LocatedAll, KeyInPlace;
    ConsumerIsOk(s, t);
    var pos := s.consumers[t].pos;
    assert ElementOk(s.slots, s.live, s.cells, pos, s.items[pos]);
  }

  // ---- steps that leave the keys alone ----

  /** Arrays but the current one keep their tails, and every entry keeps its key. */
  ghost predicate KeepsKeys(r: Ring, r': Ring) {
    && 0 < |r.headers| <= |r'.headers| && |r.entries| <= |r'.entries|
    && r.headers[|r.headers| - 1].capacity <= r'.headers[|r'.headers| - 1].capacity
    && (forall h :: 0 <= h < |r.headers| ==> r'.headers[h] == r.headers[h].(tail := r'.headers[h].tail))
    && (forall h :: 0 <= h < |r.headers| && h < |r'.headers| - 1 ==> r'.headers[h].tail == r.headers[h].tail)
    && (forall e :: 0 <= e < |r.entries| ==> r'.entries[e].key == r.entries[e].key)
  }

  lemma KeptNear(r: Ring, r': Ring, h: nat, slot: nat, k: int)
    requires KeepsKeys(r, r') && Usable(r') && Near(r, h, slot, k)
    ensures Near(r', h, slot, k)
  {
    assert HeaderShape(r', h);
  }

  lemma OthersKeepKeys<T>(s: State<T>, a: Action<T>)
    requires Enabled(s, a) && Usable(s.ring) && !(a.Produce? && s.producer.PKey?)
    ensures KeepsKeys(s.ring, Apply(s, a).ring)
  {
    hide ProducerStep, ConsumerStep;
    if a.Produce? { ProducerKeepsKeys(s); } else if a.Consume? { ConsumerKeepsKeys(s, a.t); }
  }

  lemma ConsumerKeepsKeys<T>(s: State<T>, t: Tid)
    requires t < |s.consumers| && Usable(s.ring)
    ensures KeepsKeys(s.ring, ConsumerStep(s, t, s.consumers[t]).ring)
  {
    hide ConsumerStep;
    if s.consumers[t].CNull? { NullKeepsKeys(s, t); }
    else if Working(s.consumers[t]) { WorkSameRing(s, t); }
    else { LookupSameRing(s, t); }
  }

  lemma NullKeepsKeys<T>(s: State<T>, t: Tid)
    requires t < |s.consumers| && Usable(s.ring) && s.consumers[t].CNull?
    ensures KeepsKeys(s.ring, ConsumerStep(s, t, s.consumers[t]).ring)
  {
    hide ConsumerStep, KeepsKeys, Usable;
    NullStores(s, t);
    SameKeepsKeys(s.ring);
    var h, slot := s.consumers[t].h, s.consumers[t].slot;
    if h < |s.ring.headers| && HeaderShape(s.ring, h) && slot < s.ring.headers[h].capacity {
      StoreKeepsKeys(s.ring, s.ring.headers[h].index[slot], None);
    }
  }

  lemma NullStores<T>(s: State<T>, t: Tid)
    requires t < |s.consumers| && s.consumers[t].CNull?
    ensures var h, slot := s.consumers[t].h, s.consumers[t].slot;
      ConsumerStep(s, t, s.consumers[t]).ring ==
        if h < |s.ring.headers| && HeaderShape(s.ring, h) && slot < s.ring.headers[h].capacity then
          StoreValue(s.ring, s.ring.headers[h].index[slot], None)
        else s.ring
  {
    hide StoreValue;
  }

  lemma SameKeepsKeys(r: Ring)
    requires Usable(r)
    ensures KeepsKeys(r, r)
  {
  }

  lemma StoreKeepsKeys(r: Ring, e: nat, value: Option<Block>)
    requires Usable(r) && e < |r.entries|
    ensures KeepsKeys(r, StoreValue(r, e, value))
  {
  }

  lemma WorkSameRing<T>(s: State<T>, t: Tid)
    requires t < |s.consumers| && (s.consumers[t].CMove? || s.consumers[t].CCount? || s.consumers[t].CFree?)
    ensures ConsumerStep(s, t, s.consumers[t]).ring == s.ring
  {
    hide Cells, NextPiece, BlockOf, CellOf;
  }

  lemma LookupSameRing<T>(s: State<T>, t: Tid)
    requires t < |s.consumers| && !Working(s.consumers[t])
    ensures ConsumerStep(s, t, s.consumers[t]).ring == s.ring
  {
    hide ConsumerStep;
    if s.consumers[t] == CIdle { IdleStays(s, t); } else { LookupIs(s, t); }
  }

  lemma ProducerKeepsKeys<T>(s: State<T>)
    requires Usable(s.ring) && !s.producer.PKey?
    ensures KeepsKeys(s.ring, ProducerStep(s, s.producer).ring)
  {
    hide ProducerStep;
    if s.producer.PTail? || s.producer.PRewind? || s.producer.PUndoTail? { TailStepKeepsKeys(s); }
    else if s.producer.PValue? || s.producer.PNull? || s.producer.PUndoNull? { ValueStepKeepsKeys(s); }
    else if s.producer.PNext? || s.producer.PSlot? { AskingSameRing(s); }
    else { SameRing(s); }
  }

  lemma TailStepKeepsKeys<T>(s: State<T>)
    requires Usable(s.ring) && (s.producer.PTail? || s.producer.PRewind? || s.producer.PUndoTail?)
    ensures KeepsKeys(s.ring, ProducerStep(s, s.producer).ring)
  {
    hide Usable, NewTail;
  }

  lemma ValueStepKeepsKeys<T>(s: State<T>)
    requires Usable(s.ring) && (s.producer.PValue? || s.producer.PNull? || s.producer.PUndoNull?)
    ensures KeepsKeys(s.ring, ProducerStep(s, s.producer).ring)
  {
    hide FirstNew, NextBlock, Base;
  }

  lemma AskingSameRing<T>(s: State<T>)
    requires s.producer.PNext? || s.producer.PSlot?
    ensures ProducerStep(s, s.producer).ring == s.ring
  {
    hide ProducerStep;
    if s.producer.PNext? { NextMovesOnly(s); } else { SlotMovesOnly(s); }
  }

  lemma SameRing<T>(s: State<T>)
    requires !s.producer.PNext? && !s.producer.PSlot? && !s.producer.PKey? && !s.producer.PTail?
    requires !s.producer.PRewind? && !s.producer.PUndoTail?
    requires !s.producer.PValue? && !s.producer.PNull? && !s.producer.PUndoNull?
    ensures ProducerStep(s, s.producer).ring == s.ring
  {
    hide ProducerStep;
    if s.producer.PWrite? || s.producer.PPublish? { WriteSameRing(s); }
    else if s.producer.PUndoFind? || s.producer.PFree? { FreeSameRing(s); }
    else { RestSameRing(s); }
  }

  lemma WriteSameRing<T>(s: State<T>)
    requires s.producer.PWrite? || s.producer.PPublish?
    ensures ProducerStep(s, s.producer).ring == s.ring
  {
    hide Cells, WriteBlock;
  }

  lemma FreeSameRing<T>(s: State<T>)
    requires s.producer.PUndoFind? || s.producer.PFree?
    ensures ProducerStep(s, s.producer).ring == s.ring
  {
    hide FindEntry, FirstNew, Base;
  }

  lemma RestSameRing<T>(s: State<T>)
    requires s.producer.PIdle? || s.producer.PGrow? || s.producer.PBlock? || s.producer.PReset?
    ensures ProducerStep(s, s.producer).ring == s.ring
  {
  }

  // ---- the step that stores a key ----

  /** The entry keyed for the next block is less than a turn ahead of every live block. */
  lemma KeyStepNear<T>(s: State<T>, h: nat, slot: nat, k: int)
    requires Inv(s) && s.producer.PKey? && k in s.live && Near(s.ring, h, slot, k)
    ensures Near(Apply(s, Produce).ring, h, slot, k)
  {
    hide ElementsOk, BlocksOk, CellsOk, PlacesOk, TailBlockOk, ConsumersOk, RingInv, LiveInv;
    InsertKeyLive(s.ring, s.live);
    InsertKeyInv(s.ring);
    OldestFirst(s.ring, s.live, k);
    assert Apply(s, Produce).ring == InsertKey(s.ring);
    KeyedNear(s.ring, h, slot, k);
  }

  lemma KeyedNear(r: Ring, h: nat, slot: nat, k: int)
    requires RingInv(r) && RingInv(InsertKey(r)) && Near(r, h, slot, k) && k <= r.last &&
      r.last + 1 - k < r.headers[Current(r)].capacity
    ensures Near(InsertKey(r), h, slot, k)
  {
    assert HeaderShape(InsertKey(r), h);
  }

  lemma OldestFirst(r: Ring, live: map<int, Block>, k: int)
    requires LiveInv(r, r.last, live) && k in live
    ensures k <= r.last
  {
    assert LiveAt(r, r.last, k, live[k]);
  }

  // ---- every step ----

  /** A reader that did not move itself. */
  lemma SameReader<T>(s: State<T>, a: Action<T>, u: Tid)
    requires Inv(s) && Enabled(s, a) && Inv(Apply(s, a)) && u < |s.consumers| == |Apply(s, a).consumers|
    requires Apply(s, a).consumers[u] == s.consumers[u] && ReaderNear(s.ring, s.consumers[u])
    ensures ReaderNear(Apply(s, a).ring, s.consumers[u])
  {
    hide Inv, Near, KeepsKeys, Apply;
    var s', pc := Apply(s, a), s.consumers[u];
    if pc.CTail? || pc.CKey? {
      var k := BlockOf(pc.pos);
      ReadsLive(s, u);
      ReadsLive(s', u);
      TailIsNear(s, k);
      TailIsNear(s', k);
      var slot := if pc.CTail? then s.ring.headers[pc.h].tail else pc.tail;
      if a.Produce? && s.producer.PKey? {
        KeyStepNear(s, pc.h, slot, k);
        KeyStepHeaders(s);
      } else {
        OthersKeepKeys(s, a);
        KeptNear(s.ring, s'.ring, pc.h, slot, k);
        if pc.CTail? { OldTails(s.ring, s'.ring, pc.h); }
      }
    }
  }

  lemma OldTails(r: Ring, r': Ring, h: nat)
    requires KeepsKeys(r, r') && h < |r.headers|
    ensures h < |r'.headers| && (h == |r'.headers| - 1 || r'.headers[h].tail == r.headers[h].tail)
  {
  }

  lemma KeyStepHeaders<T>(s: State<T>)
    requires s.producer.PKey?
    ensures ProducerStep(s, s.producer).ring.headers == s.ring.headers &&
      Apply(s, Produce) == ProducerStep(s, s.producer)
  {
    hide Usable, NewEntry;
  }

  /** A reader that takes its own step. */
  lemma OwnStep<T>(s: State<T>, t: Tid)
    requires Inv(s) && t < |s.consumers| && s.consumers[t] != CIdle && ReaderNear(s.ring, s.consumers[t])
    ensures var s' := ConsumerStep(s, t, s.consumers[t]); t < |s'.consumers| && ReaderNear(s'.ring, s'.consumers[t])
  {
    hide Inv, Near, LookupSlot, EntryAt, EndOfBlock, Base, Min, Cells;
    if s.consumers[t].CHeader? {
      ReadsLive(s, t);
      TailIsNear(s, BlockOf(s.consumers[t].pos));
    }
  }

  lemma OthersStay<T>(s: State<T>, a: Action<T>, u: Tid)
    requires Enabled(s, a) && u < |s.consumers| == |Apply(s, a).consumers|
    ensures (a.Consume? || a.Claim? ==> a.t != u) ==> Apply(s, a).consumers[u] == s.consumers[u]
  {
    hide Apply;
    if a.Consume? {
      ConsumerOnly(s, a.t);
    } else if a.Claim? {
      ClaimOnly(s, a.t, a.n);
    } else {
      OthersClaimNothing(s, a);
    }
  }

  lemma SameThreads<T>(s: State<T>, a: Action<T>)
    requires Enabled(s, a)
    ensures |Apply(s, a).consumers| == |s.consumers|
  {
    hide Apply;
    if a.Consume? {
      ConsumerOnly(s, a.t);
    } else if a.Claim? {
      ClaimOnly(s, a.t, a.n);
    } else {
      OthersClaimNothing(s, a);
    }
  }

  lemma ClaimOnly<T>(s: State<T>, t: Tid, n: nat)
    requires Enabled(s, Action.Claim(t, n))
    ensures Apply(s, Action.Claim(t, n)).consumers == s.consumers[t := CHeader(s.head, s.head + n)]
  {
  }

  lemma StepKeepsNear<T>(s: State<T>, a: Action<T>)
    requires Inv(s) && Enabled(s, a) && Inv(Apply(s, a)) && ReadersNear(s)
    ensures ReadersNear(Apply(s, a))
  {
    hide Inv, ReaderNear, Apply;
    forall u | 0 <= u < |Apply(s, a).consumers| ensures ReaderNear(Apply(s, a).ring, Apply(s, a).consumers[u]) {
      SameThreads(s, a);
      OthersStay(s, a, u);
      if a.Consume? && a.t == u {
        OwnStep(s, u);
        ConsumeIsStep(s, u);
      } else if a.Claim? && a.t == u {
        ClaimOnly(s, u, a.n);
        NotReading(Apply(s, a).ring, Apply(s, a).consumers[u]);
      } else {
        SameReader(s, a, u);
      }
    }
  }

  lemma ConsumeIsStep<T>(s: State<T>, t: Tid)
    requires Enabled(s, Consume(t))
    ensures Apply(s, Consume(t)) == ConsumerStep(s, t, s.consumers[t])
  {
  }

  lemma NotReading(r: Ring, pc: ConsumerPC)
    requires pc.CHeader?
    ensures ReaderNear(r, pc)
  {
  }

  lemma {:induction false} RunKeepsNear<T>(run: seq<State<T>>, acts: seq<Action<T>>, i: nat)
    requires IsRun(run, acts) && i < |run|
    ensures ReadersNear(run[i])
  {
    hide Inv, HeldInv, Apply, Enabled, ReadersNear;
    if i == 0 {
      NobodyReads(run[0]);
    } else {
      RunKeepsNear(run, acts, i - 1);
      RunKeepsInv(run, acts, i - 1);
      RunKeepsInv(run, acts, i);
      StepKeepsNear(run[i - 1], acts[i - 1]);
    }
  }

  lemma NobodyReads<T>(s: State<T>)
    requires Initial(s)
    ensures ReadersNear(s)
  {
  }

  /** In every run, a lookup computes on machine words the slot it would compute on true indices, however often these
      have wrapped, as long as the blocks of one turn of the index stay within half the range of a word. */
  lemma LookupsWrap<T>(run: seq<State<T>>, acts: seq<Action<T>>, i: nat, t: Tid, half: nat)
    requires IsRun(run, acts) && i < |run| && t < |run[i].consumers| && run[i].consumers[t].CKey? && Width(half)
    requires var r, h := run[i].ring, run[i].consumers[t].h;
      |r.headers| > 0 && Base(r.headers[Current(r)].capacity) <= half &&
      (h < |r.headers| && r.headers[h].capacity > 0 ==> (2 * half) % r.headers[h].capacity == 0)
    ensures var s, pc := run[i], run[i].consumers[t];
      && InArray(s.ring, pc.h, pc.tail)
      && Apply(s, Consume(t)).consumers[t] == CValue(pc.pos, pc.end, pc.h,
        MachineSlot(s.ring.headers[pc.h].capacity, pc.tail, Wrap(EntryAt(s.ring, pc.h, pc.tail).key, half),
          Wrap(Base(BlockOf(pc.pos)), half), half))
  {
    hide Inv, HeldInv, IsRun, MachineSlot, LookupSlot, Wrap, Usable;
    RunKeepsInv(run, acts, i);
    RunKeepsNear(run, acts, i);
    var s, pc := run[i], run[i].consumers[t];
    assert ReaderNear(s.ring, pc);
    KeyStep(s, t);
    ConsumerIsOk(s, t);
    var key := EntryAt(s.ring, pc.h, pc.tail).key;
    LookupAgrees(s.ring.headers[pc.h], pc.tail, key / BLOCK_SIZE, BlockOf(pc.pos), half);
  }
}
