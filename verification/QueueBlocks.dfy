/** The blocks of a whole queue: one pool, and any number of implicit sub-queues that take blocks from it and give them
    back.  A step of a sub-queue that takes or gives back a block is a step of the pool too. */
module QueueBlocks {
  import opened Options
  import B = BlockPool
  import SQ = SubQueue
  import P = ImplicitProducer
  import PI = ImplicitInvariant
  import PC = ImplicitConsumer
  import PE = ImplicitEnqueue

  type Tid = nat
  type Block = nat

  datatype State<T> = State(pool: B.Pool, subs: seq<SQ.State<T>>)

  /** Thread `t` makes a step of sub-queue `q`, or some thread one of the pool. */
  datatype Action<T> =
    | Pool(p: B.Action)
    | Sub(q: nat, t: Tid, a: SQ.Action<T>)

  predicate Initial<T>(s: State<T>) {
    B.Initial(s.pool) && forall q :: 0 <= q < |s.subs| ==> SQ.Initial(s.subs[q])
  }

  /** The storage's share in a step of a sub-queue. */
  function StorageStep<T>(s: SQ.State<T>, a: SQ.Action<T>): Option<P.Action<T>> {
    match a
    case Storage(b) => Some(b)
    case CallDequeue(_, _) => None
    case Dequeue(t) =>
      if t >= |s.tickets.pcs| then None
      else if s.tickets.pcs[t].ClaimSlots? then
        var claim := P.Claim(t, s.tickets.pcs[t].actual);
        if P.Enabled(s.storage, claim) then Some(claim) else None
      else if P.Enabled(s.storage, P.Consume(t)) then Some(P.Consume(t))
      else None
  }

  /** The block that a step of the storage takes out of a thread's hands, or puts into them. */
  function Takes<T>(a: P.Action<T>): Option<Block> {
    if a.TakeBlock? then Some(a.b) else None
  }

  function Frees<T>(s: P.State<T>, a: P.Action<T>): Option<Block> {
    if a.Produce? && s.producer.PFree? && s.producer.j < |s.producer.got| then Some(s.producer.got[s.producer.j])
    else if a.Consume? && a.t < |s.consumers| && s.consumers[a.t].CFree? then Some(s.consumers[a.t].b)
    else None
  }

  predicate Enabled<T>(s: State<T>, a: Action<T>) {
    match a
    case Pool(p) => B.Enabled(s.pool, p) && !p.Install? && !p.Remove?
    case Sub(q, t, b) =>
      && q < |s.subs| && SQ.Enabled(s.subs[q], b) && (!b.Storage? ==> b.t == t)
      && (b.Storage? && b.a.TakeBlock? ==> B.Holds(s.pool, b.a.b, B.Thread(t)))
  }

  /** What the pool sees of a step of the storage of sub-queue `q`. */
  function Transfer<T>(pool: B.Pool, q: nat, t: Tid, s: P.State<T>, a: P.Action<T>): B.Pool {
    if Takes(a).Some? && B.Enabled(pool, B.Install(t, q, Takes(a).value)) then
      B.Apply(pool, B.Install(t, q, Takes(a).value))
    else if Frees(s, a).Some? && B.Enabled(pool, B.Remove(t, q, Frees(s, a).value)) then
      B.Apply(pool, B.Remove(t, q, Frees(s, a).value))
    else pool
  }

  function Apply<T>(s: State<T>, a: Action<T>): State<T>
    requires Enabled(s, a)
  {
    match a
    case Pool(p) => s.(pool := B.Apply(s.pool, p))
    case Sub(q, t, b) =>
      var step := StorageStep(s.subs[q], b);
      State(if step.Some? then Transfer(s.pool, q, t, s.subs[q].storage, step.value) else s.pool,
        s.subs[q := SQ.Apply(s.subs[q], b)])
  }

  // ---- who has which block ----

  /** The block is in the producer's hands, installed, or being freed. */
  predicate Has<T>(s: P.State<T>, b: Block) {
    b in s.place && s.place[b] != P.Elsewhere
  }

  /** The pool and the sub-queues agree about who has which block. */
  ghost predicate Agree<T>(pool: B.Pool, subs: seq<SQ.State<T>>) {
    && (forall q: nat, b: Block :: q < |subs| ==> (Has(subs[q].storage, b) <==> B.Holds(pool, b, B.Producer(q))))
    && (forall b :: b in pool.holder && pool.holder[b].Producer? ==> pool.holder[b].p < |subs|)
  }

  ghost predicate SubsOk<T>(subs: seq<SQ.State<T>>) {
    forall q :: 0 <= q < |subs| ==> SQ.Inv(subs[q])
  }

  ghost predicate Inv<T>(s: State<T>) {
    B.Inv(s.pool) && SubsOk(s.subs) && Agree(s.pool, s.subs)
  }

  lemma InitialInv<T>(s: State<T>)
    requires Initial(s)
    ensures Inv(s)
  {
    hide SQ.Inv, B.Inv;
    B.InitialInv(s.pool);
    forall q | 0 <= q < |s.subs| ensures SQ.Inv(s.subs[q]) { SQ.InitialInv(s.subs[q]); }
  }

  // ---- what a step of a storage does to places ----

  /** Places change only for the block taken or given back. */
  ghost predicate PlacesMove<T>(s: P.State<T>, a: P.Action<T>, s': P.State<T>) {
    && (forall b: Block :: Has(s', b) <==> (Has(s, b) || Takes(a) == Some(b)) && Frees(s, a) != Some(b))
    && (Frees(s, a).Some? ==> Has(s, Frees(s, a).value))
  }

  lemma StepMoves<T>(s: P.State<T>, a: P.Action<T>)
    requires PI.Inv(s) && P.Enabled(s, a)
    ensures PlacesMove(s, a, P.Apply(s, a))
  {
    hide PI.Inv, P.Apply, PlacesMove;
    match a {
      case Produce => ProducerMoves(s);
      case Consume(t) => ConsumerMoves(s, t);
      case _ => OthersMove(s, a);
    }
  }

  lemma OthersMove<T>(s: P.State<T>, a: P.Action<T>)
    requires P.Enabled(s, a) && !a.Produce? && !a.Consume?
    ensures PlacesMove(s, a, P.Apply(s, a))
  {
    hide P.HasIndex;
  }

  lemma ProducerMoves<T>(s: P.State<T>)
    requires PI.Inv(s) && P.Enabled(s, P.Produce)
    ensures PlacesMove(s, P.Produce, P.Apply(s, P.Produce))
  {
    hide PI.Inv, P.Apply, P.ProducerStep, PlacesMove;
    P.ProduceIs(s);
    if s.producer.PValue? { InstallMoves(s); }
    else if s.producer.PUndoNull? { UninstallMoves(s); }
    else if s.producer.PFree? { GiveBackMoves(s); }
    else { QuietMoves(s); }
  }

  lemma InstallMoves<T>(s: P.State<T>)
    requires PI.Inv(s) && s.producer.PValue?
    ensures PlacesMove(s, P.Produce, P.ProducerStep(s, s.producer))
  {
    hide PI.Inv, P.HasIndex, P.FirstNew, P.Publish, P.GiveBack, P.ClearSlot;
    InstallsTransit(s);
  }

  lemma InstallsTransit<T>(s: P.State<T>)
    requires PI.Inv(s) && s.producer.PValue?
    ensures Has(s, s.producer.b)
  {
    hide PI.IndexOk, PI.ElementsOk, PI.BlocksOk, PI.CellsOk, PI.PlacesOk, PI.TailBlockOk, PI.ConsumersOk;
    PE.PhaseHolds(s);
  }

  lemma UninstallMoves<T>(s: P.State<T>)
    requires PI.Inv(s) && s.producer.PUndoNull?
    ensures PlacesMove(s, P.Produce, P.ProducerStep(s, s.producer))
  {
    UninstallsInstalled(s);
    hide PI.Inv, P.FirstNew;
  }

  lemma UninstallsInstalled<T>(s: P.State<T>)
    requires PI.Inv(s) && s.producer.PUndoNull?
    ensures s.producer.j < |s.producer.got| ==> Has(s, s.producer.got[s.producer.j])
  {
    PE.PhaseHolds(s);
    PE.UndoEntry(s);
    hide PI.Inv;
    PE.InstalledAt(s, P.FirstNew(s.tail) + s.producer.j);
  }

  lemma GiveBackMoves<T>(s: P.State<T>)
    requires PI.Inv(s) && s.producer.PFree?
    ensures PlacesMove(s, P.Produce, P.ProducerStep(s, s.producer))
  {
    GivesBackTransit(s);
    hide PI.Inv;
  }

  lemma GivesBackTransit<T>(s: P.State<T>)
    requires PI.Inv(s) && s.producer.PFree?
    ensures s.producer.j < |s.producer.got| ==> Has(s, s.producer.got[s.producer.j])
  {
    hide PI.IndexOk, PI.ElementsOk, PI.BlocksOk, PI.CellsOk, PI.PlacesOk, PI.TailBlockOk, PI.ConsumersOk;
    PE.PhaseHolds(s);
  }

  lemma QuietMoves<T>(s: P.State<T>)
    requires !s.producer.PValue? && !s.producer.PUndoNull? && !s.producer.PFree?
    ensures PlacesMove(s, P.Produce, P.ProducerStep(s, s.producer))
  {
    hide P.ProducerStep;
    if s.producer.PKey? || s.producer.PTail? || s.producer.PRewind? || s.producer.PNull? || s.producer.PUndoTail? {
      RingKeepsPlaces(s);
    } else if s.producer.PWrite? || s.producer.PPublish? || s.producer.PReset? {
      CellsKeepPlaces(s);
    } else {
      AskingKeepsPlaces(s);
    }
  }

  lemma RingKeepsPlaces<T>(s: P.State<T>)
    requires s.producer.PKey? || s.producer.PTail? || s.producer.PRewind? || s.producer.PNull? || s.producer.PUndoTail?
    ensures P.ProducerStep(s, s.producer).place == s.place
  {
    hide P.NextBlock;
  }

  lemma CellsKeepPlaces<T>(s: P.State<T>)
    requires s.producer.PWrite? || s.producer.PPublish? || s.producer.PReset?
    ensures P.ProducerStep(s, s.producer).place == s.place
  {
    hide P.Cells, P.WriteBlock;
  }

  lemma AskingKeepsPlaces<T>(s: P.State<T>)
    requires s.producer.PIdle? || s.producer.PNext? || s.producer.PSlot? || s.producer.PGrow? || s.producer.PBlock? ||
      s.producer.PUndoFind?
    ensures P.ProducerStep(s, s.producer).place == s.place
  {
    hide P.FirstNew, P.NextBlock, P.FindEntry;
  }

  lemma ConsumerMoves<T>(s: P.State<T>, t: Tid)
    requires PI.Inv(s) && P.Enabled(s, P.Consume(t))
    ensures PlacesMove(s, P.Consume(t), P.Apply(s, P.Consume(t)))
  {
    hide PI.Inv, P.Apply, P.ConsumerStep, PlacesMove;
    P.ConsumeIs(s, t);
    if s.consumers[t].CCount? { CountMoves(s, t); }
    else if s.consumers[t].CFree? { FreeMoves(s, t); }
    else { RestMoves(s, t); }
  }

  lemma CountMoves<T>(s: P.State<T>, t: Tid)
    requires PI.Inv(s) && t < |s.consumers| && s.consumers[t].CCount?
    ensures PlacesMove(s, P.Consume(t), P.ConsumerStep(s, t, s.consumers[t]))
  {
    CountsInstalled(s, t);
    hide PI.Inv, P.NextPiece, P.BlockOf;
  }

  lemma CountsInstalled<T>(s: P.State<T>, t: Tid)
    requires PI.Inv(s) && t < |s.consumers| && s.consumers[t].CCount?
    ensures Has(s, s.consumers[t].b)
  {
    PC.CountFacts(s, t);
    hide PI.Inv;
    PE.InstalledAt(s, P.BlockOf(s.consumers[t].start));
  }

  lemma FreeMoves<T>(s: P.State<T>, t: Tid)
    requires PI.Inv(s) && t < |s.consumers| && s.consumers[t].CFree?
    ensures PlacesMove(s, P.Consume(t), P.ConsumerStep(s, t, s.consumers[t]))
  {
    FreesReleased(s, t);
    hide PI.Inv, P.NextPiece;
  }

  lemma FreesReleased<T>(s: P.State<T>, t: Tid)
    requires PI.Inv(s) && t < |s.consumers| && s.consumers[t].CFree?
    ensures Has(s, s.consumers[t].b)
  {
    hide PI.IndexOk, PI.ElementsOk, PI.BlocksOk, PI.CellsOk, PI.PlacesOk, PI.TailBlockOk, PI.ProducerOk;
    PC.ConsumerIsOk(s, t);
  }

  lemma RestMoves<T>(s: P.State<T>, t: Tid)
    requires t < |s.consumers| && !s.consumers[t].CCount? && !s.consumers[t].CFree?
    ensures PlacesMove(s, P.Consume(t), P.ConsumerStep(s, t, s.consumers[t]))
  {
    hide P.NextPiece, P.Cells, P.BlockOf, P.CellOf, P.Min, P.EndOfBlock;
  }

  // ---- what a step of the pool does to holders ----

  /** Steps of the pool by themselves give nothing to a sub-queue and take nothing from one. */
  lemma PoolLeavesSubs(s: B.Pool, a: B.Action)
    requires B.Inv(s) && B.Enabled(s, a) && !a.Install? && !a.Remove?
    ensures forall b: Block, q: nat :: B.Holds(B.Apply(s, a), b, B.Producer(q)) <==> B.Holds(s, b, B.Producer(q))
  {
    hide B.Inv, B.Apply;
    forall b: Block, q: nat ensures B.Holds(B.Apply(s, a), b, B.Producer(q)) <==> B.Holds(s, b, B.Producer(q)) {
      if a.AddToFreeList? { AddLeaves(s, a.t, a.b, b, q); } else { RequisitionLeaves(s, a, b, q); }
    }
  }

  lemma AddLeaves(s: B.Pool, t: Tid, c: Block, b: Block, q: nat)
    requires B.Enabled(s, B.AddToFreeList(t, c))
    ensures B.Holds(B.Apply(s, B.AddToFreeList(t, c)), b, B.Producer(q)) <==> B.Holds(s, b, B.Producer(q))
  {
  }

  lemma RequisitionLeaves(s: B.Pool, a: B.Action, b: Block, q: nat)
    requires B.Inv(s) && B.Enabled(s, a) && (a.Requisition? || a.Run? || a.Create? || a.NoBlock?)
    ensures B.Holds(B.Apply(s, a), b, B.Producer(q)) <==> B.Holds(s, b, B.Producer(q))
  {
    hide B.Inv, B.Apply;
    B.OnlyHoldersMove(s, a);
    if b !in s.holder { NewHolderIsThread(s, a, b); }
  }

  lemma NewHolderIsThread(s: B.Pool, a: B.Action, b: Block)
    requires B.Enabled(s, a) && (a.Requisition? || a.Run? || a.Create? || a.NoBlock?) && b !in s.holder
    ensures b in B.Apply(s, a).holder ==> B.Apply(s, a).holder[b].Thread?
  {
  }

  // ---- one step of a sub-queue ----

  /** The sub-queue's own invariant, and its storage's step. */
  lemma SubStep<T>(s: SQ.State<T>, a: SQ.Action<T>)
    requires SQ.Inv(s) && SQ.Enabled(s, a) && (a.CallDequeue? ==> a.max >= 1)
    ensures SQ.Inv(SQ.Apply(s, a))
    ensures var step := StorageStep(s, a);
      SQ.Apply(s, a).storage == (if step.Some? then P.Apply(s.storage, step.value) else s.storage)
    ensures StorageStep(s, a).Some? ==> PlacesMove(s.storage, StorageStep(s, a).value, SQ.Apply(s, a).storage)
  {
    hide SQ.Inv, PlacesMove;
    SQ.StepKeepsInv(s, a);
    SharesStep(s, a);
    if StorageStep(s, a).Some? {
      HasStorageInv(s);
      StepMoves(s.storage, StorageStep(s, a).value);
    }
  }

  lemma HasStorageInv<T>(s: SQ.State<T>)
    requires SQ.Inv(s)
    ensures PI.Inv(s.storage)
  {
    hide PI.Inv;
  }

  lemma SharesStep<T>(s: SQ.State<T>, a: SQ.Action<T>)
    requires SQ.Enabled(s, a)
    ensures var step := StorageStep(s, a);
      && (step.Some? ==> P.Enabled(s.storage, step.value))
      && SQ.Apply(s, a).storage == (if step.Some? then P.Apply(s.storage, step.value) else s.storage)
  {
    hide P.Apply, P.Enabled;
  }

  /** No block changes hands without the pool seeing it. */
  lemma TransferIs<T>(pool: B.Pool, q: nat, t: Tid, s: P.State<T>, a: P.Action<T>)
    requires Takes(a).Some? ==> B.Holds(pool, Takes(a).value, B.Thread(t))
    requires Frees(s, a).Some? ==> B.Holds(pool, Frees(s, a).value, B.Producer(q))
    ensures var pool' := Transfer(pool, q, t, s, a);
      && pool' == pool.(holder := pool'.holder) && pool'.holder.Keys == pool.holder.Keys
      && (forall b: Block, r: nat :: B.Holds(pool', b, B.Producer(r)) <==>
        (if Takes(a) == Some(b) then r == q else B.Holds(pool, b, B.Producer(r)) && Frees(s, a) != Some(b)))
  {
  }

  lemma TransferKeepsInv(pool: B.Pool, pool': B.Pool)
    requires B.Inv(pool) && pool' == pool.(holder := pool'.holder) && pool'.holder.Keys == pool.holder.Keys
    ensures B.Inv(pool')
  {
    hide B.LI.Inv;
    assert forall b :: b in pool'.holder <==> b in pool'.holder.Keys;
    assert forall b :: b in pool.holder <==> b in pool.holder.Keys;
  }

  /** Sub-queue `q` has just what it had, with the block taken and without the one given back. */
  lemma AgreeAfter<T>(pool: B.Pool, pool': B.Pool, subs: seq<SQ.State<T>>, q: nat, sub: SQ.State<T>, a: P.Action<T>)
    requires Agree(pool, subs) && q < |subs| && PlacesMove(subs[q].storage, a, sub.storage)
    requires forall b: Block, r: nat :: B.Holds(pool', b, B.Producer(r)) <==>
      (if Takes(a) == Some(b) then r == q else B.Holds(pool, b, B.Producer(r)) && Frees(subs[q].storage, a) != Some(b))
    requires forall r: nat :: Takes(a).Some? ==> !B.Holds(pool, Takes(a).value, B.Producer(r))
    ensures Agree(pool', subs[q := sub])
  {
    var subs' := subs[q := sub];
    forall r: nat, b: Block | r < |subs'| ensures Has(subs'[r].storage, b) <==> B.Holds(pool', b, B.Producer(r)) {
      if r != q && Frees(subs[q].storage, a) == Some(b) {
        assert B.Holds(pool, b, B.Producer(q));
      }
    }
    forall b | b in pool'.holder && pool'.holder[b].Producer? ensures pool'.holder[b].p < |subs'| {
      assert B.Holds(pool', b, B.Producer(pool'.holder[b].p));
      assert Takes(a) != Some(b) ==> B.Holds(pool, b, B.Producer(pool'.holder[b].p));
    }
  }

  lemma SubStepKeepsInv<T>(s: State<T>, q: nat, t: Tid, a: SQ.Action<T>)
    requires Inv(s) && Enabled(s, Sub(q, t, a)) && (a.CallDequeue? ==> a.max >= 1)
    ensures Inv(Apply(s, Sub(q, t, a)))
  {
    hide SQ.Inv, B.Inv, SQ.Apply, Agree, Transfer, PlacesMove, StorageStep;
    var sub := SQ.Apply(s.subs[q], a);
    SubStep(s.subs[q], a);
    var step := StorageStep(s.subs[q], a);
    if step.Some? {
      HandedOver(s, q, t, a);
      TransferIs(s.pool, q, t, s.subs[q].storage, step.value);
      var pool := Transfer(s.pool, q, t, s.subs[q].storage, step.value);
      TransferKeepsInv(s.pool, pool);
      AgreeAfter(s.pool, pool, s.subs, q, sub, step.value);
    } else {
      SamePlaces(s.pool, s.subs, q, sub);
    }
  }

  /** A block to be taken is in the hands of the thread that takes it; a block to be given back is the sub-queue's. */
  lemma HandedOver<T>(s: State<T>, q: nat, t: Tid, a: SQ.Action<T>)
    requires Agree(s.pool, s.subs) && Enabled(s, Sub(q, t, a)) && StorageStep(s.subs[q], a).Some?
    requires PlacesMove(s.subs[q].storage, StorageStep(s.subs[q], a).value, SQ.Apply(s.subs[q], a).storage)
    ensures var b, st := StorageStep(s.subs[q], a).value, s.subs[q].storage;
      && (Takes(b).Some? ==> B.Holds(s.pool, Takes(b).value, B.Thread(t)))
      && (Frees(st, b).Some? ==> B.Holds(s.pool, Frees(st, b).value, B.Producer(q)))
      && (Takes(b).Some? ==> forall r: nat :: !B.Holds(s.pool, Takes(b).value, B.Producer(r)))
  {
    hide SQ.Apply, P.Enabled;
  }

  lemma SamePlaces<T>(pool: B.Pool, subs: seq<SQ.State<T>>, q: nat, sub: SQ.State<T>)
    requires Agree(pool, subs) && q < |subs| && sub.storage == subs[q].storage
    ensures Agree(pool, subs[q := sub])
  {
    var subs' := subs[q := sub];
    forall r: nat, b: Block | r < |subs'| ensures Has(subs'[r].storage, b) <==> B.Holds(pool, b, B.Producer(r)) {
      assert subs'[r].storage == subs[r].storage;
    }
  }

  lemma PoolStepKeepsInv<T>(s: State<T>, p: B.Action)
    requires Inv(s) && Enabled(s, Pool(p))
    ensures Inv(Apply(s, Pool(p)))
  {
    hide SQ.Inv, B.Inv, B.Apply;
    B.StepKeepsInv(s.pool, p);
    PoolLeavesSubs(s.pool, p);
    var pool := B.Apply(s.pool, p);
    forall b | b in pool.holder && pool.holder[b].Producer? ensures pool.holder[b].p < |s.subs| {
      assert B.Holds(pool, b, B.Producer(pool.holder[b].p));
      assert B.Holds(s.pool, b, B.Producer(pool.holder[b].p));
    }
  }

  /** Every call asks for at least one element. */
  predicate Asks<T>(a: Action<T>) {
    a.Sub? && a.a.CallDequeue? ==> a.a.max >= 1
  }

  lemma StepKeepsInv<T>(s: State<T>, a: Action<T>)
    requires Inv(s) && Enabled(s, a) && Asks(a)
    ensures Inv(Apply(s, a))
  {
    hide Inv, Enabled, Apply;
    match a {
      case Pool(p) => PoolStepKeepsInv(s, p);
      case Sub(q, t, b) => SubStepKeepsInv(s, q, t, b);
    }
  }

  // ---- runs ----

  ghost predicate IsRun<T>(run: seq<State<T>>, acts: seq<Action<T>>) {
    && |run| == |acts| + 1 && Initial(run[0])
    && forall i :: 0 <= i < |acts| ==> Enabled(run[i], acts[i]) && Asks(acts[i]) && run[i + 1] == Apply(run[i], acts[i])
  }

  lemma {:induction false} RunKeepsInv<T>(run: seq<State<T>>, acts: seq<Action<T>>, i: nat)
    requires IsRun(run, acts) && i < |run|
    ensures Inv(run[i])
  {
    hide Inv, Apply, Enabled;
    if i == 0 {
      InitialInv(run[0]);
    } else {
      RunKeepsInv(run, acts, i - 1);
      StepKeepsInv(run[i - 1], acts[i - 1]);
    }
  }

  predicate InTransit(pool: B.Pool, b: Block) {
    b in pool.holder && pool.holder[b].Thread?
  }

  predicate HasIn<T>(subs: seq<SQ.State<T>>, q: nat, b: Block) {
    q < |subs| && Has(subs[q].storage, b)
  }

  ghost predicate InSub<T>(subs: seq<SQ.State<T>>, b: Block) {
    exists q: nat :: HasIn(subs, q, b)
  }

  /** Every block of the initial pool, and every block created since, is in exactly one of: the unissued part of the
      pool, the care of the free list, the hands of one thread, and one sub-queue. */
  lemma EveryBlockIsInOnePlace<T>(run: seq<State<T>>, acts: seq<Action<T>>, i: nat, b: Block)
    requires IsRun(run, acts) && i < |run| && (b < run[i].pool.size || b in run[i].pool.list.place)
    ensures var s := run[i];
      (if B.Unissued(s.pool, b) then 1 else 0) + (if B.WithList(s.pool, b) then 1 else 0) +
        (if InTransit(s.pool, b) then 1 else 0) + (if InSub(s.subs, b) then 1 else 0) == 1
    ensures forall q: nat, r: nat :: HasIn(run[i].subs, q, b) && HasIn(run[i].subs, r, b) ==> q == r
  {
    hide IsRun, SQ.Inv, B.Inv;
    RunKeepsInv(run, acts, i);
    var s := run[i];
    B.OnePlace(s.pool, b);
    HeldBySub(s.pool, s.subs, b);
    assert forall q: nat :: HasIn(s.subs, q, b) ==> B.Holds(s.pool, b, B.Producer(q));
  }

  lemma HeldBySub<T>(pool: B.Pool, subs: seq<SQ.State<T>>, b: Block)
    requires Agree(pool, subs)
    ensures InSub(subs, b) <==> b in pool.holder && pool.holder[b].Producer?
  {
    if b in pool.holder && pool.holder[b].Producer? {
      assert B.Holds(pool, b, B.Producer(pool.holder[b].p));
      assert HasIn(subs, pool.holder[b].p, b);
    }
  }

  /** No block is being freed by two dequeuers, be they at work in the same sub-queue or in different ones. */
  lemma NobodyElseFrees<T>(run: seq<State<T>>, acts: seq<Action<T>>, i: nat, q: nat, r: nat, t: Tid, u: Tid, b: Block)
    requires IsRun(run, acts) && i < |run| && q < |run[i].subs| && r < |run[i].subs|
    requires t < |run[i].subs[q].storage.consumers| && PI.Frees(run[i].subs[q].storage.consumers[t], b)
    requires u < |run[i].subs[r].storage.consumers| && PI.Frees(run[i].subs[r].storage.consumers[u], b)
    ensures q == r && t == u
  {
    hide IsRun, SQ.Inv, B.Inv;
    RunKeepsInv(run, acts, i);
    var s := run[i];
    HasStorageInv(s.subs[q]);
    HasStorageInv(s.subs[r]);
    FreerHas(s.subs[q].storage, t, b);
    FreerHas(s.subs[r].storage, u, b);
    assert B.Holds(s.pool, b, B.Producer(q)) && B.Holds(s.pool, b, B.Producer(r));
  }

  lemma FreerHas<T>(s: P.State<T>, t: Tid, b: Block)
    requires PI.Inv(s) && t < |s.consumers| && PI.Frees(s.consumers[t], b)
    ensures b in s.place && s.place[b] == P.Released(t)
  {
    hide PI.IndexOk, PI.ElementsOk, PI.BlocksOk, PI.CellsOk, PI.PlacesOk, PI.TailBlockOk, PI.ProducerOk;
    PC.ConsumerIsOk(s, t);
  }

  /** No block that a sub-queue means to give back is refused by the pool. */
  lemma NoBlockIsRefused<T>(run: seq<State<T>>, acts: seq<Action<T>>, i: nat, q: nat, t: Tid, a: SQ.Action<T>)
    requires IsRun(run, acts) && i < |run| && Enabled(run[i], Sub(q, t, a)) && StorageStep(run[i].subs[q], a).Some?
    requires a.CallDequeue? ==> a.max >= 1
    ensures var s, step := run[i], StorageStep(run[i].subs[q], a).value;
      Frees(s.subs[q].storage, step).Some? ==>
        B.Enabled(s.pool, B.Remove(t, q, Frees(s.subs[q].storage, step).value)) &&
        InTransit(Apply(s, Sub(q, t, a)).pool, Frees(s.subs[q].storage, step).value)
  {
    hide IsRun, SQ.Inv, B.Inv, StorageStep, Agree, PlacesMove, SQ.Apply;
    RunKeepsInv(run, acts, i);
    SubStep(run[i].subs[q], a);
    HandedOver(run[i], q, t, a);
  }

  /** Nothing is lost: with no thread at work in the pool, every block that has been issued and is with no thread and no
      sub-queue is on the free list. */
  lemma NothingIsLost<T>(run: seq<State<T>>, acts: seq<Action<T>>, i: nat, b: Block)
    requires IsRun(run, acts) && i < |run| && (forall t :: t in run[i].pool.pcs ==> run[i].pool.pcs[t] == B.Idle)
    requires b < run[i].pool.size || b in run[i].pool.list.place
    ensures var s := run[i];
      B.Unissued(s.pool, b) || InTransit(s.pool, b) || InSub(s.subs, b) || b in s.pool.list.chain
  {
    hide IsRun, SQ.Inv, B.Inv;
    RunKeepsInv(run, acts, i);
    B.RestOnList(run[i].pool, b);
    HeldBySub(run[i].pool, run[i].subs, b);
  }
}
