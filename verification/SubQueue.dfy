/** The whole implicit sub-queue: the ticket protocol decides who claims which indices, the storage below it moves
    the elements.  Publishing the tail and claiming from the head are single steps of both.  A dequeue may ask for no
    element at all; `RecycleOnce` says what becomes of blocks when one does. */
module SubQueue {
  import Q = Tickets
  import QI = TicketInvariant
  import QT = TicketTheorems
  import P = ImplicitProducer
  import PI = ImplicitInvariant
  import PT = ImplicitTheorems

  type Tid = nat

  datatype State<T> = State(tickets: Q.State<T>, storage: P.State<T>)

  datatype Action<T> =
    | Storage(a: P.Action<T>)
    | CallDequeue(t: Tid, max: nat)
    | Dequeue(t: Tid)

  predicate Initial<T>(s: State<T>) {
    Q.Initial(s.tickets) && P.Initial(s.storage) && |s.tickets.pcs| == |s.storage.consumers|
  }

  predicate Enabled<T>(s: State<T>, a: Action<T>) {
    match a
    case Storage(b) => P.Enabled(s.storage, b) && !b.Claim? && !b.Consume?
    case CallDequeue(t, max) => Q.Enabled(s.tickets, Q.CallDequeue(t, max))
    case Dequeue(t) => Q.Enabled(s.tickets, Q.Run(t))
  }

  /** The items a storage step publishes. */
  function Published<T>(s: P.State<T>, a: P.Action<T>): seq<T> {
    if a.Produce? && s.producer.PPublish? then s.producer.xs else []
  }

  function Apply<T>(s: State<T>, a: Action<T>): State<T>
    requires Enabled(s, a)
  {
    match a
    case Storage(b) =>
      State(if |Published(s.storage, b)| > 0 then Q.Apply(s.tickets, Q.Enqueue(Published(s.storage, b)))
        else s.tickets, P.Apply(s.storage, b))
    case CallDequeue(t, max) => s.(tickets := Q.Apply(s.tickets, Q.CallDequeue(t, max)))
    case Dequeue(t) =>
      if s.tickets.pcs[t].ClaimSlots? then
        // a claim the storage could not honour would leave the thread stuck here
        if P.Enabled(s.storage, P.Claim(t, s.tickets.pcs[t].actual)) then
          State(Q.Apply(s.tickets, Q.Run(t)), P.Apply(s.storage, P.Claim(t, s.tickets.pcs[t].actual)))
        else s
      else if P.Enabled(s.storage, P.Consume(t)) then
        s.(storage := P.Apply(s.storage, P.Consume(t)))
      else
        s.(tickets := Q.Apply(s.tickets, Q.Run(t)))
  }

  // ---- what holds whatever dequeues ask for ----

  ghost predicate TakersOnly(pcs: seq<Q.PC>, consumers: seq<P.ConsumerPC>) {
    |pcs| == |consumers| && forall t :: 0 <= t < |pcs| && consumers[t] != P.CIdle ==> pcs[t].Taking?
  }

  /** Both parts see the same queue, and only threads with a claim are at work in the storage. */
  ghost predicate Coupled<T>(s: State<T>) {
    && s.tickets.tail == s.storage.tail && s.tickets.head == s.storage.head && s.tickets.items == s.storage.items
    && TakersOnly(s.tickets.pcs, s.storage.consumers)
  }

  ghost predicate CoupledInv<T>(s: State<T>) {
    QI.Inv(s.tickets) && Coupled(s)
  }

  /** The ticket protocol alone guarantees what the storage demands of a claim. */
  lemma ClaimIsHonoured<T>(s: State<T>, t: Tid)
    requires CoupledInv(s) && t < |s.tickets.pcs| && s.tickets.pcs[t].ClaimSlots?
    ensures P.Enabled(s.storage, P.Claim(t, s.tickets.pcs[t].actual))
  {
    QI.ClaimsStayBelowTail(s.tickets, t);
  }

  lemma StorageCoupled<T>(s: State<T>, a: P.Action<T>)
    requires Coupled(s) && Enabled(s, Storage(a))
    ensures Coupled(Apply(s, Storage(a)))
  {
    hide P.Apply;
    PT.OthersClaimNothing(s.storage, a);
    PT.OthersPublish(s.storage, a);
  }

  lemma DequeueCoupled<T>(s: State<T>, t: Tid)
    requires CoupledInv(s) && Enabled(s, Dequeue(t))
    ensures Coupled(Apply(s, Dequeue(t)))
  {
    if s.tickets.pcs[t].ClaimSlots? {
      ClaimIsHonoured(s, t);
      ClaimCoupled(s, t);
    } else if P.Enabled(s.storage, P.Consume(t)) {
      ConsumeCoupled(s, t);
    } else {
      TicketCoupled(s, Q.Run(t));
    }
  }

  lemma ClaimCoupled<T>(s: State<T>, t: Tid)
    requires Coupled(s) && Enabled(s, Dequeue(t)) && s.tickets.pcs[t].ClaimSlots?
    requires P.Enabled(s.storage, P.Claim(t, s.tickets.pcs[t].actual))
    ensures Coupled(Apply(s, Dequeue(t)))
  {
  }

  lemma ConsumeCoupled<T>(s: State<T>, t: Tid)
    requires Coupled(s) && P.Enabled(s.storage, P.Consume(t))
    ensures Coupled(s.(storage := P.Apply(s.storage, P.Consume(t))))
  {
    hide P.Apply;
    PT.ConsumerOnly(s.storage, t);
  }

  lemma TicketCoupled<T>(s: State<T>, a: Q.Action<T>)
    requires Coupled(s) && Q.Enabled(s.tickets, a) && !a.Enqueue? && s.storage.consumers[a.t] == P.CIdle
    requires a.Run? ==> !s.tickets.pcs[a.t].ClaimSlots?
    ensures Coupled(s.(tickets := Q.Apply(s.tickets, a)))
  {
  }

  lemma StepKeepsCoupled<T>(s: State<T>, a: Action<T>)
    requires CoupledInv(s) && Enabled(s, a)
    ensures CoupledInv(Apply(s, a))
  {
    hide QI.Inv, Coupled, Q.Apply, P.Apply;
    match a {
      case Storage(b) =>
        StorageCoupled(s, b);
        if |Published(s.storage, b)| > 0 { QI.StepKeepsInv(s.tickets, Q.Enqueue(Published(s.storage, b))); }
      case CallDequeue(t, max) =>
        QI.StepKeepsInv(s.tickets, Q.CallDequeue(t, max));
        IdleCaller(s, t);
        TicketCoupled(s, Q.CallDequeue(t, max));
      case Dequeue(t) =>
        QI.StepKeepsInv(s.tickets, Q.Run(t));
        DequeueCoupled(s, t);
    }
  }

  lemma IdleCaller<T>(s: State<T>, t: Tid)
    requires Coupled(s) && t < |s.tickets.pcs| && s.tickets.pcs[t] == Q.Idle
    ensures t < |s.storage.consumers| && s.storage.consumers[t] == P.CIdle
  {
  }

  // ---- the joint invariant ----

  ghost predicate OwnerOf(x: P.Slot, owner: Tid) {
    x.Waiting? || x.Moved? ==> x.t == owner
  }

  /** A slot being worked on belongs to the thread that claimed it. */
  ghost predicate OwnersAgree(slots: seq<P.Slot>, owners: seq<Tid>) {
    |slots| == |owners| && forall i :: 0 <= i < |slots| ==> OwnerOf(slots[i], owners[i])
  }

  ghost predicate Owned<T>(s: State<T>) {
    OwnersAgree(s.storage.slots, s.tickets.owners)
  }

  ghost predicate AllAsk(pcs: seq<Q.PC>) {
    forall t :: 0 <= t < |pcs| ==> QT.Asks(pcs[t])
  }

  /** What holds as long as every dequeue asks for something. */
  ghost predicate Inv<T>(s: State<T>) {
    CoupledInv(s) && AllAsk(s.tickets.pcs) && PI.Inv(s.storage) && PT.HeldInv(s.storage) && Owned(s)
  }

  lemma InitialInv<T>(s: State<T>)
    requires Initial(s)
    ensures Inv(s)
  {
    QI.InitialInv(s.tickets);
    PI.InitialInv(s.storage);
    PT.InitialHeld(s.storage);
  }

  lemma StorageOwned<T>(s: State<T>, a: P.Action<T>)
    requires Owned(s) && Enabled(s, Storage(a))
    ensures Owned(Apply(s, Storage(a)))
  {
    hide P.Apply;
    PT.OthersClaimNothing(s.storage, a);
  }

  lemma ClaimOwned<T>(s: State<T>, t: Tid)
    requires Owned(s) && Enabled(s, Dequeue(t)) && s.tickets.pcs[t].ClaimSlots?
    requires P.Enabled(s.storage, P.Claim(t, s.tickets.pcs[t].actual))
    ensures Owned(Apply(s, Dequeue(t)))
  {
  }

  lemma ConsumeOwned<T>(s: State<T>, t: Tid)
    requires PI.Inv(s.storage) && Owned(s) && P.Enabled(s.storage, P.Consume(t))
    ensures Owned(s.(storage := P.Apply(s.storage, P.Consume(t))))
  {
    hide PI.Inv, P.Apply;
    PT.ConsumerKeepsClaims(s.storage, t);
  }

  lemma AskingStep<T>(s: Q.State<T>, a: Q.Action<T>)
    requires AllAsk(s.pcs) && Q.Enabled(s, a) && (a.CallDequeue? ==> a.max >= 1)
    ensures AllAsk(Q.Apply(s, a).pcs)
  {
    hide Q.Apply;
    forall t | 0 <= t < |Q.Apply(s, a).pcs| ensures QT.Asks(Q.Apply(s, a).pcs[t]) {
      QT.StepOthers(s, a, t);
      QT.StepAsks(s, a, t);
    }
  }

  lemma StorageInv<T>(s: State<T>, a: P.Action<T>)
    requires Inv(s) && Enabled(s, Storage(a))
    ensures PI.Inv(Apply(s, Storage(a)).storage) && PT.HeldInv(Apply(s, Storage(a)).storage)
    ensures Owned(Apply(s, Storage(a))) && AllAsk(Apply(s, Storage(a)).tickets.pcs)
  {
    hide CoupledInv, PI.Inv, PT.HeldInv, Owned, P.Apply, Q.Apply;
    StorageOwned(s, a);
    PT.StorageKeepsInv(s.storage, a);
    if |Published(s.storage, a)| > 0 { AskingStep(s.tickets, Q.Enqueue(Published(s.storage, a))); }
  }

  lemma DequeueInv<T>(s: State<T>, t: Tid)
    requires Inv(s) && Enabled(s, Dequeue(t))
    ensures PI.Inv(Apply(s, Dequeue(t)).storage) && PT.HeldInv(Apply(s, Dequeue(t)).storage)
    ensures Owned(Apply(s, Dequeue(t))) && AllAsk(Apply(s, Dequeue(t)).tickets.pcs)
  {
    hide CoupledInv, PI.Inv, PT.HeldInv, Owned, P.Apply, Q.Apply;
    AskingStep(s.tickets, Q.Run(t));
    if s.tickets.pcs[t].ClaimSlots? {
      ClaimIsHonoured(s, t);
      ClaimOwned(s, t);
      assert QT.Asks(s.tickets.pcs[t]);
      PT.StorageKeepsInv(s.storage, P.Claim(t, s.tickets.pcs[t].actual));
    } else if P.Enabled(s.storage, P.Consume(t)) {
      ConsumeOwned(s, t);
      PT.StorageKeepsInv(s.storage, P.Consume(t));
    } else {
      TicketOwned(s, Q.Run(t));
    }
  }

  lemma TicketOwned<T>(s: State<T>, a: Q.Action<T>)
    requires Owned(s) && Q.Enabled(s.tickets, a) && !a.Enqueue? && (a.Run? ==> !s.tickets.pcs[a.t].ClaimSlots?)
    ensures Owned(s.(tickets := Q.Apply(s.tickets, a)))
  {
  }

  lemma StepKeepsInv<T>(s: State<T>, a: Action<T>)
    requires Inv(s) && Enabled(s, a) && (a.CallDequeue? ==> a.max >= 1)
    ensures Inv(Apply(s, a))
  {
    hide CoupledInv, PI.Inv, PT.HeldInv, Owned, P.Apply, Q.Apply;
    StepKeepsCoupled(s, a);
    match a {
      case Storage(b) => StorageInv(s, b);
      case Dequeue(t) => DequeueInv(s, t);
      case CallDequeue(t, max) =>
        AskingStep(s.tickets, Q.CallDequeue(t, max));
        TicketOwned(s, Q.CallDequeue(t, max));
    }
  }

  // ---- runs ----

  ghost predicate IsRun<T>(run: seq<State<T>>, acts: seq<Action<T>>) {
    && |run| == |acts| + 1 && Initial(run[0])
    && forall i :: 0 <= i < |acts| ==> Enabled(run[i], acts[i]) && run[i + 1] == Apply(run[i], acts[i])
  }

  /** Every dequeue asks for at least `m` elements. */
  ghost predicate AllAskFor<T>(acts: seq<Action<T>>, m: nat) {
    forall i :: 0 <= i < |acts| && acts[i].CallDequeue? ==> acts[i].max >= m
  }

  lemma {:induction false} RunKeepsInv<T>(run: seq<State<T>>, acts: seq<Action<T>>, i: nat)
    requires IsRun(run, acts) && AllAskFor(acts, 1) && i < |run|
    ensures Inv(run[i])
  {
    hide Inv, Apply, Enabled;
    if i == 0 {
      InitialInv(run[0]);
    } else {
      RunKeepsInv(run, acts, i - 1);
      StepKeepsInv(run[i - 1], acts[i - 1]);
    }
  }

  lemma {:induction false} RunKeepsCoupled<T>(run: seq<State<T>>, acts: seq<Action<T>>, i: nat)
    requires IsRun(run, acts) && i < |run|
    ensures CoupledInv(run[i])
  {
    hide CoupledInv, Inv, Apply, Enabled;
    if i == 0 {
      InitialInv(run[0]);
      InvIsCoupled(run[0]);
    } else {
      RunKeepsCoupled(run, acts, i - 1);
      StepKeepsCoupled(run[i - 1], acts[i - 1]);
    }
  }

  lemma InvIsCoupled<T>(s: State<T>)
    requires Inv(s)
    ensures CoupledInv(s)
  {
  }

  /** In every run no claim is ever refused: `headIndex` never passes `tailIndex`, whatever dequeues ask for and
      whatever the storage is doing. */
  lemma NoClaimIsRefused<T>(run: seq<State<T>>, acts: seq<Action<T>>, i: nat, t: Tid)
    requires IsRun(run, acts) && i < |run| && t < |run[i].tickets.pcs| && run[i].tickets.pcs[t].ClaimSlots?
    ensures P.Enabled(run[i].storage, P.Claim(t, run[i].tickets.pcs[t].actual))
  {
    hide CoupledInv, IsRun;
    RunKeepsCoupled(run, acts, i);
    ClaimIsHonoured(run[i], t);
  }

  /** When a dequeue is about to return, it has moved out exactly the items enqueued at the indices it claimed. */
  lemma DequeueReturnsItsItems<T>(run: seq<State<T>>, acts: seq<Action<T>>, i: nat, t: Tid, k: nat)
    requires IsRun(run, acts) && AllAskFor(acts, 1) && i < |run| && t < |run[i].tickets.pcs| &&
      run[i].tickets.pcs[t].Taking?
    requires t < |run[i].storage.consumers| && run[i].storage.consumers[t] == P.CIdle
    requires var pc := run[i].tickets.pcs[t]; pc.first <= k < pc.first + pc.actual
    ensures k in run[i].storage.taken && k < |run[i].tickets.items| &&
      run[i].storage.taken[k] == run[i].tickets.items[k]
  {
    hide IsRun, Inv;
    RunKeepsInv(run, acts, i);
    InvParts(run[i]);
    hide QI.Inv, PI.Inv, PT.HeldInv, Owned;
    TakerOwns(run[i].tickets, t, k);
    IdleHasTaken(run[i], t, k);
  }

  lemma InvParts<T>(s: State<T>)
    requires Inv(s)
    ensures QI.Inv(s.tickets) && PI.Inv(s.storage) && PT.HeldInv(s.storage) && Owned(s)
    ensures s.tickets.items == s.storage.items
  {
    hide QI.Inv, PI.Inv, PT.HeldInv, Owned;
  }

  lemma TakerOwns<T>(s: Q.State<T>, t: Tid, k: nat)
    requires QI.Inv(s) && t < |s.pcs| && s.pcs[t].Taking? && s.pcs[t].first <= k < s.pcs[t].first + s.pcs[t].actual
    ensures k < |s.owners| && s.owners[k] == t
  {
    assert QI.LocalOk(s, t, s.pcs[t]);
  }

  /** A slot whose owner is idle has been counted, so its element has been moved out. */
  lemma IdleHasTaken<T>(s: State<T>, t: Tid, k: nat)
    requires PI.Inv(s.storage) && PT.HeldInv(s.storage) && Owned(s)
    requires k < |s.tickets.owners| && s.tickets.owners[k] == t
    requires t < |s.storage.consumers| && s.storage.consumers[t] == P.CIdle
    ensures k in s.storage.taken && k < |s.storage.items| && s.storage.taken[k] == s.storage.items[k]
  {
    hide PI.IndexOk, PI.ElementsOk, PI.BlocksOk, PI.CellsOk, PI.PlacesOk, PI.TailBlockOk, PI.ProducerOk, PI.ConsumersOk;
    assert OwnerOf(s.storage.slots[k], s.tickets.owners[k]);
    assert PT.SlotHeld(s.storage.slots[k], s.storage.consumers, k);
  }
}
