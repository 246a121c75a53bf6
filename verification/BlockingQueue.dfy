/** `BlockingConcurrentQueue`: every operation pairs the semaphore with the inner queue.  The inner queue is the bag
    its own theorems make it: elements go in all at once and come out once each, but a dequeue may find nothing. */
module BlockingQueue {
  import opened Sums
  import opened Semaphore
  import opened SemaphoreInvariant

  datatype Queue<T> = Queue(sema: State, inner: multiset<T>, enqueued: multiset<T>, dequeued: multiset<T>)

  datatype Event<T> =
    | Enqueue(t: Tid, xs: seq<T>)
    | EnqueueFails(t: Tid)
    | Dequeue(t: Tid, ys: multiset<T>)
    | Sema(a: Action)

  predicate Start<T>(q: Queue<T>) {
    Initial(q.sema) && q.sema.initial == 0 && q.inner == multiset{} && q.enqueued == multiset{} &&
      q.dequeued == multiset{}
  }

  predicate Possible<T>(q: Queue<T>, e: Event<T>) {
    match e
    case Enqueue(t, xs) => Enabled(q.sema, CallSignal(t, |xs|))
    case EnqueueFails(t) => t < |q.sema.pcs| && q.sema.pcs[t] == Idle
    // the loop after the wait: at most what is still to be fetched, possibly nothing
    case Dequeue(t, ys) => ys <= q.inner && Enabled(q.sema, Use(t, |ys|))
    case Sema(a) => Enabled(q.sema, a) && !a.CallSignal? && !a.Use?
  }

  /** Elements first, permits second; permits first, elements second. */
  function Happen<T>(q: Queue<T>, e: Event<T>): Queue<T>
    requires Possible(q, e)
  {
    match e
    case Enqueue(t, xs) =>
      q.(inner := q.inner + multiset(xs), enqueued := q.enqueued + multiset(xs), sema :=
        Apply(q.sema, CallSignal(t, |xs|)))
    case EnqueueFails(t) => q
    case Dequeue(t, ys) =>
      q.(inner := q.inner - ys, dequeued := q.dequeued + ys, sema := Apply(q.sema, Use(t, |ys|)))
    case Sema(a) => q.(sema := Apply(q.sema, a))
  }

  /** Elements enqueued whose permits have not been signalled yet. */
  function Unsignalled(pc: PC): int {
    match pc
    case SignalAdd(n) => n
    case _ => 0
  }

  /** Permits in hand whose elements have not been fetched yet. */
  function Unfetched(pc: PC): int {
    match pc
    case TryLoad(_, got) => got
    case TryCas(_, got, _) => got
    case Holding(_, _, left, _) => left
    case _ => 0
  }

  /** A permit anywhere stands for an element in the inner queue. */
  ghost predicate ElementsBalance(s: State, size: nat) {
    size == Max(s.count, 0) + s.kernel + Sum(s.pcs, Pending) + Sum(s.pcs, Unfetched) + Sum(s.pcs, Unsignalled)
  }

  ghost predicate QueueInv<T>(q: Queue<T>) {
    && Inv(q.sema) && ElementsBalance(q.sema, |q.inner|)
    && q.enqueued == q.inner + q.dequeued
  }

  lemma StartInv<T>(q: Queue<T>)
    requires Start(q)
    ensures QueueInv(q)
  {
    InitialInv(q.sema);
    SumAll(q.sema.pcs, Pending, 0);
    SumAll(q.sema.pcs, Unfetched, 0);
    SumAll(q.sema.pcs, Unsignalled, 0);
  }

  lemma BalanceMove(s: State, s': State, t: Tid)
    requires t < |s.pcs| == |s'.pcs| && s'.pcs == s.pcs[t := s'.pcs[t]]
    ensures Sum(s'.pcs, Pending) == Sum(s.pcs, Pending) - Pending(s.pcs[t]) + Pending(s'.pcs[t])
    ensures Sum(s'.pcs, Unfetched) == Sum(s.pcs, Unfetched) - Unfetched(s.pcs[t]) + Unfetched(s'.pcs[t])
    ensures Sum(s'.pcs, Unsignalled) == Sum(s.pcs, Unsignalled) - Unsignalled(s.pcs[t]) + Unsignalled(s'.pcs[t])
  {
    SumUpdate(s.pcs, t, s'.pcs[t], Pending);
    SumUpdate(s.pcs, t, s'.pcs[t], Unfetched);
    SumUpdate(s.pcs, t, s'.pcs[t], Unsignalled);
  }

  lemma AcquireBalance(s: State, t: Tid, size: nat)
    requires Inv(s) && t < |s.pcs| && Acquiring(s.pcs[t]) && ElementsBalance(s, size)
    ensures ElementsBalance(RunThread(s, t, s.pcs[t]), size)
  {
    hide Inv, RunThread, ElementsBalance;
    if s.pcs[t].TryLoad? || s.pcs[t].TryCas? { TryBalance(s, t, size); } else { SpinBalance(s, t, size); }
  }

  lemma TryBalance(s: State, t: Tid, size: nat)
    requires Inv(s) && t < |s.pcs| && (s.pcs[t].TryLoad? || s.pcs[t].TryCas?) && ElementsBalance(s, size)
    ensures ElementsBalance(RunThread(s, t, s.pcs[t]), size)
  {
    assert LocalOk(s.pcs[t]);
    hide Locals, Sum, WaitersBalance, PermitsBalance;
    BalanceMove(s, RunThread(s, t, s.pcs[t]), t);
  }

  lemma SpinBalance(s: State, t: Tid, size: nat)
    requires Inv(s) && t < |s.pcs| && (s.pcs[t].SpinLoad? || s.pcs[t].SpinCas? || s.pcs[t].Sub?) &&
      ElementsBalance(s, size)
    ensures ElementsBalance(RunThread(s, t, s.pcs[t]), size)
  {
    assert LocalOk(s.pcs[t]);
    hide Locals, Sum, PermitsBalance;
    BalanceMove(s, RunThread(s, t, s.pcs[t]), t);
  }

  lemma WaitBalance(s: State, t: Tid, size: nat)
    requires Inv(s) && Enabled(s, Run(t)) && !Acquiring(s.pcs[t]) && ElementsBalance(s, size)
    ensures ElementsBalance(RunThread(s, t, s.pcs[t]), size)
  {
    assert LocalOk(s.pcs[t]);
    BalanceMove(s, RunThread(s, t, s.pcs[t]), t);
  }

  lemma SemaBalance(s: State, a: Action, size: nat)
    requires Inv(s) && Enabled(s, a) && !a.CallSignal? && !a.Use? && ElementsBalance(s, size)
    ensures ElementsBalance(Apply(s, a), size)
  {
    if a.Run? {
      hide Inv, RunThread, ElementsBalance;
      if Acquiring(s.pcs[a.t]) { AcquireBalance(s, a.t, size); } else { WaitBalance(s, a.t, size); }
    } else {
      BalanceMove(s, Apply(s, a), a.t);
    }
  }

  lemma StepKeepsInv<T>(q: Queue<T>, e: Event<T>)
    requires QueueInv(q) && Possible(q, e)
    ensures QueueInv(Happen(q, e))
  {
    hide Inv, RunThread;
    match e {
      case Enqueue(t, xs) =>
        SemaphoreInvariant.StepKeepsInv(q.sema, CallSignal(t, |xs|));
        BalanceMove(q.sema, Apply(q.sema, CallSignal(t, |xs|)), t);
      case EnqueueFails(_) =>
      case Dequeue(t, ys) =>
        SemaphoreInvariant.StepKeepsInv(q.sema, Use(t, |ys|));
        BalanceMove(q.sema, Apply(q.sema, Use(t, |ys|)), t);
      case Sema(a) =>
        SemaphoreInvariant.StepKeepsInv(q.sema, a);
        SemaBalance(q.sema, a, |q.inner|);
    }
  }

  ghost predicate IsRun<T>(run: seq<Queue<T>>, events: seq<Event<T>>) {
    && |run| == |events| + 1 && Start(run[0])
    && forall i :: 0 <= i < |events| ==> Possible(run[i], events[i]) && run[i + 1] == Happen(run[i], events[i])
  }

  lemma {:induction false} RunKeepsInv<T>(run: seq<Queue<T>>, events: seq<Event<T>>, i: nat)
    requires IsRun(run, events) && i < |run|
    ensures QueueInv(run[i])
  {
    hide QueueInv, Happen, Possible;
    if i == 0 {
      StartInv(run[0]);
    } else {
      RunKeepsInv(run, events, i - 1);
      StepKeepsInv(run[i - 1], events[i - 1]);
    }
  }

  /** A permit implies an element: a consumer in the loop after its wait always has elements to find, enough for it
      and for every other consumer there at the same time. */
  lemma PermitImpliesElement<T>(run: seq<Queue<T>>, events: seq<Event<T>>, i: nat, t: Tid)
    requires IsRun(run, events) && i < |run| && t < |run[i].sema.pcs| && run[i].sema.pcs[t].Holding?
    ensures run[i].sema.pcs[t].left <= Sum(run[i].sema.pcs, Unfetched) <= |run[i].inner|
  {
    RunKeepsInv(run, events, i);
    SumNonNegative(run[i].sema.pcs, Pending);
    SumNonNegative(run[i].sema.pcs, Unsignalled);
    SumAtLeast(run[i].sema.pcs, Unfetched, t);
  }

  /** Once nobody is at work, `size_approx` is the number of elements in the queue, and a try to dequeue finds one
      exactly when there is one. */
  lemma RestIsExact<T>(run: seq<Queue<T>>, events: seq<Event<T>>, i: nat)
    requires IsRun(run, events) && i < |run| && forall t :: 0 <= t < |run[i].sema.pcs| ==> run[i].sema.pcs[t] == Idle
    ensures run[i].sema.kernel == 0 && |run[i].inner| == run[i].sema.count
  {
    RunKeepsInv(run, events, i);
    var pcs := run[i].sema.pcs;
    SumAll(pcs, Waits, 0);
    SumAll(pcs, Pending, 0);
    SumAll(pcs, Unfetched, 0);
    SumAll(pcs, Unsignalled, 0);
  }

  /** Nobody sleeps while an element nobody is fetching is fully enqueued. */
  lemma SleeperMeansEmpty<T>(run: seq<Queue<T>>, events: seq<Event<T>>, i: nat, t: Tid)
    requires IsRun(run, events) && i < |run| && t < |run[i].sema.pcs| && run[i].sema.pcs[t].Kernel? &&
      run[i].sema.kernel == 0
    requires forall u :: 0 <= u < |run[i].sema.pcs| ==>
      !run[i].sema.pcs[u].SignalPost? && !run[i].sema.pcs[u].SignalAdd?
    ensures |run[i].inner| == Sum(run[i].sema.pcs, Unfetched)
  {
    RunKeepsInv(run, events, i);
    var pcs := run[i].sema.pcs;
    SumAll(pcs, Pending, 0);
    SumAll(pcs, Unsignalled, 0);
    SumAtLeast(pcs, Waits, t);
  }
}
