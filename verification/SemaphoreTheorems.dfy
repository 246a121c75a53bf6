module SemaphoreTheorems {
  import opened Sums
  import opened Semaphore
  import opened SemaphoreInvariant

  ghost predicate IsRun(run: seq<State>, acts: seq<Action>) {
    && |run| == |acts| + 1 && Initial(run[0])
    && forall i :: 0 <= i < |acts| ==> Enabled(run[i], acts[i]) && run[i + 1] == Apply(run[i], acts[i])
  }

  lemma {:induction false} RunKeepsInv(run: seq<State>, acts: seq<Action>, i: nat)
    requires IsRun(run, acts) && i < |run|
    ensures Inv(run[i])
  {
    hide Inv, Apply, Enabled;
    if i == 0 {
      InitialInv(run[0]);
    } else {
      RunKeepsInv(run, acts, i - 1);
      StepKeepsInv(run[i - 1], acts[i - 1]);
    }
  }

  lemma SumsNonNegative(s: State)
    ensures Sum(s.pcs, Waits) >= 0 && Sum(s.pcs, Pending) >= 0 && Sum(s.pcs, InHand) >= 0
  {
    SumNonNegative(s.pcs, Waits);
    SumNonNegative(s.pcs, Pending);
    SumNonNegative(s.pcs, InHand);
  }

  /** No over-acquisition: whatever the mix of waits, timeouts and signals, the permits acquired never exceed those
      there were and those signalled. */
  lemma NoOverAcquisition(run: seq<State>, acts: seq<Action>, i: nat)
    requires IsRun(run, acts) && i < |run|
    ensures run[i].acquired <= run[i].initial + run[i].signalled
    ensures run[i].handed <= run[i].acquired
  {
    RunKeepsInv(run, acts, i);
    SumsNonNegative(run[i]);
  }

  /** No lost wakeup: when a thread is asleep in the kernel with nothing posted or about to be, every permit there
      ever was has been acquired. */
  lemma NoLostWakeup(run: seq<State>, acts: seq<Action>, i: nat, t: Tid)
    requires IsRun(run, acts) && i < |run| && t < |run[i].pcs| && run[i].pcs[t].Kernel?
    requires run[i].kernel == 0 && forall u :: 0 <= u < |run[i].pcs| ==> !run[i].pcs[u].SignalPost?
    ensures run[i].count < 0 && run[i].acquired == run[i].initial + run[i].signalled
  {
    RunKeepsInv(run, acts, i);
    SumAll(run[i].pcs, Pending, 0);
    SumAtLeast(run[i].pcs, Waits, t);
  }

  /** The undo loop of a timed-out wait always has a way out: either the count still shows a waiter to take back, or
      a permit is in the kernel or on its way there. */
  lemma UndoHasAWayOut(run: seq<State>, acts: seq<Action>, i: nat, t: Tid)
    requires IsRun(run, acts) && i < |run| && t < |run[i].pcs|
    requires run[i].pcs[t].UndoLoad? || run[i].pcs[t].UndoTake? || run[i].pcs[t].UndoCas?
    ensures run[i].count < 0 || run[i].kernel + Sum(run[i].pcs, Pending) > 0
  {
    RunKeepsInv(run, acts, i);
    SumAtLeast(run[i].pcs, Waits, t);
  }

  /** Undone timeouts leave no trace: once nobody is at work the kernel holds nothing and the count is exactly the
      permits not yet acquired. */
  lemma RestIsExact(run: seq<State>, acts: seq<Action>, i: nat)
    requires IsRun(run, acts) && i < |run| && forall t :: 0 <= t < |run[i].pcs| ==> run[i].pcs[t] == Idle
    ensures run[i].kernel == 0 && run[i].count == run[i].initial + run[i].signalled - run[i].acquired >= 0
    ensures run[i].handed == run[i].acquired
  {
    RunKeepsInv(run, acts, i);
    SumAll(run[i].pcs, Waits, 0);
    SumAll(run[i].pcs, Pending, 0);
    SumAll(run[i].pcs, InHand, 0);
  }

  // ---- what a wait returns ----

  predicate Undoing(pc: PC) {
    pc.UndoLoad? || pc.UndoTake? || pc.UndoCas? || (pc.Holding? && pc.gaveUp)
  }

  /** The kernel wait of the call that thread `t` is in has failed. */
  ghost predicate FailedInCall(acts: seq<Action>, i: nat, t: Tid) {
    exists j :: 0 <= j < i && j < |acts| && acts[j] == KernelFails(t) && NoCallSince(acts, j, i, t)
  }

  ghost predicate NoCallSince(acts: seq<Action>, j: nat, i: nat, t: Tid) {
    forall k :: j < k < i && k < |acts| ==> !(acts[k].CallWait? && acts[k].t == t)
  }

  lemma OtherThread(s: State, a: Action, t: Tid)
    requires Enabled(s, a) && t < |s.pcs| && a.t != t
    ensures |Apply(s, a).pcs| == |s.pcs| && Apply(s, a).pcs[t] == s.pcs[t]
  {
  }

  /** How a call that waits for ever comes to take back its count. */
  lemma OwnStep(s: State, a: Action)
    requires Enabled(s, a)
    ensures |Apply(s, a).pcs| == |s.pcs|
    ensures var pc := Apply(s, a).pcs[a.t]; Undoing(pc) && pc.c.mode == Forever ==>
      a.KernelFails? || (!a.CallWait? && Undoing(s.pcs[a.t]) && s.pcs[a.t].c == pc.c)
  {
  }

  lemma FailedStays(acts: seq<Action>, i: nat, t: Tid)
    requires i < |acts| && FailedInCall(acts, i, t) && !(acts[i].CallWait? && acts[i].t == t)
    ensures FailedInCall(acts, i + 1, t)
  {
    var j :| 0 <= j < i && acts[j] == KernelFails(t) && NoCallSince(acts, j, i, t);
    assert NoCallSince(acts, j, i + 1, t);
  }

  /** A call that waits for ever gives up only after its own kernel wait failed. */
  lemma {:induction false} GivesUpAfterFailure(run: seq<State>, acts: seq<Action>, i: nat, t: Tid)
    requires IsRun(run, acts) && i < |run| && t < |run[i].pcs| && Undoing(run[i].pcs[t]) &&
      run[i].pcs[t].c.mode == Forever
    ensures FailedInCall(acts, i, t)
  {
    if i > 0 {
      hide Apply, Enabled, Undoing, FailedInCall;
      var a := acts[i - 1];
      OwnStep(run[i - 1], a);
      if a.t != t {
        OtherThread(run[i - 1], a, t);
        GivesUpAfterFailure(run, acts, i - 1, t);
        FailedStays(acts, i - 1, t);
      } else if a.KernelFails? {
        JustFailed(acts, i - 1, t);
      } else {
        GivesUpAfterFailure(run, acts, i - 1, t);
        FailedStays(acts, i - 1, t);
      }
    }
  }

  lemma JustFailed(acts: seq<Action>, i: nat, t: Tid)
    requires i < |acts| && acts[i] == KernelFails(t)
    ensures FailedInCall(acts, i + 1, t)
  {
    assert NoCallSince(acts, i, i + 1, t);
  }

  /** A wait returns at most what was asked for, and nothing only if nothing was asked for, it did not mean to wait,
      or it gave up. */
  lemma WaitReturns(run: seq<State>, acts: seq<Action>, i: nat, t: Tid)
    requires IsRun(run, acts) && i < |run| && t < |run[i].pcs| && run[i].pcs[t].Holding?
    ensures var pc := run[i].pcs[t];
      pc.got <= pc.c.max && (pc.got == 0 ==> pc.c.max == 0 || pc.c.mode == NoWait || pc.gaveUp)
  {
    RunKeepsInv(run, acts, i);
    assert LocalOk(run[i].pcs[t]);
  }

  /** In every run, an untimed wait returns nothing exactly when it was asked for nothing or has given up, and it gives
      up only after its own kernel wait has failed.  Otherwise it returns between one and the maximum. */
  lemma UntimedReturnsSome(run: seq<State>, acts: seq<Action>, i: nat, t: Tid)
    requires IsRun(run, acts) && i < |run| && t < |run[i].pcs| && run[i].pcs[t].Holding? &&
      run[i].pcs[t].c.mode == Forever
    ensures run[i].pcs[t].got <= run[i].pcs[t].c.max
    ensures run[i].pcs[t].got == 0 <==> run[i].pcs[t].c.max == 0 || run[i].pcs[t].gaveUp
    ensures run[i].pcs[t].gaveUp ==> FailedInCall(acts, i, t)
  {
    hide IsRun, FailedInCall;
    RunKeepsInv(run, acts, i);
    assert LocalOk(run[i].pcs[t]);
    if run[i].pcs[t].gaveUp { GivesUpAfterFailure(run, acts, i, t); }
  }
}
