/** The comparisons of the ticket protocol on machine words. */
module TicketWraps {
  import opened Sums
  import opened Tickets
  import opened TicketInvariant
  import opened TicketTheorems
  import opened WrapAround

  /** The check before drawing tickets.  `tail` and `dequeueOvercommit` were read earlier, yet what is desired is never
      more than the queue holds; so as long as that is less than half a range, which the guard of enqueue sees to, and
      no more than half a range of tickets is out, both ways in which the source compares give the true answer. */
  lemma FirstCheckWraps<T>(s: State<T>, t: Tid, half: nat)
    requires Inv(s) && t < |s.pcs| && s.pcs[t].LoadOptimistic? && half > 0 && s.tail - s.head < half
    requires s.optimistic - s.pcs[t].over <= s.pcs[t].tail + half
    ensures var LoadOptimistic(max, tail, over) := s.pcs[t]; var desired := tail - (s.optimistic - over);
      && desired <= s.tail - s.head
      && (CircularLess(Wrap(s.optimistic - over, half), Wrap(tail, half), half) <==> 0 < desired)
      && (CircularLess(0, Wrap(desired, half), half) <==> 0 < desired)
      && (0 < desired ==> Wrap(desired, half) == desired)
      && (Apply(s, Run(t)).pcs[t].TakeTickets? <==> CircularLess(0, Wrap(desired, half), half))
  {
    hide Wrap;
    var LoadOptimistic(max, tail, over) := s.pcs[t];
    assert LocalOk(s, t, s.pcs[t]);
    SumNonNegative(s.pcs, InFlight);
    var desired := tail - (s.optimistic - over);
    PositiveDifference(desired, half);
    CircularLessIsExact(s.optimistic - over, tail, half);
    WrapNear(desired, half);
  }

  /** The check on the tail read again, which grants the tickets, when the true difference is within half a range. */
  lemma SecondCheckNear<T>(s: State<T>, t: Tid, half: nat)
    requires t < |s.pcs| && s.pcs[t].ReloadTail? && half > 0
    requires var ReloadTail(over, desired, mine) := s.pcs[t]; 0 <= s.tail - (mine - over) + half < 2 * half
    ensures SecondCheckTrue(s, t, half)
  {
    hide Wrap;
    var ReloadTail(over, desired, mine) := s.pcs[t];
    PositiveDifference(s.tail - (mine - over), half);
    CircularLessIsExact(mine - over, s.tail, half);
    WrapNear(s.tail - (mine - over), half);
  }

  /** Both ways in which the source compares give the true answer, and the step taken is the one they dictate. */
  ghost predicate SecondCheckTrue<T>(s: State<T>, t: Tid, half: nat)
    requires t < |s.pcs| && s.pcs[t].ReloadTail? && half > 0
  {
    var ReloadTail(over, desired, mine) := s.pcs[t];
    var available := s.tail - (mine - over);
    && (CircularLess(Wrap(mine - over, half), Wrap(s.tail, half), half) <==> 0 < available)
    && (CircularLess(0, Wrap(available, half), half) <==> 0 < available)
    && (0 < available ==> Wrap(available, half) == available)
    && (Apply(s, Run(t)).pcs[t].GiveBackAll? <==> !CircularLess(0, Wrap(available, half), half))
  }

  // ---- how far things move during one call ----

  /** The call that thread `t` is in at step `i` was made at step `c`. */
  ghost predicate CalledAt<T>(acts: seq<Action<T>>, i: nat, t: Tid, c: nat) {
    && c < i <= |acts| && acts[c].CallDequeue? && acts[c].t == t
    && forall m :: c < m < i ==> !(acts[m].CallDequeue? && acts[m].t == t)
  }

  /** What a thread's locals say about the number of tickets drawn when its call began. */
  ghost predicate SinceCall<T>(s: State<T>, pc: PC, began: nat) {
    && began <= s.optimistic
    && (pc.TakeTickets? ==> began - pc.over < s.tail)
    && (pc.ReloadTail? ==> began - pc.over < s.tail && began <= pc.mine <= s.optimistic)
  }

  lemma OwnStepSince<T>(s: State<T>, t: Tid, began: nat)
    requires Inv(s) && t < |s.pcs| && s.pcs[t] != Idle && SinceCall(s, s.pcs[t], began)
    ensures var s' := Apply(s, Run(t)); t < |s'.pcs| && SinceCall(s', s'.pcs[t], began)
  {
    assert LocalOk(s, t, s.pcs[t]);
  }

  lemma OtherStepSince<T>(s: State<T>, a: Action<T>, t: Tid, began: nat)
    requires Enabled(s, a) && t < |s.pcs| && (a.Enqueue? || a.t != t) && SinceCall(s, s.pcs[t], began)
    ensures var s' := Apply(s, a); t < |s'.pcs| && s'.pcs[t] == s.pcs[t] && SinceCall(s', s'.pcs[t], began)
  {
  }

  lemma CallSince<T>(s: State<T>, t: Tid, max: nat)
    requires Enabled(s, CallDequeue(t, max))
    ensures var s' := Apply(s, CallDequeue(t, max)); t < |s'.pcs| && SinceCall(s', s'.pcs[t], s.optimistic)
  {
  }

  /** A thread at work is in a call, and its locals are as the counters have been since. */
  lemma {:induction false} InCall<T>(states: seq<State<T>>, acts: seq<Action<T>>, i: nat, t: Tid) returns (c: nat)
    requires IsRun(states, acts) && i < |states| && t < |states[i].pcs| && states[i].pcs[t] != Idle
    ensures CalledAt(acts, i, t, c) && SinceCall(states[i], states[i].pcs[t], states[c].optimistic)
  {
    hide Inv, Apply, Enabled, SinceCall;
    assert i > 0 by { NobodyAtWork(states[0], t); }
    var s, a := states[i - 1], acts[i - 1];
    StepOthers(s, a, t);
    if a.Enqueue? || a.t != t {
      c := InCall(states, acts, i - 1, t);
      OtherStepSince(s, a, t, states[c].optimistic);
    } else if a.CallDequeue? {
      c := i - 1;
      CallSince(s, t, a.max);
    } else {
      WasAtWork(s, t);
      c := InCall(states, acts, i - 1, t);
      RunKeepsInv(states, acts, i - 1);
      OwnStepSince(s, t, states[c].optimistic);
    }
  }

  lemma NobodyAtWork<T>(s: State<T>, t: Tid)
    ensures Initial(s) && t < |s.pcs| ==> s.pcs[t] == Idle
  {
  }

  lemma WasAtWork<T>(s: State<T>, t: Tid)
    requires Enabled(s, Run(t))
    ensures t < |s.pcs| && s.pcs[t] != Idle
  {
  }

  /** In every run: the second check takes the true branch as long as what the queue holds, and the tickets drawn by
      anybody since the call began, are together less than half a range. */
  lemma SecondCheckWraps<T>(states: seq<State<T>>, acts: seq<Action<T>>, i: nat, t: Tid, half: nat)
    requires IsRun(states, acts) && i < |states| && t < |states[i].pcs| && states[i].pcs[t].ReloadTail? && half > 0
    requires forall c: nat :: CalledAt(acts, i, t, c) ==>
      states[i].tail - states[i].head + states[i].optimistic - states[c].optimistic < half
    ensures SecondCheckTrue(states[i], t, half)
  {
    hide Inv, IsRun, SecondCheckTrue;
    var c := InCall(states, acts, i, t);
    RunKeepsInv(states, acts, i);
    AvailableBound(states[i], t);
    SecondCheckNear(states[i], t, half);
  }

  /** What is available is at most what the queue holds and the tickets drawn since one's own. */
  lemma AvailableBound<T>(s: State<T>, t: Tid)
    requires Inv(s) && t < |s.pcs| && s.pcs[t].ReloadTail?
    ensures s.tail - (s.pcs[t].mine - s.pcs[t].over) <= s.tail - s.head + s.optimistic - s.pcs[t].mine &&
      s.head <= s.tail
  {
    assert LocalOk(s, t, s.pcs[t]);
    ClaimsStayBelowTail(s, t);
    SumNonNegative(s.pcs, InFlight);
    PrefixReturned(s.tickets, s.pcs[t].mine, |s.tickets|);
    assert s.tickets[..|s.tickets|] == s.tickets;
  }
}
