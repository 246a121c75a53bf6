/** The dequeue protocol of `ProducerBase` sub-queues: optimistic tickets, compensation through
    `dequeueOvercommit`, and only then a claim on `headIndex`.  `dequeue` is `dequeue_bulk` with a maximum of one.
    Indices are unbounded here; `WrapAround` relates them to machine words. */
module Tickets {
  type Tid = nat

  datatype PC =
    | Idle
    | LoadTail(max: nat)
    | LoadOvercommit(max: nat, tail: nat)
    | LoadOptimistic(max: nat, tail: nat, over: nat)
    | TakeTickets(over: nat, desired: nat)
    | ReloadTail(over: nat, desired: nat, mine: nat)
    | GiveBackSome(desired: nat, actual: nat, mine: nat)
    | GiveBackAll(desired: nat, mine: nat)
    | ClaimSlots(actual: nat, mine: nat)
    | Taking(first: nat, actual: nat)

  /** Auxiliary: what became of each ticket drawn from `dequeueOptimisticCount`. */
  datatype Ticket =
    | Pending(t: Tid)
    | Granted(t: Tid)
    | Claimed(t: Tid)
    | Returned

  /** `tail`, `head`, `optimistic` and `overcommit` are the shared atomics.  `items` is everything enqueued so far,
      `tickets` one entry per ticket ever drawn, `owners` the claimer of each slot below `head`. */
  datatype State<T> = State(
    tail: nat,
    head: nat,
    optimistic: nat,
    overcommit: nat,
    pcs: seq<PC>,
    items: seq<T>,
    tickets: seq<Ticket>,
    owners: seq<Tid>)

  datatype Action<T> =
    | Enqueue(xs: seq<T>)
    | CallDequeue(t: Tid, max: nat)
    | Run(t: Tid)

  predicate Initial<T>(s: State<T>) {
    && s.tail == s.head == s.optimistic == s.overcommit == 0
    && |s.items| == 0 && |s.tickets| == 0 && |s.owners| == 0
    && (forall t :: 0 <= t < |s.pcs| ==> s.pcs[t] == Idle)
  }

  predicate Enabled<T>(s: State<T>, a: Action<T>) {
    match a
    case Enqueue(_) => true
    case CallDequeue(t, max) => t < |s.pcs| && s.pcs[t] == Idle
    case Run(t) => t < |s.pcs| && s.pcs[t] != Idle
  }

  function Min(a: nat, b: nat): nat {
    if a < b then a else b
  }

  function Repeat<T>(x: T, n: nat): (r: seq<T>)
    ensures |r| == n && forall i :: 0 <= i < n ==> r[i] == x
  {
    seq(n, _ => x)
  }

  /** Entries `from .. from + n` replaced by `x`. */
  function Mark(ts: seq<Ticket>, from: nat, n: nat, x: Ticket): (r: seq<Ticket>)
    ensures |r| == |ts|
    ensures forall i :: 0 <= i < |ts| ==> r[i] == (if from <= i < from + n then x else ts[i])
  {
    seq(|ts|, i requires 0 <= i < |ts| => if from <= i < from + n then x else ts[i])
  }

  function Apply<T>(s: State<T>, a: Action<T>): State<T> {
    match a
    case Enqueue(xs) => s.(items := s.items + xs, tail := s.tail + |xs|)
    case CallDequeue(t, max) => if t < |s.pcs| then s.(pcs := s.pcs[t := LoadTail(max)]) else s
    case Run(t) => if t < |s.pcs| then RunThread(s, t, s.pcs[t]) else s
  }

  function RunThread<T>(s: State<T>, t: Tid, pc: PC): State<T>
    requires t < |s.pcs|
  {
    match pc
    case Idle => s
    case LoadTail(max) => s.(pcs := s.pcs[t := LoadOvercommit(max, s.tail)])
    case LoadOvercommit(max, tail) => s.(pcs := s.pcs[t := LoadOptimistic(max, tail, s.overcommit)])
    case LoadOptimistic(max, tail, over) =>
      var desired := tail - (s.optimistic - over);
      s.(pcs := s.pcs[t := if 0 < desired then TakeTickets(over, Min(desired, max)) else Idle])
    case TakeTickets(over, desired) =>
      s.(optimistic := s.optimistic + desired,
        pcs := s.pcs[t := ReloadTail(over, desired, s.optimistic)],
        tickets := s.tickets + Repeat(Pending(t), desired))
    case ReloadTail(over, desired, mine) =>
      var available := s.tail - (mine - over);
      if 0 < available then
        var actual := Min(desired, available);
        s.(pcs := s.pcs[t := if actual < desired then GiveBackSome(desired, actual, mine)
          else ClaimSlots(actual, mine)],
          tickets := Mark(s.tickets, mine, actual, Granted(t)))
      else
        s.(pcs := s.pcs[t := GiveBackAll(desired, mine)])
    case GiveBackSome(desired, actual, mine) =>
      var back := if actual <= desired then desired - actual else 0;
      s.(overcommit := s.overcommit + back,
        pcs := s.pcs[t := ClaimSlots(actual, mine)],
        tickets := Mark(s.tickets, mine + actual, back, Returned))
    case GiveBackAll(desired, mine) =>
      s.(overcommit := s.overcommit + desired,
        pcs := s.pcs[t := Idle],
        tickets := Mark(s.tickets, mine, desired, Returned))
    case ClaimSlots(actual, mine) =>
      s.(head := s.head + actual,
        pcs := s.pcs[t := Taking(s.head, actual)],
        tickets := Mark(s.tickets, mine, actual, Claimed(t)),
        owners := s.owners + Repeat(t, actual))
    case Taking(_, _) => s.(pcs := s.pcs[t := Idle])
  }

  /** The tickets a thread has drawn and not yet settled. */
  function InFlight(pc: PC): int {
    match pc
    case ReloadTail(_, desired, _) => desired
    case GiveBackSome(desired, _, _) => desired
    case GiveBackAll(desired, _) => desired
    case ClaimSlots(actual, _) => actual
    case _ => 0
  }
}

module TicketInvariant {
  import opened Sums
  import opened Tickets

  ghost function CountClaimed(ts: seq<Ticket>): nat {
    if |ts| == 0 then 0 else CountClaimed(ts[..|ts| - 1]) + (if ts[|ts| - 1].Claimed? then 1 else 0)
  }

  ghost function CountReturned(ts: seq<Ticket>): nat {
    if |ts| == 0 then 0 else CountReturned(ts[..|ts| - 1]) + (if ts[|ts| - 1].Returned? then 1 else 0)
  }

  /** Entries `from .. from + n` of the ticket log are `x`. */
  ghost predicate Marked(ts: seq<Ticket>, from: nat, n: nat, x: Ticket) {
    from + n <= |ts| && forall i :: from <= i < from + n ==> ts[i] == x
  }

  /** What a thread's locals say about the ticket log. */
  ghost predicate LocalOk<T>(s: State<T>, t: Tid, pc: PC) {
    match pc
    case LoadOvercommit(max, tail) => tail <= s.tail
    case LoadOptimistic(max, tail, over) => tail <= s.tail && over <= s.overcommit
    case TakeTickets(over, desired) => over <= s.overcommit
    case ReloadTail(over, desired, mine) =>
      Marked(s.tickets, mine, desired, Pending(t)) && over <= CountReturned(s.tickets[..mine])
    case GiveBackSome(desired, actual, mine) =>
      actual < desired && Marked(s.tickets, mine, actual, Granted(t)) &&
        Marked(s.tickets, mine + actual, desired - actual, Pending(t))
    case GiveBackAll(desired, mine) => Marked(s.tickets, mine, desired, Pending(t))
    case ClaimSlots(actual, mine) => Marked(s.tickets, mine, actual, Granted(t))
    case Taking(first, actual) =>
      first + actual <= |s.owners| && forall i :: first <= i < first + actual ==> s.owners[i] == t
    case _ => true
  }

  ghost predicate Locals<T>(s: State<T>) {
    forall t :: 0 <= t < |s.pcs| ==> LocalOk(s, t, s.pcs[t])
  }

  /** A ticket that was granted came after enough returns for its item to exist. */
  ghost predicate GrantOk(ts: seq<Ticket>, tail: nat, u: nat)
    requires u < |ts|
  {
    ts[u].Granted? || ts[u].Claimed? ==> u + 1 - CountReturned(ts[..u + 1]) <= tail
  }

  ghost predicate Counters<T>(s: State<T>) {
    && |s.tickets| == s.optimistic
    && CountClaimed(s.tickets) == s.head
    && CountReturned(s.tickets) == s.overcommit
    && |s.items| == s.tail
    && |s.owners| == s.head
    && s.optimistic == s.head + s.overcommit + Sum(s.pcs, InFlight)
    && (forall u :: 0 <= u < |s.tickets| ==> GrantOk(s.tickets, s.tail, u))
  }

  ghost predicate Inv<T>(s: State<T>) {
    Counters(s) && Locals(s)
  }

  lemma {:induction false} CountAppend(ts: seq<Ticket>, x: Ticket, n: nat)
    requires !x.Claimed? && !x.Returned?
    ensures CountClaimed(ts + Repeat(x, n)) == CountClaimed(ts) && CountReturned(ts + Repeat(x, n)) == CountReturned(ts)
    decreases n
  {
    if n == 0 {
      assert ts + Repeat(x, 0) == ts;
    } else {
      assert (ts + Repeat(x, n))[..|ts| + n - 1] == ts + Repeat(x, n - 1);
      CountAppend(ts, x, n - 1);
    }
  }

  lemma MarkLess(ts: seq<Ticket>, from: nat, n: nat, x: Ticket)
    requires 0 < n && from + n <= |ts|
    ensures Mark(ts, from, n, x)[..|ts| - 1] == Mark(ts[..|ts| - 1], from, if from + n == |ts| then n - 1 else n, x)
  {
  }

  /** Marking a stretch of tickets that were neither claimed nor returned. */
  lemma {:induction false} CountMark(ts: seq<Ticket>, from: nat, n: nat, x: Ticket)
    requires from + n <= |ts| && forall i :: from <= i < from + n ==> !ts[i].Claimed? && !ts[i].Returned?
    ensures CountClaimed(Mark(ts, from, n, x)) == CountClaimed(ts) + (if x.Claimed? then n else 0)
    ensures CountReturned(Mark(ts, from, n, x)) == CountReturned(ts) + (if x.Returned? then n else 0)
  {
    if n == 0 {
      assert Mark(ts, from, n, x) == ts;
    } else {
      MarkLess(ts, from, n, x);
      CountMark(ts[..|ts| - 1], from, if from + n == |ts| then n - 1 else n, x);
    }
  }

  /** Turning more tickets into returns never lowers a prefix count. */
  lemma {:induction false} ReturnedMonotone(ts: seq<Ticket>, us: seq<Ticket>, k: nat)
    requires k <= |ts| && k <= |us| && forall i :: 0 <= i < k && ts[i].Returned? ==> us[i].Returned?
    ensures CountReturned(ts[..k]) <= CountReturned(us[..k])
    decreases k
  {
    if k > 0 {
      assert ts[..k][..k - 1] == ts[..k - 1] && us[..k][..k - 1] == us[..k - 1];
      ReturnedMonotone(ts, us, k - 1);
    }
  }

  /** The heart of the protocol: the granted tickets never outnumber the published items. */
  lemma {:induction false} GrantedFit(ts: seq<Ticket>, tail: nat)
    requires forall u :: 0 <= u < |ts| ==> GrantOk(ts, tail, u)
    ensures CountClaimed(ts) <= tail
    ensures CountGranted(ts) + CountClaimed(ts) <= tail
  {
    if |ts| > 0 {
      var last := |ts| - 1;
      if ts[last].Granted? || ts[last].Claimed? {
        assert GrantOk(ts, tail, last);
        assert ts[..last + 1] == ts;
        GrantedBound(ts);
      } else {
        forall u | 0 <= u < last ensures GrantOk(ts[..last], tail, u) {
          assert GrantOk(ts, tail, u);
          assert ts[..last][..u + 1] == ts[..u + 1];
        }
        GrantedFit(ts[..last], tail);
      }
    }
  }

  ghost function CountGranted(ts: seq<Ticket>): nat {
    if |ts| == 0 then 0 else CountGranted(ts[..|ts| - 1]) + (if ts[|ts| - 1].Granted? then 1 else 0)
  }

  lemma {:induction false} GrantedBound(ts: seq<Ticket>)
    ensures CountGranted(ts) + CountClaimed(ts) + CountReturned(ts) <= |ts|
  {
    if |ts| > 0 { GrantedBound(ts[..|ts| - 1]); }
  }

  lemma {:induction false} GrantedAtLeast(ts: seq<Ticket>, from: nat, n: nat, t: Tid)
    requires Marked(ts, from, n, Granted(t))
    ensures CountGranted(ts) >= n
  {
    if |ts| > 0 && n > 0 {
      var last := |ts| - 1;
      if from + n == |ts| {
        GrantedAtLeast(ts[..last], from, n - 1, t);
      } else {
        GrantedAtLeast(ts[..last], from, n, t);
      }
    }
  }

  /** Main safety: head never passes tail, and a claim about to be made stays within the published items. */
  lemma ClaimsStayBelowTail<T>(s: State<T>, t: Tid)
    requires Inv(s) && t < |s.pcs|
    ensures s.head <= s.tail
    ensures s.pcs[t].ClaimSlots? ==> s.head + s.pcs[t].actual <= s.tail
  {
    GrantedFit(s.tickets, s.tail);
    assert LocalOk(s, t, s.pcs[t]);
    if s.pcs[t].ClaimSlots? {
      GrantedAtLeast(s.tickets, s.pcs[t].mine, s.pcs[t].actual, t);
    }
  }

  /** The ticket log only grows, and thread `t` changes only entries it holds itself. */
  ghost predicate Evolves(ts: seq<Ticket>, us: seq<Ticket>, t: Tid) {
    |ts| <= |us| && forall i :: 0 <= i < |ts| ==> us[i] == ts[i] || ts[i] == Pending(t) || ts[i] == Granted(t)
  }

  lemma EvolvesReturned(ts: seq<Ticket>, us: seq<Ticket>, t: Tid, k: nat)
    requires Evolves(ts, us, t) && k <= |ts|
    ensures CountReturned(ts[..k]) <= CountReturned(us[..k])
  {
    ReturnedMonotone(ts, us, k);
  }

  /** A step of thread `t`, seen from the others. */
  ghost predicate StepOf<T>(s: State<T>, s': State<T>, t: Tid) {
    && t < |s.pcs| && |s'.pcs| == |s.pcs| && s'.pcs == s.pcs[t := s'.pcs[t]]
    && s.tail <= s'.tail && s.overcommit <= s'.overcommit && s.owners <= s'.owners
    && Evolves(s.tickets, s'.tickets, t)
  }

  lemma OtherLocalOk<T>(s: State<T>, s': State<T>, t: Tid, u: Tid, pc: PC)
    requires LocalOk(s, u, pc) && StepOf(s, s', t) && u != t
    ensures LocalOk(s', u, pc)
  {
    if pc.ReloadTail? {
      EvolvesReturned(s.tickets, s'.tickets, t, pc.mine);
    }
  }

  lemma LocalsStep<T>(s: State<T>, s': State<T>, t: Tid)
    requires Locals(s) && StepOf(s, s', t) && LocalOk(s', t, s'.pcs[t])
    ensures Locals(s')
  {
    forall u | 0 <= u < |s'.pcs| ensures LocalOk(s', u, s'.pcs[u]) {
      if u != t {
        OtherLocalOk(s, s', t, u, s.pcs[u]);
      }
    }
  }

  /** Grants made before the step stay justified. */
  lemma GrantsKept(ts: seq<Ticket>, us: seq<Ticket>, tail: nat, tail': nat, t: Tid)
    requires Evolves(ts, us, t) && tail <= tail'
    requires forall u :: 0 <= u < |ts| ==> GrantOk(ts, tail, u)
    requires forall u ::
      0 <= u < |us| && (us[u].Granted? || us[u].Claimed?) && (u >= |ts| || !(ts[u].Granted? || ts[u].Claimed?)) ==>
      GrantOk(us, tail', u)
    ensures forall u :: 0 <= u < |us| ==> GrantOk(us, tail', u)
  {
    forall u | 0 <= u < |us| ensures GrantOk(us, tail', u) {
      if u < |ts| && (ts[u].Granted? || ts[u].Claimed?) {
        assert GrantOk(ts, tail, u);
        EvolvesReturned(ts, us, t, u + 1);
      }
    }
  }

  lemma TakeTicketsStep<T>(s: State<T>, t: Tid)
    requires Inv(s) && t < |s.pcs| && s.pcs[t].TakeTickets?
    ensures Inv(Apply(s, Run(t)))
  {
    var s' := Apply(s, Run(t));
    assert LocalOk(s, t, s.pcs[t]);
    var n := s.pcs[t].desired;
    CountAppend(s.tickets, Pending(t), n);
    SumUpdate(s.pcs, t, s'.pcs[t], InFlight);
    assert s'.tickets[..s.optimistic] == s.tickets;
    GrantsKept(s.tickets, s'.tickets, s.tail, s'.tail, t);
    LocalsStep(s, s', t);
  }

  /** The check that grants tickets `mine .. mine + actual`: returns seen before the draw make room. */
  lemma NewGrantsOk(ts: seq<Ticket>, us: seq<Ticket>, t: Tid, tail: nat, over: nat, mine: nat, actual: nat)
    requires Evolves(ts, us, t) && mine + actual <= |ts| == |us|
    requires over <= CountReturned(ts[..mine]) && mine + actual - over <= tail
    ensures forall u :: mine <= u < mine + actual ==> GrantOk(us, tail, u)
  {
    forall u | mine <= u < mine + actual ensures GrantOk(us, tail, u) {
      EvolvesReturned(ts, us, t, mine);
      PrefixReturned(us, mine, u + 1);
    }
  }

  lemma {:induction false} PrefixReturned(ts: seq<Ticket>, a: nat, b: nat)
    requires a <= b <= |ts|
    ensures CountReturned(ts[..a]) <= CountReturned(ts[..b])
    decreases b
  {
    if a < b {
      assert ts[..b][..b - 1] == ts[..b - 1];
      PrefixReturned(ts, a, b - 1);
    }
  }

  lemma ReloadTailGrants<T>(s: State<T>, t: Tid)
    requires Inv(s) && t < |s.pcs| && s.pcs[t].ReloadTail? && 0 < s.tail - (s.pcs[t].mine - s.pcs[t].over)
    ensures Inv(Apply(s, Run(t)))
  {
    hide Mark, Sum, CountClaimed, CountReturned;
    var s' := Apply(s, Run(t));
    assert LocalOk(s, t, s.pcs[t]);
    SumUpdate(s.pcs, t, s'.pcs[t], InFlight);
    var ReloadTail(over, desired, mine) := s.pcs[t];
    var actual := Min(desired, s.tail - (mine - over));
    CountMark(s.tickets, mine, actual, Granted(t));
    NewGrantsOk(s.tickets, s'.tickets, t, s.tail, over, mine, actual);
    GrantsKept(s.tickets, s'.tickets, s.tail, s'.tail, t);
    LocalsStep(s, s', t);
  }

  lemma ReloadTailDenies<T>(s: State<T>, t: Tid)
    requires Inv(s) && t < |s.pcs| && s.pcs[t].ReloadTail? && s.tail - (s.pcs[t].mine - s.pcs[t].over) <= 0
    ensures Inv(Apply(s, Run(t)))
  {
    var s' := Apply(s, Run(t));
    assert LocalOk(s, t, s.pcs[t]);
    SumUpdate(s.pcs, t, s'.pcs[t], InFlight);
    LocalsStep(s, s', t);
  }

  lemma GiveBackStep<T>(s: State<T>, t: Tid)
    requires Inv(s) && t < |s.pcs| && (s.pcs[t].GiveBackSome? || s.pcs[t].GiveBackAll?)
    ensures Inv(Apply(s, Run(t)))
  {
    var s' := Apply(s, Run(t));
    assert LocalOk(s, t, s.pcs[t]);
    SumUpdate(s.pcs, t, s'.pcs[t], InFlight);
    var from := if s.pcs[t].GiveBackSome? then s.pcs[t].mine + s.pcs[t].actual else s.pcs[t].mine;
    var n := if s.pcs[t].GiveBackSome? then s.pcs[t].desired - s.pcs[t].actual else s.pcs[t].desired;
    CountMark(s.tickets, from, n, Returned);
    GrantsKept(s.tickets, s'.tickets, s.tail, s'.tail, t);
    LocalsStep(s, s', t);
  }

  lemma ClaimSlotsStep<T>(s: State<T>, t: Tid)
    requires Inv(s) && t < |s.pcs| && s.pcs[t].ClaimSlots?
    ensures Inv(Apply(s, Run(t)))
  {
    var s' := Apply(s, Run(t));
    assert LocalOk(s, t, s.pcs[t]);
    SumUpdate(s.pcs, t, s'.pcs[t], InFlight);
    CountMark(s.tickets, s.pcs[t].mine, s.pcs[t].actual, Claimed(t));
    GrantsKept(s.tickets, s'.tickets, s.tail, s'.tail, t);
    LocalsStep(s, s', t);
  }

  /** Steps that only read shared counters. */
  lemma ReadStep<T>(s: State<T>, t: Tid)
    requires Inv(s) && t < |s.pcs| && (s.pcs[t].LoadTail? || s.pcs[t].LoadOvercommit? || s.pcs[t].LoadOptimistic? ||
      s.pcs[t].Taking?)
    ensures Inv(Apply(s, Run(t)))
  {
    var s' := Apply(s, Run(t));
    assert LocalOk(s, t, s.pcs[t]);
    SumUpdate(s.pcs, t, s'.pcs[t], InFlight);
    LocalsStep(s, s', t);
  }

  lemma InitialInv<T>(s: State<T>)
    requires Initial(s)
    ensures Inv(s)
  {
    SumAll(s.pcs, InFlight, 0);
  }

  /** Every step of the producer and of every consumer keeps the invariant. */
  lemma StepKeepsInv<T>(s: State<T>, a: Action<T>)
    requires Inv(s) && Enabled(s, a)
    ensures Inv(Apply(s, a))
  {
    match a {
      case Enqueue(xs) =>
        var s' := Apply(s, a);
        GrantsKept(s.tickets, s'.tickets, s.tail, s'.tail, 0);
        forall u | 0 <= u < |s'.pcs| ensures LocalOk(s', u, s'.pcs[u]) {
          assert LocalOk(s, u, s.pcs[u]);
        }
      case CallDequeue(t, max) =>
        SumUpdate(s.pcs, t, LoadTail(max), InFlight);
        LocalsStep(s, Apply(s, a), t);
      case Run(t) =>
        match s.pcs[t] {
          case TakeTickets(_, _) => TakeTicketsStep(s, t);
          case ReloadTail(over, _, mine) =>
            if 0 < s.tail - (mine - over) { ReloadTailGrants(s, t); } else { ReloadTailDenies(s, t); }
          case GiveBackSome(_, _, _) => GiveBackStep(s, t);
          case GiveBackAll(_, _) => GiveBackStep(s, t);
          case ClaimSlots(_, _) => ClaimSlotsStep(s, t);
          case _ => ReadStep(s, t);
        }
    }
  }
}
