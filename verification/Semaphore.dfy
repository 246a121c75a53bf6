/** `LightweightSemaphore`: a user-space count over a kernel semaphore.  Every atomic access and every kernel call is
    one step; any number of threads wait, wait in bulk, time out and signal.  `wait` is `waitMany` with a maximum
    of one. */
module Semaphore {
  type Tid = nat

  datatype Mode = NoWait | ZeroTimeout | Timed | Forever

  datatype Call = Call(max: nat, mode: Mode)

  /** `got` permits are already in hand; a `Holding` thread has returned `got` to its caller, which has yet to make
      use of `left` of them. */
  datatype PC =
    | Idle
    | TryLoad(c: Call, got: nat)
    | TryCas(c: Call, got: nat, seen: int)
    | SpinLoad(c: Call, spins: nat)
    | SpinCas(c: Call, spins: nat, seen: int)
    | Sub(c: Call)
    | Kernel(c: Call)
    | UndoLoad(c: Call)
    | UndoTake(c: Call)
    | UndoCas(c: Call, seen: int)
    | Holding(c: Call, got: nat, left: nat, gaveUp: bool)
    | SignalAdd(n: nat)
    | SignalPost(n: nat)

  /** `count` is `m_count`, `kernel` the kernel semaphore's value.  Auxiliary: permits there were to begin with,
      ever signalled, ever acquired, and ever returned to a caller that has since moved on. */
  datatype State = State(
    count: int,
    kernel: nat,
    maxSpins: nat,
    pcs: seq<PC>,
    initial: nat,
    signalled: nat,
    acquired: nat,
    handed: nat)

  datatype Action =
    | CallWait(t: Tid, c: Call)
    | CallSignal(t: Tid, n: nat)
    | Run(t: Tid)
    | SpuriousCas(t: Tid)
    | KernelFails(t: Tid)
    | Use(t: Tid, k: nat)

  predicate Initial(s: State) {
    && s.count == s.initial && s.kernel == 0 && s.signalled == s.acquired == s.handed == 0
    && forall t :: 0 <= t < |s.pcs| ==> s.pcs[t] == Idle
  }

  predicate Enabled(s: State, a: Action) {
    match a
    case CallWait(t, _) => t < |s.pcs| && s.pcs[t] == Idle
    case CallSignal(t, _) => t < |s.pcs| && s.pcs[t] == Idle
    case Run(t) =>
      t < |s.pcs| && s.pcs[t] != Idle && (s.pcs[t].Kernel? ==> s.kernel > 0) &&
        (s.pcs[t].Holding? ==> s.pcs[t].left == 0)
    case SpuriousCas(t) => t < |s.pcs| && s.pcs[t].TryCas?
    // a timeout, or a failing kernel call
    case KernelFails(t) => t < |s.pcs| && s.pcs[t].Kernel?
    case Use(t, k) => t < |s.pcs| && s.pcs[t].Holding? && k <= s.pcs[t].left
  }

  function Hold(c: Call, got: nat): PC {
    Holding(c, got, got, false)
  }

  /** What is left of `seen` when up to `max` are taken. */
  function TakeFrom(seen: int, max: nat): int {
    if seen > max then seen - max else 0
  }

  /** One permit obtained while waiting; a bulk wait then tries for the rest. */
  function GotOne(c: Call): PC {
    if c.max > 1 then TryLoad(c, 1) else Hold(c, 1)
  }

  /** `tryWaitMany` found nothing: its caller returns, or starts waiting. */
  function NothingThere(c: Call, got: nat, maxSpins: nat): PC {
    if got == 0 && c.max > 0 && c.mode != NoWait then SpinLoad(c, maxSpins) else Hold(c, got)
  }

  function Retry(c: Call, got: nat, count: int, maxSpins: nat): PC {
    if count > 0 then TryCas(c, got, count) else NothingThere(c, got, maxSpins)
  }

  function Apply(s: State, a: Action): State
    requires Enabled(s, a)
  {
    match a
    case CallWait(t, c) => s.(pcs := s.pcs[t := TryLoad(c, 0)])
    case CallSignal(t, n) => s.(pcs := s.pcs[t := SignalAdd(n)])
    case Run(t) => RunThread(s, t, s.pcs[t])
    case SpuriousCas(t) => s.(pcs := s.pcs[t := Retry(s.pcs[t].c, s.pcs[t].got, s.count, s.maxSpins)])
    case KernelFails(t) => s.(pcs := s.pcs[t := UndoLoad(s.pcs[t].c)])
    case Use(t, k) =>
      var Holding(c, got, left, gaveUp) := s.pcs[t];
      s.(pcs := s.pcs[t := Holding(c, got, left - k, gaveUp)])
  }

  function RunThread(s: State, t: Tid, pc: PC): State
    requires t < |s.pcs|
  {
    match pc
    case Idle => s
    case TryLoad(c, got) => s.(pcs := s.pcs[t := Retry(c, got, s.count, s.maxSpins)])
    case TryCas(c, got, seen) =>
      if s.count == seen then
        var rest := if c.max >= got then c.max - got else 0;
        var taken := seen - TakeFrom(seen, rest);
        s.(count := TakeFrom(seen, rest),
          acquired := if taken >= 0 then s.acquired + taken else s.acquired,
          pcs := s.pcs[t := if taken > 0 || got > 0 then Hold(c, if taken > 0 then got + taken else got)
            else NothingThere(c, got, s.maxSpins)])
      else
        s.(pcs := s.pcs[t := Retry(c, got, s.count, s.maxSpins)])
    case SpinLoad(c, spins) =>
      s.(pcs := s.pcs[t := if spins == 0 then Sub(c) else if s.count > 0 then SpinCas(c, spins - 1, s.count)
        else SpinLoad(c, spins - 1)])
    case SpinCas(c, spins, seen) =>
      if s.count == seen then
        var taken := seen - TakeFrom(seen, c.max);
        s.(count := TakeFrom(seen, c.max),
          acquired := if taken >= 0 then s.acquired + taken else s.acquired,
          pcs := s.pcs[t := Hold(c, if taken >= 0 then taken else 0)])
      else
        s.(pcs := s.pcs[t := SpinLoad(c, spins)])
    case Sub(c) =>
      if s.count > 0 then
        s.(count := s.count - 1, acquired := s.acquired + 1, pcs := s.pcs[t := GotOne(c)])
      else
        s.(count := s.count - 1, pcs := s.pcs[t := if c.mode == ZeroTimeout then UndoLoad(c) else Kernel(c)])
    case Kernel(c) =>
      if s.kernel > 0 then s.(kernel := s.kernel - 1, acquired := s.acquired + 1, pcs := s.pcs[t := GotOne(c)]) else s
    // the wait failed, but the count still says that this thread is waiting
    case UndoLoad(c) => s.(pcs := s.pcs[t := if s.count >= 0 then UndoTake(c) else UndoCas(c, s.count)])
    case UndoTake(c) =>
      if s.kernel > 0 then
        s.(kernel := s.kernel - 1, acquired := s.acquired + 1, pcs := s.pcs[t := GotOne(c)])
      else
        s.(pcs := s.pcs[t := UndoLoad(c)])
    case UndoCas(c, seen) =>
      if s.count == seen then
        s.(count := s.count + 1, pcs := s.pcs[t := Holding(c, 0, 0, true)])
      else
        s.(pcs := s.pcs[t := UndoLoad(c)])
    case Holding(c, got, left, gaveUp) => s.(handed := s.handed + got, pcs := s.pcs[t := Idle])
    case SignalAdd(n) =>
      var release := if -s.count < n then -s.count else n;
      s.(count := s.count + n, signalled := s.signalled + n, pcs :=
        s.pcs[t := if release > 0 then SignalPost(release) else Idle])
    case SignalPost(n) =>
      s.(kernel := s.kernel + 1, pcs := s.pcs[t := if n > 1 then SignalPost(n - 1) else Idle])
  }
}

module SemaphoreInvariant {
  import opened Sums
  import opened Semaphore

  /** Counted in `m_count` as waiting. */
  function Waits(pc: PC): int {
    if pc.Kernel? || pc.UndoLoad? || pc.UndoTake? || pc.UndoCas? then 1 else 0
  }

  /** Kernel posts this thread has decided on but not made. */
  function Pending(pc: PC): int {
    match pc
    case SignalPost(n) => n
    case _ => 0
  }

  /** Permits obtained and not yet accounted to the past. */
  function InHand(pc: PC): int {
    match pc
    case TryLoad(_, got) => got
    case TryCas(_, got, _) => got
    case Holding(_, got, _, _) => got
    case _ => 0
  }

  function Max(a: int, b: int): int {
    if a > b then a else b
  }

  ghost predicate LocalOk(pc: PC) {
    match pc
    case TryLoad(c, got) => got == 0 || (got == 1 && c.max > 1)
    case TryCas(c, got, seen) => seen > 0 && (got == 0 || (got == 1 && c.max > 1))
    case SpinLoad(c, _) => c.max > 0 && c.mode != NoWait
    case SpinCas(c, _, seen) => c.max > 0 && c.mode != NoWait && seen > 0
    case Sub(c) => c.max > 0 && c.mode != NoWait
    case Kernel(c) => c.max > 0 && (c.mode == Timed || c.mode == Forever)
    case UndoLoad(c) => c.max > 0 && c.mode != NoWait
    case UndoTake(c) => c.max > 0 && c.mode != NoWait
    case UndoCas(c, seen) => c.max > 0 && c.mode != NoWait && seen < 0
    case Holding(c, got, left, gaveUp) =>
      left <= got <= c.max && (gaveUp ==> got == 0) && (got == 0 ==> c.max == 0 || c.mode == NoWait || gaveUp)
    case SignalPost(n) => n > 0
    case _ => true
  }

  ghost predicate Locals(pcs: seq<PC>) {
    forall t :: 0 <= t < |pcs| ==> LocalOk(pcs[t])
  }

  /** Every thread that waits is either a deficit of the count, or has a permit in the kernel or on its way there. */
  ghost predicate WaitersBalance(s: State) {
    Sum(s.pcs, Waits) == Max(0, -s.count) + s.kernel + Sum(s.pcs, Pending)
  }

  ghost predicate PermitsBalance(s: State) {
    s.acquired == s.initial + s.signalled - Max(s.count, 0) - s.kernel - Sum(s.pcs, Pending)
  }

  ghost predicate Inv(s: State) {
    && Locals(s.pcs) && WaitersBalance(s) && PermitsBalance(s)
    && s.acquired == s.handed + Sum(s.pcs, InHand)
  }

  lemma InitialInv(s: State)
    requires Initial(s)
    ensures Inv(s)
  {
    SumAll(s.pcs, Waits, 0);
    SumAll(s.pcs, Pending, 0);
    SumAll(s.pcs, InHand, 0);
  }

  /** Only thread `t` moved. */
  lemma SumsMove(s: State, s': State, t: Tid)
    requires t < |s.pcs| == |s'.pcs| && s'.pcs == s.pcs[t := s'.pcs[t]]
    ensures Sum(s'.pcs, Waits) == Sum(s.pcs, Waits) - Waits(s.pcs[t]) + Waits(s'.pcs[t])
    ensures Sum(s'.pcs, Pending) == Sum(s.pcs, Pending) - Pending(s.pcs[t]) + Pending(s'.pcs[t])
    ensures Sum(s'.pcs, InHand) == Sum(s.pcs, InHand) - InHand(s.pcs[t]) + InHand(s'.pcs[t])
  {
    SumUpdate(s.pcs, t, s'.pcs[t], Waits);
    SumUpdate(s.pcs, t, s'.pcs[t], Pending);
    SumUpdate(s.pcs, t, s'.pcs[t], InHand);
  }

  predicate Acquiring(pc: PC) {
    pc.TryLoad? || pc.TryCas? || pc.SpinLoad? || pc.SpinCas? || pc.Sub?
  }

  /** A step moves nobody else, and its own thread to a place it may be in. */
  ghost predicate MovesOnly(s: State, t: Tid)
    requires t < |s.pcs|
  {
    var s' := RunThread(s, t, s.pcs[t]);
    |s'.pcs| == |s.pcs| && s'.pcs == s.pcs[t := s'.pcs[t]] && LocalOk(s'.pcs[t])
  }

  lemma AcquireMoves(s: State, t: Tid)
    requires Locals(s.pcs) && t < |s.pcs| && Acquiring(s.pcs[t])
    ensures MovesOnly(s, t)
  {
    assert LocalOk(s.pcs[t]);
  }

  lemma WaitMoves(s: State, t: Tid)
    requires Locals(s.pcs) && t < |s.pcs| && !Acquiring(s.pcs[t])
    ensures MovesOnly(s, t)
  {
    assert LocalOk(s.pcs[t]);
  }

  lemma AcquireStep(s: State, t: Tid)
    requires Inv(s) && t < |s.pcs| && Acquiring(s.pcs[t])
    requires MovesOnly(s, t)
    ensures Inv(RunThread(s, t, s.pcs[t]))
  {
    hide Inv, RunThread, MovesOnly;
    if s.pcs[t].TryLoad? || s.pcs[t].TryCas? { TryStep(s, t); }
    else if s.pcs[t].Sub? { SubStep(s, t); }
    else { SpinStep(s, t); }
  }

  lemma TryStep(s: State, t: Tid)
    requires Inv(s) && t < |s.pcs| && (s.pcs[t].TryLoad? || s.pcs[t].TryCas?) && MovesOnly(s, t)
    ensures Inv(RunThread(s, t, s.pcs[t]))
  {
    assert LocalOk(s.pcs[t]);
    hide Locals, Sum;
    SumsMove(s, RunThread(s, t, s.pcs[t]), t);
    LocalsMove(s.pcs, t, RunThread(s, t, s.pcs[t]).pcs[t]);
  }

  lemma SubStep(s: State, t: Tid)
    requires Inv(s) && t < |s.pcs| && s.pcs[t].Sub? && MovesOnly(s, t)
    ensures Inv(RunThread(s, t, s.pcs[t]))
  {
    assert LocalOk(s.pcs[t]);
    hide Locals, Sum;
    SumsMove(s, RunThread(s, t, s.pcs[t]), t);
    LocalsMove(s.pcs, t, RunThread(s, t, s.pcs[t]).pcs[t]);
  }

  lemma SpinStep(s: State, t: Tid)
    requires Inv(s) && t < |s.pcs| && (s.pcs[t].SpinLoad? || s.pcs[t].SpinCas?) && MovesOnly(s, t)
    ensures Inv(RunThread(s, t, s.pcs[t]))
  {
    assert LocalOk(s.pcs[t]);
    hide Locals, Sum;
    SumsMove(s, RunThread(s, t, s.pcs[t]), t);
    LocalsMove(s.pcs, t, RunThread(s, t, s.pcs[t]).pcs[t]);
  }

  lemma LocalsMove(pcs: seq<PC>, t: Tid, pc: PC)
    requires Locals(pcs) && t < |pcs| && LocalOk(pc)
    ensures Locals(pcs[t := pc])
  {
  }

  lemma WaitStep(s: State, t: Tid)
    requires Inv(s) && t < |s.pcs| && !Acquiring(s.pcs[t])
    requires MovesOnly(s, t)
    ensures Inv(RunThread(s, t, s.pcs[t]))
  {
    hide Inv, RunThread, MovesOnly;
    if Undoes(s.pcs[t]) { UndoStep(s, t); } else { OtherStep(s, t); }
  }

  predicate Undoes(pc: PC) {
    pc.UndoLoad? || pc.UndoTake? || pc.UndoCas?
  }

  lemma UndoStep(s: State, t: Tid)
    requires Inv(s) && t < |s.pcs| && Undoes(s.pcs[t]) && MovesOnly(s, t)
    ensures Inv(RunThread(s, t, s.pcs[t]))
  {
    assert LocalOk(s.pcs[t]);
    hide Locals, Sum;
    SumsMove(s, RunThread(s, t, s.pcs[t]), t);
    LocalsMove(s.pcs, t, RunThread(s, t, s.pcs[t]).pcs[t]);
  }

  lemma OtherStep(s: State, t: Tid)
    requires Inv(s) && t < |s.pcs| && !Acquiring(s.pcs[t]) && !Undoes(s.pcs[t]) && MovesOnly(s, t)
    ensures Inv(RunThread(s, t, s.pcs[t]))
  {
    assert LocalOk(s.pcs[t]);
    hide Locals, Sum;
    SumsMove(s, RunThread(s, t, s.pcs[t]), t);
    LocalsMove(s.pcs, t, RunThread(s, t, s.pcs[t]).pcs[t]);
  }

  lemma StepKeepsInv(s: State, a: Action)
    requires Inv(s) && Enabled(s, a)
    ensures Inv(Apply(s, a))
  {
    if a.Run? {
      var t := a.t;
      assert Locals(s.pcs);
      hide Inv, RunThread, MovesOnly;
      if Acquiring(s.pcs[t]) { AcquireMoves(s, t); AcquireStep(s, t); } else { WaitMoves(s, t); WaitStep(s, t); }
    } else {
      SumsMove(s, Apply(s, a), a.t);
    }
  }
}
