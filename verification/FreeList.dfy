/** The lock-free free list of `concurrentqueue.h`: a CAS stack whose nodes carry a reference count and a
    "should be on the free list" bit.  Every atomic access is one step; any number of threads interleave. */
module FreeList {
  import opened Options

  type Tid = nat
  type Node = nat

  /** The top bit of `freeListRefs`; the bits below it are the reference count. */
  const SHOULD_BE_ON_FREELIST: nat := 0x80000000

  function CountBits(refs: nat): nat {
    refs % SHOULD_BE_ON_FREELIST
  }

  /** What a thread does after a push: return from `add`, or go on in `try_get` with the head it last read. */
  datatype Resume = Return | Retry(head: Option<Node>)

  /** A thread's program counter: the atomic access it performs next, with the local variables it needs. */
  datatype PC =
    | Idle
    | AddFlag(node: Node)
    | PushHead(node: Node, k: Resume)
    | PushNext(node: Node, seen: Option<Node>, k: Resume)
    | PushRefs(node: Node, seen: Option<Node>, k: Resume)
    | PushCas(node: Node, seen: Option<Node>, k: Resume)
    | PushUndo(node: Node, seen: Option<Node>, k: Resume)
    | GetHead
    | GetRefs(node: Node)
    | GetTakeRef(node: Node, refs: nat)
    | GetNext(node: Node)
    | GetCas(node: Node, seen: Option<Node>)
    | GetDone(node: Node)
    | GetDrop(node: Node, seen: Option<Node>)

  /** Auxiliary: the one place a node is in. */
  datatype Place =
    | Held
    | Adding(t: Tid)
    | Pushing(t: Tid)
    | Flagged
    | Listed
    | Popped(t: Tid)

  /** `head`, `refs` and `next` are the shared atomics; `chain` and `place` are auxiliary. */
  datatype State = State(
    head: Option<Node>,
    refs: map<Node, nat>,
    next: map<Node, Option<Node>>,
    pcs: map<Tid, PC>,
    chain: seq<Node>,
    place: map<Node, Place>)

  datatype Action =
    | NewNode(node: Node)
    | CallAdd(t: Tid, node: Node)
    | CallGet(t: Tid)
    | Run(t: Tid)

  predicate Initial(s: State) {
    && s.head == None && s.refs == map[] && s.next == map[] && s.chain == [] && s.place == map[]
    && (forall t :: t in s.pcs ==> s.pcs[t] == Idle)
    && |s.pcs| + 1 < SHOULD_BE_ON_FREELIST
  }

  /** A caller adds only a node it holds; everything else is always allowed. */
  predicate Enabled(s: State, a: Action) {
    match a
    case NewNode(n) => n !in s.refs && n !in s.place
    case CallAdd(t, n) => t in s.pcs && s.pcs[t] == Idle && n in s.place && s.place[n] == Held
    case CallGet(t) => t in s.pcs && s.pcs[t] == Idle
    case Run(t) => t in s.pcs && s.pcs[t] != Idle
  }

  /** The top of `try_get`'s loop with the local variable `head` in hand. */
  function Loop(head: Option<Node>): PC {
    if head == None then Idle else GetRefs(head.value)
  }

  function Resumed(k: Resume): PC {
    match k
    case Return => Idle
    case Retry(head) => Loop(head)
  }

  function Apply(s: State, a: Action): State {
    match a
    case NewNode(n) =>
      s.(refs := s.refs[n := 0], next := s.next[n := None], place := s.place[n := Held])
    case CallAdd(t, n) => s.(pcs := s.pcs[t := AddFlag(n)], place := s.place[n := Adding(t)])
    case CallGet(t) => s.(pcs := s.pcs[t := GetHead])
    case Run(t) => if t in s.pcs then RunThread(s, t, s.pcs[t]) else s
  }

  function RefsOf(s: State, n: Node): nat {
    if n in s.refs then s.refs[n] else 0
  }

  /** A 32-bit subtraction that does not go below zero; `FreeListTheorems.NoWrap` shows that the clamp is never
      taken. */
  function Minus(refs: nat, d: nat): nat {
    if d <= refs then refs - d else 0
  }

  function RunThread(s: State, t: Tid, pc: PC): State {
    match pc
    case Idle => s
    // add: fetch_add of the bit; whoever finds the count at zero pushes
    case AddFlag(n) =>
      var was := RefsOf(s, n);
      if was == 0 then
        s.(refs := s.refs[n := SHOULD_BE_ON_FREELIST], pcs := s.pcs[t := PushHead(n, Return)], place :=
          s.place[n := Pushing(t)])
      else
        s.(refs := s.refs[n := was + SHOULD_BE_ON_FREELIST], pcs := s.pcs[t := Idle], place := s.place[n := Flagged])
    // add_knowing_refcount_is_zero
    case PushHead(n, k) => s.(pcs := s.pcs[t := PushNext(n, s.head, k)])
    case PushNext(n, h, k) => s.(next := s.next[n := h], pcs := s.pcs[t := PushRefs(n, h, k)])
    case PushRefs(n, h, k) => s.(refs := s.refs[n := 1], pcs := s.pcs[t := PushCas(n, h, k)])
    case PushCas(n, h, k) =>
      if s.head == h then
        s.(head := Some(n), pcs := s.pcs[t := Resumed(k)], chain := [n] + s.chain, place := s.place[n := Listed])
      else
        s.(pcs := s.pcs[t := PushUndo(n, s.head, k)])
    case PushUndo(n, h, k) =>
      var was := RefsOf(s, n);
      var refs' := s.refs[n := was + SHOULD_BE_ON_FREELIST - 1];
      if was == 1 then
        s.(refs := refs', pcs := s.pcs[t := PushNext(n, h, k)])
      else
        s.(refs := refs', pcs := s.pcs[t := Resumed(k)], place := s.place[n := Flagged])
    // try_get
    case GetHead => s.(pcs := s.pcs[t := Loop(s.head)])
    case GetRefs(n) =>
      var r := RefsOf(s, n);
      s.(pcs := s.pcs[t := if CountBits(r) == 0 then GetHead else GetTakeRef(n, r)])
    case GetTakeRef(n, r) =>
      if RefsOf(s, n) == r then
        s.(refs := s.refs[n := r + 1], pcs := s.pcs[t := GetNext(n)])
      else
        s.(pcs := s.pcs[t := GetHead])
    case GetNext(n) =>
      s.(pcs := s.pcs[t := GetCas(n, if n in s.next then s.next[n] else None)])
    case GetCas(n, nx) =>
      if s.head == Some(n) then
        s.(head := nx, pcs := s.pcs[t := GetDone(n)], chain := if s.chain == [] then []
          else s.chain[1..], place := s.place[n := Popped(t)])
      else
        s.(pcs := s.pcs[t := GetDrop(n, s.head)])
    case GetDone(n) =>
      s.(refs := s.refs[n := Minus(RefsOf(s, n), 2)], pcs := s.pcs[t := Idle], place := s.place[n := Held])
    case GetDrop(n, h) =>
      var was := RefsOf(s, n);
      var refs' := s.refs[n := Minus(was, 1)];
      if was == SHOULD_BE_ON_FREELIST + 1 then
        s.(refs := refs', pcs := s.pcs[t := PushHead(n, Retry(h))], place := s.place[n := Pushing(t)])
      else
        s.(refs := refs', pcs := s.pcs[t := Loop(h)])
  }
}

/** What holds in every reachable state of the free list, and that every step keeps it. */
module FreeListInvariant {
  import opened Options
  import opened FreeList

  /** The node a thread holds a reader's reference on. */
  function RefOn(pc: PC): Option<Node> {
    match pc
    case GetNext(n) => Some(n)
    case GetCas(n, _) => Some(n)
    case GetDone(n) => Some(n)
    case GetDrop(n, _) => Some(n)
    case _ => None
  }

  ghost function Readers(s: State, n: Node): set<Tid> {
    set t | t in s.pcs && RefOn(s.pcs[t]) == Some(n)
  }

  /** The node a thread alone is responsible for, with the place that says so. */
  function Owns(pc: PC, t: Tid): Option<(Node, Place)> {
    match pc
    case AddFlag(n) => Some((n, Adding(t)))
    case PushHead(n, _) => Some((n, Pushing(t)))
    case PushNext(n, _, _) => Some((n, Pushing(t)))
    case PushRefs(n, _, _) => Some((n, Pushing(t)))
    case PushCas(n, _, _) => Some((n, Pushing(t)))
    case PushUndo(n, _, _) => Some((n, Pushing(t)))
    case GetDone(n) => Some((n, Popped(t)))
    case _ => None
  }

  function Owner(p: Place): Option<Tid> {
    match p
    case Adding(t) => Some(t)
    case Pushing(t) => Some(t)
    case Popped(t) => Some(t)
    case _ => None
  }

  /** The pusher has not yet set the count back to one. */
  predicate BeforeRefs(pc: PC) {
    pc.PushHead? || pc.PushNext? || pc.PushRefs?
  }

  ghost predicate EarlyPush(s: State, n: Node) {
    n in s.place && s.place[n].Pushing? && s.place[n].t in s.pcs && BeforeRefs(s.pcs[s.place[n].t])
  }

  /** The list's own reference: while the node is listed, and from the moment a pusher stores one. */
  ghost function ListRef(s: State, n: Node): nat {
    if n !in s.place then 0 else
    match s.place[n]
    case Listed => 1
    case Popped(_) => 1
    case Pushing(_) => if EarlyPush(s, n) then 0 else 1
    case _ => 0
  }

  ghost predicate FlagSet(s: State, n: Node) {
    n in s.place && (s.place[n] == Flagged || EarlyPush(s, n))
  }

  ghost function Word(flag: bool, count: nat): nat {
    (if flag then SHOULD_BE_ON_FREELIST else 0) + count
  }

  ghost predicate Domains(s: State) {
    && s.refs.Keys == s.next.Keys == s.place.Keys
    && |s.pcs| + 1 < SHOULD_BE_ON_FREELIST
  }

  function After(chain: seq<Node>, i: nat): Option<Node> {
    if i + 1 < |chain| then Some(chain[i + 1]) else None
  }

  /** Following `next` from the first node visits `chain`, all different, and ends in null. */
  ghost predicate Linked(chain: seq<Node>, next: map<Node, Option<Node>>) {
    && (forall i :: 0 <= i < |chain| ==> chain[i] in next && next[chain[i]] == After(chain, i))
    && (forall i, j :: 0 <= i < j < |chain| ==> chain[i] != chain[j])
  }

  ghost predicate ExactlyListed(chain: seq<Node>, place: map<Node, Place>) {
    && (forall n :: n in chain ==> n in place && place[n] == Listed)
    && (forall n :: n in place && place[n] == Listed ==> n in chain)
  }

  ghost predicate Chained(s: State) {
    && s.head == (if |s.chain| == 0 then None else Some(s.chain[0]))
    && Linked(s.chain, s.next)
    && ExactlyListed(s.chain, s.place)
  }

  ghost predicate Owned(s: State) {
    && (forall t :: t in s.pcs && Owns(s.pcs[t], t).Some? ==>
          Owns(s.pcs[t], t).value.0 in s.place && s.place[Owns(s.pcs[t], t).value.0] == Owns(s.pcs[t], t).value.1)
    && (forall n :: n in s.place && Owner(s.place[n]).Some? ==>
          Owner(s.place[n]).value in s.pcs && Owns(s.pcs[Owner(s.place[n]).value], Owner(s.place[n]).value) ==
            Some((n, s.place[n])))
  }

  ghost predicate CountOk(s: State, n: Node) {
    && n in s.place && n in s.refs
    && s.refs[n] == Word(FlagSet(s, n), |Readers(s, n)| + ListRef(s, n))
    && (EarlyPush(s, n) ==> Readers(s, n) == {})
    && (s.place[n] == Flagged ==> Readers(s, n) != {})
  }

  ghost predicate Counted(s: State) {
    forall n :: n in s.place ==> CountOk(s, n)
  }

  function Touches(pc: PC): Option<Node> {
    match pc
    case Idle => None
    case GetHead => None
    case AddFlag(n) => Some(n)
    case PushHead(n, _) => Some(n)
    case PushNext(n, _, _) => Some(n)
    case PushRefs(n, _, _) => Some(n)
    case PushCas(n, _, _) => Some(n)
    case PushUndo(n, _, _) => Some(n)
    case GetRefs(n) => Some(n)
    case GetTakeRef(n, _) => Some(n)
    case GetNext(n) => Some(n)
    case GetCas(n, _) => Some(n)
    case GetDone(n) => Some(n)
    case GetDrop(n, _) => Some(n)
  }

  predicate Known(s: State, n: Option<Node>) {
    n.Some? ==> n.value in s.place
  }

  predicate LocalOk(s: State, pc: PC) {
    && Known(s, Touches(pc))
    && (match pc
        case PushHead(_, Retry(h)) => Known(s, h)
        case PushNext(_, h, k) => Known(s, h) && (k.Retry? ==> Known(s, k.head))
        case PushRefs(n, h, k) => Known(s, h) && (k.Retry? ==> Known(s, k.head)) && n in s.next && s.next[n] == h
        case PushCas(n, h, k) => Known(s, h) && (k.Retry? ==> Known(s, k.head)) && n in s.next && s.next[n] == h
        case PushUndo(_, h, k) => Known(s, h) && (k.Retry? ==> Known(s, k.head))
        case GetTakeRef(_, r) => CountBits(r) != 0
        case GetCas(n, nx) => n in s.next && s.next[n] == nx
        case GetDrop(_, h) => Known(s, h)
        case _ => true)
  }

  ghost predicate Locals(s: State) {
    && (forall t :: t in s.pcs ==> LocalOk(s, s.pcs[t]))
    && (forall n :: n in s.next ==> Known(s, s.next[n]))
    && Known(s, s.head)
  }

  ghost predicate Inv(s: State) {
    Domains(s) && Chained(s) && Owned(s) && Counted(s) && Locals(s)
  }

  lemma InitialInv(s: State)
    requires Initial(s)
    ensures Inv(s)
  {
  }

  /** How one thread's step changes the readers of a node. */
  lemma ReadersStep(s: State, s': State, t: Tid, n: Node)
    requires t in s.pcs && t in s'.pcs && s'.pcs == s.pcs[t := s'.pcs[t]]
    ensures Readers(s', n) == (if RefOn(s'.pcs[t]) == Some(n) then Readers(s, n) + {t} else Readers(s, n) - {t})
    ensures t in Readers(s, n) <==> RefOn(s.pcs[t]) == Some(n)
    ensures |Readers(s', n)| + (if RefOn(s.pcs[t]) == Some(n) then 1 else 0) ==
      |Readers(s, n)| + (if RefOn(s'.pcs[t]) == Some(n) then 1 else 0)
  {
    assert Readers(s', n) == (if RefOn(s'.pcs[t]) == Some(n) then Readers(s, n) + {t} else Readers(s, n) - {t});
    if t in Readers(s, n) {
      assert Readers(s, n) == (Readers(s, n) - {t}) + {t};
    } else {
      assert Readers(s, n) - {t} == Readers(s, n);
    }
  }

  lemma ReadersBound(s: State, n: Node)
    ensures |Readers(s, n)| <= |s.pcs|
  {
    assert Readers(s, n) <= s.pcs.Keys;
    CardinalityMonotone(Readers(s, n), s.pcs.Keys);
    assert |s.pcs.Keys| == |s.pcs|;
  }

  lemma CardinalityMonotone<T>(a: set<T>, b: set<T>)
    requires a <= b
    ensures |a| <= |b|
  {
    var c := b - a;
    assert b == a + c;
  }

  /** A step of thread `t` about node `n` that leaves the list itself alone. */
  ghost predicate Local(s: State, s': State, t: Tid, n: Node) {
    && t in s.pcs && t in s'.pcs && s'.pcs == s.pcs[t := s'.pcs[t]]
    && n in s.place && n in s'.place && s'.place == s.place[n := s'.place[n]]
    && n in s.refs && n in s'.refs && s'.refs == s.refs[n := s'.refs[n]]
    && n in s.next && n in s'.next && s'.next == s.next[n := s'.next[n]]
  }

  /** What the step must establish about ownership of `n`. */
  ghost predicate OwnershipOk(s: State, s': State, t: Tid, n: Node)
    requires Local(s, s', t, n)
  {
    || (s'.place[n] == s.place[n] && Owns(s.pcs[t], t) == Owns(s'.pcs[t], t) == None)
    || OwnershipMoves(s, s', t, n)
  }

  ghost predicate OwnershipMoves(s: State, s': State, t: Tid, n: Node)
    requires Local(s, s', t, n)
  {
    && (Owner(s.place[n]).Some? ==> Owner(s.place[n]).value == t)
    && (Owns(s.pcs[t], t).Some? ==> Owns(s.pcs[t], t).value.0 == n)
    && (Owner(s'.place[n]).Some? ==> Owner(s'.place[n]).value == t)
    && Owns(s'.pcs[t], t) == (if Owner(s'.place[n]).Some? then Some((n, s'.place[n])) else None)
  }

  lemma OwnedStep(s: State, s': State, t: Tid, n: Node)
    requires Owned(s) && Local(s, s', t, n) && OwnershipOk(s, s', t, n)
    ensures Owned(s')
  {
    forall u | u in s'.pcs && Owns(s'.pcs[u], u).Some?
      ensures Owns(s'.pcs[u], u).value.0 in s'.place &&
        s'.place[Owns(s'.pcs[u], u).value.0] == Owns(s'.pcs[u], u).value.1
    {
      if u != t {
        var m := Owns(s.pcs[u], u).value.0;
        assert s.place[m] == Owns(s.pcs[u], u).value.1;
        assert Owner(s.place[m]) == Some(u);
      }
    }
    forall m | m in s'.place && Owner(s'.place[m]).Some?
      ensures Owner(s'.place[m]).value in s'.pcs &&
        Owns(s'.pcs[Owner(s'.place[m]).value], Owner(s'.place[m]).value) == Some((m, s'.place[m]))
    {
      if m != n {
        assert s'.place[m] == s.place[m];
      }
    }
  }

  /** A node the step does not concern keeps its count. */
  lemma CountedOther(s: State, s': State, t: Tid, n: Node, m: Node)
    requires CountOk(s, m) && Local(s, s', t, n) && m != n
    requires RefOn(s.pcs[t]) != Some(m) && RefOn(s'.pcs[t]) != Some(m)
    requires s.place[m] != Pushing(t)
    ensures CountOk(s', m)
  {
    ReadersStep(s, s', t, m);
    assert Readers(s', m) == Readers(s, m);
  }

  ghost predicate About(pc: PC, t: Tid, n: Node) {
    && (RefOn(pc).Some? ==> RefOn(pc).value == n)
    && (Owns(pc, t).Some? ==> Owns(pc, t).value.0 == n)
  }

  lemma CountedStep(s: State, s': State, t: Tid, n: Node)
    requires Counted(s) && Owned(s) && Local(s, s', t, n)
    requires About(s.pcs[t], t, n) && About(s'.pcs[t], t, n)
    requires CountOk(s', n)
    ensures Counted(s')
  {
    forall m | m in s'.place ensures CountOk(s', m) {
      if m != n {
        assert s.place[m] == Pushing(t) ==> Owner(s.place[m]) == Some(t);
        CountedOther(s, s', t, n, m);
      }
    }
  }

  /** The list is untouched when `n` is off the list before and after. */
  lemma ChainedFrame(s: State, s': State, t: Tid, n: Node)
    requires Chained(s) && Local(s, s', t, n)
    requires s'.head == s.head && s'.chain == s.chain
    requires (s.place[n] != Listed && s'.place[n] != Listed) || (s'.place[n] == s.place[n] && s'.next[n] == s.next[n])
    ensures Chained(s')
  {
  }

  lemma DomainsStep(s: State, s': State, t: Tid, n: Node)
    requires Domains(s) && Local(s, s', t, n)
    ensures Domains(s')
  {
    assert s'.pcs.Keys == s.pcs.Keys;
    assert |s'.pcs.Keys| == |s'.pcs| && |s.pcs.Keys| == |s.pcs|;
  }

  /** Locals of the other threads survive when `next[n]` changes only while nobody relies on it. */
  lemma LocalsStep(s: State, s': State, t: Tid, n: Node)
    requires Locals(s) && Local(s, s', t, n)
    requires LocalOk(s', s'.pcs[t]) && Known(s', s'.head) && Known(s', s'.next[n])
    requires s'.next[n] == s.next[n] || (Readers(s, n) == {} && s.place[n] == Pushing(t) && Owned(s))
    ensures Locals(s')
  {
    forall u | u in s'.pcs ensures LocalOk(s', s'.pcs[u]) {
      if u != t {
        assert LocalOk(s, s.pcs[u]);
        if s'.next[n] != s.next[n] {
          assert u !in Readers(s, n);
          if Owns(s.pcs[u], u).Some? && Owns(s.pcs[u], u).value.0 == n {
            assert s.place[n] == Owns(s.pcs[u], u).value.1;
          }
        }
      }
    }
  }

  /** The facts of the invariant about one thread and the node it works on. */
  ghost predicate Ground(s: State, t: Tid, n: Node) {
    && t in s.pcs && Touches(s.pcs[t]) == Some(n) && LocalOk(s, s.pcs[t])
    && n in s.refs && n in s.next && n in s.place && Known(s, s.next[n])
    && (Owns(s.pcs[t], t).Some? ==> s.place[n] == Owns(s.pcs[t], t).value.1)
    && (Owner(s.place[n]) == Some(t) ==> Owns(s.pcs[t], t).Some?)
    && (Owner(s.place[n]).Some? ==> Owner(s.place[n]).value in s.pcs)
    && CountOk(s, n)
    && |Readers(s, n)| + 1 < SHOULD_BE_ON_FREELIST
    && (RefOn(s.pcs[t]) == Some(n) <==> t in Readers(s, n))
  }

  lemma GroundHolds(s: State, t: Tid, n: Node)
    requires Inv(s) && t in s.pcs && Touches(s.pcs[t]) == Some(n)
    ensures Ground(s, t, n)
  {
    assert LocalOk(s, s.pcs[t]);
    ReadersBound(s, n);
  }

  /** A step that leaves head and chain alone and is right about thread `t` and node `n`. */
  ghost predicate LocalStepOk(s: State, s': State, t: Tid, n: Node) {
    && Local(s, s', t, n)
    && OwnershipOk(s, s', t, n)
    && About(s.pcs[t], t, n) && About(s'.pcs[t], t, n)
    && CountOk(s', n)
    && LocalOk(s', s'.pcs[t]) && Known(s', s'.next[n])
    && (s'.next[n] == s.next[n] || (Readers(s, n) == {} && s.place[n] == Pushing(t)))
  }

  ghost predicate ListKept(s: State, s': State, n: Node)
    requires n in s.place && n in s'.place && n in s.next && n in s'.next
  {
    && s'.head == s.head && s'.chain == s.chain
    && ((s.place[n] != Listed && s'.place[n] != Listed) || (s'.place[n] == s.place[n] && s'.next[n] == s.next[n]))
  }

  lemma Assemble(s: State, s': State, t: Tid, n: Node)
    requires Inv(s) && LocalStepOk(s, s', t, n) && Chained(s') && Known(s', s'.head)
    ensures Inv(s')
  {
    OwnedStep(s, s', t, n);
    CountedStep(s, s', t, n);
    DomainsStep(s, s', t, n);
    LocalsStep(s, s', t, n);
  }

  /** A step of a thread that owns and refers to nothing, and only moves on. */
  lemma OnlyPc(s: State, s': State, t: Tid, n: Node)
    requires Ground(s, t, n) && t in s'.pcs && s' == s.(pcs := s.pcs[t := s'.pcs[t]])
    requires RefOn(s.pcs[t]) == RefOn(s'.pcs[t]) == None && Owns(s.pcs[t], t) == Owns(s'.pcs[t], t) == None
    requires LocalOk(s, s'.pcs[t])
    ensures LocalStepOk(s, s', t, n) && ListKept(s, s', n)
  {
    hide CountOk;
    OnlyPcCount(s, s', t, n);
  }

  lemma OnlyPcCount(s: State, s': State, t: Tid, n: Node)
    requires Ground(s, t, n) && t in s'.pcs && s' == s.(pcs := s.pcs[t := s'.pcs[t]])
    requires RefOn(s.pcs[t]) == RefOn(s'.pcs[t]) == None && Owns(s.pcs[t], t) == Owns(s'.pcs[t], t) == None
    ensures CountOk(s', n)
  {
    hide Known;
    ReadersStep(s, s', t, n);
    assert Readers(s', n) == Readers(s, n);
  }

  lemma AddFlagLastRef(s: State, t: Tid, n: Node)
    requires Ground(s, t, n) && s.pcs[t] == AddFlag(n) && s.refs[n] == 0
    ensures LocalStepOk(s, Apply(s, Run(t)), t, n) && ListKept(s, Apply(s, Run(t)), n)
  {
    var s' := Apply(s, Run(t));
    ReadersStep(s, s', t, n);
    assert s'.pcs[t] == PushHead(n, Return) && s'.place[n] == Pushing(t);
  }

  lemma AddFlagDeferred(s: State, t: Tid, n: Node)
    requires Ground(s, t, n) && s.pcs[t] == AddFlag(n) && s.refs[n] != 0
    ensures LocalStepOk(s, Apply(s, Run(t)), t, n) && ListKept(s, Apply(s, Run(t)), n)
  {
    var s' := Apply(s, Run(t));
    ReadersStep(s, s', t, n);
    assert s'.pcs[t] == Idle && s'.place[n] == Flagged;
  }

  lemma PushHeadStep(s: State, t: Tid, n: Node)
    requires Ground(s, t, n) && s.pcs[t].PushHead?
    requires Known(s, s.head)
    ensures LocalStepOk(s, Apply(s, Run(t)), t, n) && ListKept(s, Apply(s, Run(t)), n)
  {
    ReadersStep(s, Apply(s, Run(t)), t, n);
  }

  lemma PushNextStep(s: State, t: Tid, n: Node)
    requires Ground(s, t, n) && s.pcs[t].PushNext?
    ensures LocalStepOk(s, Apply(s, Run(t)), t, n) && ListKept(s, Apply(s, Run(t)), n)
  {
    ReadersStep(s, Apply(s, Run(t)), t, n);
  }

  lemma PushRefsStep(s: State, t: Tid, n: Node)
    requires Ground(s, t, n) && s.pcs[t].PushRefs?
    ensures LocalStepOk(s, Apply(s, Run(t)), t, n) && ListKept(s, Apply(s, Run(t)), n)
  {
    ReadersStep(s, Apply(s, Run(t)), t, n);
  }

  lemma PushCasFails(s: State, t: Tid, n: Node)
    requires Ground(s, t, n) && s.pcs[t].PushCas? && s.head != s.pcs[t].seen
    requires Known(s, s.head)
    ensures LocalStepOk(s, Apply(s, Run(t)), t, n) && ListKept(s, Apply(s, Run(t)), n)
  {
    var s' := Apply(s, Run(t));
    assert s' == s.(pcs := s.pcs[t := PushUndo(n, s.head, s.pcs[t].k)]);
    ReadersStep(s, s', t, n);
  }

  lemma PushCasSucceeds(s: State, t: Tid, n: Node)
    requires Ground(s, t, n) && s.pcs[t].PushCas? && s.head == s.pcs[t].seen
    requires Known(s, s.head)
    ensures LocalStepOk(s, Apply(s, Run(t)), t, n)
  {
    var s' := Apply(s, Run(t));
    assert s'.pcs[t] == Resumed(s.pcs[t].k) && s'.place[n] == Listed;
    ReadersStep(s, s', t, n);
  }

  lemma PushUndoAgain(s: State, t: Tid, n: Node)
    requires Ground(s, t, n) && s.pcs[t].PushUndo? && s.refs[n] == 1
    ensures LocalStepOk(s, Apply(s, Run(t)), t, n) && ListKept(s, Apply(s, Run(t)), n)
  {
    var s' := Apply(s, Run(t));
    ReadersStep(s, s', t, n);
    assert Readers(s, n) == {};
    assert s'.pcs[t] == PushNext(n, s.pcs[t].seen, s.pcs[t].k) && s'.place[n] == Pushing(t);
  }

  lemma PushUndoDeferred(s: State, t: Tid, n: Node)
    requires Ground(s, t, n) && s.pcs[t].PushUndo? && s.refs[n] != 1
    ensures LocalStepOk(s, Apply(s, Run(t)), t, n) && ListKept(s, Apply(s, Run(t)), n)
  {
    var s' := Apply(s, Run(t));
    ReadersStep(s, s', t, n);
    assert s'.pcs[t] == Resumed(s.pcs[t].k) && s'.place[n] == Flagged;
  }

  lemma GetRefsStep(s: State, t: Tid, n: Node)
    requires Ground(s, t, n) && s.pcs[t].GetRefs?
    ensures LocalStepOk(s, Apply(s, Run(t)), t, n) && ListKept(s, Apply(s, Run(t)), n)
  {
    hide LocalStepOk, ListKept;
    var s' := Apply(s, Run(t));
    assert s' == s.(pcs := s.pcs[t := s'.pcs[t]]) && (s'.pcs[t].GetHead? || s'.pcs[t].GetTakeRef?);
    OnlyPc(s, s', t, n);
  }

  lemma GetTakeRefStep(s: State, t: Tid, n: Node)
    requires Ground(s, t, n) && s.pcs[t].GetTakeRef?
    ensures LocalStepOk(s, Apply(s, Run(t)), t, n) && ListKept(s, Apply(s, Run(t)), n)
  {
    hide LocalStepOk, ListKept;
    if s.refs[n] == s.pcs[t].refs { GetTakesRef(s, t, n); } else { GetMissesRef(s, t, n); }
  }

  lemma GetTakesRef(s: State, t: Tid, n: Node)
    requires Ground(s, t, n) && s.pcs[t].GetTakeRef? && s.refs[n] == s.pcs[t].refs
    ensures LocalStepOk(s, Apply(s, Run(t)), t, n) && ListKept(s, Apply(s, Run(t)), n)
  {
    ReadersStep(s, Apply(s, Run(t)), t, n);
  }

  lemma GetMissesRef(s: State, t: Tid, n: Node)
    requires Ground(s, t, n) && s.pcs[t].GetTakeRef? && s.refs[n] != s.pcs[t].refs
    ensures LocalStepOk(s, Apply(s, Run(t)), t, n) && ListKept(s, Apply(s, Run(t)), n)
  {
    hide LocalStepOk, ListKept;
    var s' := Apply(s, Run(t));
    assert s' == s.(pcs := s.pcs[t := GetHead]);
    OnlyPc(s, s', t, n);
  }

  lemma GetNextStep(s: State, t: Tid, n: Node)
    requires Ground(s, t, n) && s.pcs[t].GetNext?
    ensures LocalStepOk(s, Apply(s, Run(t)), t, n) && ListKept(s, Apply(s, Run(t)), n)
  {
    ReadersStep(s, Apply(s, Run(t)), t, n);
  }

  lemma GetCasFails(s: State, t: Tid, n: Node)
    requires Ground(s, t, n) && s.pcs[t].GetCas? && s.head != Some(n)
    requires Known(s, s.head)
    ensures LocalStepOk(s, Apply(s, Run(t)), t, n) && ListKept(s, Apply(s, Run(t)), n)
  {
    ReadersStep(s, Apply(s, Run(t)), t, n);
  }

  lemma GetCasSucceeds(s: State, t: Tid, n: Node)
    requires Ground(s, t, n) && s.pcs[t].GetCas? && s.head == Some(n)
    requires s.place[n] == Listed
    ensures LocalStepOk(s, Apply(s, Run(t)), t, n)
  {
    ReadersStep(s, Apply(s, Run(t)), t, n);
  }

  lemma GetDoneStep(s: State, t: Tid, n: Node)
    requires Ground(s, t, n) && s.pcs[t].GetDone?
    ensures LocalStepOk(s, Apply(s, Run(t)), t, n) && ListKept(s, Apply(s, Run(t)), n)
  {
    ReadersStep(s, Apply(s, Run(t)), t, n);
  }

  lemma GetDropLast(s: State, t: Tid, n: Node)
    requires Ground(s, t, n) && s.pcs[t].GetDrop? && s.refs[n] == SHOULD_BE_ON_FREELIST + 1
    ensures LocalStepOk(s, Apply(s, Run(t)), t, n) && ListKept(s, Apply(s, Run(t)), n)
  {
    var s' := Apply(s, Run(t));
    ReadersStep(s, s', t, n);
    assert s.place[n] == Flagged;
    assert s'.pcs[t].PushHead? && s'.place[n] == Pushing(t);
  }

  lemma GetDropOther(s: State, t: Tid, n: Node)
    requires Ground(s, t, n) && s.pcs[t].GetDrop? && s.refs[n] != SHOULD_BE_ON_FREELIST + 1
    ensures LocalStepOk(s, Apply(s, Run(t)), t, n) && ListKept(s, Apply(s, Run(t)), n)
  {
    var s' := Apply(s, Run(t));
    ReadersStep(s, s', t, n);
    assert s'.pcs[t] == Loop(s.pcs[t].seen) && s'.place[n] == s.place[n];
  }

  lemma LinkedPush(chain: seq<Node>, next: map<Node, Option<Node>>, n: Node)
    requires Linked(chain, next) && n !in chain && n in next
    requires next[n] == (if |chain| == 0 then None else Some(chain[0]))
    ensures Linked([n] + chain, next)
  {
    var c := [n] + chain;
    forall i | 0 <= i < |c| ensures c[i] in next && next[c[i]] == After(c, i) {
      if i > 0 { assert c[i] == chain[i - 1]; }
    }
  }

  lemma LinkedPop(chain: seq<Node>, next: map<Node, Option<Node>>)
    requires Linked(chain, next) && |chain| > 0
    ensures Linked(chain[1..], next) && chain[0] !in chain[1..]
    ensures next[chain[0]] == After(chain, 0)
  {
    var c := chain[1..];
    forall i | 0 <= i < |c| ensures c[i] in next && next[c[i]] == After(c, i) {
      assert c[i] == chain[i + 1];
      if i + 1 < |c| { assert c[i + 1] == chain[i + 2]; }
    }
  }

  lemma ListedPop(chain: seq<Node>, place: map<Node, Place>, p: Place)
    requires ExactlyListed(chain, place) && chain != [] && chain[0] !in chain[1..] && p != Listed
    ensures ExactlyListed(chain[1..], place[chain[0] := p])
  {
    assert chain == [chain[0]] + chain[1..];
  }

  lemma ChainedPush(s: State, t: Tid, n: Node)
    requires Chained(s) && Ground(s, t, n) && s.pcs[t].PushCas? && s.head == s.pcs[t].seen
    ensures Chained(Apply(s, Run(t)))
  {
    LinkedPush(s.chain, s.next, n);
  }

  lemma HeadIsListed(s: State)
    requires Chained(s) && s.head.Some?
    ensures s.chain != [] && s.head.value == s.chain[0] && s.head.value in s.place && s.place[s.head.value] == Listed
  {
    assert s.chain[0] in s.chain;
  }

  lemma ChainedPop(s: State, t: Tid, n: Node)
    requires Chained(s) && Ground(s, t, n) && s.pcs[t].GetCas? && s.head == Some(n)
    ensures Chained(Apply(s, Run(t)))
  {
    LinkedPop(s.chain, s.next);
    ListedPop(s.chain, s.place, Popped(t));
  }

  /** One step of a thread that is pushing a node. */
  lemma PushStep(s: State, t: Tid, n: Node)
    requires Inv(s) && t in s.pcs && Owns(s.pcs[t], t).Some? && !s.pcs[t].GetDone? && Touches(s.pcs[t]) == Some(n)
    ensures Inv(Apply(s, Run(t)))
  {
    var s' := Apply(s, Run(t));
    GroundHolds(s, t, n);
    match s.pcs[t] {
      case AddFlag(_) => if s.refs[n] == 0 { AddFlagLastRef(s, t, n); } else { AddFlagDeferred(s, t, n); }
      case PushHead(_, _) => PushHeadStep(s, t, n);
      case PushNext(_, _, _) => PushNextStep(s, t, n);
      case PushRefs(_, _, _) => PushRefsStep(s, t, n);
      case PushCas(_, h, _) => if s.head == h { PushCasSucceeds(s, t, n); ChainedPush(s, t, n); }
      else { PushCasFails(s, t, n); }
      case PushUndo(_, _, _) => if s.refs[n] == 1 { PushUndoAgain(s, t, n); } else { PushUndoDeferred(s, t, n); }
    }
    Conclude(s, s', t, n);
  }

  /** One step of a thread inside `try_get` that has a node in hand. */
  lemma GetStep(s: State, t: Tid, n: Node)
    requires Inv(s) && t in s.pcs && (s.pcs[t].GetDone? || Owns(s.pcs[t], t).None?) && Touches(s.pcs[t]) == Some(n)
    ensures Inv(Apply(s, Run(t)))
  {
    var s' := Apply(s, Run(t));
    GroundHolds(s, t, n);
    match s.pcs[t] {
      case GetRefs(_) => GetRefsStep(s, t, n);
      case GetTakeRef(_, _) => GetTakeRefStep(s, t, n);
      case GetNext(_) => GetNextStep(s, t, n);
      case GetCas(_, _) =>
        if s.head == Some(n) { HeadIsListed(s); GetCasSucceeds(s, t, n); ChainedPop(s, t, n); }
        else { GetCasFails(s, t, n); }
      case GetDone(_) => GetDoneStep(s, t, n);
      case GetDrop(_, _) => if s.refs[n] == SHOULD_BE_ON_FREELIST + 1 { GetDropLast(s, t, n); }
      else { GetDropOther(s, t, n); }
    }
    Conclude(s, s', t, n);
  }

  lemma Conclude(s: State, s': State, t: Tid, n: Node)
    requires Inv(s) && LocalStepOk(s, s', t, n) && (ListKept(s, s', n) || (Chained(s') && Known(s', s'.head)))
    ensures Inv(s')
  {
    if ListKept(s, s', n) {
      ChainedFrame(s, s', t, n);
    }
    Assemble(s, s', t, n);
  }

  lemma NewNodeCounted(s: State, n: Node)
    requires Counted(s) && Locals(s) && Owned(s) && n !in s.refs && n !in s.place
    ensures Counted(Apply(s, NewNode(n)))
  {
    var s' := Apply(s, NewNode(n));
    forall m | m in s'.place ensures CountOk(s', m) {
      assert Readers(s', m) == Readers(s, m);
      if m == n {
        forall t | t in s.pcs ensures RefOn(s.pcs[t]) != Some(n) { assert LocalOk(s, s.pcs[t]); }
        assert Readers(s, n) == {};
      } else {
        assert CountOk(s, m);
        assert EarlyPush(s', m) == EarlyPush(s, m);
      }
    }
  }

  lemma NewNodeLocals(s: State, n: Node)
    requires Locals(s) && n !in s.place && n !in s.next
    ensures Locals(Apply(s, NewNode(n)))
  {
    var s' := Apply(s, NewNode(n));
    forall t | t in s'.pcs ensures LocalOk(s', s'.pcs[t]) { assert LocalOk(s, s.pcs[t]); }
  }

  lemma NewNodeStep(s: State, n: Node)
    requires Inv(s) && Enabled(s, NewNode(n))
    ensures Inv(Apply(s, NewNode(n)))
  {
    NewNodeCounted(s, n);
    NewNodeLocals(s, n);
    NewNodeList(s, n);
    NewNodeOwned(s, n);
  }

  lemma NewNodeList(s: State, n: Node)
    requires Chained(s) && n !in s.place && n !in s.next
    ensures Chained(Apply(s, NewNode(n)))
  {
  }

  lemma NewNodeOwned(s: State, n: Node)
    requires Owned(s) && Domains(s) && n !in s.place
    ensures Owned(Apply(s, NewNode(n))) && Domains(Apply(s, NewNode(n)))
  {
  }

  lemma CallAddStep(s: State, t: Tid, n: Node)
    requires Inv(s) && Enabled(s, CallAdd(t, n))
    ensures Inv(Apply(s, CallAdd(t, n)))
  {
    var s' := Apply(s, CallAdd(t, n));
    CallAddLocal(s, t, n);
    Conclude(s, s', t, n);
  }

  lemma CallAddLocal(s: State, t: Tid, n: Node)
    requires CountOk(s, n) && Enabled(s, CallAdd(t, n)) && n in s.next && Known(s, s.next[n])
    ensures LocalStepOk(s, Apply(s, CallAdd(t, n)), t, n) && ListKept(s, Apply(s, CallAdd(t, n)), n)
  {
    ReadersStep(s, Apply(s, CallAdd(t, n)), t, n);
  }

  /** A step that only moves a thread between program counters with no node involved. */
  ghost predicate Quiet(s: State, s': State, t: Tid) {
    && t in s.pcs && t in s'.pcs && s' == s.(pcs := s.pcs[t := s'.pcs[t]])
    && RefOn(s.pcs[t]) == RefOn(s'.pcs[t]) == None && Owns(s.pcs[t], t) == Owns(s'.pcs[t], t) == None
    && LocalOk(s', s'.pcs[t])
  }

  lemma QuietCounted(s: State, s': State, t: Tid)
    requires Counted(s) && Owned(s) && Quiet(s, s', t)
    ensures Counted(s')
  {
    forall m | m in s'.place ensures CountOk(s', m) {
      assert CountOk(s, m);
      ReadersStep(s, s', t, m);
      assert Readers(s', m) == Readers(s, m);
      assert EarlyPush(s', m) == EarlyPush(s, m);
    }
  }

  lemma QuietOwned(s: State, s': State, t: Tid)
    requires Owned(s) && Quiet(s, s', t)
    ensures Owned(s')
  {
  }

  lemma QuietLocals(s: State, s': State, t: Tid)
    requires Locals(s) && Quiet(s, s', t)
    ensures Locals(s')
  {
    forall u | u in s'.pcs ensures LocalOk(s', s'.pcs[u]) {
      if u != t { assert LocalOk(s, s.pcs[u]); }
    }
  }

  lemma QuietStep(s: State, s': State, t: Tid)
    requires Inv(s) && Quiet(s, s', t)
    ensures Inv(s')
  {
    QuietCounted(s, s', t);
    QuietOwned(s, s', t);
    QuietLocals(s, s', t);
    assert s'.pcs.Keys == s.pcs.Keys;
    assert |s'.pcs.Keys| == |s'.pcs| && |s.pcs.Keys| == |s.pcs|;
  }

  /** Every step of every thread keeps the invariant. */
  lemma StepKeepsInv(s: State, a: Action)
    requires Inv(s) && Enabled(s, a)
    ensures Inv(Apply(s, a))
  {
    match a {
      case NewNode(n) => NewNodeStep(s, n);
      case CallAdd(t, n) => CallAddStep(s, t, n);
      case CallGet(t) => QuietStep(s, Apply(s, a), t);
      case Run(t) =>
        if s.pcs[t] == GetHead {
          QuietStep(s, Apply(s, a), t);
        } else if Owns(s.pcs[t], t).Some? && !s.pcs[t].GetDone? {
          PushStep(s, t, Touches(s.pcs[t]).value);
        } else {
          GetStep(s, t, Touches(s.pcs[t]).value);
        }
    }
  }
}
