/** The queue's pool of blocks: blocks not yet issued, the free list, blocks in transit and blocks in producers. */
module BlockPool {
  import L = FreeList
  import LI = FreeListInvariant
  import LT = FreeListTheorems

  type Tid = nat
  type Block = nat

  datatype Holder = Thread(t: Tid) | Producer(p: nat)

  datatype PC = Idle | LoadIndex | TakeIndex | UseList | Allocate

  /** `index` is `initialBlockPoolIndex` and `size` `initialBlockPoolSize`; blocks below `size` belong to the initial
      pool.  Auxiliary: who holds each block that is in use. */
  datatype Pool = Pool(index: nat, size: nat, list: L.State, pcs: map<Tid, PC>, holder: map<Block, Holder>)

  datatype Action =
    | Requisition(t: Tid)
    | Run(t: Tid)
    | Create(t: Tid, b: Block)
    | NoBlock(t: Tid)
    | Install(t: Tid, p: nat, b: Block)
    | Remove(t: Tid, p: nat, b: Block)
    | AddToFreeList(t: Tid, b: Block)

  predicate Initial(s: Pool) {
    && s.index == 0 && L.Initial(s.list) && s.holder == map[]
    && s.pcs.Keys == s.list.pcs.Keys && forall t :: t in s.pcs ==> s.pcs[t] == Idle
  }

  predicate Holds(s: Pool, b: Block, h: Holder) {
    b in s.holder && s.holder[b] == h
  }

  predicate Enabled(s: Pool, a: Action) {
    match a
    case Requisition(t) => t in s.pcs && s.pcs[t] == Idle
    case Run(t) => t in s.pcs && s.pcs[t] != Idle && s.pcs[t] != Allocate
    case Create(t, b) => t in s.pcs && s.pcs[t] == Allocate && s.size <= b && b !in s.list.place && b !in s.list.refs
    case NoBlock(t) => t in s.pcs && s.pcs[t] == Allocate
    case Install(t, p, b) => Holds(s, b, Thread(t))
    case Remove(t, p, b) => Holds(s, b, Producer(p))
    case AddToFreeList(t, b) => t in s.pcs && s.pcs[t] == Idle && Holds(s, b, Thread(t))
  }

  /** A new block comes into the hands of a thread. */
  function Issue(s: Pool, t: Tid, b: Block): Pool {
    s.(list := L.Apply(s.list, L.NewNode(b)), holder := s.holder[b := Thread(t)], pcs := s.pcs[t := Idle])
  }

  function TryList(s: Pool, t: Tid): Pool {
    s.(list := L.Apply(s.list, L.CallGet(t)), pcs := s.pcs[t := UseList])
  }

  function Apply(s: Pool, a: Action): Pool
    requires Enabled(s, a)
  {
    match a
    case Requisition(t) => s.(pcs := s.pcs[t := LoadIndex])
    case Run(t) => RunThread(s, t, s.pcs[t])
    case Create(t, b) => Issue(s, t, b)
    case NoBlock(t) => s.(pcs := s.pcs[t := Idle])
    case Install(t, p, b) => s.(holder := s.holder[b := Producer(p)])
    case Remove(t, p, b) => s.(holder := s.holder[b := Thread(t)])
    case AddToFreeList(t, b) =>
      s.(list := L.Apply(s.list, L.CallAdd(t, b)), holder := s.holder - {b}, pcs := s.pcs[t := UseList])
  }

  function RunThread(s: Pool, t: Tid, pc: PC): Pool {
    match pc
    case Idle => s
    case Allocate => s
    case LoadIndex => if s.index >= s.size then TryList(s, t) else s.(pcs := s.pcs[t := TakeIndex])
    // another thread may have taken the last one in between
    case TakeIndex =>
      var taken := s.(index := s.index + 1);
      if s.index < s.size then Issue(taken, t, s.index) else TryList(taken, t)
    case UseList =>
      var list := L.Apply(s.list, L.Run(t));
      var got := LT.Hands(s.list, L.Run(t));
      var done := t in list.pcs && list.pcs[t] == L.Idle;
      var adding := t in s.list.pcs && Adding(s.list.pcs[t]);
      s.(list := list,
        holder := if got.Some? then s.holder[got.value := Thread(t)] else s.holder,
        pcs := s.pcs[t := if !done then UseList else if got.Some? || adding then Idle else Allocate])
  }

  /** The thread is giving a block back rather than asking for one. */
  predicate Adding(pc: L.PC) {
    pc.AddFlag? || ((pc.PushHead? || pc.PushNext? || pc.PushRefs? || pc.PushCas? || pc.PushUndo?) && pc.k.Return?)
  }

  // ---- what always holds ----

  ghost predicate HoldersOk(place: map<Block, L.Place>, holder: map<Block, Holder>) {
    forall b :: b in holder <==> b in place && place[b] == L.Held
  }

  /** Exactly the blocks of the initial pool below the index have been issued. */
  ghost predicate IssuedOk(place: map<Block, L.Place>, index: nat, size: nat) {
    forall b: Block :: b < size ==> (b in place <==> b < index)
  }

  ghost predicate ThreadOk(pc: PC, list: L.PC) {
    pc == UseList <==> list != L.Idle
  }

  ghost predicate ThreadsOk(s: Pool) {
    s.pcs.Keys == s.list.pcs.Keys && forall t :: t in s.pcs ==> ThreadOk(s.pcs[t], s.list.pcs[t])
  }

  ghost predicate Inv(s: Pool) {
    LI.Inv(s.list) && HoldersOk(s.list.place, s.holder) && IssuedOk(s.list.place, s.index, s.size) && ThreadsOk(s)
  }

  lemma InitialInv(s: Pool)
    requires Initial(s)
    ensures Inv(s)
  {
    LI.InitialInv(s.list);
  }

  lemma IssueKeeps(s: Pool, t: Tid, b: Block, index: nat)
    requires Inv(s) && t in s.pcs && s.list.pcs[t] == L.Idle && b !in s.list.place
    requires (b < s.size && b == s.index && index == s.index + 1) || (b >= s.size && index == s.index)
    ensures Inv(Issue(s.(index := index), t, b))
  {
    hide LI.Inv;
    SameNodes(s.list);
    LI.StepKeepsInv(s.list, L.NewNode(b));
  }

  lemma SameNodes(s: L.State)
    requires LI.Inv(s)
    ensures s.refs.Keys == s.place.Keys
  {
    hide LI.Chained, LI.Counted, LI.Owned, LI.Locals;
  }

  lemma TryListKeeps(s: Pool, t: Tid, index: nat)
    requires Inv(s) && t in s.pcs && s.list.pcs[t] == L.Idle && s.index <= index &&
      (s.index < index ==> s.size <= s.index)
    ensures Inv(TryList(s.(index := index), t))
  {
    hide LI.Inv;
    LI.StepKeepsInv(s.list, L.CallGet(t));
  }

  lemma ListStepKeeps(s: Pool, t: Tid)
    requires Inv(s) && t in s.pcs && s.pcs[t] == UseList
    ensures Inv(RunThread(s, t, UseList))
  {
    hide LI.Inv, L.Apply, LT.Hands;
    LI.StepKeepsInv(s.list, L.Run(t));
    ListOthers(s.list, t);
    ListHolders(s, t);
  }

  lemma ListHolders(s: Pool, t: Tid)
    requires LI.Inv(s.list) && HoldersOk(s.list.place, s.holder) && L.Enabled(s.list, L.Run(t))
    requires L.Apply(s.list, L.Run(t)).place.Keys == s.list.place.Keys &&
      (LT.Hands(s.list, L.Run(t)).Some? ==> LT.Hands(s.list, L.Run(t)).value in s.list.place)
    ensures var got := LT.Hands(s.list, L.Run(t));
      HoldersOk(L.Apply(s.list, L.Run(t)).place, if got.Some? then s.holder[got.value := Thread(t)] else s.holder)
  {
    hide LI.Inv, L.Apply, LT.Hands;
    var list := L.Apply(s.list, L.Run(t));
    forall b | b in s.list.place ensures LT.HandsMove(s.list, L.Run(t), list, b) {
      LT.HandsMoveStep(s.list, L.Run(t), b);
    }
  }

  /** A list step of one thread moves no other and makes no node. */
  ghost predicate OnlyMoves(s: L.State, s': L.State, t: Tid) {
    && s'.pcs.Keys == s.pcs.Keys && s'.place.Keys == s.place.Keys && forall u :: u in s.pcs && u != t ==>
      u in s'.pcs && s'.pcs[u] == s.pcs[u]
  }

  lemma NodeStepMoves(s: L.State, t: Tid, n: Block)
    requires LI.Ground(s, t, n)
    ensures OnlyMoves(s, L.Apply(s, L.Run(t)), t)
  {
  }

  lemma ListOthers(s: L.State, t: Tid)
    requires LI.Inv(s) && L.Enabled(s, L.Run(t))
    ensures OnlyMoves(s, L.Apply(s, L.Run(t)), t)
    ensures LT.Hands(s, L.Run(t)).Some? ==> LT.Hands(s, L.Run(t)).value in s.place
  {
    hide LI.Inv;
    if LI.Touches(s.pcs[t]).Some? {
      LI.GroundHolds(s, t, LI.Touches(s.pcs[t]).value);
      NodeStepMoves(s, t, LI.Touches(s.pcs[t]).value);
    }
  }

  lemma AddKeeps(s: Pool, t: Tid, b: Block)
    requires Inv(s) && Enabled(s, AddToFreeList(t, b))
    ensures Inv(Apply(s, AddToFreeList(t, b)))
  {
    hide LI.Inv;
    LI.StepKeepsInv(s.list, L.CallAdd(t, b));
  }

  lemma StepKeepsInv(s: Pool, a: Action)
    requires Inv(s) && Enabled(s, a)
    ensures Inv(Apply(s, a))
  {
    hide LI.Inv, L.Apply;
    match a {
      case Run(t) =>
        if s.pcs[t] == UseList { ListStepKeeps(s, t); }
        else if s.pcs[t] == TakeIndex && s.index < s.size { IssueKeeps(s, t, s.index, s.index + 1); }
        else if s.pcs[t] == TakeIndex { TryListKeeps(s, t, s.index + 1); }
        else if s.index >= s.size { TryListKeeps(s, t, s.index); }
      case Create(t, b) => IssueKeeps(s, t, b, s.index);
      case AddToFreeList(t, b) => AddKeeps(s, t, b);
      case _ =>
    }
  }

  ghost predicate IsRun(run: seq<Pool>, acts: seq<Action>) {
    && |run| == |acts| + 1 && Initial(run[0])
    && forall i :: 0 <= i < |acts| ==> Enabled(run[i], acts[i]) && run[i + 1] == Apply(run[i], acts[i])
  }

  lemma {:induction false} RunKeepsInv(run: seq<Pool>, acts: seq<Action>, i: nat)
    requires IsRun(run, acts) && i < |run|
    ensures Inv(run[i])
  {
    hide Inv, Apply, Enabled;
    if i == 0 {
      InitialInv(run[0]);
    } else {
      RunKeepsInv(run, acts, i - 1);
      StepKeepsInv(run[i - 1], acts[i - 1]);
    }
  }

  // ---- conservation ----

  predicate Unissued(s: Pool, b: Block) {
    s.index <= b < s.size
  }

  predicate WithList(s: Pool, b: Block) {
    b in s.list.place && s.list.place[b] != L.Held
  }

  predicate InUse(s: Pool, b: Block) {
    b in s.holder
  }

  /** Every block of the initial pool, and every block created since, is in exactly one of: the unissued part of the
      pool, the care of the free list, and the hands of one thread or producer. */
  lemma BlockIsInOnePlace(run: seq<Pool>, acts: seq<Action>, i: nat, b: Block)
    requires IsRun(run, acts) && i < |run| && (b < run[i].size || b in run[i].list.place)
    ensures var s := run[i];
      (if Unissued(s, b) then 1 else 0) + (if WithList(s, b) then 1 else 0) + (if InUse(s, b) then 1 else 0) == 1
  {
    hide IsRun, Inv;
    RunKeepsInv(run, acts, i);
    OnePlace(run[i], b);
  }

  lemma OnePlace(s: Pool, b: Block)
    requires Inv(s) && (b < s.size || b in s.list.place)
    ensures (if Unissued(s, b) then 1 else 0) + (if WithList(s, b) then 1 else 0) + (if InUse(s, b) then 1 else 0) == 1
  {
    hide LI.Inv;
  }

  /** Requisitions, however they interleave, never take a block from anybody: what they hand out was nobody's. */
  lemma HolderKeepsBlock(run: seq<Pool>, acts: seq<Action>, i: nat, b: Block)
    requires IsRun(run, acts) && i < |acts|
    requires acts[i].Requisition? || acts[i].Run? || acts[i].Create? || acts[i].NoBlock?
    ensures InUse(run[i], b) ==> InUse(run[i + 1], b) && run[i + 1].holder[b] == run[i].holder[b]
  {
    RunKeepsInv(run, acts, i);
    OnlyHoldersMove(run[i], acts[i]);
  }

  lemma OnlyHoldersMove(s: Pool, a: Action)
    requires Inv(s) && Enabled(s, a) && (a.Requisition? || a.Run? || a.Create? || a.NoBlock?)
    ensures forall c :: InUse(s, c) ==> InUse(Apply(s, a), c) && Apply(s, a).holder[c] == s.holder[c]
  {
    hide LI.Inv, L.Apply;
    if a.Run? && s.pcs[a.t] == UseList {
      ListOthers(s.list, a.t);
      if LT.Hands(s.list, L.Run(a.t)).Some? {
        LT.HandsMoveStep(s.list, L.Run(a.t), LT.Hands(s.list, L.Run(a.t)).value);
      }
    }
  }

  /** Nothing is lost: when no thread is at work, every block that is not in use and has been issued is on the free
      list, where the next requisition finds it. */
  lemma RestIsConserved(run: seq<Pool>, acts: seq<Action>, i: nat, b: Block)
    requires IsRun(run, acts) && i < |run| && (forall t :: t in run[i].pcs ==> run[i].pcs[t] == Idle)
    requires b < run[i].size || b in run[i].list.place
    ensures Unissued(run[i], b) || InUse(run[i], b) || b in run[i].list.chain
  {
    hide IsRun, Inv;
    RunKeepsInv(run, acts, i);
    RestOnList(run[i], b);
  }

  lemma RestOnList(s: Pool, b: Block)
    requires Inv(s) && (forall t :: t in s.pcs ==> s.pcs[t] == Idle) && (b < s.size || b in s.list.place)
    ensures Unissued(s, b) || InUse(s, b) || b in s.list.chain
  {
    hide LI.Inv;
    SameNodes(s.list);
    if b in s.list.place { LT.RestPartition(s.list, b); }
  }
}
