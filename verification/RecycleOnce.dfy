/** A block is given back by one dequeuer only, exactly because dequeues ask for something.  One that asks for nothing
    claims no slot, but it looks up a block, counts nothing in it, and may find it just completed by somebody else. */
module RecycleOnce {
  import opened Options
  import opened BlockIndex
  import opened SubQueue
  import PC = ImplicitConsumer

  /** In every run whose dequeues ask for `m` or more, no two threads are in charge of giving back the same block. */
  ghost predicate GivenBackOnce<T(!new)>(m: nat) {
    forall run: seq<State<T>>, acts: seq<Action<T>>, i: nat, t: Tid, u: Tid, b: Block ::
      IsRun(run, acts) && AllAskFor(acts, m) && i < |run| && BothFree(run[i], t, u, b) ==> t == u
  }

  ghost predicate BothFree<T>(s: State<T>, t: Tid, u: Tid, b: Block) {
    && t < |s.storage.consumers| && u < |s.storage.consumers|
    && PI.Frees(s.storage.consumers[t], b) && PI.Frees(s.storage.consumers[u], b)
  }

  lemma AskingFreesOnce<T>(run: seq<State<T>>, acts: seq<Action<T>>, i: nat, t: Tid, u: Tid, b: Block)
    requires IsRun(run, acts) && AllAskFor(acts, 1) && i < |run| && BothFree(run[i], t, u, b)
    ensures t == u
  {
    hide IsRun;
    RunKeepsInv(run, acts, i);
    PC.ConsumerIsOk(run[i].storage, t);
    PC.ConsumerIsOk(run[i].storage, u);
  }

  // ---- a run in which two threads give back one block ----

  ghost predicate Reaches<T>(run: seq<State<T>>, acts: seq<Action<T>>, s: State<T>) {
    IsRun(run, acts) && run[|acts|] == s
  }

  lemma Go<T>(run: seq<State<T>>, acts: seq<Action<T>>, s: State<T>, a: Action<T>)
    returns (run': seq<State<T>>, acts': seq<Action<T>>, s': State<T>)
    requires Reaches(run, acts, s) && Enabled(s, a)
    ensures s' == Apply(s, a) && Reaches(run', acts', s')
  {
    hide Apply, Enabled;
    s' := Apply(s, a);
    run', acts' := run + [s'], acts + [a];
  }

  /** A step of the storage other than publishing. */
  lemma GoStorage<T>(run: seq<State<T>>, acts: seq<Action<T>>, s: State<T>, a: P.Action<T>)
    returns (run': seq<State<T>>, acts': seq<Action<T>>, s': State<T>)
    requires Reaches(run, acts, s) && P.Enabled(s.storage, a) && !a.Claim? && !a.Consume? &&
      !(a.Produce? && s.storage.producer.PPublish?)
    ensures s' == s.(storage := P.Apply(s.storage, a)) && Reaches(run', acts', s')
  {
    hide P.Apply, P.Enabled, Reaches;
    run', acts', s' := Go(run, acts, s, Storage(a));
  }

  lemma GoConsumer<T>(run: seq<State<T>>, acts: seq<Action<T>>, s: State<T>, t: Tid)
    returns (run': seq<State<T>>, acts': seq<Action<T>>, s': State<T>)
    requires Reaches(run, acts, s) && t < |s.tickets.pcs| && s.tickets.pcs[t].Taking?
    requires t < |s.storage.consumers| && s.storage.consumers[t] != P.CIdle
    ensures s' == s.(storage := P.ConsumerStep(s.storage, t, s.storage.consumers[t])) && Reaches(run', acts', s')
  {
    hide P.ConsumerStep, Reaches;
    run', acts', s' := Go(run, acts, s, Dequeue(t));
  }

  lemma GoTickets<T>(run: seq<State<T>>, acts: seq<Action<T>>, s: State<T>, t: Tid)
    returns (run': seq<State<T>>, acts': seq<Action<T>>, s': State<T>)
    requires Reaches(run, acts, s) && t < |s.tickets.pcs| && s.tickets.pcs[t] != Q.Idle && !s.tickets.pcs[t].ClaimSlots?
    requires t < |s.storage.consumers| && s.storage.consumers[t] == P.CIdle
    ensures s' == s.(tickets := Q.RunThread(s.tickets, t, s.tickets.pcs[t])) && Reaches(run', acts', s')
  {
    hide Q.RunThread, Reaches;
    run', acts', s' := Go(run, acts, s, Dequeue(t));
  }

  // ---- the index with its first block ----

  function NoValues(): seq<Option<Block>> {
    seq(INITIAL_INDEX_SIZE, _ => None)
  }

  function Empty(): Ring {
    First(NoValues())
  }

  function Keyed(): (r: Ring)
    ensures Usable(r)
  {
    EmptyIsFree();
    StoreKey(Empty(), NewEntry(Empty()), 0)
  }

  function Advanced(): (r: Ring)
    ensures Usable(r) && Current(r) == 0 && r.headers[0].tail == 0 && r.headers[0].capacity == INITIAL_INDEX_SIZE
    ensures r.headers[0].index[0] == 0 && |r.entries| > 0 && r.entries[0].key == 0
  {
    EmptyIsFree();
    Advance(Keyed())
  }

  /** Block 0 installed as the first block. */
  function OneBlock(): (r: Ring)
    ensures Usable(r) && Current(r) == 0 && r.headers[0].tail == 0 && r.headers[0].capacity == INITIAL_INDEX_SIZE
    ensures EntryAt(r, 0, 0) == Entry(0, Some(0))
  {
    StoreValue(Advanced(), Advanced().headers[0].index[0], Some(0))
  }

  lemma EmptyIsFree()
    ensures Usable(Empty()) && NewTail(Empty()) == 0 && NewEntry(Empty()) == 0 && IsFree(Empty(), NewEntry(Empty()))
  {
    Fresh0();
  }

  lemma Fresh0()
    ensures Fresh(0, INITIAL_INDEX_SIZE)[0] == 0 && (INITIAL_INDEX_SIZE - 1 + 1) % INITIAL_INDEX_SIZE == 0
  {
  }

  /** A storage in which only the producer has been at work. */
  function Enqueuing<T>(p: P.ProducerPC<T>, ring: Ring, done: map<Block, nat>, live: map<int, Block>, place: map<Block,
      P.Place>): P.State<T> {
    P.State(0, 0, ring, map[0 := seq(BLOCK_SIZE, _ => None)], done, None, p, [P.CIdle, P.CIdle], [], [], map[], live,
      place)
  }

  function Waiting<T>(): Q.State<T> {
    Q.State(0, 0, 0, 0, [Q.Idle, Q.Idle], [], [], [])
  }

  lemma StartsEmpty<T>() returns (run: seq<State<T>>, acts: seq<Action<T>>, s: State<T>)
    ensures Reaches(run, acts, s) && s ==
      State(Waiting(), Enqueuing(P.PIdle, Empty(), map[0 := 0], map[], map[0 := P.Elsewhere]))
  {
    var p: P.State<T> := P.State(0, 0, Empty(), map[], map[], None, P.PIdle, [P.CIdle, P.CIdle], [], [], map[], map[],
      map[]);
    assert NoValues() == seq(INITIAL_INDEX_SIZE, i requires 0 <= i < INITIAL_INDEX_SIZE => p.ring.entries[i].value);
    s := State(Waiting(), p);
    run, acts, s := GoStorage([s], [], s, P.Outside(0, seq(BLOCK_SIZE, _ => None), 0));
  }

  lemma Prepares<T>(xs: seq<T>) returns (run: seq<State<T>>, acts: seq<Action<T>>, s: State<T>)
    requires |xs| == BLOCK_SIZE
    ensures Reaches(run, acts, s)
    ensures s == State(Waiting(), Enqueuing(P.PBlock(xs, []), Advanced(), map[0 := 0], map[], map[0 := P.Elsewhere]))
  {
    hide Reaches, StoreKey, Advance, NewEntry, IsFree, Usable, First;
    EmptyIsFree();
    run, acts, s := StartsEmpty();
    run, acts, s := GoStorage(run, acts, s, P.CallEnqueue(xs));
    run, acts, s := GoStorage(run, acts, s, P.Produce);
    assert s.storage.producer == P.PSlot(xs, []);
    run, acts, s := GoStorage(run, acts, s, P.Produce);
    assert s.storage.producer == P.PKey(xs, []);
    run, acts, s := GoStorage(run, acts, s, P.Produce);
    assert s.storage.ring == Keyed() && s.storage.producer == P.PTail(xs, []);
    run, acts, s := GoStorage(run, acts, s, P.Produce);
  }

  /** The producer takes block 0 for as many elements as fit it. */
  lemma Installs<T>(xs: seq<T>) returns (run: seq<State<T>>, acts: seq<Action<T>>, s: State<T>)
    requires |xs| == BLOCK_SIZE
    ensures Reaches(run, acts, s)
    ensures s == State(Waiting(), Enqueuing(P.PWrite(xs, [0], 0), OneBlock(), map[0 := 0], map[0 := 0],
      map[0 := P.Installed(0)]))
  {
    hide Reaches, StoreValue, Usable;
    run, acts, s := Prepares(xs);
    run, acts, s := GoStorage(run, acts, s, P.TakeBlock(0));
    run, acts, s := GoStorage(run, acts, s, P.Produce);
    assert s.storage.producer == P.PValue(xs, [], 0);
    run, acts, s := GoStorage(run, acts, s, P.Produce);
    assert s.storage.producer == P.PNext(xs, [0]) && s.storage.ring == OneBlock();
    run, acts, s := GoStorage(run, acts, s, P.Produce);
  }

  // ---- writing, and publishing ----

  lemma {:induction false} Writes<T>(run: seq<State<T>>, acts: seq<Action<T>>, s: State<T>, xs: seq<T>, n: nat)
    returns (run': seq<State<T>>, acts': seq<Action<T>>, s': State<T>)
    requires Reaches(run, acts, s) && |xs| == BLOCK_SIZE && n <= BLOCK_SIZE
    requires s.storage.producer == P.PWrite(xs, [0], n) && s.storage.tail == 0
    ensures Reaches(run', acts', s')
    ensures s' == s.(storage := s.storage.(cells := s'.storage.cells, producer := P.PPublish(xs, [0])))
    decreases BLOCK_SIZE - n
  {
    hide Reaches, P.Cells;
    run', acts', s' := GoStorage(run, acts, s, P.Produce);
    if n < BLOCK_SIZE {
      assert P.WriteBlock(0, s.storage.tailBlock, [0], n) == Some(0);
      run', acts', s' := Writes(run', acts', s', xs, n + 1);
    }
  }

  lemma Publishes<T>(xs: seq<T>) returns (run: seq<State<T>>, acts: seq<Action<T>>, s: State<T>)
    requires |xs| == BLOCK_SIZE
    ensures Reaches(run, acts, s)
    ensures s.tickets == Waiting().(items := xs, tail := BLOCK_SIZE) && s.storage.head == 0 &&
      s.storage.tail == BLOCK_SIZE
    ensures s.storage.ring == OneBlock() && s.storage.consumers == [P.CIdle, P.CIdle] && s.storage.done == map[0 := 0]
  {
    hide Reaches, OneBlock;
    run, acts, s := Installs(xs);
    run, acts, s := Writes(run, acts, s, xs, 0);
    run, acts, s := Go(run, acts, s, Storage(P.Produce));
  }

  // ---- the two dequeues ----

  /** Thread `t` asks for `max` elements and gets to claim them, nobody else having drawn a ticket. */
  lemma Asks<T>(run: seq<State<T>>, acts: seq<Action<T>>, s: State<T>, t: Tid, max: nat)
    returns (run': seq<State<T>>, acts': seq<Action<T>>, s': State<T>)
    requires Reaches(run, acts, s) && t < 2 == |s.tickets.pcs| == |s.storage.consumers| && max <= BLOCK_SIZE
    requires s.tickets.pcs[t] == Q.Idle && s.storage.consumers[t] == P.CIdle
    requires s.tickets.tail == BLOCK_SIZE && s.tickets.head == s.tickets.optimistic == s.tickets.overcommit == 0 &&
      s.tickets.tickets == []
    ensures Reaches(run', acts', s') && s'.storage == s.storage
    ensures s'.tickets.pcs == s.tickets.pcs[t := Q.ClaimSlots(max, 0)] && s'.tickets.head == 0 &&
      s'.tickets.tail == BLOCK_SIZE
    ensures max == 0 ==> s'.tickets.optimistic == 0 && s'.tickets.overcommit == 0 && s'.tickets.tickets == []
  {
    hide Reaches;
    run', acts', s' := Go(run, acts, s, CallDequeue(t, max));
    run', acts', s' := GoTickets(run', acts', s', t);
    assert s'.tickets.pcs[t] == Q.LoadOvercommit(max, BLOCK_SIZE);
    run', acts', s' := GoTickets(run', acts', s', t);
    assert s'.tickets.pcs[t] == Q.LoadOptimistic(max, BLOCK_SIZE, 0);
    run', acts', s' := GoTickets(run', acts', s', t);
    assert s'.tickets.pcs[t] == Q.TakeTickets(0, max);
    run', acts', s' := GoTickets(run', acts', s', t);
    assert s'.tickets.pcs[t] == Q.ReloadTail(0, max, 0);
    run', acts', s' := GoTickets(run', acts', s', t);
  }

  lemma LooksUpZero(n: nat)
    requires n <= BLOCK_SIZE
    ensures LookupSlot(OneBlock().headers[0], 0, EntryAt(OneBlock(), 0, 0).key, Base(P.BlockOf(0))) == 0
    ensures EntryAt(OneBlock(), 0, 0).value == Some(0) && P.Min(n, P.EndOfBlock(0)) == n
  {
  }

  /** ... claims them, and looks up the block. */
  lemma Finds<T>(run: seq<State<T>>, acts: seq<Action<T>>, s: State<T>, t: Tid, n: nat)
    returns (run': seq<State<T>>, acts': seq<Action<T>>, s': State<T>)
    requires Reaches(run, acts, s) && t < 2 == |s.tickets.pcs| == |s.storage.consumers| && n <= BLOCK_SIZE
    requires s.tickets.pcs[t] == Q.ClaimSlots(n, 0) && s.storage.consumers[t] == P.CIdle
    requires s.tickets.head == s.storage.head == 0 && s.storage.tail == BLOCK_SIZE && s.storage.ring == OneBlock()
    ensures Reaches(run', acts', s')
    ensures s'.tickets == Q.RunThread(s.tickets, t, s.tickets.pcs[t]) &&
      s'.tickets.pcs == s.tickets.pcs[t := Q.Taking(0, n)]
    ensures s'.storage == s.storage.(head := n, slots := s'.storage.slots, consumers :=
      s.storage.consumers[t := P.CMove(0, 0, n, n, 0, 0, 0)])
  {
    hide Reaches, OneBlock, P.BlockOf, Base, LookupSlot, EntryAt;
    LooksUpZero(n);
    run', acts', s' := Go(run, acts, s, Dequeue(t));
    assert s'.storage.consumers[t] == P.CHeader(0, n);
    run', acts', s' := GoConsumer(run', acts', s', t);
    assert s'.storage.consumers[t] == P.CTail(0, n, 0);
    run', acts', s' := GoConsumer(run', acts', s', t);
    assert s'.storage.consumers[t] == P.CKey(0, n, 0, 0);
    run', acts', s' := GoConsumer(run', acts', s', t);
    assert s'.storage.consumers[t] == P.CValue(0, n, 0, 0);
    run', acts', s' := GoConsumer(run', acts', s', t);
    assert s'.storage.consumers == s.storage.consumers[t := P.CMove(0, 0, n, n, 0, 0, 0)];
  }

  /** ... moves everything it has claimed. */
  lemma {:induction false} Moves<T>(run: seq<State<T>>, acts: seq<Action<T>>, s: State<T>, t: Tid, pos: nat, n: nat)
    returns (run': seq<State<T>>, acts': seq<Action<T>>, s': State<T>)
    requires Reaches(run, acts, s) && t < 2 == |s.tickets.pcs| == |s.storage.consumers| && pos <= n <= BLOCK_SIZE
    requires s.tickets.pcs[t].Taking? && s.storage.consumers[t] == P.CMove(0, pos, n, n, 0, 0, 0)
    ensures Reaches(run', acts', s') && s'.tickets == s.tickets && s'.storage.done == s.storage.done &&
      s'.storage.ring == s.storage.ring
    ensures s'.storage.head == s.storage.head && s'.storage.tail == s.storage.tail
    ensures s'.storage.consumers == s.storage.consumers[t := P.CCount(0, n, n, 0, 0, 0)]
    decreases n - pos
  {
    hide Reaches, P.Cells;
    run', acts', s' := GoConsumer(run, acts, s, t);
    if pos < n {
      run', acts', s' := Moves(run', acts', s', t, pos + 1, n);
      assert s'.storage.consumers == s.storage.consumers[t := P.CCount(0, n, n, 0, 0, 0)];
    }
  }

  /** ... and completes the block, or finds it complete. */
  lemma Completes<T>(run: seq<State<T>>, acts: seq<Action<T>>, s: State<T>, t: Tid, n: nat)
    returns (run': seq<State<T>>, acts': seq<Action<T>>, s': State<T>)
    requires Reaches(run, acts, s) && t < 2 == |s.tickets.pcs| == |s.storage.consumers|
    requires s.tickets.pcs[t].Taking? && s.storage.consumers[t] == P.CCount(0, n, n, 0, 0, 0)
    requires 0 in s.storage.done && s.storage.done[0] + n == BLOCK_SIZE
    ensures Reaches(run', acts', s') && s'.tickets == s.tickets
    ensures s'.storage.done == s.storage.done[0 := BLOCK_SIZE]
    ensures s'.storage.consumers == s.storage.consumers[t := P.CNull(n, n, 0, 0, 0)]
  {
    hide Reaches;
    run', acts', s' := GoConsumer(run, acts, s, t);
  }

  lemma FreedTwice<T>(x: T) returns (run: seq<State<T>>, acts: seq<Action<T>>, s: State<T>)
    ensures Reaches(run, acts, s) && BothFree(s, 0, 1, 0)
  {
    hide Reaches, OneBlock, Q.RunThread;
    var xs := seq(BLOCK_SIZE, _ => x);
    run, acts, s := Publishes(xs);
    run, acts, s := Asks(run, acts, s, 0, 0);
    var tickets := s.tickets;
    run, acts, s := Finds(run, acts, s, 0, 0);
    ClaimsNothing(tickets, 0);
    run, acts, s := Moves(run, acts, s, 0, 0, 0);
    run, acts, s := Asks(run, acts, s, 1, BLOCK_SIZE);
    run, acts, s := Finds(run, acts, s, 1, BLOCK_SIZE);
    run, acts, s := Moves(run, acts, s, 1, 0, BLOCK_SIZE);
    run, acts, s := Completes(run, acts, s, 1, BLOCK_SIZE);
    run, acts, s := Completes(run, acts, s, 0, 0);
  }

  lemma ClaimsNothing<T>(s: Q.State<T>, t: Tid)
    requires t < |s.pcs| && s.pcs[t] == Q.ClaimSlots(0, 0) && s.tickets == []
    ensures Q.RunThread(s, t, s.pcs[t]) == s.(pcs := s.pcs[t := Q.Taking(s.head, 0)], owners := s.owners)
  {
  }

  /** No block is given back twice if and only if dequeues ask for at least one element. */
  lemma OnceExactlyWhenAsking<T(!new)>(x: T, m: nat)
    ensures GivenBackOnce<T>(m) <==> m >= 1
  {
    hide IsRun, BothFree;
    if m >= 1 {
      forall run: seq<State<T>>, acts: seq<Action<T>>, i: nat, t: Tid, u: Tid, b: Block |
        IsRun(run, acts) && AllAskFor(acts, m) && i < |run| && BothFree(run[i], t, u, b) ensures t == u {
        AskingFreesOnce(run, acts, i, t, u, b);
      }
    } else {
      var run, acts, s := FreedTwice(x);
      Refutes(run, acts, s);
    }
  }

  lemma Refutes<T(!new)>(run: seq<State<T>>, acts: seq<Action<T>>, s: State<T>)
    requires Reaches(run, acts, s) && BothFree(s, 0, 1, 0)
    ensures !GivenBackOnce<T>(0)
  {
    hide BothFree;
    assert AllAskFor(acts, 0);
    assert BothFree(run[|acts|], 0, 1, 0);
  }
}
