/** `get_or_add_implicit_producer` without thread-exit listeners: a chain of growing open-addressed tables from thread
    to producer.  Every atomic access is one step; threads look themselves up, lazily add themselves again to the
    newest table, insert themselves, and grow the chain, in any interleaving. */
module ProducerHash {
  import opened Options

  type Tid = nat
  type Producer = nat

  /** One table: keys are thread ids, `None` is `invalid_thread_id`. */
  datatype Table = Table(keys: seq<Option<Tid>>, values: seq<Option<Producer>>)

  /** `main` is the thread's local `mainHash`, `n` its `newCount`, `e` how many slots it has looked at.  Auxiliary: `k`
      numbers its increment of the counter. */
  datatype PC =
    | Idle
    | LoadMain
    | Lookup(main: nat, h: nat, e: nat)
    | AddAgain(main: nat, e: nat, p: Producer)
    | AddAgainValue(main: nat, slot: nat, p: Producer)
    | FetchAdd(main: nat)
    | CheckSize(main: nat, n: nat, k: nat)
    | Resize(n: nat, k: nat)
    | Grow(main: nat, n: nat, k: nat)
    | Unlock(main: nat, n: nat, k: nat)
    | CheckRoom(main: nat, n: nat, k: nat)
    | Create(main: nat, n: nat, k: nat)
    | Insert(main: nat, e: nat, p: Producer)
    | InsertValue(main: nat, slot: nat, p: Producer)
    | Reload(n: nat, k: nat)
    | GiveUp(locked: bool, k: nat)
    | UnlockFailed
    | Done(result: Option<Producer>)

  datatype Outcome = Pending | Committed | Failed

  /** Auxiliary: one increment of `implicitProducerHashCount`. */
  datatype Arrival = Arrival(t: Tid, ticket: nat, outcome: Outcome)

  /** Auxiliary: the producer made for a thread, the arrival it was made for, and the table it went into first. */
  datatype Member = Member(p: Producer, k: nat, home: nat)

  /** `tables` is the chain, oldest first: `prev` of each is the one before, and the last is `implicitProducerHash`. */
  datatype State = State(
    tables: seq<Table>,
    count: int,
    locked: bool,
    hashes: seq<nat>,
    pcs: seq<PC>,
    made: nat,
    arrivals: seq<Arrival>,
    members: map<Tid, Member>)

  datatype Action =
    | Call(t: Tid)
    | Run(t: Tid)
    | NoMemory(t: Tid)

  predicate IsPower(c: nat) {
    c == 1 || (c > 1 && c % 2 == 0 && IsPower(c / 2))
  }

  function Empty(c: nat): Table {
    Table(seq(c, _ => None), seq(c, _ => None))
  }

  predicate Initial(s: State) {
    && |s.tables| == 1 && IsPower(|s.tables[0].keys|) && s.tables[0] == Empty(|s.tables[0].keys|)
    && s.count == 0 && !s.locked && s.made == 0 && s.arrivals == [] && s.members == map[]
    && |s.hashes| == |s.pcs| && forall t :: 0 <= t < |s.pcs| ==> s.pcs[t] == Idle
  }

  predicate Enabled(s: State, a: Action) {
    match a
    case Call(t) => t < |s.pcs| && s.pcs[t] == Idle
    case Run(t) => t < |s.pcs| && s.pcs[t] != Idle
    case NoMemory(t) => t < |s.pcs| && (s.pcs[t].Grow? || s.pcs[t].Create?)
  }

  function Capacity(s: State, i: nat): nat {
    if i < |s.tables| then |s.tables[i].keys| else 0
  }

  /** Three quarters, as the source computes them. */
  function Limit(c: nat): nat {
    c / 2 + c / 4
  }

  /** The mask of a power of two. */
  function Slot(hash: nat, e: nat, c: nat): (p: nat)
    requires c > 0
    ensures p < c
  {
    (hash + e) % c
  }

  /** Doubled until the count stays below half of it. */
  function Grown(c: nat, n: nat): (d: nat)
    requires c > 0
    ensures d >= c && n < d / 2
    decreases if c / 2 <= n then n + 1 - c / 2 else 0
  {
    if n >= c / 2 then Grown(2 * c, n) else c
  }

  function Apply(s: State, a: Action): State
    requires Enabled(s, a)
  {
    match a
    case Call(t) => s.(pcs := s.pcs[t := LoadMain])
    case Run(t) => RunThread(s, t, s.pcs[t])
    case NoMemory(t) => s.(pcs := s.pcs[t := GiveUp(s.pcs[t].Grow?, s.pcs[t].k)])
  }

  function SetOutcome(arrivals: seq<Arrival>, k: nat, o: Outcome): seq<Arrival> {
    if k < |arrivals| then arrivals[k := Arrival(arrivals[k].t, arrivals[k].ticket, o)] else arrivals
  }

  function SetKey(s: State, i: nat, slot: nat, t: Tid): seq<Table> {
    if i < |s.tables| && slot < |s.tables[i].keys|
      then s.tables[i := Table(s.tables[i].keys[slot := Some(t)], s.tables[i].values)] else s.tables
  }

  function SetValue(s: State, i: nat, slot: nat, p: Producer): seq<Table> {
    if i < |s.tables| && slot < |s.tables[i].values|
      then s.tables[i := Table(s.tables[i].keys, s.tables[i].values[slot := Some(p)])] else s.tables
  }

  function RunThread(s: State, t: Tid, pc: PC): State
    requires t < |s.pcs|
  {
    match pc
    case Idle => s
    case LoadMain => if |s.tables| > 0 then s.(pcs := s.pcs[t := Lookup(|s.tables| - 1, |s.tables| - 1, 0)]) else s
    case Lookup(main, h, e) =>
      if h < |s.tables| && t < |s.hashes| && Capacity(s, h) > 0 then
        var slot := Slot(s.hashes[t], e, Capacity(s, h));
        var key := s.tables[h].keys[slot];
        s.(pcs := s.pcs[t :=
          if key == Some(t) then
            var p := if slot < |s.tables[h].values| && s.tables[h].values[slot].Some?
              then s.tables[h].values[slot].value else 0;
            if h == main then Done(Some(p)) else AddAgain(main, 0, p)
          else if key == None then (if h == 0 then FetchAdd(main) else Lookup(main, h - 1, 0))
          else Lookup(main, h, e + 1)])
      else s
    case AddAgain(main, e, p) =>
      if main < |s.tables| && t < |s.hashes| && Capacity(s, main) > 0 then
        var slot := Slot(s.hashes[t], e, Capacity(s, main));
        if s.tables[main].keys[slot] == None then
          s.(tables := SetKey(s, main, slot, t), pcs := s.pcs[t := AddAgainValue(main, slot, p)])
        else s.(pcs := s.pcs[t := AddAgain(main, e + 1, p)])
      else s
    case AddAgainValue(main, slot, p) => s.(tables := SetValue(s, main, slot, p), pcs := s.pcs[t := Done(Some(p))])
    case FetchAdd(main) =>
      var n := if s.count + 1 >= 0 then s.count + 1 else 0;
      s.(count := s.count + 1, arrivals := s.arrivals + [Arrival(t, n, Pending)], pcs :=
        s.pcs[t := CheckSize(main, n, |s.arrivals|)])
    case CheckSize(main, n, k) =>
      if n >= Capacity(s, main) / 2 && !s.locked then s.(locked := true, pcs := s.pcs[t := Resize(n, k)])
      else s.(pcs := s.pcs[t := CheckRoom(main, n, k)])
    case Resize(n, k) =>
      if |s.tables| > 0 then
        var main := |s.tables| - 1;
        s.(pcs := s.pcs[t := if n >= Capacity(s, main) / 2 then Grow(main, n, k) else Unlock(main, n, k)])
      else s
    case Grow(main, n, k) =>
      if Capacity(s, main) > 0 then
        s.(tables := s.tables + [Empty(Grown(2 * Capacity(s, main), n))], pcs := s.pcs[t := Unlock(|s.tables|, n, k)])
      else s
    case Unlock(main, n, k) => s.(locked := false, pcs := s.pcs[t := CheckRoom(main, n, k)])
    case CheckRoom(main, n, k) =>
      s.(pcs := s.pcs[t := if n < Limit(Capacity(s, main)) then Create(main, n, k) else Reload(n, k)])
    case Create(main, n, k) =>
      s.(made := s.made + 1, members := s.members[t := Member(s.made, k, main)],
        arrivals := SetOutcome(s.arrivals, k, Committed), pcs := s.pcs[t := Insert(main, 0, s.made)])
    case Insert(main, e, p) =>
      if main < |s.tables| && t < |s.hashes| && Capacity(s, main) > 0 then
        var slot := Slot(s.hashes[t], e, Capacity(s, main));
        if s.tables[main].keys[slot] == None then
          s.(tables := SetKey(s, main, slot, t), pcs := s.pcs[t := InsertValue(main, slot, p)])
        else s.(pcs := s.pcs[t := Insert(main, e + 1, p)])
      else s
    case InsertValue(main, slot, p) => s.(tables := SetValue(s, main, slot, p), pcs := s.pcs[t := Done(Some(p))])
    case Reload(n, k) => if |s.tables| > 0 then s.(pcs := s.pcs[t := CheckSize(|s.tables| - 1, n, k)]) else s
    case GiveUp(locked, k) =>
      s.(count := s.count - 1, arrivals := SetOutcome(s.arrivals, k, Failed), pcs :=
        s.pcs[t := if locked then UnlockFailed else Done(None)])
    case UnlockFailed => s.(locked := false, pcs := s.pcs[t := Done(None)])
    case Done(_) => s.(pcs := s.pcs[t := Idle])
  }
}

module ProducerHashInvariant {
  import opened Options
  import opened Modular
  import opened ProducerHash

  // ---- the counter ----

  ghost function NotFailed(arrivals: seq<Arrival>): nat {
    if |arrivals| == 0 then 0 else
    NotFailed(arrivals[..|arrivals| - 1]) + (if arrivals[|arrivals| - 1].outcome == Failed then 0 else 1)
  }

  /** A ticket is at least one more than the arrivals before it that have not failed. */
  ghost predicate TicketOk(arrivals: seq<Arrival>, k: nat)
    requires k < |arrivals|
  {
    NotFailed(arrivals[..k]) < arrivals[k].ticket
  }

  ghost predicate CounterOk(count: int, arrivals: seq<Arrival>) {
    count == NotFailed(arrivals) && forall k :: 0 <= k < |arrivals| ==> TicketOk(arrivals, k)
  }

  lemma CounterAdd(count: int, arrivals: seq<Arrival>, t: Tid)
    requires CounterOk(count, arrivals)
    ensures CounterOk(count + 1, arrivals + [Arrival(t, count + 1, Pending)])
  {
    var more := arrivals + [Arrival(t, count + 1, Pending)];
    assert more[..|arrivals|] == arrivals;
    forall k | 0 <= k < |more| ensures TicketOk(more, k) {
      if k < |arrivals| {
        assert TicketOk(arrivals, k);
        assert more[..k] == arrivals[..k];
      }
    }
  }

  lemma {:induction false} NotFailedChange(arrivals: seq<Arrival>, k: nat, a: Arrival)
    requires k < |arrivals| && arrivals[k].outcome == Pending
    ensures NotFailed(arrivals[k := a]) == NotFailed(arrivals) - if a.outcome == Failed then 1 else 0
  {
    var last := |arrivals| - 1;
    if k < last {
      assert arrivals[k := a][..last] == arrivals[..last][k := a];
      NotFailedChange(arrivals[..last], k, a);
    } else {
      assert arrivals[k := a][..last] == arrivals[..last];
    }
  }

  lemma CounterSet(count: int, arrivals: seq<Arrival>, k: nat, o: Outcome)
    requires CounterOk(count, arrivals) && k < |arrivals| && arrivals[k].outcome == Pending
    ensures CounterOk(count - if o == Failed then 1 else 0, SetOutcome(arrivals, k, o))
  {
    var after := SetOutcome(arrivals, k, o);
    NotFailedChange(arrivals, k, after[k]);
    forall m | 0 <= m < |after| ensures TicketOk(after, m) {
      assert TicketOk(arrivals, m);
      if k < m {
        assert after[..m] == arrivals[..m][k := after[k]];
        NotFailedChange(arrivals[..m], k, after[k]);
      } else {
        assert after[..m] == arrivals[..m];
      }
    }
  }

  // ---- occupancy ----

  /** The thread committed with a ticket below `limit`. */
  ghost predicate CommittedBelow(arrivals: seq<Arrival>, members: map<Tid, Member>, t: Tid, limit: nat) {
    && t in members && members[t].k < |arrivals| && arrivals[members[t].k].t == t
    && arrivals[members[t].k].outcome == Committed && arrivals[members[t].k].ticket < limit
  }

  lemma NotFailedStep(arrivals: seq<Arrival>, m: nat)
    requires m <= |arrivals|
    ensures m > 0 ==>
      NotFailed(arrivals[..m]) == NotFailed(arrivals[..m - 1]) + if arrivals[m - 1].outcome == Failed then 0 else 1
    ensures NotFailed(arrivals[..0]) == 0
  {
    if m > 0 { assert arrivals[..m][..m - 1] == arrivals[..m - 1]; }
  }

  /** Threads that committed before arrival `m` are no more than the arrivals before it that have not failed. */
  lemma {:induction false} CommittedCount(arrivals: seq<Arrival>, members: map<Tid, Member>, ts: set<Tid>, limit: nat,
      m: nat)
    requires m <= |arrivals| && forall t :: t in ts ==> CommittedBelow(arrivals, members, t, limit) && members[t].k < m
    ensures |ts| <= NotFailed(arrivals[..m])
  {
    hide NotFailed;
    NotFailedStep(arrivals, m);
    if m == 0 {
      assert ts == {};
    } else {
      var u := arrivals[m - 1].t;
      if u in ts && members[u].k == m - 1 {
        CommittedCount(arrivals, members, ts - {u}, limit, m - 1);
      } else {
        CommittedCount(arrivals, members, ts, limit, m - 1);
      }
    }
  }

  /** Fewer threads than `limit` ever commit with a ticket below it. */
  lemma {:induction false} FewCommit(count: int, arrivals: seq<Arrival>, members: map<Tid, Member>, ts: set<Tid>,
      limit: nat, m: nat)
    requires CounterOk(count, arrivals) && m <= |arrivals| && forall t :: t in ts ==>
      CommittedBelow(arrivals, members, t, limit) && members[t].k < m
    ensures ts == {} || |ts| < limit
  {
    if m > 0 {
      var u := arrivals[m - 1].t;
      if u in ts && members[u].k == m - 1 {
        assert TicketOk(arrivals, m - 1);
        CommittedCount(arrivals, members, ts - {u}, limit, m - 1);
      } else {
        FewCommit(count, arrivals, members, ts, limit, m - 1);
      }
    }
  }

  ghost function KeySet(keys: seq<Option<Tid>>): set<Tid> {
    set i | 0 <= i < |keys| && keys[i].Some? :: keys[i].value
  }

  ghost predicate KeysDistinct(keys: seq<Option<Tid>>) {
    forall i, j :: 0 <= i < j < |keys| && keys[i].Some? ==> keys[i] != keys[j]
  }

  lemma {:induction false} FullKeySet(keys: seq<Option<Tid>>)
    requires KeysDistinct(keys) && forall i :: 0 <= i < |keys| ==> keys[i].Some?
    ensures |KeySet(keys)| == |keys|
  {
    if |keys| == 0 {
      assert KeySet(keys) == {};
    } else {
      var front, last := keys[..|keys| - 1], keys[|keys| - 1];
      FullKeySet(front);
      assert KeySet(keys) == KeySet(front) + {last.value};
      assert last.value !in KeySet(front);
    }
  }

  /** A table all of whose keys committed below its limit has a free slot. */
  lemma FreeSlot(count: int, arrivals: seq<Arrival>, members: map<Tid, Member>, keys: seq<Option<Tid>>)
    requires CounterOk(count, arrivals) && |keys| > 0 && KeysDistinct(keys)
    requires forall t :: t in KeySet(keys) ==> CommittedBelow(arrivals, members, t, Limit(|keys|))
    ensures exists p :: 0 <= p < |keys| && keys[p] == None
  {
    FewCommit(count, arrivals, members, KeySet(keys), Limit(|keys|), |arrivals|);
    if forall p :: 0 <= p < |keys| ==> keys[p].Some? { FullKeySet(keys); }
  }

  // ---- tables ----

  ghost predicate Passed(keys: seq<Option<Tid>>, hash: nat, e: nat) {
    |keys| > 0 && forall x: nat :: x < e ==> Taken(keys, hash, x)
  }

  ghost predicate Taken(keys: seq<Option<Tid>>, hash: nat, x: nat)
    requires |keys| > 0
  {
    keys[Slot(hash, x, |keys|)].Some?
  }

  /** A search from `hash` meets slot `p` after taken slots only. */
  ghost predicate Reached(keys: seq<Option<Tid>>, hash: nat, p: nat) {
    exists d: nat :: ReachedAt(keys, hash, p, d)
  }

  ghost predicate ReachedAt(keys: seq<Option<Tid>>, hash: nat, p: nat, d: nat) {
    Passed(keys, hash, d) && d < |keys| && Slot(hash, d, |keys|) == p
  }

  ghost predicate KeyOk(keys: seq<Option<Tid>>, hashes: seq<nat>, arrivals: seq<Arrival>, members: map<Tid, Member>,
      p: nat) {
    p < |keys| && keys[p].Some? ==>
      && keys[p].value < |hashes| && Reached(keys, hashes[keys[p].value], p)
      && CommittedBelow(arrivals, members, keys[p].value, Limit(|keys|))
  }

  ghost predicate TableOk(keys: seq<Option<Tid>>, hashes: seq<nat>, arrivals: seq<Arrival>, members: map<Tid, Member>) {
    |keys| > 0 && KeysDistinct(keys) && forall p :: 0 <= p < |keys| ==> KeyOk(keys, hashes, arrivals, members, p)
  }

  ghost predicate TablesOk(tables: seq<Table>, hashes: seq<nat>, arrivals: seq<Arrival>, members: map<Tid, Member>) {
    && |tables| > 0
    && (forall i :: 0 <= i < |tables| ==>
      TableOk(tables[i].keys, hashes, arrivals, members) && |tables[i].values| == |tables[i].keys|)
    && (forall i, j :: 0 <= i < j < |tables| ==> |tables[i].keys| <= |tables[j].keys|)
  }

  /** The thread has taken this slot and is about to store its producer. */
  predicate Writes(pc: PC, i: nat, p: nat) {
    (pc.AddAgainValue? && pc.main == i && pc.slot == p) || (pc.InsertValue? && pc.main == i && pc.slot == p)
  }

  ghost predicate ValueOk(tables: seq<Table>, members: map<Tid, Member>, pcs: seq<PC>, i: nat, p: nat) {
    i < |tables| && p < |tables[i].keys| && tables[i].keys[p].Some? ==>
      var t := tables[i].keys[p].value;
      t in members && t < |pcs| && (Writes(pcs[t], i, p) ||
        (p < |tables[i].values| && tables[i].values[p] == Some(members[t].p)))
  }

  ghost predicate ValuesOk(tables: seq<Table>, members: map<Tid, Member>, pcs: seq<PC>) {
    forall i, p :: 0 <= i < |tables| && 0 <= p < |tables[i].keys| ==> ValueOk(tables, members, pcs, i, p)
  }

  ghost predicate InTable(tables: seq<Table>, i: int, t: Tid) {
    0 <= i < |tables| && Some(t) in tables[i].keys
  }

  ghost predicate MemberOk(tables: seq<Table>, pcs: seq<PC>, arrivals: seq<Arrival>, made: nat, t: Tid, m: Member) {
    && t < |pcs| && m.p < made && m.k < |arrivals| && arrivals[m.k].t == t && arrivals[m.k].outcome == Committed
    && (InTable(tables, m.home, t) || (pcs[t].Insert? && pcs[t].main == m.home))
  }

  ghost predicate MembersOk(tables: seq<Table>, pcs: seq<PC>, arrivals: seq<Arrival>, made: nat, members: map<Tid,
      Member>) {
    && (forall t :: t in members ==> MemberOk(tables, pcs, arrivals, made, t, members[t]))
    && (forall t, u :: t in members && u in members && t != u ==> members[t].p != members[u].p)
  }

  predicate HoldsLock(pc: PC) {
    pc.Resize? || pc.Grow? || pc.Unlock? || (pc.GiveUp? && pc.locked) || pc.UnlockFailed?
  }

  ghost predicate LockOk(pcs: seq<PC>, locked: bool) {
    && (forall t :: 0 <= t < |pcs| && HoldsLock(pcs[t]) ==> locked)
    && (forall t, u :: 0 <= t < u < |pcs| && HoldsLock(pcs[t]) ==> !HoldsLock(pcs[u]))
  }

  ghost predicate PendingAt(arrivals: seq<Arrival>, k: nat, t: Tid, n: nat) {
    k < |arrivals| && arrivals[k] == Arrival(t, n, Pending)
  }

  ghost predicate Absent(tables: seq<Table>, t: Tid, from: nat, to: nat) {
    forall i :: from <= i < to ==> !InTable(tables, i, t)
  }

  ghost predicate PassedNot(keys: seq<Option<Tid>>, hash: nat, e: nat, t: Tid) {
    Passed(keys, hash, e) && forall x: nat :: x < e ==> keys[Slot(hash, x, |keys|)] != Some(t)
  }

  /** What thread `t` relies on, wherever it is. */
  ghost predicate LocalOk(tables: seq<Table>, hashes: seq<nat>, arrivals: seq<Arrival>, members: map<Tid, Member>,
      t: Tid, pc: PC) {
    t < |hashes| &&
    match pc
    case Lookup(main, h, e) =>
      && h <= main < |tables| && PassedNot(tables[h].keys, hashes[t], e, t) && Absent(tables, t, h + 1, main + 1)
      && (t in members ==> members[t].home <= main)
    case AddAgain(main, e, p) =>
      && main < |tables| && Passed(tables[main].keys, hashes[t], e) && !InTable(tables, main, t)
      && CommittedBelow(arrivals, members, t, Limit(|tables[main].keys|)) && members[t].p == p
    case AddAgainValue(main, slot, p) => main < |tables| && slot < |tables[main].keys| &&
      tables[main].keys[slot] == Some(t) && t in members && members[t].p == p
    case FetchAdd(main) => main < |tables| && t !in members
    case CheckSize(main, n, k) => main < |tables| && t !in members && PendingAt(arrivals, k, t, n)
    case Resize(n, k) => t !in members && PendingAt(arrivals, k, t, n)
    case Grow(main, n, k) => main == |tables| - 1 && t !in members && PendingAt(arrivals, k, t, n)
    case Unlock(main, n, k) => main < |tables| && t !in members && PendingAt(arrivals, k, t, n)
    case CheckRoom(main, n, k) => main < |tables| && t !in members && PendingAt(arrivals, k, t, n)
    case Create(main, n, k) => main < |tables| && t !in members && PendingAt(arrivals, k, t, n) &&
      n < Limit(|tables[main].keys|)
    case Insert(main, e, p) =>
      && main < |tables| && Passed(tables[main].keys, hashes[t], e) && Absent(tables, t, 0, |tables|)
      && CommittedBelow(arrivals, members, t, Limit(|tables[main].keys|)) && members[t].p == p &&
        members[t].home == main
    case InsertValue(main, slot, p) => main < |tables| && slot < |tables[main].keys| &&
      tables[main].keys[slot] == Some(t) && t in members && members[t].p == p
    case Reload(n, k) => t !in members && PendingAt(arrivals, k, t, n)
    case GiveUp(_, k) => t !in members && exists n :: PendingAt(arrivals, k, t, n)
    case Done(r) => r.Some? ==> t in members && members[t].p == r.value && InTable(tables, members[t].home, t)
    case _ => true
  }

  ghost predicate LocalsOk(s: State) {
    |s.hashes| == |s.pcs| && forall t :: 0 <= t < |s.pcs| ==>
      LocalOk(s.tables, s.hashes, s.arrivals, s.members, t, s.pcs[t])
  }

  ghost predicate Inv(s: State) {
    && TablesOk(s.tables, s.hashes, s.arrivals, s.members) && ValuesOk(s.tables, s.members, s.pcs)
    && MembersOk(s.tables, s.pcs, s.arrivals, s.made, s.members) && CounterOk(s.count, s.arrivals)
    && LockOk(s.pcs, s.locked) && LocalsOk(s)
  }

  lemma PowerPositive(c: nat)
    requires IsPower(c)
    ensures c > 0
  {
  }

  lemma InitialInv(s: State)
    requires Initial(s)
    ensures Inv(s)
  {
    PowerPositive(|s.tables[0].keys|);
  }

  // ---- what a step of one thread leaves to the others ----

  ghost predicate KeysGrow(a: seq<Option<Tid>>, b: seq<Option<Tid>>, t: Tid) {
    |a| == |b| && forall p :: 0 <= p < |a| ==> b[p] == a[p] || (a[p] == None && b[p] == Some(t))
  }

  ghost predicate TablesGrow(a: seq<Table>, b: seq<Table>, t: Tid) {
    && |a| <= |b| && (forall i :: 0 <= i < |a| ==> KeysGrow(a[i].keys, b[i].keys, t))
    && (forall i :: |a| <= i < |b| ==> forall p :: 0 <= p < |b[i].keys| ==> b[i].keys[p] == None)
  }

  ghost predicate ArrivalsGrow(a: seq<Arrival>, b: seq<Arrival>, t: Tid) {
    |a| <= |b| && forall k :: 0 <= k < |a| ==> b[k].t == a[k].t && (a[k].t != t ==> b[k] == a[k])
  }

  ghost predicate MembersGrow(a: map<Tid, Member>, b: map<Tid, Member>, t: Tid) {
    forall u :: u != t ==> (u in a <==> u in b) && (u in a ==> b[u] == a[u])
  }

  ghost predicate Grows(s: State, s': State, t: Tid) {
    && s'.hashes == s.hashes && TablesGrow(s.tables, s'.tables, t) && ArrivalsGrow(s.arrivals, s'.arrivals, t) &&
      MembersGrow(s.members, s'.members, t)
    && |s'.pcs| == |s.pcs| && forall u :: 0 <= u < |s.pcs| && u != t ==> s'.pcs[u] == s.pcs[u]
  }

  lemma PassedKept(a: seq<Option<Tid>>, b: seq<Option<Tid>>, t: Tid, hash: nat, e: nat)
    requires KeysGrow(a, b, t) && Passed(a, hash, e)
    ensures Passed(b, hash, e)
  {
    forall x: nat | x < e ensures Taken(b, hash, x) { assert Taken(a, hash, x); }
  }

  lemma PassedNotKept(a: seq<Option<Tid>>, b: seq<Option<Tid>>, t: Tid, hash: nat, e: nat, u: Tid)
    requires KeysGrow(a, b, t) && PassedNot(a, hash, e, u)
    ensures PassedNot(b, hash, e, u)
  {
    PassedKept(a, b, t, hash, e);
    forall x: nat | x < e ensures b[Slot(hash, x, |b|)] != Some(u) { assert Taken(a, hash, x); }
  }

  lemma InTableKept(a: seq<Table>, b: seq<Table>, t: Tid, i: int, u: Tid)
    requires TablesGrow(a, b, t)
    ensures InTable(a, i, u) ==> InTable(b, i, u)
    ensures InTable(b, i, u) && u != t ==> InTable(a, i, u)
  {
    if InTable(a, i, u) {
      var p :| 0 <= p < |a[i].keys| && a[i].keys[p] == Some(u);
      assert b[i].keys[p] == Some(u);
    }
    if InTable(b, i, u) && u != t {
      var p :| 0 <= p < |b[i].keys| && b[i].keys[p] == Some(u);
      assert i < |a| ==> a[i].keys[p] == Some(u);
    }
  }

  lemma AbsentKept(a: seq<Table>, b: seq<Table>, t: Tid, u: Tid, from: nat, to: nat)
    requires TablesGrow(a, b, t) && u != t && Absent(a, u, from, to)
    ensures Absent(b, u, from, to)
  {
    forall i | from <= i < to ensures !InTable(b, i, u) { InTableKept(a, b, t, i, u); }
  }

  lemma CommittedKept(a: seq<Arrival>, m: map<Tid, Member>, a': seq<Arrival>, m': map<Tid, Member>, t: Tid, v: Tid,
      limit: nat)
    requires ArrivalsGrow(a, a', t) && MembersGrow(m, m', t) && CommittedBelow(a, m, v, limit)
    requires v == t ==> v in m' && m'[v] == m[v] && a'[m[v].k] == a[m[v].k]
    ensures CommittedBelow(a', m', v, limit)
  {
    assert a'[m[v].k].t == a[m[v].k].t;
  }

  /** Nothing another thread relies on is disturbed. */
  lemma OtherLocal(s: State, s': State, t: Tid, u: Tid, pc: PC)
    requires Grows(s, s', t) && u != t && LocalOk(s.tables, s.hashes, s.arrivals, s.members, u, pc)
    requires pc.Grow? ==> |s'.tables| == |s.tables|
    ensures LocalOk(s'.tables, s'.hashes, s'.arrivals, s'.members, u, pc)
  {
    match pc {
      case Lookup(main, h, e) =>
        PassedNotKept(s.tables[h].keys, s'.tables[h].keys, t, s.hashes[u], e, u);
        AbsentKept(s.tables, s'.tables, t, u, h + 1, main + 1);
      case AddAgain(main, e, p) =>
        PassedKept(s.tables[main].keys, s'.tables[main].keys, t, s.hashes[u], e);
        InTableKept(s.tables, s'.tables, t, main, u);
        CommittedKept(s.arrivals, s.members, s'.arrivals, s'.members, t, u, Limit(|s.tables[main].keys|));
      case Insert(main, e, p) =>
        PassedKept(s.tables[main].keys, s'.tables[main].keys, t, s.hashes[u], e);
        AbsentEverywhere(s.tables, s'.tables, t, u);
        CommittedKept(s.arrivals, s.members, s'.arrivals, s'.members, t, u, Limit(|s.tables[main].keys|));
      case Done(r) => if r.Some? { InTableKept(s.tables, s'.tables, t, s.members[u].home, u); }
      case GiveUp(_, k) =>
        var n :| PendingAt(s.arrivals, k, u, n);
        assert PendingAt(s'.arrivals, k, u, n);
      case _ =>
    }
  }

  lemma AbsentEverywhere(a: seq<Table>, b: seq<Table>, t: Tid, u: Tid)
    requires TablesGrow(a, b, t) && u != t && Absent(a, u, 0, |a|)
    ensures Absent(b, u, 0, |b|)
  {
    forall i | 0 <= i < |b| ensures !InTable(b, i, u) { InTableKept(a, b, t, i, u); }
  }

  lemma OtherLocals(s: State, s': State, t: Tid)
    requires LocalsOk(s) && t < |s.pcs| && Grows(s, s', t) &&
      LocalOk(s'.tables, s'.hashes, s'.arrivals, s'.members, t, s'.pcs[t])
    requires forall u :: 0 <= u < |s.pcs| && u != t && s.pcs[u].Grow? ==> |s'.tables| == |s.tables|
    ensures LocalsOk(s')
  {
    hide LocalOk;
    forall u | 0 <= u < |s'.pcs| ensures LocalOk(s'.tables, s'.hashes, s'.arrivals, s'.members, u, s'.pcs[u]) {
      if u != t {
        assert LocalOk(s.tables, s.hashes, s.arrivals, s.members, u, s.pcs[u]);
        OtherLocal(s, s', t, u, s.pcs[u]);
      }
    }
    assert s'.hashes == s.hashes && |s'.pcs| == |s.pcs|;
  }

  // ---- steps that only move one thread along ----

  predicate Writing(pc: PC) {
    pc.AddAgainValue? || pc.InsertValue?
  }

  /** Only the thread's own place changes, and perhaps the lock. */
  ghost predicate Moves(s: State, s': State, t: Tid) {
    && t < |s.pcs| == |s'.pcs| && s' == s.(pcs := s.pcs[t := s'.pcs[t]], locked := s'.locked)
    && !Writing(s.pcs[t]) && (s.pcs[t].Insert? ==> s'.pcs[t].Insert? && s'.pcs[t].main == s.pcs[t].main)
  }

  lemma MovesValues(tables: seq<Table>, members: map<Tid, Member>, pcs: seq<PC>, pcs': seq<PC>, t: Tid)
    requires ValuesOk(tables, members, pcs) && t < |pcs| == |pcs'| && pcs' == pcs[t := pcs'[t]] && !Writing(pcs[t])
    ensures ValuesOk(tables, members, pcs')
  {
    forall i, p | 0 <= i < |tables| && 0 <= p < |tables[i].keys| ensures ValueOk(tables, members, pcs', i, p) {
      assert ValueOk(tables, members, pcs, i, p);
    }
  }

  lemma MovesMembers(s: State, s': State, t: Tid)
    requires Moves(s, s', t) && MembersOk(s.tables, s.pcs, s.arrivals, s.made, s.members)
    ensures MembersOk(s'.tables, s'.pcs, s'.arrivals, s'.made, s'.members)
  {
    forall u | u in s.members ensures MemberOk(s'.tables, s'.pcs, s'.arrivals, s'.made, u, s'.members[u]) {
      assert MemberOk(s.tables, s.pcs, s.arrivals, s.made, u, s.members[u]);
    }
  }

  lemma SameGrows(s: State, s': State, t: Tid)
    requires Moves(s, s', t)
    ensures Grows(s, s', t)
  {
  }

  lemma MoveStep(s: State, s': State, t: Tid)
    requires Inv(s) && Moves(s, s', t) && LockOk(s'.pcs, s'.locked)
    requires LocalOk(s.tables, s.hashes, s.arrivals, s.members, t, s'.pcs[t])
    ensures Inv(s')
  {
    hide LocalOk, TablesOk, ValuesOk, MembersOk, LockOk, CounterOk, LocalsOk, Grows;
    MovesValues(s.tables, s.members, s.pcs, s'.pcs, t);
    MovesMembers(s, s', t);
    SameGrows(s, s', t);
    OtherLocals(s, s', t);
  }

  lemma SameLock(pcs: seq<PC>, locked: bool, t: Tid, pc: PC)
    requires LockOk(pcs, locked) && t < |pcs| && (HoldsLock(pc) ==> HoldsLock(pcs[t]))
    ensures LockOk(pcs[t := pc], locked)
  {
  }

  lemma TakeLock(pcs: seq<PC>, t: Tid, pc: PC)
    requires LockOk(pcs, false) && t < |pcs|
    ensures LockOk(pcs[t := pc], true)
  {
  }

  lemma DropLock(pcs: seq<PC>, t: Tid, pc: PC)
    requires LockOk(pcs, true) && t < |pcs| && HoldsLock(pcs[t]) && !HoldsLock(pc)
    ensures LockOk(pcs[t := pc], false)
  {
  }

  lemma ThreadLocal(s: State, t: Tid)
    requires Inv(s) && t < |s.pcs|
    ensures LocalOk(s.tables, s.hashes, s.arrivals, s.members, t, s.pcs[t]) && LockOk(s.pcs, s.locked) && t < |s.hashes|
  {
    hide LocalOk;
  }

  lemma NotMemberAbsent(s: State, t: Tid)
    requires Inv(s) && t !in s.members
    ensures Absent(s.tables, t, 0, |s.tables|)
  {
    hide Inv;
    forall i | 0 <= i < |s.tables| ensures !InTable(s.tables, i, t) {
      if InTable(s.tables, i, t) { KeysAreMembers(s, i, t); }
    }
  }

  lemma KeysAreMembers(s: State, i: nat, t: Tid)
    requires Inv(s) && InTable(s.tables, i, t)
    ensures t in s.members && CommittedBelow(s.arrivals, s.members, t, Limit(|s.tables[i].keys|))
    ensures t < |s.hashes| && exists p ::
      0 <= p < |s.tables[i].keys| && s.tables[i].keys[p] == Some(t) && Reached(s.tables[i].keys, s.hashes[t], p)
  {
    var p :| 0 <= p < |s.tables[i].keys| && s.tables[i].keys[p] == Some(t);
    assert KeyOk(s.tables[i].keys, s.hashes, s.arrivals, s.members, p);
  }

  /** A search that has only seen taken slots has not been all the way round. */
  lemma SearchIsShort(s: State, i: nat, hash: nat, e: nat)
    requires Inv(s) && i < |s.tables| && Passed(s.tables[i].keys, hash, e)
    ensures e < |s.tables[i].keys|
  {
    var keys := s.tables[i].keys;
    assert TableOk(keys, s.hashes, s.arrivals, s.members);
    forall v | v in KeySet(keys) ensures CommittedBelow(s.arrivals, s.members, v, Limit(|keys|)) {
      var p :| 0 <= p < |keys| && keys[p] == Some(v);
      assert KeyOk(keys, s.hashes, s.arrivals, s.members, p);
    }
    FreeSlot(s.count, s.arrivals, s.members, keys);
    var p :| 0 <= p < |keys| && keys[p] == None;
    var x := OneTurn(hash, p, |keys|);
    assert x < e ==> Taken(keys, hash, x);
  }

  // ---- looking up ----

  /** A search that has passed taken slots of other threads and now sees a free one: the thread is not in the table. */
  lemma NotHere(s: State, t: Tid, i: nat, e: nat)
    requires Inv(s) && i < |s.tables| && t < |s.hashes| && PassedNot(s.tables[i].keys, s.hashes[t], e, t)
    requires s.tables[i].keys[Slot(s.hashes[t], e, |s.tables[i].keys|)] == None
    ensures !InTable(s.tables, i, t)
  {
    hide Inv;
    if InTable(s.tables, i, t) {
      KeysAreMembers(s, i, t);
      StopsBefore(s.tables[i].keys, s.hashes[t], e, t);
    }
  }

  lemma StopsBefore(keys: seq<Option<Tid>>, hash: nat, e: nat, t: Tid)
    requires PassedNot(keys, hash, e, t) && keys[Slot(hash, e, |keys|)] == None
    ensures forall p :: 0 <= p < |keys| && keys[p] == Some(t) ==> !Reached(keys, hash, p)
  {
    forall p, d: nat | 0 <= p < |keys| && ReachedAt(keys, hash, p, d) ensures keys[p] != Some(t) {
      assert e < d ==> Taken(keys, hash, e);
    }
  }

  lemma LookupStep(s: State, t: Tid)
    requires Inv(s) && t < |s.pcs| && s.pcs[t].Lookup?
    ensures Inv(Apply(s, Run(t)))
  {
    hide Inv;
    var s' := Apply(s, Run(t));
    ThreadLocal(s, t);
    SameLock(s.pcs, s.locked, t, s'.pcs[t]);
    LookupLocal(s, t);
    MoveStep(s, s', t);
  }

  lemma LookupLocal(s: State, t: Tid)
    requires Inv(s) && t < |s.pcs| && s.pcs[t].Lookup? &&
      LocalOk(s.tables, s.hashes, s.arrivals, s.members, t, s.pcs[t])
    ensures LocalOk(s.tables, s.hashes, s.arrivals, s.members, t, Apply(s, Run(t)).pcs[t])
    ensures Moves(s, Apply(s, Run(t)), t) && Apply(s, Run(t)).locked == s.locked && !HoldsLock(Apply(s, Run(t)).pcs[t])
  {
    hide Inv;
    var Lookup(main, h, e) := s.pcs[t];
    var keys := s.tables[h].keys;
    var slot := Slot(s.hashes[t], e, |keys|);
    if keys[slot] == Some(t) {
      LookupFinds(s, t, h, slot);
      LimitGrows(s, h, main);
    } else if keys[slot] == None {
      NotHere(s, t, h, e);
      if h > 0 { LimitGrows(s, h - 1, h - 1); } else if t in s.members { HomeIsTable(s, t); }
    }
  }

  /** What stands under the thread's own key is its producer. */
  lemma LookupFinds(s: State, t: Tid, h: nat, slot: nat)
    requires Inv(s) && t < |s.pcs| && s.pcs[t].Lookup? && h < |s.tables| && slot < |s.tables[h].keys| &&
      s.tables[h].keys[slot] == Some(t)
    ensures t in s.members && slot < |s.tables[h].values| && s.tables[h].values[slot] == Some(s.members[t].p)
    ensures CommittedBelow(s.arrivals, s.members, t, Limit(|s.tables[h].keys|)) &&
      InTable(s.tables, s.members[t].home, t)
  {
    assert InTable(s.tables, h, t);
    KeysAreMembers(s, h, t);
    assert ValueOk(s.tables, s.members, s.pcs, h, slot);
    assert MemberOk(s.tables, s.pcs, s.arrivals, s.made, t, s.members[t]);
  }

  lemma HomeIsTable(s: State, t: Tid)
    requires Inv(s) && t in s.members && t < |s.pcs| && !s.pcs[t].Insert?
    ensures InTable(s.tables, s.members[t].home, t)
  {
    assert MemberOk(s.tables, s.pcs, s.arrivals, s.made, t, s.members[t]);
  }

  lemma LimitGrows(s: State, h: nat, main: nat)
    requires Inv(s) && h <= main < |s.tables|
    ensures Limit(|s.tables[h].keys|) <= Limit(|s.tables[main].keys|) && |s.tables[main].keys| > 0
  {
    assert TableOk(s.tables[main].keys, s.hashes, s.arrivals, s.members);
  }

  // ---- taking a slot ----

  lemma TakenTable(keys: seq<Option<Tid>>, hashes: seq<nat>, arrivals: seq<Arrival>, members: map<Tid, Member>, t: Tid,
      e: nat)
    requires TableOk(keys, hashes, arrivals, members) && t < |hashes| && Passed(keys, hashes[t], e) && e < |keys|
    requires keys[Slot(hashes[t], e, |keys|)] == None && Some(t) !in keys &&
      CommittedBelow(arrivals, members, t, Limit(|keys|))
    ensures TableOk(keys[Slot(hashes[t], e, |keys|) := Some(t)], hashes, arrivals, members)
  {
    var slot := Slot(hashes[t], e, |keys|);
    var keys' := keys[slot := Some(t)];
    forall p | 0 <= p < |keys'| ensures KeyOk(keys', hashes, arrivals, members, p) {
      if p != slot {
        assert KeyOk(keys, hashes, arrivals, members, p);
        if keys[p].Some? { ReachedKept(keys, keys', t, hashes[keys[p].value], p); }
      } else {
        PassedKept(keys, keys', t, hashes[t], e);
        assert ReachedAt(keys', hashes[t], slot, e);
      }
    }
  }

  lemma ReachedKept(a: seq<Option<Tid>>, b: seq<Option<Tid>>, t: Tid, hash: nat, p: nat)
    requires KeysGrow(a, b, t) && Reached(a, hash, p)
    ensures Reached(b, hash, p)
  {
    var d: nat :| ReachedAt(a, hash, p, d);
    PassedKept(a, b, t, hash, d);
    assert ReachedAt(b, hash, p, d);
  }

  /** A thread that is about to take a slot in table `i` for its producer. */
  ghost predicate Takes(s: State, t: Tid, i: nat, e: nat) {
    && t < |s.pcs| && ((s.pcs[t].AddAgain? && s.pcs[t].main == i && s.pcs[t].e == e) ||
      (s.pcs[t].Insert? && s.pcs[t].main == i && s.pcs[t].e == e))
    && t < |s.hashes| && i < |s.tables| && |s.tables[i].keys| > 0 &&
      s.tables[i].keys[Slot(s.hashes[t], e, |s.tables[i].keys|)] == None
  }

  ghost predicate TookSlot(s: State, s': State, t: Tid, i: nat, slot: nat) {
    && i < |s.tables| && slot < |s.tables[i].keys| && t < |s.pcs| == |s'.pcs|
    && s' == s.(tables := s.tables[i := Table(s.tables[i].keys[slot := Some(t)], s.tables[i].values)], pcs :=
      s.pcs[t := s'.pcs[t]])
    && Writes(s'.pcs[t], i, slot) && !Writing(s.pcs[t])
  }

  lemma TookTables(s: State, s': State, t: Tid, i: nat, e: nat)
    requires Inv(s) && Takes(s, t, i, e) && TookSlot(s, s', t, i, Slot(s.hashes[t], e, |s.tables[i].keys|))
    requires Passed(s.tables[i].keys, s.hashes[t], e) && !InTable(s.tables, i, t) &&
      CommittedBelow(s.arrivals, s.members, t, Limit(|s.tables[i].keys|))
    ensures TablesOk(s'.tables, s'.hashes, s'.arrivals, s'.members)
  {
    SearchIsShort(s, i, s.hashes[t], e);
    hide TableOk;
    TakenTable(s.tables[i].keys, s.hashes, s.arrivals, s.members, t, e);
  }

  lemma TookValues(s: State, s': State, t: Tid, i: nat, slot: nat)
    requires ValuesOk(s.tables, s.members, s.pcs) && TookSlot(s, s', t, i, slot) && t in s.members &&
      s.tables[i].keys[slot] == None
    ensures ValuesOk(s'.tables, s'.members, s'.pcs)
  {
    forall j, p | 0 <= j < |s'.tables| && 0 <= p < |s'.tables[j].keys|
      ensures ValueOk(s'.tables, s'.members, s'.pcs, j, p) {
      assert ValueOk(s.tables, s.members, s.pcs, j, p);
    }
  }

  lemma TookGrows(s: State, s': State, t: Tid, i: nat, slot: nat)
    requires TookSlot(s, s', t, i, slot) && s.tables[i].keys[slot] == None
    ensures Grows(s, s', t) && InTable(s'.tables, i, t)
  {
    assert s'.tables[i].keys[slot] == Some(t);
  }

  lemma TookMembers(s: State, s': State, t: Tid, i: nat, slot: nat)
    requires MembersOk(s.tables, s.pcs, s.arrivals, s.made, s.members) && TookSlot(s, s', t, i, slot) &&
      s.tables[i].keys[slot] == None
    requires s.pcs[t].Insert? ==> s.pcs[t].main == i
    ensures MembersOk(s'.tables, s'.pcs, s'.arrivals, s'.made, s'.members)
  {
    TookGrows(s, s', t, i, slot);
    forall u | u in s.members ensures MemberOk(s'.tables, s'.pcs, s'.arrivals, s'.made, u, s'.members[u]) {
      assert MemberOk(s.tables, s.pcs, s.arrivals, s.made, u, s.members[u]);
      InTableKept(s.tables, s'.tables, t, s.members[u].home, u);
    }
  }

  lemma TakeStep(s: State, t: Tid, i: nat, e: nat)
    requires Inv(s) && Takes(s, t, i, e)
    ensures Inv(Apply(s, Run(t)))
  {
    hide Inv, TablesOk, ValuesOk, MembersOk, LocalsOk, Grows;
    var s' := Apply(s, Run(t));
    var slot := Slot(s.hashes[t], e, |s.tables[i].keys|);
    ThreadLocal(s, t);
    Parts(s);
    assert TookSlot(s, s', t, i, slot);
    TookTables(s, s', t, i, e);
    TookValues(s, s', t, i, slot);
    TookGrows(s, s', t, i, slot);
    TookMembers(s, s', t, i, slot);
    SameLock(s.pcs, s.locked, t, s'.pcs[t]);
    OtherLocals(s, s', t);
    Whole(s');
  }

  lemma Parts(s: State)
    requires Inv(s)
    ensures TablesOk(s.tables, s.hashes, s.arrivals, s.members) && ValuesOk(s.tables, s.members, s.pcs)
    ensures MembersOk(s.tables, s.pcs, s.arrivals, s.made, s.members) && CounterOk(s.count, s.arrivals) &&
      LockOk(s.pcs, s.locked) && LocalsOk(s)
  {
  }

  lemma Whole(s: State)
    requires TablesOk(s.tables, s.hashes, s.arrivals, s.members) && ValuesOk(s.tables, s.members, s.pcs)
    requires MembersOk(s.tables, s.pcs, s.arrivals, s.made, s.members) && CounterOk(s.count, s.arrivals) &&
      LockOk(s.pcs, s.locked) && LocalsOk(s)
    ensures Inv(s)
  {
  }

  /** The slot is taken: on to the next. */
  lemma PassStep(s: State, t: Tid)
    requires Inv(s) && t < |s.pcs| && (s.pcs[t].AddAgain? || s.pcs[t].Insert?) &&
      !Takes(s, t, s.pcs[t].main, s.pcs[t].e)
    ensures Inv(Apply(s, Run(t)))
  {
    hide Inv;
    var s' := Apply(s, Run(t));
    ThreadLocal(s, t);
    OneMorePassed(s.tables[s.pcs[t].main].keys, s.hashes[t], s.pcs[t].e);
    SameLock(s.pcs, s.locked, t, s'.pcs[t]);
    MoveStep(s, s', t);
  }

  lemma OneMorePassed(keys: seq<Option<Tid>>, hash: nat, e: nat)
    requires Passed(keys, hash, e) && Taken(keys, hash, e)
    ensures Passed(keys, hash, e + 1)
  {
  }

  // ---- storing the producer ----

  ghost predicate StoredValue(s: State, s': State, t: Tid, i: nat, slot: nat, p: Producer) {
    && i < |s.tables| && slot < |s.tables[i].values| == |s.tables[i].keys| && t < |s.pcs| == |s'.pcs|
    && s' == s.(tables := s.tables[i := Table(s.tables[i].keys, s.tables[i].values[slot := Some(p)])], pcs :=
      s.pcs[t := Done(Some(p))])
    && s.tables[i].keys[slot] == Some(t) && t in s.members && s.members[t].p == p && Writes(s.pcs[t], i, slot)
  }

  lemma StoredValues(s: State, s': State, t: Tid, i: nat, slot: nat, p: Producer)
    requires ValuesOk(s.tables, s.members, s.pcs) && StoredValue(s, s', t, i, slot, p)
    ensures ValuesOk(s'.tables, s'.members, s'.pcs)
  {
    forall j, q | 0 <= j < |s'.tables| && 0 <= q < |s'.tables[j].keys|
      ensures ValueOk(s'.tables, s'.members, s'.pcs, j, q) {
      assert ValueOk(s.tables, s.members, s.pcs, j, q);
    }
  }

  lemma StoredTables(s: State, s': State, t: Tid, i: nat, slot: nat, p: Producer)
    requires StoredValue(s, s', t, i, slot, p) && TablesOk(s.tables, s.hashes, s.arrivals, s.members)
    ensures TablesOk(s'.tables, s'.hashes, s'.arrivals, s'.members) && Grows(s, s', t)
  {
    hide TableOk;
  }

  lemma StoredMembers(s: State, s': State, t: Tid, i: nat, slot: nat, p: Producer)
    requires StoredValue(s, s', t, i, slot, p) && MembersOk(s.tables, s.pcs, s.arrivals, s.made, s.members)
    ensures MembersOk(s'.tables, s'.pcs, s'.arrivals, s'.made, s'.members)
    ensures InTable(s'.tables, s.members[t].home, t)
  {
    assert Some(t) in s.tables[i].keys;
    forall u | u in s.members ensures MemberOk(s'.tables, s'.pcs, s'.arrivals, s'.made, u, s'.members[u]) &&
      (u == t ==> InTable(s'.tables, s.members[t].home, t)) {
      assert MemberOk(s.tables, s.pcs, s.arrivals, s.made, u, s.members[u]);
    }
  }

  lemma ValueStep(s: State, t: Tid)
    requires Inv(s) && t < |s.pcs| && Writing(s.pcs[t])
    ensures Inv(Apply(s, Run(t)))
  {
    hide Inv, TablesOk, ValuesOk, MembersOk, LocalsOk, Grows;
    var s' := Apply(s, Run(t));
    ThreadLocal(s, t);
    Parts(s);
    var i, slot, p := s.pcs[t].main, s.pcs[t].slot, s.pcs[t].p;
    ValuesFit(s, i);
    assert StoredValue(s, s', t, i, slot, p);
    StoredValues(s, s', t, i, slot, p);
    StoredTables(s, s', t, i, slot, p);
    StoredMembers(s, s', t, i, slot, p);
    SameLock(s.pcs, s.locked, t, s'.pcs[t]);
    OtherLocals(s, s', t);
    Whole(s');
  }

  lemma ValuesFit(s: State, i: nat)
    requires Inv(s) && i < |s.tables|
    ensures |s.tables[i].values| == |s.tables[i].keys|
  {
    hide TableOk;
  }

  // ---- arrivals ----

  /** The counter, an arrival of the thread's own or its membership changes, while it is in no table. */
  ghost predicate OwnArrival(s: State, s': State, t: Tid) {
    && t < |s.pcs| == |s'.pcs| && t !in s.members && s'.tables == s.tables && s'.hashes == s.hashes &&
      s'.pcs == s.pcs[t := s'.pcs[t]]
    && ArrivalsGrow(s.arrivals, s'.arrivals, t) && MembersGrow(s.members, s'.members, t) && !Writing(s.pcs[t])
  }

  lemma ArrivalTable(s: State, s': State, t: Tid, keys: seq<Option<Tid>>)
    requires OwnArrival(s, s', t) && TableOk(keys, s.hashes, s.arrivals, s.members)
    ensures TableOk(keys, s'.hashes, s'.arrivals, s'.members)
  {
    forall p | 0 <= p < |keys| ensures KeyOk(keys, s'.hashes, s'.arrivals, s'.members, p) {
      assert KeyOk(keys, s.hashes, s.arrivals, s.members, p);
      if keys[p].Some? {
        CommittedKept(s.arrivals, s.members, s'.arrivals, s'.members, t, keys[p].value, Limit(|keys|));
      }
    }
  }

  lemma ArrivalTables(s: State, s': State, t: Tid)
    requires OwnArrival(s, s', t) && TablesOk(s.tables, s.hashes, s.arrivals, s.members)
    ensures TablesOk(s'.tables, s'.hashes, s'.arrivals, s'.members)
  {
    hide TableOk, OwnArrival;
    forall i | 0 <= i < |s.tables| ensures TableOk(s.tables[i].keys, s'.hashes, s'.arrivals, s'.members) {
      ArrivalTable(s, s', t, s.tables[i].keys);
    }
    SameTables(s, s', t);
  }

  lemma SameTables(s: State, s': State, t: Tid)
    requires OwnArrival(s, s', t)
    ensures s'.tables == s.tables && Grows(s, s', t)
  {
  }

  lemma ArrivalValues(s: State, s': State, t: Tid)
    requires OwnArrival(s, s', t) && ValuesOk(s.tables, s.members, s.pcs)
    ensures ValuesOk(s'.tables, s'.members, s'.pcs)
  {
    forall j, q | 0 <= j < |s'.tables| && 0 <= q < |s'.tables[j].keys|
      ensures ValueOk(s'.tables, s'.members, s'.pcs, j, q) {
      assert ValueOk(s.tables, s.members, s.pcs, j, q);
    }
  }

  lemma ArrivalMembers(s: State, s': State, t: Tid)
    requires OwnArrival(s, s', t) && MembersOk(s.tables, s.pcs, s.arrivals, s.made, s.members) &&
      s'.members == s.members && s'.made == s.made
    ensures MembersOk(s'.tables, s'.pcs, s'.arrivals, s'.made, s'.members)
  {
    forall u | u in s.members ensures MemberOk(s'.tables, s'.pcs, s'.arrivals, s'.made, u, s'.members[u]) {
      assert MemberOk(s.tables, s.pcs, s.arrivals, s.made, u, s.members[u]);
    }
  }

  /** A step on the thread's own arrival keeps everything, given the counter, the members and its own new place. */
  lemma ArrivalStep(s: State, s': State, t: Tid)
    requires Inv(s) && OwnArrival(s, s', t) && CounterOk(s'.count, s'.arrivals) && LockOk(s'.pcs, s'.locked)
    requires MembersOk(s'.tables, s'.pcs, s'.arrivals, s'.made, s'.members)
    requires LocalOk(s'.tables, s'.hashes, s'.arrivals, s'.members, t, s'.pcs[t])
    ensures Inv(s')
  {
    hide Inv, TablesOk, ValuesOk, MembersOk, LocalsOk, Grows, LocalOk, CounterOk, LockOk, OwnArrival;
    Parts(s);
    ArrivalTables(s, s', t);
    ArrivalValues(s, s', t);
    SameTables(s, s', t);
    LocalBounds(s, s', t);
    OtherLocals(s, s', t);
    Whole(s');
  }

  lemma LocalBounds(s: State, s': State, t: Tid)
    requires OwnArrival(s, s', t)
    ensures t < |s.pcs|
  {
  }

  lemma FetchAddStep(s: State, t: Tid)
    requires Inv(s) && t < |s.pcs| && s.pcs[t].FetchAdd?
    ensures Inv(Apply(s, Run(t)))
  {
    hide Inv, MembersOk, CounterOk, LockOk, NotFailed;
    var s' := Apply(s, Run(t));
    ThreadLocal(s, t);
    Parts(s);
    CountNonNegative(s);
    CounterAdd(s.count, s.arrivals, t);
    SameLock(s.pcs, s.locked, t, s'.pcs[t]);
    ArrivalMembers(s, s', t);
    ArrivalStep(s, s', t);
  }

  lemma CountNonNegative(s: State)
    requires Inv(s)
    ensures s.count >= 0
  {
    hide TablesOk, ValuesOk, MembersOk, LocalsOk;
  }

  lemma GiveUpStep(s: State, t: Tid)
    requires Inv(s) && t < |s.pcs| && s.pcs[t].GiveUp?
    ensures Inv(Apply(s, Run(t)))
  {
    hide Inv, MembersOk, CounterOk, LockOk, NotFailed;
    var s' := Apply(s, Run(t));
    ThreadLocal(s, t);
    Parts(s);
    CounterSet(s.count, s.arrivals, s.pcs[t].k, Failed);
    SameLock(s.pcs, s.locked, t, s'.pcs[t]);
    ArrivalMembers(s, s', t);
    ArrivalStep(s, s', t);
  }

  lemma CreatedMembers(s: State, s': State, t: Tid)
    requires MembersOk(s.tables, s.pcs, s.arrivals, s.made, s.members) && OwnArrival(s, s', t) && s.pcs[t].Create? &&
      s.pcs[t].k < |s.arrivals| && s.arrivals[s.pcs[t].k].t == t
    requires s' == RunThread(s, t, s.pcs[t])
    ensures MembersOk(s'.tables, s'.pcs, s'.arrivals, s'.made, s'.members)
  {
    forall u | u in s'.members ensures MemberOk(s'.tables, s'.pcs, s'.arrivals, s'.made, u, s'.members[u]) {
      if u != t { assert MemberOk(s.tables, s.pcs, s.arrivals, s.made, u, s.members[u]); }
    }
    forall u, v | u in s'.members && v in s'.members && u != v ensures s'.members[u].p != s'.members[v].p {
      if u != t { assert MemberOk(s.tables, s.pcs, s.arrivals, s.made, u, s.members[u]); }
      if v != t { assert MemberOk(s.tables, s.pcs, s.arrivals, s.made, v, s.members[v]); }
    }
  }

  lemma CreateStep(s: State, t: Tid)
    requires Inv(s) && t < |s.pcs| && s.pcs[t].Create?
    ensures Inv(Apply(s, Run(t)))
  {
    hide Inv, MembersOk, CounterOk, LockOk, NotFailed, TableOk;
    var s' := Apply(s, Run(t));
    ThreadLocal(s, t);
    Parts(s);
    LimitGrows(s, s.pcs[t].main, s.pcs[t].main);
    NotMemberAbsent(s, t);
    CounterSet(s.count, s.arrivals, s.pcs[t].k, Committed);
    SameLock(s.pcs, s.locked, t, s'.pcs[t]);
    CreatedMembers(s, s', t);
    ArrivalStep(s, s', t);
  }

  // ---- growing ----

  ghost predicate Grew(s: State, s': State, t: Tid, c: nat) {
    && t < |s.pcs| == |s'.pcs| && s' == s.(tables := s.tables + [Empty(c)], pcs := s.pcs[t := s'.pcs[t]])
    && |s.tables| > 0 && c >= |s.tables[|s.tables| - 1].keys| && c > 0 && s.pcs[t].Grow? && s'.pcs[t].Unlock?
  }

  lemma EmptyOk(c: nat, hashes: seq<nat>, arrivals: seq<Arrival>, members: map<Tid, Member>)
    requires c > 0
    ensures TableOk(Empty(c).keys, hashes, arrivals, members)
  {
  }

  lemma GrewTables(s: State, s': State, t: Tid, c: nat)
    requires Grew(s, s', t, c) && TablesOk(s.tables, s.hashes, s.arrivals, s.members)
    ensures TablesOk(s'.tables, s'.hashes, s'.arrivals, s'.members) && Grows(s, s', t)
  {
    hide TableOk;
    EmptyOk(c, s.hashes, s.arrivals, s.members);
  }

  lemma GrewValues(s: State, s': State, t: Tid, c: nat)
    requires Grew(s, s', t, c) && ValuesOk(s.tables, s.members, s.pcs)
    ensures ValuesOk(s'.tables, s'.members, s'.pcs)
  {
    forall j, q | 0 <= j < |s'.tables| && 0 <= q < |s'.tables[j].keys|
      ensures ValueOk(s'.tables, s'.members, s'.pcs, j, q) {
      if j < |s.tables| { assert ValueOk(s.tables, s.members, s.pcs, j, q); }
    }
  }

  lemma GrewMembers(s: State, s': State, t: Tid, c: nat)
    requires Grew(s, s', t, c) && MembersOk(s.tables, s.pcs, s.arrivals, s.made, s.members)
    ensures MembersOk(s'.tables, s'.pcs, s'.arrivals, s'.made, s'.members)
  {
    forall u | u in s.members ensures MemberOk(s'.tables, s'.pcs, s'.arrivals, s'.made, u, s'.members[u]) {
      assert MemberOk(s.tables, s.pcs, s.arrivals, s.made, u, s.members[u]);
    }
  }

  lemma OnlyGrower(pcs: seq<PC>, locked: bool, t: Tid)
    requires LockOk(pcs, locked) && t < |pcs| && HoldsLock(pcs[t])
    ensures forall u :: 0 <= u < |pcs| && u != t ==> !HoldsLock(pcs[u])
    ensures locked
  {
  }

  lemma GrowStep(s: State, t: Tid)
    requires Inv(s) && t < |s.pcs| && s.pcs[t].Grow?
    ensures Inv(Apply(s, Run(t)))
  {
    hide Inv, TablesOk, ValuesOk, MembersOk, LocalsOk, Grows, LockOk, Grown, CounterOk;
    var s' := Apply(s, Run(t));
    ThreadLocal(s, t);
    Parts(s);
    var main := s.pcs[t].main;
    LimitGrows(s, main, main);
    var c := Grown(2 * Capacity(s, main), s.pcs[t].n);
    assert Grew(s, s', t, c);
    GrewTables(s, s', t, c);
    GrewValues(s, s', t, c);
    GrewMembers(s, s', t, c);
    SameLock(s.pcs, s.locked, t, s'.pcs[t]);
    OnlyGrower(s.pcs, s.locked, t);
    OtherLocals(s, s', t);
    Whole(s');
  }

  // ---- the other steps ----

  lemma LoadStep(s: State, t: Tid)
    requires Inv(s) && t < |s.pcs| && s.pcs[t].LoadMain?
    ensures Inv(Apply(s, Run(t)))
  {
    hide Inv;
    var s' := Apply(s, Run(t));
    ThreadLocal(s, t);
    Newest(s);
    SameLock(s.pcs, s.locked, t, s'.pcs[t]);
    if t in s.members { HomeIsTable(s, t); }
    MoveStep(s, s', t);
  }

  lemma Newest(s: State)
    requires Inv(s)
    ensures |s.tables| > 0 && |s.tables[|s.tables| - 1].keys| > 0
  {
    assert TableOk(s.tables[|s.tables| - 1].keys, s.hashes, s.arrivals, s.members);
  }

  predicate Counting(pc: PC) {
    pc.CheckSize? || pc.Resize? || pc.Unlock? || pc.CheckRoom? || pc.Reload? || pc.UnlockFailed? || pc.Done?
  }

  lemma CountingStep(s: State, t: Tid)
    requires Inv(s) && t < |s.pcs| && Counting(s.pcs[t])
    ensures Inv(Apply(s, Run(t)))
  {
    hide Inv, LockOk;
    var s' := Apply(s, Run(t));
    ThreadLocal(s, t);
    Newest(s);
    var pc := s.pcs[t];
    if pc.Unlock? || pc.UnlockFailed? {
      OnlyGrower(s.pcs, s.locked, t);
      DropLock(s.pcs, t, s'.pcs[t]);
    } else if s'.pcs[t].Resize? {
      TakeLock(s.pcs, t, s'.pcs[t]);
    } else {
      SameLock(s.pcs, s.locked, t, s'.pcs[t]);
    }
    MoveStep(s, s', t);
  }

  lemma CallStep(s: State, t: Tid)
    requires Inv(s) && t < |s.pcs| && s.pcs[t].Idle?
    ensures Inv(Apply(s, Call(t)))
  {
    hide Inv;
    ThreadLocal(s, t);
    SameLock(s.pcs, s.locked, t, LoadMain);
    MoveStep(s, Apply(s, Call(t)), t);
  }

  lemma NoMemoryStep(s: State, t: Tid)
    requires Inv(s) && Enabled(s, NoMemory(t))
    ensures Inv(Apply(s, NoMemory(t)))
  {
    hide Inv;
    ThreadLocal(s, t);
    SameLock(s.pcs, s.locked, t, Apply(s, NoMemory(t)).pcs[t]);
    MoveStep(s, Apply(s, NoMemory(t)), t);
  }

  lemma StepKeepsInv(s: State, a: Action)
    requires Inv(s) && Enabled(s, a)
    ensures Inv(Apply(s, a))
  {
    hide Inv, Apply, Takes;
    match a {
      case Call(t) => CallStep(s, t);
      case NoMemory(t) => NoMemoryStep(s, t);
      case Run(t) =>
        var pc := s.pcs[t];
        if pc.LoadMain? { LoadStep(s, t); }
        else if pc.Lookup? { LookupStep(s, t); }
        else if pc.AddAgain? || pc.Insert? {
          if Takes(s, t, pc.main, pc.e) { TakeStep(s, t, pc.main, pc.e); } else { PassStep(s, t); }
        }
        else if Writing(pc) { ValueStep(s, t); }
        else if pc.FetchAdd? { FetchAddStep(s, t); }
        else if pc.Grow? { GrowStep(s, t); }
        else if pc.Create? { CreateStep(s, t); }
        else if pc.GiveUp? { GiveUpStep(s, t); }
        else { CountingStep(s, t); }
    }
  }
}
