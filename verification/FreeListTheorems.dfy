/** Consequences of the invariant over whole runs. */
module FreeListTheorems {
  import opened Options
  import opened FreeList
  import opened FreeListInvariant

  ghost predicate IsRun(states: seq<State>, acts: seq<Action>) {
    && |states| == |acts| + 1
    && Initial(states[0])
    && (forall i :: 0 <= i < |acts| ==> Enabled(states[i], acts[i]) && states[i + 1] == Apply(states[i], acts[i]))
  }

  /** The node a step hands to the caller of `try_get`. */
  function Hands(s: State, a: Action): Option<Node> {
    if a.Run? && a.t in s.pcs && s.pcs[a.t].GetDone? then Some(s.pcs[a.t].node) else None
  }

  predicate AtRest(s: State) {
    forall t :: t in s.pcs ==> s.pcs[t] == Idle
  }

  lemma {:induction false} RunKeepsInv(states: seq<State>, acts: seq<Action>, i: nat)
    requires IsRun(states, acts) && i < |states|
    ensures Inv(states[i])
  {
    if i == 0 {
      InitialInv(states[0]);
    } else {
      RunKeepsInv(states, acts, i - 1);
      StepKeepsInv(states[i - 1], acts[i - 1]);
    }
  }

  /** No node is in two hands: nodes that threads are adding, pushing or have popped are pairwise different,
      none of them is on the list, and no node a caller holds is on the list. */
  lemma Exclusive(s: State, t: Tid, u: Tid)
    requires Inv(s) && t in s.pcs && u in s.pcs
    ensures t != u && Owns(s.pcs[t], t).Some? && Owns(s.pcs[u], u).Some? ==>
      Owns(s.pcs[t], t).value.0 != Owns(s.pcs[u], u).value.0
    ensures Owns(s.pcs[t], t).Some? ==>
      Owns(s.pcs[t], t).value.0 !in s.chain && s.place[Owns(s.pcs[t], t).value.0] != Held
    ensures forall n :: n in s.chain ==> s.place[n] != Held && s.place[n] != Flagged
  {
  }

  /** While a reader holds its reference, the `next` it saved is the node's, and if the node is still the head
      it is the rest of the list. */
  lemma SavedNextIsValid(s: State, t: Tid)
    requires Inv(s) && t in s.pcs && s.pcs[t].GetCas?
    ensures s.pcs[t].node in s.next && s.next[s.pcs[t].node] == s.pcs[t].seen
    ensures s.head == Some(s.pcs[t].node) ==> s.chain != [] && s.pcs[t].seen == After(s.chain, 0)
  {
    assert LocalOk(s, s.pcs[t]);
  }

  /** The assertion in `try_get`: the flag of a node just popped is clear, and dropping two references is safe. */
  lemma PoppedIsNotFlagged(s: State, t: Tid)
    requires Inv(s) && t in s.pcs && s.pcs[t].GetDone?
    ensures 2 <= RefsOf(s, s.pcs[t].node) < SHOULD_BE_ON_FREELIST
  {
    var n := s.pcs[t].node;
    GroundHolds(s, t, n);
    assert {t} <= Readers(s, n);
    CardinalityMonotone({t}, Readers(s, n));
  }

  /** Every reference word is the number of live readers plus the list's own reference, with the flag on top;
      it fits 32 bits and the count never runs into the flag. */
  lemma WordIsReadersPlusList(s: State, n: Node)
    requires Inv(s) && n in s.refs
    ensures s.refs[n] == Word(FlagSet(s, n), |Readers(s, n)| + ListRef(s, n))
    ensures CountBits(s.refs[n]) == |Readers(s, n)| + ListRef(s, n) <= |s.pcs| + 1
    ensures s.refs[n] < 0x1_0000_0000
    ensures FlagSet(s, n) <==> s.refs[n] >= SHOULD_BE_ON_FREELIST
  {
    hide Inv;
    NodeCounted(s, n);
    WordBits(FlagSet(s, n), |Readers(s, n)| + ListRef(s, n));
  }

  lemma NodeCounted(s: State, n: Node)
    requires Inv(s) && n in s.refs
    ensures CountOk(s, n) && |Readers(s, n)| + 1 <= |s.pcs| + 1 < SHOULD_BE_ON_FREELIST
  {
    ReadersBound(s, n);
  }

  lemma WordBits(flag: bool, count: nat)
    requires count < SHOULD_BE_ON_FREELIST
    ensures CountBits(Word(flag, count)) == count && Word(flag, count) < 0x1_0000_0000
    ensures flag <==> Word(flag, count) >= SHOULD_BE_ON_FREELIST
  {
  }

  /** No decrement ever goes below zero and no increment reaches 2^32 or carries into the flag bit. */
  lemma NoWrap(s: State, t: Tid)
    requires Inv(s) && t in s.pcs
    ensures s.pcs[t].GetDrop? ==> CountBits(RefsOf(s, s.pcs[t].node)) >= 1
    ensures s.pcs[t].GetDone? ==> CountBits(RefsOf(s, s.pcs[t].node)) >= 2
    ensures s.pcs[t].PushUndo? ==> 1 <= RefsOf(s, s.pcs[t].node) < SHOULD_BE_ON_FREELIST
    ensures s.pcs[t].AddFlag? ==> RefsOf(s, s.pcs[t].node) < SHOULD_BE_ON_FREELIST
    ensures s.pcs[t].GetTakeRef? && RefsOf(s, s.pcs[t].node) == s.pcs[t].refs ==>
      CountBits(s.pcs[t].refs) + 1 < SHOULD_BE_ON_FREELIST
  {
    if Touches(s.pcs[t]).Some? {
      var n := Touches(s.pcs[t]).value;
      GroundHolds(s, t, n);
      WordIsReadersPlusList(s, n);
      if s.pcs[t].GetDrop? {
        assert {t} <= Readers(s, n);
        CardinalityMonotone({t}, Readers(s, n));
      } else if s.pcs[t].GetDone? {
        PoppedIsNotFlagged(s, t);
      } else if s.pcs[t].GetTakeRef? {
        TakeRefBound(s, t, n);
      }
    }
  }

  lemma TakeRefBound(s: State, t: Tid, n: Node)
    requires Inv(s) && t in s.pcs && s.pcs[t].GetTakeRef? && s.pcs[t].node == n
    ensures |Readers(s, n)| + 1 <= |s.pcs|
  {
    assert Readers(s, n) <= s.pcs.Keys - {t};
    CardinalityMonotone(Readers(s, n), s.pcs.Keys - {t});
    assert |s.pcs.Keys| == |s.pcs|;
  }

  /** A flagged node always has a thread still obliged to drop a reference and, if it is the last, to push it. */
  lemma FlaggedHasObligedReader(s: State, n: Node)
    requires Inv(s) && n in s.place && s.place[n] == Flagged
    ensures exists t :: t in s.pcs && (s.pcs[t].GetNext? || s.pcs[t].GetCas? || s.pcs[t].GetDrop?) && s.pcs[t].node == n
  {
    assert CountOk(s, n);
    var t :| t in Readers(s, n);
    GroundHolds(s, t, n);
  }

  /** With no operation in flight every node is either with its caller, unreferenced, or on the list. */
  lemma RestPartition(s: State, n: Node)
    requires Inv(s) && AtRest(s) && n in s.refs
    ensures (s.place[n] == Held && s.refs[n] == 0 && n !in s.chain) ||
      (s.place[n] == Listed && s.refs[n] == 1 && n in s.chain)
  {
    assert CountOk(s, n);
    assert Readers(s, n) == {};
    if s.place[n] == Flagged {
      FlaggedHasObligedReader(s, n);
    }
  }

  /** How one step moves a node in and out of callers' hands. */
  ghost predicate HandsMove(s: State, a: Action, s': State, n: Node) {
    && n in s.place && n in s'.place
    && (s.place[n] == Held && s'.place[n] != Held ==> a.CallAdd? && a.node == n)
    && (s.place[n] != Held && s'.place[n] == Held ==> Hands(s, a) == Some(n))
    && (Hands(s, a) == Some(n) ==> s.place[n] != Held && s'.place[n] == Held)
  }

  lemma HandsMoveRun(s: State, t: Tid, m: Node, n: Node)
    requires Ground(s, t, m) && n in s.place
    requires s.head == Some(m) ==> s.place[m] == Listed
    ensures HandsMove(s, Run(t), Apply(s, Run(t)), n)
  {
  }

  lemma HandsMoveStep(s: State, a: Action, n: Node)
    requires Inv(s) && Enabled(s, a) && n in s.place
    ensures HandsMove(s, a, Apply(s, a), n)
  {
    if a.Run? && Touches(s.pcs[a.t]).Some? {
      var m := Touches(s.pcs[a.t]).value;
      GroundHolds(s, a.t, m);
      if s.head == Some(m) { HeadIsListed(s); }
      HandsMoveRun(s, a.t, m, n);
    }
  }

  lemma RunMovesHands(states: seq<State>, acts: seq<Action>, i: nat, n: Node)
    requires IsRun(states, acts) && i < |acts| && n in states[i].place
    ensures HandsMove(states[i], acts[i], states[i + 1], n)
  {
    RunKeepsInv(states, acts, i);
    HandsMoveStep(states[i], acts[i], n);
  }

  /** A node handed to a caller stays with callers until somebody adds it again. */
  lemma {:induction false} HeldUntilAdded(states: seq<State>, acts: seq<Action>, i: nat, j: nat, n: Node)
    requires IsRun(states, acts) && i <= j < |states|
    requires n in states[i].place && states[i].place[n] == Held
    requires forall k :: i <= k < j ==> !(acts[k].CallAdd? && acts[k].node == n)
    ensures n in states[j].place && states[j].place[n] == Held
  {
    if i < j {
      HeldUntilAdded(states, acts, i, j - 1, n);
      hide Apply, Inv;
      RunMovesHands(states, acts, j - 1, n);
    }
  }

  /** No node is handed to two callers: between two hand-outs of a node some thread has added it. */
  lemma HandedOutOnce(states: seq<State>, acts: seq<Action>, i: nat, j: nat, n: Node)
    requires IsRun(states, acts) && i < j < |acts|
    requires Hands(states[i], acts[i]) == Some(n) && Hands(states[j], acts[j]) == Some(n)
    ensures exists k :: i < k < j && acts[k].CallAdd? && acts[k].node == n
  {
    RunKeepsInv(states, acts, i);
    RunKeepsInv(states, acts, j);
    GroundHolds(states[i], acts[i].t, n);
    GroundHolds(states[j], acts[j].t, n);
    RunMovesHands(states, acts, i, n);
    RunMovesHands(states, acts, j, n);
    if !(exists k :: i < k < j && acts[k].CallAdd? && acts[k].node == n) {
      HeldUntilAdded(states, acts, i + 1, j, n);
      assert false;
    }
  }

  lemma {:induction false} NotHeldUntilHanded(states: seq<State>, acts: seq<Action>, i: nat, j: nat, n: Node)
    requires IsRun(states, acts) && i <= j < |states|
    requires n in states[i].place && states[i].place[n] != Held
    requires forall k :: i <= k < j ==> Hands(states[k], acts[k]) != Some(n)
    ensures n in states[j].place && states[j].place[n] != Held
  {
    if i < j {
      NotHeldUntilHanded(states, acts, i, j - 1, n);
      hide Apply, Inv;
      RunMovesHands(states, acts, j - 1, n);
    }
  }

  /** No node is lost: once nothing is in flight, a node that was added at step `i` and not handed out since
      is on the list reached from `freeListHead`. */
  lemma AddedIsListed(states: seq<State>, acts: seq<Action>, i: nat, j: nat, n: Node)
    requires IsRun(states, acts) && i < j < |states|
    requires acts[i].CallAdd? && acts[i].node == n
    requires forall k :: i < k < j ==> Hands(states[k], acts[k]) != Some(n)
    requires AtRest(states[j])
    ensures n in states[j].chain && Linked(states[j].chain, states[j].next)
    ensures states[j].head == Some(states[j].chain[0])
  {
    RunKeepsInv(states, acts, i);
    RunKeepsInv(states, acts, j);
    RunMovesHands(states, acts, i, n);
    NotHeldUntilHanded(states, acts, i + 1, j, n);
    assert Enabled(states[i], acts[i]);
    RestPartition(states[j], n);
  }

  // ---- when `try_get` finds nothing ----

  predicate InPush(pc: PC) {
    pc.PushHead? || pc.PushNext? || pc.PushRefs? || pc.PushCas? || pc.PushUndo?
  }

  /** In a call of `try_get`, be it finishing somebody's `add`, and not about to return a node. */
  predicate Getting(pc: PC) {
    pc.GetHead? || pc.GetRefs? || pc.GetTakeRef? || pc.GetNext? || pc.GetCas? || pc.GetDrop? ||
      (InPush(pc) && pc.k.Retry?)
  }

  /** The head read last was null. */
  predicate SawNull(pc: PC) {
    (pc.GetDrop? && pc.seen == None) || (InPush(pc) && pc.k == Retry(None))
  }

  /** At step `j` or later, with no new call of `t` since, the list was empty. */
  ghost predicate WasEmpty(states: seq<State>, acts: seq<Action>, i: nat, t: Tid) {
    exists j :: 0 <= j < i && j < |states| && states[j].chain == [] && NoCallSince(acts, j, i, t)
  }

  ghost predicate NoCallSince(acts: seq<Action>, j: nat, i: nat, t: Tid) {
    forall k :: j <= k < i && k < |acts| ==> !Calls(acts[k], t)
  }

  lemma SeesNull(s: State, t: Tid)
    requires Inv(s) && t in s.pcs && Enabled(s, Run(t)) && t in Apply(s, Run(t)).pcs
    ensures SawNull(Apply(s, Run(t)).pcs[t]) ==> SawNull(s.pcs[t]) || s.chain == []
    ensures Getting(s.pcs[t]) && Apply(s, Run(t)).pcs[t] == Idle ==> SawNull(s.pcs[t]) || s.chain == []
  {
    hide Inv, Apply, SawNull, Getting;
    HeadNull(s);
    RunIsThread(s, t);
    if InPush(s.pcs[t]) { PushSees(s, t); } else { GetSees(s, t); }
  }

  lemma PushSees(s: State, t: Tid)
    requires t in s.pcs && InPush(s.pcs[t])
    ensures var s' := RunThread(s, t, s.pcs[t]); t in s'.pcs && (SawNull(s'.pcs[t]) ==> SawNull(s.pcs[t]))
    ensures Getting(s.pcs[t]) && RunThread(s, t, s.pcs[t]).pcs[t] == Idle ==> SawNull(s.pcs[t])
  {
    hide RefsOf;
  }

  predicate Reading(pc: PC) {
    pc.GetHead? || pc.GetRefs? || pc.GetTakeRef? || pc.GetNext?
  }

  lemma GetSees(s: State, t: Tid)
    requires t in s.pcs && !InPush(s.pcs[t])
    ensures var s' := RunThread(s, t, s.pcs[t]);
      t in s'.pcs && (SawNull(s'.pcs[t]) ==> SawNull(s.pcs[t]) || s.head == None)
    ensures Getting(s.pcs[t]) && RunThread(s, t, s.pcs[t]).pcs[t] == Idle ==> SawNull(s.pcs[t]) || s.head == None
  {
    hide RunThread, SawNull, Getting;
    if Reading(s.pcs[t]) { ReadSees(s, t); } else { TakeSees(s, t); }
  }

  lemma ReadSees(s: State, t: Tid)
    requires t in s.pcs && Reading(s.pcs[t])
    ensures var s' := RunThread(s, t, s.pcs[t]); t in s'.pcs && !SawNull(s'.pcs[t]) && s'.pcs == s.pcs[t := s'.pcs[t]]
    ensures RunThread(s, t, s.pcs[t]).pcs[t] == Idle ==> s.head == None
  {
    hide RefsOf, CountBits;
  }

  lemma TakeSees(s: State, t: Tid)
    requires t in s.pcs && !InPush(s.pcs[t]) && !Reading(s.pcs[t])
    ensures var s' := RunThread(s, t, s.pcs[t]);
      t in s'.pcs && (SawNull(s'.pcs[t]) ==> SawNull(s.pcs[t]) || s.head == None) && s'.pcs == s.pcs[t := s'.pcs[t]]
    ensures Getting(s.pcs[t]) && RunThread(s, t, s.pcs[t]).pcs[t] == Idle ==> SawNull(s.pcs[t]) || s.head == None
  {
    hide RefsOf, Minus;
  }

  lemma RunIsThread(s: State, t: Tid)
    requires t in s.pcs
    ensures Apply(s, Run(t)) == RunThread(s, t, s.pcs[t])
  {
    hide RunThread;
  }

  lemma OnlyMoves(s: State, t: Tid)
    requires t in s.pcs
    ensures var s' := RunThread(s, t, s.pcs[t]); t in s'.pcs && s'.pcs == s.pcs[t := s'.pcs[t]]
  {
    hide RunThread;
    if InPush(s.pcs[t]) { PushMoves(s, t); } else if Reading(s.pcs[t]) { ReadSees(s, t); } else { TakeSees(s, t); }
  }

  lemma PushMoves(s: State, t: Tid)
    requires t in s.pcs && InPush(s.pcs[t])
    ensures var s' := RunThread(s, t, s.pcs[t]); t in s'.pcs && s'.pcs == s.pcs[t := s'.pcs[t]]
  {
    hide RefsOf, Resumed;
  }

  lemma HeadNull(s: State)
    requires Inv(s)
    ensures s.head == None <==> s.chain == []
  {
  }

  lemma OtherThread(s: State, a: Action, t: Tid)
    requires t in s.pcs && (a.NewNode? || a.t != t)
    ensures t in Apply(s, a).pcs && Apply(s, a).pcs[t] == s.pcs[t]
  {
    hide RunThread;
    if a.Run? && a.t in s.pcs { OnlyMoves(s, a.t); }
  }

  lemma SameThreads(s: State, a: Action)
    requires Enabled(s, a)
    ensures Apply(s, a).pcs.Keys == s.pcs.Keys
  {
    hide RunThread;
    if a.Run? { OnlyMoves(s, a.t); }
  }

  lemma CallSeesNothing(s: State, a: Action)
    requires Enabled(s, a) && (a.CallGet? || a.CallAdd?)
    ensures a.t in Apply(s, a).pcs && !SawNull(Apply(s, a).pcs[a.t])
  {
  }

  lemma EmptyStays(states: seq<State>, acts: seq<Action>, i: nat, t: Tid)
    requires i < |acts| && WasEmpty(states, acts, i, t) && !Calls(acts[i], t)
    ensures WasEmpty(states, acts, i + 1, t)
  {
    var j :| 0 <= j < i && j < |states| && states[j].chain == [] && NoCallSince(acts, j, i, t);
    assert NoCallSince(acts, j, i + 1, t);
  }

  lemma EmptyNow(states: seq<State>, acts: seq<Action>, i: nat, t: Tid)
    requires i < |acts| && i < |states| && states[i].chain == [] && !Calls(acts[i], t)
    ensures WasEmpty(states, acts, i + 1, t)
  {
    assert NoCallSince(acts, i, i + 1, t);
  }

  predicate Calls(a: Action, t: Tid) {
    (a.CallGet? || a.CallAdd?) && a.t == t
  }

  /** A thread that has seen null had seen it before, or sees the list empty now. */
  lemma NullStep(s: State, a: Action, t: Tid)
    requires Inv(s) && Enabled(s, a) && t in Apply(s, a).pcs && SawNull(Apply(s, a).pcs[t])
    ensures !Calls(a, t) && t in s.pcs && (SawNull(s.pcs[t]) || s.chain == [])
  {
    hide Apply, Enabled, SawNull, Inv;
    SameThreads(s, a);
    if a.NewNode? || a.t != t {
      OtherThread(s, a, t);
    } else if a.Run? {
      SeesNull(s, t);
    } else {
      CallSeesNothing(s, a);
    }
  }

  lemma {:induction false} NullWasEmpty(states: seq<State>, acts: seq<Action>, i: nat, t: Tid)
    requires IsRun(states, acts) && i < |states| && t in states[i].pcs && SawNull(states[i].pcs[t])
    ensures WasEmpty(states, acts, i, t)
  {
    hide Apply, Enabled, WasEmpty, Inv;
    if i > 0 {
      RunKeepsInv(states, acts, i - 1);
      NullStep(states[i - 1], acts[i - 1], t);
      if states[i - 1].chain == [] {
        EmptyNow(states, acts, i - 1, t);
      } else {
        NullWasEmpty(states, acts, i - 1, t);
        EmptyStays(states, acts, i - 1, t);
      }
    }
  }

  /** `try_get` returns null only if at some point during the call the list was empty. */
  lemma NullMeansEmpty(states: seq<State>, acts: seq<Action>, i: nat, t: Tid)
    requires IsRun(states, acts) && i < |acts| && acts[i] == Run(t)
    requires t in states[i].pcs && Getting(states[i].pcs[t]) && t in states[i + 1].pcs && states[i + 1].pcs[t] == Idle
    ensures WasEmpty(states, acts, i + 1, t)
  {
    hide Apply, SawNull, WasEmpty, Inv, Getting;
    RunKeepsInv(states, acts, i);
    SeesNull(states[i], t);
    if SawNull(states[i].pcs[t]) {
      NullWasEmpty(states, acts, i, t);
      EmptyStays(states, acts, i, t);
    } else {
      EmptyNow(states, acts, i, t);
    }
  }

  function RunAlone(s: State, t: Tid, steps: nat): State
    decreases steps
  {
    if steps == 0 then s else RunAlone(Apply(s, Run(t)), t, steps - 1)
  }

  lemma {:induction false} RunAloneTwice(s: State, t: Tid, a: nat, b: nat)
    ensures RunAlone(s, t, a + b) == RunAlone(RunAlone(s, t, a), t, b)
    decreases a
  {
    hide Apply;
    if a > 0 {
      RunAloneTwice(Apply(s, Run(t)), t, a - 1, b);
    }
  }

  lemma FirstNode(s: State)
    requires Inv(s) && s.chain != []
    ensures s.head == Some(s.chain[0]) && s.chain[0] in s.refs && CountBits(s.refs[s.chain[0]]) != 0
  {
    hide Inv, CountBits;
    FirstIsListed(s);
    ListedIsCounted(s, s.chain[0]);
  }

  lemma FirstIsListed(s: State)
    requires Inv(s) && s.chain != []
    ensures s.head == Some(s.chain[0]) && s.chain[0] in s.place && s.place[s.chain[0]] == Listed
  {
    hide Domains, Owned, Counted, Locals;
    HeadIsListed(s);
  }

  lemma ListedIsCounted(s: State, n: Node)
    requires Inv(s) && n in s.place && s.place[n] == Listed
    ensures n in s.refs && CountBits(s.refs[n]) != 0
  {
    hide Chained, Owned, Locals, CountBits, Word, Readers, FlagSet, EarlyPush;
    assert CountOk(s, n);
    ReadersBound(s, n);
    WordBits(FlagSet(s, n), |Readers(s, n)| + ListRef(s, n));
  }

  /** A thread running by itself, whatever the others were doing, takes the first node in six steps. */
  lemma GetAlone(s: State, t: Tid)
    requires Inv(s) && t in s.pcs && s.pcs[t] == GetHead && s.chain != []
    ensures var e := RunAlone(s, t, 5); e.pcs == s.pcs[t := GetDone(s.chain[0])] && Hands(e, Run(t)) == Some(s.chain[0])
    ensures var e := RunAlone(s, t, 6);
      e.pcs == s.pcs[t := Idle] && e.chain == s.chain[1..] && e.place == s.place[s.chain[0] := Held]
  {
    hide Apply, Inv;
    var n := s.chain[0];
    FirstNode(s);
    GetAloneStart(s, t, n);
    var m := RunAlone(s, t, 3);
    GetAloneEnd(m, t, n);
    RunAloneTwice(s, t, 3, 2);
    RunAloneTwice(s, t, 3, 3);
    assert m.pcs[t := GetDone(n)] == s.pcs[t := GetDone(n)] && m.pcs[t := Idle] == s.pcs[t := Idle];
  }

  lemma GetAloneStart(s: State, t: Tid, n: Node)
    requires t in s.pcs && s.pcs[t] == GetHead && s.head == Some(n) && n in s.refs && CountBits(s.refs[n]) != 0
    ensures var e := RunAlone(s, t, 3);
      e.pcs == s.pcs[t := GetNext(n)] && e.head == s.head && e.chain == s.chain && e.place == s.place
  {
    hide Apply;
    GetAloneReads(s, t, n);
    var s1 := s.(pcs := s.pcs[t := GetRefs(n)]);
    var s2 := s1.(pcs := s1.pcs[t := GetTakeRef(n, s.refs[n])]);
    GetAloneTakes(s2, t, n);
    var s3 := Apply(s2, Run(t));
    assert RunAlone(s, t, 3) == RunAlone(s1, t, 2) == RunAlone(s2, t, 1) == RunAlone(s3, t, 0);
    assert s2.pcs[t := GetNext(n)] == s.pcs[t := GetNext(n)];
  }

  lemma GetAloneReads(s: State, t: Tid, n: Node)
    requires t in s.pcs && s.pcs[t] == GetHead && s.head == Some(n) && n in s.refs && CountBits(s.refs[n]) != 0
    ensures Apply(s, Run(t)) == s.(pcs := s.pcs[t := GetRefs(n)])
    ensures var s1 := s.(pcs := s.pcs[t := GetRefs(n)]);
      Apply(s1, Run(t)) == s1.(pcs := s1.pcs[t := GetTakeRef(n, s.refs[n])])
  {
  }

  lemma GetAloneTakes(s: State, t: Tid, n: Node)
    requires t in s.pcs && n in s.refs && s.pcs[t] == GetTakeRef(n, s.refs[n])
    ensures var e := Apply(s, Run(t));
      e.pcs == s.pcs[t := GetNext(n)] && e.head == s.head && e.chain == s.chain && e.place == s.place
  {
  }

  lemma GetAloneEnd(s: State, t: Tid, n: Node)
    requires t in s.pcs && s.pcs[t] == GetNext(n) && s.head == Some(n) && s.chain != []
    ensures RunAlone(s, t, 2).pcs == s.pcs[t := GetDone(n)]
    ensures var e := RunAlone(s, t, 3);
      e.pcs == s.pcs[t := Idle] && e.chain == s.chain[1..] && e.place == s.place[n := Held]
  {
    hide Apply;
    GetAlonePops(s, t, n);
    var s1 := Apply(s, Run(t));
    var s2 := Apply(s1, Run(t));
    GetAloneDrops(s2, t, n);
    var s3 := Apply(s2, Run(t));
    assert RunAlone(s, t, 2) == RunAlone(s1, t, 1) == RunAlone(s2, t, 0);
    assert RunAlone(s, t, 3) == RunAlone(s1, t, 2) == RunAlone(s2, t, 1) == RunAlone(s3, t, 0);
    assert s2.pcs[t := Idle] == s.pcs[t := Idle];
    assert s2.place[n := Held] == s.place[n := Held];
  }

  lemma GetAlonePops(s: State, t: Tid, n: Node)
    requires t in s.pcs && s.pcs[t] == GetNext(n) && s.head == Some(n) && s.chain != []
    ensures var s2 := Apply(Apply(s, Run(t)), Run(t));
      s2.pcs == s.pcs[t := GetDone(n)] && s2.chain == s.chain[1..] && s2.place == s.place[n := Popped(t)]
  {
    var s1 := Apply(s, Run(t));
    assert s1.pcs[t].GetCas? && s1.pcs[t].node == n;
  }

  lemma GetAloneDrops(s: State, t: Tid, n: Node)
    requires t in s.pcs && s.pcs[t] == GetDone(n)
    ensures var e := Apply(s, Run(t)); e.pcs == s.pcs[t := Idle] && e.chain == s.chain && e.place == s.place[n := Held]
  {
  }

  /** A thread that has become responsible for a push and runs by itself puts the node in front of the list. */
  lemma PushAlone(s: State, t: Tid, n: Node)
    requires t in s.pcs && s.pcs[t].PushHead? && s.pcs[t].node == n
    ensures var e := RunAlone(s, t, 4);
      e.pcs == s.pcs[t := Resumed(s.pcs[t].k)] && e.chain == [n] + s.chain && e.head == Some(n) &&
      e.place == s.place[n := Listed]
  {
    var s1 := Apply(s, Run(t));
    assert s1.pcs[t] == PushNext(n, s.head, s.pcs[t].k);
    var s2 := Apply(s1, Run(t));
    assert s2.pcs[t] == PushRefs(n, s.head, s.pcs[t].k);
    var s3 := Apply(s2, Run(t));
    assert s3.pcs[t] == PushCas(n, s.head, s.pcs[t].k);
    var s4 := Apply(s3, Run(t));
    assert RunAlone(s, t, 4) == RunAlone(s1, t, 3) == RunAlone(s2, t, 2) == RunAlone(s3, t, 1) == RunAlone(s4, t, 0);
  }

  /** `add` by itself: with no reader left the node is on the list when `add` returns; otherwise the node is left
      to its last reader. */
  lemma AddAlone(s: State, t: Tid, n: Node)
    requires Inv(s) && t in s.pcs && s.pcs[t] == AddFlag(n)
    ensures Readers(s, n) == {} ==> var e := RunAlone(s, t, 5); e.pcs == s.pcs[t := Idle] && e.chain == [n] + s.chain
    ensures Readers(s, n) != {} ==> var e := RunAlone(s, t, 1);
      e.pcs == s.pcs[t := Idle] && e.chain == s.chain && e.place == s.place[n := Flagged]
  {
    hide Inv, Apply, Ground;
    GroundHolds(s, t, n);
    AddFlagOutcome(s, t, n);
    var s1 := Apply(s, Run(t));
    if Readers(s, n) == {} {
      PushAlone(s1, t, n);
      assert RunAlone(s, t, 5) == RunAlone(s1, t, 4);
    } else {
      assert RunAlone(s, t, 1) == RunAlone(s1, t, 0);
    }
  }

  lemma AddFlagOutcome(s: State, t: Tid, n: Node)
    requires Ground(s, t, n) && s.pcs[t] == AddFlag(n)
    ensures var e := Apply(s, Run(t));
      e.chain == s.chain && e.pcs == s.pcs[t := if Readers(s, n) == {} then PushHead(n, Return) else Idle]
    ensures Readers(s, n) != {} ==> Apply(s, Run(t)).place == s.place[n := Flagged]
  {
    if Readers(s, n) != {} {
      var u :| u in Readers(s, n);
    }
  }

  /** The last reader of a flagged node completes the deferred `add`. */
  lemma LastReaderCompletesAdd(s: State, t: Tid, n: Node)
    requires Inv(s) && t in s.pcs && s.pcs[t].GetDrop? && s.pcs[t].node == n
    requires s.place[n] == Flagged && Readers(s, n) == {t}
    ensures var e := RunAlone(s, t, 5); e.chain == [n] + s.chain && e.pcs == s.pcs[t := Loop(s.pcs[t].seen)]
  {
    hide Inv, Apply, Ground;
    GroundHolds(s, t, n);
    GetDropOutcome(s, t, n);
    var s1 := Apply(s, Run(t));
    PushAlone(s1, t, n);
    assert RunAlone(s, t, 5) == RunAlone(s1, t, 4);
  }

  lemma GetDropOutcome(s: State, t: Tid, n: Node)
    requires Ground(s, t, n) && s.pcs[t].GetDrop? && s.place[n] == Flagged && Readers(s, n) == {t}
    ensures var e := Apply(s, Run(t)); e.chain == s.chain && e.pcs == s.pcs[t := PushHead(n, Retry(s.pcs[t].seen))]
  {
  }
}
