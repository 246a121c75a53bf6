module ProducerHashTheorems {
  import opened Options
  import opened ProducerHash
  import opened ProducerHashInvariant

  ghost predicate IsRun(run: seq<State>, acts: seq<Action>) {
    && |run| == |acts| + 1 && Initial(run[0])
    && forall i :: 0 <= i < |acts| ==> Enabled(run[i], acts[i]) && run[i + 1] == Apply(run[i], acts[i])
  }

  lemma {:induction false} RunKeepsInv(run: seq<State>, acts: seq<Action>, i: nat)
    requires IsRun(run, acts) && i < |run|
    ensures Inv(run[i])
  {
    hide Inv, Apply, Enabled;
    if i == 0 {
      InitialInv(run[0]);
    } else {
      RunKeepsInv(run, acts, i - 1);
      StepKeepsInv(run[i - 1], acts[i - 1]);
    }
  }

  /** Every table always has a free slot, however threads look themselves up, add themselves again and grow the
      chain. */
  lemma AlwaysRoom(run: seq<State>, acts: seq<Action>, i: nat, h: nat)
    requires IsRun(run, acts) && i < |run| && h < |run[i].tables|
    ensures exists p :: 0 <= p < |run[i].tables[h].keys| && run[i].tables[h].keys[p] == None
  {
    hide IsRun;
    RunKeepsInv(run, acts, i);
    var s := run[i];
    var keys := s.tables[h].keys;
    assert TableOk(keys, s.hashes, s.arrivals, s.members);
    forall v | v in KeySet(keys) ensures CommittedBelow(s.arrivals, s.members, v, Limit(|keys|)) {
      var p :| 0 <= p < |keys| && keys[p] == Some(v);
      assert KeyOk(keys, s.hashes, s.arrivals, s.members, p);
    }
    FreeSlot(s.count, s.arrivals, s.members, keys);
  }

  /** Every probe loop ends within one turn of its table. */
  lemma ProbesEnd(run: seq<State>, acts: seq<Action>, i: nat, t: Tid)
    requires IsRun(run, acts) && i < |run| && t < |run[i].pcs|
    ensures run[i].pcs[t].Lookup? ==> run[i].pcs[t].e < Capacity(run[i], run[i].pcs[t].h)
    ensures run[i].pcs[t].AddAgain? || run[i].pcs[t].Insert? ==> run[i].pcs[t].e < Capacity(run[i], run[i].pcs[t].main)
  {
    hide IsRun, Inv;
    RunKeepsInv(run, acts, i);
    var s := run[i];
    ThreadLocal(s, t);
    match s.pcs[t] {
      case Lookup(main, h, e) => SearchIsShort(s, h, s.hashes[t], e);
      case AddAgain(main, e, p) => SearchIsShort(s, main, s.hashes[t], e);
      case Insert(main, e, p) => SearchIsShort(s, main, s.hashes[t], e);
      case _ =>
    }
  }

  /** Two threads never share a producer. */
  lemma NeverShared(run: seq<State>, acts: seq<Action>, i: nat, t: Tid, u: Tid)
    requires IsRun(run, acts) && i < |run| && t < |run[i].pcs| && u < |run[i].pcs| && t != u
    requires run[i].pcs[t].Done? && run[i].pcs[t].result.Some? && run[i].pcs[u].Done? && run[i].pcs[u].result.Some?
    ensures run[i].pcs[t].result != run[i].pcs[u].result
  {
    hide IsRun;
    RunKeepsInv(run, acts, i);
    hide Inv;
    ThreadLocal(run[i], t);
    ThreadLocal(run[i], u);
    Parts(run[i]);
  }

  lemma MemberStays(s: State, a: Action, t: Tid)
    requires Inv(s) && Enabled(s, a) && t in s.members
    ensures t in Apply(s, a).members && Apply(s, a).members[t] == s.members[t]
  {
    hide Inv;
    if a.Run? && s.pcs[a.t].Create? { ThreadLocal(s, a.t); }
  }

  lemma {:induction false} MemberForEver(run: seq<State>, acts: seq<Action>, i: nat, j: nat, t: Tid)
    requires IsRun(run, acts) && i <= j < |run| && t in run[i].members
    ensures t in run[j].members && run[j].members[t] == run[i].members[t]
    decreases j
  {
    hide Inv, Apply, Enabled, Initial;
    if i < j {
      MemberForEver(run, acts, i, j - 1, t);
      RunKeepsInv(run, acts, j - 1);
      MemberStays(run[j - 1], acts[j - 1], t);
    }
  }

  /** A thread always gets the same producer back. */
  lemma SameProducer(run: seq<State>, acts: seq<Action>, i: nat, j: nat, t: Tid)
    requires IsRun(run, acts) && i <= j < |run| && t < |run[i].pcs| && t < |run[j].pcs|
    requires run[i].pcs[t].Done? && run[i].pcs[t].result.Some? && run[j].pcs[t].Done? && run[j].pcs[t].result.Some?
    ensures run[i].pcs[t].result == run[j].pcs[t].result
  {
    hide IsRun, Inv;
    RunKeepsInv(run, acts, i);
    RunKeepsInv(run, acts, j);
    ThreadLocal(run[i], t);
    ThreadLocal(run[j], t);
    MemberForEver(run, acts, i, j, t);
  }
}
