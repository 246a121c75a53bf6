/** What the ticket protocol guarantees over whole runs. */
module TicketTheorems {
  import opened Sums
  import opened Tickets
  import opened TicketInvariant

  ghost predicate IsRun<T>(states: seq<State<T>>, acts: seq<Action<T>>) {
    && |states| == |acts| + 1
    && Initial(states[0])
    && (forall i :: 0 <= i < |acts| ==> Enabled(states[i], acts[i]) && states[i + 1] == Apply(states[i], acts[i]))
  }

  lemma {:induction false} RunKeepsInv<T>(states: seq<State<T>>, acts: seq<Action<T>>, i: nat)
    requires IsRun(states, acts) && i < |states|
    ensures Inv(states[i])
  {
    if i == 0 {
      InitialInv(states[0]);
    } else {
      RunKeepsInv(states, acts, i - 1);
      StepKeepsInv(states[i - 1], acts[i - 1]);
    }
  }

  predicate Claims<T>(s: State<T>, a: Action<T>) {
    a.Run? && a.t < |s.pcs| && s.pcs[a.t].ClaimSlots?
  }

  /** The items handed out by the first `k` steps of a run, in the order of the claims on `headIndex`. */
  ghost function Delivered<T>(states: seq<State<T>>, acts: seq<Action<T>>, k: nat): seq<T>
    requires IsRun(states, acts) && k <= |acts|
  {
    if k == 0 then [] else
    Delivered(states, acts, k - 1) +
    ClaimedItems(states, acts, k - 1)
  }

  /** How many slots a step claims. */
  function Share<T>(s: State<T>, a: Action<T>): nat {
    if Claims(s, a) then s.pcs[a.t].actual else 0
  }

  ghost function ClaimedItems<T>(states: seq<State<T>>, acts: seq<Action<T>>, i: nat): (xs: seq<T>)
    requires IsRun(states, acts) && i < |acts|
  {
    ClaimFits(states, acts, i);
    states[i].items[states[i].head..states[i].head + Share(states[i], acts[i])]
  }

  lemma ClaimFits<T>(states: seq<State<T>>, acts: seq<Action<T>>, i: nat)
    requires IsRun(states, acts) && i < |acts|
    ensures Inv(states[i]) && states[i].head + Share(states[i], acts[i]) <= states[i].tail == |states[i].items|
  {
    hide Locals;
    RunKeepsInv(states, acts, i);
    if Claims(states[i], acts[i]) { ClaimsStayBelowTail(states[i], acts[i].t); } else { HeadBelowTail(states[i]); }
  }

  lemma HeadBelowTail<T>(s: State<T>)
    requires Inv(s)
    ensures s.head <= s.tail == |s.items|
  {
    hide Locals;
    GrantedFit(s.tickets, s.tail);
  }

  lemma StepDelivers<T>(s: State<T>, a: Action<T>)
    requires Inv(s) && Enabled(s, a) && s.head + Share(s, a) <= s.tail
    ensures var s' := Apply(s, a); s.items <= s'.items && |s'.items| == s'.tail
    ensures Apply(s, a).head == s.head + Share(s, a) <= Apply(s, a).tail
  {
  }

  lemma PrefixGrows<T>(xs: seq<T>, ys: seq<T>, h: nat, n: nat)
    requires xs <= ys && h + n <= |xs|
    ensures xs[..h] + xs[h..h + n] == ys[..h + n]
  {
  }

  lemma StartsEmpty<T>(s: State<T>)
    requires Initial(s)
    ensures s.head == s.tail == |s.items| == 0
  {
  }

  lemma DeliversOn<T>(delivered: seq<T>, s: State<T>, a: Action<T>, s': State<T>)
    requires Inv(s) && Enabled(s, a) && s' == Apply(s, a) && s.head + Share(s, a) <= s.tail == |s.items|
    requires delivered == s.items[..s.head]
    ensures s'.head <= s'.tail == |s'.items|
    ensures delivered + s.items[s.head..s.head + Share(s, a)] == s'.items[..s'.head]
  {
    hide Apply, Inv, Enabled, Share;
    StepDelivers(s, a);
    PrefixGrows(s.items, s'.items, s.head, Share(s, a));
  }

  lemma DeliveredStep<T>(states: seq<State<T>>, acts: seq<Action<T>>, k: nat)
    requires IsRun(states, acts) && 0 < k <= |acts|
    ensures var s, a := states[k - 1], acts[k - 1];
      && Inv(s) && Enabled(s, a) && states[k] == Apply(s, a) && s.head + Share(s, a) <= s.tail == |s.items|
      && Delivered(states, acts, k) == Delivered(states, acts, k - 1) + s.items[s.head..s.head + Share(s, a)]
  {
    hide Apply, Inv, Enabled, Initial, Share;
    ClaimFits(states, acts, k - 1);
  }

  /** First in, first out, nothing lost and nothing duplicated: in every run what the claims hand out, put end to
      end, is exactly the first `head` items that were enqueued. */
  lemma {:induction false} DeliveredIsPrefix<T>(states: seq<State<T>>, acts: seq<Action<T>>, k: nat)
    requires IsRun(states, acts) && k <= |acts|
    ensures states[k].head <= states[k].tail == |states[k].items|
    ensures Delivered(states, acts, k) == states[k].items[..states[k].head]
  {
    if k == 0 {
      StartsEmpty(states[0]);
    } else {
      hide Apply, Inv, Enabled, Initial, Share, Delivered;
      DeliveredIsPrefix(states, acts, k - 1);
      DeliveredStep(states, acts, k);
      DeliversOn(Delivered(states, acts, k - 1), states[k - 1], acts[k - 1], states[k]);
    }
  }

  predicate Takes(pc: PC, k: nat) {
    pc.Taking? && pc.first <= k < pc.first + pc.actual
  }

  /** No two threads are ever at work on the same slot, and every slot at work has been written. */
  lemma SlotsAreExclusive<T>(s: State<T>, t: Tid, u: Tid, k: nat)
    requires Inv(s) && t < |s.pcs| && u < |s.pcs| && Takes(s.pcs[t], k) && Takes(s.pcs[u], k)
    ensures t == u && k < s.tail == |s.items|
  {
    assert LocalOk(s, t, s.pcs[t]) && LocalOk(s, u, s.pcs[u]);
    ClaimsStayBelowTail(s, t);
    assert s.owners[k] == t;
  }

  /** The counters reconcile: every ticket drawn is a claimed slot, a return, or still in some thread's hands. */
  lemma CountersReconcile<T>(s: State<T>)
    requires Inv(s)
    ensures s.optimistic == s.head + s.overcommit + Sum(s.pcs, InFlight)
    ensures (forall t :: 0 <= t < |s.pcs| ==> InFlight(s.pcs[t]) == 0) ==> s.optimistic == s.head + s.overcommit
  {
    if forall t :: 0 <= t < |s.pcs| ==> InFlight(s.pcs[t]) == 0 {
      SumAll(s.pcs, InFlight, 0);
    }
  }

  ghost function RunAlone<T>(s: State<T>, t: Tid, steps: nat): State<T>
    decreases steps
  {
    if steps == 0 then s else RunAlone(Apply(s, Run(t)), t, steps - 1)
  }

  /** A dequeue running alone while no ticket is out takes as many items as there are, up to its maximum, and on
      an empty queue returns without touching a counter. */
  lemma DequeueAlone<T>(s: State<T>, t: Tid, max: nat)
    requires Inv(s) && t < |s.pcs| && s.pcs[t] == LoadTail(max)
    requires s.optimistic == s.head + s.overcommit
    ensures s.head < s.tail ==> var e := RunAlone(s, t, 6);
      e.pcs[t] == Taking(s.head, Min(max, s.tail - s.head)) && e.head == s.head + Min(max, s.tail - s.head)
    ensures s.head >= s.tail ==> RunAlone(s, t, 3) == s.(pcs := s.pcs[t := Idle])
  {
    var s1 := Apply(s, Run(t));
    var s2 := Apply(s1, Run(t));
    var s3 := Apply(s2, Run(t));
    assert s2.pcs[t] == LoadOptimistic(max, s.tail, s.overcommit);
    if s.head < s.tail {
      var n := Min(max, s.tail - s.head);
      assert s3.pcs[t] == TakeTickets(s.overcommit, n);
      var s4 := Apply(s3, Run(t));
      assert s4.pcs[t] == ReloadTail(s.overcommit, n, s.optimistic);
      var s5 := Apply(s4, Run(t));
      assert s5.pcs[t] == ClaimSlots(n, s.optimistic);
      var s6 := Apply(s5, Run(t));
      assert s6.pcs[t] == Taking(s.head, n);
      assert RunAlone(s, t, 6) == RunAlone(s1, t, 5) == RunAlone(s2, t, 4) == RunAlone(s3, t, 3) ==
        RunAlone(s4, t, 2) == RunAlone(s5, t, 1) == RunAlone(s6, t, 0);
    } else {
      assert s3.pcs == s.pcs[t := Idle];
      assert RunAlone(s, t, 3) == RunAlone(s1, t, 2) == RunAlone(s2, t, 1) == RunAlone(s3, t, 0);
    }
  }

  // ---- asking for nothing ----

  /** A thread at work for somebody who asked for something. */
  predicate Asks(pc: PC) {
    match pc
    case Idle => true
    case LoadTail(max) => max >= 1
    case LoadOvercommit(max, _) => max >= 1
    case LoadOptimistic(max, _, _) => max >= 1
    case TakeTickets(_, desired) => desired >= 1
    case ReloadTail(_, desired, _) => desired >= 1
    case GiveBackSome(_, actual, _) => actual >= 1
    case GiveBackAll(_, _) => true
    case ClaimSlots(actual, _) => actual >= 1
    case Taking(_, actual) => actual >= 1
  }

  lemma StepOthers<T>(s: State<T>, a: Action<T>, t: Tid)
    requires Enabled(s, a)
    ensures |Apply(s, a).pcs| == |s.pcs|
    ensures t < |s.pcs| && (a.Enqueue? || a.t != t) ==> Apply(s, a).pcs[t] == s.pcs[t]
  {
  }

  lemma StepAsks<T>(s: State<T>, a: Action<T>, t: Tid)
    requires Enabled(s, a) && t < |s.pcs| && Asks(s.pcs[t]) && (a.CallDequeue? && a.t == t ==> a.max >= 1)
    ensures |Apply(s, a).pcs| == |s.pcs| && Asks(Apply(s, a).pcs[t])
  {
    if !a.Enqueue? && a.t != t { StepOthers(s, a, t); }
  }

  /** The calls that thread `t` has made by step `i` asked for at least `m` each. */
  ghost predicate AsksFor<T>(acts: seq<Action<T>>, i: nat, t: Tid, m: nat) {
    forall j :: 0 <= j < i && j < |acts| && acts[j].CallDequeue? && acts[j].t == t ==> acts[j].max >= m
  }

  lemma {:induction false} RunAsks<T>(states: seq<State<T>>, acts: seq<Action<T>>, i: nat, t: Tid)
    requires IsRun(states, acts) && i < |states| && AsksFor(acts, i, t, 1) && t < |states[i].pcs|
    ensures Asks(states[i].pcs[t])
  {
    hide Apply, Enabled;
    if i > 0 {
      StepOthers(states[i - 1], acts[i - 1], t);
      RunAsks(states, acts, i - 1, t);
      StepAsks(states[i - 1], acts[i - 1], t);
    }
  }

  /** The index that a dequeue looks up first belongs to an element, whatever the others do, if the calls of its own
      thread so far asked for `m` or more. */
  ghost predicate LooksUpElements<T(!new)>(m: nat) {
    forall states: seq<State<T>>, acts: seq<Action<T>>, i: nat, t: Tid ::
      IsRun(states, acts) && i < |states| && AsksFor(acts, i, t, m) &&
      t < |states[i].pcs| && states[i].pcs[t].Taking? ==>
      states[i].pcs[t].first < states[i].tail
  }

  lemma AskingLooksUpElements<T>(states: seq<State<T>>, acts: seq<Action<T>>, i: nat, t: Tid)
    requires IsRun(states, acts) && i < |states| && AsksFor(acts, i, t, 1) && t < |states[i].pcs| &&
      states[i].pcs[t].Taking?
    ensures states[i].pcs[t].first < states[i].tail
  {
    RunAsks(states, acts, i, t);
    RunKeepsInv(states, acts, i);
    ClaimsStayBelowTail(states[i], t);
    assert LocalOk(states[i], t, states[i].pcs[t]);
  }

  ghost predicate Reaches<T>(states: seq<State<T>>, acts: seq<Action<T>>, s: State<T>) {
    IsRun(states, acts) && states[|acts|] == s
  }

  lemma OneStep<T>(states: seq<State<T>>, acts: seq<Action<T>>, s: State<T>, a: Action<T>)
      returns (states': seq<State<T>>, acts': seq<Action<T>>)
    requires Reaches(states, acts, s) && Enabled(s, a)
    ensures Reaches(states', acts', Apply(s, a))
  {
    hide Apply, Enabled;
    states', acts' := states + [Apply(s, a)], acts + [a];
  }

  /** One element: the first thread asks for nothing and finds something there, the second takes the element. */
  function Nothing<T>(x: T, p: PC, q: PC, head: nat, tickets: seq<Ticket>, owners: seq<Tid>): State<T> {
    State(1, head, |tickets|, 0, [p, q], [x], tickets, owners)
  }

  lemma NothingThere<T(!new)>(states: seq<State<T>>, acts: seq<Action<T>>, s: State<T>)
    requires Reaches(states, acts, s) && |s.pcs| > 0 && s.pcs[0].Taking? && s.pcs[0].first >= s.tail
    ensures !LooksUpElements<T>(0)
  {
    hide IsRun;
    assert AsksFor(acts, |acts|, 0, 0);
    assert |states| == |acts| + 1 by { RunHasStates(states, acts); }
    assert states[|acts|].pcs[0].Taking?;
  }

  lemma RunHasStates<T>(states: seq<State<T>>, acts: seq<Action<T>>)
    requires IsRun(states, acts)
    ensures |states| == |acts| + 1
  {
  }

  lemma Goes<T>(states: seq<State<T>>, acts: seq<Action<T>>, s: State<T>, a: Action<T>, s': State<T>)
      returns (states': seq<State<T>>, acts': seq<Action<T>>)
    requires Reaches(states, acts, s) && Enabled(s, a) && s' == Apply(s, a)
    ensures Reaches(states', acts', s')
  {
    states', acts' := OneStep(states, acts, s, a);
  }

  lemma BothCall<T>(x: T) returns (states: seq<State<T>>, acts: seq<Action<T>>)
    ensures Reaches(states, acts, Nothing(x, LoadTail(0), LoadTail(1), 0, [], []))
  {
    var s := State(0, 0, 0, 0, [Idle, Idle], [], [], []);
    states, acts := Goes([s], [], s, Enqueue([x]), Nothing(x, Idle, Idle, 0, [], []));
    states, acts := Goes(states, acts, Nothing(x, Idle, Idle, 0, [], []), CallDequeue(0, 0),
      Nothing(x, LoadTail(0), Idle, 0, [], []));
    states, acts := Goes(states, acts, Nothing(x, LoadTail(0), Idle, 0, [], []), CallDequeue(1, 1),
      Nothing(x, LoadTail(0), LoadTail(1), 0, [], []));
  }

  lemma FirstFinds<T>(x: T) returns (states: seq<State<T>>, acts: seq<Action<T>>)
    ensures Reaches(states, acts, Nothing(x, ClaimSlots(0, 0), LoadTail(1), 0, [], []))
  {
    var q: PC := LoadTail(1);
    states, acts := BothCall(x);
    states, acts := Goes(states, acts, Nothing(x, LoadTail(0), q, 0, [], []), Run(0),
      Nothing(x, LoadOvercommit(0, 1), q, 0, [], []));
    states, acts := Goes(states, acts, Nothing(x, LoadOvercommit(0, 1), q, 0, [], []), Run(0),
      Nothing(x, LoadOptimistic(0, 1, 0), q, 0, [], []));
    states, acts := Goes(states, acts, Nothing(x, LoadOptimistic(0, 1, 0), q, 0, [], []), Run(0),
      Nothing(x, TakeTickets(0, 0), q, 0, [], []));
    states, acts := Goes(states, acts, Nothing(x, TakeTickets(0, 0), q, 0, [], []), Run(0),
      Nothing(x, ReloadTail(0, 0, 0), q, 0, [], []));
    states, acts := Goes(states, acts, Nothing(x, ReloadTail(0, 0, 0), q, 0, [], []), Run(0),
      Nothing(x, ClaimSlots(0, 0), q, 0, [], []));
  }

  lemma SecondDraws<T>(x: T) returns (states: seq<State<T>>, acts: seq<Action<T>>)
    ensures Reaches(states, acts, Nothing(x, ClaimSlots(0, 0), ReloadTail(0, 1, 0), 0, [Pending(1)], []))
  {
    hide Reaches;
    var p: PC := ClaimSlots(0, 0);
    states, acts := FirstFinds(x);
    states, acts := Goes(states, acts, Nothing(x, p, LoadTail(1), 0, [], []), Run(1),
      Nothing(x, p, LoadOvercommit(1, 1), 0, [], []));
    states, acts := Goes(states, acts, Nothing(x, p, LoadOvercommit(1, 1), 0, [], []), Run(1),
      Nothing(x, p, LoadOptimistic(1, 1, 0), 0, [], []));
    states, acts := Goes(states, acts, Nothing(x, p, LoadOptimistic(1, 1, 0), 0, [], []), Run(1),
      Nothing(x, p, TakeTickets(0, 1), 0, [], []));
    states, acts := Goes(states, acts, Nothing(x, p, TakeTickets(0, 1), 0, [], []), Run(1),
      Nothing(x, p, ReloadTail(0, 1, 0), 0, [Pending(1)], []));
  }

  lemma SecondTakes<T>(x: T) returns (states: seq<State<T>>, acts: seq<Action<T>>)
    ensures Reaches(states, acts, Nothing(x, ClaimSlots(0, 0), Taking(0, 1), 1, [Claimed(1)], [1]))
  {
    hide Reaches;
    var p: PC := ClaimSlots(0, 0);
    states, acts := SecondDraws(x);
    states, acts := Goes(states, acts, Nothing(x, p, ReloadTail(0, 1, 0), 0, [Pending(1)], []), Run(1),
      Nothing(x, p, ClaimSlots(1, 0), 0, [Granted(1)], []));
    states, acts := Goes(states, acts, Nothing(x, p, ClaimSlots(1, 0), 0, [Granted(1)], []), Run(1),
      Nothing(x, p, Taking(0, 1), 1, [Claimed(1)], [1]));
  }

  /** A dequeue that asks for nothing may look up an index that holds no element yet: another thread took the last one
      between its check and its claim.  A thread that asks for something never does, whatever the others ask for. */
  lemma AskForSomething<T(!new)>(x: T, m: nat)
    ensures LooksUpElements<T>(m) <==> m >= 1
  {
    hide IsRun;
    if m >= 1 {
      forall states: seq<State<T>>, acts: seq<Action<T>>, i: nat, t: Tid | IsRun(states, acts) && i < |states| &&
        AsksFor(acts, i, t, m) && t < |states[i].pcs| && states[i].pcs[t].Taking?
        ensures states[i].pcs[t].first < states[i].tail {
        AskingLooksUpElements(states, acts, i, t);
      }
    } else {
      var states, acts := SecondTakes(x);
      states, acts := Goes(states, acts, Nothing(x, ClaimSlots(0, 0), Taking(0, 1), 1, [Claimed(1)], [1]), Run(0),
        Nothing(x, Taking(1, 0), Taking(0, 1), 1, [Claimed(1)], [1]));
      NothingThere(states, acts, Nothing(x, Taking(1, 0), Taking(0, 1), 1, [Claimed(1)], [1]));
    }
  }
}
