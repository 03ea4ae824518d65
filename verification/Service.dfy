/** Bounded service: how long a waiting task can be overtaken.  Once the virtual-time
    front has passed a deadline by the largest lag, nobody is queued before it any more,
    and a CPU that keeps dispatching from its own tiers works off what is ahead. */
module Service {
  import opened Numbers
  import opened VirtualTime
  import opened Dsq
  import opened Hierarchy
  import opened WorkConservation
  import opened Machine
  import opened Runs

  /** Waiters of one queue with a deadline not later than `d`. */
  function NotLater(ws: seq<Waiter>, d: nat): nat {
    if ws == [] then 0 else (if ws[0].vtime <= d then 1 else 0) + NotLater(ws[1..], d)
  }

  /** Waiters of several queues with a deadline not later than `d`. */
  function Ahead(q: Queues, tiers: seq<int>, d: nat): nat {
    if tiers == [] then 0 else NotLater(Queue(q, tiers[0]), d) + Ahead(q, tiers[1..], d)
  }

  lemma {:induction false} NotLaterConcat(a: seq<Waiter>, b: seq<Waiter>, d: nat)
    ensures NotLater(a + b, d) == NotLater(a, d) + NotLater(b, d)
  {
    if a == [] {
      assert a + b == b;
    } else {
      assert (a + b)[1..] == a[1..] + b;
      NotLaterConcat(a[1..], b, d);
    }
  }

  lemma NotLaterInsert(ws: seq<Waiter>, w: Waiter, d: nat)
    ensures NotLater(InsertSorted(ws, w), d) == NotLater(ws, d) + if w.vtime <= d then 1 else 0
  {
    InsertSplits(ws, w);
    var k := Rank(ws, w.vtime);
    assert ws == ws[..k] + ws[k..];
    NotLaterConcat(ws[..k], ws[k..], d);
    NotLaterConcat(ws[..k], [w], d);
    NotLaterConcat(ws[..k] + [w], ws[k..], d);
    assert NotLater([w], d) == if w.vtime <= d then 1 else 0;
  }

  lemma NotLaterWithout(ws: seq<Waiter>, i: nat, d: nat)
    requires i < |ws|
    ensures NotLater(Without(ws, i), d) == NotLater(ws, d) - if ws[i].vtime <= d then 1 else 0
  {
    assert ws == ws[..i] + ([ws[i]] + ws[i + 1..]);
    NotLaterConcat(ws[..i], [ws[i]] + ws[i + 1..], d);
    NotLaterConcat([ws[i]], ws[i + 1..], d);
    NotLaterConcat(ws[..i], ws[i + 1..], d);
    assert NotLater([ws[i]], d) == if ws[i].vtime <= d then 1 else 0;
  }

  lemma {:induction false} NoneNotLater(ws: seq<Waiter>, d: nat)
    ensures NotLater(ws, d) == 0 <==> forall i :: 0 <= i < |ws| ==> ws[i].vtime > d
  {
    if ws == [] {
    } else {
      NoneNotLater(ws[1..], d);
      assert forall i :: 1 <= i < |ws| ==> ws[i] == ws[1..][i - 1];
    }
  }

  /** Nobody waits not later than `d` exactly when the count is zero. */
  lemma {:induction false} NobodyAhead(q: Queues, tiers: seq<int>, d: nat)
    ensures Ahead(q, tiers, d) == 0
            <==> forall id, i :: id in tiers && 0 <= i < Depth(q, id) ==> Queue(q, id)[i].vtime > d
  {
    if tiers == [] {
    } else {
      NobodyAhead(q, tiers[1..], d);
      NoneNotLater(Queue(q, tiers[0]), d);
      assert tiers == [tiers[0]] + tiers[1..];
    }
  }

  /** No queue of `tiers` gained a waiter not later than `d`. */
  ghost predicate NoMore(q: Queues, u: Queues, tiers: seq<int>, d: nat) {
    forall id :: id in tiers ==> NotLater(Queue(u, id), d) <= NotLater(Queue(q, id), d)
  }

  lemma {:induction false} AheadShrinks(q: Queues, u: Queues, tiers: seq<int>, d: nat)
    requires NoMore(q, u, tiers, d)
    ensures Ahead(u, tiers, d) <= Ahead(q, tiers, d)
    ensures (exists id :: id in tiers && NotLater(Queue(u, id), d) < NotLater(Queue(q, id), d))
            ==> Ahead(u, tiers, d) < Ahead(q, tiers, d)
  {
    if tiers == [] {
    } else {
      assert tiers == [tiers[0]] + tiers[1..];
      AheadShrinks(q, u, tiers[1..], d);
    }
  }

  // -------------------------------------------------------------------- one step

  lemma InsertLater(s: State, id: int, w: Waiter, tiers: seq<int>, d: nat)
    requires w.vtime > d
    ensures NoMore(s.q, InsertVtime(s, id, w).q, tiers, d)
  {
    NotLaterInsert(Queue(s.q, id), w, d);
    forall x ensures NotLater(Queue(InsertVtime(s, id, w).q, x), d) <= NotLater(Queue(s.q, x), d) {
      InsertFrame(s, id, w, x);
    }
  }

  lemma LeaveAhead(s: State, id: int, i: nat, tiers: seq<int>, d: nat)
    requires i < Depth(s.q, id)
    ensures NoMore(s.q, Leave(s, id, i).q, tiers, d)
    ensures id in tiers && Queue(s.q, id)[i].vtime <= d ==> Ahead(Leave(s, id, i).q, tiers, d) < Ahead(s.q, tiers, d)
  {
    NotLaterWithout(Queue(s.q, id), i, d);
    forall x ensures NotLater(Queue(Leave(s, id, i).q, x), d) <= NotLater(Queue(s.q, x), d) {
      LeaveFrame(s, id, i, x);
    }
    LeaveFrame(s, id, i, id);
    AheadShrinks(s.q, Leave(s, id, i).q, tiers, d);
  }

  ghost predicate OnlyTiers(c: Config, tiers: seq<int>)
    requires ValidConfig(c)
  {
    forall id :: id in tiers ==> IsTier(c, id)
  }

  lemma FifoAhead(c: Config, s: State, id: int, w: Waiter, tiers: seq<int>, d: nat)
    requires ValidConfig(c) && OnlyTiers(c, tiers) && !IsTier(c, id)
    ensures NoMore(s.q, InsertFifo(s, id, w).q, tiers, d)
  {
  }

  lemma MoveAhead(c: Config, s: State, id: int, cpu: int, tiers: seq<int>, d: nat)
    requires ValidConfig(c) && OnlyTiers(c, tiers) && cpu >= 0 && CanMove(s.q, id, cpu)
    ensures NoMore(s.q, MoveToLocal(s, id, cpu).q, tiers, d)
    ensures id in tiers && Taken(s.q, id, cpu).vtime <= d
            ==> Ahead(MoveToLocal(s, id, cpu).q, tiers, d) < Ahead(s.q, tiers, d)
  {
    MoveIsLeaveThenInsert(c, s, id, cpu);
    var i := FirstAllowed(Queue(s.q, id), cpu);
    var left := Leave(s, id, i);
    LeaveAhead(s, id, i, tiers, d);
    LocalIsNoTier(c, cpu);
    FifoAhead(c, left, LOCAL_ON + cpu, Taken(s.q, id, cpu), tiers, d);
    AheadShrinks(left.q, MoveToLocal(s, id, cpu).q, tiers, d);
  }

  /** The front is past `d` by more than the largest lag. */
  ghost predicate Passed(c: Config, s: State, d: nat) {
    s.vtimeNow > d + LagBound(c.sliceLagNs)
  }

  lemma EnqueueAhead(c: Config, s: State, pid: int, e: Env, tiers: seq<int>, d: nat)
    requires ValidConfig(c) && TasksOk(s) && Calm(s) && Passed(c, s, d) && OnlyTiers(c, tiers)
    requires Enabled(c, s, EvEnqueue(pid, e))
    ensures NoMore(s.q, Enqueue(c, s, pid, e).q, tiers, d)
  {
    match RouteOf(c, s, pid, e)
    case Ignored =>
    case ToScheduler => FifoAhead(c, s, SCHED_DSQ, Waiter(pid, s.tasks[pid].dsqVtime, s.tasks[pid].cpus), tiers, d);
    case Direct(cpu) =>
      LocalIsNoTier(c, cpu);
      FifoAhead(c, s, LOCAL_ON + cpu, Waiter(pid, s.tasks[pid].dsqVtime, s.tasks[pid].cpus), tiers, d);
    case Deferred =>
      DeadlineIsExact(c, s.q, s.vtimeNow, s.tasks[pid], e.prevCpu);
      InsertLater(s, TargetDsq(c, s.q, e),
                  Waiter(pid, Deadline(c, s.q, s.vtimeNow, s.tasks[pid], e.prevCpu), s.tasks[pid].cpus), tiers, d);
  }

  lemma SelectAhead(c: Config, s: State, pid: int, idleCpu: int, tiers: seq<int>, d: nat)
    requires ValidConfig(c) && OnlyTiers(c, tiers)
    ensures NoMore(s.q, SelectCpu(c, s, pid, idleCpu).q, tiers, d)
  {
    if pid in s.tasks && idleCpu >= 0 {
      LocalIsNoTier(c, idleCpu);
      FifoAhead(c, s, LOCAL_ON + idleCpu, Waiter(pid, s.tasks[pid].dsqVtime, s.tasks[pid].cpus), tiers, d);
    }
  }

  lemma DispatchAhead(c: Config, s: State, cpu: int, prev: int, prevQueued: bool, pending: bool, still: bool,
                      tiers: seq<int>, d: nat)
    requires ValidConfig(c) && !c.userschedEnabled && OnlyTiers(c, tiers) && IsCpuValid(c, cpu)
    ensures NoMore(s.q, Dispatch(c, s, cpu, prev, prevQueued, [], pending, still).q, tiers, d)
  {
    if Choose(c, s.q, cpu) != Refill {
      MoveAhead(c, s, Choose(c, s.q, cpu).id, cpu, tiers, d);
    }
  }

  /** Past `d`, no step queues anybody not later than `d`. */
  lemma StepAhead(c: Config, s: State, e: Event, tiers: seq<int>, d: nat)
    requires ValidConfig(c) && !c.userschedEnabled && TasksOk(s) && Calm(s) && Passed(c, s, d) && OnlyTiers(c, tiers)
    requires Enabled(c, s, e)
    ensures NoMore(s.q, Next(c, s, e).q, tiers, d)
  {
    match e
    case EvSelect(pid, idleCpu) => SelectAhead(c, s, pid, idleCpu, tiers, d);
    case EvEnqueue(pid, env) => EnqueueAhead(c, s, pid, env, tiers, d);
    case EvDispatch(cpu, prev, prevQueued, _, pending, still) =>
      DispatchAhead(c, s, cpu, prev, prevQueued, pending, still, tiers, d);
    case EvLeave(id, i) => LeaveAhead(s, id, i, tiers, d);
    case _ =>
  }

  /** A dispatch by the CPU itself takes one of them, as long as there is one. */
  lemma OwnDispatchAhead(c: Config, s: State, cpu: int, prev: int, prevQueued: bool, pending: bool, still: bool, d: nat)
    requires ValidConfig(c) && !c.userschedEnabled && TiersSorted(c, s.q) && IsCpuValid(c, cpu)
    requires AllAllowed(c, s.q, cpu)
    requires Ahead(s.q, OwnTiers(c, cpu), d) > 0
    ensures Ahead(Dispatch(c, s, cpu, prev, prevQueued, [], pending, still).q, OwnTiers(c, cpu), d)
            < Ahead(s.q, OwnTiers(c, cpu), d)
  {
    var tiers := OwnTiers(c, cpu);
    NobodyAhead(s.q, tiers, d);
    var id, i :| id in tiers && 0 <= i < Depth(s.q, id) && Queue(s.q, id)[i].vtime <= d;
    EarliestDeadlineFirst(c, s.q, cpu, id, i);
    OwnTiersAreTiers(c, cpu);
    assert Choose(c, s.q, cpu).id in tiers;
    MoveAhead(c, s, Choose(c, s.q, cpu).id, cpu, tiers, d);
  }

  // -------------------------------------------------------------------- whole runs

  predicate Takes(e: Event, cpu: int) { e.EvDispatch? && e.cpu == cpu }

  /** Dispatches by `cpu` among the steps from `j` to `k`. */
  function Dispatches(events: seq<Event>, cpu: int, j: nat, k: nat): nat
    requires j <= k <= |events|
  {
    if j == k then 0 else Dispatches(events, cpu, j, k - 1) + if Takes(events[k - 1], cpu) then 1 else 0
  }

  /** Whenever `cpu` dispatches, it may run every waiting task. */
  ghost predicate Unrestricted(c: Config, states: seq<State>, events: seq<Event>, cpu: int)
    requires |states| == |events| + 1
  {
    forall i :: 0 <= i < |events| && Takes(events[i], cpu) ==> AllAllowed(c, states[i].q, cpu)
  }

  lemma LinkAhead(c: Config, s: State, e: Event, u: State, cpu: int, d: nat)
    requires ValidConfig(c) && !c.userschedEnabled && IsCpuValid(c, cpu)
    requires LinkedBy(c, s, e, u) && TiersSorted(c, s.q) && Calm(s) && Passed(c, s, d)
    requires Takes(e, cpu) ==> AllAllowed(c, s.q, cpu)
    ensures Down(c, s, e, u, cpu, d)
  {
    NoStepAdds(c, s, e, cpu, d);
    if Takes(e, cpu) && Ahead(s.q, OwnTiers(c, cpu), d) > 0 {
      TakingTakes(c, s, e, cpu, d);
    }
  }

  lemma NoStepAdds(c: Config, s: State, e: Event, cpu: int, d: nat)
    requires ValidConfig(c) && !c.userschedEnabled
    requires TasksOk(s) && Enabled(c, s, e) && Calm(s) && Passed(c, s, d)
    ensures Ahead(Next(c, s, e).q, OwnTiers(c, cpu), d) <= Ahead(s.q, OwnTiers(c, cpu), d)
  {
    OwnTiersAreTiers(c, cpu);
    StepAhead(c, s, e, OwnTiers(c, cpu), d);
    AheadShrinks(s.q, Next(c, s, e).q, OwnTiers(c, cpu), d);
  }

  lemma TakingTakes(c: Config, s: State, e: Event, cpu: int, d: nat)
    requires ValidConfig(c) && !c.userschedEnabled && TasksOk(s) && Enabled(c, s, e) && TiersSorted(c, s.q)
    requires IsCpuValid(c, cpu) && Takes(e, cpu) && AllAllowed(c, s.q, cpu) && Ahead(s.q, OwnTiers(c, cpu), d) > 0
    ensures Ahead(Next(c, s, e).q, OwnTiers(c, cpu), d) < Ahead(s.q, OwnTiers(c, cpu), d)
  {
    OwnDispatchAhead(c, s, cpu, e.prev, e.prevQueued, e.pending, e.still, d);
  }

  ghost predicate Down(c: Config, s: State, e: Event, u: State, cpu: int, d: nat)
    requires ValidConfig(c)
  {
    Ahead(u.q, OwnTiers(c, cpu), d) <= Max(Ahead(s.q, OwnTiers(c, cpu), d) - if Takes(e, cpu) then 1 else 0, 0)
  }

  /** The same, with its premises on the left of an implication. */
  lemma LinkImplies(c: Config, s: State, e: Event, u: State, cpu: int, d: nat)
    requires ValidConfig(c) && !c.userschedEnabled && IsCpuValid(c, cpu)
    ensures && LinkedBy(c, s, e, u) && TiersSorted(c, s.q) && Calm(s) && Passed(c, s, d)
            && (Takes(e, cpu) ==> AllAllowed(c, s.q, cpu))
            ==> Down(c, s, e, u, cpu, d)
  {
    if && LinkedBy(c, s, e, u) && TiersSorted(c, s.q) && Calm(s) && Passed(c, s, d)
       && (Takes(e, cpu) ==> AllAllowed(c, s.q, cpu)) {
      LinkAhead(c, s, e, u, cpu, d);
    }
  }

  /** A run without the fallback in which `cpu` is never restricted. */
  ghost predicate Watched(c: Config, states: seq<State>, events: seq<Event>, cpu: int)
    requires ValidConfig(c)
  {
    && !c.userschedEnabled && IsCpuValid(c, cpu)
    && IsRun(c, states, events) && states[0] == BOOT && CalmRun(states) && Unrestricted(c, states, events, cpu)
  }

  lemma StillPassed(c: Config, states: seq<State>, events: seq<Event>, j: nat, k: nat, d: nat)
    requires ValidConfig(c) && IsRun(c, states, events) && CalmRun(states) && j <= k < |states|
    requires Passed(c, states[j], d)
    ensures Passed(c, states[k], d) && Calm(states[k])
  {
    FrontIsMonotone(c, states, events, j, k);
  }

  lemma LinkOf(c: Config, states: seq<State>, events: seq<Event>, k: nat)
    requires ValidConfig(c) && IsRun(c, states, events) && k < |events|
    ensures LinkedBy(c, states[k], events[k], states[k + 1])
  {
    assert LinkedAt(c, states, events, k);
  }

  lemma AllowedAt(c: Config, states: seq<State>, events: seq<Event>, cpu: int, k: nat)
    requires |states| == |events| + 1 && Unrestricted(c, states, events, cpu) && k < |events| && Takes(events[k], cpu)
    ensures AllAllowed(c, states[k].q, cpu)
  {
  }

  lemma RunStep(c: Config, states: seq<State>, events: seq<Event>, j: nat, k: nat, cpu: int, d: nat)
    requires ValidConfig(c) && Watched(c, states, events, cpu) && j <= k < |events| && Passed(c, states[j], d)
    ensures Down(c, states[k], events[k], states[k + 1], cpu, d)
  {
    ReachableIsGood(c, states, events, k);
    StillPassed(c, states, events, j, k, d);
    LinkOf(c, states, events, k);
    if Takes(events[k], cpu) {
      AllowedAt(c, states, events, cpu, k);
    }
    LinkImplies(c, states[k], events[k], states[k + 1], cpu, d);
  }

  /** What is ahead of `d`, state by state. */
  ghost function Backlogs(c: Config, states: seq<State>, cpu: int, d: nat): (r: seq<int>)
    requires ValidConfig(c)
    ensures |r| == |states| && forall i :: 0 <= i < |r| ==> r[i] == Ahead(states[i].q, OwnTiers(c, cpu), d)
  {
    seq(|states|, i requires 0 <= i < |states| => Ahead(states[i].q, OwnTiers(c, cpu), d))
  }

  ghost predicate StepsDown(ahead: seq<int>, events: seq<Event>, cpu: int, i: nat)
    requires |ahead| == |events| + 1 && i < |events|
  {
    ahead[i + 1] <= Max(ahead[i] - if Takes(events[i], cpu) then 1 else 0, 0)
  }

  lemma {:induction false} Countdown(ahead: seq<int>, events: seq<Event>, cpu: int, j: nat, k: nat)
    requires |ahead| == |events| + 1 && j <= k <= |events|
    requires forall i :: j <= i < k ==> StepsDown(ahead, events, cpu, i)
    ensures ahead[k] <= Max(ahead[j] - Dispatches(events, cpu, j, k), 0)
  {
    if j == k {
    } else {
      Countdown(ahead, events, cpu, j, k - 1);
      assert StepsDown(ahead, events, cpu, k - 1);
    }
  }

  /** The work ahead of `d` shrinks by one with every dispatch of the CPU. */
  lemma WorkedOff(c: Config, states: seq<State>, events: seq<Event>, j: nat, k: nat, cpu: int, d: nat)
    requires ValidConfig(c) && |states| == |events| + 1 && Watched(c, states, events, cpu)
    requires j <= k <= |events| && Passed(c, states[j], d)
    ensures Ahead(states[k].q, OwnTiers(c, cpu), d)
            <= Max(Ahead(states[j].q, OwnTiers(c, cpu), d) - Dispatches(events, cpu, j, k), 0)
  {
    var ahead := Backlogs(c, states, cpu, d);
    forall i | j <= i < k ensures StepsDown(ahead, events, cpu, i) {
      RunStep(c, states, events, j, i, cpu, d);
    }
    Countdown(ahead, events, cpu, j, k);
  }

  /** Bounded service.  Once the front has passed `d` by more than the largest lag, a CPU
      that may run everything needs at most as many dispatches as tasks then waiting not
      later than `d` in its own tiers until none of them waits there. */
  lemma ServiceIsBounded(c: Config, states: seq<State>, events: seq<Event>, j: nat, k: nat, cpu: int, d: nat,
      id: int, i: nat)
    requires ValidConfig(c) && Watched(c, states, events, cpu)
    requires j <= k <= |events| && Passed(c, states[j], d)
    requires Dispatches(events, cpu, j, k) >= Ahead(states[j].q, OwnTiers(c, cpu), d)
    requires id in OwnTiers(c, cpu) && i < Depth(states[k].q, id)
    ensures Queue(states[k].q, id)[i].vtime > d
  {
    WorkedOff(c, states, events, j, k, cpu, d);
    NobodyAhead(states[k].q, OwnTiers(c, cpu), d);
  }
}
