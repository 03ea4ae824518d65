/** What every run of the state machine keeps. */
module Runs {
  import opened Numbers
  import opened Dsq
  import opened VirtualTime
  import opened Hierarchy
  import opened WorkConservation
  import opened Machine

  ghost predicate TiersSorted(c: Config, q: Queues) {
    forall id :: IsTier(c, id) ==> Sorted(Queue(q, id))
  }

  /** For every queue, what went in is what came out plus what waits. */
  ghost predicate LedgerOk(s: State) {
    forall id :: Count(s.ins, id) == Count(s.outs, id) + Depth(s.q, id)
  }

  ghost predicate RoutesOk(r: Routes) {
    r.kernel == r.local + r.llc + r.node + r.shared
  }

  /** The generation counter that would cancel a stale message is never advanced. */
  ghost predicate NeverCancelled(s: State) {
    s.routes.cancel == 0 && forall pid :: pid in s.tasks ==> s.tasks[pid].enqCnt == 0
  }

  /** No message from userspace took effect yet. */
  ghost predicate NoUser(r: Routes) { r.user == 0 && r.bounce == 0 }

  /** Order, ledgers and counters always; the capacity bounds until a message from
      userspace, which is inserted without a depth check, takes effect. */
  ghost predicate Inv(c: Config, s: State) {
    && TasksOk(s) && TiersSorted(c, s.q) && (NoUser(s.routes) ==> Capped(c, s.q))
    && LedgerOk(s) && RoutesOk(s.routes) && NeverCancelled(s)
    && (!c.userschedEnabled ==> NoUser(s.routes))
  }

  lemma BootIsGood(c: Config)
    requires ValidConfig(c)
    ensures Inv(c, BOOT)
  {
  }

  lemma LocalIsNoTier(c: Config, cpu: int)
    requires ValidConfig(c) && cpu >= 0
    ensures !IsTier(c, LOCAL_ON + cpu)
  {
  }

  lemma FifoKeeps(c: Config, s: State, id: int, w: Waiter)
    requires ValidConfig(c) && Inv(c, s) && !IsTier(c, id)
    ensures Inv(c, InsertFifo(s, id, w))
  {
    var u := InsertFifo(s, id, w);
    assert forall x :: x != id ==> Queue(u.q, x) == Queue(s.q, x);
  }

  lemma InsertFrame(s: State, id: int, w: Waiter, x: int)
    ensures Queue(InsertVtime(s, id, w).q, x) == if x == id then InsertSorted(Queue(s.q, id), w) else Queue(s.q, x)
  {
  }

  lemma VtimeKeepsSorted(c: Config, s: State, id: int, w: Waiter)
    requires ValidConfig(c) && TiersSorted(c, s.q)
    ensures TiersSorted(c, InsertVtime(s, id, w).q)
  {
    forall x | IsTier(c, x) ensures Sorted(Queue(InsertVtime(s, id, w).q, x)) {
      InsertFrame(s, id, w, x);
      if x == id {
        InsertKeepsSorted(Queue(s.q, id), w);
      }
    }
  }

  lemma VtimeKeepsCapped(c: Config, s: State, id: int, w: Waiter)
    requires ValidConfig(c) && Capped(c, s.q) && IsTier(c, id) && HasRoom(c, s.q, id)
    ensures Capped(c, InsertVtime(s, id, w).q)
  {
    InsertCounts(Queue(s.q, id), w);
    forall x ensures Queue(InsertVtime(s, id, w).q, x)
                     == if x == id then InsertSorted(Queue(s.q, id), w) else Queue(s.q, x) {
      InsertFrame(s, id, w, x);
    }
  }

  lemma VtimeKeeps(c: Config, s: State, id: int, w: Waiter)
    requires ValidConfig(c) && Inv(c, s) && IsTier(c, id) && (NoUser(s.routes) ==> HasRoom(c, s.q, id))
    ensures Inv(c, InsertVtime(s, id, w))
  {
    var u := InsertVtime(s, id, w);
    VtimeKeepsSorted(c, s, id, w);
    if NoUser(s.routes) {
      VtimeKeepsCapped(c, s, id, w);
    }
    InsertCounts(Queue(s.q, id), w);
    assert LedgerOk(u);
  }

  lemma LeaveFrame(s: State, id: int, i: nat, x: int)
    requires i < Depth(s.q, id)
    ensures Queue(Leave(s, id, i).q, x) == if x == id then Without(Queue(s.q, id), i) else Queue(s.q, x)
    ensures Depth(Leave(s, id, i).q, x) <= Depth(s.q, x)
    ensures Count(s.ins, x) == Count(s.outs, x) + Depth(s.q, x) ==>
              Count(Leave(s, id, i).ins, x) == Count(Leave(s, id, i).outs, x) + Depth(Leave(s, id, i).q, x)
  {
    WithoutCounts(Queue(s.q, id), i);
  }

  lemma LeaveKeepsTiers(c: Config, s: State, id: int, i: nat)
    requires ValidConfig(c) && TiersSorted(c, s.q) && i < Depth(s.q, id)
    ensures TiersSorted(c, Leave(s, id, i).q) && (Capped(c, s.q) ==> Capped(c, Leave(s, id, i).q))
  {
    var u := Leave(s, id, i).q;
    forall x ensures Depth(u, x) <= Depth(s.q, x) && (Sorted(Queue(s.q, x)) ==> Sorted(Queue(u, x))) {
      LeaveFrame(s, id, i, x);
      if x == id && Sorted(Queue(s.q, id)) {
        WithoutKeepsSorted(Queue(s.q, id), i);
      }
    }
  }

  /** Taking one waiter out of a queue. */
  lemma LeaveKeeps(c: Config, s: State, id: int, i: nat)
    requires ValidConfig(c) && Inv(c, s) && i < Depth(s.q, id)
    ensures Inv(c, Leave(s, id, i))
  {
    LeaveKeepsTiers(c, s, id, i);
    forall x ensures Count(Leave(s, id, i).ins, x) == Count(Leave(s, id, i).outs, x) + Depth(Leave(s, id, i).q, x) {
      LeaveFrame(s, id, i, x);
    }
  }

  /** A move is a departure followed by a local insertion of the same waiter. */
  lemma MoveIsLeaveThenInsert(c: Config, s: State, id: int, cpu: int)
    requires ValidConfig(c) && CanMove(s.q, id, cpu)
    ensures 0 <= FirstAllowed(Queue(s.q, id), cpu) < Depth(s.q, id)
    ensures MoveToLocal(s, id, cpu)
            == InsertFifo(Leave(s, id, FirstAllowed(Queue(s.q, id), cpu)), LOCAL_ON + cpu, Taken(s.q, id, cpu))
  {
    FirstAllowedIsFirst(Queue(s.q, id), cpu);
  }

  lemma MoveKeeps(c: Config, s: State, id: int, cpu: int)
    requires ValidConfig(c) && Inv(c, s) && CanMove(s.q, id, cpu) && cpu >= 0
    ensures Inv(c, MoveToLocal(s, id, cpu))
  {
    MoveIsLeaveThenInsert(c, s, id, cpu);
    var i := FirstAllowed(Queue(s.q, id), cpu);
    LeaveKeeps(c, s, id, i);
    LocalIsNoTier(c, cpu);
    FifoKeeps(c, Leave(s, id, i), LOCAL_ON + cpu, Taken(s.q, id, cpu));
  }

  lemma DirectKeeps(c: Config, s: State, pid: int, cpu: int)
    requires ValidConfig(c) && Inv(c, s) && pid in s.tasks && IsCpuValid(c, cpu)
    ensures Inv(c, DirectLocal(c, s, pid, cpu))
  {
    LocalIsNoTier(c, cpu);
    FifoKeeps(c, s, LOCAL_ON + cpu, Waiter(pid, s.tasks[pid].dsqVtime, s.tasks[pid].cpus));
  }

  lemma PlacedKeeps(c: Config, s: State, pid: int, t: TaskCtx, id: int)
    requires ValidConfig(c) && Inv(c, s) && pid > 0 && IsTier(c, id) && HasRoom(c, s.q, id)
    requires GoodWeight(t.weight) && t.wakeupFreq <= MAX_WAKEUP_FREQ && t.enqCnt == 0
    ensures Inv(c, Placed(s, pid, t, id))
  {
    VtimeKeeps(c, s, id, Waiter(pid, t.dsqVtime, t.cpus));
  }

  lemma DeferKeeps(c: Config, s: State, pid: int, e: Env)
    requires ValidConfig(c) && Inv(c, s) && pid in s.tasks
    ensures Inv(c, Defer(c, s, pid, e))
  {
    OverflowHasRoom(c, s.q, e.prevCpu);
    PlacedKeeps(c, s, pid, Defer(c, s, pid, e).tasks[pid], TargetDsq(c, s.q, e));
  }

  lemma SelectKeeps(c: Config, s: State, pid: int, idleCpu: int)
    requires ValidConfig(c) && Inv(c, s) && Enabled(c, s, EvSelect(pid, idleCpu))
    ensures Inv(c, SelectCpu(c, s, pid, idleCpu))
  {
    if pid in s.tasks && idleCpu >= 0 {
      DirectKeeps(c, s, pid, idleCpu);
    }
  }

  lemma EnqueueKeeps(c: Config, s: State, pid: int, e: Env)
    requires ValidConfig(c) && Inv(c, s) && Enabled(c, s, EvEnqueue(pid, e))
    ensures Inv(c, Enqueue(c, s, pid, e))
  {
    match RouteOf(c, s, pid, e)
    case Ignored =>
    case ToScheduler =>
      FifoKeeps(c, s, SCHED_DSQ, Waiter(pid, s.tasks[pid].dsqVtime, s.tasks[pid].cpus));
    case Direct(cpu) => DirectKeeps(c, s, pid, cpu);
    case Deferred => DeferKeeps(c, s, pid, e);
  }

  lemma RoutesKeep(c: Config, s: State, r: Routes)
    requires Inv(c, s) && RoutesOk(r) && r.cancel == 0
    requires (NoUser(r) ==> NoUser(s.routes)) && (!c.userschedEnabled ==> NoUser(r))
    ensures Inv(c, s.(routes := r))
  {
  }

  lemma RefillKeeps(c: Config, s: State, cpu: int, prev: int, prevQueued: bool, pending: bool)
    requires ValidConfig(c) && Inv(c, s)
    ensures Inv(c, RefillPrev(c, s, cpu, prev, prevQueued, pending))
  {
  }

  lemma DrawKeeps(c: Config, s: State, cpu: int, pick: Pick)
    requires ValidConfig(c) && Inv(c, s) && cpu >= 0 && pick != Refill && CanMove(s.q, pick.id, cpu)
    ensures Inv(c, Draw(c, s, cpu, pick))
  {
    MoveKeeps(c, s, pick.id, cpu);
    RoutesKeep(c, MoveToLocal(s, pick.id, cpu), Draw(c, s, cpu, pick).routes);
  }

  lemma ServeKeeps(c: Config, s: State, cpu: int, prev: int, prevQueued: bool, pending: bool, still: bool)
    requires ValidConfig(c) && Inv(c, s) && IsCpuValid(c, cpu)
    ensures Inv(c, Serve(c, s, cpu, prev, prevQueued, pending, still))
  {
    if c.userschedEnabled && pending && CanMove(s.q, SCHED_DSQ, cpu) {
      MoveKeeps(c, s, SCHED_DSQ, cpu);
    } else if Choose(c, s.q, cpu) == Refill {
      RefillKeeps(c, s, cpu, prev, prevQueued, c.userschedEnabled && still);
    } else {
      DrawKeeps(c, s, cpu, Choose(c, s.q, cpu));
    }
  }

  lemma UserKeeps(c: Config, s: State, m: Submission)
    requires ValidConfig(c) && Inv(c, s) && c.userschedEnabled
    ensures Inv(c, UserDispatch(c, s, m))
  {
    if m.task.pid in s.tasks {
      var t, u := s.tasks[m.task.pid], UserDispatch(c, s, m);
      RoutesKeep(c, s, u.routes);
      VtimeKeeps(c, s.(routes := u.routes), UserDsq(c, t.cpus, m), Waiter(m.task.pid, m.task.vtime, t.cpus));
    }
  }

  /** A userspace message keeps the tiers within capacity exactly when it does not land
      on a CPU's own queue that already holds a task. */
  lemma UserKeepsCappedIff(c: Config, s: State, m: Submission)
    requires ValidConfig(c) && Capped(c, s.q) && m.task.pid in s.tasks && !Cancelled(s.tasks[m.task.pid], m)
    ensures var id := UserDsq(c, s.tasks[m.task.pid].cpus, m);
            Capped(c, UserDispatch(c, s, m).q) <==> !IsCpuDsq(c, id) || Depth(s.q, id) == 0
  {
    var cpus := s.tasks[m.task.pid].cpus;
    var id, w := UserDsq(c, cpus, m), Waiter(m.task.pid, m.task.vtime, cpus);
    assert UserDispatch(c, s, m).q == InsertVtime(s, id, w).q;
    if !IsCpuDsq(c, id) || Depth(s.q, id) == 0 {
      VtimeKeepsCapped(c, s, id, w);
    } else {
      InsertFrame(s, id, w, id);
      InsertCounts(Queue(s.q, id), w);
    }
  }

  lemma {:induction false} DrainKeeps(c: Config, s: State, ring: seq<Submission>)
    requires ValidConfig(c) && Inv(c, s) && (ring != [] ==> c.userschedEnabled)
    ensures Inv(c, DrainRing(c, s, ring))
  {
    if ring == [] {
    } else {
      DrainKeeps(c, s, ring[..|ring| - 1]);
      UserKeeps(c, DrainRing(c, s, ring[..|ring| - 1]), ring[|ring| - 1]);
    }
  }

  lemma DispatchKeeps(c: Config, s: State, cpu: int, prev: int, prevQueued: bool,
                      ring: seq<Submission>, pending: bool, still: bool)
    requires ValidConfig(c) && Inv(c, s) && IsCpuValid(c, cpu) && (ring != [] ==> c.userschedEnabled)
    ensures Inv(c, Dispatch(c, s, cpu, prev, prevQueued, ring, pending, still))
  {
    DrainKeeps(c, s, Consumed(ring));
    ServeKeeps(c, DrainRing(c, s, Consumed(ring)), cpu, prev, prevQueued, pending, still);
  }

  lemma NextKeeps(c: Config, s: State, e: Event)
    requires ValidConfig(c) && Inv(c, s) && Enabled(c, s, e)
    ensures Inv(c, Next(c, s, e))
  {
    match e
    case EvSelect(pid, idleCpu) => SelectKeeps(c, s, pid, idleCpu);
    case EvEnqueue(pid, env) => EnqueueKeeps(c, s, pid, env);
    case EvDispatch(cpu, prev, prevQueued, ring, pending, still) =>
      DispatchKeeps(c, s, cpu, prev, prevQueued, ring, pending, still);
    case EvLeave(id, i) => LeaveKeeps(c, s, id, i);
    case _ =>
  }

  // ----------------------------------------------------------------------- runs

  /** A run: states linked by enabled steps. */
  ghost predicate IsRun(c: Config, states: seq<State>, events: seq<Event>)
    requires ValidConfig(c)
  {
    && |states| == |events| + 1
    && forall i :: 0 <= i < |events| ==> LinkedAt(c, states, events, i)
  }

  ghost predicate LinkedAt(c: Config, states: seq<State>, events: seq<Event>, i: nat)
    requires ValidConfig(c) && |states| == |events| + 1 && i < |events|
  {
    LinkedBy(c, states[i], events[i], states[i + 1])
  }

  ghost predicate LinkedBy(c: Config, s: State, e: Event, u: State)
    requires ValidConfig(c)
  {
    TasksOk(s) && Enabled(c, s, e) && u == Next(c, s, e)
  }

  lemma LinkKeeps(c: Config, s: State, e: Event, u: State)
    requires ValidConfig(c) && Inv(c, s) && LinkedBy(c, s, e, u)
    ensures Inv(c, u)
  {
    NextKeeps(c, s, e);
  }

  lemma StepIsGood(c: Config, states: seq<State>, events: seq<Event>, k: nat)
    requires ValidConfig(c) && IsRun(c, states, events) && k < |events| && Inv(c, states[k])
    ensures Inv(c, states[k + 1])
  {
    assert LinkedAt(c, states, events, k);
    LinkKeeps(c, states[k], events[k], states[k + 1]);
  }

  /** Every state of every run from boot keeps its tiers sorted, its ledgers balanced and
      its route counters consistent, and its tiers within capacity until a message from
      userspace takes effect. */
  lemma {:induction false} ReachableIsGood(c: Config, states: seq<State>, events: seq<Event>, k: nat)
    requires ValidConfig(c) && IsRun(c, states, events) && states[0] == BOOT && k < |states|
    ensures Inv(c, states[k])
  {
    if k == 0 {
      BootIsGood(c);
    } else {
      ReachableIsGood(c, states, events, k - 1);
      StepIsGood(c, states, events, k - 1);
    }
  }

  /** In every reachable state in which no message from userspace took effect, fallback or
      not, whatever waits outside the shared queue is bounded by the machine: CPUs, plus
      rounded-up shares of the online CPUs per domain. */
  lemma ReachableIsBounded(c: Config, states: seq<State>, events: seq<Event>, k: nat)
    requires ValidConfig(c) && c.online >= 1
    requires IsRun(c, states, events) && states[0] == BOOT && k < |states| && NoUser(states[k].routes)
    ensures TierDepth(c, states[k].q) - Depth(states[k].q, SHARED_DSQ)
            <= c.nrCpuIds + (c.online + c.nrLlcs - 1) + (c.online + c.nrNodes - 1)
  {
    ReachableIsGood(c, states, events, k);
    NarrowTiersAreBounded(c, states[k].q);
  }

  // ------------------------------------------------------------ work conservation

  lemma DispatchQueues(c: Config, s: State, cpu: int, prev: int, prevQueued: bool, still: bool)
    requires ValidConfig(c)
    ensures Dispatch(c, s, cpu, prev, prevQueued, [], false, still).q
            == if Choose(c, s.q, cpu) == Refill then s.q else Moved(s.q, Choose(c, s.q, cpu).id, cpu)
  {
  }

  /** In every reachable state in which no message from userspace took effect, a dispatch
      without messages, by a CPU on which every waiting task may run, moves exactly one
      task out of the hierarchy and onto that CPU when anything waits; otherwise it moves
      nothing and refills the slice of the task that keeps the CPU. */
  lemma RunsAreWorkConserving(c: Config, states: seq<State>, events: seq<Event>, k: nat,
                              cpu: int, prev: int, prevQueued: bool, still: bool)
    requires ValidConfig(c)
    requires IsRun(c, states, events) && states[0] == BOOT && k < |states| && NoUser(states[k].routes)
    requires IsCpuValid(c, cpu) && AllAllowed(c, states[k].q, cpu)
    ensures var s, u := states[k], Dispatch(c, states[k], cpu, prev, prevQueued, [], false, still);
            if TierDepth(c, s.q) > 0 then
              && TierDepth(c, u.q) == TierDepth(c, s.q) - 1
              && Depth(u.q, LOCAL_ON + cpu) == Depth(s.q, LOCAL_ON + cpu) + 1
            else u == RefillPrev(c, s, cpu, prev, prevQueued, c.userschedEnabled && still)
  {
    var s := states[k];
    ReachableIsGood(c, states, events, k);
    DispatchIsWorkConserving(c, s.q, cpu);
    BacklogIsDepth(c, s.q);
    DispatchQueues(c, s, cpu, prev, prevQueued, still);
    ChosenIsTier(c, s.q, cpu);
    var pick := Choose(c, s.q, cpu);
    if pick != Refill {
      MoveTakesOne(c, s.q, pick.id, cpu);
      MoveDrainsOne(c, s.q, pick.id, cpu);
    }
  }

  /** In every reachable state a dispatch without messages that finds its own tiers
      non-empty and unrestricted delivers from one of them a task whose deadline is the
      least of everything waiting in the four. */
  lemma RunsServeEarliest(c: Config, states: seq<State>, events: seq<Event>, k: nat,
                          cpu: int, prev: int, prevQueued: bool, still: bool) returns (from: int, w: Waiter)
    requires ValidConfig(c)
    requires IsRun(c, states, events) && states[0] == BOOT && k < |states|
    requires IsCpuValid(c, cpu) && AllAllowed(c, states[k].q, cpu)
    requires exists id :: id in OwnTiers(c, cpu) && Queue(states[k].q, id) != []
    ensures from in OwnTiers(c, cpu)
    ensures Delivers(states[k].q, Dispatch(c, states[k], cpu, prev, prevQueued, [], false, still).q, from, cpu, w)
    ensures forall id, i :: id in OwnTiers(c, cpu) && 0 <= i < Depth(states[k].q, id)
                ==> w.vtime <= Queue(states[k].q, id)[i].vtime
  {
    var q := states[k].q;
    ReachableIsGood(c, states, events, k);
    DispatchQueues(c, states[k], cpu, prev, prevQueued, still);
    from, w := ServeEarliest(c, q, cpu);
  }

  lemma ServeEarliest(c: Config, q: Queues, cpu: int) returns (from: int, w: Waiter)
    requires ValidConfig(c) && IsCpuValid(c, cpu) && AllAllowed(c, q, cpu) && TiersSorted(c, q)
    requires exists id :: id in OwnTiers(c, cpu) && Queue(q, id) != []
    ensures from in OwnTiers(c, cpu) && Choose(c, q, cpu) != Refill
    ensures Delivers(q, Moved(q, Choose(c, q, cpu).id, cpu), from, cpu, w)
    ensures forall id, i :: id in OwnTiers(c, cpu) && 0 <= i < Depth(q, id) ==> w.vtime <= Queue(q, id)[i].vtime
  {
    var busy :| busy in OwnTiers(c, cpu) && Queue(q, busy) != [];
    EarliestDeadlineFirst(c, q, cpu, busy, 0);
    from := Choose(c, q, cpu).id;
    w := Taken(q, from, cpu);
    ChosenIsTier(c, q, cpu);
    MoveDelivers(c, q, from, cpu);
    forall id, i | id in OwnTiers(c, cpu) && 0 <= i < Depth(q, id) ensures w.vtime <= Queue(q, id)[i].vtime {
      EarliestDeadlineFirst(c, q, cpu, id, i);
    }
  }

  /** In every reachable state in which no message from userspace took effect, whatever
      the affinities, a dispatch without messages delivers a task whenever one the CPU
      may run waits in its own tiers or in any per-CPU queue. */
  lemma RunsFindAllowedWork(c: Config, states: seq<State>, events: seq<Event>, k: nat,
                            cpu: int, prev: int, prevQueued: bool, still: bool, id: int, i: nat)
    returns (from: int, w: Waiter)
    requires ValidConfig(c)
    requires IsRun(c, states, events) && states[0] == BOOT && k < |states| && NoUser(states[k].routes)
    requires IsCpuValid(c, cpu) && (id in OwnTiers(c, cpu) || IsCpuDsq(c, id))
    requires i < Depth(states[k].q, id) && cpu in Queue(states[k].q, id)[i].cpus
    ensures IsTier(c, from)
    ensures Delivers(states[k].q, Dispatch(c, states[k], cpu, prev, prevQueued, [], false, still).q, from, cpu, w)
  {
    var q := states[k].q;
    ReachableIsGood(c, states, events, k);
    DispatchFindsAllowedWork(c, q, cpu, id, i);
    DispatchQueues(c, states[k], cpu, prev, prevQueued, still);
    ChosenIsTier(c, q, cpu);
    from := Choose(c, q, cpu).id;
    w := Taken(q, from, cpu);
    MoveDelivers(c, q, from, cpu);
  }

  // -------------------------------------------------------------------- routing

  /** The queue an enqueue inserts into. */
  function Landing(c: Config, s: State, pid: int, e: Env): int
    requires ValidConfig(c)
  {
    match RouteOf(c, s, pid, e)
    case Ignored => -1
    case ToScheduler => SCHED_DSQ
    case Direct(cpu) => LOCAL_ON + cpu
    case Deferred => TargetDsq(c, s.q, e)
  }

  ghost predicate GainsOne(q: Queues, u: Queues, id: int, pid: int) {
    exists w: Waiter :: w.pid == pid && multiset(Queue(u, id)) == multiset(Queue(q, id)) + multiset{w}
  }

  /** The waiter an enqueue inserts. */
  function Entry(c: Config, s: State, pid: int, e: Env): Waiter
    requires ValidConfig(c) && pid in s.tasks && s.tasks[pid].weight > 0
  {
    var t := s.tasks[pid];
    Waiter(pid, if RouteOf(c, s, pid, e) == Deferred then Deadline(c, s.q, s.vtimeNow, t, e.prevCpu)
        else t.dsqVtime, t.cpus)
  }

  lemma EnqueueQueues(c: Config, s: State, pid: int, e: Env)
    requires ValidConfig(c) && pid in s.tasks && s.tasks[pid].weight > 0
    requires RouteOf(c, s, pid, e) != Ignored
    ensures var id, w := Landing(c, s, pid, e), Entry(c, s, pid, e);
            Enqueue(c, s, pid, e).q
            == if RouteOf(c, s, pid, e) == Deferred then InsertVtime(s, id, w).q else Append(s.q, id, w)
  {
  }

  lemma EnqueueGains(c: Config, s: State, pid: int, e: Env)
    requires ValidConfig(c) && pid in s.tasks && s.tasks[pid].weight > 0 && RouteOf(c, s, pid, e) != Ignored
    ensures GainsOne(s.q, Enqueue(c, s, pid, e).q, Landing(c, s, pid, e), pid)
  {
    var id, w := Landing(c, s, pid, e), Entry(c, s, pid, e);
    EnqueueQueues(c, s, pid, e);
    if RouteOf(c, s, pid, e) == Deferred {
      InsertGains(s, id, w);
    } else {
      AppendGains(s.q, id, w);
    }
  }

  lemma EnqueueFrame(c: Config, s: State, pid: int, e: Env, other: int)
    requires ValidConfig(c) && pid in s.tasks && s.tasks[pid].weight > 0 && RouteOf(c, s, pid, e) != Ignored
    requires other != Landing(c, s, pid, e)
    ensures Queue(Enqueue(c, s, pid, e).q, other) == Queue(s.q, other)
  {
    EnqueueQueues(c, s, pid, e);
    InsertFrame(s, Landing(c, s, pid, e), Entry(c, s, pid, e), other);
  }

  /** Every enqueue of a task the scheduler knows puts that task into exactly one
      queue and leaves all the others alone.  With the fallback off the scheduler's
      own process has PID 0, so there is no exception. */
  lemma EnqueueInsertsOnce(c: Config, s: State, pid: int, e: Env, other: int)
    requires ValidConfig(c) && TasksOk(s) && pid > 0 && other != Landing(c, s, pid, e)
    ensures RouteOf(c, s, pid, e) == Ignored <==> pid !in s.tasks
    ensures pid in s.tasks ==> GainsOne(s.q, Enqueue(c, s, pid, e).q, Landing(c, s, pid, e), pid)
    ensures Queue(Enqueue(c, s, pid, e).q, other) == Queue(s.q, other)
  {
    if pid in s.tasks {
      EnqueueGains(c, s, pid, e);
      EnqueueFrame(c, s, pid, e, other);
    }
  }

  lemma AppendGains(q: Queues, id: int, w: Waiter)
    ensures GainsOne(q, Append(q, id, w), id, w.pid)
  {
    assert multiset(Queue(Append(q, id, w), id)) == multiset(Queue(q, id)) + multiset{w};
  }

  lemma InsertGains(s: State, id: int, w: Waiter)
    ensures GainsOne(s.q, InsertVtime(s, id, w).q, id, w.pid)
  {
    InsertCounts(Queue(s.q, id), w);
    assert multiset(Queue(InsertVtime(s, id, w).q, id)) == multiset(Queue(s.q, id)) + multiset{w};
  }

  // ---------------------------------------------------------- slices and charges

  /** A slice above the minimum is granted exactly when everything waiting near the
      CPU can have as much within one weight-scaled base slice. */
  lemma SliceIsFairShare(c: Config, q: Queues, t: TaskCtx, cpu: int, s: nat)
    requires ValidConfig(c) && s > c.sliceMinNs
    ensures TaskSlice(c, q, t, cpu) >= c.sliceMinNs
    ensures s <= TaskSlice(c, q, t, cpu) <==> s * Max(QueuePressure(c, q, cpu), 1) <= Scale(c.sliceNs, t.weight)
  {
    QuotientAtLeast(Scale(c.sliceNs, t.weight), Max(QueuePressure(c, q, cpu), 1), s);
  }

  /** Of two tasks that ran equally long the heavier one is charged no more. */
  lemma HeavierIsChargedLess(ran: nat, light: nat, heavy: nat)
    requires 0 < light <= heavy
    ensures ScaleInverse(ran, heavy) <= ScaleInverse(ran, light)
  {
    DivisionMonotone(U64(ran * 100), light, heavy);
  }

  lemma ChargeFits(vtime: nat, ran: nat, weight: nat)
    requires weight > 0 && vtime + ran * 100 < TWO64
    ensures U64(vtime + ScaleInverse(ran, weight)) == vtime + ran * 100 / weight
  {
    DivisionMonotone(ran * 100, 1, weight);
    assert U64(ran * 100) == ran * 100;
  }

  /** Running for `ran` charges `ran * 100 / weight` to both virtual times of the task;
      no other task, no queue and not the front are touched. */
  lemma ChargeIsWeighted(c: Config, s: State, pid: int, now: nat, ran: nat, exec: nat)
    requires pid in s.tasks && s.tasks[pid].weight > 0 && pid != c.userschedPid
    requires s.tasks[pid].dsqVtime + ran * 100 < TWO64 && s.tasks[pid].awakeVtime + ran * 100 < TWO64
    ensures var t, u := s.tasks[pid], Stopping(c, s, pid, now, ran, exec);
            && pid in u.tasks && u == s.(tasks := s.tasks[pid := u.tasks[pid]])
            && u.tasks[pid].dsqVtime == t.dsqVtime + ran * 100 / t.weight
            && u.tasks[pid].awakeVtime == t.awakeVtime + ran * 100 / t.weight
  {
    ChargeFits(s.tasks[pid].dsqVtime, ran, s.tasks[pid].weight);
    ChargeFits(s.tasks[pid].awakeVtime, ran, s.tasks[pid].weight);
  }

  // -------------------------------------------------------- virtual time over runs

  /** Nothing has run for 2^63 ns of virtual time yet. */
  ghost predicate Calm(s: State) {
    && s.vtimeNow < TWO63
    && forall pid :: pid in s.tasks ==>
         s.tasks[pid].dsqVtime + LagBound(MAX_SLICE_LAG_NS) < TWO63 && s.tasks[pid].awakeVtime < TWO63
  }

  /** `lag` as the code computes it is the exact integer product. */
  function ExactLag(c: Config, q: Queues, t: TaskCtx, cpu: int): int
    requires ValidConfig(c)
  {
    c.sliceLagNs * LagScale(c.sliceNs, QueuePressure(c, q, cpu), t.wakeupFreq) * t.weight / 100
  }

  lemma CatchUpIsExact(c: Config, q: Queues, now: nat, t: TaskCtx, cpu: int)
    requires ValidConfig(c) && GoodWeight(t.weight) && t.wakeupFreq <= MAX_WAKEUP_FREQ
    requires now < TWO63 && t.dsqVtime + LagBound(MAX_SLICE_LAG_NS) < TWO63
    ensures CaughtUp(c, q, now, t, cpu).dsqVtime == Max(t.dsqVtime, now - ExactLag(c, q, t, cpu)) < TWO63
    ensures 0 <= ExactLag(c, q, t, cpu) <= LagBound(c.sliceLagNs)
  {
    var pressure := QueuePressure(c, q, cpu);
    LagIsBounded(c.sliceNs, c.sliceLagNs, t.weight, pressure, t.wakeupFreq);
    CatchUpCalm(now, Lag(c.sliceNs, c.sliceLagNs, t.weight, pressure, t.wakeupFreq), t.dsqVtime);
  }

  lemma AwakeIsExact(c: Config, q: Queues, now: nat, t: TaskCtx, cpu: int)
    requires ValidConfig(c) && GoodWeight(t.weight) && t.awakeVtime < TWO63
    ensures CaughtUp(c, q, now, t, cpu).awakeVtime == Min(t.awakeVtime, c.sliceLagNs * 100 / t.weight)
    ensures CaughtUp(c, q, now, t, cpu).awakeVtime <= MAX_SLICE_LAG_NS * 100
  {
    AwakeIsCapped(c.sliceLagNs, t.weight, t.awakeVtime);
  }

  lemma DeadlineIsSum(c: Config, q: Queues, now: nat, t: TaskCtx, cpu: int)
    requires ValidConfig(c) && t.weight > 0
    requires CaughtUp(c, q, now, t, cpu).dsqVtime < TWO63
    requires CaughtUp(c, q, now, t, cpu).awakeVtime <= MAX_SLICE_LAG_NS * 100
    ensures Deadline(c, q, now, t, cpu) == CaughtUp(c, q, now, t, cpu).dsqVtime + CaughtUp(c, q, now, t, cpu).awakeVtime
  {
    SumFits(CaughtUp(c, q, now, t, cpu).dsqVtime, CaughtUp(c, q, now, t, cpu).awakeVtime);
  }

  /** While calm, the deadline is the integer the design asks for: catch up to
      `now - lag`, then add at most one weight-scaled lag budget of awake time. */
  lemma DeadlineIsExact(c: Config, q: Queues, now: nat, t: TaskCtx, cpu: int)
    requires ValidConfig(c) && GoodWeight(t.weight) && t.wakeupFreq <= MAX_WAKEUP_FREQ
    requires now < TWO63 && t.dsqVtime + LagBound(MAX_SLICE_LAG_NS) < TWO63 && t.awakeVtime < TWO63
    ensures Deadline(c, q, now, t, cpu)
            == Max(t.dsqVtime, now - ExactLag(c, q, t, cpu)) + Min(t.awakeVtime, c.sliceLagNs * 100 / t.weight)
    ensures Deadline(c, q, now, t, cpu) >= now - LagBound(c.sliceLagNs)
  {
    CatchUpIsExact(c, q, now, t, cpu);
    AwakeIsExact(c, q, now, t, cpu);
    DeadlineIsSum(c, q, now, t, cpu);
  }

  lemma SumFits(vtime: nat, awake: nat)
    requires vtime < TWO63 && awake <= MAX_SLICE_LAG_NS * 100
    ensures U64(vtime + awake) == vtime + awake
  {
  }

  lemma {:induction false} DrainKeepsFront(c: Config, s: State, ring: seq<Submission>)
    ensures DrainRing(c, s, ring).vtimeNow == s.vtimeNow
  {
    if ring == [] {
    } else {
      DrainKeepsFront(c, s, ring[..|ring| - 1]);
    }
  }

  lemma FrontAdvances(c: Config, s: State, e: Event)
    requires ValidConfig(c) && TasksOk(s) && Enabled(c, s, e) && Calm(s)
    ensures Next(c, s, e).vtimeNow >= s.vtimeNow
  {
    if e.EvRunning? && e.pid in s.tasks {
      TimeBeforeCalm(s.vtimeNow, s.tasks[e.pid].dsqVtime);
    } else if e.EvDispatch? {
      DrainKeepsFront(c, s, Consumed(e.ring));
    }
  }

  ghost predicate CalmRun(states: seq<State>) {
    forall i :: 0 <= i < |states| ==> Calm(states[i])
  }

  lemma {:induction false} FrontIsMonotone(c: Config, states: seq<State>, events: seq<Event>, j: nat, k: nat)
    requires ValidConfig(c) && IsRun(c, states, events) && CalmRun(states) && j <= k < |states|
    ensures states[j].vtimeNow <= states[k].vtimeNow
  {
    if j < k {
      FrontIsMonotone(c, states, events, j, k - 1);
      assert LinkedAt(c, states, events, k - 1);
      FrontAdvances(c, states[k - 1], events[k - 1]);
    }
  }

  /** Bounded overtaking: once the front has passed `d` by the largest lag, no later
      enqueue of any run can get a deadline before `d`. */
  lemma OvertakingIsBounded(c: Config, states: seq<State>, events: seq<Event>, j: nat, k: nat, d: nat)
    requires ValidConfig(c) && IsRun(c, states, events) && CalmRun(states) && Inv(c, states[0])
    requires j <= k < |events| && states[j].vtimeNow >= d + LagBound(c.sliceLagNs)
    requires events[k].EvEnqueue? && RouteOf(c, states[k], events[k].pid, events[k].env) == Deferred
    ensures events[k].pid in states[k + 1].tasks && states[k + 1].tasks[events[k].pid].dsqVtime >= d
  {
    FrontIsMonotone(c, states, events, j, k);
    assert LinkedAt(c, states, events, k);
    var s, pid, e := states[k], events[k].pid, events[k].env;
    DeadlineIsExact(c, s.q, s.vtimeNow, s.tasks[pid], e.prevCpu);
  }
}
