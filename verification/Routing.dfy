/** Where tasks go, read off the queues before and after a callback: which branch an
    enqueue takes, what a wakeup, a message from userspace and a dispatch leave behind. */
module Routing {
  import opened Numbers
  import opened VirtualTime
  import opened Dsq
  import opened Hierarchy
  import opened WorkConservation
  import opened Machine
  import opened Runs
  import Policy

  /** From `q` to `u`, `w` joined the tail of queue `id`; nothing else changed. */
  ghost predicate JoinsTail(q: Queues, u: Queues, id: int, w: Waiter) {
    Queue(u, id) == Queue(q, id) + [w] && forall other :: other != id ==> Queue(u, other) == Queue(q, other)
  }

  /** From `q` to `u`, `w` joined queue `id` behind every key not greater than its own and
      before every greater one, if the queue was sorted; nothing else changed. */
  ghost predicate JoinsSorted(q: Queues, u: Queues, id: int, w: Waiter) {
    && (exists k :: 0 <= k <= Depth(q, id) && Queue(u, id) == Queue(q, id)[..k] + [w] + Queue(q, id)[k..]
                    && (forall i :: 0 <= i < k ==> Queue(q, id)[i].vtime <= w.vtime)
                    && (k < Depth(q, id) ==> w.vtime < Queue(q, id)[k].vtime))
    && forall other :: other != id ==> Queue(u, other) == Queue(q, other)
  }

  lemma AppendJoins(q: Queues, id: int, w: Waiter)
    ensures JoinsTail(q, Append(q, id, w), id, w)
  {
  }

  lemma InsertJoins(s: State, id: int, w: Waiter)
    ensures JoinsSorted(s.q, InsertVtime(s, id, w).q, id, w)
  {
    InsertSplits(Queue(s.q, id), w);
    var k := Rank(Queue(s.q, id), w.vtime);
    assert Queue(InsertVtime(s, id, w).q, id) == Queue(s.q, id)[..k] + [w] + Queue(s.q, id)[k..];
    forall other | other != id ensures Queue(InsertVtime(s, id, w).q, other) == Queue(s.q, other) {
      InsertFrame(s, id, w, other);
    }
  }

  // ------------------------------------------------------------------------ enqueue

  /** A kernel thread, or a short burst worth keeping on a CPU that is not busy with
      real-time work. */
  predicate StaysHome(c: Config, t: TaskCtx, e: Env) {
    t.kthread || (c.stickyTasks && t.avgRuntime < 10_000 && !e.rtBusy)
  }

  /** No CPU was selected at wakeup, and the profile lets the task move. */
  predicate MayMove(c: Config, e: Env) {
    !e.cpuSelected && (!c.stickyTasks || !e.running)
  }

  /** An ordinary task the scheduler knows. */
  predicate Ordinary(c: Config, s: State, pid: int) {
    pid in s.tasks && pid != c.userschedPid
  }

  /** The slice granted at `cpu`: the minimum, or a fair share of a weight-scaled base. */
  ghost predicate FairSlice(c: Config, q: Queues, t: TaskCtx, cpu: int, slice: nat)
    requires ValidConfig(c)
  {
    && slice >= c.sliceMinNs
    && forall s :: s > c.sliceMinNs ==>
         (s <= slice <==> s * Max(QueuePressure(c, q, cpu), 1) <= Scale(c.sliceNs, t.weight))
  }

  lemma TaskSliceIsFair(c: Config, q: Queues, t: TaskCtx, cpu: int)
    requires ValidConfig(c)
    ensures FairSlice(c, q, t, cpu, TaskSlice(c, q, t, cpu))
  {
    forall s: nat | s > c.sliceMinNs
      ensures s <= TaskSlice(c, q, t, cpu) <==> s * Max(QueuePressure(c, q, cpu), 1) <= Scale(c.sliceNs, t.weight)
    {
      SliceIsFairShare(c, q, t, cpu, s);
    }
  }

  /** The task, sent to the tail of the local queue of `cpu` with a fair slice there. */
  ghost predicate SentTo(c: Config, s: State, u: State, pid: int, cpu: int)
    requires ValidConfig(c) && pid in s.tasks
  {
    var t := s.tasks[pid];
    && JoinsTail(s.q, u.q, LOCAL_ON + cpu, Waiter(pid, t.dsqVtime, t.cpus))
    && pid in u.tasks && u.tasks == s.tasks[pid := t.(slice := u.tasks[pid].slice)]
    && FairSlice(c, s.q, t, cpu, u.tasks[pid].slice)
    && u.routes == s.routes.(local := s.routes.local + 1, kernel := s.routes.kernel + 1)
  }

  lemma DirectSends(c: Config, s: State, pid: int, cpu: int)
    requires ValidConfig(c) && pid in s.tasks && IsCpuValid(c, cpu)
    ensures SentTo(c, s, DirectLocal(c, s, pid, cpu), pid, cpu)
  {
    AppendJoins(s.q, LOCAL_ON + cpu, Waiter(pid, s.tasks[pid].dsqVtime, s.tasks[pid].cpus));
    TaskSliceIsFair(c, s.q, s.tasks[pid], cpu);
  }

  /** A kernel thread or a sticky task goes to the tail of its previous CPU's local queue. */
  lemma HomeIsKept(c: Config, s: State, pid: int, e: Env)
    requires ValidConfig(c) && TasksOk(s) && Enabled(c, s, EvEnqueue(pid, e)) && Ordinary(c, s, pid)
    requires StaysHome(c, s.tasks[pid], e)
    ensures SentTo(c, s, Enqueue(c, s, pid, e), pid, e.prevCpu)
  {
    DirectSends(c, s, pid, e.prevCpu);
  }

  /** Any other task that may move and for which an idle CPU was found goes to the tail of
      that CPU's local queue. */
  lemma IdleIsUsed(c: Config, s: State, pid: int, e: Env)
    requires ValidConfig(c) && TasksOk(s) && Enabled(c, s, EvEnqueue(pid, e)) && Ordinary(c, s, pid)
    requires !StaysHome(c, s.tasks[pid], e) && MayMove(c, e) && e.idleCpu >= 0
    ensures SentTo(c, s, Enqueue(c, s, pid, e), pid, e.idleCpu)
  {
    DirectSends(c, s, pid, e.idleCpu);
  }

  /** The queue a deferred task joins: the shared one when it may move away from a CPU busy
      with real-time work, else the nearest tier of its previous CPU with room. */
  ghost predicate IsDeferredTo(c: Config, q: Queues, e: Env, id: int)
    requires ValidConfig(c)
  {
    if MayMove(c, e) && e.rtBusy then id == SHARED_DSQ else IsNearest(c, q, e.prevCpu, id)
  }

  /** The task, deferred to queue `id` under its new key with a fair slice. */
  ghost predicate DeferredTo(c: Config, s: State, u: State, pid: int, e: Env, id: int)
    requires ValidConfig(c) && pid in s.tasks
  {
    var t := s.tasks[pid];
    && pid in u.tasks && u.tasks == s.tasks[pid := u.tasks[pid]]
    && IsDeferredTo(c, s.q, e, id)
    && JoinsSorted(s.q, u.q, id, Waiter(pid, u.tasks[pid].dsqVtime, t.cpus))
    && FairSlice(c, s.q, t, e.prevCpu, u.tasks[pid].slice)
    && CountedAt(c, s.routes, u.routes, id)
  }

  /** One counter, that of the tier, and the total went up. */
  ghost predicate CountedAt(c: Config, r: Routes, u: Routes, id: int) {
    u == if IsCpuDsq(c, id) then r.(local := r.local + 1, kernel := r.kernel + 1)
         else if IsLlcDsq(c, id) then r.(llc := r.llc + 1, kernel := r.kernel + 1)
         else if IsNodeDsq(c, id) then r.(node := r.node + 1, kernel := r.kernel + 1)
         else r.(shared := r.shared + 1, kernel := r.kernel + 1)
  }

  lemma TierIsCounted(c: Config, r: Routes, id: int)
    requires ValidConfig(c) && IsTier(c, id)
    ensures CountedAt(c, r, CountRoute(r, id), id)
  {
  }

  lemma TargetIsDeferredTo(c: Config, q: Queues, e: Env)
    requires ValidConfig(c) && IsCpuValid(c, e.prevCpu)
    ensures IsDeferredTo(c, q, e, TargetDsq(c, q, e)) && IsTier(c, TargetDsq(c, q, e))
  {
    OverflowIsNearest(c, q, e.prevCpu);
    OverflowHasRoom(c, q, e.prevCpu);
  }

  /** Any other task waits in one tier: the shared one when it may move and its previous CPU
      is busy with real-time work, else the nearest of that CPU's tiers that is not full. */
  lemma OthersAreDeferred(c: Config, s: State, pid: int, e: Env) returns (id: int)
    requires ValidConfig(c) && TasksOk(s) && Enabled(c, s, EvEnqueue(pid, e)) && Ordinary(c, s, pid)
    requires !StaysHome(c, s.tasks[pid], e) && !(MayMove(c, e) && e.idleCpu >= 0)
    ensures IsTier(c, id) && DeferredTo(c, s, Enqueue(c, s, pid, e), pid, e, id)
  {
    id := TargetDsq(c, s.q, e);
    TargetIsDeferredTo(c, s.q, e);
    DeferJoins(c, s, pid, e, id);
    assert Enqueue(c, s, pid, e) == Defer(c, s, pid, e);
  }

  lemma DeferJoins(c: Config, s: State, pid: int, e: Env, id: int)
    requires ValidConfig(c) && pid in s.tasks && s.tasks[pid].weight > 0
    requires id == TargetDsq(c, s.q, e) && IsDeferredTo(c, s.q, e, id) && IsTier(c, id)
    ensures DeferredTo(c, s, Defer(c, s, pid, e), pid, e, id)
  {
    var t := Defer(c, s, pid, e).tasks[pid];
    InsertJoins(s, id, Waiter(pid, t.dsqVtime, t.cpus));
    TierIsCounted(c, s.routes, id);
    TaskSliceIsFair(c, s.q, s.tasks[pid], e.prevCpu);
  }

  /** While calm, the key it waits under is its virtual time, caught up to the lag behind the
      front, plus its awake time up to one weight-scaled budget; beside the key, the capped
      awake time and the slice nothing of the task changes. */
  lemma DeferredKeyIsExact(c: Config, s: State, pid: int, e: Env)
    requires ValidConfig(c) && TasksOk(s) && Calm(s) && Enabled(c, s, EvEnqueue(pid, e)) && Ordinary(c, s, pid)
    requires !StaysHome(c, s.tasks[pid], e) && !(MayMove(c, e) && e.idleCpu >= 0)
    ensures var t, u := s.tasks[pid], Enqueue(c, s, pid, e);
            && pid in u.tasks
            && u.tasks[pid].awakeVtime == Min(t.awakeVtime, c.sliceLagNs * 100 / t.weight)
            && u.tasks[pid].dsqVtime
               == Max(t.dsqVtime, s.vtimeNow - ExactLag(c, s.q, t, e.prevCpu)) + u.tasks[pid].awakeVtime
            && u.tasks[pid] == t.(dsqVtime := u.tasks[pid].dsqVtime, awakeVtime := u.tasks[pid].awakeVtime,
                                  slice := u.tasks[pid].slice)
  {
    var t := s.tasks[pid];
    DeadlineIsExact(c, s.q, s.vtimeNow, t, e.prevCpu);
    AwakeIsExact(c, s.q, s.vtimeNow, t, e.prevCpu);
    assert Enqueue(c, s, pid, e) == Defer(c, s, pid, e);
  }

  /** The fallback's own process goes to its own queue while the fallback is on; a task the
      scheduler does not know is ignored. */
  lemma SchedulerQueues(c: Config, s: State, pid: int, e: Env)
    requires ValidConfig(c) && TasksOk(s) && Enabled(c, s, EvEnqueue(pid, e)) && !Ordinary(c, s, pid)
    ensures var u := Enqueue(c, s, pid, e);
            if pid in s.tasks && c.userschedEnabled then
              && JoinsTail(s.q, u.q, SCHED_DSQ, Waiter(pid, s.tasks[pid].dsqVtime, s.tasks[pid].cpus))
              && u.tasks == s.tasks[pid := s.tasks[pid].(slice := c.sliceNs)] && u.routes == s.routes
            else u == s
  {
  }

  // ------------------------------------------------------------------------- wakeup

  /** A wakeup sends the task to the idle CPU that was found, or changes nothing. */
  lemma WakeupUsesIdle(c: Config, s: State, pid: int, idleCpu: int)
    requires ValidConfig(c) && Ordinary(c, s, pid) && Enabled(c, s, EvSelect(pid, idleCpu))
    ensures if idleCpu >= 0 then SentTo(c, s, SelectCpu(c, s, pid, idleCpu), pid, idleCpu)
            else SelectCpu(c, s, pid, idleCpu) == s
  {
    if idleCpu >= 0 {
      DirectSends(c, s, pid, idleCpu);
    }
  }

  /** The repaired CPU is one the task may use whenever there is one; it is the previous
      CPU if that is allowed, else the waker's if that is. */
  lemma RepairedCpuIsUsable(c: Config, cpus: set<int>, prevCpu: int, thisCpu: int)
    ensures (exists cpu :: 0 <= cpu < c.nrCpuIds && cpu in cpus) ==> UsableCpu(c, cpus, prevCpu, thisCpu) in cpus
    ensures prevCpu in cpus ==> UsableCpu(c, cpus, prevCpu, thisCpu) == prevCpu
    ensures prevCpu !in cpus && thisCpu in cpus ==> UsableCpu(c, cpus, prevCpu, thisCpu) == thisCpu
  {
  }

  // ---------------------------------------------------------------- userspace messages

  /** The queue a message asks for: the shared one when it names no CPU, the queue of the
      CPU it names when the task may run there, else that of the CPU the task last used. */
  ghost predicate IsAskedFor(c: Config, cpus: set<int>, m: Submission, id: int) {
    id == if m.task.cpu == Policy.RL_CPU_ANY then SHARED_DSQ
          else if m.task.cpu in cpus then CpuToDsq(c, m.task.cpu) else CpuToDsq(c, m.prevCpu)
  }

  lemma MessageInserts(c: Config, s: State, m: Submission, id: int)
    requires NeverCancelled(s) && m.task.pid in s.tasks && IsAskedFor(c, s.tasks[m.task.pid].cpus, m, id)
    ensures UserDispatch(c, s, m).q == InsertVtime(s, id, Waiter(m.task.pid, m.task.vtime, s.tasks[m.task.pid].cpus)).q
  {
    assert s.tasks[m.task.pid].enqCnt == 0;
  }

  /** A message for a known task puts it, under the key it names, into the queue it asks
      for, with the slice it names. */
  lemma MessageLands(c: Config, s: State, m: Submission, id: int)
    requires NeverCancelled(s) && m.task.pid in s.tasks && IsAskedFor(c, s.tasks[m.task.pid].cpus, m, id)
    ensures JoinsSorted(s.q, UserDispatch(c, s, m).q, id, Waiter(m.task.pid, m.task.vtime, s.tasks[m.task.pid].cpus))
    ensures UserDispatch(c, s, m).tasks
            == s.tasks[m.task.pid := s.tasks[m.task.pid].(dsqVtime := m.task.vtime, slice := m.task.sliceNs)]
  {
    MessageInserts(c, s, m, id);
    InsertJoins(s, id, Waiter(m.task.pid, m.task.vtime, s.tasks[m.task.pid].cpus));
    assert s.tasks[m.task.pid].enqCnt == 0;
  }

  /** It is counted as a bounce when it names a CPU the task may not use, else as a user
      dispatch. */
  lemma MessageIsCounted(c: Config, s: State, m: Submission)
    requires NeverCancelled(s) && m.task.pid in s.tasks
    ensures UserDispatch(c, s, m).routes
            == if m.task.cpu == Policy.RL_CPU_ANY || m.task.cpu in s.tasks[m.task.pid].cpus
               then s.routes.(user := s.routes.user + 1)
               else s.routes.(bounce := s.routes.bounce + 1)
  {
    assert s.tasks[m.task.pid].enqCnt == 0;
  }

  // ----------------------------------------------------------------------- dispatch

  /** With work for the fallback, its own process runs first where it may. */
  lemma SchedulerGoesFirst(c: Config, s: State, cpu: int, prev: int, prevQueued: bool, still: bool)
    requires ValidConfig(c) && c.userschedEnabled && IsCpuValid(c, cpu) && CanMove(s.q, SCHED_DSQ, cpu)
    ensures Depth(Dispatch(c, s, cpu, prev, prevQueued, [], true, still).q, SCHED_DSQ) == Depth(s.q, SCHED_DSQ) - 1
    ensures Dispatch(c, s, cpu, prev, prevQueued, [], true, still).routes == s.routes
  {
    FirstAllowedIsFirst(Queue(s.q, SCHED_DSQ), cpu);
    WithoutCounts(Queue(s.q, SCHED_DSQ), FirstAllowed(Queue(s.q, SCHED_DSQ), cpu));
  }

  /** Only a task stolen from another LLC's queue counts as a cross-LLC steal, only one from
      another node's as a cross-node steal, and no dispatch touches another counter. */
  lemma StealsAreCounted(c: Config, s: State, cpu: int, prev: int, prevQueued: bool, still: bool)
    requires ValidConfig(c) && IsCpuValid(c, cpu) && Choose(c, s.q, cpu) != Refill
    ensures var id, r := Choose(c, s.q, cpu).id, s.routes;
            Dispatch(c, s, cpu, prev, prevQueued, [], false, still).routes
            == if IsLlcDsq(c, id) && id !in OwnTiers(c, cpu) then r.(xllc := r.xllc + 1)
               else if IsNodeDsq(c, id) && id !in OwnTiers(c, cpu) then r.(xnode := r.xnode + 1)
               else r
  {
    ChosenIsTier(c, s.q, cpu);
    PickIsOwn(c, s.q, cpu);
  }

  lemma LlcStealIsRemote(c: Config, q: Queues, cpu: int, sameNode: bool)
    requires ValidConfig(c) && IsCpuValid(c, cpu)
    ensures StealLlc(c, q, cpu, sameNode) != -1 ==> StealLlc(c, q, cpu, sameNode) != CpuLlcDsq(c, cpu)
  {
    ScanListed(q, LlcVictims(c, cpu, sameNode, c.nrLlcs - 1));
    LlcVictimsAreRemote(c, cpu, sameNode, c.nrLlcs - 1);
  }

  lemma NodeStealIsRemote(c: Config, q: Queues, cpu: int)
    requires ValidConfig(c) && IsCpuValid(c, cpu)
    ensures StealNode(c, q, cpu) != -1 ==> StealNode(c, q, cpu) != CpuNodeDsq(c, cpu)
  {
    ScanListed(q, NodeVictims(c, cpu, c.nrNodes - 1));
    NodeVictimsAreRemote(c, cpu, c.nrNodes - 1);
  }

  lemma PickIsOwn(c: Config, q: Queues, cpu: int)
    requires ValidConfig(c) && IsCpuValid(c, cpu) && Choose(c, q, cpu) != Refill
    ensures Choose(c, q, cpu).Own? ==> Choose(c, q, cpu).id in OwnTiers(c, cpu)
    ensures Choose(c, q, cpu).RemoteLlc? || Choose(c, q, cpu).RemoteNode? ==> Choose(c, q, cpu).id !in OwnTiers(c, cpu)
  {
    OwnChoiceIsComplete(c, q, cpu);
    ChosenIsTier(c, q, cpu);
    LlcStealIsRemote(c, q, cpu, true);
    LlcStealIsRemote(c, q, cpu, false);
    NodeStealIsRemote(c, q, cpu);
  }

  /** When nothing can be taken, a dispatch refills the task that keeps the CPU and still
      wants to run, the fallback's own process only while it has work; nothing else changes. */
  lemma RefillIsFair(c: Config, s: State, cpu: int, prev: int, prevQueued: bool, still: bool)
    requires ValidConfig(c) && Choose(c, s.q, cpu) == Refill
    ensures var u := Dispatch(c, s, cpu, prev, prevQueued, [], false, still);
            if prev in s.tasks && prevQueued && (prev != c.userschedPid || (c.userschedEnabled && still)) then
              && prev in u.tasks && u == s.(tasks := s.tasks[prev := s.tasks[prev].(slice := u.tasks[prev].slice)])
              && FairSlice(c, s.q, s.tasks[prev], cpu, u.tasks[prev].slice)
            else u == s
  {
    if prev in s.tasks {
      TaskSliceIsFair(c, s.q, s.tasks[prev], cpu);
    }
  }

  // ------------------------------------------------------------------ task callbacks

  /** A task that joins starts at the front, so while values are small its first deferred
      deadline is not before the front it joined at. */
  lemma JoinerStartsAtFront(c: Config, s: State, pid: int, e: Env)
    requires ValidConfig(c) && TasksOk(s) && pid in s.tasks && s.vtimeNow + LagBound(MAX_SLICE_LAG_NS) < TWO63
    requires s.tasks[pid].awakeVtime < TWO63
    ensures var t := Enable(c, s, pid).tasks[pid];
            && t.dsqVtime == s.vtimeNow && t.slice >= c.sliceNs && t.slice >= c.sliceMinNs
            && Deadline(c, s.q, s.vtimeNow, t, e.prevCpu) >= s.vtimeNow
    ensures Enable(c, s, pid).q == s.q && Enable(c, s, pid).vtimeNow == s.vtimeNow
  {
    DeadlineIsExact(c, s.q, s.vtimeNow, Enable(c, s, pid).tasks[pid], e.prevCpu);
    CatchUpIsExact(c, s.q, s.vtimeNow, Enable(c, s, pid).tasks[pid], e.prevCpu);
    AwakeIsExact(c, s.q, s.vtimeNow, Enable(c, s, pid).tasks[pid], e.prevCpu);
  }

  /** While values are small the front follows the task that starts running, and only ever
      forward. */
  lemma FrontFollowsRunning(c: Config, s: State, pid: int, start: nat, now: nat)
    requires Ordinary(c, s, pid) && s.vtimeNow < TWO63 && s.tasks[pid].dsqVtime < TWO63
    ensures var u := Running(c, s, pid, start, now);
            && u.vtimeNow >= s.vtimeNow && u.vtimeNow >= s.tasks[pid].dsqVtime
            && (u.vtimeNow == s.vtimeNow || u.vtimeNow == s.tasks[pid].dsqVtime)
            && u.q == s.q && u.tasks == s.tasks[pid := s.tasks[pid].(startTs := start, lastRunAt := now)]
  {
    TimeBeforeCalm(s.vtimeNow, s.tasks[pid].dsqVtime);
  }

  /** A wakeup starts a new burst; the frequency moves a quarter of the way to the number of
      such gaps in 100 ms, up to rounding and the cap of 64. */
  lemma WakeupStartsBurst(c: Config, s: State, pid: int, now: nat)
    requires TasksOk(s) && Ordinary(c, s, pid)
    ensures var t, u := s.tasks[pid], Runnable(c, s, pid, now);
            && pid in u.tasks && u == s.(tasks := s.tasks[pid := u.tasks[pid]])
            && u.tasks[pid] == t.(execRuntime := 0, awakeVtime := 0, lastWokeAt := now,
                                  wakeupFreq := u.tasks[pid].wakeupFreq)
            && u.tasks[pid].wakeupFreq <= MAX_WAKEUP_FREQ
    ensures var t, f := s.tasks[pid], Runnable(c, s, pid, now).tasks[pid].wakeupFreq;
            var gap := if now > t.lastWokeAt then now - t.lastWokeAt else 1;
            (f < MAX_WAKEUP_FREQ ==> 4 * f <= 3 * t.wakeupFreq + 100_000_000 / gap + 3)
            && (f < MAX_WAKEUP_FREQ ==> 4 * f + 3 >= 3 * t.wakeupFreq + 100_000_000 / gap)
  {
    var t := s.tasks[pid];
    var gap := if now > t.lastWokeAt then now - t.lastWokeAt else 1;
    DivisionMonotone(100_000_000, 1, gap);
    AvgIsWeighted(t.wakeupFreq, 100_000_000 / gap);
  }

  /** A stop adds the run time to the burst and moves the average a quarter of the way to it,
      up to rounding. */
  lemma StopAverages(c: Config, s: State, pid: int, now: nat, ran: nat, exec: nat)
    requires TasksOk(s) && Ordinary(c, s, pid) && s.tasks[pid].execRuntime + exec < TWO64
    requires s.tasks[pid].avgRuntime < TWO64 && ran < TWO64
    ensures var t, u := s.tasks[pid], Stopping(c, s, pid, now, ran, exec);
            && pid in u.tasks && u.tasks[pid].stopTs == now && u.tasks[pid].execRuntime == t.execRuntime + exec
            && 4 * u.tasks[pid].avgRuntime <= 3 * t.avgRuntime + ran + 3
            && 4 * u.tasks[pid].avgRuntime + 3 >= 3 * t.avgRuntime + ran
  {
    AvgIsWeighted(s.tasks[pid].avgRuntime, ran);
  }
}
