/** The scheduler on unbounded integers: the same callbacks with plain arithmetic and
    plain comparisons, and the proof that the 64-bit machine does exactly the same, queue
    keys included, as long as the integer values stay below 2^63. */
module IntegerMachine {
  import opened Numbers
  import opened VirtualTime
  import opened Dsq
  import opened Hierarchy
  import opened Machine
  import opened Runs

  // ---------------------------------------------------------------- the callbacks

  function IntSlice(c: Config, q: Queues, t: TaskCtx, cpu: int): int
    requires ValidConfig(c)
  {
    Max(c.sliceNs * t.weight / 100 / Max(QueuePressure(c, q, cpu), 1), c.sliceMinNs)
  }

  function IntLagScale(sliceNs: nat, pressure: nat, freq: nat): int {
    if pressure * sliceNs >= STARVATION_NS then 1
    else Max(Max(freq, 1) * QThresh(sliceNs) / (QThresh(sliceNs) + pressure), 1)
  }

  function IntLag(c: Config, q: Queues, t: TaskCtx, cpu: int): int
    requires ValidConfig(c)
  {
    c.sliceLagNs * IntLagScale(c.sliceNs, QueuePressure(c, q, cpu), t.wakeupFreq) * t.weight / 100
  }

  function IntVtime(c: Config, q: Queues, now: nat, t: TaskCtx, cpu: int): nat
    requires ValidConfig(c)
  {
    Max(t.dsqVtime, now - IntLag(c, q, t, cpu))
  }

  function IntAwake(c: Config, t: TaskCtx): int
    requires t.weight > 0
  {
    Min(t.awakeVtime, c.sliceLagNs * 100 / t.weight)
  }

  /** A task context with a new slice, as the integer machine computes it. */
  function WithSlice(c: Config, q: Queues, t: TaskCtx, cpu: int): TaskCtx
    requires ValidConfig(c)
  {
    t.(slice := IntSlice(c, q, t, cpu))
  }

  function IntDirect(c: Config, s: State, pid: int, cpu: int): State
    requires ValidConfig(c) && pid in s.tasks
  {
    var t := WithSlice(c, s.q, s.tasks[pid], cpu);
    InsertFifo(s, LOCAL_ON + cpu, Waiter(pid, t.dsqVtime, t.cpus))
    .(tasks := s.tasks[pid := t], routes := CountRoute(s.routes, LOCAL_ON + cpu))
  }

  function IntDefer(c: Config, s: State, pid: int, e: Env): State
    requires ValidConfig(c) && pid in s.tasks && s.tasks[pid].weight > 0
  {
    var t, id := s.tasks[pid], TargetDsq(c, s.q, e);
    var awake: nat := Max(IntAwake(c, t), 0);
    var key := IntVtime(c, s.q, s.vtimeNow, t, e.prevCpu) + awake;
    var u := WithSlice(c, s.q, t, e.prevCpu).(dsqVtime := key, awakeVtime := awake);
    InsertVtime(s, id, Waiter(pid, key, t.cpus)).(tasks := s.tasks[pid := u], routes := CountRoute(s.routes, id))
  }

  function IntEnqueue(c: Config, s: State, pid: int, e: Env): State
    requires ValidConfig(c) && (pid in s.tasks ==> s.tasks[pid].weight > 0)
  {
    match RouteOf(c, s, pid, e)
    case Ignored => s
    case ToScheduler => Enqueue(c, s, pid, e)
    case Direct(cpu) => IntDirect(c, s, pid, cpu)
    case Deferred => IntDefer(c, s, pid, e)
  }

  function IntSelect(c: Config, s: State, pid: int, idleCpu: int): State
    requires ValidConfig(c)
  {
    if pid == c.userschedPid || pid !in s.tasks || idleCpu < 0 then s else IntDirect(c, s, pid, idleCpu)
  }

  function IntServe(c: Config, s: State, cpu: int, prev: int, prevQueued: bool, pending: bool, still: bool): State
    requires ValidConfig(c)
  {
    if c.userschedEnabled && pending && CanMove(s.q, SCHED_DSQ, cpu) then MoveToLocal(s, SCHED_DSQ, cpu)
    else if Choose(c, s.q, cpu) != Refill then Draw(c, s, cpu, Choose(c, s.q, cpu))
    else if prev in s.tasks && prevQueued && (prev != c.userschedPid || (c.userschedEnabled && still)) then
      s.(tasks := s.tasks[prev := WithSlice(c, s.q, s.tasks[prev], cpu)])
    else s
  }

  function IntAvg(old_: nat, new_: nat): int {
    old_ - old_ / 4 + new_ / 4
  }

  function IntRunnable(c: Config, s: State, pid: int, now: nat): State {
    if pid == c.userschedPid || pid !in s.tasks then s
    else
      var t := s.tasks[pid];
      var gap := if now > t.lastWokeAt then now - t.lastWokeAt else 1;
      s.(tasks := s.tasks[pid := t.(execRuntime := 0, awakeVtime := 0, lastWokeAt := now,
                                   wakeupFreq := Min(IntAvg(t.wakeupFreq, 100_000_000 / gap), MAX_WAKEUP_FREQ))])
  }

  function IntRunning(c: Config, s: State, pid: int, start: nat, now: nat): State {
    if pid == c.userschedPid || pid !in s.tasks then s
    else
      var t := s.tasks[pid];
      s.(tasks := s.tasks[pid := t.(startTs := start, lastRunAt := now)], vtimeNow := Max(s.vtimeNow, t.dsqVtime))
  }

  /** Run time scaled inversely to a weight. */
  function IntCharge(ran: nat, weight: nat): nat
    requires weight > 0
  {
    ran * 100 / weight
  }

  /** A task that ran for `ran`, charged `delta` of virtual time. */
  function IntCharged(t: TaskCtx, now: nat, ran: nat, exec: nat, delta: nat): TaskCtx {
    t.(stopTs := now, execRuntime := t.execRuntime + exec, avgRuntime := IntAvg(t.avgRuntime, ran),
       dsqVtime := t.dsqVtime + delta, awakeVtime := t.awakeVtime + delta)
  }

  function IntStopping(c: Config, s: State, pid: int, now: nat, ran: nat, exec: nat): State
    requires pid in s.tasks ==> s.tasks[pid].weight > 0
  {
    if pid == c.userschedPid || pid !in s.tasks then s
    else
      var t := s.tasks[pid];
      s.(tasks := s.tasks[pid := IntCharged(t, now, ran, exec, IntCharge(ran, t.weight))])
  }

  function IntNext(c: Config, s: State, e: Event): State
    requires ValidConfig(c) && TasksOk(s) && Enabled(c, s, e)
  {
    match e
    case EvEnqueue(pid, env) => IntEnqueue(c, s, pid, env)
    case EvSelect(pid, idleCpu) => IntSelect(c, s, pid, idleCpu)
    case EvDispatch(cpu, prev, prevQueued, ring, pending, still) =>
      IntServe(c, DrainRing(c, s, Consumed(ring)), cpu, prev, prevQueued, pending, still)
    case EvRunnable(pid, now) => IntRunnable(c, s, pid, now)
    case EvRunning(pid, start, now) => IntRunning(c, s, pid, start, now)
    case EvStopping(pid, now, ran, exec) => IntStopping(c, s, pid, now, ran, exec)
    case _ => Next(c, s, e)
  }

  // ---------------------------------------------------------------- small values

  /** A base slice whose weight-scaled product fits in 64 bits: 21 days will do. */
  predicate ModerateSlice(c: Config) { c.sliceNs * MAX_WEIGHT < TWO64 }

  /** The queue pressure times the base slice fits in 64 bits. */
  ghost predicate ModerateQueues(c: Config, q: Queues)
    requires ValidConfig(c)
  {
    forall cpu :: QueuePressure(c, q, cpu) * c.sliceNs < TWO64
  }

  ghost predicate SmallTask(t: TaskCtx) {
    && t.dsqVtime + LagBound(MAX_SLICE_LAG_NS) < TWO63 && t.awakeVtime < TWO63
    && t.execRuntime < TWO63 && t.avgRuntime < TWO63
  }

  ghost predicate Small(c: Config, s: State)
    requires ValidConfig(c)
  {
    && s.vtimeNow < TWO63 && ModerateQueues(c, s.q)
    && forall pid :: pid in s.tasks ==> SmallTask(s.tasks[pid])
  }

  predicate SmallEvent(e: Event) {
    e.EvStopping? ==> e.ran * 100 < TWO64
  }

  // --------------------------------------------------------- piece by piece equality

  lemma SliceCoincides(c: Config, q: Queues, t: TaskCtx, cpu: int)
    requires ValidConfig(c) && ModerateSlice(c) && GoodWeight(t.weight)
    ensures IntSlice(c, q, t, cpu) == TaskSlice(c, q, t, cpu)
  {
    MulMonotone(t.weight, MAX_WEIGHT, c.sliceNs);
    assert U64(c.sliceNs * t.weight) == c.sliceNs * t.weight;
  }

  lemma LagScaleCoincides(sliceNs: nat, pressure: nat, freq: nat)
    requires pressure * sliceNs < TWO64 && freq <= MAX_WAKEUP_FREQ
    ensures IntLagScale(sliceNs, pressure, freq) == LagScale(sliceNs, pressure, freq)
  {
    CreditFits(sliceNs, Max(freq, 1));
    assert U64(pressure * sliceNs) == pressure * sliceNs;
  }

  lemma VtimeCoincides(c: Config, q: Queues, now: nat, t: TaskCtx, cpu: int)
    requires ValidConfig(c) && GoodWeight(t.weight) && t.wakeupFreq <= MAX_WAKEUP_FREQ
    requires now < TWO63 && t.dsqVtime + LagBound(MAX_SLICE_LAG_NS) < TWO63
    requires QueuePressure(c, q, cpu) * c.sliceNs < TWO64
    ensures CaughtUp(c, q, now, t, cpu).dsqVtime == IntVtime(c, q, now, t, cpu) < TWO63
  {
    LagScaleCoincides(c.sliceNs, QueuePressure(c, q, cpu), t.wakeupFreq);
    LagCoincides(c, q, t, cpu);
    CatchUpIsExact(c, q, now, t, cpu);
  }

  lemma LagCoincides(c: Config, q: Queues, t: TaskCtx, cpu: int)
    requires ValidConfig(c)
    requires IntLagScale(c.sliceNs, QueuePressure(c, q, cpu), t.wakeupFreq)
             == LagScale(c.sliceNs, QueuePressure(c, q, cpu), t.wakeupFreq)
    ensures IntLag(c, q, t, cpu) == ExactLag(c, q, t, cpu)
  {
  }

  lemma KeyCoincides(c: Config, q: Queues, now: nat, t: TaskCtx, cpu: int)
    requires ValidConfig(c) && GoodWeight(t.weight) && t.wakeupFreq <= MAX_WAKEUP_FREQ && SmallTask(t)
    requires now < TWO63 && QueuePressure(c, q, cpu) * c.sliceNs < TWO64
    ensures CaughtUp(c, q, now, t, cpu).awakeVtime == IntAwake(c, t)
    ensures Deadline(c, q, now, t, cpu) == IntVtime(c, q, now, t, cpu) + IntAwake(c, t)
  {
    VtimeCoincides(c, q, now, t, cpu);
    AwakeIsExact(c, q, now, t, cpu);
    DeadlineIsSum(c, q, now, t, cpu);
  }

  lemma DirectCoincides(c: Config, s: State, pid: int, cpu: int)
    requires ValidConfig(c) && ModerateSlice(c) && pid in s.tasks && GoodWeight(s.tasks[pid].weight)
    ensures IntDirect(c, s, pid, cpu) == DirectLocal(c, s, pid, cpu)
  {
    SliceCoincides(c, s.q, s.tasks[pid], cpu);
  }

  lemma DeferCoincides(c: Config, s: State, pid: int, e: Env)
    requires ValidConfig(c) && ModerateSlice(c) && TasksOk(s) && Small(c, s) && pid in s.tasks
    ensures IntDefer(c, s, pid, e) == Defer(c, s, pid, e)
  {
    var t := s.tasks[pid];
    SliceCoincides(c, s.q, t, e.prevCpu);
    KeyCoincides(c, s.q, s.vtimeNow, t, e.prevCpu);
  }

  lemma EnqueueCoincides(c: Config, s: State, pid: int, e: Env)
    requires ValidConfig(c) && ModerateSlice(c) && TasksOk(s) && Small(c, s)
    ensures IntEnqueue(c, s, pid, e) == Enqueue(c, s, pid, e)
  {
    match RouteOf(c, s, pid, e)
    case Ignored =>
    case ToScheduler =>
    case Direct(cpu) => DirectCoincides(c, s, pid, cpu);
    case Deferred => DeferCoincides(c, s, pid, e);
  }

  lemma ServeCoincides(c: Config, s: State, cpu: int, prev: int, prevQueued: bool, pending: bool, still: bool)
    requires ValidConfig(c) && ModerateSlice(c) && TasksOk(s)
    ensures IntServe(c, s, cpu, prev, prevQueued, pending, still) == Serve(c, s, cpu, prev, prevQueued, pending, still)
  {
    if prev in s.tasks {
      SliceCoincides(c, s.q, s.tasks[prev], cpu);
    }
  }

  lemma {:induction false} DrainKeepsTasks(c: Config, s: State, ring: seq<Submission>)
    requires TasksOk(s)
    ensures TasksOk(DrainRing(c, s, ring))
  {
    if ring == [] {
    } else {
      DrainKeepsTasks(c, s, ring[..|ring| - 1]);
    }
  }

  lemma AvgCoincides(old_: nat, new_: nat)
    requires old_ < TWO63 && new_ < TWO64
    ensures IntAvg(old_, new_) == CalcAvg(old_, new_)
  {
    AvgIsBetween(old_, new_);
    var kept := old_ - old_ / 4;
    assert U64(kept) == kept && kept + new_ / 4 < TWO64;
  }

  lemma RunnableCoincides(c: Config, s: State, pid: int, now: nat)
    requires TasksOk(s)
    ensures IntRunnable(c, s, pid, now) == Runnable(c, s, pid, now)
  {
    if pid in s.tasks {
      var t := s.tasks[pid];
      var gap := if now > t.lastWokeAt then now - t.lastWokeAt else 1;
      DivisionMonotone(100_000_000, 1, gap);
      AvgCoincides(t.wakeupFreq, 100_000_000 / gap);
    }
  }

  lemma RunningCoincides(c: Config, s: State, pid: int, start: nat, now: nat)
    requires ValidConfig(c) && Small(c, s)
    ensures IntRunning(c, s, pid, start, now) == Running(c, s, pid, start, now)
  {
    if pid in s.tasks {
      assert SmallTask(s.tasks[pid]);
      TimeBeforeCalm(s.vtimeNow, s.tasks[pid].dsqVtime);
    }
  }

  lemma SumCoincides(a: nat, b: nat)
    requires a + b < TWO64
    ensures U64(a + b) == a + b
  {
  }

  lemma ChargeCoincides(ran: nat, weight: nat)
    requires weight > 0 && ran * 100 < TWO64
    ensures ScaleInverse(ran, weight) == IntCharge(ran, weight)
  {
    SumCoincides(ran * 100, 0);
  }

  /** What a stop writes, with the wrapping sums of the code. */
  function Charged(t: TaskCtx, now: nat, ran: nat, exec: nat, delta: nat): TaskCtx {
    t.(stopTs := now, execRuntime := U64(t.execRuntime + exec), avgRuntime := CalcAvg(t.avgRuntime, ran),
       dsqVtime := U64(t.dsqVtime + delta), awakeVtime := U64(t.awakeVtime + delta))
  }

  lemma ChargedCoincides(t: TaskCtx, now: nat, ran: nat, exec: nat, delta: nat)
    requires SmallTask(t) && SmallTask(IntCharged(t, now, ran, exec, delta)) && ran < TWO64
    ensures Charged(t, now, ran, exec, delta) == IntCharged(t, now, ran, exec, delta)
  {
    SumCoincides(t.execRuntime, exec);
    SumCoincides(t.dsqVtime, delta);
    SumCoincides(t.awakeVtime, delta);
    AvgCoincides(t.avgRuntime, ran);
  }

  lemma StoppingIsCharged(c: Config, s: State, pid: int, now: nat, ran: nat, exec: nat)
    requires pid in s.tasks && pid != c.userschedPid && s.tasks[pid].weight > 0
    ensures var t := s.tasks[pid];
            Stopping(c, s, pid, now, ran, exec)
            == s.(tasks := s.tasks[pid := Charged(t, now, ran, exec, ScaleInverse(ran, t.weight))])
  {
  }

  lemma StoppingCoincides(c: Config, s: State, pid: int, now: nat, ran: nat, exec: nat)
    requires ValidConfig(c) && TasksOk(s) && Small(c, s) && ran * 100 < TWO64
    requires Small(c, IntStopping(c, s, pid, now, ran, exec))
    ensures IntStopping(c, s, pid, now, ran, exec) == Stopping(c, s, pid, now, ran, exec)
  {
    if pid in s.tasks && pid != c.userschedPid {
      var t := s.tasks[pid];
      assert SmallTask(t);
      assert SmallTask(IntStopping(c, s, pid, now, ran, exec).tasks[pid]);
      ChargeCoincides(ran, t.weight);
      ChargedCoincides(t, now, ran, exec, IntCharge(ran, t.weight));
      StoppingIsCharged(c, s, pid, now, ran, exec);
    }
  }

  // -------------------------------------------------------------------- whole runs

  /** One step of the two machines, from a small state to a small state. */
  lemma StepCoincides(c: Config, s: State, e: Event)
    requires ValidConfig(c) && ModerateSlice(c) && TasksOk(s) && Enabled(c, s, e)
    requires Small(c, s) && SmallEvent(e) && Small(c, IntNext(c, s, e))
    ensures IntNext(c, s, e) == Next(c, s, e)
  {
    match e
    case EvEnqueue(pid, env) => EnqueueCoincides(c, s, pid, env);
    case EvSelect(pid, idleCpu) =>
      if pid in s.tasks {
        DirectCoincides(c, s, pid, idleCpu);
      }
    case EvDispatch(cpu, prev, prevQueued, ring, pending, still) =>
      DrainKeepsTasks(c, s, Consumed(ring));
      ServeCoincides(c, DrainRing(c, s, Consumed(ring)), cpu, prev, prevQueued, pending, still);
    case EvRunnable(pid, now) => RunnableCoincides(c, s, pid, now);
    case EvRunning(pid, start, now) => RunningCoincides(c, s, pid, start, now);
    case EvStopping(pid, now, ran, exec) => StoppingCoincides(c, s, pid, now, ran, exec);
    case _ =>
  }

  ghost predicate IntLinkedAt(c: Config, ideal: seq<State>, events: seq<Event>, i: nat)
    requires ValidConfig(c) && |ideal| == |events| + 1 && i < |events|
  {
    TasksOk(ideal[i]) && Enabled(c, ideal[i], events[i]) && ideal[i + 1] == IntNext(c, ideal[i], events[i])
  }

  /** A run of the integer machine. */
  ghost predicate IsIntRun(c: Config, ideal: seq<State>, events: seq<Event>)
    requires ValidConfig(c)
  {
    |ideal| == |events| + 1 && forall i :: 0 <= i < |events| ==> IntLinkedAt(c, ideal, events, i)
  }

  ghost predicate SmallRun(c: Config, ideal: seq<State>, events: seq<Event>)
    requires ValidConfig(c)
  {
    (forall i :: 0 <= i < |ideal| ==> Small(c, ideal[i])) && forall i :: 0 <= i < |events| ==> SmallEvent(events[i])
  }

  lemma StepIsReal(c: Config, ideal: seq<State>, events: seq<Event>, i: nat)
    requires ValidConfig(c) && ModerateSlice(c) && IsIntRun(c, ideal, events) && SmallRun(c, ideal, events)
    requires i < |events|
    ensures LinkedAt(c, ideal, events, i)
  {
    assert IntLinkedAt(c, ideal, events, i);
    StepCoincides(c, ideal[i], events[i]);
  }

  /** A run of the integer machine with small values is, state by state and key by key,
      a run of the 64-bit machine. */
  lemma IntegerRunIsRun(c: Config, ideal: seq<State>, events: seq<Event>)
    requires ValidConfig(c) && ModerateSlice(c) && IsIntRun(c, ideal, events) && SmallRun(c, ideal, events)
    ensures IsRun(c, ideal, events)
  {
    forall i | 0 <= i < |events| ensures LinkedAt(c, ideal, events, i) {
      StepIsReal(c, ideal, events, i);
    }
  }

  lemma SameNext(c: Config, states: seq<State>, ideal: seq<State>, events: seq<Event>, i: nat)
    requires ValidConfig(c) && |states| == |ideal| == |events| + 1 && i < |events| && states[i] == ideal[i]
    requires LinkedAt(c, states, events, i) && LinkedAt(c, ideal, events, i)
    ensures states[i + 1] == ideal[i + 1]
  {
  }

  /** So under the same events the two machines never part while the integer values
      stay small. */
  lemma {:induction false} RunsCoincide(c: Config, states: seq<State>, ideal: seq<State>, events: seq<Event>, k: nat)
    requires ValidConfig(c) && ModerateSlice(c) && IsIntRun(c, ideal, events) && SmallRun(c, ideal, events)
    requires IsRun(c, states, events) && states[0] == ideal[0] && k < |states|
    ensures states[k] == ideal[k]
  {
    if k == 0 {
    } else {
      RunsCoincide(c, states, ideal, events, k - 1);
      StepIsReal(c, ideal, events, k - 1);
      assert LinkedAt(c, states, events, k - 1);
      SameNext(c, states, ideal, events, k - 1);
    }
  }
}
