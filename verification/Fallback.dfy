/** The userspace fallback as the program runs it: three queues, a virtual clock and
    the loops of `schedule()`.  The kernel rings are an arbitrary stream of arrivals
    and an arbitrary fate for each submission; the clock is arbitrary at each read. */
module Fallback {
  import opened Numbers
  import opened Options
  import opened Policy
  import opened TaskQueues
  import opened Lanes
  import L = Lifetime

  class Scheduler {
    const profile: Profile
    const rtQueue: TaskQueue<Task>
    const boostedQueue: TaskQueue<Task>
    const interactiveQueue: TaskQueue<Task>
    const lifetime: L.LifetimeTable
    var vruntimeNow: nat
    var nrScheduled: nat
    var nrCongested: nat
    /** The user ring buffer, as everything ever submitted to it. */
    var sent: seq<DispatchedTask>

    ghost var received: seq<Task>
    ghost var dispatched: seq<Task>
    ghost var lost: seq<Task>
    ghost var log: seq<L.Op>
    ghost const Repr: set<object>

    ghost predicate Valid()
      reads this, Repr
      ensures Valid() ==> this in Repr
    {
      && Repr == {this} + rtQueue.Repr + boostedQueue.Repr + interactiveQueue.Repr + lifetime.Repr
      && lifetime in lifetime.Repr && rtQueue in rtQueue.Repr && boostedQueue in boostedQueue.Repr
          && interactiveQueue in interactiveQueue.Repr
      && {this} !! rtQueue.Repr !! boostedQueue.Repr !! interactiveQueue.Repr !! lifetime.Repr
      && rtQueue.Valid() && boostedQueue.Valid() && interactiveQueue.Valid() && lifetime.Valid()
      && rtQueue.Capacity() == boostedQueue.Capacity() == interactiveQueue.Capacity() == LANE_MAX
      && Fits(profile)
    }

    ghost function Abs(): State
      requires Valid()
      reads this, Repr
    {
      State(rtQueue.Contents(), boostedQueue.Contents(), interactiveQueue.Contents(),
            vruntimeNow, nrScheduled, sent, received, dispatched, lost, lifetime.State(), log)
    }

    /** Around three empty lanes and an empty lifetime table. */
    constructor (profile: Profile, rt: TaskQueue<Task>, boosted: TaskQueue<Task>, general: TaskQueue<Task>,
                 life: L.LifetimeTable)
      requires Fits(profile) && rt.Valid() && boosted.Valid() && general.Valid() && life.Valid()
      requires rt.Repr !! boosted.Repr !! general.Repr !! life.Repr
      requires rt.Capacity() == boosted.Capacity() == general.Capacity() == LANE_MAX
      requires rt.Contents() == boosted.Contents() == general.Contents() == [] && life.State() == L.New()
      ensures Valid() && Abs() == Idle() && this.profile == profile
      ensures Repr == {this} + rt.Repr + boosted.Repr + general.Repr + life.Repr
    {
      this.profile := profile;
      lifetime := life;
      rtQueue, boostedQueue, interactiveQueue := rt, boosted, general;
      vruntimeNow, nrScheduled, nrCongested := 0, 0, 0;
      sent, received, dispatched, lost, log := [], [], [], [], [];
      Repr := {this} + rt.Repr + boosted.Repr + general.Repr + life.Repr;
    }

    method HasDeferredTasks() returns (r: bool)
      requires Valid()
      ensures r == HasDeferred(Abs())
    {
      r := boostedQueue.HasDeferred();
      if !r {
        r := rtQueue.HasDeferred();
      }
      if !r {
        r := interactiveQueue.HasDeferred();
      }
    }

    /** The policy of one arrival; only the virtual clock moves. */
    method DeriveTaskPolicy(a: Arrival) returns (t: Task)
      requires Valid()
      modifies `vruntimeNow
      ensures Valid() && t == Derived(profile, old(vruntimeNow), a)
      ensures vruntimeNow == NewFront(profile, old(vruntimeNow), a.qtask)
    {
      var kind := LabelOf(profile, a);
      var slice := SliceNs(profile, a);
      var q := a.qtask;
      if q.vtime == 0 {
        q := q.(vtime := vruntimeNow);
      } else {
        var vruntimeMin := SatSub(vruntimeNow, profile.baseSliceNs);
        q := q.(vtime := Max(q.vtime, vruntimeMin));
      }
      q := q.(vtime := SatAdd(q.vtime, ScaleByWeightInverse(q.weight, SatSub(q.stopTs, q.startTs))));
      vruntimeNow := Max(vruntimeNow, q.vtime);
      var deadline := if kind.RealTime? then 0 else SatAdd(q.vtime, ScaleByWeightInverse(q.weight, slice));
      t := Task(q, deadline, a.timestamp, kind, WakeBoosted(profile, a), WakeCreditNs(profile, a),
                LatencySensitive(profile, a), a.isKernelWorker, slice);
    }

    method PushRt(task: Task) returns (result: QueuePush<Task>)
      requires Valid()
      modifies rtQueue.Repr
      ensures Valid() && Abs() == old(Abs()).(rt := Append(old(rtQueue.Contents()), task))
      ensures result.Rejected? <==> |old(rtQueue.Contents())| == LANE_MAX
    {
      result := rtQueue.PushBack(task);
    }

    method PushBoosted(task: Task) returns (result: QueuePush<Task>)
      requires Valid()
      modifies boostedQueue.Repr
      ensures Valid() && Abs() == old(Abs()).(boosted := Append(old(boostedQueue.Contents()), task))
      ensures result.Rejected? <==> |old(boostedQueue.Contents())| == LANE_MAX
    {
      result := boostedQueue.PushBack(task);
    }

    method PushGeneral(task: Task) returns (result: QueuePush<Task>)
      requires Valid()
      modifies interactiveQueue.Repr
      ensures Valid() && Abs() == old(Abs()).(general := Append(old(interactiveQueue.Contents()), task))
      ensures result.Rejected? <==> |old(interactiveQueue.Contents())| == LANE_MAX
    {
      result := interactiveQueue.PushBack(task);
    }

    method CountPush(result: QueuePush<Task>, ghost task: Task)
      requires Valid()
      modifies `nrCongested, `lost
      ensures Valid() && Abs() == old(Abs()).(lost := if result.Rejected? then old(lost) + [task] else old(lost))
    {
      if result.Deferred? {
        nrCongested := SatAdd(nrCongested, 1);
      } else if result.Rejected? {
        lost := lost + [task];
      }
    }

    method PushTask(task: Task)
      requires Valid()
      modifies Repr
      ensures Valid() && Abs() == Push(old(Abs()), task)
    {
      var result;
      if task.kind.RealTime? {
        result := PushRt(task);
      } else if task.wakeBoosted {
        result := PushBoosted(task);
      } else {
        result := PushGeneral(task);
      }
      CountPush(result, task);
    }

    method PopRt() returns (r: Option<Task>)
      requires Valid()
      modifies rtQueue.Repr
      ensures Valid() && r == Head(old(rtQueue.Contents()))
      ensures Abs() == old(Abs()).(rt := Tail(old(rtQueue.Contents())))
    {
      r := rtQueue.PopFront();
    }

    method PopBoosted() returns (r: Option<Task>)
      requires Valid()
      modifies boostedQueue.Repr
      ensures Valid() && r == Head(old(boostedQueue.Contents()))
      ensures Abs() == old(Abs()).(boosted := Tail(old(boostedQueue.Contents())))
    {
      r := boostedQueue.PopFront();
    }

    method PopGeneral() returns (r: Option<Task>)
      requires Valid()
      modifies interactiveQueue.Repr
      ensures Valid() && r == Head(old(interactiveQueue.Contents()))
      ensures Abs() == old(Abs()).(general := Tail(old(interactiveQueue.Contents())))
    {
      r := interactiveQueue.PopFront();
    }

    /** Whatever the clock says, the preemption and starvation tests change nothing:
        the pop is strict priority. */
    method PopHighestPriorityTask(now: nat) returns (r: Option<Task>)
      requires Valid()
      modifies Repr
      ensures Valid() && (r, Abs()) == Popped(old(Abs()))
    {
      r := PopRt();
      if r.Some? {
        return;
      }
      var front := boostedQueue.Front();
      if front.Some? && ShouldWakePreempt(front.value.wakeBoosted, front.value.latencySensitive,
                                          front.value.wakeCreditNs, SatSub(now, front.value.timestamp)) {
        r := PopBoosted();
        return;
      }
      if front.Some? && SatSub(now, front.value.timestamp) >= STARVATION_NS {
        r := PopBoosted();
        return;
      }
      r := PopBoosted();
      if r.Some? {
        return;
      }
      r := PopGeneral();
    }

    /** Write the record of a received task over its previous one. */
    method Remember(task: Task, r: Report)
      requires Valid()
      modifies lifetime.pids, lifetime.recs, `log, `received
      ensures Valid()
      ensures Abs() == old(Abs()).(received := old(received) + [task],
                                   life := L.Stored(old(lifetime.State()), r.qtask.pid, RecordFor(task, r)),
                                   log := old(log) + [L.Put(r.qtask.pid, RecordFor(task, r))])
    {
      lifetime.Store(r.qtask.pid, RecordFor(task, r));
      received := received + [task];
      log := log + [L.Put(r.qtask.pid, RecordFor(task, r))];
    }

    /** A task reported as gone, or flushed as stale. */
    method ForgetPid(pid: int)
      requires Valid()
      modifies lifetime.pids, lifetime.recs, `log
      ensures Valid() && Abs() == Forgotten(old(Abs()), pid)
    {
      if pid > 0 {
        lifetime.EvictPid(pid);
        log := log + [L.Drop(pid)];
      }
    }

    /** One drained task: judge it by its last record, write the new one, queue it. */
    method AdmitArrival(r: Report)
      requires Valid()
      modifies Repr
      ensures Valid() && Abs() == Admit(profile, old(Abs()), r)
    {
      var life := lifetime.Get(r.qtask.pid);
      var task := DeriveTaskPolicy(Arrival(r.qtask, life, r.aiSliceNs, r.isKernelWorker, r.timestamp));
      Remember(task, r);
      PushTask(task);
    }

    method DrainQueuedTasks(maxBatch: nat, stream: seq<Option<Report>>) returns (drained: nat)
      requires Valid()
      modifies Repr
      ensures Valid() && drained <= |stream|
      ensures Abs() == Drained(profile, old(Abs()), maxBatch, stream)
    {
      drained := 0;
      while drained < maxBatch
        invariant Valid() && drained <= maxBatch && drained <= |stream|
        invariant Drained(profile, old(Abs()), maxBatch, stream)
                  == Drained(profile, Abs(), maxBatch - drained, stream[drained..])
      {
        var deferred := HasDeferredTasks();
        if deferred {
          break;
        }
        if drained == |stream| || stream[drained].None? {
          break;
        }
        DrainStep(profile, Abs(), maxBatch, stream, drained);
        AdmitArrival(stream[drained].value);
        drained := drained + 1;
      }
    }

    method DispatchTask(fate: bool, now: nat) returns (ok: bool)
      requires Valid()
      modifies Repr
      ensures Valid() && (ok, Abs()) == DispatchOne(profile, old(Abs()), fate)
    {
      var popped := PopHighestPriorityTask(now);
      DispatchOneIs(profile, old(Abs()), popped, Abs(), fate);
      if popped.None? {
        return true;
      }
      var task := popped.value;
      var message := MessageFor(task);
      if !fate {
        PushTask(task);
        return false;
      }
      Submit(message, task);
      ok := true;
    }

    method MessageFor(task: Task) returns (message: DispatchedTask)
      ensures message == Message(profile, task)
    {
      var vtime := if task.kind.RealTime? then 0 else SatSub(task.deadline, WakeDeadlineCreditNs(task));
      var cpu := if profile.percpuLocal || task.isKernelWorker then task.qtask.cpu else RL_CPU_ANY;
      message := DispatchedTask(task.qtask.pid, cpu, task.qtask.flags, task.sliceNs, vtime, task.qtask.enqCnt);
    }

    method Submit(message: DispatchedTask, ghost task: Task)
      requires Valid()
      modifies `sent, `dispatched
      ensures Valid()
      ensures Abs() == old(Abs()).(dispatched := old(dispatched) + [task], sent := old(sent) + [message])
    {
      sent := sent + [message];
      dispatched := dispatched + [task];
    }

    method TasksEmpty() returns (r: bool)
      requires Valid()
      ensures r <==> Waiting(Abs()) == []
    {
      r := boostedQueue.IsEmpty();
      if r {
        r := rtQueue.IsEmpty();
      }
      if r {
        r := interactiveQueue.IsEmpty();
      }
    }

    /** The waiting count is the measure that makes the dispatch loop end. */
    method DispatchWaiting(fates: nat -> bool, clock: nat -> nat)
      requires Valid()
      modifies Repr
      ensures Valid() && Abs() == DispatchAll(profile, old(Abs()), fates, 0)
    {
      var n := 0;
      var empty := TasksEmpty();
      ghost var s := Abs();
      while !empty
        invariant Valid() && s == Abs() && (empty <==> Waiting(s) == [])
        invariant DispatchAll(profile, old(Abs()), fates, 0) == DispatchAll(profile, s, fates, n)
        decreases |Waiting(s)|
      {
        ghost var before := s;
        var ok;
        ok, empty := DispatchNext(fates(n), clock(n));
        s := Abs();
        DispatchedOne(profile, before, fates, n, ok, s);
        if !ok {
          return;
        }
        n := n + 1;
      }
    }

    /** One iteration: dispatch, then look whether anything waits. */
    method DispatchNext(fate: bool, now: nat) returns (ok: bool, empty: bool)
      requires Valid()
      modifies Repr
      ensures Valid() && (ok, Abs()) == DispatchOne(profile, old(Abs()), fate)
      ensures empty <==> Waiting(Abs()) == []
    {
      ok := DispatchTask(fate, now);
      empty := TasksEmpty();
    }

    method TasksLen() returns (n: nat)
      requires Valid()
      ensures n == |Waiting(Abs())|
    {
      var a := boostedQueue.Length();
      var b := rtQueue.Length();
      var c := interactiveQueue.Length();
      n := a + b + c;
    }

    method NotifyComplete(pending: nat)
      requires Valid()
      modifies `nrScheduled
      ensures Valid() && Abs() == old(Abs()).(nrScheduled := pending)
    {
      nrScheduled := pending;
    }

    /** One `schedule()` call: drain a bounded batch, dispatch until the lanes are
        empty or a submission fails, and report what is left. */
    method Schedule(round: Round, clock: nat -> nat)
      requires Valid()
      modifies Repr
      ensures Valid() && Abs() == Scheduled(profile, old(Abs()), round)
    {
      var budget := Max(Max(round.nrCpus, 1) * 4, 16);
      var drained := DrainQueuedTasks(budget, round.stream);
      DispatchWaiting(round.fates, clock);
      var pending := TasksLen();
      NotifyComplete(pending);
    }
  }

  method NewLane() returns (q: TaskQueue<Task>)
    ensures fresh(q.Repr) && q.Valid() && q.Capacity() == LANE_MAX && q.Contents() == []
  {
    q := new TaskQueue<Task>(QUEUE_DEPTH);
  }

  method NewLanes() returns (rt: TaskQueue<Task>, boosted: TaskQueue<Task>, general: TaskQueue<Task>)
    ensures fresh(rt.Repr + boosted.Repr + general.Repr) && rt.Repr !! boosted.Repr !! general.Repr
    ensures rt.Valid() && boosted.Valid() && general.Valid()
    ensures rt.Capacity() == boosted.Capacity() == general.Capacity() == LANE_MAX
    ensures rt.Contents() == boosted.Contents() == general.Contents() == []
  {
    rt := NewLane();
    boosted := NewLane();
    general := NewLane();
  }

  /** Everything a scheduler needs, allocated at start. */
  method NewScheduler(profile: Profile) returns (s: Scheduler)
    requires Fits(profile)
    ensures s.Valid() && fresh(s.Repr) && s.Abs() == Idle() && s.profile == profile
  {
    var rt, boosted, general := NewLanes();
    var life := new L.LifetimeTable();
    assert rt.Valid() && boosted.Valid() && general.Valid();
    assert rt.Contents() == boosted.Contents() == general.Contents() == [];
    assert life.Repr !! rt.Repr + boosted.Repr + general.Repr;
    s := new Scheduler(profile, rt, boosted, general, life);
  }
}
