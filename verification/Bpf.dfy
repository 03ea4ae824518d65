/** The callbacks of main.bpf.c in their own form: global variables updated in
    place, and the loops that scan remote queues.  Each method is proved to take
    the step of the state machine in Machine. */
module Bpf {
  import opened Numbers
  import opened Dsq
  import opened VirtualTime
  import opened Hierarchy
  import opened WorkConservation
  import opened Machine
  import Policy

  class Cognis {
    const c: Config
    /** The kernel's queues, with the two ledgers the claims about them use. */
    var q: Queues
    ghost var ins: map<int, nat>
    ghost var outs: map<int, nat>
    /** Per-task storage, and the task fields the scheduler reads and writes. */
    var tasks: map<int, TaskCtx>
    var vtimeNow: nat
    var nrLocal: nat
    var nrLlc: nat
    var nrNode: nat
    var nrShared: nat
    var nrKernel: nat
    var nrXllc: nat
    var nrXnode: nat
    var nrUser: nat
    var nrBounce: nat
    var nrCancel: nat

    ghost predicate Valid()
      reads this
    {
      ValidConfig(c) && TasksOk(Abs())
    }

    ghost function Abs(): State
      reads this
    {
      State(q, tasks, vtimeNow, Routes(nrLocal, nrLlc, nrNode, nrShared, nrKernel, nrXllc, nrXnode,
                                      nrUser, nrBounce, nrCancel), ins, outs)
    }

    constructor (config: Config)
      requires ValidConfig(config)
      ensures Valid() && c == config && Abs() == BOOT
    {
      c := config;
      q, ins, outs, tasks, vtimeNow := map[], map[], map[], map[], 0;
      nrLocal, nrLlc, nrNode, nrShared, nrKernel, nrXllc, nrXnode := 0, 0, 0, 0, 0, 0, 0;
      nrUser, nrBounce, nrCancel := 0, 0, 0;
    }

    // ------------------------------------------------------------ kernel helpers

    /** `scx_bpf_dsq_insert_vtime` */
    method DsqInsertVtime(id: int, w: Waiter)
      modifies `q, `ins
      ensures Abs() == InsertVtime(old(Abs()), id, w)
    {
      q := q[id := InsertSorted(Queue(q, id), w)];
      ins := Bump(ins, id);
    }

    /** `scx_bpf_dsq_insert` */
    method DsqInsert(id: int, w: Waiter)
      modifies `q, `ins
      ensures Abs() == InsertFifo(old(Abs()), id, w)
    {
      q := q[id := Queue(q, id) + [w]];
      ins := Bump(ins, id);
    }

    /** `scx_bpf_dsq_move_to_local` */
    method DsqMoveToLocal(id: int, cpu: int) returns (moved: bool)
      modifies `q, `ins, `outs
      ensures moved == CanMove(old(q), id, cpu)
      ensures Abs() == if moved then MoveToLocal(old(Abs()), id, cpu) else old(Abs())
    {
      moved := CanMove(q, id, cpu);
      if moved {
        outs := Bump(outs, id);
        ins := Bump(ins, LOCAL_ON + cpu);
        q := Moved(q, id, cpu);
      }
    }

    /** `scx_bpf_dsq_peek`: the queue's number if it has a head, else -1. */
    function Peek(id: int): (r: int)
      reads this
      ensures r == if Queue(q, id) == [] then -1 else id
    {
      if Depth(q, id) == 0 then -1 else id
    }

    // ------------------------------------------------------------------ routing

    method CountKernelRoute(id: int)
      modifies `nrLocal, `nrLlc, `nrNode, `nrShared, `nrKernel
      ensures Abs() == old(Abs()).(routes := CountRoute(old(Abs()).routes, id))
    {
      if id == SHARED_DSQ {
        nrShared := nrShared + 1;
      } else if id >= NODE_DSQ_BASE && id < NODE_DSQ_BASE + MAX_NODES {
        nrNode := nrNode + 1;
      } else if id >= LLC_DSQ_BASE && id < LLC_DSQ_BASE + MAX_LLCS {
        nrLlc := nrLlc + 1;
      } else {
        nrLocal := nrLocal + 1;
      }
      nrKernel := nrKernel + 1;
    }

    method DirectLocalDispatch(pid: int, cpu: int, slice: nat)
      requires Valid() && pid in tasks && slice == TaskSlice(c, q, tasks[pid], cpu)
      modifies this
      ensures Valid() && Abs() == DirectLocal(c, old(Abs()), pid, cpu)
    {
      var t := tasks[pid].(slice := slice);
      DsqInsert(LOCAL_ON + cpu, Waiter(pid, t.dsqVtime, t.cpus));
      tasks := tasks[pid := t];
      CountKernelRoute(LOCAL_ON + cpu);
    }

    /** `task_dl`: catches the task up in place and returns its deadline. */
    method TaskDl(pid: int, cpu: int) returns (deadline: nat)
      requires Valid() && pid in tasks
      modifies `tasks
      ensures Valid() && tasks == old(tasks)[pid := CaughtUp(c, q, vtimeNow, old(tasks[pid]), cpu)]
      ensures deadline == Deadline(c, q, vtimeNow, old(tasks[pid]), cpu)
    {
      var t := tasks[pid];
      var nrWait := QueuePressure(c, q, cpu);
      var lagScale := Max(t.wakeupFreq, 1);
      var qThresh := QThresh(c.sliceNs);
      var awakeMax := ScaleInverse(c.sliceLagNs, t.weight);
      if U64(nrWait * c.sliceNs) >= STARVATION_NS {
        lagScale := 1;
      } else {
        lagScale := Max(U64(lagScale * qThresh) / (qThresh + nrWait), 1);
      }
      var vtimeMin := U64(vtimeNow - Scale(U64(c.sliceLagNs * lagScale), t.weight));
      if TimeBefore(t.dsqVtime, vtimeMin) {
        t := t.(dsqVtime := vtimeMin);
      }
      if TimeBefore(awakeMax, t.awakeVtime) {
        t := t.(awakeVtime := awakeMax);
      }
      tasks := tasks[pid := t];
      deadline := U64(t.dsqVtime + t.awakeVtime);
    }

    /** Store the key and the slice of a task and insert it. */
    method PlaceTask(pid: int, t: TaskCtx, id: int)
      requires Valid() && pid in tasks && pid > 0 && GoodWeight(t.weight) && t.wakeupFreq <= MAX_WAKEUP_FREQ
      modifies `q, `ins, `tasks, `nrLocal, `nrLlc, `nrNode, `nrShared, `nrKernel
      ensures Valid() && Abs() == Placed(old(Abs()), pid, t, id)
    {
      tasks := tasks[pid := t];
      DsqInsertVtime(id, Waiter(pid, t.dsqVtime, t.cpus));
      CountKernelRoute(id);
    }

    method DeferTask(pid: int, e: Env)
      requires Valid() && pid in tasks
      modifies this
      ensures Valid() && Abs() == Defer(c, old(Abs()), pid, e)
    {
      var target := if CanMigrate(c, e) && e.rtBusy then SHARED_DSQ else OverflowDsq(c, q, e.prevCpu);
      var slice := TaskSlice(c, q, tasks[pid], e.prevCpu);
      var deadline := TaskDl(pid, e.prevCpu);
      PlacedTwice(old(Abs()), pid, tasks[pid], tasks[pid].(dsqVtime := deadline, slice := slice), target);
      PlaceTask(pid, tasks[pid].(dsqVtime := deadline, slice := slice), target);
    }

    /** `thisCpu` is the waker's CPU; the result is where the task should wake. */
    method CognisSelectCpu(pid: int, prevCpu: int, thisCpu: int, idleCpu: int) returns (cpu: int)
      requires Valid() && pid in tasks
      modifies this
      ensures Valid() && Abs() == SelectCpu(c, old(Abs()), pid, idleCpu)
      ensures cpu == if pid != c.userschedPid && idleCpu >= 0 then idleCpu
                     else UsableCpu(c, old(tasks[pid].cpus), prevCpu, thisCpu)
    {
      var t := tasks[pid];
      cpu := prevCpu;
      if prevCpu !in t.cpus {
        cpu := if thisCpu in t.cpus then thisCpu else FirstCpu(t.cpus, c.nrCpuIds, 0);
      }
      if pid == c.userschedPid {
        return;
      }
      if idleCpu >= 0 {
        DirectLocalDispatch(pid, idleCpu, TaskSlice(c, q, t, idleCpu));
        cpu := idleCpu;
      }
    }

    method CognisEnqueue(pid: int, e: Env)
      requires Valid()
      modifies this
      ensures Valid() && Abs() == Enqueue(c, old(Abs()), pid, e)
    {
      if pid !in tasks {
        return;
      }
      var t := tasks[pid];
      if pid == c.userschedPid {
        if c.userschedEnabled {
          DsqInsert(SCHED_DSQ, Waiter(pid, t.dsqVtime, t.cpus));
          tasks := tasks[pid := t.(slice := c.sliceNs)];
        }
        return;
      }
      if t.kthread {
        DirectLocalDispatch(pid, e.prevCpu, TaskSlice(c, q, t, e.prevCpu));
        return;
      }
      if IsSticky(c, t) && !e.rtBusy {
        DirectLocalDispatch(pid, e.prevCpu, TaskSlice(c, q, t, e.prevCpu));
        return;
      }
      if CanMigrate(c, e) {
        if e.idleCpu >= 0 {
          DirectLocalDispatch(pid, e.idleCpu, TaskSlice(c, q, t, e.idleCpu));
          return;
        }
      }
      DeferTask(pid, e);
    }

    // ----------------------------------------------------------------- stealing

    /** Best remote per-CPU queue whose head may run here, over all CPUs in order. */
    method ElectRemoteCpu(cpu: int, sameLlc: bool) returns (best: int)
      requires ValidConfig(c)
      ensures best == Scan(q, CpuVictims(c, q, cpu, sameLlc, c.nrCpuIds))
    {
      best := -1;
      for victim := 0 to c.nrCpuIds
        invariant best == Scan(q, CpuVictims(c, q, cpu, sameLlc, victim))
      {
        ghost var before := CpuVictims(c, q, cpu, sameLlc, victim);
        if victim == cpu {
          continue;
        }
        if sameLlc && !ShareCache(c, cpu, victim) {
          continue;
        }
        var id := CpuToDsq(c, victim);
        if Depth(q, id) == 0 {
          continue;
        }
        if cpu !in Queue(q, id)[0].cpus {
          continue;
        }
        ScanAppend(q, before, id);
        if best == -1 || RemoteBetter(q, id, best) {
          best := id;
        }
      }
    }

    /** Best LLC queue of the rotation that starts after the CPU's own LLC. */
    method ElectRemoteLlc(cpu: int, sameNode: bool) returns (best: int)
      requires ValidConfig(c) && c.nrLlcs > 1
      ensures best == LlcBest(c, q, cpu, sameNode, c.nrLlcs - 1)
    {
      var myLlc := CpuLlc(c, cpu);
      var myNode := CpuNode(c, cpu);
      best := -1;
      var i := 1;
      LlcBestStart(c, q, cpu, sameNode);
      while i < MAX_LLCS && i < c.nrLlcs
        invariant 1 <= i <= c.nrLlcs
        invariant best == LlcBest(c, q, cpu, sameNode, i - 1)
      {
        LlcScanStep(c, q, cpu, sameNode, i);
        var victim := myLlc + i;
        if victim >= c.nrLlcs {
          victim := victim - c.nrLlcs;
        }
        assert victim == Rotate(myLlc, i, c.nrLlcs) && LlcToDsq(victim) == LlcAt(c, cpu, i);
        if !(sameNode && LlcNode(c, victim) != myNode) {
          best := TakeBetter(best, LlcToDsq(victim));
        }
        i := i + 1;
      }
    }

    method ElectRemoteNode(cpu: int) returns (best: int)
      requires ValidConfig(c) && c.nrNodes > 1
      ensures best == NodeBest(c, q, cpu, c.nrNodes - 1)
    {
      var myNode := CpuNode(c, cpu);
      best := -1;
      var i := 1;
      NodeBestStart(c, q, cpu);
      while i < MAX_NODES && i < c.nrNodes
        invariant 1 <= i <= c.nrNodes
        invariant best == NodeBest(c, q, cpu, i - 1)
      {
        NodeScanStep(c, q, cpu, i);
        var victim := myNode + i;
        if victim >= c.nrNodes {
          victim := victim - c.nrNodes;
        }
        assert NodeToDsq(victim) == NodeAt(c, cpu, i);
        best := TakeBetter(best, NodeToDsq(victim));
        i := i + 1;
      }
    }

    /** One comparison of an election: depth first, then the peeked heads. */
    method TakeBetter(best: int, id: int) returns (r: int)
      requires best == -1 || Queue(q, best) != []
      ensures r == Better(q, best, id)
    {
      r := best;
      if Depth(q, id) != 0 && (best == -1 || RemoteBetter(q, id, best)) {
        r := id;
      }
    }

    /** Try the elected queue, if any, and no other. */
    method TakeFrom(best: int, cpu: int) returns (stolen: bool)
      requires Valid()
      modifies `q, `ins, `outs
      ensures Valid() && stolen == (Movable(old(q), best, cpu) != -1)
      ensures Abs() == if stolen then MoveToLocal(old(Abs()), best, cpu) else old(Abs())
    {
      stolen := false;
      if best != -1 {
        stolen := DsqMoveToLocal(best, cpu);
      }
    }

    method StealRemoteCpu(cpu: int, sameLlc: bool) returns (stolen: bool)
      requires Valid()
      modifies `q, `ins, `outs
      ensures var id := StealCpu(c, old(q), cpu, sameLlc);
              && stolen == (id != -1)
              && Abs() == if stolen then MoveToLocal(old(Abs()), id, cpu) else old(Abs())
    {
      if !IsCpuValid(c, cpu) {
        return false;
      }
      var best := ElectRemoteCpu(cpu, sameLlc);
      stolen := TakeFrom(best, cpu);
    }

    method StealRemoteLlc(cpu: int, sameNode: bool) returns (stolen: bool)
      requires Valid()
      modifies `q, `ins, `outs, `nrXllc
      ensures var id := StealLlc(c, old(q), cpu, sameNode);
              && stolen == (id != -1)
              && Abs() == if stolen then Draw(c, old(Abs()), cpu, RemoteLlc(id)) else old(Abs())
    {
      if !IsCpuValid(c, cpu) || c.nrLlcs <= 1 {
        return false;
      }
      var best := ElectRemoteLlc(cpu, sameNode);
      stolen := TakeFrom(best, cpu);
      if stolen {
        nrXllc := nrXllc + 1;
      }
    }

    method StealRemoteNode(cpu: int) returns (stolen: bool)
      requires Valid()
      modifies `q, `ins, `outs, `nrXnode
      ensures var id := StealNode(c, old(q), cpu);
              && stolen == (id != -1)
              && Abs() == if stolen then Draw(c, old(Abs()), cpu, RemoteNode(id)) else old(Abs())
    {
      if !IsCpuValid(c, cpu) || c.nrNodes <= 1 {
        return false;
      }
      var best := ElectRemoteNode(cpu);
      stolen := TakeFrom(best, cpu);
      if stolen {
        nrXnode := nrXnode + 1;
      }
    }

    method DsqBacklogExists() returns (r: bool)
      requires ValidConfig(c)
      ensures r <==> Backlog(c, q)
    {
      if Depth(q, SHARED_DSQ) != 0 {
        assert IsTier(c, SHARED_DSQ);
        return true;
      }
      for cpu := 0 to c.nrCpuIds
        invariant forall id :: 0 <= id < cpu ==> Queue(q, id) == []
      {
        if Depth(q, CpuToDsq(c, cpu)) != 0 {
          assert IsTier(c, cpu);
          return true;
        }
      }
      var llc := 0;
      while llc < MAX_LLCS && llc < c.nrLlcs
        invariant 0 <= llc <= c.nrLlcs
        invariant forall id :: LLC_DSQ_BASE <= id < LLC_DSQ_BASE + llc ==> Queue(q, id) == []
      {
        if Depth(q, LlcToDsq(llc)) != 0 {
          assert IsTier(c, LlcToDsq(llc));
          return true;
        }
        llc := llc + 1;
      }
      var node := 0;
      while node < MAX_NODES && node < c.nrNodes
        invariant 0 <= node <= c.nrNodes
        invariant forall id :: NODE_DSQ_BASE <= id < NODE_DSQ_BASE + node ==> Queue(q, id) == []
      {
        if Depth(q, NodeToDsq(node)) != 0 {
          assert IsTier(c, NodeToDsq(node));
          return true;
        }
        node := node + 1;
      }
      r := false;
    }

    // ---------------------------------------------------------------- dispatching

    /** The queue of the earliest of four heads, compared in place. */
    method EarliestHead(cpu: int) returns (best: int)
      requires ValidConfig(c)
      ensures best == Earliest(q, OwnTiers(c, cpu))
    {
      var localDsq, llcDsq, nodeDsq := CpuToDsq(c, cpu), CpuLlcDsq(c, cpu), CpuNodeDsq(c, cpu);
      best := Peek(localDsq);
      EarliestStep(q, [], localDsq);
      assert [] + [localDsq] == [localDsq];
      EarliestStep(q, [localDsq], llcDsq);
      assert [localDsq] + [llcDsq] == [localDsq, llcDsq];
      if HeadEarlier(q, llcDsq, best) {
        best := llcDsq;
      }
      assert best == Earliest(q, [localDsq, llcDsq]);
      if c.nrNodes > 1 {
        EarliestStep(q, [localDsq, llcDsq], nodeDsq);
        assert [localDsq, llcDsq] + [nodeDsq] == [localDsq, llcDsq, nodeDsq];
        if HeadEarlier(q, nodeDsq, best) {
          best := nodeDsq;
        }
        EarliestStep(q, [localDsq, llcDsq, nodeDsq], SHARED_DSQ);
        assert OwnTiers(c, cpu) == [localDsq, llcDsq, nodeDsq] + [SHARED_DSQ];
      } else {
        EarliestStep(q, [localDsq, llcDsq], SHARED_DSQ);
        assert OwnTiers(c, cpu) == [localDsq, llcDsq] + [SHARED_DSQ];
      }
      if HeadEarlier(q, SHARED_DSQ, best) {
        best := SHARED_DSQ;
      }
    }

    /** Serve the CPU from its own tiers: the earliest head first, then each tier
        that had a head and is not the one already tried. */
    method DispatchOwn(cpu: int) returns (moved: bool)
      requires ValidConfig(c)
      modifies `q, `ins, `outs
      ensures moved == (OwnChoice(c, old(q), cpu) != -1)
      ensures Abs() == if moved then MoveToLocal(old(Abs()), OwnChoice(c, old(q), cpu), cpu) else old(Abs())
    {
      var localDsq, llcDsq, nodeDsq := CpuToDsq(c, cpu), CpuLlcDsq(c, cpu), CpuNodeDsq(c, cpu);
      var local, llc, shared := Peek(localDsq) != -1, Peek(llcDsq) != -1, Peek(SHARED_DSQ) != -1;
      var node := c.nrNodes > 1 && Peek(nodeDsq) != -1;
      var best := EarliestHead(cpu);
      OwnOrder(c, q, cpu);
      moved := false;
      if best != -1 {
        moved := DsqMoveToLocal(best, cpu);
      }
      if !moved && local && best != localDsq {
        moved := DsqMoveToLocal(localDsq, cpu);
      }
      if !moved && llc && best != llcDsq {
        moved := DsqMoveToLocal(llcDsq, cpu);
      }
      if !moved && node && best != nodeDsq {
        moved := DsqMoveToLocal(nodeDsq, cpu);
      }
      if !moved && shared && best != SHARED_DSQ {
        moved := DsqMoveToLocal(SHARED_DSQ, cpu);
      }
    }

    /** The five stealing attempts, in order. */
    method DispatchSteal(cpu: int) returns (moved: bool)
      requires Valid()
      requires OwnChoice(c, q, cpu) == -1
      modifies `q, `ins, `outs, `nrXllc, `nrXnode
      ensures moved == (Choose(c, old(q), cpu) != Refill)
      ensures Abs() == if moved then Draw(c, old(Abs()), cpu, Choose(c, old(q), cpu)) else old(Abs())
    {
      moved := StealRemoteCpu(cpu, true);
      if !moved {
        moved := StealRemoteCpu(cpu, false);
      }
      if !moved {
        moved := StealRemoteLlc(cpu, true);
      }
      if !moved {
        moved := StealRemoteNode(cpu);
      }
      if !moved {
        moved := StealRemoteLlc(cpu, false);
      }
    }

    /** The own tiers first, then the steals. */
    method DispatchHierarchy(cpu: int) returns (moved: bool)
      requires Valid()
      modifies `q, `ins, `outs, `nrXllc, `nrXnode
      ensures moved == (Choose(c, old(q), cpu) != Refill)
      ensures Abs() == if moved then Draw(c, old(Abs()), cpu, Choose(c, old(q), cpu)) else old(Abs())
    {
      moved := DispatchOwn(cpu);
      if !moved {
        moved := DispatchSteal(cpu);
      }
    }

    /** Replenish the slice of the task that keeps the CPU. */
    method RefillTask(cpu: int, prev: int, prevQueued: bool, still: bool)
      requires Valid()
      modifies `tasks
      ensures Abs() == RefillPrev(c, old(Abs()), cpu, prev, prevQueued, c.userschedEnabled && still)
    {
      if prev in tasks && prevQueued && (prev != c.userschedPid || (c.userschedEnabled && still)) {
        tasks := tasks[prev := tasks[prev].(slice := TaskSlice(c, q, tasks[prev], cpu))];
      }
    }

    /** Insert, then take the insertion back when the message turns out stale. */
    method InsertOrCancel(id: int, w: Waiter, stale: bool)
      modifies `q, `ins, `nrCancel
      ensures Abs() == if stale then old(Abs()).(routes := old(Abs()).routes.(cancel := old(nrCancel) + 1))
                       else InsertVtime(old(Abs()), id, w)
    {
      var queues := q;
      ghost var ledger := ins;
      DsqInsertVtime(id, w);
      if stale {
        q := queues;
        ins := ledger;
        nrCancel := nrCancel + 1;
      }
    }

    /** `dispatch_task` */
    method DispatchUserTask(m: Submission)
      requires Valid()
      modifies `q, `ins, `tasks, `nrUser, `nrBounce, `nrCancel
      ensures Valid() && Abs() == UserDispatch(c, old(Abs()), m)
    {
      if m.task.pid !in tasks {
        return;
      }
      var t := tasks[m.task.pid].(dsqVtime := m.task.vtime, slice := m.task.sliceNs);
      var w := Waiter(m.task.pid, m.task.vtime, t.cpus);
      tasks := tasks[m.task.pid := t];
      if m.task.cpu == Policy.RL_CPU_ANY {
        DsqInsertVtime(SHARED_DSQ, w);
        nrUser := nrUser + 1;
        return;
      }
      var cpu := m.task.cpu;
      if m.task.cpu !in t.cpus {
        cpu := m.prevCpu;
        nrBounce := nrBounce + 1;
      } else {
        nrUser := nrUser + 1;
      }
      InsertOrCancel(CpuToDsq(c, cpu), w, t.enqCnt > m.task.enqCnt);
    }

    /** Messages are dispatched in order until one leaves dispatch slots over. */
    method DrainUserRing(ring: seq<Submission>)
      requires Valid()
      modifies `q, `ins, `tasks, `nrUser, `nrBounce, `nrCancel
      ensures Valid() && Abs() == DrainRing(c, old(Abs()), Consumed(ring))
    {
      for i := 0 to |ring|
        invariant Valid() && Abs() == DrainRing(c, old(Abs()), ring[..i])
        invariant forall k :: 0 <= k < i ==> ring[k].slotsLeft == 0
      {
        assert ring[..i + 1][..i] == ring[..i];
        DispatchUserTask(ring[i]);
        if ring[i].slotsLeft != 0 {
          ConsumedIs(ring, i + 1);
          return;
        }
      }
      ConsumedIs(ring, |ring|);
    }

    /** Everything after the ring: the scheduler's own process, the hierarchy, a refill. */
    method ServeCpu(cpu: int, prev: int, prevQueued: bool, pending: bool, still: bool)
      requires Valid()
      modifies this
      ensures Valid() && Abs() == Serve(c, old(Abs()), cpu, prev, prevQueued, pending, still)
    {
      if c.userschedEnabled && pending {
        var ran := DsqMoveToLocal(SCHED_DSQ, cpu);
        if ran {
          return;
        }
      }
      var moved := DispatchHierarchy(cpu);
      if moved {
        return;
      }
      RefillTask(cpu, prev, prevQueued, still);
    }

    method CognisDispatch(cpu: int, prev: int, prevQueued: bool, ring: seq<Submission>, pending: bool, still: bool)
      requires Valid()
      modifies this
      ensures Valid() && Abs() == Dispatch(c, old(Abs()), cpu, prev, prevQueued, ring, pending, still)
    {
      DrainUserRing(ring);
      ServeCpu(cpu, prev, prevQueued, pending, still);
    }

    // ----------------------------------------------------------- task callbacks

    method CognisRunnable(pid: int, now: nat)
      requires Valid()
      modifies `tasks
      ensures Valid() && Abs() == Runnable(c, old(Abs()), pid, now)
    {
      if pid == c.userschedPid || pid !in tasks {
        return;
      }
      var t := tasks[pid].(execRuntime := 0, awakeVtime := 0);
      var delta := if now > t.lastWokeAt then now - t.lastWokeAt else 1;
      t := t.(wakeupFreq := UpdateFreq(t.wakeupFreq, delta));
      t := t.(wakeupFreq := Min(t.wakeupFreq, MAX_WAKEUP_FREQ), lastWokeAt := now);
      tasks := tasks[pid := t];
    }

    method CognisRunning(pid: int, start: nat, now: nat)
      requires Valid()
      modifies `tasks, `vtimeNow
      ensures Valid() && Abs() == Running(c, old(Abs()), pid, start, now)
    {
      if pid == c.userschedPid || pid !in tasks {
        return;
      }
      tasks := tasks[pid := tasks[pid].(startTs := start, lastRunAt := now)];
      if TimeBefore(vtimeNow, tasks[pid].dsqVtime) {
        vtimeNow := tasks[pid].dsqVtime;
      }
    }

    method CognisStopping(pid: int, now: nat, ran: nat, exec: nat)
      requires Valid()
      modifies `tasks
      ensures Valid() && Abs() == Stopping(c, old(Abs()), pid, now, ran, exec)
    {
      if pid == c.userschedPid || pid !in tasks {
        return;
      }
      var t := tasks[pid].(stopTs := now);
      t := t.(execRuntime := U64(t.execRuntime + exec), avgRuntime := CalcAvg(t.avgRuntime, ran));
      var delta := ScaleInverse(ran, t.weight);
      t := t.(dsqVtime := U64(t.dsqVtime + delta), awakeVtime := U64(t.awakeVtime + delta));
      tasks := tasks[pid := t];
    }

    method CognisEnable(pid: int)
      requires Valid()
      modifies `tasks
      ensures Valid() && Abs() == Enable(c, old(Abs()), pid)
    {
      if pid in tasks {
        tasks := tasks[pid := tasks[pid].(dsqVtime := vtimeNow, slice := Max(c.sliceNs, c.sliceMinNs))];
      }
    }
  }

  /** A drain consumes up to and including the first message that leaves slots over. */
  lemma {:induction false} ConsumedIs(ring: seq<Submission>, n: nat)
    requires n <= |ring| && forall k :: 0 <= k < n - 1 ==> ring[k].slotsLeft == 0
    requires n == |ring| || (n > 0 && ring[n - 1].slotsLeft != 0)
    ensures Consumed(ring) == ring[..n]
  {
    if n == 0 || ring[0].slotsLeft != 0 {
      assert n == 0 || n == 1;
    } else {
      ConsumedIs(ring[1..], n - 1);
      assert ring[..n] == [ring[0]] + ring[1..][..n - 1];
    }
  }

  // -------------------------------------------------------------- order of the tiers

  lemma EarliestStep(q: Queues, tiers: seq<int>, t: int)
    ensures Earliest(q, tiers + [t]) == if HeadEarlier(q, t, Earliest(q, tiers)) then t else Earliest(q, tiers)
  {
    assert (tiers + [t])[..|tiers|] == tiers;
  }

  lemma OwnOrder(c: Config, q: Queues, cpu: int)
    requires ValidConfig(c)
    ensures FirstMovable(q, OwnTiers(c, cpu), cpu)
            == if CanMove(q, CpuToDsq(c, cpu), cpu) then CpuToDsq(c, cpu)
               else if CanMove(q, CpuLlcDsq(c, cpu), cpu) then CpuLlcDsq(c, cpu)
               else if c.nrNodes > 1 && CanMove(q, CpuNodeDsq(c, cpu), cpu) then CpuNodeDsq(c, cpu)
               else if CanMove(q, SHARED_DSQ, cpu) then SHARED_DSQ else -1
  {
    var a, b, n := CpuToDsq(c, cpu), CpuLlcDsq(c, cpu), CpuNodeDsq(c, cpu);
    var tail := [SHARED_DSQ];
    FirstMovableCons(q, SHARED_DSQ, [], cpu);
    assert [SHARED_DSQ] + [] == tail;
    if c.nrNodes > 1 {
      FirstMovableCons(q, n, tail, cpu);
      tail := [n] + tail;
    }
    FirstMovableCons(q, b, tail, cpu);
    FirstMovableCons(q, a, [b] + tail, cpu);
    assert OwnTiers(c, cpu) == [a] + ([b] + tail);
  }

  lemma FirstMovableCons(q: Queues, t: int, rest: seq<int>, cpu: int)
    ensures FirstMovable(q, [t] + rest, cpu) == if CanMove(q, t, cpu) then t else FirstMovable(q, rest, cpu)
  {
    assert ([t] + rest)[1..] == rest;
  }
}
