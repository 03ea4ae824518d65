/** main.bpf.c as a state machine: one step per scheduler callback, each atomic,
    plus the kernel's own steps (a task appears, is retuned, leaves a queue). */
module Machine {
  import opened Numbers
  import opened Dsq
  import opened VirtualTime
  import opened Hierarchy
  import Policy

  /** What the scheduler keeps or reads per task. */
  datatype TaskCtx = TaskCtx(
    weight: nat, cpus: set<int>, kthread: bool, dsqVtime: nat, slice: nat,
    awakeVtime: nat, wakeupFreq: nat, lastWokeAt: nat,
    startTs: nat, stopTs: nat, lastRunAt: nat, execRuntime: nat, avgRuntime: nat, enqCnt: nat)

  datatype Routes = Routes(
    local: nat, llc: nat, node: nat, shared: nat, kernel: nat, xllc: nat, xnode: nat,
    user: nat, bounce: nat, cancel: nat)

  /** Queues, task contexts, the virtual-time front and the route counters, with two
      ledgers per queue of what went in and what came out. */
  datatype State = State(
    q: Queues, tasks: map<int, TaskCtx>, vtimeNow: nat, routes: Routes,
    ins: map<int, nat>, outs: map<int, nat>)

  const BOOT := State(map[], map[], 0, Routes(0, 0, 0, 0, 0, 0, 0, 0, 0, 0), map[], map[])

  function Count(m: map<int, nat>, id: int): nat {
    if id in m then m[id] else 0
  }

  function Bump(m: map<int, nat>, id: int): map<int, nat> {
    m[id := Count(m, id) + 1]
  }

  // ------------------------------------------------------------------ inserting

  function CountRoute(r: Routes, id: int): Routes {
    var r' := if id == SHARED_DSQ then r.(shared := r.shared + 1)
              else if NODE_DSQ_BASE <= id < NODE_DSQ_BASE + MAX_NODES then r.(node := r.node + 1)
              else if LLC_DSQ_BASE <= id < LLC_DSQ_BASE + MAX_LLCS then r.(llc := r.llc + 1)
              else r.(local := r.local + 1);
    r'.(kernel := r.kernel + 1)
  }

  /** First-in first-out insertion, as the kernel does for local queues. */
  function InsertFifo(s: State, id: int, w: Waiter): State {
    s.(q := Append(s.q, id, w), ins := Bump(s.ins, id))
  }

  function InsertVtime(s: State, id: int, w: Waiter): State {
    s.(q := s.q[id := InsertSorted(Queue(s.q, id), w)], ins := Bump(s.ins, id))
  }

  function TaskSlice(c: Config, q: Queues, t: TaskCtx, cpu: int): nat
    requires ValidConfig(c)
  {
    Max(Scale(c.sliceNs, t.weight) / Max(QueuePressure(c, q, cpu), 1), c.sliceMinNs)
  }

  /** The virtual-time fields after `task_dl`, before the deadline is stored. */
  function CaughtUp(c: Config, q: Queues, now: nat, t: TaskCtx, cpu: int): TaskCtx
    requires ValidConfig(c) && t.weight > 0
  {
    var lag := Lag(c.sliceNs, c.sliceLagNs, t.weight, QueuePressure(c, q, cpu), t.wakeupFreq);
    t.(dsqVtime := CatchUp(now, lag, t.dsqVtime),
       awakeVtime := ClampAwake(t.awakeVtime, AwakeMax(c.sliceLagNs, t.weight)))
  }

  function Deadline(c: Config, q: Queues, now: nat, t: TaskCtx, cpu: int): nat
    requires ValidConfig(c) && t.weight > 0
  {
    var u := CaughtUp(c, q, now, t, cpu);
    U64(u.dsqVtime + u.awakeVtime)
  }

  /** What the kernel answers during one enqueue. */
  datatype Env = Env(prevCpu: int, idleCpu: int, cpuSelected: bool, running: bool, rtBusy: bool)

  function CanMigrate(c: Config, e: Env): bool {
    !e.cpuSelected && (!c.stickyTasks || !e.running)
  }

  predicate IsSticky(c: Config, t: TaskCtx) {
    c.stickyTasks && t.avgRuntime < 10_000
  }

  function DirectLocal(c: Config, s: State, pid: int, cpu: int): State
    requires ValidConfig(c) && pid in s.tasks
  {
    var t := s.tasks[pid].(slice := TaskSlice(c, s.q, s.tasks[pid], cpu));
    var s' := InsertFifo(s, LOCAL_ON + cpu, Waiter(pid, t.dsqVtime, t.cpus));
    s'.(tasks := s.tasks[pid := t], routes := CountRoute(s.routes, LOCAL_ON + cpu))
  }

  function TargetDsq(c: Config, q: Queues, e: Env): int
    requires ValidConfig(c)
  {
    if CanMigrate(c, e) && e.rtBusy then SHARED_DSQ else OverflowDsq(c, q, e.prevCpu)
  }

  /** Task `pid`, with context `t`, waits in queue `id` under its own key. */
  function Placed(s: State, pid: int, t: TaskCtx, id: int): State {
    InsertVtime(s, id, Waiter(pid, t.dsqVtime, t.cpus)).(tasks := s.tasks[pid := t], routes := CountRoute(s.routes, id))
  }

  /** A context written just before makes no difference. */
  lemma PlacedTwice(s: State, pid: int, before: TaskCtx, t: TaskCtx, id: int)
    ensures Placed(s.(tasks := s.tasks[pid := before]), pid, t, id) == Placed(s, pid, t, id)
  {
    assert s.tasks[pid := before][pid := t] == s.tasks[pid := t];
  }

  function Defer(c: Config, s: State, pid: int, e: Env): State
    requires ValidConfig(c) && pid in s.tasks && s.tasks[pid].weight > 0
  {
    var t := CaughtUp(c, s.q, s.vtimeNow, s.tasks[pid], e.prevCpu)
             .(dsqVtime := Deadline(c, s.q, s.vtimeNow, s.tasks[pid], e.prevCpu),
               slice := TaskSlice(c, s.q, s.tasks[pid], e.prevCpu));
    Placed(s, pid, t, TargetDsq(c, s.q, e))
  }

  datatype Route = Ignored | ToScheduler | Direct(cpu: int) | Deferred

  /** The branch an enqueue takes. */
  function RouteOf(c: Config, s: State, pid: int, e: Env): Route {
    if pid !in s.tasks then Ignored
    else if pid == c.userschedPid then (if c.userschedEnabled then ToScheduler else Ignored)
    else if s.tasks[pid].kthread then Direct(e.prevCpu)
    else if IsSticky(c, s.tasks[pid]) && !e.rtBusy then Direct(e.prevCpu)
    else if CanMigrate(c, e) && e.idleCpu >= 0 then Direct(e.idleCpu)
    else Deferred
  }

  function Enqueue(c: Config, s: State, pid: int, e: Env): State
    requires ValidConfig(c) && (pid in s.tasks ==> s.tasks[pid].weight > 0)
  {
    match RouteOf(c, s, pid, e)
    case Ignored => s
    case ToScheduler =>
      var t := s.tasks[pid].(slice := c.sliceNs);
      InsertFifo(s, SCHED_DSQ, Waiter(pid, t.dsqVtime, t.cpus)).(tasks := s.tasks[pid := t])
    case Direct(cpu) => DirectLocal(c, s, pid, cpu)
    case Deferred => Defer(c, s, pid, e)
  }

  /** The first CPU of an affinity mask, from `i` on; `n` when there is none. */
  function FirstCpu(cpus: set<int>, n: nat, i: nat): (r: nat)
    requires i <= n
    ensures r <= n && (r < n ==> r in cpus) && forall j :: i <= j < r ==> j !in cpus
    decreases n - i
  {
    if i == n || i in cpus then i else FirstCpu(cpus, n, i + 1)
  }

  /** A CPU the task may use, near where it ran or near its waker. */
  function UsableCpu(c: Config, cpus: set<int>, prevCpu: int, thisCpu: int): int {
    if prevCpu in cpus then prevCpu else if thisCpu in cpus then thisCpu else FirstCpu(cpus, c.nrCpuIds, 0)
  }

  /** A wakeup that finds an idle CPU is dispatched there at once; `idleCpu` is the
      answer of the idle-CPU search, negative when there is none or it is disabled. */
  function SelectCpu(c: Config, s: State, pid: int, idleCpu: int): State
    requires ValidConfig(c)
  {
    if pid == c.userschedPid || pid !in s.tasks || idleCpu < 0 then s else DirectLocal(c, s, pid, idleCpu)
  }

  // ----------------------------------------------------------------- dispatching

  function MoveToLocal(s: State, id: int, cpu: int): State
    requires CanMove(s.q, id, cpu)
  {
    s.(q := Moved(s.q, id, cpu), outs := Bump(s.outs, id), ins := Bump(s.ins, LOCAL_ON + cpu))
  }

  /** Refill the slice of the task that keeps the CPU. */
  function RefillPrev(c: Config, s: State, cpu: int, prev: int, prevQueued: bool, pending: bool): State
    requires ValidConfig(c)
  {
    if prev in s.tasks && prevQueued && (prev != c.userschedPid || pending) then
      s.(tasks := s.tasks[prev := s.tasks[prev].(slice := TaskSlice(c, s.q, s.tasks[prev], cpu))])
    else s
  }

  /** Draw from the chosen queue, counting the steals from other LLCs and nodes. */
  function Draw(c: Config, s: State, cpu: int, pick: Pick): State
    requires pick != Refill && CanMove(s.q, pick.id, cpu)
  {
    var r := s.routes;
    MoveToLocal(s, pick.id, cpu)
    .(routes := if pick.RemoteLlc? then r.(xllc := r.xllc + 1)
        else if pick.RemoteNode? then r.(xnode := r.xnode + 1) else r)
  }

  /** The part of a dispatch after the user ring is drained. */
  function Serve(c: Config, s: State, cpu: int, prev: int, prevQueued: bool, pending: bool, still: bool): State
    requires ValidConfig(c)
  {
    if c.userschedEnabled && pending && CanMove(s.q, SCHED_DSQ, cpu) then MoveToLocal(s, SCHED_DSQ, cpu)
    else
      var pick := Choose(c, s.q, cpu);
      if pick == Refill then RefillPrev(c, s, cpu, prev, prevQueued, c.userschedEnabled && still)
      else Draw(c, s, cpu, pick)
  }

  /** A message from the userspace fallback, with two answers of the kernel: the CPU its
      task last used, and the dispatch slots left after it. */
  datatype Submission = Submission(task: Policy.DispatchedTask, prevCpu: int, slotsLeft: nat)

  predicate Bounces(cpus: set<int>, m: Submission) {
    m.task.cpu != Policy.RL_CPU_ANY && m.task.cpu !in cpus
  }

  function UserDsq(c: Config, cpus: set<int>, m: Submission): int {
    if m.task.cpu == Policy.RL_CPU_ANY then SHARED_DSQ
    else CpuToDsq(c, if Bounces(cpus, m) then m.prevCpu else m.task.cpu)
  }

  /** Stale messages for a chosen CPU are cancelled after the insertion. */
  predicate Cancelled(t: TaskCtx, m: Submission) {
    m.task.cpu != Policy.RL_CPU_ANY && t.enqCnt > m.task.enqCnt
  }

  /** `dispatch_task`: no depth check, and a key chosen in userspace. */
  function UserDispatch(c: Config, s: State, m: Submission): State {
    if m.task.pid !in s.tasks then s
    else
      var t := s.tasks[m.task.pid].(dsqVtime := m.task.vtime, slice := m.task.sliceNs);
      var r := if Bounces(t.cpus, m) then s.routes.(bounce := s.routes.bounce + 1)
          else s.routes.(user := s.routes.user + 1);
      if Cancelled(t, m) then s.(tasks := s.tasks[m.task.pid := t], routes := r.(cancel := r.cancel + 1))
      else
        InsertVtime(s, UserDsq(c, t.cpus, m), Waiter(m.task.pid, m.task.vtime, t.cpus))
        .(tasks := s.tasks[m.task.pid := t], routes := r)
  }

  function DrainRing(c: Config, s: State, ring: seq<Submission>): State {
    if ring == [] then s else UserDispatch(c, DrainRing(c, s, ring[..|ring| - 1]), ring[|ring| - 1])
  }

  /** What one drain takes from the ring: its callback asks to stop as soon as dispatch
      slots are left. */
  function Consumed(ring: seq<Submission>): seq<Submission> {
    if ring == [] then []
    else if ring[0].slotsLeft != 0 then [ring[0]]
    else [ring[0]] + Consumed(ring[1..])
  }

  /** `ring` is what waits in the user ring at this callback. */
  function Dispatch(c: Config, s: State, cpu: int, prev: int, prevQueued: bool,
                    ring: seq<Submission>, pending: bool, still: bool): State
    requires ValidConfig(c)
  {
    Serve(c, DrainRing(c, s, Consumed(ring)), cpu, prev, prevQueued, pending, still)
  }

  // ------------------------------------------------------------ per-task callbacks

  function Runnable(c: Config, s: State, pid: int, now: nat): State {
    if pid == c.userschedPid || pid !in s.tasks then s
    else
      var t := s.tasks[pid];
      var gap := if now > t.lastWokeAt then now - t.lastWokeAt else 1;
      s.(tasks := s.tasks[pid := t.(execRuntime := 0, awakeVtime := 0, lastWokeAt := now,
                                   wakeupFreq := Min(UpdateFreq(t.wakeupFreq, gap), MAX_WAKEUP_FREQ))])
  }

  function Running(c: Config, s: State, pid: int, start: nat, now: nat): State {
    if pid == c.userschedPid || pid !in s.tasks then s
    else
      var t := s.tasks[pid];
      s.(tasks := s.tasks[pid := t.(startTs := start, lastRunAt := now)],
         vtimeNow := if TimeBefore(s.vtimeNow, t.dsqVtime) then t.dsqVtime else s.vtimeNow)
  }

  /** `ran` and `exec` are the elapsed times the callback measures. */
  function Stopping(c: Config, s: State, pid: int, now: nat, ran: nat, exec: nat): State
    requires pid in s.tasks ==> s.tasks[pid].weight > 0
  {
    if pid == c.userschedPid || pid !in s.tasks then s
    else
      var t := s.tasks[pid];
      var delta := ScaleInverse(ran, t.weight);
      s.(tasks := s.tasks[pid := t.(stopTs := now, execRuntime := U64(t.execRuntime + exec),
                                   avgRuntime := CalcAvg(t.avgRuntime, ran),
                                   dsqVtime := U64(t.dsqVtime + delta), awakeVtime := U64(t.awakeVtime + delta))])
  }

  function Enable(c: Config, s: State, pid: int): State {
    if pid !in s.tasks then s
    else s.(tasks := s.tasks[pid := s.tasks[pid].(dsqVtime := s.vtimeNow, slice := Max(c.sliceNs, c.sliceMinNs))])
  }

  // ------------------------------------------------------------------ kernel steps

  function InitTask(s: State, pid: int, weight: nat, cpus: set<int>, kthread: bool): State {
    s.(tasks := s.tasks[pid := TaskCtx(weight, cpus, kthread, 0, 0, 0, 0, 0, 0, 0, 0, 0, 0, 0)])
  }

  function Retune(s: State, pid: int, weight: nat, cpus: set<int>): State
    requires pid in s.tasks
  {
    s.(tasks := s.tasks[pid := s.tasks[pid].(weight := weight, cpus := cpus)])
  }

  /** Waiter `i` leaves queue `id`: it starts running, blocks, or exits. */
  function Leave(s: State, id: int, i: nat): State
    requires i < Depth(s.q, id)
  {
    s.(q := s.q[id := Without(Queue(s.q, id), i)], outs := Bump(s.outs, id))
  }

  datatype Event =
    | EvInit(pid: int, weight: nat, cpus: set<int>, kthread: bool)
    | EvRetune(pid: int, weight: nat, cpus: set<int>)
    | EvEnable(pid: int)
    | EvRunnable(pid: int, now: nat)
    | EvSelect(pid: int, idleCpu: int)
    | EvEnqueue(pid: int, env: Env)
    | EvDispatch(cpu: int, prev: int, prevQueued: bool, ring: seq<Submission>, pending: bool, still: bool)
    | EvRunning(pid: int, start: nat, now: nat)
    | EvStopping(pid: int, now: nat, ran: nat, exec: nat)
    | EvLeave(id: int, i: nat)

  predicate GoodWeight(weight: nat) { 1 <= weight <= MAX_WEIGHT }

  /** What the kernel respects when it calls back. */
  predicate Enabled(c: Config, s: State, e: Event) {
    match e
    case EvInit(pid, weight, _, _) => pid > 0 && GoodWeight(weight)
    case EvRetune(pid, weight, _) => pid in s.tasks && GoodWeight(weight)
    case EvSelect(_, idleCpu) => idleCpu >= 0 ==> IsCpuValid(c, idleCpu)
    case EvEnqueue(_, env) => IsCpuValid(c, env.prevCpu) && (env.idleCpu >= 0 ==> IsCpuValid(c, env.idleCpu))
    case EvDispatch(cpu, _, _, ring, _, _) => IsCpuValid(c, cpu) && (ring != [] ==> c.userschedEnabled)
    case EvLeave(id, i) => i < Depth(s.q, id)
    case _ => true
  }

  ghost predicate TasksOk(s: State) {
    forall pid :: pid in s.tasks ==>
                    pid > 0 && GoodWeight(s.tasks[pid].weight) && s.tasks[pid].wakeupFreq <= MAX_WAKEUP_FREQ
  }

  function Next(c: Config, s: State, e: Event): State
    requires ValidConfig(c) && TasksOk(s) && Enabled(c, s, e)
  {
    match e
    case EvInit(pid, weight, cpus, kthread) => InitTask(s, pid, weight, cpus, kthread)
    case EvRetune(pid, weight, cpus) => Retune(s, pid, weight, cpus)
    case EvEnable(pid) => Enable(c, s, pid)
    case EvRunnable(pid, now) => Runnable(c, s, pid, now)
    case EvSelect(pid, idleCpu) => SelectCpu(c, s, pid, idleCpu)
    case EvEnqueue(pid, env) => Enqueue(c, s, pid, env)
    case EvDispatch(cpu, prev, prevQueued, ring, pending, still) =>
      Dispatch(c, s, cpu, prev, prevQueued, ring, pending, still)
    case EvRunning(pid, start, now) => Running(c, s, pid, start, now)
    case EvStopping(pid, now, ran, exec) => Stopping(c, s, pid, now, ran, exec)
    case EvLeave(id, i) => Leave(s, id, i)
  }
}
