/** The arithmetic of the userspace fallback (src/main.rs, src/ai/classifier.rs):
    features, labels, slices, wake credit and the virtual clock, in saturating
    64-bit arithmetic with exact real ratios. */
module Policy {
  import opened Numbers
  import opened Options
  import opened Lifetime

  const WAKE_BOOST_MIN_SLEEP_NS: nat := 750_000
  const WAKE_BOOST_MAX_SLEEP_NS: nat := 25_000_000
  const WAKE_DEADLINE_CREDIT_NS: nat := 4_000_000
  const WAKE_PREEMPT_MIN_CREDIT_NS: nat := 1_000_000
  const WAKE_PREEMPT_MAX_QUEUE_NS: nat := 6_000_000
  const STARVATION_NS: nat := 12_000_000
  const RL_CPU_ANY: int := 0x10_0000

  datatype TaskLabel = Interactive | Compute | IoWait | RealTime | Unknown

  datatype QueuedTask = QueuedTask(
    pid: int, cpu: int, flags: nat, startTs: nat, stopTs: nat,
    execRuntime: nat, weight: nat, vtime: nat, enqCnt: nat)

  datatype Task = Task(
    qtask: QueuedTask, deadline: nat, timestamp: nat, kind: TaskLabel, wakeBoosted: bool,
    wakeCreditNs: nat, latencySensitive: bool, isKernelWorker: bool, sliceNs: nat)

  datatype DispatchedTask = DispatchedTask(pid: int, cpu: int, flags: nat, sliceNs: nat, vtime: nat, enqCnt: nat)

  /** The active profile as the fallback sees it. */
  datatype Profile = Profile(baseSliceNs: nat, sliceMinNs: nat, percpuLocal: bool)

  /** Both lengths are 64-bit numbers. */
  predicate Fits(p: Profile) {
    p.baseSliceNs <= U64_MAX && p.sliceMinNs <= U64_MAX
  }

  /** The longest slice: four base slices, in arithmetic that wraps. */
  function ClampMax(p: Profile): nat {
    Max(p.baseSliceNs * 4 % TWO64, p.sliceMinNs)
  }

  // ----------------------------------------------------------------- features

  function Ratio(x: nat, y: nat): real
    requires y > 0
  {
    var r := x as real / y as real;
    if r > 1.0 then 1.0 else r
  }

  function ExecRatio(q: QueuedTask): real {
    if q.execRuntime > 0 then Ratio(SatSub(q.stopTs, q.startTs), q.execRuntime) else 1.0
  }

  function CpuIntensity(q: QueuedTask, prevSliceNs: nat): real {
    Ratio(SatSub(q.stopTs, q.startTs), Max(prevSliceNs, 1))
  }

  function Classify(weight: nat, cpuIntensity: real, execRatio: real): TaskLabel {
    if Ratio(weight, 10000) > 0.95 then RealTime
    else if cpuIntensity > 0.85 && execRatio < 0.30 then Compute
    else if cpuIntensity < 0.10 then IoWait
    else Interactive
  }

  predicate ShortSleep(sleepNs: nat) {
    WAKE_BOOST_MIN_SLEEP_NS <= sleepNs <= WAKE_BOOST_MAX_SLEEP_NS
  }

  predicate IsLatencySensitive(kind: TaskLabel, execRatio: real, cpuIntensity: real, sleepNs: nat) {
    (kind.Interactive? || kind.IoWait?) && ShortSleep(sleepNs) && execRatio >= 0.55 && cpuIntensity >= 0.30
  }

  predicate ShouldWakeBoost(latencySensitive: bool, execRatio: real, cpuIntensity: real, sleepNs: nat) {
    latencySensitive && ShortSleep(sleepNs) && execRatio >= 0.60 && cpuIntensity >= 0.45
  }

  predicate ShouldWakePreempt(wakeBoosted: bool, latencySensitive: bool, creditNs: nat, queuedNs: nat) {
    wakeBoosted && latencySensitive && creditNs >= WAKE_PREEMPT_MIN_CREDIT_NS && queuedNs <= WAKE_PREEMPT_MAX_QUEUE_NS
  }

  function ScaleByWeightInverse(weight: nat, value: nat): nat {
    SatMul(value, 100) / Max(weight, 1)
  }

  function SleepBonusNs(p: Profile, sleepNs: nat): nat {
    if ShortSleep(sleepNs) then Clamp(sleepNs / 4, p.sliceMinNs / 2, Max(p.baseSliceNs, p.sliceMinNs)) else 0
  }

  // ------------------------------------------------------------------- policy

  /** What one arrival brings besides the kernel message: the lifetime record of its
      PID, the controller's slice, the kernel-worker name test and the clock. */
  datatype Arrival = Arrival(
    qtask: QueuedTask, life: Option<TaskLifetime>, aiSliceNs: nat, isKernelWorker: bool, timestamp: nat)

  function PrevSliceNs(p: Profile, a: Arrival): nat {
    if a.life.Some? && a.life.value.lastSliceNs > 0 then a.life.value.lastSliceNs else Max(p.baseSliceNs, 1_000_000)
  }

  function RecentSleepNs(a: Arrival): nat {
    if a.life.Some? && a.life.value.lastStopTs != 0 then SatSub(a.qtask.startTs, a.life.value.lastStopTs) else 0
  }

  function LabelOf(p: Profile, a: Arrival): TaskLabel {
    if a.isKernelWorker then RealTime
    else Classify(a.qtask.weight, CpuIntensity(a.qtask, PrevSliceNs(p, a)), ExecRatio(a.qtask))
  }

  predicate LatencySensitive(p: Profile, a: Arrival) {
    IsLatencySensitive(LabelOf(p, a), ExecRatio(a.qtask), CpuIntensity(a.qtask, PrevSliceNs(p, a)), RecentSleepNs(a))
  }

  predicate WakeBoosted(p: Profile, a: Arrival) {
    ShouldWakeBoost(LatencySensitive(p, a), ExecRatio(a.qtask), CpuIntensity(a.qtask, PrevSliceNs(p, a)),
        RecentSleepNs(a))
  }

  function SliceNs(p: Profile, a: Arrival): nat {
    var scaled := SatMul(a.aiSliceNs, Max(a.qtask.weight, 1)) / 100;
    var boosted := if WakeBoosted(p, a) then SatAdd(scaled, SleepBonusNs(p, RecentSleepNs(a)) / 2) else scaled;
    var clamped := Clamp(boosted, p.sliceMinNs, ClampMax(p));
    if LabelOf(p, a).RealTime? then Min(Max(clamped, p.baseSliceNs), ClampMax(p)) else clamped
  }

  function WakeCreditNs(p: Profile, a: Arrival): nat {
    if WakeBoosted(p, a) then
      Min(Min(Max(SleepBonusNs(p, RecentSleepNs(a)), p.sliceMinNs / 2), SliceNs(p, a)), WAKE_DEADLINE_CREDIT_NS)
    else 0
  }

  /** The task's virtual time on entry, before its last burst is charged. */
  function EntryVtime(p: Profile, front: nat, q: QueuedTask): nat {
    if q.vtime == 0 then front else Max(q.vtime, SatSub(front, p.baseSliceNs))
  }

  function AdmittedVtime(p: Profile, front: nat, q: QueuedTask): nat {
    SatAdd(EntryVtime(p, front, q), ScaleByWeightInverse(q.weight, SatSub(q.stopTs, q.startTs)))
  }

  function NewFront(p: Profile, front: nat, q: QueuedTask): nat {
    Max(front, AdmittedVtime(p, front, q))
  }

  function Derived(p: Profile, front: nat, a: Arrival): Task {
    var vtime := AdmittedVtime(p, front, a.qtask);
    var slice := SliceNs(p, a);
    Task(a.qtask.(vtime := vtime),
         if LabelOf(p, a).RealTime? then 0 else SatAdd(vtime, ScaleByWeightInverse(a.qtask.weight, slice)),
         a.timestamp, LabelOf(p, a), WakeBoosted(p, a), WakeCreditNs(p, a), LatencySensitive(p, a),
             a.isKernelWorker, slice)
  }

  function WakeDeadlineCreditNs(t: Task): nat {
    if t.wakeBoosted then Min(Max(t.wakeCreditNs, t.sliceNs / 2), WAKE_DEADLINE_CREDIT_NS) else 0
  }

  function DispatchVtime(t: Task): nat {
    if t.kind.RealTime? then 0 else SatSub(t.deadline, WakeDeadlineCreditNs(t))
  }

  function Message(p: Profile, t: Task): DispatchedTask {
    DispatchedTask(t.qtask.pid, if p.percpuLocal || t.isKernelWorker then t.qtask.cpu else RL_CPU_ANY,
                   t.qtask.flags, t.sliceNs, DispatchVtime(t), t.qtask.enqCnt)
  }

  // ------------------------------------------------------------------- bounds

  /** Every slice lies between the minimum and four base slices, and the wake credit is
      capped by the slice and by 4 ms and goes to short sleepers only. */
  lemma SliceAndCreditBounds(p: Profile, front: nat, a: Arrival)
    requires Fits(p)
    ensures var t := Derived(p, front, a);
            && p.sliceMinNs <= t.sliceNs <= Max(4 * p.baseSliceNs, p.sliceMinNs) && t.sliceNs <= U64_MAX
            && t.wakeCreditNs <= t.sliceNs && t.wakeCreditNs <= WAKE_DEADLINE_CREDIT_NS
            && WakeDeadlineCreditNs(t) <= t.sliceNs && WakeDeadlineCreditNs(t) <= WAKE_DEADLINE_CREDIT_NS
            && (t.wakeBoosted ==> ShortSleep(RecentSleepNs(a)) && !t.kind.RealTime?)
  {
  }

  /** A kernel worker gets at least the base slice exactly when the longest slice allows
      it: always below 2^62 ns, and not where four base slices wrap below one. */
  lemma WorkerGetsBaseIff(p: Profile, front: nat, a: Arrival)
    requires Fits(p)
    ensures Derived(p, front, a).kind.RealTime? ==>
              (Derived(p, front, a).sliceNs >= p.baseSliceNs <==> p.baseSliceNs <= ClampMax(p))
    ensures p.baseSliceNs < 0x4000_0000_0000_0000 ==> p.baseSliceNs <= ClampMax(p)
    ensures p.baseSliceNs == 0x4000_0000_0000_0000 && p.sliceMinNs < p.baseSliceNs ==> p.baseSliceNs > ClampMax(p)
  {
  }

  /** The virtual clock never runs backwards and bounds what it admits; an admitted
      task is at most one base slice behind the front, and a task without history
      enters no earlier than the front. */
  lemma FrontBounds(p: Profile, front: nat, q: QueuedTask)
    requires front <= U64_MAX
    ensures front <= NewFront(p, front, q) <= U64_MAX && NewFront(p, front, q) in {front, AdmittedVtime(p, front, q)}
    ensures AdmittedVtime(p, front, q) <= NewFront(p, front, q)
    ensures AdmittedVtime(p, front, q) >= SatSub(front, p.baseSliceNs)
    ensures q.vtime == 0 ==> AdmittedVtime(p, front, q) >= front
    ensures q.vtime <= U64_MAX ==> AdmittedVtime(p, front, q) >= q.vtime
  {
  }

  /** What reaches the kernel queue for an ordinary task is never more than one base
      slice and 4 ms behind the front at admission, even when sums saturate. */
  lemma DispatchFloor(p: Profile, front: nat, a: Arrival)
    requires Fits(p) && front <= U64_MAX
    ensures var t := Derived(p, front, a);
            if t.kind.RealTime? then DispatchVtime(t) == 0
            else && DispatchVtime(t) >= SatSub(SatSub(front, p.baseSliceNs), WAKE_DEADLINE_CREDIT_NS)
                 && DispatchVtime(t) >= SatSub(t.qtask.vtime, WAKE_DEADLINE_CREDIT_NS)
                 && DispatchVtime(t) <= t.deadline <= U64_MAX
  {
    FrontBounds(p, front, a.qtask);
    SliceAndCreditBounds(p, front, a);
  }
}
