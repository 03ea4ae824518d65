/** What the command line decides: the read-only data it leads to, and where each mode lets a
    task wait. */
module Profiles {
  import opened Numbers
  import opened Hierarchy
  import opened Machine
  import opened Runs
  import opened Routing
  import opened Loader

  /** What the options ask for is what the kernel side gets: lengths in microseconds, the
      slice raised to its minimum, the defaults of the mode where nothing is asked, and the
      loader's PID only with the fallback. */
  lemma RodataObeysOptions(mode: Mode, sliceUs: nat, sliceUsMin: nat, e: Export, h: Host, fallback: bool)
    requires 1000 * sliceUs <= U64_MAX && 1000 * sliceUsMin <= U64_MAX
    ensures var c := Rodata(FromOpts(mode, sliceUs, sliceUsMin), e, h, fallback);
            && (c.serverMode <==> mode.Server?) && (c.stickyTasks <==> mode.Desktop?)
            && (sliceUsMin > 0 ==> c.sliceMinNs == 1000 * sliceUsMin)
            && (sliceUsMin == 0 ==> c.sliceMinNs == if mode.Desktop? then 250_000 else 1_000_000)
            && (sliceUs > 0 ==> c.sliceNs == Max(1000 * sliceUs, c.sliceMinNs))
            && (sliceUs == 0 ==> c.sliceNs == Max(if mode.Desktop? then 1_000_000 else 8_000_000, c.sliceMinNs))
            && c.sliceLagNs == (if mode.Desktop? then 40_000_000 else 1_500_000)
            && (c.userschedEnabled <==> fallback) && c.userschedPid == if fallback then h.pid else 0
  {
  }

  /** In server mode a user task for which an idle CPU was found always goes there. */
  lemma ServerUsesIdle(sliceUs: nat, sliceUsMin: nat, x: Export, h: Host, fallback: bool, s: State, pid: int, e: Env)
    requires InRange(x) && 0 < h.nrCpuIds <= MAX_CPUS && |h.cacheOf| == MAX_CPUS
    ensures var c := Rodata(FromOpts(Server, sliceUs, sliceUsMin), x, h, fallback);
            && ValidConfig(c)
            && (TasksOk(s) && Enabled(c, s, EvEnqueue(pid, e)) && Ordinary(c, s, pid)
                && !s.tasks[pid].kthread && !e.cpuSelected && e.idleCpu >= 0
                ==> SentTo(c, s, Enqueue(c, s, pid, e), pid, e.idleCpu))
  {
    var c := Rodata(FromOpts(Server, sliceUs, sliceUsMin), x, h, fallback);
    RodataIsValid(Server, sliceUs, sliceUsMin, x, h, fallback);
    if TasksOk(s) && Enabled(c, s, EvEnqueue(pid, e)) && Ordinary(c, s, pid)
       && !s.tasks[pid].kthread && !e.cpuSelected && e.idleCpu >= 0 {
      IdleIsUsed(c, s, pid, e);
    }
  }

  /** In desktop mode a task that is still running, unless it stays on its CPU, waits in the
      nearest tier with room whatever CPUs are idle. */
  lemma DesktopKeepsRunning(sliceUs: nat, sliceUsMin: nat, x: Export, h: Host, fallback: bool,
                            s: State, pid: int, e: Env)
    returns (id: int)
    requires InRange(x) && 0 < h.nrCpuIds <= MAX_CPUS && |h.cacheOf| == MAX_CPUS
    ensures var c := Rodata(FromOpts(Desktop, sliceUs, sliceUsMin), x, h, fallback);
            && ValidConfig(c)
            && (TasksOk(s) && Enabled(c, s, EvEnqueue(pid, e)) && Ordinary(c, s, pid)
                && !StaysHome(c, s.tasks[pid], e) && e.running
                ==> IsNearest(c, s.q, e.prevCpu, id) && DeferredTo(c, s, Enqueue(c, s, pid, e), pid, e, id))
  {
    var c := Rodata(FromOpts(Desktop, sliceUs, sliceUsMin), x, h, fallback);
    RodataIsValid(Desktop, sliceUs, sliceUsMin, x, h, fallback);
    id := SHARED_DSQ;
    if TasksOk(s) && Enabled(c, s, EvEnqueue(pid, e)) && Ordinary(c, s, pid)
       && !StaysHome(c, s.tasks[pid], e) && e.running {
      id := OthersAreDeferred(c, s, pid, e);
    }
  }
}
