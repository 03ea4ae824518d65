/** When a CPU is left to refill its current task although a task it may run waits:
    remote LLC and node steals look at one queue each, and not at affinity. */
module Stranding {
  import opened VirtualTime
  import opened Dsq
  import opened Hierarchy
  import opened WorkConservation
  import opened Machine
  import opened Runs

  /** Nothing `cpu` may run waits in its own tiers or in any per-CPU queue. */
  ghost predicate NearEmpty(c: Config, q: Queues, cpu: int)
    requires ValidConfig(c)
  {
    forall id, i :: (id in OwnTiers(c, cpu) || IsCpuDsq(c, id)) && 0 <= i < Depth(q, id)
        ==> cpu !in Queue(q, id)[i].cpus
  }

  lemma NearWorkIff(c: Config, q: Queues, cpu: int)
    requires ValidConfig(c) && IsCpuValid(c, cpu) && Capped(c, q)
    ensures NearEmpty(c, q, cpu)
            <==> OwnChoice(c, q, cpu) == -1 && StealCpu(c, q, cpu, true) == -1 && StealCpu(c, q, cpu, false) == -1
  {
    OwnChoiceIsComplete(c, q, cpu);
    if NearEmpty(c, q, cpu) {
      forall id | id in OwnTiers(c, cpu) || IsCpuDsq(c, id) ensures !CanMove(q, id, cpu) {
        MovableIff(q, id, cpu);
      }
      StolenCpuIsTier(c, q, cpu, true);
      StolenCpuIsTier(c, q, cpu, false);
    } else {
      var id, i :| (id in OwnTiers(c, cpu) || IsCpuDsq(c, id)) && 0 <= i < Depth(q, id) && cpu in Queue(q, id)[i].cpus;
      MovableIff(q, id, cpu);
      if id in OwnTiers(c, cpu) {
        var k :| 0 <= k < |OwnTiers(c, cpu)| && OwnTiers(c, cpu)[k] == id;
      } else {
        CpuWorkIsStolen(c, q, cpu, id);
      }
    }
  }

  ghost predicate NoneAllowed(q: Queues, id: int, cpu: int) {
    forall i :: 0 <= i < Depth(q, id) ==> cpu !in Queue(q, id)[i].cpus
  }

  lemma NoneAllowedIff(q: Queues, id: int, cpu: int)
    ensures NoneAllowed(q, id, cpu) <==> !CanMove(q, id, cpu)
  {
    MovableIff(q, id, cpu);
  }

  // ------------------------------------------------------- who wins an election

  /** Earlier head, then deeper queue, then earlier in the rotation. */
  predicate Preferred(q: Queues, a: int, b: int, first: bool)
    requires Queue(q, a) != [] && Queue(q, b) != []
  {
    var x, y := Queue(q, a)[0].vtime, Queue(q, b)[0].vtime;
    x < y || (x == y && (Depth(q, a) > Depth(q, b) || (Depth(q, a) == Depth(q, b) && first)))
  }

  /** Among the first `k` steps, step `i` visits the preferred queue. */
  ghost predicate LlcElected(c: Config, q: Queues, cpu: int, sameNode: bool, k: nat, i: nat)
    requires ValidConfig(c) && k < c.nrLlcs
  {
    && 0 < i <= k && LlcRuns(c, q, cpu, sameNode, i)
    && forall j :: 0 < j <= k && j != i && LlcRuns(c, q, cpu, sameNode, j)
                   ==> Preferred(q, LlcAt(c, cpu, i), LlcAt(c, cpu, j), i < j)
  }

  /** Step `i` explains the result of an election over the first `k` steps. */
  ghost predicate LlcExplains(c: Config, q: Queues, cpu: int, sameNode: bool, k: nat, i: nat)
    requires ValidConfig(c) && k < c.nrLlcs
  {
    var r := Scan(q, LlcVictims(c, cpu, sameNode, k));
    if r == -1 then forall j :: 0 < j <= k ==> !LlcRuns(c, q, cpu, sameNode, j)
    else i <= k && LlcElected(c, q, cpu, sameNode, k, i) && r == LlcAt(c, cpu, i)
  }

  lemma {:induction false} LlcScan(c: Config, q: Queues, cpu: int, sameNode: bool, k: nat) returns (i: nat)
    requires ValidConfig(c) && k < c.nrLlcs
    ensures LlcExplains(c, q, cpu, sameNode, k, i)
  {
    if k == 0 {
      i := 0;
    } else {
      i := LlcScan(c, q, cpu, sameNode, k - 1);
      var best := Scan(q, LlcVictims(c, cpu, sameNode, k - 1));
      LlcScanStep(c, q, cpu, sameNode, k);
      if LlcRuns(c, q, cpu, sameNode, k) && (best == -1 || RemoteBetter(q, LlcAt(c, cpu, k), best)) {
        LlcTakesOver(c, q, cpu, sameNode, k, i);
        i := k;
      } else if best != -1 {
        LlcStays(c, q, cpu, sameNode, k, i);
      }
    }
  }

  lemma LlcTakesOver(c: Config, q: Queues, cpu: int, sameNode: bool, k: nat, i: nat)
    requires ValidConfig(c) && 0 < k < c.nrLlcs && LlcRuns(c, q, cpu, sameNode, k)
    requires LlcExplains(c, q, cpu, sameNode, k - 1, i)
    requires var best := LlcBest(c, q, cpu, sameNode, k - 1); best == -1 || RemoteBetter(q, LlcAt(c, cpu, k), best)
    ensures LlcElected(c, q, cpu, sameNode, k, k)
  {
  }

  lemma LlcStays(c: Config, q: Queues, cpu: int, sameNode: bool, k: nat, i: nat)
    requires ValidConfig(c) && 0 < i < k < c.nrLlcs && LlcElected(c, q, cpu, sameNode, k - 1, i)
    requires LlcRuns(c, q, cpu, sameNode, k) ==> !RemoteBetter(q, LlcAt(c, cpu, k), LlcAt(c, cpu, i))
    ensures LlcElected(c, q, cpu, sameNode, k, i)
  {
  }

  ghost predicate NodeElected(c: Config, q: Queues, cpu: int, k: nat, i: nat)
    requires ValidConfig(c) && k < c.nrNodes
  {
    && 0 < i <= k && Queue(q, NodeAt(c, cpu, i)) != []
    && forall j :: 0 < j <= k && j != i && Queue(q, NodeAt(c, cpu, j)) != []
                   ==> Preferred(q, NodeAt(c, cpu, i), NodeAt(c, cpu, j), i < j)
  }

  ghost predicate NodeExplains(c: Config, q: Queues, cpu: int, k: nat, i: nat)
    requires ValidConfig(c) && k < c.nrNodes
  {
    var r := Scan(q, NodeVictims(c, cpu, k));
    if r == -1 then forall j :: 0 < j <= k ==> Queue(q, NodeAt(c, cpu, j)) == []
    else i <= k && NodeElected(c, q, cpu, k, i) && r == NodeAt(c, cpu, i)
  }

  lemma {:induction false} NodeScan(c: Config, q: Queues, cpu: int, k: nat) returns (i: nat)
    requires ValidConfig(c) && k < c.nrNodes
    ensures NodeExplains(c, q, cpu, k, i)
  {
    if k == 0 {
      i := 0;
    } else {
      i := NodeScan(c, q, cpu, k - 1);
      var best := Scan(q, NodeVictims(c, cpu, k - 1));
      NodeScanStep(c, q, cpu, k);
      if Queue(q, NodeAt(c, cpu, k)) != [] && (best == -1 || RemoteBetter(q, NodeAt(c, cpu, k), best)) {
        NodeTakesOver(c, q, cpu, k, i);
        i := k;
      } else if best != -1 {
        NodeStays(c, q, cpu, k, i);
      }
    }
  }

  lemma NodeTakesOver(c: Config, q: Queues, cpu: int, k: nat, i: nat)
    requires ValidConfig(c) && 0 < k < c.nrNodes && Queue(q, NodeAt(c, cpu, k)) != []
    requires NodeExplains(c, q, cpu, k - 1, i)
    requires var best := Scan(q, NodeVictims(c, cpu, k - 1)); best == -1 || RemoteBetter(q, NodeAt(c, cpu, k), best)
    ensures NodeElected(c, q, cpu, k, k)
  {
  }

  lemma NodeStays(c: Config, q: Queues, cpu: int, k: nat, i: nat)
    requires ValidConfig(c) && 0 < i < k < c.nrNodes && NodeElected(c, q, cpu, k - 1, i)
    requires Queue(q, NodeAt(c, cpu, k)) != [] ==> !RemoteBetter(q, NodeAt(c, cpu, k), NodeAt(c, cpu, i))
    ensures NodeElected(c, q, cpu, k, i)
  {
  }

  // ------------------------------------------------------------ when nothing moves

  /** The preferred LLC queue, if any, holds no task allowed on the CPU. */
  ghost predicate LlcBlocked(c: Config, q: Queues, cpu: int, sameNode: bool)
    requires ValidConfig(c)
  {
    forall i :: 0 < i < c.nrLlcs && LlcElected(c, q, cpu, sameNode, c.nrLlcs - 1, i)
        ==> NoneAllowed(q, LlcAt(c, cpu, i), cpu)
  }

  ghost predicate NodeBlocked(c: Config, q: Queues, cpu: int)
    requires ValidConfig(c)
  {
    forall i :: 0 < i < c.nrNodes && NodeElected(c, q, cpu, c.nrNodes - 1, i) ==> NoneAllowed(q, NodeAt(c, cpu, i), cpu)
  }

  lemma LlcBlockedIff(c: Config, q: Queues, cpu: int, sameNode: bool)
    requires ValidConfig(c) && IsCpuValid(c, cpu)
    ensures LlcBlocked(c, q, cpu, sameNode) <==> StealLlc(c, q, cpu, sameNode) == -1
  {
    var k := c.nrLlcs - 1;
    var i := LlcScan(c, q, cpu, sameNode, k);
    var best := Scan(q, LlcVictims(c, cpu, sameNode, k));
    NoneAllowedIff(q, best, cpu);
    forall j | 0 < j <= k && LlcElected(c, q, cpu, sameNode, k, j) ensures best != -1 && j == i {
    }
  }

  lemma NodeBlockedIff(c: Config, q: Queues, cpu: int)
    requires ValidConfig(c) && IsCpuValid(c, cpu)
    ensures NodeBlocked(c, q, cpu) <==> StealNode(c, q, cpu) == -1
  {
    var k := c.nrNodes - 1;
    var i := NodeScan(c, q, cpu, k);
    var best := Scan(q, NodeVictims(c, cpu, k));
    NoneAllowedIff(q, best, cpu);
    forall j | 0 < j <= k && NodeElected(c, q, cpu, k, j) ensures best != -1 && j == i {
    }
  }

  lemma RefillIsLast(c: Config, q: Queues, cpu: int)
    requires ValidConfig(c)
    ensures Choose(c, q, cpu) == Refill
            <==> OwnChoice(c, q, cpu) == -1 && StealCpu(c, q, cpu, true) == -1 && StealCpu(c, q, cpu, false) == -1
                 && StealLlc(c, q, cpu, true) == -1 && StealNode(c, q, cpu) == -1 && StealLlc(c, q, cpu, false) == -1
  {
  }

  /** Exactly when a CPU refills: nothing near may run there, and in each of the three
      remote rotations the queue with the earliest head (then the deepest, then the
      first visited) holds no task allowed there. */
  lemma RefillExactly(c: Config, q: Queues, cpu: int)
    requires ValidConfig(c) && IsCpuValid(c, cpu) && Capped(c, q)
    ensures Choose(c, q, cpu) == Refill
            <==> && NearEmpty(c, q, cpu) && LlcBlocked(c, q, cpu, true) && NodeBlocked(c, q, cpu)
                 && LlcBlocked(c, q, cpu, false)
  {
    NearWorkIff(c, q, cpu);
    LlcBlockedIff(c, q, cpu, true);
    LlcBlockedIff(c, q, cpu, false);
    NodeBlockedIff(c, q, cpu);
    RefillIsLast(c, q, cpu);
  }

  ghost predicate AllowedWaits(c: Config, q: Queues, cpu: int) {
    exists id, i :: IsTier(c, id) && 0 <= i < Depth(q, id) && cpu in Queue(q, id)[i].cpus
  }

  /** A task the CPU may run waits in the LLC or node queue of another domain. */
  ghost predicate AllowedRemote(c: Config, q: Queues, cpu: int)
    requires ValidConfig(c)
  {
    exists id, i :: (IsLlcDsq(c, id) || IsNodeDsq(c, id)) && id !in OwnTiers(c, cpu)
                    && 0 <= i < Depth(q, id) && cpu in Queue(q, id)[i].cpus
  }

  /** Exactly when a CPU refills although a task it may run waits somewhere: such tasks
      wait in remote LLC or node queues only, and every remote election is won by a
      queue without one. */
  lemma StrandedIff(c: Config, q: Queues, cpu: int)
    requires ValidConfig(c) && IsCpuValid(c, cpu) && Capped(c, q)
    ensures Choose(c, q, cpu) == Refill && AllowedWaits(c, q, cpu)
            <==> && AllowedRemote(c, q, cpu) && NearEmpty(c, q, cpu)
                 && LlcBlocked(c, q, cpu, true) && NodeBlocked(c, q, cpu) && LlcBlocked(c, q, cpu, false)
  {
    RefillExactly(c, q, cpu);
    if Choose(c, q, cpu) == Refill && AllowedWaits(c, q, cpu) {
      var id, i :| IsTier(c, id) && 0 <= i < Depth(q, id) && cpu in Queue(q, id)[i].cpus;
      assert SHARED_DSQ in OwnTiers(c, cpu);
      assert id !in OwnTiers(c, cpu) && !IsCpuDsq(c, id);
      assert AllowedRemote(c, q, cpu);
    }
    if AllowedRemote(c, q, cpu) {
      var id, i :| (IsLlcDsq(c, id) || IsNodeDsq(c, id)) && id !in OwnTiers(c, cpu)
                   && 0 <= i < Depth(q, id) && cpu in Queue(q, id)[i].cpus;
      assert IsTier(c, id);
    }
  }

  // ------------------------------------------------------------- a run that strands

  ghost predicate Reachable(c: Config, s: State)
    requires ValidConfig(c)
  {
    exists states, events :: IsRun(c, states, events) && states[0] == BOOT && states[|events|] == s
  }

  lemma BootIsReachable(c: Config)
    requires ValidConfig(c)
    ensures Reachable(c, BOOT)
  {
    var states, events: seq<Event> := [BOOT], [];
    assert IsRun(c, states, events) && states[|events|] == BOOT;
  }

  lemma ReachableInv(c: Config, s: State)
    requires ValidConfig(c) && Reachable(c, s)
    ensures Inv(c, s)
  {
    var states, events :| IsRun(c, states, events) && states[0] == BOOT && states[|events|] == s;
    ReachableIsGood(c, states, events, |events|);
  }

  lemma ReachNext(c: Config, s: State, e: Event)
    requires ValidConfig(c) && Reachable(c, s) && Enabled(c, s, e)
    ensures TasksOk(s) && Reachable(c, Next(c, s, e))
  {
    ReachableInv(c, s);
    var states, events :| IsRun(c, states, events) && states[0] == BOOT && states[|events|] == s;
    var states', events' := states + [Next(c, s, e)], events + [e];
    forall i | 0 <= i < |events'| ensures LinkedAt(c, states', events', i) {
      if i < |events| {
        assert LinkedAt(c, states, events, i);
        assert states'[i] == states[i] && states'[i + 1] == states[i + 1] && events'[i] == events[i];
      }
    }
    assert IsRun(c, states', events') && states'[|events'|] == Next(c, s, e);
  }

  /** Before anything ran, a new task that finds no idle CPU is deferred at key 0. */
  lemma Arrive(c: Config, s: State, pid: int, cpus: set<int>, cpu: int) returns (u: State)
    requires ValidConfig(c) && pid != c.userschedPid && !c.stickyTasks
    requires Reachable(c, s) && s.vtimeNow == 0 && pid > 0 && IsCpuValid(c, cpu)
    ensures Reachable(c, u) && u.vtimeNow == 0
    ensures var id := OverflowDsq(c, s.q, cpu); u.q == s.q[id := InsertSorted(Queue(s.q, id), Waiter(pid, 0, cpus))]
  {
    var env := Env(cpu, -1, false, false, false);
    ReachNext(c, s, EvInit(pid, 100, cpus, false));
    var s1 := Next(c, s, EvInit(pid, 100, cpus, false));
    ReachNext(c, s1, EvEnable(pid));
    var s2 := Next(c, s1, EvEnable(pid));
    ReachNext(c, s2, EvRunnable(pid, 1));
    var s3 := Next(c, s2, EvRunnable(pid, 1));
    ReachNext(c, s3, EvEnqueue(pid, env));
    u := Next(c, s3, EvEnqueue(pid, env));
    var t := s3.tasks[pid];
    assert t.dsqVtime == 0 && t.awakeVtime == 0 && t.cpus == cpus && s3.q == s.q && s3.vtimeNow == 0;
    DeadlineIsZero(c, s.q, t, cpu);
    assert RouteOf(c, s3, pid, env) == Deferred;
  }

  lemma DeadlineIsZero(c: Config, q: Queues, t: TaskCtx, cpu: int)
    requires ValidConfig(c) && GoodWeight(t.weight) && t.wakeupFreq <= MAX_WAKEUP_FREQ
    requires t.dsqVtime == t.awakeVtime == 0
    ensures Deadline(c, q, 0, t, cpu) == 0
  {
    CatchUpIsExact(c, q, 0, t, cpu);
    DeadlineIsExact(c, q, 0, t, cpu);
    assert c.sliceLagNs * 100 / t.weight >= 0;
  }

  /** Three CPUs with an LLC each, one node, the server profile. */
  function ThreeLlcs(): Config {
    Config(3, 3, 1, seq(1024, i => if 0 <= i < 3 then i else 0), seq(1024, _ => 0), seq(64, _ => 0),
           seq(1024, i => i), 3, true, false, 8_000_000, 1_000_000, 1_500_000, false, 0)
  }

  /** Two tasks pinned to CPU 1, one to CPU 2, and one that CPU 0 may run. */
  const PINNED: Queues :=
    map[1 := [Waiter(11, 0, {1})], LLC_DSQ_BASE + 1 := [Waiter(12, 0, {1})],
        2 := [Waiter(13, 0, {2})], LLC_DSQ_BASE + 2 := [Waiter(14, 0, {0, 2})]]

  lemma ThreeLlcsFacts()
    ensures ValidConfig(ThreeLlcs())
    ensures forall cpu :: 0 <= cpu < 3
                ==> IsCpuValid(ThreeLlcs(), cpu) && CpuLlcDsq(ThreeLlcs(), cpu) == LLC_DSQ_BASE + cpu
    ensures LlcSpillThreshold(ThreeLlcs()) == 1
    ensures OwnTiers(ThreeLlcs(), 0) == [0, LLC_DSQ_BASE, SHARED_DSQ]
  {
  }

  lemma PinnedIsReached() returns (s: State)
    ensures ValidConfig(ThreeLlcs()) && Reachable(ThreeLlcs(), s) && s.q == PINNED
  {
    var c := ThreeLlcs();
    ThreeLlcsFacts();
    BootIsReachable(c);
    assert forall w :: InsertSorted([], w) == [w];
    assert OverflowDsq(c, BOOT.q, 1) == 1;
    s := Arrive(c, BOOT, 11, {1}, 1);
    assert s.q == map[1 := [Waiter(11, 0, {1})]];
    s := Arrive(c, s, 12, {1}, 1);
    assert s.q == map[1 := [Waiter(11, 0, {1})], LLC_DSQ_BASE + 1 := [Waiter(12, 0, {1})]];
    s := Arrive(c, s, 13, {2}, 2);
    assert s.q == map[1 := [Waiter(11, 0, {1})], LLC_DSQ_BASE + 1 := [Waiter(12, 0, {1})], 2 := [Waiter(13, 0, {2})]];
    s := Arrive(c, s, 14, {0, 2}, 2);
  }

  lemma PinnedElection(sameNode: bool)
    ensures ValidConfig(ThreeLlcs()) && LlcBlocked(ThreeLlcs(), PINNED, 0, sameNode)
  {
    var c := ThreeLlcs();
    ThreeLlcsFacts();
    assert LlcAt(c, 0, 1) == LLC_DSQ_BASE + 1 && LlcAt(c, 0, 2) == LLC_DSQ_BASE + 2;
    assert LlcNode(c, 1) == LlcNode(c, 2) == CpuNode(c, 0) == 0;
    assert LlcRuns(c, PINNED, 0, sameNode, 1);
    assert !LlcElected(c, PINNED, 0, sameNode, 2, 2);
    assert NoneAllowed(PINNED, LLC_DSQ_BASE + 1, 0);
  }

  lemma PinnedNear()
    ensures ValidConfig(ThreeLlcs()) && NearEmpty(ThreeLlcs(), PINNED, 0)
  {
    ThreeLlcsFacts();
  }

  lemma PinnedNodes()
    ensures ValidConfig(ThreeLlcs()) && NodeBlocked(ThreeLlcs(), PINNED, 0)
  {
    ThreeLlcsFacts();
  }

  lemma PinnedWaits()
    ensures ValidConfig(ThreeLlcs()) && IsTier(ThreeLlcs(), LLC_DSQ_BASE + 2) && AllowedWaits(ThreeLlcs(), PINNED, 0)
    ensures Queue(PINNED, LLC_DSQ_BASE + 2) == [Waiter(14, 0, {0, 2})]
  {
    ThreeLlcsFacts();
    assert 0 in Queue(PINNED, LLC_DSQ_BASE + 2)[0].cpus;
  }

  /** A run from boot reaches a state where CPU 0 refills although task 14, which it may
      run, waits in the queue of LLC 2: the head of LLC 1, pinned to CPU 1, wins the
      election. */
  lemma RunStrandsWork() returns (s: State)
    ensures var c := ThreeLlcs();
            && ValidConfig(c) && Reachable(c, s) && IsCpuValid(c, 0)
            && Queue(s.q, LLC_DSQ_BASE + 2) == [Waiter(14, 0, {0, 2})] && IsTier(c, LLC_DSQ_BASE + 2)
            && Choose(c, s.q, 0) == Refill && AllowedWaits(c, s.q, 0)
  {
    var c := ThreeLlcs();
    s := PinnedIsReached();
    ReachableInv(c, s);
    PinnedNear();
    PinnedNodes();
    PinnedElection(true);
    PinnedElection(false);
    PinnedWaits();
    ThreeLlcsFacts();
    RefillExactly(c, s.q, 0);
  }
}
