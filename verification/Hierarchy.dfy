/** The deferred queue hierarchy of main.bpf.c: queue identifiers, spill thresholds,
    where an overflowing task goes, and which queue a CPU draws from next. */
module Hierarchy {
  import opened Numbers
  import opened VirtualTime
  import opened Dsq

  const MAX_CPUS: int := 1024
  const SHARED_DSQ: int := MAX_CPUS
  const SCHED_DSQ: int := MAX_CPUS + 1
  const MAX_LLCS: int := 64
  const LLC_DSQ_BASE: int := MAX_CPUS + 2
  const MAX_NODES: int := 64
  const NODE_DSQ_BASE: int := LLC_DSQ_BASE + MAX_LLCS
  /** The kernel's local-queue identifiers lie above every scheduler-owned one. */
  const LOCAL_ON: int := 0xC000_0000_0000_0000

  /** The read-only data the loader fixes before attaching. */
  datatype Config = Config(
    nrCpuIds: nat, nrLlcs: nat, nrNodes: nat,
    cpuLlc: seq<nat>, cpuNode: seq<nat>, llcNode: seq<nat>,
    cacheOf: seq<int>, online: nat, serverMode: bool, stickyTasks: bool,
    sliceNs: nat, sliceMinNs: nat, sliceLagNs: nat,
    userschedEnabled: bool, userschedPid: int)

  /** What the loader and the kernel guarantee; the index bounds come from the
      topology export, and the fallback's PID is zero when the fallback is off. */
  predicate ValidConfig(c: Config) {
    && 0 < c.nrCpuIds <= MAX_CPUS
    && 0 < c.nrLlcs <= MAX_LLCS && 0 < c.nrNodes <= MAX_NODES
    && |c.cpuLlc| == |c.cpuNode| == |c.cacheOf| == MAX_CPUS && |c.llcNode| == MAX_LLCS
    && (forall i :: 0 <= i < MAX_CPUS ==> c.cpuLlc[i] < c.nrLlcs && c.cpuNode[i] < c.nrNodes)
    && c.sliceLagNs <= MAX_SLICE_LAG_NS && c.sliceNs < TWO64 && c.sliceMinNs < TWO64
    && (!c.userschedEnabled ==> c.userschedPid == 0)
  }

  predicate IsCpuValid(c: Config, cpu: int) {
    0 <= cpu < Min(c.nrCpuIds, MAX_CPUS)
  }

  function CpuToDsq(c: Config, cpu: int): int {
    if IsCpuValid(c, cpu) then cpu else SHARED_DSQ
  }

  function LlcToDsq(llc: int): int { LLC_DSQ_BASE + llc }

  function NodeToDsq(node: int): int { NODE_DSQ_BASE + node }

  function CpuLlc(c: Config, cpu: int): nat
    requires ValidConfig(c)
  {
    if IsCpuValid(c, cpu) then c.cpuLlc[cpu] else 0
  }

  function CpuNode(c: Config, cpu: int): nat
    requires ValidConfig(c)
  {
    if IsCpuValid(c, cpu) then c.cpuNode[cpu] else 0
  }

  function LlcNode(c: Config, llc: int): nat
    requires ValidConfig(c) && llc >= 0
  {
    if llc >= MAX_LLCS then 0 else c.llcNode[llc]
  }

  function CpuLlcDsq(c: Config, cpu: int): int
    requires ValidConfig(c)
  {
    LlcToDsq(CpuLlc(c, cpu))
  }

  function CpuNodeDsq(c: Config, cpu: int): int
    requires ValidConfig(c)
  {
    NodeToDsq(CpuNode(c, cpu))
  }

  predicate ShareCache(c: Config, a: int, b: int)
    requires ValidConfig(c)
  {
    a == b || (IsCpuValid(c, a) && IsCpuValid(c, b) && c.cacheOf[a] == c.cacheOf[b])
  }

  // ----------------------------------------------------------------- identifiers

  predicate IsCpuDsq(c: Config, id: int) { 0 <= id < c.nrCpuIds }
  predicate IsLlcDsq(c: Config, id: int) { LLC_DSQ_BASE <= id < LLC_DSQ_BASE + c.nrLlcs }
  predicate IsNodeDsq(c: Config, id: int) { NODE_DSQ_BASE <= id < NODE_DSQ_BASE + c.nrNodes }

  /** The queues of the deferred hierarchy. */
  predicate IsTier(c: Config, id: int) {
    IsCpuDsq(c, id) || IsLlcDsq(c, id) || IsNodeDsq(c, id) || id == SHARED_DSQ
  }

  /** How broad a tier is, from one CPU to the whole machine. */
  function Breadth(c: Config, id: int): nat {
    if IsCpuDsq(c, id) then 0 else if IsLlcDsq(c, id) then 1 else if IsNodeDsq(c, id) then 2 else 3
  }

  /** No identifier belongs to two ranges. */
  lemma TiersAreDisjoint(c: Config, id: int)
    requires ValidConfig(c)
    ensures !(IsCpuDsq(c, id)
              && (IsLlcDsq(c, id) || IsNodeDsq(c, id) || id == SHARED_DSQ || id == SCHED_DSQ || id >= LOCAL_ON))
    ensures !(IsLlcDsq(c, id) && (IsNodeDsq(c, id) || id == SHARED_DSQ || id == SCHED_DSQ || id >= LOCAL_ON))
    ensures !(IsNodeDsq(c, id) && (id == SHARED_DSQ || id == SCHED_DSQ || id >= LOCAL_ON))
  {
  }

  // ------------------------------------------------------------------- thresholds

  function CpuSpillThreshold(): nat { 1 }

  function SpillThreshold(domains: nat, online: nat, serverMode: bool): nat {
    var n := Max(domains, 1);
    var perDomain := Max((online + n - 1) / n, 1);
    if serverMode then Max(perDomain / 2, 1) else perDomain
  }

  function LlcSpillThreshold(c: Config): nat { SpillThreshold(c.nrLlcs, c.online, c.serverMode) }

  function NodeSpillThreshold(c: Config): nat { SpillThreshold(c.nrNodes, c.online, c.serverMode) }

  /** Where a task goes when no idle CPU was found. */
  function OverflowDsq(c: Config, q: Queues, prevCpu: int): int
    requires ValidConfig(c)
  {
    if !IsCpuValid(c, prevCpu) then SHARED_DSQ
    else if Depth(q, CpuToDsq(c, prevCpu)) < CpuSpillThreshold() then CpuToDsq(c, prevCpu)
    else if Depth(q, CpuLlcDsq(c, prevCpu)) < LlcSpillThreshold(c) then CpuLlcDsq(c, prevCpu)
    else if c.nrNodes > 1 && Depth(q, CpuNodeDsq(c, prevCpu)) < NodeSpillThreshold(c) then CpuNodeDsq(c, prevCpu)
    else SHARED_DSQ
  }

  function QueuePressure(c: Config, q: Queues, cpu: int): nat
    requires ValidConfig(c)
  {
    if !IsCpuValid(c, cpu) then Depth(q, SHARED_DSQ)
    else Depth(q, SHARED_DSQ) + Depth(q, CpuToDsq(c, cpu)) + Depth(q, CpuLlcDsq(c, cpu))
         + if c.nrNodes > 1 then Depth(q, CpuNodeDsq(c, cpu)) else 0
  }

  /** The overflow target always has room: only the shared queue is unbounded. */
  ghost predicate HasRoom(c: Config, q: Queues, id: int) {
    && (IsCpuDsq(c, id) ==> Depth(q, id) < CpuSpillThreshold())
    && (IsLlcDsq(c, id) ==> Depth(q, id) < LlcSpillThreshold(c))
    && (IsNodeDsq(c, id) ==> c.nrNodes > 1 && Depth(q, id) < NodeSpillThreshold(c))
  }

  lemma OverflowHasRoom(c: Config, q: Queues, prevCpu: int)
    requires ValidConfig(c)
    ensures IsTier(c, OverflowDsq(c, q, prevCpu)) && HasRoom(c, q, OverflowDsq(c, q, prevCpu))
  {
  }

  /** On the same queues the server profile never picks a narrower tier than the
      desktop profile. */
  lemma ServerSpillsNoLater(c: Config, q: Queues, prevCpu: int)
    requires ValidConfig(c)
    ensures Breadth(c, OverflowDsq(c.(serverMode := false), q, prevCpu))
            <= Breadth(c, OverflowDsq(c.(serverMode := true), q, prevCpu))
  {
    var d, s := c.(serverMode := false), c.(serverMode := true);
    assert ValidConfig(d) && ValidConfig(s);
    assert LlcSpillThreshold(s) <= LlcSpillThreshold(d);
    assert NodeSpillThreshold(s) <= NodeSpillThreshold(d);
  }

  // ----------------------------------------------------------------- total capacity

  /** Waiters in the `n` queues from `base` on. */
  function Sum(q: Queues, base: int, n: nat): nat {
    if n == 0 then 0 else Sum(q, base, n - 1) + Depth(q, base + n - 1)
  }

  lemma {:induction false} SumAtMost(q: Queues, base: int, n: nat, cap: nat)
    requires forall id :: base <= id < base + n ==> Depth(q, id) <= cap
    ensures Sum(q, base, n) <= n * cap
  {
    if n == 0 {
    } else {
      SumAtMost(q, base, n - 1, cap);
      assert n * cap == (n - 1) * cap + cap;
    }
  }

  /** Rounded-up shares of the online CPUs overshoot by less than one per domain. */
  lemma SharesFit(domains: nat, online: nat, serverMode: bool)
    requires domains >= 1 && online >= 1
    ensures domains * SpillThreshold(domains, online, serverMode) <= online + domains - 1
  {
    var share := (online + domains - 1) / domains;
    QuotientAtLeast(online + domains - 1, domains, 1);
    assert domains * share <= online + domains - 1;
    MulMonotone(SpillThreshold(domains, online, serverMode), share, domains);
  }

  ghost predicate Capped(c: Config, q: Queues) {
    && (forall id :: IsCpuDsq(c, id) ==> Depth(q, id) <= CpuSpillThreshold())
    && (forall id :: IsLlcDsq(c, id) ==> Depth(q, id) <= LlcSpillThreshold(c))
    && (forall id :: IsNodeDsq(c, id) ==> Depth(q, id) <= NodeSpillThreshold(c))
    && (c.nrNodes <= 1 ==> forall id :: IsNodeDsq(c, id) ==> Queue(q, id) == [])
  }

  /** Everything that waits outside the shared queue is bounded by the machine. */
  lemma NarrowTiersAreBounded(c: Config, q: Queues)
    requires ValidConfig(c) && Capped(c, q) && c.online >= 1
    ensures Sum(q, 0, c.nrCpuIds) + Sum(q, LLC_DSQ_BASE, c.nrLlcs) + Sum(q, NODE_DSQ_BASE, c.nrNodes)
            <= c.nrCpuIds + (c.online + c.nrLlcs - 1) + (c.online + c.nrNodes - 1)
  {
    SumAtMost(q, 0, c.nrCpuIds, CpuSpillThreshold());
    SumAtMost(q, LLC_DSQ_BASE, c.nrLlcs, LlcSpillThreshold(c));
    SumAtMost(q, NODE_DSQ_BASE, c.nrNodes, NodeSpillThreshold(c));
    SharesFit(c.nrLlcs, c.online, c.serverMode);
    SharesFit(c.nrNodes, c.online, c.serverMode);
  }

  // ------------------------------------------------------------------ own tiers

  /** The four tiers of a CPU, nearest first; the node tier only on NUMA machines. */
  function OwnTiers(c: Config, cpu: int): seq<int>
    requires ValidConfig(c)
  {
    [CpuToDsq(c, cpu), CpuLlcDsq(c, cpu)] + (if c.nrNodes > 1 then [CpuNodeDsq(c, cpu)] else []) + [SHARED_DSQ]
  }

  /** The tier with the earliest head, the nearer one on a tie; -1 when all are empty. */
  function Earliest(q: Queues, tiers: seq<int>): (r: int)
    ensures r == -1 || Queue(q, r) != []
  {
    if tiers == [] then -1
    else
      var best, t := Earliest(q, tiers[..|tiers| - 1]), tiers[|tiers| - 1];
      if HeadEarlier(q, t, best) then t else best
  }

  /** The first tier from which some waiter may run on `cpu`, or -1. */
  function FirstMovable(q: Queues, tiers: seq<int>, cpu: int): (r: int)
    ensures r == -1 || CanMove(q, r, cpu)
  {
    if tiers == [] then -1
    else if CanMove(q, tiers[0], cpu) then tiers[0]
    else FirstMovable(q, tiers[1..], cpu)
  }

  /** The tiers of a CPU widen strictly, from its own queue to the shared one, and each
      belongs to the CPU: its LLC, its node. */
  lemma OwnTiersWiden(c: Config, cpu: int)
    requires ValidConfig(c) && IsCpuValid(c, cpu)
    ensures var tiers := OwnTiers(c, cpu);
            && tiers[0] == cpu && tiers[|tiers| - 1] == SHARED_DSQ
            && (forall i, j :: 0 <= i < j < |tiers| ==> Breadth(c, tiers[i]) < Breadth(c, tiers[j]))
            && (forall i :: 0 <= i < |tiers| && IsLlcDsq(c, tiers[i]) ==> tiers[i] - LLC_DSQ_BASE == c.cpuLlc[cpu])
            && (forall i :: 0 <= i < |tiers| && IsNodeDsq(c, tiers[i]) ==> tiers[i] - NODE_DSQ_BASE == c.cpuNode[cpu])
            && |tiers| == if c.nrNodes > 1 then 4 else 3
  {
  }

  /** A tier at its threshold; the shared queue never is. */
  predicate IsFull(c: Config, q: Queues, id: int) {
    || (IsCpuDsq(c, id) && Depth(q, id) >= 1)
    || (IsLlcDsq(c, id) && Depth(q, id) >= LlcSpillThreshold(c))
    || (IsNodeDsq(c, id) && Depth(q, id) >= NodeSpillThreshold(c))
  }

  /** The nearest of a CPU's tiers that is not full. */
  ghost predicate IsNearest(c: Config, q: Queues, cpu: int, id: int)
    requires ValidConfig(c)
  {
    exists k :: 0 <= k < |OwnTiers(c, cpu)| && OwnTiers(c, cpu)[k] == id && !IsFull(c, q, id)
                && forall j :: 0 <= j < k ==> IsFull(c, q, OwnTiers(c, cpu)[j])
  }

  /** A task overflows to the nearest tier with room, so to the shared queue exactly when
      every narrower one is full. */
  lemma OverflowIsNearest(c: Config, q: Queues, cpu: int)
    requires ValidConfig(c)
    ensures IsCpuValid(c, cpu) ==> IsNearest(c, q, cpu, OverflowDsq(c, q, cpu))
    ensures !IsCpuValid(c, cpu) ==> OverflowDsq(c, q, cpu) == SHARED_DSQ
    ensures IsCpuValid(c, cpu) ==>
              (OverflowDsq(c, q, cpu) == SHARED_DSQ
               <==> forall id :: id in OwnTiers(c, cpu) && id != SHARED_DSQ ==> IsFull(c, q, id))
  {
    if IsCpuValid(c, cpu) {
      var tiers, id := OwnTiers(c, cpu), OverflowDsq(c, q, cpu);
      var k := if id == cpu then 0 else if id == CpuLlcDsq(c, cpu) then 1
               else if id == SHARED_DSQ then |tiers| - 1 else 2;
      assert tiers[k] == id && !IsFull(c, q, id);
      assert forall j :: 0 <= j < k ==> IsFull(c, q, tiers[j]);
      assert forall j :: 0 <= j < |tiers| - 1 ==> tiers[j] in tiers && tiers[j] != SHARED_DSQ;
    }
  }

  function DepthOf(q: Queues, ids: seq<int>): nat {
    if ids == [] then 0 else Depth(q, ids[0]) + DepthOf(q, ids[1..])
  }

  /** The pressure on a CPU is everything that waits in its own tiers. */
  lemma PressureIsDepth(c: Config, q: Queues, cpu: int)
    requires ValidConfig(c)
    ensures QueuePressure(c, q, cpu) == DepthOf(q, if IsCpuValid(c, cpu) then OwnTiers(c, cpu) else [SHARED_DSQ])
  {
    if IsCpuValid(c, cpu) {
      var a, b, n := CpuToDsq(c, cpu), CpuLlcDsq(c, cpu), CpuNodeDsq(c, cpu);
      DepthOfTwo(q, a, b);
      DepthOfTwo(q, n, SHARED_DSQ);
      DepthConcat(q, [a, b], if c.nrNodes > 1 then [n, SHARED_DSQ] else [SHARED_DSQ]);
      assert OwnTiers(c, cpu) == [a, b] + if c.nrNodes > 1 then [n, SHARED_DSQ] else [SHARED_DSQ];
    }
  }

  lemma DepthOfTwo(q: Queues, a: int, b: int)
    ensures DepthOf(q, [a, b]) == Depth(q, a) + Depth(q, b)
  {
    assert [a, b][1..] == [b];
    assert DepthOf(q, [b]) == Depth(q, b) + DepthOf(q, [b][1..]);
    assert [b][1..] == [];
  }

  lemma {:induction false} DepthConcat(q: Queues, a: seq<int>, b: seq<int>)
    ensures DepthOf(q, a + b) == DepthOf(q, a) + DepthOf(q, b)
  {
    if a == [] {
      assert a + b == b;
    } else {
      assert (a + b)[1..] == a[1..] + b;
      DepthConcat(q, a[1..], b);
    }
  }

  /** The desktop threshold is the least share that covers the online CPUs with equal
      domains; the server threshold is half of it, rounded down, and at least one. */
  lemma ThresholdIsShare(domains: nat, online: nat)
    requires domains >= 1 && online >= 1
    ensures var t := SpillThreshold(domains, online, false);
            t >= 1 && (t - 1) * domains < online <= t * domains
    ensures var t, s := SpillThreshold(domains, online, false), SpillThreshold(domains, online, true);
            s >= 1 && t <= 2 * s + 1 && (s == 1 || 2 * s <= t)
  {
    var share := (online + domains - 1) / domains;
    QuotientAtLeast(online + domains - 1, domains, 1);
    QuotientAtLeast(online + domains - 1, domains, share);
    QuotientAtLeast(online + domains - 1, domains, share + 1);
    assert (share + 1) * domains == share * domains + domains;
    assert (share - 1) * domains == share * domains - domains;
  }

  // ------------------------------------------------------------------- stealing

  /** Remote per-CPU queues below `n` whose head may run on `cpu`, in CPU order. */
  function CpuVictims(c: Config, q: Queues, cpu: int, sameLlc: bool, n: nat): seq<int>
    requires ValidConfig(c)
  {
    if n == 0 then []
    else
      var before, v := CpuVictims(c, q, cpu, sameLlc, n - 1), n - 1;
      var id := CpuToDsq(c, v);
      if v == cpu || (sameLlc && !ShareCache(c, cpu, v)) then before
      else if Queue(q, id) == [] || cpu !in Queue(q, id)[0].cpus then before
      else before + [id]
  }

  /** The domain `i` steps around the ring of `n` domains from `start`. */
  function Rotate(start: nat, i: nat, n: nat): (v: nat)
    requires start < n && i < n
    ensures v < n
  {
    if start + i >= n then start + i - n else start + i
  }

  function LlcVictims(c: Config, cpu: int, sameNode: bool, k: nat): seq<int>
    requires ValidConfig(c) && k < c.nrLlcs
  {
    if k == 0 then []
    else
      var before, v := LlcVictims(c, cpu, sameNode, k - 1), Rotate(CpuLlc(c, cpu), k, c.nrLlcs);
      if sameNode && LlcNode(c, v) != CpuNode(c, cpu) then before else before + [LlcToDsq(v)]
  }

  function NodeVictims(c: Config, cpu: int, k: nat): seq<int>
    requires ValidConfig(c) && k < c.nrNodes
  {
    if k == 0 then [] else NodeVictims(c, cpu, k - 1) + [NodeToDsq(Rotate(CpuNode(c, cpu), k, c.nrNodes))]
  }

  /** A steal tries only the best victim: its queue, or -1. */
  function Movable(q: Queues, best: int, cpu: int): (r: int)
    ensures r == -1 || CanMove(q, r, cpu)
  {
    if best != -1 && CanMove(q, best, cpu) then best else -1
  }

  function StealCpu(c: Config, q: Queues, cpu: int, sameLlc: bool): (r: int)
    requires ValidConfig(c)
    ensures r == -1 || CanMove(q, r, cpu)
  {
    if !IsCpuValid(c, cpu) then -1
    else Movable(q, Scan(q, CpuVictims(c, q, cpu, sameLlc, c.nrCpuIds)), cpu)
  }

  function StealLlc(c: Config, q: Queues, cpu: int, sameNode: bool): (r: int)
    requires ValidConfig(c)
    ensures r == -1 || CanMove(q, r, cpu)
  {
    if !IsCpuValid(c, cpu) || c.nrLlcs <= 1 then -1
    else Movable(q, Scan(q, LlcVictims(c, cpu, sameNode, c.nrLlcs - 1)), cpu)
  }

  function StealNode(c: Config, q: Queues, cpu: int): (r: int)
    requires ValidConfig(c)
    ensures r == -1 || CanMove(q, r, cpu)
  {
    if !IsCpuValid(c, cpu) || c.nrNodes <= 1 then -1
    else Movable(q, Scan(q, NodeVictims(c, cpu, c.nrNodes - 1)), cpu)
  }

  datatype Pick = Own(id: int) | RemoteCpu(id: int) | RemoteLlc(id: int) | RemoteNode(id: int) | Refill

  /** The queue a CPU draws from, in the order `cognis_dispatch` tries them. */
  function Choose(c: Config, q: Queues, cpu: int): (r: Pick)
    requires ValidConfig(c)
    ensures r != Refill ==> CanMove(q, r.id, cpu)
  {
    var best := Earliest(q, OwnTiers(c, cpu));
    var own := if best != -1 && CanMove(q, best, cpu) then best else FirstMovable(q, OwnTiers(c, cpu), cpu);
    if own != -1 then Own(own)
    else if StealCpu(c, q, cpu, true) != -1 then RemoteCpu(StealCpu(c, q, cpu, true))
    else if StealCpu(c, q, cpu, false) != -1 then RemoteCpu(StealCpu(c, q, cpu, false))
    else if StealLlc(c, q, cpu, true) != -1 then RemoteLlc(StealLlc(c, q, cpu, true))
    else if StealNode(c, q, cpu) != -1 then RemoteNode(StealNode(c, q, cpu))
    else if StealLlc(c, q, cpu, false) != -1 then RemoteLlc(StealLlc(c, q, cpu, false))
    else Refill
  }

  // ------------------------------------------------------ the rotation is complete

  /** Every other domain is visited at exactly one step of the rotation, and the
      CPU's own domain at none; each step goes to the next number, the last to the first. */
  lemma RotationVisitsOthersOnce(start: nat, n: nat, v: nat)
    requires start < n && v < n
    ensures v != start ==> exists i :: 0 < i < n && Rotate(start, i, n) == v
    ensures forall i :: 0 < i < n ==> Rotate(start, i, n) != start
    ensures forall i, j :: 0 < i < j < n ==> Rotate(start, i, n) != Rotate(start, j, n)
    ensures Rotate(start, 0, n) == start
    ensures forall i :: 0 < i < n ==>
              Rotate(start, i, n) == if Rotate(start, i - 1, n) == n - 1 then 0 else Rotate(start, i - 1, n) + 1
  {
    if v != start {
      var i := if v >= start then v - start else v + n - start;
      assert 0 < i < n && Rotate(start, i, n) == v;
    }
  }

  lemma {:induction false} LlcVictimsListed(c: Config, cpu: int, sameNode: bool, k: nat, i: nat)
    requires ValidConfig(c) && 0 < i <= k < c.nrLlcs
    requires !sameNode || LlcNode(c, Rotate(CpuLlc(c, cpu), i, c.nrLlcs)) == CpuNode(c, cpu)
    ensures LlcToDsq(Rotate(CpuLlc(c, cpu), i, c.nrLlcs)) in LlcVictims(c, cpu, sameNode, k)
  {
    if i < k {
      LlcVictimsListed(c, cpu, sameNode, k - 1, i);
    }
  }

  lemma {:induction false} NodeVictimsListed(c: Config, cpu: int, k: nat, i: nat)
    requires ValidConfig(c) && 0 < i <= k < c.nrNodes
    ensures NodeToDsq(Rotate(CpuNode(c, cpu), i, c.nrNodes)) in NodeVictims(c, cpu, k)
  {
    if i < k {
      NodeVictimsListed(c, cpu, k - 1, i);
    }
  }

  lemma {:induction false} CpuVictimsListed(c: Config, q: Queues, cpu: int, sameLlc: bool, n: nat, v: nat)
    requires ValidConfig(c) && v < n <= c.nrCpuIds && v != cpu && (sameLlc ==> ShareCache(c, cpu, v))
    requires Queue(q, v) != [] && cpu in Queue(q, v)[0].cpus
    ensures v in CpuVictims(c, q, cpu, sameLlc, n)
  {
    if v == n - 1 {
    } else {
      CpuVictimsListed(c, q, cpu, sameLlc, n - 1, v);
    }
  }

  /** Victims of a steal are queues of other domains of the right kind. */
  lemma {:induction false} LlcVictimsAreRemote(c: Config, cpu: int, sameNode: bool, k: nat)
    requires ValidConfig(c) && k < c.nrLlcs
    ensures forall x :: x in LlcVictims(c, cpu, sameNode, k) ==> IsLlcDsq(c, x) && x != CpuLlcDsq(c, cpu)
  {
    if k == 0 {
    } else {
      LlcVictimsAreRemote(c, cpu, sameNode, k - 1);
    }
  }

  lemma {:induction false} NodeVictimsAreRemote(c: Config, cpu: int, k: nat)
    requires ValidConfig(c) && k < c.nrNodes
    ensures forall x :: x in NodeVictims(c, cpu, k) ==> IsNodeDsq(c, x) && x != CpuNodeDsq(c, cpu)
  {
    if k == 0 {
    } else {
      NodeVictimsAreRemote(c, cpu, k - 1);
    }
  }

  lemma {:induction false} CpuVictimsAreRemote(c: Config, q: Queues, cpu: int, sameLlc: bool, n: nat)
    requires ValidConfig(c) && n <= c.nrCpuIds
    ensures forall x :: x in CpuVictims(c, q, cpu, sameLlc, n)
              ==> IsCpuDsq(c, x) && x < n && x != cpu && Queue(q, x) != [] && cpu in Queue(q, x)[0].cpus
                  && (sameLlc ==> ShareCache(c, cpu, x))
  {
    if n == 0 {
    } else {
      CpuVictimsAreRemote(c, q, cpu, sameLlc, n - 1);
    }
  }

  // ----------------------------------------------------------------- moving a task

  /** The waiter a move takes: the first one allowed on the CPU. */
  function Taken(q: Queues, id: int, cpu: int): Waiter
    requires CanMove(q, id, cpu)
  {
    FirstAllowedIsFirst(Queue(q, id), cpu);
    Queue(q, id)[FirstAllowed(Queue(q, id), cpu)]
  }

  function Append(q: Queues, id: int, w: Waiter): Queues {
    q[id := Queue(q, id) + [w]]
  }

  /** `scx_bpf_dsq_move_to_local`: from queue `id` to the tail of the CPU's local queue. */
  function Moved(q: Queues, id: int, cpu: int): Queues
    requires CanMove(q, id, cpu)
  {
    FirstAllowedIsFirst(Queue(q, id), cpu);
    Append(q[id := Without(Queue(q, id), FirstAllowed(Queue(q, id), cpu))], LOCAL_ON + cpu, Taken(q, id, cpu))
  }
}
