/** What `cognis_dispatch` guarantees about the queue it draws from: no idle CPU
    beside runnable work, the earliest deadline first, and complete steal rotations. */
module WorkConservation {
  import opened Dsq
  import opened Hierarchy

  /** `dsq_backlog_exists` */
  ghost predicate Backlog(c: Config, q: Queues) {
    exists id :: IsTier(c, id) && Queue(q, id) != []
  }

  ghost predicate AllowedIn(q: Queues, id: int, cpu: int) {
    forall i :: 0 <= i < Depth(q, id) ==> cpu in Queue(q, id)[i].cpus
  }

  /** Every task of the hierarchy may run on `cpu`. */
  ghost predicate AllAllowed(c: Config, q: Queues, cpu: int) {
    forall id :: IsTier(c, id) ==> AllowedIn(q, id, cpu)
  }

  lemma MovableIff(q: Queues, id: int, cpu: int)
    ensures CanMove(q, id, cpu) <==> exists i :: 0 <= i < Depth(q, id) && cpu in Queue(q, id)[i].cpus
  {
    FirstAllowedIsFirst(Queue(q, id), cpu);
  }

  lemma AllowedMoves(q: Queues, id: int, cpu: int)
    requires AllowedIn(q, id, cpu) && Queue(q, id) != []
    ensures CanMove(q, id, cpu) && FirstAllowed(Queue(q, id), cpu) == 0 && Taken(q, id, cpu) == Queue(q, id)[0]
  {
    assert cpu in Queue(q, id)[0].cpus;
  }

  // -------------------------------------------------------------------- own tiers

  ghost predicate EarliestOf(q: Queues, tiers: seq<int>, r: int) {
    && Queue(q, r) != []
    && (forall i :: 0 <= i < |tiers| && Queue(q, tiers[i]) != [] ==> !HeadEarlier(q, tiers[i], r))
    && exists k :: 0 <= k < |tiers| && tiers[k] == r
                   && forall i :: 0 <= i < k && Queue(q, tiers[i]) != [] ==> HeadEarlier(q, r, tiers[i])
  }

  lemma {:induction false} EarliestIsEarliest(q: Queues, tiers: seq<int>)
    requires forall i :: 0 <= i < |tiers| ==> tiers[i] >= 0
    ensures Earliest(q, tiers) == -1 <==> forall i :: 0 <= i < |tiers| ==> Queue(q, tiers[i]) == []
    ensures Earliest(q, tiers) != -1 ==> EarliestOf(q, tiers, Earliest(q, tiers))
  {
    if tiers == [] {
    } else {
      var before := tiers[..|tiers| - 1];
      EarliestIsEarliest(q, before);
      var best, r := Earliest(q, before), Earliest(q, tiers);
      assert forall i :: 0 <= i < |before| ==> tiers[i] == before[i];
      if r != -1 {
        if best != -1 && r == best {
          var k :| 0 <= k < |before| && before[k] == r
                   && forall i :: 0 <= i < k && Queue(q, before[i]) != [] ==> HeadEarlier(q, r, before[i]);
          assert tiers[k] == r;
        } else {
          assert tiers[|tiers| - 1] == r;
        }
      }
    }
  }

  lemma {:induction false} FirstMovableIsComplete(q: Queues, tiers: seq<int>, cpu: int)
    requires forall i :: 0 <= i < |tiers| ==> tiers[i] >= 0
    ensures FirstMovable(q, tiers, cpu) == -1 <==> forall i :: 0 <= i < |tiers| ==> !CanMove(q, tiers[i], cpu)
    ensures FirstMovable(q, tiers, cpu) != -1 ==> FirstMovable(q, tiers, cpu) in tiers
  {
    if tiers != [] && !CanMove(q, tiers[0], cpu) {
      FirstMovableIsComplete(q, tiers[1..], cpu);
      assert forall i :: 1 <= i < |tiers| ==> tiers[i] == tiers[1..][i - 1];
    }
  }

  /** What `Choose` takes from its own tiers. */
  function OwnChoice(c: Config, q: Queues, cpu: int): int
    requires ValidConfig(c)
  {
    var best := Earliest(q, OwnTiers(c, cpu));
    if best != -1 && CanMove(q, best, cpu) then best else FirstMovable(q, OwnTiers(c, cpu), cpu)
  }

  lemma OwnTiersAreTiers(c: Config, cpu: int)
    requires ValidConfig(c)
    ensures forall i :: 0 <= i < |OwnTiers(c, cpu)| ==> IsTier(c, OwnTiers(c, cpu)[i]) && OwnTiers(c, cpu)[i] >= 0
  {
  }

  lemma OwnChoiceIsComplete(c: Config, q: Queues, cpu: int)
    requires ValidConfig(c)
    ensures OwnChoice(c, q, cpu) == -1
            <==> forall i :: 0 <= i < |OwnTiers(c, cpu)| ==> !CanMove(q, OwnTiers(c, cpu)[i], cpu)
    ensures OwnChoice(c, q, cpu) != -1 ==> OwnChoice(c, q, cpu) in OwnTiers(c, cpu)
  {
    var tiers := OwnTiers(c, cpu);
    OwnTiersAreTiers(c, cpu);
    FirstMovableIsComplete(q, tiers, cpu);
    EarliestIsEarliest(q, tiers);
    var best := Earliest(q, tiers);
    if best != -1 {
      var k :| 0 <= k < |tiers| && tiers[k] == best;
    }
  }

  /** A dispatch served by its own tiers takes the least deadline of everything
      waiting in the four of them, the nearer tier winning a tie. */
  lemma EarliestDeadlineFirst(c: Config, q: Queues, cpu: int, id: int, i: nat)
    requires ValidConfig(c) && AllAllowed(c, q, cpu)
    requires forall t :: IsTier(c, t) ==> Sorted(Queue(q, t))
    requires id in OwnTiers(c, cpu) && i < Depth(q, id)
    ensures Choose(c, q, cpu).Own? && EarliestOf(q, OwnTiers(c, cpu), Choose(c, q, cpu).id)
    ensures Taken(q, Choose(c, q, cpu).id, cpu).vtime <= Queue(q, id)[i].vtime
  {
    var tiers := OwnTiers(c, cpu);
    OwnTiersAreTiers(c, cpu);
    EarliestIsEarliest(q, tiers);
    var k :| 0 <= k < |tiers| && tiers[k] == id;
    assert IsTier(c, id);
    var best := Earliest(q, tiers);
    var m :| 0 <= m < |tiers| && tiers[m] == best;
    assert AllowedIn(q, best, cpu);
    AllowedMoves(q, best, cpu);
    assert !HeadEarlier(q, tiers[k], best);
    assert Queue(q, id)[0].vtime <= Queue(q, id)[i].vtime;
  }

  // ------------------------------------------------------------------ work conservation

  lemma CpuWorkIsStolen(c: Config, q: Queues, cpu: int, id: int)
    requires ValidConfig(c) && IsCpuValid(c, cpu) && IsCpuDsq(c, id) && id != cpu
    requires Queue(q, id) != [] && cpu in Queue(q, id)[0].cpus
    ensures StealCpu(c, q, cpu, false) != -1
  {
    var ids := CpuVictims(c, q, cpu, false, c.nrCpuIds);
    CpuVictimsListed(c, q, cpu, false, c.nrCpuIds, id);
    CpuVictimsAreRemote(c, q, cpu, false, c.nrCpuIds);
    ScanFinds(q, ids, id);
    MovableIff(q, Scan(q, ids), cpu);
    assert cpu in Queue(q, Scan(q, ids))[0].cpus;
  }

  lemma LlcWorkIsStolen(c: Config, q: Queues, cpu: int, id: int)
    requires ValidConfig(c) && IsCpuValid(c, cpu) && AllAllowed(c, q, cpu)
    requires IsLlcDsq(c, id) && id != CpuLlcDsq(c, cpu) && Queue(q, id) != []
    ensures StealLlc(c, q, cpu, false) != -1
  {
    var my, v := CpuLlc(c, cpu), id - LLC_DSQ_BASE;
    var ids := LlcVictims(c, cpu, false, c.nrLlcs - 1);
    RotationVisitsOthersOnce(my, c.nrLlcs, v);
    var i :| 0 < i < c.nrLlcs && Rotate(my, i, c.nrLlcs) == v;
    LlcVictimsListed(c, cpu, false, c.nrLlcs - 1, i);
    LlcVictimsAreRemote(c, cpu, false, c.nrLlcs - 1);
    ScanFinds(q, ids, id);
    AllowedMoves(q, Scan(q, ids), cpu);
  }

  lemma NodeWorkIsStolen(c: Config, q: Queues, cpu: int, id: int)
    requires ValidConfig(c) && IsCpuValid(c, cpu) && AllAllowed(c, q, cpu)
    requires IsNodeDsq(c, id) && id != CpuNodeDsq(c, cpu) && Queue(q, id) != []
    ensures StealNode(c, q, cpu) != -1
  {
    var my, v := CpuNode(c, cpu), id - NODE_DSQ_BASE;
    var ids := NodeVictims(c, cpu, c.nrNodes - 1);
    RotationVisitsOthersOnce(my, c.nrNodes, v);
    var i :| 0 < i < c.nrNodes && Rotate(my, i, c.nrNodes) == v;
    NodeVictimsListed(c, cpu, c.nrNodes - 1, i);
    NodeVictimsAreRemote(c, cpu, c.nrNodes - 1);
    ScanFinds(q, ids, id);
    AllowedMoves(q, Scan(q, ids), cpu);
  }

  /** Whatever a dispatch draws from is a queue of the hierarchy. */
  lemma ChosenIsTier(c: Config, q: Queues, cpu: int)
    requires ValidConfig(c)
    ensures Choose(c, q, cpu) != Refill ==> IsTier(c, Choose(c, q, cpu).id) && Queue(q, Choose(c, q, cpu).id) != []
    ensures Choose(c, q, cpu).RemoteCpu? ==> IsCpuDsq(c, Choose(c, q, cpu).id)
    ensures Choose(c, q, cpu).RemoteLlc? ==> IsLlcDsq(c, Choose(c, q, cpu).id)
    ensures Choose(c, q, cpu).RemoteNode? ==> IsNodeDsq(c, Choose(c, q, cpu).id)
  {
    match Choose(c, q, cpu)
    case Refill =>
    case Own(id) =>
      OwnChoiceIsComplete(c, q, cpu);
      OwnTiersAreTiers(c, cpu);
    case RemoteCpu(id) =>
      StolenCpuIsTier(c, q, cpu, true);
      StolenCpuIsTier(c, q, cpu, false);
    case RemoteLlc(id) =>
      StolenLlcIsTier(c, q, cpu, true);
      StolenLlcIsTier(c, q, cpu, false);
    case RemoteNode(id) =>
      StolenNodeIsTier(c, q, cpu);
  }

  lemma StolenCpuIsTier(c: Config, q: Queues, cpu: int, sameLlc: bool)
    requires ValidConfig(c)
    ensures StealCpu(c, q, cpu, sameLlc) != -1 ==> IsCpuDsq(c, StealCpu(c, q, cpu, sameLlc))
  {
    CpuVictimsAreRemote(c, q, cpu, sameLlc, c.nrCpuIds);
    ScanPicksBest(q, CpuVictims(c, q, cpu, sameLlc, c.nrCpuIds));
  }

  lemma StolenLlcIsTier(c: Config, q: Queues, cpu: int, sameNode: bool)
    requires ValidConfig(c)
    ensures StealLlc(c, q, cpu, sameNode) != -1 ==> IsLlcDsq(c, StealLlc(c, q, cpu, sameNode))
  {
    LlcVictimsAreRemote(c, cpu, sameNode, c.nrLlcs - 1);
    ScanPicksBest(q, LlcVictims(c, cpu, sameNode, c.nrLlcs - 1));
  }

  lemma StolenNodeIsTier(c: Config, q: Queues, cpu: int)
    requires ValidConfig(c)
    ensures StealNode(c, q, cpu) != -1 ==> IsNodeDsq(c, StealNode(c, q, cpu))
  {
    NodeVictimsAreRemote(c, cpu, c.nrNodes - 1);
    ScanPicksBest(q, NodeVictims(c, cpu, c.nrNodes - 1));
  }

  /** With unrestricted tasks a CPU falls through to refilling its current task
      exactly when nothing waits anywhere in the hierarchy. */
  lemma DispatchIsWorkConserving(c: Config, q: Queues, cpu: int)
    requires ValidConfig(c) && IsCpuValid(c, cpu) && Capped(c, q) && AllAllowed(c, q, cpu)
    ensures Choose(c, q, cpu) == Refill <==> !Backlog(c, q)
  {
    ChosenIsTier(c, q, cpu);
    if Backlog(c, q) {
      var id :| IsTier(c, id) && Queue(q, id) != [];
      AllowedMoves(q, id, cpu);
      OwnChoiceIsComplete(c, q, cpu);
      if id in OwnTiers(c, cpu) {
      } else if IsCpuDsq(c, id) {
        CpuWorkIsStolen(c, q, cpu, id);
      } else if IsLlcDsq(c, id) {
        LlcWorkIsStolen(c, q, cpu, id);
      } else {
        NodeWorkIsStolen(c, q, cpu, id);
      }
    }
  }

  /** With arbitrary affinities a CPU still finds work whenever a task it may run
      waits in one of its own tiers or in any per-CPU queue: such a queue holds one
      task, so looking at the head is looking at everything. */
  lemma DispatchFindsAllowedWork(c: Config, q: Queues, cpu: int, id: int, i: nat)
    requires ValidConfig(c) && IsCpuValid(c, cpu) && Capped(c, q)
    requires id in OwnTiers(c, cpu) || IsCpuDsq(c, id)
    requires i < Depth(q, id) && cpu in Queue(q, id)[i].cpus
    ensures Choose(c, q, cpu) != Refill
  {
    MovableIff(q, id, cpu);
    OwnChoiceIsComplete(c, q, cpu);
    if id in OwnTiers(c, cpu) {
      var k :| 0 <= k < |OwnTiers(c, cpu)| && OwnTiers(c, cpu)[k] == id;
    } else {
      CpuWorkIsStolen(c, q, cpu, id);
    }
  }

  // ------------------------------------------------------ one step of a rotation

  /** The LLC queue visited at step `i` of the rotation. */
  function LlcAt(c: Config, cpu: int, i: nat): int
    requires ValidConfig(c) && i < c.nrLlcs
  {
    LlcToDsq(Rotate(CpuLlc(c, cpu), i, c.nrLlcs))
  }

  /** Step `i` visits an LLC the steal may use, with somebody waiting. */
  predicate LlcRuns(c: Config, q: Queues, cpu: int, sameNode: bool, i: nat)
    requires ValidConfig(c) && i < c.nrLlcs
  {
    && (!sameNode || LlcNode(c, Rotate(CpuLlc(c, cpu), i, c.nrLlcs)) == CpuNode(c, cpu))
    && Queue(q, LlcAt(c, cpu, i)) != []
  }

  /** The winner among the first `k` LLCs of the rotation, or -1. */
  function LlcBest(c: Config, q: Queues, cpu: int, sameNode: bool, k: int): (r: int)
    requires ValidConfig(c) && 0 <= k < c.nrLlcs
    ensures r == -1 || Queue(q, r) != []
  {
    Scan(q, LlcVictims(c, cpu, sameNode, k))
  }

  lemma LlcBestStart(c: Config, q: Queues, cpu: int, sameNode: bool)
    requires ValidConfig(c)
    ensures LlcBest(c, q, cpu, sameNode, 0) == -1
  {
  }

  lemma LlcScanStep(c: Config, q: Queues, cpu: int, sameNode: bool, k: nat)
    requires ValidConfig(c) && 0 < k < c.nrLlcs
    ensures var best, id := LlcBest(c, q, cpu, sameNode, k - 1), LlcAt(c, cpu, k);
            LlcBest(c, q, cpu, sameNode, k) == if LlcRuns(c, q, cpu, sameNode, k) then Better(q, best, id) else best
  {
    ScanAppend(q, LlcVictims(c, cpu, sameNode, k - 1), LlcAt(c, cpu, k));
  }

  /** The node queue visited at step `i` of the rotation. */
  function NodeAt(c: Config, cpu: int, i: nat): int
    requires ValidConfig(c) && i < c.nrNodes
  {
    NodeToDsq(Rotate(CpuNode(c, cpu), i, c.nrNodes))
  }

  /** The winner among the first `k` nodes of the rotation, or -1. */
  function NodeBest(c: Config, q: Queues, cpu: int, k: int): (r: int)
    requires ValidConfig(c) && 0 <= k < c.nrNodes
    ensures r == -1 || Queue(q, r) != []
  {
    Scan(q, NodeVictims(c, cpu, k))
  }

  lemma NodeBestStart(c: Config, q: Queues, cpu: int)
    requires ValidConfig(c)
    ensures NodeBest(c, q, cpu, 0) == -1
  {
  }

  lemma NodeScanStep(c: Config, q: Queues, cpu: int, k: nat)
    requires ValidConfig(c) && 0 < k < c.nrNodes
    ensures NodeBest(c, q, cpu, k) == Better(q, NodeBest(c, q, cpu, k - 1), NodeAt(c, cpu, k))
  {
    ScanAppend(q, NodeVictims(c, cpu, k - 1), NodeAt(c, cpu, k));
  }

  // --------------------------------------------------------------------- what moves

  /** A move takes one waiter allowed on the CPU out of its queue and puts that same
      waiter at the tail of the CPU's local queue. */
  lemma MoveTakesOne(c: Config, q: Queues, id: int, cpu: int)
    requires ValidConfig(c) && IsCpuValid(c, cpu) && IsTier(c, id) && CanMove(q, id, cpu)
    ensures cpu in Taken(q, id, cpu).cpus
    ensures multiset(Queue(Moved(q, id, cpu), id)) + multiset{Taken(q, id, cpu)} == multiset(Queue(q, id))
    ensures Depth(Moved(q, id, cpu), id) == Depth(q, id) - 1
    ensures Queue(Moved(q, id, cpu), LOCAL_ON + cpu) == Queue(q, LOCAL_ON + cpu) + [Taken(q, id, cpu)]
  {
    FirstAllowedIsFirst(Queue(q, id), cpu);
    WithoutCounts(Queue(q, id), FirstAllowed(Queue(q, id), cpu));
  }

  /** Every other queue is untouched by a move. */
  lemma MoveFrame(q: Queues, id: int, cpu: int, other: int)
    requires CanMove(q, id, cpu) && other != id && other != LOCAL_ON + cpu
    ensures Queue(Moved(q, id, cpu), other) == Queue(q, other)
  {
  }

  /** From `q` to `u`, `w` left queue `from` for the tail of the CPU's local queue, may run
      there, and every other queue is as before. */
  ghost predicate Delivers(q: Queues, u: Queues, from: int, cpu: int, w: Waiter) {
    && cpu in w.cpus
    && multiset(Queue(u, from)) + multiset{w} == multiset(Queue(q, from))
    && Queue(u, LOCAL_ON + cpu) == Queue(q, LOCAL_ON + cpu) + [w]
    && forall other :: other != from && other != LOCAL_ON + cpu ==> Queue(u, other) == Queue(q, other)
  }

  lemma MoveDelivers(c: Config, q: Queues, id: int, cpu: int)
    requires ValidConfig(c) && IsCpuValid(c, cpu) && IsTier(c, id) && CanMove(q, id, cpu)
    ensures Delivers(q, Moved(q, id, cpu), id, cpu, Taken(q, id, cpu))
  {
    MoveTakesOne(c, q, id, cpu);
    forall other | other != id && other != LOCAL_ON + cpu ensures Queue(Moved(q, id, cpu), other) == Queue(q, other) {
      MoveFrame(q, id, cpu, other);
    }
  }

  // ------------------------------------------------------------------ total backlog

  /** Everything that waits in the hierarchy. */
  function TierDepth(c: Config, q: Queues): nat {
    Sum(q, 0, c.nrCpuIds) + Sum(q, LLC_DSQ_BASE, c.nrLlcs) + Sum(q, NODE_DSQ_BASE, c.nrNodes) + Depth(q, SHARED_DSQ)
  }

  /** Two queue maps whose depths differ at `id` only, by `delta`. */
  ghost predicate DiffersAt(q: Queues, u: Queues, base: int, n: nat, id: int, delta: int) {
    forall x :: base <= x < base + n ==> Depth(u, x) == Depth(q, x) + if x == id then delta else 0
  }

  lemma {:induction false} SumDiffers(q: Queues, u: Queues, base: int, n: nat, id: int, delta: int)
    requires DiffersAt(q, u, base, n, id, delta)
    ensures Sum(u, base, n) == Sum(q, base, n) + if base <= id < base + n then delta else 0
  {
    if n == 0 {
    } else {
      SumDiffers(q, u, base, n - 1, id, delta);
    }
  }

  lemma {:induction false} SumCoversDepth(q: Queues, base: int, n: nat, id: int)
    requires base <= id < base + n
    ensures Depth(q, id) <= Sum(q, base, n)
  {
    if id < base + n - 1 {
      SumCoversDepth(q, base, n - 1, id);
    }
  }

  lemma {:induction false} SumOfEmpty(q: Queues, base: int, n: nat)
    requires forall id :: base <= id < base + n ==> Queue(q, id) == []
    ensures Sum(q, base, n) == 0
  {
    if n == 0 {
    } else {
      SumOfEmpty(q, base, n - 1);
    }
  }

  lemma BacklogIsDepth(c: Config, q: Queues)
    requires ValidConfig(c)
    ensures Backlog(c, q) <==> TierDepth(c, q) > 0
  {
    if Backlog(c, q) {
      var id :| IsTier(c, id) && Queue(q, id) != [];
      if IsCpuDsq(c, id) {
        SumCoversDepth(q, 0, c.nrCpuIds, id);
      } else if IsLlcDsq(c, id) {
        SumCoversDepth(q, LLC_DSQ_BASE, c.nrLlcs, id);
      } else if IsNodeDsq(c, id) {
        SumCoversDepth(q, NODE_DSQ_BASE, c.nrNodes, id);
      }
    } else {
      assert forall id :: IsTier(c, id) ==> Queue(q, id) == [];
      assert IsTier(c, SHARED_DSQ);
      SumOfEmpty(q, 0, c.nrCpuIds);
      SumOfEmpty(q, LLC_DSQ_BASE, c.nrLlcs);
      SumOfEmpty(q, NODE_DSQ_BASE, c.nrNodes);
    }
  }

  /** A move takes exactly one task out of the hierarchy as a whole. */
  lemma MoveDrainsOne(c: Config, q: Queues, id: int, cpu: int)
    requires ValidConfig(c) && IsCpuValid(c, cpu) && IsTier(c, id) && CanMove(q, id, cpu)
    ensures TierDepth(c, Moved(q, id, cpu)) == TierDepth(c, q) - 1
  {
    var u := Moved(q, id, cpu);
    MoveTakesOne(c, q, id, cpu);
    forall x | IsTier(c, x) ensures Depth(u, x) == Depth(q, x) + if x == id then -1 else 0 {
      if x != id {
        MoveFrame(q, id, cpu, x);
      }
    }
    TiersAreDisjoint(c, id);
    SumDiffers(q, u, 0, c.nrCpuIds, id, -1);
    SumDiffers(q, u, LLC_DSQ_BASE, c.nrLlcs, id, -1);
    SumDiffers(q, u, NODE_DSQ_BASE, c.nrNodes, id, -1);
    assert IsTier(c, SHARED_DSQ);
  }
}
