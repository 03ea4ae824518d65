/** The order in which a dispatch tries its queues: the CPU's own tiers, then outwards. */
module DispatchOrder {
  import opened Dsq
  import opened Hierarchy
  import opened WorkConservation
  import opened Machine
  import opened Runs
  import opened Stranding

  // ------------------------------------------------------------ steals from CPU queues

  /** Another CPU's queue (in the same cache domain, if asked) whose head may run on `cpu`. */
  predicate Stealable(c: Config, q: Queues, cpu: int, sameLlc: bool, v: int)
    requires ValidConfig(c)
  {
    && IsCpuDsq(c, v) && v != cpu && (sameLlc ==> ShareCache(c, cpu, v))
    && Queue(q, v) != [] && cpu in Queue(q, v)[0].cpus
  }

  /** Queue `v` wins among them: earliest head, then deepest, then the lowest CPU. */
  ghost predicate CpuElected(c: Config, q: Queues, cpu: int, sameLlc: bool, v: int)
    requires ValidConfig(c)
  {
    && Stealable(c, q, cpu, sameLlc, v)
    && forall w :: Stealable(c, q, cpu, sameLlc, w) && w != v ==> Preferred(q, v, w, v < w)
  }

  /** Nothing can be stolen from the CPUs that share a cache with `cpu`. */
  ghost predicate CacheIsDry(c: Config, q: Queues, cpu: int)
    requires ValidConfig(c)
  {
    forall v :: !Stealable(c, q, cpu, true, v)
  }

  lemma VictimsAreStealable(c: Config, q: Queues, cpu: int, sameLlc: bool, x: int)
    requires ValidConfig(c) && IsCpuValid(c, cpu)
    ensures x in CpuVictims(c, q, cpu, sameLlc, c.nrCpuIds) <==> Stealable(c, q, cpu, sameLlc, x)
  {
    CpuVictimsAreRemote(c, q, cpu, sameLlc, c.nrCpuIds);
    if Stealable(c, q, cpu, sameLlc, x) {
      CpuVictimsListed(c, q, cpu, sameLlc, c.nrCpuIds, x);
    }
  }

  lemma {:induction false} CpuVictimsAscend(c: Config, q: Queues, cpu: int, sameLlc: bool, n: nat)
    requires ValidConfig(c) && n <= c.nrCpuIds
    ensures Ascends(CpuVictims(c, q, cpu, sameLlc, n))
  {
    if n == 0 {
    } else {
      CpuVictimsAscend(c, q, cpu, sameLlc, n - 1);
      CpuVictimsAreRemote(c, q, cpu, sameLlc, n - 1);
      AscendsOn(CpuVictims(c, q, cpu, sameLlc, n - 1), n - 1);
    }
  }

  ghost predicate Ascends(ids: seq<int>) {
    forall i, j :: 0 <= i < j < |ids| ==> ids[i] < ids[j]
  }

  lemma AscendsOn(ids: seq<int>, id: int)
    requires Ascends(ids) && forall x :: x in ids ==> x < id
    ensures Ascends(ids + [id])
  {
    assert forall i :: 0 <= i < |ids| ==> ids[i] in ids;
  }

  lemma FirstBestIsPreferred(q: Queues, ids: seq<int>, r: int, v: int)
    requires FirstBest(q, ids, r) && Ascends(ids) && v in ids && Queue(q, v) != [] && v != r
    ensures Preferred(q, r, v, r < v)
  {
    var i :| 0 <= i < |ids| && ids[i] == v;
    var k :| 0 <= k < |ids| && ids[k] == r
             && forall j :: 0 <= j < k && Queue(q, ids[j]) != [] ==> RemoteBetter(q, r, ids[j]);
    assert k < i <==> r < v;
  }

  lemma HeadMoves(q: Queues, id: int, cpu: int)
    requires Queue(q, id) != [] && cpu in Queue(q, id)[0].cpus
    ensures CanMove(q, id, cpu)
  {
  }

  /** Stealing from other CPUs fails exactly when none of them has anything to steal, and
      otherwise takes from the preferred one. */
  lemma CpuScan(c: Config, q: Queues, cpu: int, sameLlc: bool)
    requires ValidConfig(c) && IsCpuValid(c, cpu)
    ensures var r := StealCpu(c, q, cpu, sameLlc);
            if r == -1 then forall v :: !Stealable(c, q, cpu, sameLlc, v) else CpuElected(c, q, cpu, sameLlc, r)
  {
    var ids := CpuVictims(c, q, cpu, sameLlc, c.nrCpuIds);
    forall x ensures x in ids <==> Stealable(c, q, cpu, sameLlc, x) {
      VictimsAreStealable(c, q, cpu, sameLlc, x);
    }
    CpuVictimsAscend(c, q, cpu, sameLlc, c.nrCpuIds);
    ScanPicksBest(q, ids);
    ScanListed(q, ids);
    var r := Scan(q, ids);
    if r != -1 {
      HeadMoves(q, r, cpu);
      forall w | Stealable(c, q, cpu, sameLlc, w) && w != r ensures Preferred(q, r, w, r < w) {
        FirstBestIsPreferred(q, ids, r, w);
      }
    }
  }

  // ----------------------------------------------------------------------- own tiers

  /** The tier with the earliest head if it holds a task the CPU may run, else the nearest
      tier that does. */
  ghost predicate OwnElected(c: Config, q: Queues, cpu: int, id: int)
    requires ValidConfig(c)
  {
    var tiers := OwnTiers(c, cpu);
    && CanMove(q, id, cpu)
    && (EarliestOf(q, tiers, id)
        || ((forall t :: EarliestOf(q, tiers, t) ==> !CanMove(q, t, cpu)) && IsFirstMovable(q, tiers, cpu, id)))
  }

  ghost predicate IsFirstMovable(q: Queues, tiers: seq<int>, cpu: int, id: int) {
    exists k :: 0 <= k < |tiers| && tiers[k] == id && forall j :: 0 <= j < k ==> !CanMove(q, tiers[j], cpu)
  }

  lemma {:induction false} FirstMovableIsFirst(q: Queues, tiers: seq<int>, cpu: int)
    ensures FirstMovable(q, tiers, cpu) != -1 ==> IsFirstMovable(q, tiers, cpu, FirstMovable(q, tiers, cpu))
  {
    if tiers != [] {
      var id := FirstMovable(q, tiers, cpu);
      if CanMove(q, tiers[0], cpu) {
        assert tiers[0] == id;
      } else if id != -1 {
        FirstMovableIsFirst(q, tiers[1..], cpu);
        var k :| 0 <= k < |tiers[1..]| && tiers[1..][k] == id
                 && forall j :: 0 <= j < k ==> !CanMove(q, tiers[1..][j], cpu);
        assert tiers[k + 1] == id && forall j :: 0 < j < k + 1 ==> tiers[j] == tiers[1..][j - 1];
      }
    }
  }

  lemma EarliestIsUnique(q: Queues, tiers: seq<int>, a: int, b: int)
    requires EarliestOf(q, tiers, a) && EarliestOf(q, tiers, b)
    ensures a == b
  {
    var i :| 0 <= i < |tiers| && tiers[i] == a
             && forall j :: 0 <= j < i && Queue(q, tiers[j]) != [] ==> HeadEarlier(q, a, tiers[j]);
    var k :| 0 <= k < |tiers| && tiers[k] == b
             && forall j :: 0 <= j < k && Queue(q, tiers[j]) != [] ==> HeadEarlier(q, b, tiers[j]);
    assert !HeadEarlier(q, tiers[i], b) && !HeadEarlier(q, tiers[k], a);
  }

  lemma OwnScan(c: Config, q: Queues, cpu: int)
    requires ValidConfig(c)
    ensures OwnChoice(c, q, cpu) != -1 ==> OwnElected(c, q, cpu, OwnChoice(c, q, cpu))
  {
    var tiers := OwnTiers(c, cpu);
    OwnTiersAreTiers(c, cpu);
    EarliestIsEarliest(q, tiers);
    FirstMovableIsFirst(q, tiers, cpu);
    var best := Earliest(q, tiers);
    if best != -1 && !CanMove(q, best, cpu) {
      forall t | EarliestOf(q, tiers, t) ensures !CanMove(q, t, cpu) {
        EarliestIsUnique(q, tiers, t, best);
      }
    } else if best == -1 {
      forall t ensures !EarliestOf(q, tiers, t) {
      }
    }
  }

  // ------------------------------------------------------------------- nearest first

  /** The queue of the LLC elected by the rotation, with a task the CPU may run. */
  ghost predicate LlcYields(c: Config, q: Queues, cpu: int, sameNode: bool, id: int)
    requires ValidConfig(c)
  {
    && CanMove(q, id, cpu)
    && exists i :: 0 < i < c.nrLlcs && LlcElected(c, q, cpu, sameNode, c.nrLlcs - 1, i) && id == LlcAt(c, cpu, i)
  }

  ghost predicate NodeYields(c: Config, q: Queues, cpu: int, id: int)
    requires ValidConfig(c)
  {
    && CanMove(q, id, cpu)
    && exists i :: 0 < i < c.nrNodes && NodeElected(c, q, cpu, c.nrNodes - 1, i) && id == NodeAt(c, cpu, i)
  }

  lemma LlcStealYields(c: Config, q: Queues, cpu: int, sameNode: bool)
    requires ValidConfig(c) && IsCpuValid(c, cpu)
    ensures StealLlc(c, q, cpu, sameNode) != -1 ==> LlcYields(c, q, cpu, sameNode, StealLlc(c, q, cpu, sameNode))
  {
    var i := LlcScan(c, q, cpu, sameNode, c.nrLlcs - 1);
  }

  lemma NodeStealYields(c: Config, q: Queues, cpu: int)
    requires ValidConfig(c) && IsCpuValid(c, cpu)
    ensures StealNode(c, q, cpu) != -1 ==> NodeYields(c, q, cpu, StealNode(c, q, cpu))
  {
    var i := NodeScan(c, q, cpu, c.nrNodes - 1);
  }

  /** The CPU's own tiers hold nothing it may run. */
  ghost predicate OwnTiersAreDry(c: Config, q: Queues, cpu: int)
    requires ValidConfig(c)
  {
    forall i :: 0 <= i < |OwnTiers(c, cpu)| ==> !CanMove(q, OwnTiers(c, cpu)[i], cpu)
  }

  /** What a dispatch may draw from: its own tiers; when they are dry the preferred CPU queue,
      of its cache domain if that has any to steal; when nothing it may run waits there or in
      any CPU queue the preferred LLC queue of its node; when that holds nothing for it the
      preferred node queue; then the preferred LLC queue anywhere; else nothing. */
  ghost predicate IsNext(c: Config, q: Queues, cpu: int, pick: Pick)
    requires ValidConfig(c)
  {
    match pick
    case Own(id) => OwnElected(c, q, cpu, id)
    case RemoteCpu(id) =>
      OwnTiersAreDry(c, q, cpu) && CpuElected(c, q, cpu, !CacheIsDry(c, q, cpu), id)
    case RemoteLlc(id) =>
      && NearEmpty(c, q, cpu)
      && if LlcBlocked(c, q, cpu, true) then NodeBlocked(c, q, cpu) && LlcYields(c, q, cpu, false, id)
         else LlcYields(c, q, cpu, true, id)
    case RemoteNode(id) => NearEmpty(c, q, cpu) && LlcBlocked(c, q, cpu, true) && NodeYields(c, q, cpu, id)
    case Refill =>
      NearEmpty(c, q, cpu) && LlcBlocked(c, q, cpu, true) && NodeBlocked(c, q, cpu) && LlcBlocked(c, q, cpu, false)
  }

  lemma NearPickIsNext(c: Config, q: Queues, cpu: int)
    requires ValidConfig(c) && IsCpuValid(c, cpu)
    requires Choose(c, q, cpu).Own? || Choose(c, q, cpu).RemoteCpu?
    ensures IsNext(c, q, cpu, Choose(c, q, cpu))
  {
    OwnChoiceIsComplete(c, q, cpu);
    OwnScan(c, q, cpu);
    CpuScan(c, q, cpu, true);
    CpuScan(c, q, cpu, false);
  }

  /** A dispatch draws from the nearest queue that can serve it. */
  lemma NearestIsNext(c: Config, q: Queues, cpu: int)
    requires ValidConfig(c) && IsCpuValid(c, cpu) && Capped(c, q)
    ensures IsNext(c, q, cpu, Choose(c, q, cpu))
  {
    if Choose(c, q, cpu).Own? || Choose(c, q, cpu).RemoteCpu? {
      NearPickIsNext(c, q, cpu);
    } else {
      NearWorkIff(c, q, cpu);
      LlcBlockedIff(c, q, cpu, true);
      LlcBlockedIff(c, q, cpu, false);
      NodeBlockedIff(c, q, cpu);
      LlcStealYields(c, q, cpu, true);
      LlcStealYields(c, q, cpu, false);
      NodeStealYields(c, q, cpu);
    }
  }

  /** The order leaves no choice. */
  lemma NextIsUnique(c: Config, q: Queues, cpu: int, a: Pick, b: Pick)
    requires ValidConfig(c) && IsCpuValid(c, cpu) && IsNext(c, q, cpu, a) && IsNext(c, q, cpu, b)
    ensures a == b
  {
    if a.Own? && b.Own? {
      OwnIsUnique(c, q, cpu, a.id, b.id);
    } else if a.Own? {
      OwnShutsOut(c, q, cpu, a.id, b);
    } else if b.Own? {
      OwnShutsOut(c, q, cpu, b.id, a);
    } else if a.RemoteCpu? != b.RemoteCpu? {
      CpuShutsOut(c, q, cpu, !CacheIsDry(c, q, cpu), if a.RemoteCpu? then a.id else b.id);
    } else if !a.RemoteCpu? {
      RemoteIsUnique(c, q, cpu, a, b);
    }
  }

  lemma OwnIsUnique(c: Config, q: Queues, cpu: int, a: int, b: int)
    requires ValidConfig(c) && OwnElected(c, q, cpu, a) && OwnElected(c, q, cpu, b)
    ensures a == b
  {
    var tiers := OwnTiers(c, cpu);
    if EarliestOf(q, tiers, a) && EarliestOf(q, tiers, b) {
      EarliestIsUnique(q, tiers, a, b);
    }
  }

  lemma OwnShutsOut(c: Config, q: Queues, cpu: int, id: int, pick: Pick)
    requires ValidConfig(c) && OwnElected(c, q, cpu, id) && IsNext(c, q, cpu, pick)
    ensures pick.Own?
  {
    var k :| 0 <= k < |OwnTiers(c, cpu)| && OwnTiers(c, cpu)[k] == id;
    MovableIff(q, id, cpu);
  }

  lemma CpuShutsOut(c: Config, q: Queues, cpu: int, sameLlc: bool, v: int)
    requires ValidConfig(c) && Stealable(c, q, cpu, sameLlc, v)
    ensures !NearEmpty(c, q, cpu)
  {
    assert cpu in Queue(q, v)[0].cpus;
  }

  lemma YieldsIsUnique(c: Config, q: Queues, cpu: int, sameNode: bool, a: int)
    requires ValidConfig(c) && LlcYields(c, q, cpu, sameNode, a)
    ensures !LlcBlocked(c, q, cpu, sameNode)
    ensures forall b :: LlcYields(c, q, cpu, sameNode, b) ==> b == a
  {
    NoneAllowedIff(q, a, cpu);
  }

  lemma NodeYieldsIsUnique(c: Config, q: Queues, cpu: int, a: int)
    requires ValidConfig(c) && NodeYields(c, q, cpu, a)
    ensures !NodeBlocked(c, q, cpu)
    ensures forall b :: NodeYields(c, q, cpu, b) ==> b == a
  {
    NoneAllowedIff(q, a, cpu);
  }

  lemma RemoteIsUnique(c: Config, q: Queues, cpu: int, a: Pick, b: Pick)
    requires ValidConfig(c) && IsNext(c, q, cpu, a) && IsNext(c, q, cpu, b)
    requires !a.Own? && !a.RemoteCpu? && !b.Own? && !b.RemoteCpu?
    ensures a == b
  {
    if a.RemoteLlc? {
      YieldsIsUnique(c, q, cpu, !LlcBlocked(c, q, cpu, true), a.id);
    } else if a.RemoteNode? {
      NodeYieldsIsUnique(c, q, cpu, a.id);
    }
    if b.RemoteLlc? {
      YieldsIsUnique(c, q, cpu, !LlcBlocked(c, q, cpu, true), b.id);
    } else if b.RemoteNode? {
      NodeYieldsIsUnique(c, q, cpu, b.id);
    }
  }

  /** `w` is the first waiter of queue `id` that may run on the CPU. */
  ghost predicate IsFirstAllowed(q: Queues, id: int, cpu: int, w: Waiter) {
    exists i :: 0 <= i < Depth(q, id) && Queue(q, id)[i] == w && cpu in w.cpus
                && forall j :: 0 <= j < i ==> cpu !in Queue(q, id)[j].cpus
  }

  lemma TakenIsFirst(q: Queues, id: int, cpu: int)
    requires CanMove(q, id, cpu)
    ensures IsFirstAllowed(q, id, cpu, Taken(q, id, cpu))
  {
    FirstAllowedIsFirst(Queue(q, id), cpu);
  }

  /** In every reachable state in which no message from userspace took effect, a dispatch
      without messages delivers the first allowed waiter of the next queue in this order, or
      moves nothing when the order is exhausted. */
  lemma RunsServeNearest(c: Config, states: seq<State>, events: seq<Event>, k: nat,
                         cpu: int, prev: int, prevQueued: bool, still: bool)
    returns (pick: Pick, w: Waiter)
    requires ValidConfig(c)
    requires IsRun(c, states, events) && states[0] == BOOT && k < |states| && NoUser(states[k].routes)
    requires IsCpuValid(c, cpu)
    ensures IsNext(c, states[k].q, cpu, pick)
    ensures var u := Dispatch(c, states[k], cpu, prev, prevQueued, [], false, still);
            if pick == Refill then u.q == states[k].q
            else IsFirstAllowed(states[k].q, pick.id, cpu, w) && Delivers(states[k].q, u.q, pick.id, cpu, w)
  {
    var q := states[k].q;
    ReachableIsGood(c, states, events, k);
    NearestIsNext(c, q, cpu);
    pick := Choose(c, q, cpu);
    if pick != Refill {
      DispatchQueues(c, states[k], cpu, prev, prevQueued, still);
      ChosenIsTier(c, q, cpu);
      w := Taken(q, pick.id, cpu);
      TakenIsFirst(q, pick.id, cpu);
      MoveDelivers(c, q, pick.id, cpu);
    } else {
      w := Waiter(0, 0, {});
    }
  }

  /** So a task is taken from outside the cache domain only when the domain has nothing to
      steal, and from an LLC of another node only when neither the preferred LLC queue of the
      own node nor the preferred node queue holds anything the CPU may run. */
  lemma StealsGoOutwards(c: Config, q: Queues, cpu: int)
    requires ValidConfig(c) && IsCpuValid(c, cpu) && Capped(c, q)
    ensures var pick := Choose(c, q, cpu);
            pick.RemoteCpu? && !ShareCache(c, cpu, pick.id) ==> CacheIsDry(c, q, cpu)
    ensures var pick := Choose(c, q, cpu);
            pick.RemoteLlc? && IsLlcDsq(c, pick.id) && LlcNode(c, pick.id - LLC_DSQ_BASE) != CpuNode(c, cpu)
            ==> LlcBlocked(c, q, cpu, true) && NodeBlocked(c, q, cpu)
  {
    NearestIsNext(c, q, cpu);
  }
}
