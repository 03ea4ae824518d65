/** Lifetime records and trust scores together: how src/main.rs records tasks it
    drains, forgets tasks the kernel reports as gone, and turns stale records into
    exit observations. */
module Housekeeping {
  import opened Numbers
  import opened Options
  import P = PidProbe
  import L = Lifetime
  import T = Trust
  import TA = TrustArrays

  const STALE_THRESHOLD_NS: nat := 2_000_000_000
  const STALE_MAX: nat := 256

  datatype Sys = Sys(life: L.Table, trust: T.Table)

  function New(): (s: Sys)
    ensures Sized(s)
  {
    Sys(L.New(), T.New())
  }

  function ObservationOf(r: L.TaskLifetime): T.ExitObservation {
    T.ExitObservation(r.sliceUsedNs < r.sliceAssignedNs / 2, r.preempted, !r.cheatFlagged, r.cheatFlagged, 0, 0)
  }

  predicate IsStale(r: L.TaskLifetime, now: nat) {
    r.lastSeenNs > 0 && SatSub(now, r.lastSeenNs) >= STALE_THRESHOLD_NS
  }

  /** The first stale PIDs in slot order, at most `STALE_MAX` of them. */
  function StaleUpTo(t: L.Table, now: nat, n: nat): (r: seq<int>)
    requires n <= P.SIZE
    ensures |r| <= STALE_MAX
  {
    if n == 0 then []
    else
      var r := StaleUpTo(t, now, n - 1);
      if t.pids[n - 1] > 0 && IsStale(t.recs[n - 1], now) && |r| < STALE_MAX then r + [t.pids[n - 1]] else r
  }

  ghost predicate Sized(s: Sys) {
    T.Sized(s.trust)
  }

  function FlushOne(s: Sys, pid: int): (u: Sys)
    requires Sized(s)
    ensures Sized(u)
  {
    var slot := P.Find(s.life.pids, pid);
    if 0 <= slot < P.SIZE then
      Sys(L.Evicted(s.life, pid), T.Updated(s.trust, pid, pid, ObservationOf(s.life.recs[slot]), ""))
    else s
  }

  function FlushAll(s: Sys, stale: seq<int>): (u: Sys)
    requires Sized(s)
    ensures Sized(u)
  {
    if stale == [] then s else FlushOne(FlushAll(s, stale[..|stale| - 1]), stale[|stale| - 1])
  }

  datatype Event =
    | Arrive(pid: int, sliceNs: nat, startTs: nat, stopTs: nat, seenNs: nat)
    | Exited(pid: int)
    | Flush(now: nat)

  function Next(s: Sys, e: Event): (u: Sys)
    requires Sized(s)
    ensures Sized(u)
  {
    match e
    case Arrive(pid, sliceNs, startTs, stopTs, seenNs) =>
      s.(life := L.Stored(s.life, pid, L.RecordOf(sliceNs, startTs, stopTs, seenNs)))
    case Exited(pid) =>
      if pid > 0 then Sys(L.Evicted(s.life, pid), T.Evicted(s.trust, pid)) else s
    case Flush(now) => FlushAll(s, StaleUpTo(s.life, now, P.SIZE))
  }

  function Run(events: seq<Event>): (u: Sys)
    ensures Sized(u)
  {
    if events == [] then New() else Next(Run(events[..|events| - 1]), events[|events| - 1])
  }

  // ------------------------------------------------------------ run invariant

  ghost predicate RecOk(r: L.TaskLifetime) {
    !r.cheatFlagged && (r.preempted ==> r.sliceUsedNs >= r.sliceAssignedNs - r.sliceAssignedNs / 8)
  }

  ghost predicate Good(s: Sys) {
    && L.Ok(s.life) && T.Ok(s.trust)
    && (forall i :: 0 <= i < P.SIZE ==> RecOk(s.life.recs[i]))
    && T.Within(s.trust, T.FLOOR)
    && (forall i :: 0 <= i < P.SIZE ==> s.trust.streak[i] == 0)
  }

  /** A record never says both that the task underran its slice and that it burned it. */
  lemma RecordsAreExclusive(r: L.TaskLifetime)
    requires RecOk(r)
    ensures T.FromLifetime(ObservationOf(r))
  {
  }

  lemma UpdateKeepsStreaks(t: T.Table, pid: int, obs: T.ExitObservation)
    requires T.Sized(t) && !obs.cheatFlagged && forall i :: 0 <= i < P.SIZE ==> t.streak[i] == 0
    ensures forall i :: 0 <= i < P.SIZE ==> T.Updated(t, pid, pid, obs, "").streak[i] == 0
  {
  }

  lemma FlushedLifeIsGood(t: L.Table, pid: int)
    requires L.Ok(t) && pid > 0 && forall i :: 0 <= i < P.SIZE ==> RecOk(t.recs[i])
    ensures L.Ok(L.Evicted(t, pid)) && forall i :: 0 <= i < P.SIZE ==> RecOk(L.Evicted(t, pid).recs[i])
  {
    L.EvictIsMapRemove(t, pid, if pid == 1 then 2 else 1);
  }

  lemma FlushedTrustIsGood(t: T.Table, pid: int, r: L.TaskLifetime)
    requires T.Ok(t) && T.Within(t, T.FLOOR) && pid > 0 && RecOk(r)
    requires forall i :: 0 <= i < P.SIZE ==> t.streak[i] == 0
    ensures var u := T.Updated(t, pid, pid, ObservationOf(r), "");
            T.Ok(u) && T.Within(u, T.FLOOR) && forall i :: 0 <= i < P.SIZE ==> u.streak[i] == 0
  {
    var obs := ObservationOf(r);
    RecordsAreExclusive(r);
    T.UpdateEffect(t, pid, pid, obs, "", if pid == 1 then 2 else 1);
    T.UpdateKeepsWithin(t, pid, pid, obs, "", T.FLOOR);
    UpdateKeepsStreaks(t, pid, obs);
  }

  lemma FlushOneKeeps(s: Sys, pid: int)
    requires Good(s) && pid > 0
    ensures Good(FlushOne(s, pid))
  {
    var slot := P.Find(s.life.pids, pid);
    P.FindExact(s.life.pids, pid);
    if slot != -1 {
      FlushedLifeIsGood(s.life, pid);
      FlushedTrustIsGood(s.trust, pid, s.life.recs[slot]);
    }
  }

  lemma {:induction false} FlushAllKeeps(s: Sys, stale: seq<int>)
    requires Good(s) && forall i :: 0 <= i < |stale| ==> stale[i] > 0
    ensures Good(FlushAll(s, stale))
  {
    if stale == [] {
    } else {
      FlushAllKeeps(s, stale[..|stale| - 1]);
      FlushOneKeeps(FlushAll(s, stale[..|stale| - 1]), stale[|stale| - 1]);
    }
  }

  lemma {:induction false} StaleAreLive(t: L.Table, now: nat, n: nat)
    requires L.Ok(t) && n <= P.SIZE
    ensures forall i :: 0 <= i < |StaleUpTo(t, now, n)| ==> StaleUpTo(t, now, n)[i] in P.LiveUpTo(t.pids, n)
    ensures forall i, j :: 0 <= i < j < |StaleUpTo(t, now, n)| ==> StaleUpTo(t, now, n)[i] != StaleUpTo(t, now, n)[j]
  {
    if n == 0 {
    } else {
      StaleAreLive(t, now, n - 1);
      P.LiveUpToStep(t.pids, n - 1);
      var before, after := StaleUpTo(t, now, n - 1), StaleUpTo(t, now, n);
      if |after| > |before| {
        assert after == before + [t.pids[n - 1]];
      } else {
        assert after == before;
      }
    }
  }

  ghost predicate WellFormed(e: Event) {
    e.Arrive? ==> e.pid > 0
  }

  lemma StartIsGood()
    ensures Good(New())
  {
  }

  lemma NextKeeps(s: Sys, e: Event)
    requires Good(s) && WellFormed(e)
    ensures Good(Next(s, e))
  {
    match e
    case Arrive(pid, sliceNs, startTs, stopTs, seenNs) =>
      var rec := L.RecordOf(sliceNs, startTs, stopTs, seenNs);
      L.StoreIsMapUpdate(s.life, pid, rec, if pid == 1 then 2 else 1);
    case Exited(pid) =>
      if pid > 0 {
        var other := if pid == 1 then 2 else 1;
        L.EvictIsMapRemove(s.life, pid, other);
        T.EvictEffect(s.trust, pid, other);
        T.EvictKeepsWithin(s.trust, pid, T.FLOOR);
      }
    case Flush(now) =>
      StaleAreLive(s.life, now, P.SIZE);
      FlushAllKeeps(s, StaleUpTo(s.life, now, P.SIZE));
  }

  lemma {:induction false} RunIsGood(events: seq<Event>)
    requires forall i :: 0 <= i < |events| ==> WellFormed(events[i])
    ensures Good(Run(events))
  {
    if events == [] {
      StartIsGood();
    } else {
      RunIsGood(events[..|events| - 1]);
      NextKeeps(Run(events[..|events| - 1]), events[|events| - 1]);
    }
  }

  /** On no run of the scheduler does any PID come near the trust threshold: every
      score stays in [-142/979, 1], so the watchlist is empty and nobody is
      flagged, whatever mix of arrivals, exits and flushes happened. */
  lemma WatchlistStaysEmpty(events: seq<Event>, pid: int)
    requires forall i :: 0 <= i < |events| ==> WellFormed(events[i])
    ensures -0.15 < T.FLOOR <= T.TrustScore(Run(events).trust, pid) <= 1.0
    ensures !T.IsFlagged(Run(events).trust, pid)
    ensures T.CountBad(Run(events).trust, P.SIZE) == 0
  {
    RunIsGood(events);
    T.NobodyBelowFloor(Run(events).trust, P.SIZE);
  }

  // --------------------------------------------------- arbitrary observations

  datatype TrustOp =
    | Observe(pid: int, tgid: int, obs: T.ExitObservation, comm: string)
    | Forget(pid: int)

  function TrustRun(ops: seq<TrustOp>): (t: T.Table)
    ensures T.Sized(t)
  {
    if ops == [] then T.New()
    else
      var t := TrustRun(ops[..|ops| - 1]);
      match ops[|ops| - 1]
      case Observe(pid, tgid, obs, comm) => T.Updated(t, pid, tgid, obs, comm)
      case Forget(pid) => T.Evicted(t, pid)
  }

  ghost predicate ValidOps(ops: seq<TrustOp>) {
    forall i :: 0 <= i < |ops| ==> ops[i].pid > 0 && (ops[i].Observe? ==> ops[i].tgid > 0)
  }

  /** The probe invariant, the meaning of the flag and the unit bound survive every
      sequence of observations and evictions, whatever the observations say. */
  lemma {:induction false} TrustRunStaysValid(ops: seq<TrustOp>)
    requires ValidOps(ops)
    ensures T.Ok(TrustRun(ops)) && T.Within(TrustRun(ops), -1.0)
  {
    if ops == [] {
    } else {
      var before := ops[..|ops| - 1];
      TrustRunStaysValid(before);
      match ops[|ops| - 1]
      case Observe(pid, tgid, obs, comm) =>
        T.UpdateEffect(TrustRun(before), pid, tgid, obs, comm, if pid == 1 then 2 else 1);
        T.UpdateKeepsWithin(TrustRun(before), pid, tgid, obs, comm, -1.0);
      case Forget(pid) =>
        T.EvictEffect(TrustRun(before), pid, if pid == 1 then 2 else 1);
        T.EvictKeepsWithin(TrustRun(before), pid, -1.0);
    }
  }

  /** What an observer who never forgets knows about one PID. */
  datatype Reputation = Reputation(score: real, flag: bool, streak: nat)

  /** The reputation earned since the last eviction, from that PID's exits alone. */
  function Earned(ops: seq<TrustOp>, pid: int): Reputation {
    if ops == [] then Reputation(0.0, false, 0)
    else
      var r := Earned(ops[..|ops| - 1], pid);
      match ops[|ops| - 1]
      case Observe(p, _, obs, _) =>
        if p != pid then r
        else Reputation(T.NewScore(r.score, obs), T.NewFlag(r.flag, r.streak, obs), T.NewStreak(r.streak, obs))
      case Forget(p) => if p != pid then r else Reputation(0.0, false, 0)
  }

  /** Operation `n` pushes `pid` out of a table whose slots are all live. */
  ghost predicate PushesOut(ops: seq<TrustOp>, n: nat, pid: int)
    requires n < |ops|
  {
    ops[n].Observe? && ops[n].pid != pid && T.Displaced(TrustRun(ops[..n]), ops[n].pid, pid)
  }

  ghost function Reads(t: T.Table, pid: int): Reputation
    requires T.Sized(t)
  {
    Reputation(T.TrustScore(t, pid), T.IsFlagged(t, pid), T.Streak(t, pid))
  }

  lemma ReputationStep(t: T.Table, op: TrustOp, pid: int)
    requires T.Ok(t) && pid > 0 && op.pid > 0 && (op.Observe? ==> op.tgid > 0)
    requires op.Observe? && op.pid != pid ==> !T.Displaced(t, op.pid, pid)
    ensures match op
            case Observe(p, tgid, obs, comm) =>
              Reads(T.Updated(t, p, tgid, obs, comm), pid)
              == if p != pid then Reads(t, pid)
                 else Reputation(T.NewScore(T.TrustScore(t, pid), obs),
                     T.NewFlag(T.IsFlagged(t, pid), T.Streak(t, pid), obs),
                                 T.NewStreak(T.Streak(t, pid), obs))
            case Forget(p) =>
              Reads(T.Evicted(t, p), pid) == if p != pid then Reads(t, pid) else Reputation(0.0, false, 0)
  {
    var other := if op.pid != pid then pid else if pid == 1 then 2 else 1;
    match op
    case Observe(p, tgid, obs, comm) => T.UpdateEffect(t, p, tgid, obs, comm, other);
    case Forget(p) => T.EvictEffect(t, p, other);
  }

  ghost predicate Keeps(ops: seq<TrustOp>, pid: int) {
    ValidOps(ops) && forall n :: 0 <= n < |ops| ==> !PushesOut(ops, n, pid)
  }

  lemma KeepsPrefix(ops: seq<TrustOp>, pid: int)
    requires Keeps(ops, pid) && ops != []
    ensures Keeps(ops[..|ops| - 1], pid)
  {
    var before := ops[..|ops| - 1];
    forall n | 0 <= n < |before| ensures !PushesOut(before, n, pid) {
      assert before[..n] == ops[..n] && !PushesOut(ops, n, pid);
    }
  }

  /** The table reads as the full history does: a PID that was never pushed out of a
      full table has the score, flag and streak its own exits earned since it was
      last evicted, whatever collisions, tombstones and claims happened meanwhile. */
  lemma {:induction false} TrustIsEarned(ops: seq<TrustOp>, pid: int)
    requires pid > 0 && Keeps(ops, pid)
    ensures Reads(TrustRun(ops), pid) == Earned(ops, pid)
  {
    if ops == [] {
      P.FindExact(T.New().pids, pid);
    } else {
      var last := |ops| - 1;
      KeepsPrefix(ops, pid);
      TrustIsEarned(ops[..last], pid);
      TrustRunStaysValid(ops[..last]);
      assert !PushesOut(ops, last, pid);
      ReputationStep(TrustRun(ops[..last]), ops[last], pid);
    }
  }

  /** Every PID and thread group observed and not forgotten since. */
  function Held(ops: seq<TrustOp>): set<int> {
    if ops == [] then {}
    else
      var before := Held(ops[..|ops| - 1]);
      match ops[|ops| - 1]
      case Observe(pid, tgid, _, _) => before + {pid, tgid}
      case Forget(pid) => before - {pid}
  }

  lemma UpdatedHolds(t: T.Table, pid: int, tgid: int, obs: T.ExitObservation, comm: string, x: int)
    requires T.Ok(t) && pid > 0 && tgid > 0 && x > 0
    ensures x in T.Updated(t, pid, tgid, obs, comm).pids ==> x in t.pids || x == pid || x == tgid
  {
    var d := P.InsertSlot(t.pids, pid);
    T.InsertedOk(t, pid);
    P.WriteMembers(t.pids, d, pid, x);
    var p := P.Insert(t.pids, pid);
    P.WriteMembers(p, P.Slot(tgid), tgid, x);
  }

  lemma EvictedHolds(t: T.Table, pid: int, x: int)
    requires T.Ok(t) && pid > 0 && x > 0
    ensures x in T.Evicted(t, pid).pids ==> x in t.pids && x != pid
  {
    P.FindExact(t.pids, pid);
    if P.Find(t.pids, pid) != -1 {
      P.WriteMembers(t.pids, P.Find(t.pids, pid), P.TOMBSTONE, x);
    }
  }

  /** The trust table only holds PIDs and thread groups it was told about and not told to
      forget. */
  lemma {:induction false} TableHoldsHeld(ops: seq<TrustOp>, x: int)
    requires ValidOps(ops) && x > 0
    ensures x in TrustRun(ops).pids ==> x in Held(ops)
  {
    if ops == [] {
    } else {
      var before := ops[..|ops| - 1];
      TableHoldsHeld(before, x);
      TrustRunStaysValid(before);
      match ops[|ops| - 1]
      case Observe(pid, tgid, obs, comm) => UpdatedHolds(TrustRun(before), pid, tgid, obs, comm, x);
      case Forget(pid) => EvictedHolds(TrustRun(before), pid, x);
    }
  }

  ghost predicate FitsAt(ops: seq<TrustOp>, n: nat)
    requires n <= |ops|
  {
    |Held(ops[..n])| <= P.SIZE
  }

  lemma NobodyPushedOut(ops: seq<TrustOp>, n: nat, pid: int)
    requires ValidOps(ops) && n < |ops| && FitsAt(ops, n + 1)
    ensures !PushesOut(ops, n, pid)
  {
    if PushesOut(ops, n, pid) {
      var t := TrustRun(ops[..n]);
      assert ops[..n + 1][..n] == ops[..n];
      TrustRunStaysValid(ops[..n]);
      forall x | x in P.LiveSet(t.pids) ensures x in Held(ops[..n]) {
        TableHoldsHeld(ops[..n], x);
      }
      P.LiveTotal(t.pids);
      assert ops[n].pid !in P.LiveSet(t.pids);
      SubsetIsSmaller(P.LiveSet(t.pids) + {ops[n].pid}, Held(ops[..n + 1]));
    }
  }

  /** As long as at most 4096 PIDs and thread groups are held at a time, every PID reads
      exactly what its own exits earned, however long the run. */
  lemma FittingRunsAreEarned(ops: seq<TrustOp>, pid: int)
    requires pid > 0 && ValidOps(ops) && forall n :: 0 <= n <= |ops| ==> FitsAt(ops, n)
    ensures Reads(TrustRun(ops), pid) == Earned(ops, pid)
  {
    forall n | 0 <= n < |ops| ensures !PushesOut(ops, n, pid) {
      NobodyPushedOut(ops, n, pid);
    }
    TrustIsEarned(ops, pid);
  }

  // ------------------------------------------------------------ what a flush does

  lemma FlushOneForgets(s: Sys, last: int, pid: int)
    requires Good(s) && pid > 0 && last > 0
    ensures Known(FlushOne(s, last), pid) == if pid == last then None else Known(s, pid)
  {
    P.FindExact(s.life.pids, last);
    L.EvictIsMapRemove(s.life, last, if pid != last then pid else if last == 1 then 2 else 1);
  }

  ghost function Known(s: Sys, pid: int): Option<L.TaskLifetime>
    requires Sized(s)
  {
    L.Lookup(s.life, pid)
  }

  lemma InPrefixOrLast(stale: seq<int>, pid: int)
    requires stale != []
    ensures pid in stale <==> pid in stale[..|stale| - 1] || pid == stale[|stale| - 1]
  {
    assert stale == stale[..|stale| - 1] + [stale[|stale| - 1]];
  }

  /** A flush forgets the records of the listed PIDs and of nobody else. */
  lemma {:induction false} FlushForgets(s: Sys, stale: seq<int>, pid: int)
    requires Good(s) && pid > 0 && forall i :: 0 <= i < |stale| ==> stale[i] > 0
    ensures pid in stale ==> Known(FlushAll(s, stale), pid) == None
    ensures pid !in stale ==> Known(FlushAll(s, stale), pid) == Known(s, pid)
  {
    if stale == [] {
    } else {
      var before, last := stale[..|stale| - 1], stale[|stale| - 1];
      FlushForgets(s, before, pid);
      FlushAllKeeps(s, before);
      FlushOneForgets(FlushAll(s, before), last, pid);
      InPrefixOrLast(stale, pid);
    }
  }

  predicate StaleAt(t: L.Table, now: nat, s: nat)
    requires s < P.SIZE
  {
    t.pids[s] > 0 && IsStale(t.recs[s], now)
  }

  /** Stale records in the first `n` slots. */
  function CountStale(t: L.Table, now: nat, n: nat): nat
    requires n <= P.SIZE
  {
    if n == 0 then 0 else CountStale(t, now, n - 1) + if StaleAt(t, now, n - 1) then 1 else 0
  }

  lemma {:induction false} StaleLength(t: L.Table, now: nat, n: nat)
    requires n <= P.SIZE
    ensures |StaleUpTo(t, now, n)| == Min(CountStale(t, now, n), STALE_MAX)
  {
    if n == 0 {
    } else {
      StaleLength(t, now, n - 1);
    }
  }

  lemma {:induction false} CountStaleGrows(t: L.Table, now: nat, m: nat, n: nat)
    requires m <= n <= P.SIZE
    ensures CountStale(t, now, m) <= CountStale(t, now, n)
  {
    if m == n {
    } else {
      CountStaleGrows(t, now, m, n - 1);
    }
  }

  /** The list names a live PID exactly when its record is stale and fewer than 256
      stale records lie in earlier slots. */
  lemma {:induction false} StaleExact(t: L.Table, now: nat, n: nat, s: nat)
    requires L.Ok(t) && s < n <= P.SIZE && t.pids[s] > 0
    ensures t.pids[s] in StaleUpTo(t, now, n) <==> IsStale(t.recs[s], now) && CountStale(t, now, s) < STALE_MAX
  {
    var before, after := StaleUpTo(t, now, n - 1), StaleUpTo(t, now, n);
    if s < n - 1 {
      StaleExact(t, now, n - 1, s);
      assert t.pids[s] != t.pids[n - 1];
    } else {
      StaleAreLive(t, now, n - 1);
      P.LiveUpToStep(t.pids, n - 1);
      StaleLength(t, now, n - 1);
    }
    assert after == before || after == before + [t.pids[n - 1]];
  }

  /** A flush forgets a PID exactly when its record is stale and among the first 256
      stale ones in slot order. */
  lemma FlushIsExact(s: Sys, now: nat, pid: int)
    requires Good(s) && pid > 0 && Known(s, pid).Some?
    ensures 0 <= P.Find(s.life.pids, pid) < P.SIZE
    ensures Known(Next(s, Flush(now)), pid)
            == if IsStale(Known(s, pid).value, now) && CountStale(s.life, now, P.Find(s.life.pids, pid)) < STALE_MAX
               then None else Known(s, pid)
  {
    P.FindExact(s.life.pids, pid);
    StaleExact(s.life, now, P.SIZE, P.Find(s.life.pids, pid));
    StaleAreLive(s.life, now, P.SIZE);
    FlushForgets(s, StaleUpTo(s.life, now, P.SIZE), pid);
  }

  ghost predicate ForgetsAllStale(s: Sys, now: nat)
    requires Sized(s)
  {
    forall pid :: pid > 0 && Known(s, pid).Some? && IsStale(Known(s, pid).value, now)
                  ==> Known(Next(s, Flush(now)), pid) == None
  }

  /** The last stale slot below `n`. */
  lemma {:induction false} LastStale(t: L.Table, now: nat, n: nat) returns (s: nat)
    requires n <= P.SIZE && CountStale(t, now, n) > 0
    ensures s < n && StaleAt(t, now, s) && CountStale(t, now, s) == CountStale(t, now, n) - 1
  {
    if StaleAt(t, now, n - 1) {
      s := n - 1;
    } else {
      s := LastStale(t, now, n - 1);
    }
  }

  lemma FewAreCleared(s: Sys, now: nat, pid: int)
    requires Good(s) && CountStale(s.life, now, P.SIZE) <= STALE_MAX
    requires pid > 0 && Known(s, pid).Some? && IsStale(Known(s, pid).value, now)
    ensures Known(Next(s, Flush(now)), pid) == None
  {
    FlushIsExact(s, now, pid);
    P.FindExact(s.life.pids, pid);
    var slot := P.Find(s.life.pids, pid);
    assert StaleAt(s.life, now, slot);
    CountStaleGrows(s.life, now, slot + 1, P.SIZE);
  }

  lemma OneIsLeft(s: Sys, now: nat)
    requires Good(s) && CountStale(s.life, now, P.SIZE) > STALE_MAX
    ensures !ForgetsAllStale(s, now)
  {
    var last := LastStale(s.life, now, P.SIZE);
    var pid := s.life.pids[last];
    P.FindExact(s.life.pids, pid);
    assert Known(s, pid) == Some(s.life.recs[last]);
    FlushIsExact(s, now, pid);
  }

  /** One flush clears every stale record exactly when there are at most 256. */
  lemma FlushClearsIff(s: Sys, now: nat)
    requires Good(s)
    ensures ForgetsAllStale(s, now) <==> CountStale(s.life, now, P.SIZE) <= STALE_MAX
  {
    if CountStale(s.life, now, P.SIZE) <= STALE_MAX {
      forall pid | pid > 0 && Known(s, pid).Some? && IsStale(Known(s, pid).value, now)
        ensures Known(Next(s, Flush(now)), pid) == None
      {
        FewAreCleared(s, now, pid);
      }
    } else {
      OneIsLeft(s, now);
    }
  }

  // ------------------------------------------------------------------ the object

  class Keeper {
    const life: L.LifetimeTable
    const trust: TA.TrustTable

    ghost predicate Valid()
      reads this, life, trust, life.Repr, trust.Repr
    {
      life.Valid() && trust.Valid() && life.Repr !! trust.Repr && this !in life.Repr && this !in trust.Repr
    }

    ghost function State(): (s: Sys)
      requires Valid()
      reads this, life, trust, life.Repr, trust.Repr
      ensures Sized(s)
    {
      Sys(life.State(), trust.State())
    }

    constructor ()
      ensures Valid() && State() == New() && fresh(life.Repr) && fresh(trust.Repr)
    {
      life := new L.LifetimeTable();
      trust := new TA.TrustTable();
    }

    method RecordArrival(pid: int, sliceNs: nat, startTs: nat, stopTs: nat, seenNs: nat)
      requires Valid()
      modifies life.Repr
      ensures Valid() && State() == Next(old(State()), Arrive(pid, sliceNs, startTs, stopTs, seenNs))
    {
      life.Store(pid, L.RecordOf(sliceNs, startTs, stopTs, seenNs));
    }

    /** A PID the kernel reports as gone. */
    method ForgetPid(pid: int)
      requires Valid()
      modifies life.Repr, trust.Repr
      ensures Valid() && State() == Next(old(State()), Exited(pid))
    {
      if pid > 0 {
        life.EvictPid(pid);
        trust.EvictPid(pid);
      }
    }

    /** Drain up to `maxBatch` reports from the exit ring; `incoming` is what the
        ring would deliver, `None` standing for an error that ends the batch. */
    method DrainExitedTasks(maxBatch: nat, incoming: seq<Option<int>>) returns (taken: nat)
      requires Valid()
      modifies life.Repr, trust.Repr
      ensures Valid() && taken <= maxBatch && taken <= |incoming|
      ensures forall i :: 0 <= i < taken ==> incoming[i].Some?
      ensures taken < maxBatch && taken < |incoming| ==> incoming[taken].None?
      ensures State() == AfterExits(old(State()), incoming[..taken])
    {
      taken := 0;
      while taken < maxBatch
        invariant Valid() && taken <= maxBatch && taken <= |incoming|
        invariant forall i :: 0 <= i < taken ==> incoming[i].Some?
        invariant State() == AfterExits(old(State()), incoming[..taken])
      {
        if taken == |incoming| || incoming[taken].None? {
          break;
        }
        assert incoming[..taken + 1][..taken] == incoming[..taken];
        ForgetPid(incoming[taken].value);
        taken := taken + 1;
      }
    }

    /** The collection loop of a flush, into a fixed array. */
    method CollectStale(now: nat) returns (list: seq<int>)
      requires Valid()
      ensures list == StaleUpTo(State().life, now, P.SIZE)
    {
      var stale := new int[STALE_MAX];
      var staleN := 0;
      for s := 0 to P.SIZE
        invariant staleN <= STALE_MAX
        invariant stale[..staleN] == StaleUpTo(life.State(), now, s)
      {
        var pid := life.pids[s];
        if pid <= 0 {
          continue;
        }
        if IsStale(life.recs[s], now) && staleN < STALE_MAX {
          stale[staleN] := pid;
          staleN := staleN + 1;
          assert stale[..staleN] == stale[..staleN - 1] + [pid];
        }
      }
      list := stale[..staleN];
    }

    method FlushPid(pid: int)
      requires Valid()
      modifies life.Repr, trust.Repr
      ensures Valid() && State() == FlushOne(old(State()), pid)
    {
      var s := life.FindSlot(pid);
      if 0 <= s < P.SIZE {
        var lt := life.recs[s];
        life.EvictPid(pid);
        trust.UpdateOnExit(pid, pid, ObservationOf(lt), "");
      }
    }

    method FlushTrustUpdates(now: nat)
      requires Valid()
      modifies life.Repr, trust.Repr
      ensures Valid() && State() == Next(old(State()), Flush(now))
    {
      var list := CollectStale(now);
      for i := 0 to |list|
        invariant Valid() && State() == FlushAll(old(State()), list[..i])
      {
        assert list[..i + 1][..i] == list[..i];
        FlushPid(list[i]);
      }
      assert list[..|list|] == list;
    }
  }

  function AfterExits(s: Sys, pids: seq<Option<int>>): (u: Sys)
    requires Sized(s)
    ensures Sized(u)
  {
    if pids == [] then s
    else
      var before := AfterExits(s, pids[..|pids| - 1]);
      match pids[|pids| - 1]
      case Some(pid) => Next(before, Exited(pid))
      case None => before
  }
}
