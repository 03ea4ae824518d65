/** Inputs the program can receive on which a tempting claim fails: each exact condition
    proved elsewhere is met with its other side. */
module Counterexamples {
  import opened Numbers
  import opened Options
  import P = PidProbe
  import L = Lifetime
  import T = Trust
  import W = Watchlists
  import H = Housekeeping
  import VirtualTime
  import Hierarchy
  import Machine
  import Runs
  import Stranding
  import Policy

  // ------------------------------------------------------------ a misleading watchlist

  /** One exit that takes culprit `s` from neutral to its score. */
  function CulpritExit(s: nat): T.ExitObservation {
    T.ExitObservation(false, false, false, true,
                      if s == 0 then 150 else if s == 1 then 100 else 200, if 2 <= s < 20 then 1001 else 0)
  }

  function CulpritOps(n: nat): (ops: seq<H.TrustOp>)
    requires n <= 21
    ensures |ops| == n
  {
    if n == 0 then []
    else CulpritOps(n - 1) + [H.Observe(W.CULPRITS[n - 1], W.CULPRITS[n - 1], CulpritExit(n - 1), "")]
  }

  lemma CulpritScore(s: nat)
    requires s < 21
    ensures T.NewScore(0.0, CulpritExit(s)) == W.ScoreOf(s)
  {
  }

  /** A new PID whose home slot is empty goes there. */
  lemma HomeIsEmpty(p: P.Pids, pid: int)
    requires pid > 0 && p[P.Slot(pid)] == P.EMPTY
    ensures P.InsertSlot(p, pid) == P.Slot(pid)
  {
  }

  lemma CulpritLands(t: T.Table, s: nat)
    requires s < 21 && W.Culprits(t, s)
    ensures W.Culprits(T.Updated(t, W.CULPRITS[s], W.CULPRITS[s], CulpritExit(s), ""), s + 1)
  {
    W.CulpritSlots(s);
    HomeIsEmpty(t.pids, W.CULPRITS[s]);
    CulpritScore(s);
  }

  lemma ObserveLast(ops: seq<H.TrustOp>, pid: int, obs: T.ExitObservation)
    ensures H.TrustRun(ops + [H.Observe(pid, pid, obs, "")]) == T.Updated(H.TrustRun(ops), pid, pid, obs, "")
  {
    assert (ops + [H.Observe(pid, pid, obs, "")])[..|ops|] == ops;
  }

  lemma {:induction false} CulpritsRun(n: nat)
    requires n <= 21
    ensures W.Culprits(H.TrustRun(CulpritOps(n)), n)
  {
    if n == 0 {
    } else {
      CulpritsRun(n - 1);
      ObserveLast(CulpritOps(n - 1), W.CULPRITS[n - 1], CulpritExit(n - 1));
      CulpritLands(H.TrustRun(CulpritOps(n - 1)), n - 1);
    }
  }

  lemma {:induction false} CulpritsAreValid(n: nat)
    requires n <= 21
    ensures H.ValidOps(CulpritOps(n))
  {
    if n == 0 {
    } else {
      CulpritsAreValid(n - 1);
      W.CulpritSlots(n - 1);
    }
  }

  /** Twenty-one exits lead to a table whose list is neither worst first nor the most
      distrusted: the last slot is listed first, over an entry worse than one that stays. */
  lemma ListCanMislead()
    ensures var t, list := H.TrustRun(CulpritOps(21)), W.Kept(H.TrustRun(CulpritOps(21)), P.SIZE);
            && T.Ok(t) && |list| == W.SHAME_MAX
            && list[0] == W.EntryAt(t, 20) && list[1] == W.EntryAt(t, 1) && W.EntryAt(t, 0) !in list
            && t.scores[0] < t.scores[1]
            && !W.WorstFirst(list) && !W.MostDistrusted(t, list) && !W.ListsEveryone(t, list)
  {
    CulpritsRun(21);
    CulpritsAreValid(21);
    H.TrustRunStaysValid(CulpritOps(21));
    W.TwentyOneMisleads(H.TrustRun(CulpritOps(21)));
  }

  // --------------------------------------------------------------- too many PIDs at once

  /** Records written for PIDs 1, 2, ..., n. */
  function Writes(n: nat, rec: L.TaskLifetime): (ops: seq<L.Op>)
    ensures |ops| == n && forall i :: 0 <= i < n ==> ops[i] == L.Put(i + 1, rec)
  {
    if n == 0 then [] else Writes(n - 1, rec) + [L.Put(n, rec)]
  }

  ghost function FirstPids(n: nat): (r: set<int>)
    ensures |r| == n && forall x :: x in r <==> 1 <= x <= n
  {
    if n == 0 then {} else FirstPids(n - 1) + {n}
  }

  lemma {:induction false} WritesMap(n: nat, rec: L.TaskLifetime)
    ensures L.Ideal(Writes(n, rec)).Keys == FirstPids(n)
    ensures forall x :: x in L.Ideal(Writes(n, rec)) ==> L.Ideal(Writes(n, rec))[x] == rec
  {
    if n == 0 {
    } else {
      WritesMap(n - 1, rec);
      assert Writes(n, rec)[..n - 1] == Writes(n - 1, rec);
    }
  }

  lemma {:induction false} WritesPrefix(n: nat, k: nat, rec: L.TaskLifetime)
    requires k <= n
    ensures Writes(n, rec)[..k] == Writes(k, rec)
  {
    if k == n {
      assert Writes(n, rec)[..n] == Writes(n, rec);
    } else {
      WritesPrefix(n - 1, k, rec);
      assert Writes(n, rec)[..k] == Writes(n - 1, rec)[..k];
    }
  }

  lemma WritesFit(n: nat, k: nat, rec: L.TaskLifetime)
    requires k <= n
    ensures L.Fits(Writes(n, rec), k) <==> k <= P.SIZE
  {
    WritesPrefix(n, k, rec);
    WritesMap(k, rec);
    assert |L.Ideal(Writes(k, rec))| == |L.Ideal(Writes(k, rec)).Keys|;
  }

  /** After 4097 tasks the table no longer answers as a map would. */
  lemma TableCanForget(rec: L.TaskLifetime) returns (n: nat)
    ensures n <= 4097 && !L.AgreesAt(Writes(4097, rec), n)
  {
    var ops := Writes(4097, rec);
    L.RunRefinesMap(ops);
    WritesFit(4097, 4097, rec);
    assert !L.Fits(ops, 4097);
    n :| 0 <= n <= |ops| && !L.AgreesAt(ops, n);
  }

  // ----------------------------------------------------------------- too many stale PIDs

  /** PIDs 1, 2, ..., n arrive, all seen at 1 ns. */
  function Arrivals(n: nat): (events: seq<H.Event>)
    ensures |events| == n
  {
    if n == 0 then [] else Arrivals(n - 1) + [H.Arrive(n, 0, 0, 0, 1)]
  }

  const SEEN := L.RecordOf(0, 0, 0, 1)

  lemma {:induction false} ArrivalsAreWrites(n: nat)
    ensures forall i :: 0 <= i < n ==> H.WellFormed(Arrivals(n)[i])
    ensures H.Run(Arrivals(n)).life == L.Exec(Writes(n, SEEN))
  {
    if n == 0 {
    } else {
      ArrivalsAreWrites(n - 1);
      assert Arrivals(n)[..n - 1] == Arrivals(n - 1);
      assert Writes(n, SEEN)[..n - 1] == Writes(n - 1, SEEN);
    }
  }

  lemma ArrivedIsKnown(n: nat, pid: int)
    requires 1 <= pid <= n <= P.SIZE
    ensures L.Lookup(H.Run(Arrivals(n)).life, pid) == Some(SEEN)
  {
    var ops := Writes(n, SEEN);
    forall k | 0 <= k <= n ensures L.Fits(ops, k) {
      WritesFit(n, k, SEEN);
    }
    L.RunRefinesMap(ops);
    ArrivalsAreWrites(n);
    assert L.AgreesAt(ops, n) && ops[..n] == ops;
    WritesMap(n, SEEN);
  }

  ghost function StalePids(t: L.Table, now: nat, n: nat): set<int>
    requires n <= P.SIZE
  {
    set s | 0 <= s < n && H.StaleAt(t, now, s) :: t.pids[s]
  }

  lemma {:induction false} StalePidsCount(t: L.Table, now: nat, n: nat)
    requires n <= P.SIZE
    ensures |StalePids(t, now, n)| <= H.CountStale(t, now, n)
  {
    if n == 0 {
      assert StalePids(t, now, 0) == {};
    } else {
      StalePidsCount(t, now, n - 1);
      var before, after := StalePids(t, now, n - 1), StalePids(t, now, n);
      if H.StaleAt(t, now, n - 1) {
        SubsetIsSmaller(after, before + {t.pids[n - 1]});
      } else {
        SubsetIsSmaller(after, before);
      }
    }
  }

  const LATER: nat := 2_000_000_001

  lemma ArrivedIsStale(n: nat, pid: int)
    requires 1 <= pid <= n <= P.SIZE && L.Ok(H.Run(Arrivals(n)).life)
    ensures pid in StalePids(H.Run(Arrivals(n)).life, LATER, P.SIZE)
  {
    var t := H.Run(Arrivals(n)).life;
    ArrivedIsKnown(n, pid);
    P.FindExact(t.pids, pid);
    assert H.StaleAt(t, LATER, P.Find(t.pids, pid));
  }

  lemma ArrivedAreStale(n: nat)
    requires n <= P.SIZE && L.Ok(H.Run(Arrivals(n)).life)
    ensures H.CountStale(H.Run(Arrivals(n)).life, LATER, P.SIZE) >= n
  {
    var t := H.Run(Arrivals(n)).life;
    forall pid | pid in FirstPids(n) ensures pid in StalePids(t, LATER, P.SIZE) {
      ArrivedIsStale(n, pid);
    }
    SubsetIsSmaller(FirstPids(n), StalePids(t, LATER, P.SIZE));
    StalePidsCount(t, LATER, P.SIZE);
  }

  lemma ArrivalsAreGood(n: nat)
    ensures H.Good(H.Run(Arrivals(n)))
  {
    ArrivalsAreWrites(n);
    H.RunIsGood(Arrivals(n));
  }

  lemma TooManyAreLeft(s: H.Sys)
    requires H.Sized(s)
    ensures H.Good(s) && H.CountStale(s.life, LATER, P.SIZE) > H.STALE_MAX ==> !H.ForgetsAllStale(s, LATER)
  {
    if H.Good(s) && H.CountStale(s.life, LATER, P.SIZE) > H.STALE_MAX {
      H.OneIsLeft(s, LATER);
    }
  }

  /** After 257 arrivals and two seconds one flush leaves a stale record behind. */
  lemma FlushCanLeaveStale()
    ensures H.Good(H.Run(Arrivals(257)))
    ensures !H.ForgetsAllStale(H.Run(Arrivals(257)), LATER)
  {
    ArrivalsAreGood(257);
    ArrivedAreStale(257);
    TooManyAreLeft(H.Run(Arrivals(257)));
  }

  // ------------------------------------------------------- a message on an occupied queue

  /** The three-LLC machine with the fallback on. */
  function WithFallback(): Hierarchy.Config {
    Stranding.ThreeLlcs().(userschedEnabled := true, userschedPid := 99)
  }

  /** A message for task 12 that names CPU 1. */
  function ToCpuOne(): Machine.Submission {
    Machine.Submission(Policy.DispatchedTask(12, 1, 0, 1_000_000, 0, 0), 1, 31)
  }

  /** A run from boot reaches a state within capacity in which task 11 waits in the queue of
      CPU 1, and a message for that CPU takes the queue over its capacity. */
  lemma MessageCanOverfill() returns (s: Machine.State)
    ensures var c := WithFallback();
            && Hierarchy.ValidConfig(c) && Stranding.Reachable(c, s) && Hierarchy.Capped(c, s.q)
            && !Hierarchy.Capped(c, Machine.UserDispatch(c, s, ToCpuOne()).q)
  {
    var c := WithFallback();
    Stranding.ThreeLlcsFacts();
    Stranding.BootIsReachable(c);
    s := Stranding.Arrive(c, Machine.BOOT, 11, {0, 1, 2}, 1);
    Stranding.ReachNext(c, s, Machine.EvInit(12, 100, {1}, false));
    s := Machine.Next(c, s, Machine.EvInit(12, 100, {1}, false));
    OverfilledBy(c, s);
  }

  lemma OverfilledBy(c: Hierarchy.Config, s: Machine.State)
    requires c == WithFallback() && Hierarchy.ValidConfig(c) && Hierarchy.Capped(c, s.q)
    requires 12 in s.tasks && s.tasks[12].cpus == {1} && s.tasks[12].enqCnt == 0
    requires 1 in s.q && |s.q[1]| == 1
    ensures !Hierarchy.Capped(c, Machine.UserDispatch(c, s, ToCpuOne()).q)
  {
    Runs.UserKeepsCappedIff(c, s, ToCpuOne());
  }

  // ------------------------------------------------------------------------ virtual time

  /** At 2^63 ns of virtual time a task is pulled back to zero. */
  lemma CatchUpCanFail()
    ensures VirtualTime.CatchUp(0, 0, TWO63) == 0 < Max(TWO63, 0 - 0)
  {
  }
}
