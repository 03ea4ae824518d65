/** What a run tells the trust engine: every PID a flush forgets is judged once, by the
    last report drained for it, and every exit the kernel reports wipes the slate. */
module Reputation {
  import opened Options
  import opened Housekeeping
  import P = PidProbe
  import L = Lifetime
  import T = Trust

  // ------------------------------------------------------------ the last report

  /** The last report drained for `pid`. */
  function LastReport(events: seq<Event>, pid: int): Option<Event> {
    if events == [] then None
    else if events[|events| - 1].Arrive? && events[|events| - 1].pid == pid then Some(events[|events| - 1])
    else LastReport(events[..|events| - 1], pid)
  }

  /** What a record remembers of a report: the slice granted, the time it ran (none if the
      clock ran backwards), whether that was at least seven eighths of the slice, and when. */
  ghost predicate Remembers(r: L.TaskLifetime, e: Event) {
    && e.Arrive?
    && r.sliceAssignedNs == r.lastSliceNs == e.sliceNs
    && r.sliceUsedNs == (if e.stopTs > e.startTs then e.stopTs - e.startTs else 0)
    && (r.preempted <==> r.sliceUsedNs >= e.sliceNs - e.sliceNs / 8)
    && !r.cheatFlagged && r.interactiveSliceCreditNs == 0 && r.interactiveSliceBiasNs == 0
    && r.lastSeenNs == e.seenNs && r.lastStopTs == e.stopTs
  }

  ghost predicate AllWellFormed(events: seq<Event>) {
    forall i :: 0 <= i < |events| ==> WellFormed(events[i])
  }

  lemma ExitStep(s: Sys, gone: int, pid: int)
    requires Good(s) && pid > 0
    ensures Known(Next(s, Exited(gone)), pid) == if gone == pid then None else Known(s, pid)
  {
    if gone > 0 {
      L.EvictIsMapRemove(s.life, gone, if gone != pid then pid else if pid == 1 then 2 else 1);
    }
  }

  lemma FlushStep(s: Sys, now: nat, pid: int)
    requires Good(s) && pid > 0
    ensures Known(Next(s, Flush(now)), pid) in {None, Known(s, pid)}
  {
    StaleAreLive(s.life, now, P.SIZE);
    FlushForgets(s, StaleUpTo(s.life, now, P.SIZE), pid);
  }

  lemma StoredOthers(t: L.Table, p: int, rec: L.TaskLifetime, pid: int)
    requires L.Ok(t) && p > 0 && pid > 0 && p != pid
    ensures L.Lookup(L.Stored(t, p, rec), pid) in {None, L.Lookup(t, pid)}
  {
    L.StoreIsMapUpdate(t, p, rec, pid);
    L.InsertIsMapInsert(t, p, pid);
  }

  lemma RecordRemembers(e: Event)
    requires e.Arrive?
    ensures Remembers(L.RecordOf(e.sliceNs, e.startTs, e.stopTs, e.seenNs), e)
  {
  }

  lemma ArrivalStep(s: Sys, e: Event, pid: int)
    requires Good(s) && pid > 0 && e.Arrive? && e.pid > 0
    ensures e.pid == pid ==> Known(Next(s, e), pid).Some? && Remembers(Known(Next(s, e), pid).value, e)
    ensures e.pid != pid ==> Known(Next(s, e), pid) in {None, Known(s, pid)}
  {
    var rec := L.RecordOf(e.sliceNs, e.startTs, e.stopTs, e.seenNs);
    assert Next(s, e).life == L.Stored(s.life, e.pid, rec);
    if e.pid != pid {
      StoredOthers(s.life, e.pid, rec, pid);
    } else {
      L.StoreIsMapUpdate(s.life, e.pid, rec, if pid == 1 then 2 else 1);
      RecordRemembers(e);
    }
  }

  lemma KnownStep(s: Sys, e: Event, pid: int)
    requires Good(s) && WellFormed(e) && pid > 0
    ensures e.Arrive? && e.pid == pid ==> Known(Next(s, e), pid).Some? && Remembers(Known(Next(s, e), pid).value, e)
    ensures !(e.Arrive? && e.pid == pid) ==> Known(Next(s, e), pid) in {None, Known(s, pid)}
  {
    match e
    case Arrive(_, _, _, _, _) => ArrivalStep(s, e, pid);
    case Exited(gone) => ExitStep(s, gone, pid);
    case Flush(now) => FlushStep(s, now, pid);
  }

  lemma NewKnowsNobody(pid: int)
    requires pid > 0
    ensures Known(New(), pid) == None
  {
    L.FreshTable();
  }

  /** Whatever was displaced, evicted and drained again meanwhile: a known PID's record is
      that of the last report drained for it. */
  lemma {:induction false} KnownIsLastReport(events: seq<Event>, pid: int)
    requires AllWellFormed(events) && pid > 0 && Known(Run(events), pid).Some?
    ensures LastReport(events, pid).Some? && Remembers(Known(Run(events), pid).value, LastReport(events, pid).value)
  {
    if events == [] {
      NewKnowsNobody(pid);
    } else {
      var before, e := events[..|events| - 1], events[|events| - 1];
      RunIsGood(before);
      KnownStep(Run(before), e, pid);
      if !(e.Arrive? && e.pid == pid) {
        KnownIsLastReport(before, pid);
      }
    }
  }

  // ------------------------------------------------------------- what a run tells

  /** The verdict on a report: an underrun below half the slice, a preemption from seven
      eighths on, always clean. */
  ghost predicate Judges(obs: T.ExitObservation, e: Event) {
    && e.Arrive?
    && var used := if e.stopTs > e.startTs then e.stopTs - e.startTs else 0;
    && (obs.sliceUnderrun <==> used < e.sliceNs / 2)
    && (obs.preempted <==> used >= e.sliceNs - e.sliceNs / 8)
    && obs.cleanExit && !obs.cheatFlagged && obs.forkCount == 0 && obs.involuntaryCtxSw == 0
  }

  /** A flush at `now` forgets `pid`. */
  ghost predicate Forgets(s: Sys, now: nat, pid: int)
    requires Sized(s)
  {
    pid > 0 && Known(s, pid).Some? && Known(Next(s, Flush(now)), pid).None?
  }

  /** In state `s`, reached by `events`, the operation judges a PID that a flush forgets by
      its last report. */
  ghost predicate IsVerdict(s: Sys, events: seq<Event>, now: nat, op: TrustOp)
    requires Sized(s)
  {
    && op.Observe? && op.tgid == op.pid && op.comm == "" && Forgets(s, now, op.pid)
    && LastReport(events, op.pid).Some? && Judges(op.obs, LastReport(events, op.pid).value)
  }

  /** One verdict on each PID a flush forgets, in the order of their slots. */
  ghost predicate FlushTells(s: Sys, events: seq<Event>, now: nat, ops: seq<TrustOp>)
    requires Sized(s)
  {
    && (forall i :: 0 <= i < |ops| ==> IsVerdict(s, events, now, ops[i]))
    && (forall pid :: Forgets(s, now, pid) ==> exists i :: 0 <= i < |ops| && ops[i].pid == pid)
    && (forall i, j :: 0 <= i < j < |ops| ==>
          P.Find(s.life.pids, ops[i].pid) < P.Find(s.life.pids, ops[j].pid))
  }

  /** What the event after `events` tells the trust engine. */
  ghost predicate Tells(s: Sys, events: seq<Event>, e: Event, ops: seq<TrustOp>)
    requires Sized(s)
  {
    match e
    case Arrive(_, _, _, _, _) => ops == []
    case Exited(pid) => ops == if pid > 0 then [Forget(pid)] else []
    case Flush(now) => FlushTells(s, events, now, ops)
  }

  ghost predicate TellsAll(events: seq<Event>, told: seq<seq<TrustOp>>) {
    && |told| == |events|
    && forall n :: 0 <= n < |events| ==> Tells(Run(events[..n]), events[..n], events[n], told[n])
  }

  function Joined(told: seq<seq<TrustOp>>): seq<TrustOp> {
    if told == [] then [] else Joined(told[..|told| - 1]) + told[|told| - 1]
  }

  // --------------------------------------------------------------- one flush tells

  /** The verdicts on a list of PIDs, read off their records. */
  ghost function Verdicts(s: Sys, list: seq<int>): (ops: seq<TrustOp>)
    requires Sized(s) && forall i :: 0 <= i < |list| ==> Known(s, list[i]).Some?
    ensures |ops| == |list|
  {
    if list == [] then []
    else
      var before, pid := list[..|list| - 1], list[|list| - 1];
      Verdicts(s, before) + [Observe(pid, pid, ObservationOf(Known(s, pid).value), "")]
  }

  lemma {:induction false} VerdictAt(s: Sys, list: seq<int>, i: nat)
    requires Sized(s) && (forall i :: 0 <= i < |list| ==> Known(s, list[i]).Some?) && i < |list|
    ensures Verdicts(s, list)[i] == Observe(list[i], list[i], ObservationOf(Known(s, list[i]).value), "")
  {
    if i < |list| - 1 {
      VerdictAt(s, list[..|list| - 1], i);
    }
  }

  lemma FlushOneTells(s: Sys, ops: seq<TrustOp>, pid: int)
    requires Good(s) && s.trust == TrustRun(ops) && pid > 0 && Known(s, pid).Some?
    ensures FlushOne(s, pid).trust == TrustRun(ops + [Observe(pid, pid, ObservationOf(Known(s, pid).value), "")])
  {
    var op := Observe(pid, pid, ObservationOf(Known(s, pid).value), "");
    assert (ops + [op])[..|ops|] == ops;
  }

  ghost predicate AllKnown(s: Sys, list: seq<int>)
    requires Sized(s)
  {
    && (forall i :: 0 <= i < |list| ==> list[i] > 0 && Known(s, list[i]).Some?)
    && forall i, j :: 0 <= i < j < |list| ==> list[i] != list[j]
  }

  lemma FlushSparesLast(s: Sys, before: seq<int>, pid: int)
    requires Good(s) && pid > 0 && pid !in before && forall i :: 0 <= i < |before| ==> before[i] > 0
    ensures Good(FlushAll(s, before)) && Known(FlushAll(s, before), pid) == Known(s, pid)
  {
    FlushAllKeeps(s, before);
    FlushForgets(s, before, pid);
  }

  lemma Appended(a: seq<TrustOp>, b: seq<TrustOp>, op: TrustOp)
    ensures a + (b + [op]) == a + b + [op]
  {
  }

  lemma {:induction false} FlushAllTells(s: Sys, ops: seq<TrustOp>, list: seq<int>)
    requires Good(s) && s.trust == TrustRun(ops) && AllKnown(s, list)
    ensures FlushAll(s, list).trust == TrustRun(ops + Verdicts(s, list))
  {
    if list == [] {
      assert ops + Verdicts(s, list) == ops;
    } else {
      var before, pid := list[..|list| - 1], list[|list| - 1];
      FlushAllTells(s, ops, before);
      FlushSparesLast(s, before, pid);
      FlushOneTells(FlushAll(s, before), ops + Verdicts(s, before), pid);
      Appended(ops, Verdicts(s, before), Observe(pid, pid, ObservationOf(Known(s, pid).value), ""));
    }
  }

  ghost predicate InSlotOrder(t: L.Table, n: nat, list: seq<int>) {
    && (forall i :: 0 <= i < |list| ==> list[i] > 0 && 0 <= P.Find(t.pids, list[i]) < n)
    && forall i, j :: 0 <= i < j < |list| ==> P.Find(t.pids, list[i]) < P.Find(t.pids, list[j])
  }

  lemma {:induction false} StaleAscend(t: L.Table, now: nat, n: nat)
    requires L.Ok(t) && n <= P.SIZE
    ensures InSlotOrder(t, n, StaleUpTo(t, now, n))
  {
    if n == 0 {
    } else {
      StaleAscend(t, now, n - 1);
      var before, after := StaleUpTo(t, now, n - 1), StaleUpTo(t, now, n);
      if after != before {
        P.FindExact(t.pids, t.pids[n - 1]);
        assert after == before + [t.pids[n - 1]] && P.Find(t.pids, t.pids[n - 1]) == n - 1;
      }
    }
  }

  lemma RecordIsJudged(r: L.TaskLifetime, e: Event)
    requires Remembers(r, e)
    ensures Judges(ObservationOf(r), e)
  {
  }

  lemma ListedIffForgotten(s: Sys, now: nat, pid: int)
    requires Good(s) && pid > 0 && Known(s, pid).Some?
    ensures Forgets(s, now, pid) <==> pid in StaleUpTo(s.life, now, P.SIZE)
  {
    StaleAscend(s.life, now, P.SIZE);
    FlushForgets(s, StaleUpTo(s.life, now, P.SIZE), pid);
  }

  lemma StaleAreKnown(s: Sys, now: nat)
    requires Good(s)
    ensures AllKnown(s, StaleUpTo(s.life, now, P.SIZE))
  {
    StaleAscend(s.life, now, P.SIZE);
  }

  /** The records of `s` are those of the last reports. */
  ghost predicate KeepsReports(s: Sys, events: seq<Event>)
    requires Sized(s)
  {
    forall pid :: pid > 0 && Known(s, pid).Some?
      ==> LastReport(events, pid).Some? && Remembers(Known(s, pid).value, LastReport(events, pid).value)
  }

  lemma VerdictsCover(s: Sys, events: seq<Event>, now: nat, list: seq<int>, ops: seq<TrustOp>)
    requires Good(s) && KeepsReports(s, events)
    requires list == StaleUpTo(s.life, now, P.SIZE) && AllKnown(s, list) && ops == Verdicts(s, list)
    ensures FlushTells(s, events, now, ops)
  {
    forall i | 0 <= i < |ops| ensures IsVerdict(s, events, now, ops[i]) && ops[i].pid == list[i] {
      VerdictAt(s, list, i);
      ListedIffForgotten(s, now, list[i]);
      RecordIsJudged(Known(s, list[i]).value, LastReport(events, list[i]).value);
    }
    forall pid | Forgets(s, now, pid) ensures exists i :: 0 <= i < |ops| && ops[i].pid == pid {
      ListedIffForgotten(s, now, pid);
      var i :| 0 <= i < |list| && list[i] == pid;
      assert ops[i].pid == pid;
    }
    StaleAscend(s.life, now, P.SIZE);
  }

  /** A flush judges, in slot order, each PID it forgets by its last report, and nobody else. */
  lemma FlushIsTold(s: Sys, events: seq<Event>, now: nat, ops: seq<TrustOp>) returns (more: seq<TrustOp>)
    requires Good(s) && KeepsReports(s, events) && s.trust == TrustRun(ops)
    ensures FlushTells(s, events, now, more) && Next(s, Flush(now)).trust == TrustRun(ops + more)
  {
    var list := StaleUpTo(s.life, now, P.SIZE);
    StaleAreKnown(s, now);
    more := Verdicts(s, list);
    VerdictsCover(s, events, now, list, more);
    FlushAllTells(s, ops, list);
  }

  // ---------------------------------------------------------------- a whole run

  lemma TellsValid(s: Sys, events: seq<Event>, e: Event, ops: seq<TrustOp>)
    requires Sized(s) && Tells(s, events, e, ops)
    ensures ValidOps(ops)
  {
  }

  lemma StepTells(s: Sys, events: seq<Event>, e: Event, ops: seq<TrustOp>) returns (more: seq<TrustOp>)
    requires Good(s) && KeepsReports(s, events) && s.trust == TrustRun(ops)
    ensures Tells(s, events, e, more) && Next(s, e).trust == TrustRun(ops + more)
  {
    match e
    case Arrive(_, _, _, _, _) =>
      more := [];
      assert ops + more == ops;
    case Exited(pid) =>
      more := if pid > 0 then [Forget(pid)] else [];
      assert if pid > 0 then (ops + more)[..|ops|] == ops else ops + more == ops;
    case Flush(now) =>
      more := FlushIsTold(s, events, now, ops);
  }

  lemma RunKeepsReports(events: seq<Event>)
    requires AllWellFormed(events)
    ensures KeepsReports(Run(events), events)
  {
    forall pid | pid > 0 && Known(Run(events), pid).Some?
      ensures LastReport(events, pid).Some? && Remembers(Known(Run(events), pid).value, LastReport(events, pid).value)
    {
      KnownIsLastReport(events, pid);
    }
  }

  lemma NextTells(events: seq<Event>, e: Event, ops: seq<TrustOp>) returns (more: seq<TrustOp>)
    requires AllWellFormed(events) && Run(events).trust == TrustRun(ops)
    ensures Tells(Run(events), events, e, more) && ValidOps(more)
    ensures Next(Run(events), e).trust == TrustRun(ops + more)
  {
    RunIsGood(events);
    RunKeepsReports(events);
    more := StepTells(Run(events), events, e, ops);
    TellsValid(Run(events), events, e, more);
  }

  lemma TellsMore(events: seq<Event>, e: Event, told: seq<seq<TrustOp>>, more: seq<TrustOp>)
    requires TellsAll(events, told) && Tells(Run(events), events, e, more)
    ensures TellsAll(events + [e], told + [more]) && Joined(told + [more]) == Joined(told) + more
  {
    var all := events + [e];
    forall n | 0 <= n < |all| ensures Tells(Run(all[..n]), all[..n], all[n], (told + [more])[n]) {
      assert all[..n] == events[..n];
      assert n == |events| ==> all[..n] == events;
    }
    assert (told + [more])[..|told|] == told;
  }

  /** The operations `told` account for the run, event by event, and build its trust table. */
  ghost predicate Accounts(events: seq<Event>, told: seq<seq<TrustOp>>) {
    TellsAll(events, told) && ValidOps(Joined(told)) && Run(events).trust == TrustRun(Joined(told))
  }

  lemma NothingAccounts()
    ensures Accounts([], [])
  {
  }

  lemma RunOnce(events: seq<Event>, e: Event)
    ensures Run(events + [e]) == Next(Run(events), e)
  {
    assert (events + [e])[..|events|] == events;
  }

  lemma AccountsMore(events: seq<Event>, e: Event, told: seq<seq<TrustOp>>) returns (more: seq<TrustOp>)
    requires AllWellFormed(events) && Accounts(events, told)
    ensures Accounts(events + [e], told + [more])
  {
    more := NextTells(events, e, Joined(told));
    TellsMore(events, e, told, more);
    RunOnce(events, e);
  }

  /** Every run leaves the trust table that the operations it implies build: one verdict on
      each PID a flush forgets, in slot order, by the last report drained for it, and one
      eviction for each positive PID the kernel reports gone. */
  lemma {:induction false} RunTells(events: seq<Event>) returns (told: seq<seq<TrustOp>>)
    requires AllWellFormed(events)
    ensures Accounts(events, told)
  {
    if events == [] {
      told := [];
      NothingAccounts();
    } else {
      var before, e := events[..|events| - 1], events[|events| - 1];
      told := RunTells(before);
      var more := AccountsMore(before, e, told);
      told := told + [more];
      assert before + [e] == events;
    }
  }

  /** So while at most 4096 PIDs are held at a time, every PID reads, after every run, exactly
      what the verdicts on its own last reports earned since the kernel last reported it gone. */
  lemma RunIsEarned(events: seq<Event>) returns (told: seq<seq<TrustOp>>)
    requires AllWellFormed(events)
    ensures TellsAll(events, told)
    ensures (forall n :: 0 <= n <= |Joined(told)| ==> FitsAt(Joined(told), n)) ==>
              forall pid :: pid > 0 ==> Reads(Run(events).trust, pid) == Earned(Joined(told), pid)
  {
    told := RunTells(events);
    if forall n :: 0 <= n <= |Joined(told)| ==> FitsAt(Joined(told), n) {
      forall pid | pid > 0 ensures Reads(Run(events).trust, pid) == Earned(Joined(told), pid) {
        FittingRunsAreEarned(Joined(told), pid);
      }
    }
  }

  // --------------------------------------------------------------- who is flagged

  /** Adverse exits in a row of `pid`, up to its last exit and since it was last evicted. */
  function AdverseInARow(ops: seq<TrustOp>, pid: int): nat {
    if ops == [] then 0
    else
      var last, before := ops[|ops| - 1], ops[..|ops| - 1];
      if last.pid != pid then AdverseInARow(before, pid)
      else if last.Observe? && last.obs.cheatFlagged then AdverseInARow(before, pid) + 1
      else 0
  }

  /** A PID is flagged exactly while its last two exits or more were adverse; the table
      counts them up to 255. */
  lemma {:induction false} FlaggedIffAdverse(ops: seq<TrustOp>, pid: int)
    ensures Earned(ops, pid).flag <==> AdverseInARow(ops, pid) >= 2
    ensures Earned(ops, pid).streak == if AdverseInARow(ops, pid) <= 255 then AdverseInARow(ops, pid) else 255
  {
    if ops == [] {
    } else {
      FlaggedIffAdverse(ops[..|ops| - 1], pid);
    }
  }

  // ------------------------------------------------------------- who is forgotten

  /** A flush forgets a PID exactly when its last report was drained at least two seconds
      before, and not at time 0, and fewer than 256 such records lie in earlier slots. */
  lemma ForgottenIff(events: seq<Event>, now: nat, pid: int)
    requires AllWellFormed(events) && pid > 0 && Known(Run(events), pid).Some?
    ensures Sized(Run(events)) && LastReport(events, pid).Some? && LastReport(events, pid).value.Arrive?
    ensures 0 <= P.Find(Run(events).life.pids, pid) < P.SIZE
    ensures Forgets(Run(events), now, pid)
            <==> var seen := LastReport(events, pid).value.seenNs;
                 && seen > 0 && now >= seen + 2_000_000_000
                 && CountStale(Run(events).life, now, P.Find(Run(events).life.pids, pid)) < 256
  {
    RunIsGood(events);
    KnownIsLastReport(events, pid);
    FlushIsExact(Run(events), now, pid);
  }
}
