/** The trust table of src/ai/trust.rs: six parallel fixed arrays, probed as in
    PidProbe, plus one write outside the probe routine.  Scores are exact reals. */
module Trust {
  import opened PidProbe

  const TRUST_THRESHOLD: real := -0.35
  const STREAK_MAX: nat := 255

  datatype ExitObservation = ExitObservation(
    sliceUnderrun: bool,
    preempted: bool,
    cleanExit: bool,
    cheatFlagged: bool,
    forkCount: nat,
    involuntaryCtxSw: nat)

  function RealMin(x: real, y: real): real { if x <= y then x else y }

  function RealMax(x: real, y: real): real { if x <= y then y else x }

  /** A name cut to the 15 bytes that leave room for the terminator. */
  function StrToComm(s: string): (r: string)
    ensures r <= s && |r| <= 15 && (|r| == 15 || r == s)
  {
    if |s| <= 15 then s else s[..15]
  }

  // ------------------------------------------------------------- score update

  function Cooperate(s: real, obs: ExitObservation): real {
    var s1 := if obs.sliceUnderrun then RealMin(s * 0.95 + 0.10, 1.0) else s;
    if obs.cleanExit && !obs.cheatFlagged then RealMin(s1 * 0.97 + 0.06, 1.0) else s1
  }

  function Punish(s: real, obs: ExitObservation): real {
    var s1 := if obs.preempted then RealMax(s * 0.93 - 0.07, -1.0) else s;
    if obs.cheatFlagged then RealMax(s1 * 0.90 - 0.30, -1.0) else s1
  }

  function ForkPenalty(forks: nat): real {
    if forks > 50 then RealMin((forks - 50) as real * 0.002, 0.30) else 0.0
  }

  function Penalise(s: real, obs: ExitObservation): real {
    var s1 := if obs.forkCount > 50 then RealMax(s - ForkPenalty(obs.forkCount), -1.0) else s;
    if obs.involuntaryCtxSw > 1000 then RealMax(s1 - 0.08, -1.0) else s1
  }

  function NewScore(s: real, obs: ExitObservation): real {
    Penalise(Punish(Cooperate(s, obs), obs), obs)
  }

  function NewStreak(streak: nat, obs: ExitObservation): nat {
    if obs.cheatFlagged then (if streak < STREAK_MAX then streak + 1 else STREAK_MAX) else 0
  }

  function NewFlag(flag: bool, streak: nat, obs: ExitObservation): bool {
    NewStreak(streak, obs) >= 2 || (obs.cheatFlagged && flag)
  }

  lemma ScoreStaysInUnit(s: real, obs: ExitObservation)
    requires -1.0 <= s <= 1.0
    ensures -1.0 <= NewScore(s, obs) <= 1.0
  {
    assert -1.0 <= Cooperate(s, obs) <= 1.0;
    assert -1.0 <= Punish(Cooperate(s, obs), obs) <= 1.0;
    assert 0.0 <= ForkPenalty(obs.forkCount);
  }

  /** A better past never makes a worse present. */
  lemma ScoreIsMonotone(s: real, u: real, obs: ExitObservation)
    requires s <= u
    ensures NewScore(s, obs) <= NewScore(u, obs)
  {
    assert Cooperate(s, obs) <= Cooperate(u, obs);
    assert Punish(Cooperate(s, obs), obs) <= Punish(Cooperate(u, obs), obs);
  }

  lemma PenaltiesAreStrict(s: real, u: real, obs: ExitObservation)
    requires -1.0 <= s < u <= 1.0 && Penalise(Punish(u, obs), obs) > -1.0
    ensures Penalise(Punish(s, obs), obs) < Penalise(Punish(u, obs), obs)
  {
    assert Punish(u, obs) > -1.0 && Punish(s, obs) < Punish(u, obs);
  }

  /** Leaving most of the slice unused strictly raises the score, up to 0.85 and off the
      bottom. */
  lemma UnderrunPays(s: real, obs: ExitObservation)
    requires -1.0 <= s <= 0.85
    ensures NewScore(s, obs.(sliceUnderrun := true)) > -1.0
            ==> NewScore(s, obs.(sliceUnderrun := true)) > NewScore(s, obs.(sliceUnderrun := false))
  {
    var a, b := obs.(sliceUnderrun := true), obs.(sliceUnderrun := false);
    assert -1.0 <= Cooperate(s, b) < Cooperate(s, a) <= 1.0;
    if NewScore(s, a) > -1.0 {
      PenaltiesAreStrict(Cooperate(s, b), Cooperate(s, a), a);
      SamePenalties(Cooperate(s, b), a, b);
    }
  }

  lemma SamePenalties(s: real, a: ExitObservation, b: ExitObservation)
    requires a.preempted == b.preempted && a.cheatFlagged == b.cheatFlagged
    requires a.forkCount == b.forkCount && a.involuntaryCtxSw == b.involuntaryCtxSw
    ensures Penalise(Punish(s, a), a) == Penalise(Punish(s, b), b)
  {
  }

  /** So does a clean exit, which counts for nothing beside a cheat. */
  lemma CleanExitPays(s: real, obs: ExitObservation)
    requires -1.0 <= s <= 0.85
    ensures !obs.cheatFlagged && NewScore(s, obs.(cleanExit := true)) > -1.0
            ==> NewScore(s, obs.(cleanExit := true)) > NewScore(s, obs.(cleanExit := false))
    ensures obs.cheatFlagged ==> NewScore(s, obs.(cleanExit := true)) == NewScore(s, obs.(cleanExit := false))
  {
    var a, b := obs.(cleanExit := true), obs.(cleanExit := false);
    if !obs.cheatFlagged && NewScore(s, a) > -1.0 {
      assert -1.0 <= Cooperate(s, b) < Cooperate(s, a) <= 1.0;
      PenaltiesAreStrict(Cooperate(s, b), Cooperate(s, a), a);
      SamePenalties(Cooperate(s, b), a, b);
    }
  }

  /** Burning the slice, a cheat flag, more than 50 forks and more than 1000 involuntary
      switches each strictly lower it, off the bottom. */
  lemma AbuseCosts(s: real, obs: ExitObservation)
    requires -1.0 <= s <= 1.0
    ensures NewScore(s, obs.(preempted := false)) > -1.0
            ==> NewScore(s, obs.(preempted := true)) < NewScore(s, obs.(preempted := false))
    ensures NewScore(s, obs.(cheatFlagged := false)) > -1.0
            ==> NewScore(s, obs.(cheatFlagged := true)) < NewScore(s, obs.(cheatFlagged := false))
    ensures obs.forkCount > 50 && NewScore(s, obs.(forkCount := 50)) > -1.0
            ==> NewScore(s, obs) < NewScore(s, obs.(forkCount := 50))
    ensures obs.involuntaryCtxSw > 1000 && NewScore(s, obs.(involuntaryCtxSw := 1000)) > -1.0
            ==> NewScore(s, obs) < NewScore(s, obs.(involuntaryCtxSw := 1000))
  {
    BurningCosts(s, obs);
    CheatingCosts(s, obs);
    ForkingCosts(s, obs);
  }

  lemma BurningCosts(s: real, obs: ExitObservation)
    requires -1.0 <= s <= 1.0
    ensures NewScore(s, obs.(preempted := false)) > -1.0
            ==> NewScore(s, obs.(preempted := true)) < NewScore(s, obs.(preempted := false))
  {
    var x, a, b := Cooperate(s, obs), obs.(preempted := true), obs.(preempted := false);
    assert -1.0 <= x <= 1.0 && Cooperate(s, a) == x && Cooperate(s, b) == x;
    if NewScore(s, b) > -1.0 {
      assert x > -1.0 && -1.0 <= Punish(x, a) < Punish(x, b) <= 1.0;
    }
  }

  lemma CheatingCosts(s: real, obs: ExitObservation)
    requires -1.0 <= s <= 1.0
    ensures NewScore(s, obs.(cheatFlagged := false)) > -1.0
            ==> NewScore(s, obs.(cheatFlagged := true)) < NewScore(s, obs.(cheatFlagged := false))
  {
    var a, b := obs.(cheatFlagged := true), obs.(cheatFlagged := false);
    assert -1.0 <= Cooperate(s, a) <= Cooperate(s, b) <= 1.0;
    if NewScore(s, b) > -1.0 {
      assert -1.0 <= Punish(Cooperate(s, a), a) < Punish(Cooperate(s, b), b) <= 1.0;
    }
  }

  lemma ForkingCosts(s: real, obs: ExitObservation)
    requires -1.0 <= s <= 1.0
    ensures obs.forkCount > 50 && NewScore(s, obs.(forkCount := 50)) > -1.0
            ==> NewScore(s, obs) < NewScore(s, obs.(forkCount := 50))
    ensures obs.involuntaryCtxSw > 1000 && NewScore(s, obs.(involuntaryCtxSw := 1000)) > -1.0
            ==> NewScore(s, obs) < NewScore(s, obs.(involuntaryCtxSw := 1000))
  {
    assert obs.forkCount > 50 ==> 0.0 < ForkPenalty(obs.forkCount) <= 0.30;
  }

  lemma PenaltyIsCapped(s: real, obs: ExitObservation, forks: nat, switches: nat)
    requires -1.0 <= s <= 1.0
    ensures obs.forkCount <= 50 && forks <= 50 ==> Penalise(s, obs) == Penalise(s, obs.(forkCount := forks))
    ensures obs.involuntaryCtxSw <= 1000 && switches <= 1000
            ==> Penalise(s, obs) == Penalise(s, obs.(involuntaryCtxSw := switches))
    ensures Penalise(s, obs.(forkCount := 0)) - 0.3 <= Penalise(s, obs)
    ensures obs.forkCount <= forks ==> Penalise(s, obs.(forkCount := forks)) <= Penalise(s, obs)
  {
    assert obs.forkCount > 50 ==> 0.0 <= ForkPenalty(obs.forkCount) <= 0.30;
    assert obs.forkCount <= forks ==> ForkPenalty(obs.forkCount) <= ForkPenalty(forks);
  }

  lemma CountsComeLast(s: real, obs: ExitObservation, forks: nat, switches: nat)
    requires -1.0 <= s <= 1.0
    ensures var x := Punish(Cooperate(s, obs), obs);
            && -1.0 <= x <= 1.0 && NewScore(s, obs) == Penalise(x, obs)
            && NewScore(s, obs.(forkCount := forks)) == Penalise(x, obs.(forkCount := forks))
            && NewScore(s, obs.(involuntaryCtxSw := switches)) == Penalise(x, obs.(involuntaryCtxSw := switches))
  {
    assert -1.0 <= Cooperate(s, obs) <= 1.0;
  }

  /** Up to 50 forks and 1000 switches the counts do not matter; beyond, more forks never
      cost less, and all of them together at most 0.3. */
  lemma CountsMatterBeyond(s: real, obs: ExitObservation, forks: nat, switches: nat)
    requires -1.0 <= s <= 1.0
    ensures obs.forkCount <= 50 && forks <= 50 ==> NewScore(s, obs) == NewScore(s, obs.(forkCount := forks))
    ensures obs.involuntaryCtxSw <= 1000 && switches <= 1000
            ==> NewScore(s, obs) == NewScore(s, obs.(involuntaryCtxSw := switches))
    ensures NewScore(s, obs.(forkCount := 0)) - 0.3 <= NewScore(s, obs)
    ensures obs.forkCount <= forks ==> NewScore(s, obs.(forkCount := forks)) <= NewScore(s, obs)
  {
    CountsComeLast(s, obs, forks, switches);
    CountsComeLast(s, obs, 0, switches);
    PenaltyIsCapped(Punish(Cooperate(s, obs), obs), obs, forks, switches);
  }

  /** Where the first exit takes a PID nobody knows. */
  lemma FirstImpressions()
    ensures NewScore(0.0, ExitObservation(true, false, true, false, 0, 0)) == 0.157
    ensures NewScore(0.0, ExitObservation(false, false, true, false, 0, 0)) == 0.06
    ensures NewScore(0.0, ExitObservation(false, true, true, false, 0, 0)) == -0.0142
    ensures NewScore(0.0, ExitObservation(false, false, false, true, 0, 0)) == -0.3
    ensures NewScore(0.0, ExitObservation(false, false, false, false, 51, 1001)) == -0.082
  {
  }

  // ------------------------------------------------------- the table as a value

  datatype Table = Table(
    pids: Pids,
    scores: seq<real>,
    comms: seq<string>,
    flagged: seq<bool>,
    streak: seq<nat>,
    tgidScores: seq<real>)

  ghost predicate Sized(t: Table) {
    |t.scores| == |t.comms| == |t.flagged| == |t.streak| == |t.tgidScores| == SIZE
  }

  /** A slot nobody has claimed carries neutral data: the direct claim relies on it. */
  ghost predicate Neutral(t: Table)
    requires Sized(t)
  {
    forall s :: 0 <= s < SIZE && t.pids[s] == EMPTY
                ==> t.scores[s] == 0.0 && !t.flagged[s] && t.streak[s] == 0
  }

  /** A PID is watchlisted exactly while its last two observed exits were adverse. */
  ghost predicate FlagIsStreak(t: Table)
    requires Sized(t)
  {
    forall s :: 0 <= s < SIZE ==> (t.flagged[s] <==> t.streak[s] >= 2)
  }

  ghost predicate Ok(t: Table) {
    Sized(t) && Inv(t.pids) && Neutral(t) && FlagIsStreak(t)
  }

  function New(): (t: Table)
    ensures Sized(t)
  {
    Table(seq(SIZE, _ => EMPTY), seq(SIZE, _ => 0.0), seq(SIZE, _ => ""),
          seq(SIZE, _ => false), seq(SIZE, _ => 0), seq(SIZE, _ => 0.0))
  }

  function TrustScore(t: Table, pid: int): real
    requires Sized(t)
  {
    var s := Find(t.pids, pid);
    if 0 <= s < SIZE then t.scores[s] else 0.0
  }

  function IsFlagged(t: Table, pid: int): bool
    requires Sized(t)
  {
    var s := Find(t.pids, pid);
    0 <= s < SIZE && t.flagged[s]
  }

  function Streak(t: Table, pid: int): nat
    requires Sized(t)
  {
    var s := Find(t.pids, pid);
    if 0 <= s < SIZE then t.streak[s] else 0
  }

  function Reset(t: Table, d: nat, pid: int): (u: Table)
    requires Sized(t) && d < SIZE
    ensures Sized(u)
  {
    Table(t.pids[d := pid], t.scores[d := 0.0], t.comms[d := ""],
          t.flagged[d := false], t.streak[d := 0], t.tgidScores[d := 0.0])
  }

  function Inserted(t: Table, pid: int): (u: Table)
    requires Sized(t)
    ensures Sized(u)
  {
    var d := InsertSlot(t.pids, pid);
    if t.pids[d] == pid then t else Reset(t, d, pid)
  }

  function Observed(t: Table, s: nat, obs: ExitObservation, comm: string): (u: Table)
    requires Sized(t) && s < SIZE
    ensures Sized(u)
  {
    t.(comms := if comm == "" then t.comms else t.comms[s := StrToComm(comm)],
       scores := t.scores[s := NewScore(t.scores[s], obs)],
       flagged := t.flagged[s := NewFlag(t.flagged[s], t.streak[s], obs)],
       streak := t.streak[s := NewStreak(t.streak[s], obs)])
  }

  /** Blend the score of slot `s` into the thread group's slot, claiming that slot
      when nobody owns it. */
  function Blended(t: Table, s: nat, tgid: int): (u: Table)
    requires Sized(t) && s < SIZE
    ensures Sized(u)
  {
    var ts := Slot(tgid);
    if t.pids[ts] == tgid || t.pids[ts] == EMPTY then
      var base := if t.pids[ts] == EMPTY then 0.0 else t.tgidScores[ts];
      t.(pids := Claim(t.pids, tgid),
         tgidScores := t.tgidScores[ts := base * 0.8 + t.scores[s] * 0.2])
    else t
  }

  function Updated(t: Table, pid: int, tgid: int, obs: ExitObservation, comm: string): (u: Table)
    requires Sized(t)
    ensures Sized(u)
  {
    var s := InsertSlot(t.pids, pid);
    Blended(Observed(Inserted(t, pid), s, obs, comm), s, tgid)
  }

  function Evicted(t: Table, pid: int): (u: Table)
    requires Sized(t)
    ensures Sized(u)
  {
    var s := Find(t.pids, pid);
    if 0 <= s < SIZE then Reset(t, s, TOMBSTONE) else t
  }

  // ------------------------------------------------------- what one call changes

  /** The two tables say the same about `q`. */
  ghost predicate SameOn(t: Table, u: Table, q: int)
    requires Sized(t) && Sized(u)
  {
    TrustScore(u, q) == TrustScore(t, q) && IsFlagged(u, q) == IsFlagged(t, q) && Streak(u, q) == Streak(t, q)
  }

  lemma SameSlot(t: Table, u: Table, q: int)
    requires Ok(t) && Ok(u) && q > 0
    requires forall s :: 0 <= s < SIZE && t.pids[s] == q ==>
               u.pids[s] == q && u.scores[s] == t.scores[s] && u.flagged[s] == t.flagged[s]
                   && u.streak[s] == t.streak[s]
    requires forall s :: 0 <= s < SIZE && u.pids[s] == q ==> t.pids[s] == q
    ensures SameOn(t, u, q)
  {
    FindExact(t.pids, q);
    FindExact(u.pids, q);
  }

  /** `other` is the PID an insertion of `pid` displaces. */
  ghost predicate Displaced(t: Table, pid: int, other: int) {
    pid !in t.pids && AllLive(t.pids) && other == t.pids[Slot(pid)]
  }

  lemma InsertedOk(t: Table, pid: int)
    requires Ok(t) && pid > 0
    ensures Ok(Inserted(t, pid)) && Inserted(t, pid).pids == Insert(t.pids, pid)
    ensures SameOn(t, Inserted(t, pid), pid)
  {
    var u := Inserted(t, pid);
    InsertKeeps(t.pids, pid);
    FindExact(t.pids, pid);
    FindExact(u.pids, pid);
  }

  lemma InsertedOthers(t: Table, pid: int, other: int)
    requires Ok(t) && pid > 0 && other > 0 && other != pid
    ensures !Displaced(t, pid, other) ==> SameOn(t, Inserted(t, pid), other)
    ensures Displaced(t, pid, other)
            ==> TrustScore(Inserted(t, pid), other) == 0.0 && !IsFlagged(Inserted(t, pid), other)
  {
    var u := Inserted(t, pid);
    var d := InsertSlot(t.pids, pid);
    InsertedOk(t, pid);
    InsertKeeps(t.pids, pid);
    if t.pids[d] != pid {
      if t.pids[d] == other {
        FindExact(u.pids, other);
      } else {
        SameSlot(t, u, other);
      }
    }
  }

  lemma ObservedEffect(t: Table, pid: int, s: nat, obs: ExitObservation, comm: string, other: int)
    requires Ok(t) && pid > 0 && s < SIZE && t.pids[s] == pid && other > 0 && other != pid
    ensures Ok(Observed(t, s, obs, comm)) && SameOn(t, Observed(t, s, obs, comm), other)
    ensures TrustScore(Observed(t, s, obs, comm), pid) == NewScore(TrustScore(t, pid), obs)
    ensures IsFlagged(Observed(t, s, obs, comm), pid) == NewFlag(IsFlagged(t, pid), Streak(t, pid), obs)
    ensures Streak(Observed(t, s, obs, comm), pid) == NewStreak(Streak(t, pid), obs)
  {
    FindExact(t.pids, pid);
    FindExact(t.pids, other);
  }

  lemma BlendedOk(t: Table, s: nat, tgid: int)
    requires Ok(t) && s < SIZE && tgid > 0
    ensures Ok(Blended(t, s, tgid))
  {
    ClaimKeeps(t.pids, tgid);
  }

  lemma BlendedSelf(t: Table, s: nat, tgid: int)
    requires Ok(t) && s < SIZE && tgid > 0
    ensures SameOn(t, Blended(t, s, tgid), tgid)
  {
    BlendedOk(t, s, tgid);
    ClaimKeeps(t.pids, tgid);
    FindExact(t.pids, tgid);
    FindExact(Blended(t, s, tgid).pids, tgid);
  }

  lemma ClaimMembers(p: Pids, tgid: int, other: int)
    requires Inv(p) && tgid > 0 && other > 0 && other != tgid
    ensures forall s :: 0 <= s < SIZE ==> (p[s] == other <==> Claim(p, tgid)[s] == other)
  {
  }

  /** The direct claim changes nobody's score or flag, not even those of the PID
      it gives a slot to. */
  lemma BlendedEffect(t: Table, s: nat, tgid: int, other: int)
    requires Ok(t) && s < SIZE && tgid > 0 && other > 0
    ensures Ok(Blended(t, s, tgid)) && SameOn(t, Blended(t, s, tgid), other)
  {
    BlendedOk(t, s, tgid);
    if other == tgid {
      BlendedSelf(t, s, tgid);
    } else {
      ClaimMembers(t.pids, tgid, other);
      SameSlot(t, Blended(t, s, tgid), other);
    }
  }

  /** One exit observation moves exactly the score, streak and flag of its own
      PID, by the stated update; any other PID keeps both unless it is the one
      displaced from a table whose slots are all live, which reads as neutral. */
  lemma UpdateEffect(t: Table, pid: int, tgid: int, obs: ExitObservation, comm: string, other: int)
    requires Ok(t) && pid > 0 && tgid > 0 && other > 0 && other != pid
    ensures Ok(Updated(t, pid, tgid, obs, comm))
    ensures TrustScore(Updated(t, pid, tgid, obs, comm), pid) == NewScore(TrustScore(t, pid), obs)
    ensures IsFlagged(Updated(t, pid, tgid, obs, comm), pid) == NewFlag(IsFlagged(t, pid), Streak(t, pid), obs)
    ensures Streak(Updated(t, pid, tgid, obs, comm), pid) == NewStreak(Streak(t, pid), obs)
    ensures !Displaced(t, pid, other) ==> SameOn(t, Updated(t, pid, tgid, obs, comm), other)
    ensures Displaced(t, pid, other) ==> TrustScore(Updated(t, pid, tgid, obs, comm), other) == 0.0
                                         && !IsFlagged(Updated(t, pid, tgid, obs, comm), other)
  {
    var s := InsertSlot(t.pids, pid);
    var a := Inserted(t, pid);
    var b := Observed(a, s, obs, comm);
    InsertKeeps(t.pids, pid);
    InsertedOk(t, pid);
    InsertedOthers(t, pid, other);
    ObservedEffect(a, pid, s, obs, comm, other);
    BlendedEffect(b, s, tgid, other);
    BlendedEffect(b, s, tgid, pid);
  }

  lemma EvictEffect(t: Table, pid: int, other: int)
    requires Ok(t) && pid > 0 && other > 0 && other != pid
    ensures Ok(Evicted(t, pid)) && SameOn(t, Evicted(t, pid), other)
    ensures TrustScore(Evicted(t, pid), pid) == 0.0 && !IsFlagged(Evicted(t, pid), pid)
                && Streak(Evicted(t, pid), pid) == 0
  {
    var u := Evicted(t, pid);
    FindExact(t.pids, pid);
    EvictKeeps(t.pids, pid);
    FindExact(u.pids, pid);
    SameSlot(t, u, other);
  }

  /** The thread group's score moves a fifth of the way to the score of the exit, from
      neutral if nobody owned its slot, and stays put if somebody else does. */
  lemma GroupFollows(t: Table, s: nat, tgid: int)
    requires Sized(t) && s < SIZE && tgid > 0
    ensures var ts, u := Slot(tgid), Blended(t, s, tgid);
            var base := if t.pids[ts] == tgid then t.tgidScores[ts] else 0.0;
            if t.pids[ts] == tgid || t.pids[ts] == EMPTY then
              u.pids[ts] == tgid && 5.0 * (u.tgidScores[ts] - base) == t.scores[s] - base
            else u == t
    ensures forall i :: 0 <= i < SIZE && i != Slot(tgid)
              ==> Blended(t, s, tgid).tgidScores[i] == t.tgidScores[i] && Blended(t, s, tgid).pids[i] == t.pids[i]
  {
    assert Claim(t.pids, tgid) in {t.pids, t.pids[Slot(tgid) := tgid]};
  }

  // ---------------------------------------------------------------- score bounds

  /** The fixed point of a preempted, never cheat-flagged exit. */
  const FLOOR: real := -142.0 / 979.0

  ghost predicate Within(t: Table, lo: real)
    requires Sized(t)
  {
    forall s :: 0 <= s < SIZE ==> lo <= t.scores[s] <= 1.0
  }

  /** Observations as the scheduler builds them from its lifetime records. */
  predicate FromLifetime(obs: ExitObservation) {
    && !obs.cheatFlagged && obs.cleanExit
    && !(obs.sliceUnderrun && obs.preempted)
    && obs.forkCount == 0 && obs.involuntaryCtxSw == 0
  }

  lemma ScoreStaysAboveFloor(s: real, obs: ExitObservation)
    requires FLOOR <= s <= 1.0 && FromLifetime(obs)
    ensures FLOOR <= NewScore(s, obs) <= 1.0
  {
    if obs.preempted {
      assert Cooperate(s, obs) == RealMin(s * 0.97 + 0.06, 1.0);
      assert FLOOR * 0.97 + 0.06 <= Cooperate(s, obs) <= 1.0;
      assert (FLOOR * 0.97 + 0.06) * 0.93 - 0.07 == FLOOR;
    } else if obs.sliceUnderrun {
      assert 0.0 <= RealMin(s * 0.95 + 0.10, 1.0) <= 1.0 || FLOOR <= RealMin(s * 0.95 + 0.10, 1.0) <= 1.0;
    }
  }

  ghost predicate Admissible(lo: real, obs: ExitObservation) {
    lo == -1.0 || (lo == FLOOR && FromLifetime(obs))
  }

  lemma UpdateKeepsWithin(t: Table, pid: int, tgid: int, obs: ExitObservation, comm: string, lo: real)
    requires Sized(t) && Within(t, lo) && Admissible(lo, obs)
    ensures Within(Updated(t, pid, tgid, obs, comm), lo)
  {
    var s := InsertSlot(t.pids, pid);
    var a := Inserted(t, pid);
    assert Within(a, lo);
    if lo == -1.0 {
      ScoreStaysInUnit(a.scores[s], obs);
    } else {
      ScoreStaysAboveFloor(a.scores[s], obs);
    }
    assert Within(Observed(a, s, obs, comm), lo);
  }

  lemma EvictKeepsWithin(t: Table, pid: int, lo: real)
    requires Sized(t) && Within(t, lo) && lo <= 0.0
    ensures Within(Evicted(t, pid), lo)
  {
  }

  /** The floor is sharp: `n` preempted exits in a row take a neutral score to
      `FLOOR * (1 - 0.9021^n)`, so no larger bound than FLOOR survives every run. */
  function AfterPreempted(n: nat): real {
    if n == 0 then 0.0
    else NewScore(AfterPreempted(n - 1), ExitObservation(false, true, true, false, 0, 0))
  }

  function Power(x: real, n: nat): real {
    if n == 0 then 1.0 else x * Power(x, n - 1)
  }

  lemma {:induction false} FloorIsSharp(n: nat)
    ensures AfterPreempted(n) == FLOOR * (1.0 - Power(0.9021, n))
    ensures FLOOR <= AfterPreempted(n) <= 0.0 && 0.0 < Power(0.9021, n) <= 1.0
  {
    if n == 0 {
    } else {
      FloorIsSharp(n - 1);
      var s := AfterPreempted(n - 1);
      assert s * 0.97 + 0.06 <= 1.0;
      assert AfterPreempted(n) == RealMax((s * 0.97 + 0.06) * 0.93 - 0.07, -1.0);
      assert AfterPreempted(n) == s * 0.9021 - 0.0142;
      assert FLOOR * 0.9021 - 0.0142 == FLOOR;
    }
  }

  // ------------------------------------------------------------------ quarantine

  predicate Bad(t: Table, s: nat)
    requires Sized(t) && s < SIZE
  {
    t.pids[s] > 0 && t.scores[s] < TRUST_THRESHOLD
  }

  function CountBad(t: Table, n: nat): nat
    requires Sized(t) && n <= SIZE
  {
    if n == 0 then 0 else CountBad(t, n - 1) + if Bad(t, n - 1) then 1 else 0
  }

  function CountFlagged(t: Table, n: nat): nat
    requires Sized(t) && n <= SIZE
  {
    if n == 0 then 0 else CountFlagged(t, n - 1) + if t.pids[n - 1] > 0 && t.flagged[n - 1] then 1 else 0
  }

  /** A table whose scores respect the floor has nobody on the watchlist. */
  lemma {:induction false} NobodyBelowFloor(t: Table, n: nat)
    requires Sized(t) && Within(t, FLOOR) && n <= SIZE
    ensures CountBad(t, n) == 0
  {
    if n == 0 {
    } else {
      NobodyBelowFloor(t, n - 1);
      assert FLOOR > TRUST_THRESHOLD;
    }
  }
}
