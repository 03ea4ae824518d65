/** The trust table as the program holds it: six arrays updated in place. */
module TrustArrays {
  import opened PidProbe
  import opened Trust
  import opened Watchlists

  class TrustTable {
    const pids: array<int>
    const scores: array<real>
    const comms: array<string>
    const flagged: array<bool>
    const streak: array<nat>
    const tgidScores: array<real>

    ghost const Repr: set<object>

    ghost predicate Valid()
      reads this, Repr
      ensures Valid() ==> this in Repr
    {
      && Repr == {this, pids, scores, comms, flagged, streak, tgidScores}
      && pids.Length == scores.Length == comms.Length == flagged.Length == streak.Length == tgidScores.Length == SIZE
      && scores != tgidScores
    }

    ghost function State(): (t: Table)
      requires Valid()
      reads this, Repr
      ensures Sized(t)
    {
      Table(pids[..], scores[..], comms[..], flagged[..], streak[..], tgidScores[..])
    }

    constructor ()
      ensures Valid() && fresh(Repr) && State() == New()
    {
      var p := new int[SIZE](_ => EMPTY);
      var sc := new real[SIZE](_ => 0.0);
      var co := new string[SIZE](_ => "");
      var fl := new bool[SIZE](_ => false);
      var st := new nat[SIZE](_ => 0);
      var tg := new real[SIZE](_ => 0.0);
      pids, scores, comms, flagged, streak, tgidScores := p, sc, co, fl, st, tg;
      Repr := {this, p, sc, co, fl, st, tg};
      new;
      assert pids[..] == New().pids && scores[..] == New().scores && comms[..] == New().comms;
      assert flagged[..] == New().flagged && streak[..] == New().streak && tgidScores[..] == New().tgidScores;
    }

    method FindSlot(pid: int) returns (slot: int)
      requires Valid()
      ensures slot == Find(State().pids, pid)
    {
      slot := ProbeForSlot(pids, pid);
    }

    method Score(pid: int) returns (r: real)
      requires Valid()
      ensures r == TrustScore(State(), pid)
    {
      var s := FindSlot(pid);
      r := if 0 <= s < SIZE then scores[s] else 0.0;
    }

    method ResetSlot(d: nat, pid: int)
      requires Valid() && d < SIZE
      modifies Repr - {this}
      ensures Valid() && State() == Reset(old(State()), d, pid)
    {
      pids[d] := pid;
      scores[d] := 0.0;
      comms[d] := "";
      flagged[d] := false;
      streak[d] := 0;
      tgidScores[d] := 0.0;
    }

    method GetOrInsertSlot(pid: int) returns (slot: nat)
      requires Valid()
      modifies Repr - {this}
      ensures Valid() && slot == InsertSlot(old(State().pids), pid)
      ensures State() == Inserted(old(State()), pid)
    {
      var present;
      slot, present := ProbeForInsert(pids, pid);
      if !present {
        ResetSlot(slot, pid);
      }
    }

    /** Cooperative signals. */
    method RewardAt(s: nat, obs: ExitObservation)
      requires Valid() && s < SIZE
      modifies scores
      ensures scores[..] == old(scores[..])[s := Cooperate(old(scores[s]), obs)]
    {
      if obs.sliceUnderrun {
        scores[s] := RealMin(scores[s] * 0.95 + 0.10, 1.0);
      }
      if obs.cleanExit && !obs.cheatFlagged {
        scores[s] := RealMin(scores[s] * 0.97 + 0.06, 1.0);
      }
    }

    /** Adversarial signals. */
    method PunishAt(s: nat, obs: ExitObservation)
      requires Valid() && s < SIZE
      modifies scores
      ensures scores[..] == old(scores[..])[s := Punish(old(scores[s]), obs)]
    {
      if obs.preempted {
        scores[s] := RealMax(scores[s] * 0.93 - 0.07, -1.0);
      }
      if obs.cheatFlagged {
        scores[s] := RealMax(scores[s] * 0.90 - 0.30, -1.0);
      }
    }

    /** Forking and involuntary switches. */
    method PenaliseAt(s: nat, obs: ExitObservation)
      requires Valid() && s < SIZE
      modifies scores
      ensures scores[..] == old(scores[..])[s := Penalise(old(scores[s]), obs)]
    {
      if obs.forkCount > 50 {
        scores[s] := RealMax(scores[s] - ForkPenalty(obs.forkCount), -1.0);
      }
      if obs.involuntaryCtxSw > 1000 {
        scores[s] := RealMax(scores[s] - 0.08, -1.0);
      }
    }

    /** The streak counter and the watchlist flag of slot `s`. */
    method MoveStreak(s: nat, obs: ExitObservation)
      requires Valid() && s < SIZE
      modifies streak, flagged
      ensures streak[..] == old(streak[..])[s := NewStreak(old(streak[s]), obs)]
      ensures flagged[..] == old(flagged[..])[s := NewFlag(old(flagged[s]), old(streak[s]), obs)]
    {
      if obs.cheatFlagged {
        streak[s] := if streak[s] < STREAK_MAX then streak[s] + 1 else STREAK_MAX;
      } else {
        streak[s] := 0;
        flagged[s] := false;
      }
      if streak[s] >= 2 {
        flagged[s] := true;
      }
    }

    /** The per-slot part of `update_on_exit`. */
    method Observe(s: nat, obs: ExitObservation, comm: string)
      requires Valid() && s < SIZE
      modifies comms, scores, streak, flagged
      ensures Valid() && State() == Observed(old(State()), s, obs, comm)
    {
      if comm != "" {
        comms[s] := StrToComm(comm);
      }
      RewardAt(s, obs);
      PunishAt(s, obs);
      PenaliseAt(s, obs);
      MoveStreak(s, obs);
    }

    /** The thread-group part: the direct claim of an empty home slot, and the blend. */
    method BlendInto(s: nat, tgid: int)
      requires Valid() && s < SIZE
      modifies pids, tgidScores
      ensures Valid() && State() == Blended(old(State()), s, tgid)
    {
      var ts := Slot(tgid);
      if pids[ts] == tgid || pids[ts] == EMPTY {
        if pids[ts] == EMPTY {
          pids[ts] := tgid;
          tgidScores[ts] := 0.0;
        }
        tgidScores[ts] := tgidScores[ts] * 0.8 + scores[s] * 0.2;
      }
    }

    method UpdateOnExit(pid: int, tgid: int, obs: ExitObservation, comm: string)
      requires Valid()
      modifies Repr - {this}
      ensures Valid() && State() == Updated(old(State()), pid, tgid, obs, comm)
    {
      var s := GetOrInsertSlot(pid);
      Observe(s, obs, comm);
      BlendInto(s, tgid);
    }

    method EvictPid(pid: int)
      requires Valid()
      modifies Repr - {this}
      ensures Valid() && State() == Evicted(old(State()), pid)
    {
      var s := FindSlot(pid);
      if 0 <= s < SIZE {
        ResetSlot(s, TOMBSTONE);
      }
    }

    method QuarantinedCount() returns (n: nat)
      requires Valid()
      ensures n == CountBad(State(), SIZE)
    {
      n := 0;
      for s := 0 to SIZE
        invariant n == CountBad(State(), s)
      {
        if pids[s] != 0 && scores[s] < TRUST_THRESHOLD && pids[s] > 0 {
          n := n + 1;
        }
      }
    }

    method FlaggedCount() returns (n: nat)
      requires Valid()
      ensures n == CountFlagged(State(), SIZE)
    {
      n := 0;
      for s := 0 to SIZE
        invariant n == CountFlagged(State(), s)
      {
        if pids[s] != 0 && flagged[s] && pids[s] > 0 {
          n := n + 1;
        }
      }
    }

    /** The scan over the slots, with its fixed output array. */
    method WorstActors() returns (list: seq<ShameEntry>, n: nat)
      requires Valid()
      ensures n <= |list| == SHAME_MAX && list[..n] == Kept(State(), SIZE)
      ensures forall i :: n <= i < SHAME_MAX ==> list[i] == ZERO_ENTRY
    {
      var out := new ShameEntry[SHAME_MAX](_ => ZERO_ENTRY);
      ghost var t := State();
      n := 0;
      for slot := 0 to SIZE
        invariant t == State() && n <= SHAME_MAX && out[..n] == Kept(t, slot)
        invariant forall i :: n <= i < SHAME_MAX ==> out[i] == ZERO_ENTRY
      {
        var pid := pids[slot];
        var score := scores[slot];
        assert pid == t.pids[slot] && score == t.scores[slot];
        if pid <= 0 {
          continue;
        }
        if score < TRUST_THRESHOLD {
          n := Offer(out, n, ShameEntry(pid, score, comms[slot], flagged[slot]));
        }
      }
      list := out[..];
    }
  }

  /** Append to the list, or overwrite its first entry with a better score. */
  method Offer(out: array<ShameEntry>, n: nat, entry: ShameEntry) returns (m: nat)
    requires n <= out.Length == SHAME_MAX
    requires forall i :: n <= i < SHAME_MAX ==> out[i] == ZERO_ENTRY
    modifies out
    ensures m <= SHAME_MAX && out[..m] == Offered(old(out[..n]), entry)
    ensures forall i :: m <= i < SHAME_MAX ==> out[i] == ZERO_ENTRY
  {
    if n < SHAME_MAX {
      out[n] := entry;
      m := n + 1;
    } else {
      m := n;
      var pos := 0;
      while pos < n && !(out[pos].trust > entry.trust)
        invariant pos <= n
        invariant forall i :: 0 <= i < pos ==> out[i].trust <= entry.trust
      {
        pos := pos + 1;
      }
      FirstBetterIs(out[..n], entry.trust, pos);
      if pos < n {
        out[pos] := entry;
      }
    }
  }
}
