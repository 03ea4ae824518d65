/** How the userspace fallback takes work in: how many reports one call consumes, in which
    order, and which lane each task joins. */
module Intake {
  import opened Numbers
  import opened Options
  import opened Policy
  import opened Lanes
  import opened Grants

  /** From `s` to `u`, `t` joined the end of one lane: the first for kernel workers and weights
      above 9500, else the second if it was boosted, else the third. */
  ghost predicate JoinsLane(s: State, u: State, t: Task) {
    if t.isKernelWorker || t.qtask.weight > 9500 then
      u.rt == s.rt + [t] && u.boosted == s.boosted && u.general == s.general
    else if t.wakeBoosted then
      u.rt == s.rt && u.boosted == s.boosted + [t] && u.general == s.general
    else
      u.rt == s.rt && u.boosted == s.boosted && u.general == s.general + [t]
  }

  /** `t` carries the report, but for the virtual time it was given. */
  ghost predicate Carries(t: Task, r: Report) {
    && t.qtask == r.qtask.(vtime := t.qtask.vtime) && t.timestamp == r.timestamp && t.isKernelWorker == r.isKernelWorker
  }

  /** A report that is taken becomes one task that carries it, at the end of its lane. */
  lemma ReportJoinsLane(p: Profile, s: State, r: Report)
    requires Bounded(s) && !HasDeferred(s)
    ensures var u := Admit(p, s, r);
            && |u.received| == |s.received| + 1 && u.received[..|s.received|] == s.received
            && Carries(u.received[|s.received|], r) && JoinsLane(s, u, u.received[|s.received|])
            && u.lost == s.lost && u.dispatched == s.dispatched && u.sent == s.sent
  {
    var t := Derived(p, s.front, ArrivalOf(s.life, r));
    RealTimeIff(p, s.front, ArrivalOf(s.life, r));
    PushFrame(Received(p, s, r, t), t);
  }

  /** From `s` to `u`, the first `n` reports of the stream were taken, in order. */
  ghost predicate TookFirst(s: State, u: State, stream: seq<Option<Report>>, n: nat) {
    && n <= |stream| && |u.received| == |s.received| + n && u.received[..|s.received|] == s.received
    && forall i :: 0 <= i < n ==> stream[i].Some? && Carries(u.received[|s.received| + i], stream[i].value)
  }

  ghost predicate TookNext(s: State, v: State, r: Report) {
    |v.received| == |s.received| + 1 && v.received[..|s.received|] == s.received && Carries(v.received[|s.received|], r)
  }

  lemma AdmitTakes(p: Profile, s: State, r: Report)
    requires Fits(p) && Inv(p, s) && !HasDeferred(s)
    ensures Inv(p, Admit(p, s, r)) && TookNext(s, Admit(p, s, r), r)
  {
    AdmitKeeps(p, s, r);
    ReportJoinsLane(p, s, r);
  }

  lemma TookOneMore(s: State, v: State, u: State, stream: seq<Option<Report>>, n: nat)
    requires stream != [] && stream[0].Some? && TookNext(s, v, stream[0].value) && TookFirst(v, u, stream[1..], n)
    ensures TookFirst(s, u, stream, n + 1)
  {
    assert u.received[..|s.received|] == u.received[..|v.received|][..|s.received|];
    assert u.received[|s.received|] == u.received[..|v.received|][|s.received|];
    forall i | 0 <= i < n + 1 ensures stream[i].Some? && Carries(u.received[|s.received| + i], stream[i].value) {
      if i > 0 {
        assert stream[i] == stream[1..][i - 1] && |s.received| + i == |v.received| + (i - 1);
      }
    }
  }

  /** Nothing more may be taken after `n` reports. */
  predicate MustStop(u: State, budget: nat, stream: seq<Option<Report>>, n: nat) {
    n == budget || n >= |stream| || stream[n].None? || HasDeferred(u)
  }

  /** From `s` to `u`, as many reports were taken as may be: `n`. */
  ghost predicate TookAll(s: State, u: State, budget: nat, stream: seq<Option<Report>>, n: nat) {
    n <= budget && TookFirst(s, u, stream, n) && MustStop(u, budget, stream, n)
  }

  lemma TookAllOnward(s: State, v: State, u: State, budget: nat, stream: seq<Option<Report>>, n: nat)
    requires budget > 0 && stream != [] && stream[0].Some? && TookNext(s, v, stream[0].value)
    requires TookAll(v, u, budget - 1, stream[1..], n)
    ensures TookAll(s, u, budget, stream, n + 1)
  {
    TookOneMore(s, v, u, stream, n);
  }

  lemma TookNone(s: State, budget: nat, stream: seq<Option<Report>>)
    requires !Takes(s, budget, stream)
    ensures TookAll(s, s, budget, stream, 0)
  {
  }

  /** One call takes as many reports as it may: it stops at its budget, at the end of the
      stream, at an error, or when a lane uses its deferred place. */
  lemma {:induction false} DrainTakesAllItMay(p: Profile, s: State, budget: nat, stream: seq<Option<Report>>)
    returns (n: nat)
    ensures Fits(p) && Inv(p, s) ==> TookAll(s, Drained(p, s, budget, stream), budget, stream, n)
    decreases budget
  {
    n := 0;
    DrainOne(p, s, budget, stream);
    if !Takes(s, budget, stream) {
      TookNone(s, budget, stream);
    } else if Fits(p) && Inv(p, s) {
      var v := Admit(p, s, stream[0].value);
      AdmitTakes(p, s, stream[0].value);
      n := DrainTakesAllItMay(p, v, budget - 1, stream[1..]);
      TookAllOnward(s, v, Drained(p, v, budget - 1, stream[1..]), budget, stream, n);
      n := n + 1;
    }
  }

  /** In every run a round takes at most four reports for each CPU, or sixteen, and fewer
      only when there are no more, one fails, or a lane is full. */
  lemma RoundTakesItsBudget(p: Profile, events: seq<Event>, r: Round) returns (n: nat)
    requires Fits(p)
    ensures var s := Run(p, events);
            var u := Drained(p, s, Budget(r.nrCpus), r.stream);
            && TookFirst(s, u, r.stream, n) && (n <= 4 * r.nrCpus || n <= 16)
            && (n < 16 || n < 4 * r.nrCpus ==> n == |r.stream| || r.stream[n].None? || HasDeferred(u))
  {
    RunKeeps(p, events);
    n := DrainTakesAllItMay(p, Run(p, events), Budget(r.nrCpus), r.stream);
  }
}
