/** The three userspace lanes of src/main.rs as values: intake, strict-priority
    pop, dispatch with possible failure, and whole runs of `schedule()` rounds with
    tasks forgotten in between. */
module Lanes {
  import opened Numbers
  import opened Options
  import opened Policy
  import L = Lifetime

  const QUEUE_DEPTH: nat := 16_384
  /** One ring plus its deferred slot. */
  const LANE_MAX: nat := QUEUE_DEPTH + 1

  /** The scheduler's lanes, clock and lifetime table, with the histories the claims are
      about: tasks taken from the kernel, tasks handed back, the messages that carried
      them, tasks that found no room, and the records written. */
  datatype State = State(
    rt: seq<Task>, boosted: seq<Task>, general: seq<Task>,
    front: nat, nrScheduled: nat, sent: seq<DispatchedTask>,
    received: seq<Task>, dispatched: seq<Task>, lost: seq<Task>,
    life: L.Table, log: seq<L.Op>)

  function Idle(): State {
    State([], [], [], 0, 0, [], [], [], [], L.New(), [])
  }

  /** What the kernel ring delivers, with the controller's slice, the kernel-worker name
      test and two clock readings. */
  datatype Report = Report(qtask: QueuedTask, aiSliceNs: nat, isKernelWorker: bool, timestamp: nat, seenNs: nat)

  /** The report, seen with the record its PID left last time. */
  function ArrivalOf(life: L.Table, r: Report): Arrival {
    Arrival(r.qtask, L.Lookup(life, r.qtask.pid), r.aiSliceNs, r.isKernelWorker, r.timestamp)
  }

  function RecordFor(t: Task, r: Report): L.TaskLifetime {
    L.RecordOf(t.sliceNs, r.qtask.startTs, r.qtask.stopTs, r.seenNs)
  }

  function Waiting(s: State): seq<Task> {
    s.rt + s.boosted + s.general
  }

  predicate HasDeferred(s: State) {
    |s.rt| == LANE_MAX || |s.boosted| == LANE_MAX || |s.general| == LANE_MAX
  }

  function Append(lane: seq<Task>, t: Task): seq<Task> {
    if |lane| >= LANE_MAX then lane else lane + [t]
  }

  function LaneFor(s: State, t: Task): seq<Task> {
    if t.kind.RealTime? then s.rt else if t.wakeBoosted then s.boosted else s.general
  }

  /** `push_task`: the third outcome, where the task is dropped, is in the code. */
  function Push(s: State, t: Task): State {
    var s' := if |LaneFor(s, t)| >= LANE_MAX then s.(lost := s.lost + [t]) else s;
    if t.kind.RealTime? then s'.(rt := Append(s.rt, t))
    else if t.wakeBoosted then s'.(boosted := Append(s.boosted, t))
    else s'.(general := Append(s.general, t))
  }

  /** The state once `t` was received in report `r`, before it is pushed. */
  function Received(p: Profile, s: State, r: Report, t: Task): State {
    s.(front := NewFront(p, s.front, r.qtask), received := s.received + [t],
       life := L.Stored(s.life, r.qtask.pid, RecordFor(t, r)), log := s.log + [L.Put(r.qtask.pid, RecordFor(t, r))])
  }

  function Admit(p: Profile, s: State, r: Report): State {
    var t := Derived(p, s.front, ArrivalOf(s.life, r));
    Push(Received(p, s, r, t), t)
  }

  /** `stream` is what the kernel ring delivers; `None` stands for an error. */
  function Drained(p: Profile, s: State, budget: nat, stream: seq<Option<Report>>): State
    decreases budget
  {
    if budget == 0 || HasDeferred(s) || stream == [] || stream[0].None? then s
    else Drained(p, Admit(p, s, stream[0].value), budget - 1, stream[1..])
  }

  function Head(lane: seq<Task>): Option<Task> {
    if lane == [] then None else Some(lane[0])
  }

  function Tail(lane: seq<Task>): seq<Task> {
    if lane == [] then [] else lane[1..]
  }

  /** Strict priority: real-time, then boosted, then general, each from the front. */
  function Popped(s: State): (Option<Task>, State) {
    if s.rt != [] then (Some(s.rt[0]), s.(rt := s.rt[1..]))
    else if s.boosted != [] then (Some(s.boosted[0]), s.(boosted := s.boosted[1..]))
    else if s.general != [] then (Some(s.general[0]), s.(general := s.general[1..]))
    else (None, s)
  }

  /** One dispatch whose submission succeeds iff `fate`. */
  function DispatchOne(p: Profile, s: State, fate: bool): (bool, State) {
    var (task, s') := Popped(s);
    match task
    case None => (true, s)
    case Some(t) =>
      if fate then (true, s'.(dispatched := s.dispatched + [t], sent := s.sent + [Message(p, t)]))
      else (false, Push(s', t))
  }

  /** Dispatch until the lanes are empty or submission `n + i` fails. */
  function DispatchAll(p: Profile, s: State, fates: nat -> bool, n: nat): State
    decreases |Waiting(s)|
  {
    if Waiting(s) == [] then s
    else
      var (ok, s') := DispatchOne(p, s, fates(n));
      if ok then DispatchAll(p, s', fates, n + 1) else s'
  }

  function Budget(nrCpus: nat): nat {
    Max(Max(nrCpus, 1) * 4, 16)
  }

  datatype Round = Round(nrCpus: nat, stream: seq<Option<Report>>, fates: nat -> bool)

  function Scheduled(p: Profile, s: State, r: Round): State {
    var s' := DispatchAll(p, Drained(p, s, Budget(r.nrCpus), r.stream), r.fates, 0);
    s'.(nrScheduled := |Waiting(s')|)
  }

  /** A task reported as gone, or flushed as stale, leaves its record behind. */
  function Forgotten(s: State, pid: int): State {
    if pid > 0 then s.(life := L.Evicted(s.life, pid), log := s.log + [L.Drop(pid)]) else s
  }

  datatype Event = Schedule(round: Round) | Gone(pid: int)

  function Next(p: Profile, s: State, e: Event): State {
    match e
    case Schedule(round) => Scheduled(p, s, round)
    case Gone(pid) => Forgotten(s, pid)
  }

  function Run(p: Profile, events: seq<Event>): State {
    if events == [] then Idle() else Next(p, Run(p, events[..|events| - 1]), events[|events| - 1])
  }

  lemma DrainStep(p: Profile, s: State, budget: nat, stream: seq<Option<Report>>, k: nat)
    requires k < budget && k < |stream| && stream[k].Some? && !HasDeferred(s)
    ensures Drained(p, s, budget - k, stream[k..])
            == Drained(p, Admit(p, s, stream[k].value), budget - (k + 1), stream[k + 1..])
  {
    assert stream[k..][1..] == stream[k + 1..];
  }

  // ---------------------------------------------------------------- invariants

  function LaneIndex(t: Task): nat {
    if t.kind.RealTime? then 0 else if t.wakeBoosted then 1 else 2
  }

  ghost predicate AllRouteTo(lane: seq<Task>, k: nat) {
    forall i :: 0 <= i < |lane| ==> LaneIndex(lane[i]) == k
  }

  ghost predicate InLane(s: State) {
    AllRouteTo(s.rt, 0) && AllRouteTo(s.boosted, 1) && AllRouteTo(s.general, 2)
  }

  ghost predicate Bounded(s: State) {
    |s.rt| <= LANE_MAX && |s.boosted| <= LANE_MAX && |s.general| <= LANE_MAX
  }

  /** Nothing was lost, and what was received is dispatched or waiting, copy for copy. */
  ghost predicate Conserved(s: State) {
    s.lost == [] && multiset(s.received) == multiset(s.dispatched) + multiset(Waiting(s))
  }

  /** The clock bounds every admitted virtual time, and no admission falls more than
      one base slice behind an earlier one. */
  ghost predicate Fair(p: Profile, s: State) {
    && s.front <= U64_MAX
    && (forall i :: 0 <= i < |s.received| ==> s.received[i].qtask.vtime <= s.front)
    && (forall i, j :: 0 <= i < j < |s.received|
                       ==> s.received[j].qtask.vtime >= SatSub(s.received[i].qtask.vtime, p.baseSliceNs))
    && (forall i :: 0 <= i < |s.received| && !s.received[i].kind.RealTime?
                    ==> s.received[i].deadline >= s.received[i].qtask.vtime)
  }

  ghost predicate Told(p: Profile, s: State) {
    |s.sent| == |s.dispatched| && forall i :: 0 <= i < |s.sent| ==> s.sent[i] == Message(p, s.dispatched[i])
  }

  ghost predicate Inv(p: Profile, s: State) {
    InLane(s) && Bounded(s) && Conserved(s) && Fair(p, s) && Told(p, s)
  }

  // ----------------------------------------------------------------- operations

  lemma WaitingCount(s: State)
    ensures multiset(Waiting(s)) == multiset(s.rt) + multiset(s.boosted) + multiset(s.general)
  {
    assert Waiting(s) == (s.rt + s.boosted) + s.general;
  }

  lemma AppendCount(lane: seq<Task>, t: Task)
    requires |lane| < LANE_MAX
    ensures Append(lane, t) == lane + [t] && multiset(Append(lane, t)) == multiset(lane) + multiset{t}
    ensures AllRouteTo(lane, LaneIndex(t)) ==> AllRouteTo(Append(lane, t), LaneIndex(t))
  {
  }

  /** A push with room keeps the task; the drop outcome needs a full lane. */
  lemma PushKeeps(s: State, t: Task)
    requires InLane(s) && Bounded(s) && |LaneFor(s, t)| < LANE_MAX
    ensures InLane(Push(s, t)) && Bounded(Push(s, t)) && Push(s, t).lost == s.lost
    ensures multiset(Waiting(Push(s, t))) == multiset(Waiting(s)) + multiset{t}
    ensures |Waiting(Push(s, t))| == |Waiting(s)| + 1
  {
    AppendCount(LaneFor(s, t), t);
    PushCount(s, t);
  }

  lemma PushCount(s: State, t: Task)
    requires |LaneFor(s, t)| < LANE_MAX
    ensures multiset(Waiting(Push(s, t))) == multiset(Waiting(s)) + multiset{t}
  {
    AppendCount(LaneFor(s, t), t);
    WaitingCount(s);
    WaitingCount(Push(s, t));
  }

  lemma AdmitIsFair(p: Profile, s: State, a: Arrival)
    requires Fits(p) && Fair(p, s)
    ensures Fair(p, s.(front := NewFront(p, s.front, a.qtask), received := s.received + [Derived(p, s.front, a)]))
  {
    var t := Derived(p, s.front, a);
    FrontBounds(p, s.front, a.qtask);
    var received := s.received + [t];
    forall i, j | 0 <= i < j < |received|
      ensures received[j].qtask.vtime >= SatSub(received[i].qtask.vtime, p.baseSliceNs)
    {
      if j == |s.received| {
        assert received[j] == t && received[i] == s.received[i];
      }
    }
  }

  lemma AdmitKeeps(p: Profile, s: State, r: Report)
    requires Fits(p) && Inv(p, s) && !HasDeferred(s)
    ensures Inv(p, Admit(p, s, r))
  {
    var a := ArrivalOf(s.life, r);
    var t := Derived(p, s.front, a);
    AdmitIsFair(p, s, a);
    PushReceived(p, s, Received(p, s, r, t), t);
  }

  lemma PushFrame(s: State, t: Task)
    ensures var u := Push(s, t);
            && u.received == s.received && u.front == s.front && u.dispatched == s.dispatched && u.sent == s.sent
            && u.life == s.life && u.log == s.log
  {
  }

  lemma PushReceived(p: Profile, s: State, u: State, t: Task)
    requires Inv(p, s) && !HasDeferred(s) && Fair(p, u)
    requires u.rt == s.rt && u.boosted == s.boosted && u.general == s.general && u.received == s.received + [t]
    requires u.dispatched == s.dispatched && u.sent == s.sent && u.lost == s.lost
    ensures Inv(p, Push(u, t))
  {
    PushKeeps(u, t);
    PushFrame(u, t);
    assert multiset(u.received) == multiset(s.received) + multiset{t};
    assert Waiting(u) == Waiting(s);
    assert Conserved(Push(u, t));
  }

  /** The next report is taken. */
  predicate Takes(s: State, budget: nat, stream: seq<Option<Report>>) {
    budget > 0 && !HasDeferred(s) && stream != [] && stream[0].Some?
  }

  lemma DrainOne(p: Profile, s: State, budget: nat, stream: seq<Option<Report>>)
    ensures Takes(s, budget, stream) ==>
              Drained(p, s, budget, stream) == Drained(p, Admit(p, s, stream[0].value), budget - 1, stream[1..])
    ensures !Takes(s, budget, stream) ==> Drained(p, s, budget, stream) == s
  {
  }

  /** What every admission keeps, a drain keeps. */
  lemma {:induction false} DrainInvariant(p: Profile, keeps: State -> bool, s: State, budget: nat,
      stream: seq<Option<Report>>)
    requires keeps(s) && forall u, r :: keeps(u) && !HasDeferred(u) ==> keeps(Admit(p, u, r))
    ensures keeps(Drained(p, s, budget, stream))
    decreases budget
  {
    DrainOne(p, s, budget, stream);
    if Takes(s, budget, stream) {
      DrainInvariant(p, keeps, Admit(p, s, stream[0].value), budget - 1, stream[1..]);
    }
  }

  lemma DrainKeeps(p: Profile, s: State, budget: nat, stream: seq<Option<Report>>)
    requires Fits(p) && Inv(p, s)
    ensures Inv(p, Drained(p, s, budget, stream))
  {
    forall u, r | Inv(p, u) && !HasDeferred(u) ensures Inv(p, Admit(p, u, r)) {
      AdmitKeeps(p, u, r);
    }
    DrainInvariant(p, u => Inv(p, u), s, budget, stream);
  }

  /** Popping takes the head of the waiting order. */
  lemma PopTakesFirst(s: State)
    requires Waiting(s) != []
    ensures Popped(s).0 == Some(Waiting(s)[0]) && Waiting(Popped(s).1) == Waiting(s)[1..]
    ensures InLane(s) ==> InLane(Popped(s).1)
    ensures Bounded(s) ==> Bounded(Popped(s).1)
    ensures InLane(s) && Bounded(s) ==> |LaneFor(Popped(s).1, Waiting(s)[0])| < LANE_MAX
  {
  }

  /** How many waiting tasks, from position `k` on, share the lane of the `k`-th. */
  function LaneLeft(s: State, k: nat): (m: nat)
    requires k < |Waiting(s)|
    ensures 0 < m <= |Waiting(s)| - k
  {
    if k < |s.rt| then |s.rt| - k
    else if k < |s.rt| + |s.boosted| then |s.rt| + |s.boosted| - k
    else |Waiting(s)| - k
  }

  /** The waiting order after its head was pushed back: behind the rest of its lane,
      ahead of the lanes below. */
  function Retried(w: seq<Task>, m: nat): seq<Task>
    requires 0 < m <= |w|
  {
    w[1..m] + [w[0]] + w[m..]
  }

  lemma RetriedCount(w: seq<Task>, m: nat)
    requires 0 < m <= |w|
    ensures multiset(Retried(w, m)) == multiset(w)
  {
    assert w == [w[0]] + w[1..m] + w[m..];
  }

  lemma HeadAndTail(q: seq<Task>)
    requires q != []
    ensures multiset(q) == multiset{q[0]} + multiset(q[1..])
  {
    assert q == [q[0]] + q[1..];
  }

  /** A successful dispatch moves the head of the waiting order to the kernel. */
  lemma SuccessStep(p: Profile, s: State)
    requires Waiting(s) != []
    ensures var (ok, u) := DispatchOne(p, s, true);
            && ok && Waiting(u) == Waiting(s)[1..]
            && u.dispatched == s.dispatched + [Waiting(s)[0]] && u.sent == s.sent + [Message(p, Waiting(s)[0])]
            && u.received == s.received && u.lost == s.lost && u.front == s.front
            && (InLane(s) ==> InLane(u)) && (Bounded(s) ==> Bounded(u))
  {
    PopTakesFirst(s);
  }

  lemma RetriedLane(lane: seq<Task>, rest: seq<Task>)
    requires lane != []
    ensures Retried(lane + rest, |lane|) == lane[1..] + [lane[0]] + rest
  {
    var w := lane + rest;
    assert w[1..|lane|] == lane[1..] && w[|lane|..] == rest;
  }

  lemma PushBackRt(s: State)
    requires InLane(s) && Bounded(s) && s.rt != []
    ensures Waiting(Push(Popped(s).1, s.rt[0])) == s.rt[1..] + [s.rt[0]] + s.boosted + s.general
  {
    assert LaneIndex(s.rt[0]) == 0;
  }

  lemma PushBackBoosted(s: State)
    requires InLane(s) && Bounded(s) && s.rt == [] && s.boosted != []
    ensures Waiting(Push(Popped(s).1, s.boosted[0])) == s.boosted[1..] + [s.boosted[0]] + s.general
  {
    assert LaneIndex(s.boosted[0]) == 1;
  }

  lemma PushBackGeneral(s: State)
    requires InLane(s) && Bounded(s) && s.rt == s.boosted == [] && s.general != []
    ensures Waiting(Push(Popped(s).1, s.general[0])) == s.general[1..] + [s.general[0]]
  {
    assert LaneIndex(s.general[0]) == 2;
  }

  lemma RetriedRt(s: State)
    requires InLane(s) && Bounded(s) && s.rt != []
    ensures Waiting(Push(Popped(s).1, s.rt[0])) == Retried(Waiting(s), |s.rt|)
  {
    PushBackRt(s);
    RetriedLane(s.rt, s.boosted + s.general);
    assert Waiting(s) == s.rt + (s.boosted + s.general);
  }

  lemma RetriedBoosted(s: State)
    requires InLane(s) && Bounded(s) && s.rt == [] && s.boosted != []
    ensures Waiting(Push(Popped(s).1, s.boosted[0])) == Retried(Waiting(s), |s.boosted|)
  {
    PushBackBoosted(s);
    RetriedLane(s.boosted, s.general);
    assert Waiting(s) == s.boosted + s.general;
  }

  lemma RetriedGeneral(s: State)
    requires InLane(s) && Bounded(s) && s.rt == s.boosted == [] && s.general != []
    ensures Waiting(Push(Popped(s).1, s.general[0])) == Retried(Waiting(s), |s.general|)
  {
    PushBackGeneral(s);
    RetriedLane(s.general, []);
    assert Waiting(s) == s.general + [];
  }

  lemma HeadOfLanes(s: State)
    requires Waiting(s) != []
    ensures Waiting(s)[0] == if s.rt != [] then s.rt[0] else if s.boosted != [] then s.boosted[0] else s.general[0]
    ensures LaneLeft(s, 0) == if s.rt != [] then |s.rt| else if s.boosted != [] then |s.boosted| else |s.general|
  {
  }

  lemma PushBackOrder(s: State)
    requires InLane(s) && Bounded(s) && Waiting(s) != []
    ensures Waiting(Push(Popped(s).1, Waiting(s)[0])) == Retried(Waiting(s), LaneLeft(s, 0))
  {
    HeadOfLanes(s);
    if s.rt != [] {
      RetriedRt(s);
    } else if s.boosted != [] {
      RetriedBoosted(s);
    } else {
      RetriedGeneral(s);
    }
  }

  /** Everything but the lanes. */
  ghost predicate SameOutside(s: State, u: State) {
    && u.front == s.front && u.nrScheduled == s.nrScheduled && u.sent == s.sent && u.received == s.received
    && u.dispatched == s.dispatched && u.lost == s.lost && u.life == s.life && u.log == s.log
  }

  lemma PopThenPush(s: State)
    requires InLane(s) && Bounded(s) && Waiting(s) != []
    ensures var u := Push(Popped(s).1, Waiting(s)[0]);
            SameOutside(s, u) && InLane(u) && Bounded(u)
  {
    PopTakesFirst(s);
    PushKeeps(Popped(s).1, Waiting(s)[0]);
  }

  lemma FailureIsPushBack(p: Profile, s: State)
    requires Waiting(s) != []
    ensures DispatchOne(p, s, false) == (false, Push(Popped(s).1, Waiting(s)[0]))
  {
    PopTakesFirst(s);
  }

  /** A failed dispatch hands nothing over and puts the task behind its lane. */
  lemma FailureStep(p: Profile, s: State)
    requires InLane(s) && Bounded(s) && Waiting(s) != []
    ensures var (ok, u) := DispatchOne(p, s, false);
            && !ok && Waiting(u) == Retried(Waiting(s), LaneLeft(s, 0))
            && SameOutside(s, u) && InLane(u) && Bounded(u)
  {
    FailureIsPushBack(p, s);
    PushBackOrder(s);
    PopThenPush(s);
  }

  lemma FailureKeeps(p: Profile, s: State)
    requires Inv(p, s) && Waiting(s) != []
    ensures Inv(p, DispatchOne(p, s, false).1)
  {
    FailureStep(p, s);
    RetriedCount(Waiting(s), LaneLeft(s, 0));
  }

  lemma SuccessKeeps(p: Profile, s: State)
    requires Inv(p, s) && Waiting(s) != []
    ensures Inv(p, DispatchOne(p, s, true).1)
  {
    var u, head := DispatchOne(p, s, true).1, Waiting(s)[0];
    SuccessStep(p, s);
    HeadAndTail(Waiting(s));
    MovedCount(s.dispatched, head, Waiting(s), Waiting(u));
  }

  lemma MovedCount(done: seq<Task>, t: Task, before: seq<Task>, after: seq<Task>)
    requires multiset(before) == multiset{t} + multiset(after)
    ensures multiset(done + [t]) + multiset(after) == multiset(done) + multiset(before)
  {
  }

  lemma DispatchKeeps(p: Profile, s: State, fate: bool)
    requires Inv(p, s) && Waiting(s) != []
    ensures Inv(p, DispatchOne(p, s, fate).1)
  {
    if fate {
      SuccessKeeps(p, s);
    } else {
      FailureKeeps(p, s);
    }
  }

  lemma DispatchStep(p: Profile, s: State, fates: nat -> bool, n: nat)
    requires Waiting(s) != []
    ensures var (ok, u) := DispatchOne(p, s, fates(n));
            && DispatchAll(p, s, fates, n) == (if ok then DispatchAll(p, u, fates, n + 1) else u)
            && (ok ==> |Waiting(u)| < |Waiting(s)|)
  {
    PopTakesFirst(s);
  }

  lemma DispatchOneIs(p: Profile, s: State, task: Option<Task>, s': State, fate: bool)
    requires Popped(s) == (task, s')
    ensures task.None? ==> s' == s && DispatchOne(p, s, fate) == (true, s)
    ensures task.Some? && fate ==>
              DispatchOne(p, s, fate)
              == (true, s'.(dispatched := s'.dispatched + [task.value], sent := s'.sent + [Message(p, task.value)]))
    ensures task.Some? && !fate ==> DispatchOne(p, s, fate) == (false, Push(s', task.value))
  {
  }

  lemma DispatchedOne(p: Profile, s: State, fates: nat -> bool, n: nat, ok: bool, u: State)
    requires Waiting(s) != [] && (ok, u) == DispatchOne(p, s, fates(n))
    ensures DispatchAll(p, s, fates, n) == if ok then DispatchAll(p, u, fates, n + 1) else u
    ensures ok ==> |Waiting(u)| < |Waiting(s)|
  {
    DispatchStep(p, s, fates, n);
  }

  lemma {:induction false} DispatchAllKeeps(p: Profile, s: State, fates: nat -> bool, n: nat)
    requires Inv(p, s)
    ensures Inv(p, DispatchAll(p, s, fates, n))
    decreases |Waiting(s)|
  {
    if Waiting(s) != [] {
      DispatchKeeps(p, s, fates(n));
      var (ok, s') := DispatchOne(p, s, fates(n));
      if ok {
        SuccessStep(p, s);
        DispatchAllKeeps(p, s', fates, n + 1);
      }
    }
  }

  lemma ScheduledKeeps(p: Profile, s: State, r: Round)
    requires Fits(p) && Inv(p, s)
    ensures Inv(p, Scheduled(p, s, r))
  {
    DrainKeeps(p, s, Budget(r.nrCpus), r.stream);
    DispatchAllKeeps(p, Drained(p, s, Budget(r.nrCpus), r.stream), r.fates, 0);
  }

  /** No task is lost in any run, whatever the kernel ring delivers, whichever submissions
      fail and whoever is forgotten; `push_task` never reaches its drop outcome. */
  lemma {:induction false} RunKeeps(p: Profile, events: seq<Event>)
    requires Fits(p)
    ensures Inv(p, Run(p, events)) && Run(p, events).lost == []
    ensures multiset(Run(p, events).received)
            == multiset(Run(p, events).dispatched) + multiset(Waiting(Run(p, events)))
  {
    if events == [] {
    } else {
      RunKeeps(p, events[..|events| - 1]);
      match events[|events| - 1]
      case Schedule(round) => ScheduledKeeps(p, Run(p, events[..|events| - 1]), round);
      case Gone(_) =>
    }
  }

  // --------------------------------------------------------- what a task is judged by

  /** The record written for a received task. */
  ghost predicate Records(op: L.Op, t: Task) {
    && op.Put? && op.pid == t.qtask.pid
    && op.rec.lastSliceNs == op.rec.sliceAssignedNs == t.sliceNs && op.rec.lastStopTs == t.qtask.stopTs
    && op.rec.sliceUsedNs == SatSub(t.qtask.stopTs, t.qtask.startTs)
  }

  /** The records written, without the evictions between them. */
  function Writes(log: seq<L.Op>): seq<L.Op> {
    if log == [] then []
    else Writes(log[..|log| - 1]) + if log[|log| - 1].Put? then [log[|log| - 1]] else []
  }

  /** The lifetime table holds what was written for the received tasks, in order, less
      what was evicted since. */
  ghost predicate Remembered(s: State) {
    && s.life == L.Exec(s.log)
    && |Writes(s.log)| == |s.received|
        && (forall i :: 0 <= i < |s.received| ==> Records(Writes(s.log)[i], s.received[i]))
    && forall i :: 0 <= i < |s.log| && s.log[i].Drop? ==> s.log[i].pid > 0
  }

  lemma AdmitRemembers(p: Profile, s: State, r: Report)
    ensures Remembered(s) ==> Remembered(Admit(p, s, r))
  {
    var t := Derived(p, s.front, ArrivalOf(s.life, r));
    var u := Received(p, s, r, t);
    PushFrame(u, t);
    assert u.log[..|u.log| - 1] == s.log;
    assert Records(L.Put(r.qtask.pid, RecordFor(t, r)), t);
  }

  lemma ForgottenRemembers(s: State, pid: int)
    ensures Remembered(s) ==> Remembered(Forgotten(s, pid))
  {
    var u := Forgotten(s, pid);
    if pid > 0 {
      assert u.log[..|u.log| - 1] == s.log;
    }
  }

  lemma DrainRemembers(p: Profile, s: State, budget: nat, stream: seq<Option<Report>>)
    ensures Remembered(s) ==> Remembered(Drained(p, s, budget, stream))
  {
    forall u, r ensures Remembered(u) ==> Remembered(Admit(p, u, r)) {
      AdmitRemembers(p, u, r);
    }
    if Remembered(s) {
      DrainInvariant(p, u => Remembered(u), s, budget, stream);
    }
  }

  lemma {:induction false} DispatchForgetsNothing(p: Profile, s: State, fates: nat -> bool, n: nat)
    ensures DispatchAll(p, s, fates, n).life == s.life && DispatchAll(p, s, fates, n).log == s.log
    ensures DispatchAll(p, s, fates, n).received == s.received
    decreases |Waiting(s)|
  {
    if Waiting(s) == [] {
    } else {
      DispatchStep(p, s, fates, n);
      if fates(n) {
        DispatchForgetsNothing(p, DispatchOne(p, s, fates(n)).1, fates, n + 1);
      }
    }
  }

  lemma ScheduledRemembers(p: Profile, s: State, r: Round)
    ensures Remembered(s) ==> Remembered(Scheduled(p, s, r))
  {
    DrainRemembers(p, s, Budget(r.nrCpus), r.stream);
    DispatchForgetsNothing(p, Drained(p, s, Budget(r.nrCpus), r.stream), r.fates, 0);
  }

  lemma {:induction false} RunRemembers(p: Profile, events: seq<Event>)
    ensures Remembered(Run(p, events))
  {
    if events == [] {
    } else {
      var s := Run(p, events[..|events| - 1]);
      RunRemembers(p, events[..|events| - 1]);
      match events[|events| - 1]
      case Schedule(round) => ScheduledRemembers(p, s, round);
      case Gone(pid) => ForgottenRemembers(s, pid);
    }
  }

  lemma {:induction false} WritesListPuts(log: seq<L.Op>, i: nat)
    requires i < |log| && log[i].Put?
    ensures log[i] in Writes(log)
  {
    if i == |log| - 1 {
    } else {
      WritesListPuts(log[..|log| - 1], i);
    }
  }

  lemma LogIsPositive(s: State)
    requires Remembered(s) && forall i :: 0 <= i < |s.received| ==> s.received[i].qtask.pid > 0
    ensures L.Positive(s.log)
  {
    forall i | 0 <= i < |s.log| ensures s.log[i].pid > 0 {
      if s.log[i].Put? {
        WritesListPuts(s.log, i);
        var k :| 0 <= k < |Writes(s.log)| && Writes(s.log)[k] == s.log[i];
        assert Records(Writes(s.log)[k], s.received[k]);
      }
    }
  }

  /** In any run the table answers for every PID as an unbounded map of the records last
      written and not evicted since, as long as that map never outgrew it: a task's burst
      and sleep are measured against its own previous report, whatever else was
      scheduled or forgotten meanwhile. */
  lemma RunJudgesByOwnPast(p: Profile, events: seq<Event>, pid: int)
    requires pid > 0 && forall i :: 0 <= i < |Run(p, events).received| ==> Run(p, events).received[i].qtask.pid > 0
    requires forall n :: 0 <= n <= |Run(p, events).log| ==> L.Fits(Run(p, events).log, n)
    ensures L.Lookup(Run(p, events).life, pid) == L.MapLookup(L.Ideal(Run(p, events).log), pid)
  {
    var s := Run(p, events);
    RunRemembers(p, events);
    LogIsPositive(s);
    L.RunRefinesMap(s.log);
    assert L.AgreesAt(s.log, |s.log|);
    assert s.log[..|s.log|] == s.log;
  }

  // ----------------------------------------------------------- order of dispatch

  /** The `i`-th submission of a round is the first to fail, or none of the first `i` do. */
  ghost predicate AllSucceed(fates: nat -> bool, n: nat, count: nat) {
    forall i :: n <= i < n + count ==> fates(i)
  }

  lemma {:induction false} CleanRound(p: Profile, s: State, fates: nat -> bool, n: nat)
    requires AllSucceed(fates, n, |Waiting(s)|)
    ensures DispatchAll(p, s, fates, n).dispatched == s.dispatched + Waiting(s)
    ensures Waiting(DispatchAll(p, s, fates, n)) == []
    decreases |Waiting(s)|
  {
    if Waiting(s) != [] {
      SuccessStep(p, s);
      var u := DispatchOne(p, s, fates(n)).1;
      CleanRound(p, u, fates, n + 1);
      assert u.dispatched + Waiting(u) == s.dispatched + Waiting(s);
    }
  }

  /** Without a failure a round empties the lanes in strict priority order, each
      lane first in first out. */
  lemma CleanRoundOrder(p: Profile, s: State, fates: nat -> bool)
    requires AllSucceed(fates, 0, |Waiting(s)|)
    ensures DispatchAll(p, s, fates, 0).dispatched == s.dispatched + s.rt + s.boosted + s.general
    ensures Waiting(DispatchAll(p, s, fates, 0)) == []
  {
    CleanRound(p, s, fates, 0);
    assert s.dispatched + Waiting(s) == s.dispatched + s.rt + s.boosted + s.general;
  }

  lemma ShiftedSplit(done: seq<Task>, q: seq<Task>, k: nat)
    requires 0 < k < |q|
    ensures done + [q[0]] + q[1..][..k - 1] == done + q[..k] && q[1..][k - 1..] == q[k..]
  {
  }

  lemma LaneLeftShifts(s: State, k: nat)
    requires 0 < k < |Waiting(s)|
    ensures var u := Popped(s).1;
            |Waiting(u)| == |Waiting(s)| - 1 && LaneLeft(u, k - 1) == LaneLeft(s, k)
  {
    PopTakesFirst(s);
  }

  lemma SuccessKeepsLanes(p: Profile, s: State, k: nat)
    requires 0 < k < |Waiting(s)|
    ensures var u := DispatchOne(p, s, true).1;
            |Waiting(u)| == |Waiting(s)| - 1 && LaneLeft(u, k - 1) == LaneLeft(s, k)
  {
    LaneLeftShifts(s, k);
  }

  /** What a round whose submission `k` is the first to fail leaves behind. */
  ghost predicate EndsAt(s: State, u: State, k: nat)
    requires k < |Waiting(s)|
  {
    && u.dispatched == s.dispatched + Waiting(s)[..k]
    && Waiting(u) == Retried(Waiting(s)[k..], LaneLeft(s, k))
    && u.lost == s.lost
  }

  lemma EndsShift(s: State, t: State, u: State, k: nat)
    requires 0 < k < |Waiting(s)| && Waiting(t) == Waiting(s)[1..] && t.lost == s.lost
    requires t.dispatched == s.dispatched + [Waiting(s)[0]] && LaneLeft(t, k - 1) == LaneLeft(s, k)
    requires EndsAt(t, u, k - 1)
    ensures EndsAt(s, u, k)
  {
    ShiftedSplit(s.dispatched, Waiting(s), k);
  }

  /** The first failure of a round, at submission `k`, ends it: the first `k` waiting
      tasks are gone in order, and the failed one waits behind the rest of its lane. */
  lemma {:induction false} FailedRoundOrder(p: Profile, s: State, fates: nat -> bool, n: nat, k: nat)
    requires InLane(s) && Bounded(s)
    requires k < |Waiting(s)| && AllSucceed(fates, n, k) && !fates(n + k)
    ensures EndsAt(s, DispatchAll(p, s, fates, n), k)
    decreases k
  {
    DispatchStep(p, s, fates, n);
    var u := DispatchOne(p, s, fates(n)).1;
    if k == 0 {
      FailureStep(p, s);
      assert Waiting(s)[0..] == Waiting(s);
    } else {
      assert fates(n);
      SuccessStep(p, s);
      SuccessKeepsLanes(p, s, k);
      FailedRoundOrder(p, u, fates, n + 1, k - 1);
      EndsShift(s, u, DispatchAll(p, s, fates, n), k);
    }
  }

  lemma {:induction false} RetriedSame(w: seq<Task>, m: nat, i: nat)
    requires 0 < m <= |w| && Retried(w, m) == w && i < m
    ensures w[i] == w[0]
  {
    if i == 0 {
    } else {
      RetriedSame(w, m, i - 1);
      assert Retried(w, m)[i - 1] == w[1..m][i - 1] == w[i];
    }
  }

  /** A failed round keeps the waiting order exactly when the tasks left in the failed
      task's lane are all alike: in particular when it is the last of its lane. */
  lemma FailedRoundFifoIff(p: Profile, s: State, fates: nat -> bool, n: nat, k: nat)
    requires InLane(s) && Bounded(s)
    requires k < |Waiting(s)| && AllSucceed(fates, n, k) && !fates(n + k)
    ensures Waiting(DispatchAll(p, s, fates, n)) == Waiting(s)[k..]
            <==> forall i :: k <= i < k + LaneLeft(s, k) ==> Waiting(s)[i] == Waiting(s)[k]
  {
    FailedRoundOrder(p, s, fates, n, k);
    RetriedSameIff(Waiting(s), k, LaneLeft(s, k));
  }

  lemma RetriedSameIff(all: seq<Task>, k: nat, m: nat)
    requires k < |all| && 0 < m <= |all| - k
    ensures Retried(all[k..], m) == all[k..] <==> forall i :: k <= i < k + m ==> all[i] == all[k]
  {
    var w := all[k..];
    if Retried(w, m) == w {
      forall i | k <= i < k + m ensures all[i] == all[k] {
        RetriedSame(w, m, i - k);
      }
    }
    if forall i :: k <= i < k + m ==> all[i] == all[k] {
      forall i | 0 <= i < |w| ensures Retried(w, m)[i] == w[i] {
        assert i < m ==> w[i] == all[k + i];
        assert i + 1 < m ==> w[i + 1] == all[k + (i + 1)];
      }
    }
  }

  /** Two ordinary tasks: when the submission of the first fails, the second overtakes it. */
  lemma RetryOvertakes(p: Profile, a: Task, b: Task)
    requires a.kind.Compute? && b.kind.Compute? && !a.wakeBoosted && !b.wakeBoosted && a != b
    ensures Waiting(Idle().(general := [a, b])) == [a, b]
    ensures Waiting(DispatchAll(p, Idle().(general := [a, b]), _ => false, 0)) == [b, a]
  {
    var s := Idle().(general := [a, b]);
    assert Waiting(s) == [a, b];
    FailureStep(p, s);
    DispatchStep(p, s, _ => false, 0);
    assert Retried([a, b], 2) == [b, a];
  }

  /** The dispatch phase leaves nothing waiting exactly when every submission succeeds. */
  lemma EmptyIffNoFailure(p: Profile, s: State, fates: nat -> bool)
    requires InLane(s) && Bounded(s)
    ensures Waiting(DispatchAll(p, s, fates, 0)) == [] <==> AllSucceed(fates, 0, |Waiting(s)|)
  {
    if AllSucceed(fates, 0, |Waiting(s)|) {
      CleanRound(p, s, fates, 0);
    } else {
      var k := FirstFailure(fates, |Waiting(s)|);
      FailedRoundOrder(p, s, fates, 0, k);
    }
  }

  /** A `schedule()` round reports no pending work exactly when no submission failed. */
  lemma PendingIffFailure(p: Profile, s: State, r: Round)
    requires Fits(p) && Inv(p, s)
    ensures Scheduled(p, s, r).nrScheduled == 0
            <==> AllSucceed(r.fates, 0, |Waiting(Drained(p, s, Budget(r.nrCpus), r.stream))|)
  {
    DrainKeeps(p, s, Budget(r.nrCpus), r.stream);
    EmptyIffNoFailure(p, Drained(p, s, Budget(r.nrCpus), r.stream), r.fates);
  }

  lemma {:induction false} FirstFailure(fates: nat -> bool, count: nat) returns (k: nat)
    requires !AllSucceed(fates, 0, count)
    ensures k < count && AllSucceed(fates, 0, k) && !fates(k)
  {
    if AllSucceed(fates, 0, count - 1) {
      k := count - 1;
    } else {
      k := FirstFailure(fates, count - 1);
    }
  }

  // -------------------------------------------------------------- fairness of runs

  /** In any run, what a non-real-time task carries into the kernel queue is at most
      one base slice and 4 ms behind the virtual time of any task admitted earlier. */
  lemma RunIsFair(p: Profile, events: seq<Event>, i: nat, j: nat)
    requires Fits(p) && i < j < |Run(p, events).received|
    ensures var early, late := Run(p, events).received[i], Run(p, events).received[j];
            !late.kind.RealTime? ==>
              DispatchVtime(late) >= SatSub(SatSub(early.qtask.vtime, p.baseSliceNs), WAKE_DEADLINE_CREDIT_NS)
  {
    RunKeeps(p, events);
  }
}
