/** The per-PID lifetime table of src/main.rs: two parallel fixed arrays, one of
    PIDs (probed as in PidProbe) and one of records. */
module Lifetime {
  import opened Numbers
  import opened Options
  import opened PidProbe

  datatype TaskLifetime = TaskLifetime(
    sliceAssignedNs: nat,
    sliceUsedNs: nat,
    preempted: bool,
    cheatFlagged: bool,
    interactiveSliceCreditNs: nat,
    interactiveSliceBiasNs: int,
    lastSliceNs: nat,
    lastSeenNs: nat,
    lastStopTs: nat)

  const DEFAULT := TaskLifetime(0, 0, false, false, 0, 0, 0, 0, 0)

  /** The record written for a drained task. */
  function RecordOf(sliceNs: nat, startTs: nat, stopTs: nat, seenNs: nat): TaskLifetime {
    var used := SatSub(stopTs, startTs);
    TaskLifetime(sliceNs, used, used >= SatSub(sliceNs, sliceNs / 8), false, 0, 0, sliceNs, seenNs, stopTs)
  }

  type Recs = r: seq<TaskLifetime> | |r| == SIZE witness seq(SIZE, _ => DEFAULT)

  /** The table as a value. */
  datatype Table = Table(pids: Pids, recs: Recs)

  ghost predicate Ok(t: Table) {
    Inv(t.pids)
  }

  function New(): Table {
    Table(seq(SIZE, _ => EMPTY), seq(SIZE, _ => DEFAULT))
  }

  /** What the table says about a PID: the finite map it stands for. */
  function Lookup(t: Table, pid: int): Option<TaskLifetime> {
    var s := Find(t.pids, pid);
    if 0 <= s < SIZE && pid > 0 then Some(t.recs[s]) else None
  }

  function Inserted(t: Table, pid: int): Table {
    var d := InsertSlot(t.pids, pid);
    if t.pids[d] == pid then t else Table(Insert(t.pids, pid), t.recs[d := DEFAULT])
  }

  /** Writing through the reference that insertion returns. */
  function Stored(t: Table, pid: int, rec: TaskLifetime): Table {
    var u := Inserted(t, pid);
    u.(recs := u.recs[InsertSlot(t.pids, pid) := rec])
  }

  function Evicted(t: Table, pid: int): Table {
    var s := Find(t.pids, pid);
    if 0 <= s < SIZE then Table(Evict(t.pids, pid), t.recs[s := DEFAULT]) else t
  }

  lemma FreshTable()
    ensures Ok(New()) && forall pid :: Lookup(New(), pid) == None
  {
    forall pid | pid > 0 ensures Lookup(New(), pid) == None {
      FindExact(New().pids, pid);
    }
  }

  /** A record reached in two tables through the same slot. */
  lemma SameSlot(t: Table, u: Table, pid: int)
    requires Ok(t) && Ok(u) && pid > 0
    requires forall s :: 0 <= s < SIZE && t.pids[s] == pid ==> u.pids[s] == pid && u.recs[s] == t.recs[s]
    requires forall s :: 0 <= s < SIZE && u.pids[s] == pid ==> t.pids[s] == pid
    ensures Lookup(u, pid) == Lookup(t, pid)
  {
    FindExact(t.pids, pid);
    FindExact(u.pids, pid);
  }

  lemma InsertedSelf(t: Table, pid: int)
    requires Ok(t) && pid > 0
    ensures Ok(Inserted(t, pid)) && Inserted(t, pid).pids == Insert(t.pids, pid)
    ensures Lookup(Inserted(t, pid), pid)
            == Some(if Lookup(t, pid).Some? then Lookup(t, pid).value else DEFAULT)
  {
    InsertKeeps(t.pids, pid);
    FindExact(t.pids, pid);
    FindExact(Inserted(t, pid).pids, pid);
  }

  /** `other` is the PID an insertion of `pid` displaces. */
  ghost predicate Displaced(t: Table, pid: int, other: int) {
    Lookup(t, pid).None? && AllLive(t.pids) && other == t.pids[Slot(pid)]
  }

  lemma InsertedOther(t: Table, pid: int, other: int)
    requires Ok(t) && pid > 0 && other > 0 && other != pid && other != t.pids[InsertSlot(t.pids, pid)]
    ensures Lookup(Inserted(t, pid), other) == Lookup(t, other)
  {
    InsertedSelf(t, pid);
    SameSlot(t, Inserted(t, pid), other);
  }

  lemma InsertedOver(t: Table, pid: int, other: int)
    requires Ok(t) && pid > 0 && other > 0 && other != pid && other == t.pids[InsertSlot(t.pids, pid)]
    ensures Displaced(t, pid, other)
    ensures Lookup(t, other).Some? && Lookup(Inserted(t, pid), other).None?
  {
    InsertKeeps(t.pids, pid);
    InsertedSelf(t, pid);
    FindExact(t.pids, pid);
    FindExact(t.pids, other);
    FindExact(Inserted(t, pid).pids, other);
  }

  lemma DisplacedIsOver(t: Table, pid: int, other: int)
    requires Ok(t) && pid > 0 && Displaced(t, pid, other)
    ensures other == t.pids[InsertSlot(t.pids, pid)]
  {
    InsertKeeps(t.pids, pid);
    FindExact(t.pids, pid);
  }

  /** Insertion is map insertion: an existing record survives, a new PID starts
      from the default record, and the one other PID that can disappear is the
      occupant of the home slot of a table whose slots are all live. */
  lemma InsertIsMapInsert(t: Table, pid: int, other: int)
    requires Ok(t) && pid > 0 && other > 0
    ensures Ok(Inserted(t, pid))
    ensures Lookup(Inserted(t, pid), pid)
            == Some(if Lookup(t, pid).Some? then Lookup(t, pid).value else DEFAULT)
    ensures other != pid && !Displaced(t, pid, other) ==> Lookup(Inserted(t, pid), other) == Lookup(t, other)
    ensures other != pid && Displaced(t, pid, other)
            ==> Lookup(t, other).Some? && Lookup(Inserted(t, pid), other).None?
  {
    InsertedSelf(t, pid);
    if other != pid {
      if other == t.pids[InsertSlot(t.pids, pid)] {
        InsertedOver(t, pid, other);
      } else {
        InsertedOther(t, pid, other);
        if Displaced(t, pid, other) {
          DisplacedIsOver(t, pid, other);
        }
      }
    }
  }

  lemma StoreIsMapUpdate(t: Table, pid: int, rec: TaskLifetime, other: int)
    requires Ok(t) && pid > 0 && other > 0 && other != pid
    ensures Ok(Stored(t, pid, rec)) && Lookup(Stored(t, pid, rec), pid) == Some(rec)
    ensures Lookup(Stored(t, pid, rec), other) == Lookup(Inserted(t, pid), other)
  {
    var u, v := Inserted(t, pid), Stored(t, pid, rec);
    InsertedSelf(t, pid);
    InsertKeeps(t.pids, pid);
    FindExact(v.pids, pid);
    StoredOther(u, v, pid, InsertSlot(t.pids, pid), other);
  }

  lemma StoredOther(u: Table, v: Table, pid: int, d: nat, other: int)
    requires Ok(u) && d < SIZE && u.pids[d] == pid && pid > 0 && other > 0 && other != pid
    requires v.pids == u.pids && forall s :: 0 <= s < SIZE && s != d ==> v.recs[s] == u.recs[s]
    ensures Lookup(v, other) == Lookup(u, other)
  {
    FindExact(u.pids, other);
  }

  lemma EvictIsMapRemove(t: Table, pid: int, other: int)
    requires Ok(t) && pid > 0 && other > 0 && other != pid
    ensures Ok(Evicted(t, pid)) && Lookup(Evicted(t, pid), pid).None?
    ensures Lookup(Evicted(t, pid), other) == Lookup(t, other)
  {
    var u := Evicted(t, pid);
    EvictKeeps(t.pids, pid);
    FindExact(t.pids, pid);
    FindExact(u.pids, pid);
    SameSlot(t, u, other);
  }

  // ------------------------------------------------------------ whole runs as maps

  datatype Op = Put(pid: int, rec: TaskLifetime) | Drop(pid: int)

  function Exec(ops: seq<Op>): (t: Table) {
    if ops == [] then New()
    else
      var t := Exec(ops[..|ops| - 1]);
      match ops[|ops| - 1]
      case Put(pid, rec) => Stored(t, pid, rec)
      case Drop(pid) => Evicted(t, pid)
  }

  /** The same operations on an unbounded map. */
  function Ideal(ops: seq<Op>): map<int, TaskLifetime> {
    if ops == [] then map[]
    else
      var m := Ideal(ops[..|ops| - 1]);
      match ops[|ops| - 1]
      case Put(pid, rec) => m[pid := rec]
      case Drop(pid) => m - {pid}
  }

  function MapLookup(m: map<int, TaskLifetime>, pid: int): Option<TaskLifetime> {
    if pid in m then Some(m[pid]) else None
  }

  ghost predicate Agrees(t: Table, m: map<int, TaskLifetime>)
  {
    (forall pid :: pid in m ==> pid > 0) && forall pid :: pid > 0 ==> Lookup(t, pid) == MapLookup(m, pid)
  }

  /** A map a table agrees with is no larger than the table, and as large exactly
      when every slot is live. */
  lemma AgreeingSize(t: Table, m: map<int, TaskLifetime>)
    requires Ok(t) && Agrees(t, m)
    ensures |m| <= SIZE && (|m| == SIZE <==> AllLive(t.pids))
  {
    forall pid | pid > 0 ensures pid in m <==> pid in t.pids {
      FindExact(t.pids, pid);
      assert Lookup(t, pid) == MapLookup(m, pid);
    }
    assert m.Keys == LiveSet(t.pids);
    LiveTotal(t.pids);
  }

  lemma PutAgrees(t: Table, m: map<int, TaskLifetime>, pid: int, rec: TaskLifetime)
    requires Ok(t) && Agrees(t, m) && pid > 0 && |m[pid := rec]| <= SIZE
    ensures Ok(Stored(t, pid, rec)) && Agrees(Stored(t, pid, rec), m[pid := rec])
  {
    AgreeingSize(t, m);
    assert pid !in m ==> m[pid := rec].Keys == m.Keys + {pid};
    StoreIsMapUpdate(t, pid, rec, if pid == 1 then 2 else 1);
    forall other | other > 0 ensures Lookup(Stored(t, pid, rec), other) == MapLookup(m[pid := rec], other) {
      assert Lookup(t, other) == MapLookup(m, other);
      if other != pid {
        InsertIsMapInsert(t, pid, other);
        StoreIsMapUpdate(t, pid, rec, other);
      }
    }
  }

  lemma DropAgrees(t: Table, m: map<int, TaskLifetime>, pid: int)
    requires Ok(t) && Agrees(t, m) && pid > 0
    ensures Ok(Evicted(t, pid)) && Agrees(Evicted(t, pid), m - {pid})
  {
    EvictIsMapRemove(t, pid, if pid == 1 then 2 else 1);
    forall other | other > 0 ensures Lookup(Evicted(t, pid), other) == MapLookup(m - {pid}, other) {
      assert Lookup(t, other) == MapLookup(m, other);
      if other != pid {
        EvictIsMapRemove(t, pid, other);
      }
    }
  }

  ghost predicate Positive(ops: seq<Op>) {
    forall i :: 0 <= i < |ops| ==> ops[i].pid > 0
  }

  lemma {:induction false} RunKeepsOk(ops: seq<Op>)
    requires Positive(ops)
    ensures Ok(Exec(ops))
  {
    if ops == [] {
      FreshTable();
    } else {
      RunKeepsOk(ops[..|ops| - 1]);
      var t, pid := Exec(ops[..|ops| - 1]), ops[|ops| - 1].pid;
      var other := if pid == 1 then 2 else 1;
      match ops[|ops| - 1]
      case Put(_, rec) => StoreIsMapUpdate(t, pid, rec, other);
      case Drop(_) => EvictIsMapRemove(t, pid, other);
    }
  }

  ghost predicate Fits(ops: seq<Op>, n: nat)
    requires n <= |ops|
  {
    |Ideal(ops[..n])| <= SIZE
  }

  ghost predicate AgreesAt(ops: seq<Op>, n: nat)
    requires n <= |ops|
  {
    Agrees(Exec(ops[..n]), Ideal(ops[..n]))
  }

  lemma {:induction false} FittingRunAgrees(ops: seq<Op>, n: nat)
    requires Positive(ops) && n <= |ops| && forall i :: 0 <= i <= |ops| ==> Fits(ops, i)
    ensures AgreesAt(ops, n)
  {
    if n == 0 {
      FreshTable();
    } else {
      FittingRunAgrees(ops, n - 1);
      RunKeepsOk(ops[..n - 1]);
      assert ops[..n][..n - 1] == ops[..n - 1];
      assert Fits(ops, n);
      var t, m := Exec(ops[..n - 1]), Ideal(ops[..n - 1]);
      match ops[n - 1]
      case Put(pid, rec) => PutAgrees(t, m, pid, rec);
      case Drop(pid) => DropAgrees(t, m, pid);
    }
  }

  /** The table answers every lookup as an unbounded map would, throughout a run of
      writes and evictions, exactly when that map never outgrows the table. */
  lemma RunRefinesMap(ops: seq<Op>)
    requires Positive(ops)
    ensures (forall n :: 0 <= n <= |ops| ==> AgreesAt(ops, n)) <==> (forall n :: 0 <= n <= |ops| ==> Fits(ops, n))
  {
    if forall n :: 0 <= n <= |ops| ==> Fits(ops, n) {
      forall n | 0 <= n <= |ops| ensures AgreesAt(ops, n) {
        FittingRunAgrees(ops, n);
      }
    }
    if forall n :: 0 <= n <= |ops| ==> AgreesAt(ops, n) {
      forall n | 0 <= n <= |ops| ensures Fits(ops, n) {
        assert AgreesAt(ops, n);
        RunKeepsOk(ops[..n]);
        AgreeingSize(Exec(ops[..n]), Ideal(ops[..n]));
      }
    }
  }

  class LifetimeTable {
    const pids: array<int>
    const recs: array<TaskLifetime>

    ghost const Repr: set<object>

    ghost predicate Valid()
      reads this, Repr
      ensures Valid() ==> this in Repr
    {
      Repr == {this, pids, recs} && pids.Length == SIZE && recs.Length == SIZE
    }

    ghost function State(): (t: Table)
      requires Valid()
      reads this, Repr
    {
      Table(pids[..], recs[..])
    }

    constructor ()
      ensures Valid() && fresh(Repr) && State() == New()
    {
      var p := new int[SIZE](_ => EMPTY);
      var r := new TaskLifetime[SIZE](_ => DEFAULT);
      pids, recs, Repr := p, r, {this, p, r};
      new;
      assert pids[..] == New().pids;
      assert recs[..] == New().recs;
    }

    method FindSlot(pid: int) returns (slot: int)
      requires Valid()
      ensures slot == Find(State().pids, pid)
    {
      slot := ProbeForSlot(pids, pid);
    }

    method FindOrInsertSlot(pid: int) returns (slot: nat)
      requires Valid()
      modifies pids, recs
      ensures Valid() && slot == InsertSlot(old(State().pids), pid)
      ensures State() == Inserted(old(State()), pid)
    {
      var present;
      slot, present := ProbeForInsert(pids, pid);
      if !present {
        Place(slot, pid);
      }
    }

    method Place(d: nat, pid: int)
      requires Valid() && d < SIZE
      modifies pids, recs
      ensures pids[..] == old(pids[..])[d := pid]
      ensures recs[..] == old(recs[..])[d := DEFAULT]
    {
      pids[d] := pid;
      recs[d] := DEFAULT;
    }

    method Get(pid: int) returns (r: Option<TaskLifetime>)
      requires Valid()
      ensures r == Lookup(State(), pid)
    {
      var s := FindSlot(pid);
      if 0 <= s < SIZE && pid > 0 {
        return Some(recs[s]);
      }
      return None;
    }

    /** `*lifetime_get_mut_or_default(pid) = rec` */
    method Store(pid: int, rec: TaskLifetime)
      requires Valid()
      modifies pids, recs
      ensures Valid() && State() == Stored(old(State()), pid, rec)
    {
      var s := FindOrInsertSlot(pid);
      recs[s] := rec;
    }

    method EvictPid(pid: int)
      requires Valid()
      modifies pids, recs
      ensures Valid() && State() == Evicted(old(State()), pid)
    {
      var s := FindSlot(pid);
      if 0 <= s < SIZE {
        pids[s] := TOMBSTONE;
        recs[s] := DEFAULT;
        assert pids[..] == old(pids[..])[s := TOMBSTONE];
        assert recs[..] == old(recs[..])[s := DEFAULT];
      }
    }
  }
}
