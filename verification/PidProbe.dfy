/** Open addressing over a fixed array of PIDs: the probing scheme shared by the
    lifetime table (src/main.rs) and the trust table (src/ai/trust.rs).

    Everything here is about the array of PIDs as a value.  The classes that own
    such an array prove that their probe loops compute `Find`, `InsertSlot`, ... */
module PidProbe {
  const SIZE: nat := 4096
  const EMPTY: int := 0
  const TOMBSTONE: int := -1

  const TWO32: nat := 0x1_0000_0000
  const FIB32: nat := 2_654_435_769

  type Pids = p: seq<int> | |p| == SIZE witness seq(SIZE, _ => EMPTY)

  /** Fibonacci hashing: the top 12 bits of the 32-bit product. */
  function Slot(pid: int): (s: nat)
    ensures s < SIZE
  {
    (((pid % TWO32) * FIB32) % TWO32) / 0x10_0000
  }

  /** The slot examined at probe step `k`. */
  function Pos(home: nat, k: nat): (s: nat)
    requires home < SIZE && k < SIZE
    ensures s < SIZE
  {
    if home + k < SIZE then home + k else home + k - SIZE
  }

  /** The probe step at which slot `s` is examined. */
  function Dist(home: nat, s: nat): (k: nat)
    requires home < SIZE && s < SIZE
    ensures k < SIZE && Pos(home, k) == s
  {
    if home <= s then s - home else s + SIZE - home
  }

  // ---------------------------------------------------------------- invariant

  /** No empty slot lies on the probe path from a live PID's home to its slot. */
  ghost predicate Chained(p: Pids) {
    forall s, e :: 0 <= s < SIZE && 0 <= e < SIZE && p[s] > 0 && p[e] == EMPTY
                   ==> Dist(Slot(p[s]), s) < Dist(Slot(p[s]), e)
  }

  ghost predicate Unique(p: Pids) {
    forall s, t :: 0 <= s < t < SIZE && p[s] > 0 ==> p[s] != p[t]
  }

  ghost predicate Tagged(p: Pids) {
    forall s :: 0 <= s < SIZE ==> p[s] >= TOMBSTONE
  }

  ghost predicate Inv(p: Pids) {
    Chained(p) && Unique(p) && Tagged(p)
  }

  ghost predicate AllLive(p: Pids) {
    forall s :: 0 <= s < SIZE ==> p[s] > 0
  }

  // ------------------------------------------------------------------- lookup

  function FindFrom(p: Pids, pid: int, k: nat): (r: int)
    requires k <= SIZE
    decreases SIZE - k
  {
    if k == SIZE then -1
    else
      var s := Pos(Slot(pid), k);
      if p[s] == pid then s
      else if p[s] == EMPTY then -1
      else FindFrom(p, pid, k + 1)
  }

  /** The slot that owns `pid`, or -1. */
  function Find(p: Pids, pid: int): int {
    FindFrom(p, pid, 0)
  }

  /** The first `k` probe steps met neither `pid` nor an empty slot. */
  ghost predicate Passed(p: Pids, pid: int, k: nat)
    requires k <= SIZE
  {
    forall s :: 0 <= s < SIZE && Dist(Slot(pid), s) < k ==> p[s] != pid && p[s] != EMPTY
  }

  lemma PassedStep(p: Pids, pid: int, k: nat)
    requires k < SIZE && Passed(p, pid, k)
    requires p[Pos(Slot(pid), k)] != pid && p[Pos(Slot(pid), k)] != EMPTY
    ensures Passed(p, pid, k + 1)
  {
    forall s | 0 <= s < SIZE && Dist(Slot(pid), s) < k + 1
      ensures p[s] != pid && p[s] != EMPTY
    {
      if Dist(Slot(pid), s) == k {
        assert s == Pos(Slot(pid), k);
      }
    }
  }

  /** A probe that reaches an empty slot has seen every place `pid` could be. */
  lemma NotBeyondEmpty(p: Pids, pid: int, e: nat)
    requires Inv(p) && pid > 0 && e < SIZE && p[e] == EMPTY
    requires Passed(p, pid, Dist(Slot(pid), e))
    ensures pid !in p
  {
    forall t | 0 <= t < SIZE
      ensures p[t] != pid
    {
      assert p[t] > 0 ==> Dist(Slot(p[t]), t) < Dist(Slot(p[t]), e);
    }
  }

  lemma PassedAll(p: Pids, pid: int)
    requires Passed(p, pid, SIZE)
    ensures forall s :: 0 <= s < SIZE ==> p[s] != pid && p[s] != EMPTY
  {
    forall s | 0 <= s < SIZE
      ensures p[s] != pid && p[s] != EMPTY
    {
      assert Dist(Slot(pid), s) < SIZE;
    }
  }

  lemma {:induction false} FindFromExact(p: Pids, pid: int, k: nat)
    requires Inv(p) && pid > 0 && k <= SIZE && Passed(p, pid, k)
    ensures var r := FindFrom(p, pid, k);
            if r == -1 then pid !in p else 0 <= r < SIZE && p[r] == pid
    decreases SIZE - k
  {
    if k == SIZE {
      PassedAll(p, pid);
    } else {
      var s := Pos(Slot(pid), k);
      if p[s] == pid {
      } else if p[s] == EMPTY {
        NotBeyondEmpty(p, pid, s);
      } else {
        PassedStep(p, pid, k);
        FindFromExact(p, pid, k + 1);
      }
    }
  }

  /** Lookup succeeds exactly for the PIDs the array holds, and returns the only
      slot that holds it. */
  lemma FindExact(p: Pids, pid: int)
    requires Inv(p) && pid > 0
    ensures Find(p, pid) == -1 <==> pid !in p
    ensures Find(p, pid) != -1 ==> 0 <= Find(p, pid) < SIZE && p[Find(p, pid)] == pid
    ensures forall s :: 0 <= s < SIZE && p[s] == pid ==> Find(p, pid) == s
  {
    FindFromExact(p, pid, 0);
  }

  // ------------------------------------------------------------------- insert

  /** Where an insertion of `pid` writes, after `k` steps with the first
      tombstone seen so far (-1 for none). */
  function InsertFrom(p: Pids, pid: int, k: nat, tomb: int): (r: nat)
    requires k <= SIZE && -1 <= tomb < SIZE
    ensures r < SIZE
    decreases SIZE - k
  {
    if k == SIZE then (if tomb == -1 then Slot(pid) else tomb)
    else
      var s := Pos(Slot(pid), k);
      if p[s] == pid then s
      else if p[s] == TOMBSTONE && tomb == -1 then InsertFrom(p, pid, k + 1, s)
      else if p[s] == EMPTY then (if tomb == -1 then s else tomb)
      else InsertFrom(p, pid, k + 1, tomb)
  }

  function InsertSlot(p: Pids, pid: int): (r: nat)
    ensures r < SIZE
  {
    InsertFrom(p, pid, 0, -1)
  }

  function Insert(p: Pids, pid: int): Pids {
    p[InsertSlot(p, pid) := pid]
  }

  /** `d` is a legitimate target for a new `pid`: free and before every empty
      slot on the probe path, or the home slot of a table with no free slot. */
  ghost predicate Target(p: Pids, pid: int, d: nat)
    requires d < SIZE
  {
    if p[d] <= 0 then
      forall e :: 0 <= e < SIZE && e != d && p[e] == EMPTY ==> Dist(Slot(pid), d) < Dist(Slot(pid), e)
    else AllLive(p) && d == Slot(pid)
  }

  ghost predicate Lands(p: Pids, pid: int, d: nat)
    requires d < SIZE
  {
    p[d] == pid || (pid !in p && Target(p, pid, d))
  }

  ghost predicate TombSoFar(p: Pids, pid: int, k: nat, tomb: int)
    requires k <= SIZE && -1 <= tomb < SIZE
  {
    if tomb == -1 then
      forall s :: 0 <= s < SIZE && Dist(Slot(pid), s) < k ==> p[s] != TOMBSTONE
    else p[tomb] == TOMBSTONE && Dist(Slot(pid), tomb) < k
  }

  lemma ExhaustedLands(p: Pids, pid: int, tomb: int)
    requires Inv(p) && pid > 0 && -1 <= tomb < SIZE && Passed(p, pid, SIZE) && TombSoFar(p, pid, SIZE, tomb)
    ensures Lands(p, pid, if tomb == -1 then Slot(pid) else tomb)
  {
    PassedAll(p, pid);
    if tomb == -1 {
      NoTombstoneAllLive(p, pid);
    }
  }

  lemma EmptyLands(p: Pids, pid: int, k: nat, tomb: int)
    requires Inv(p) && pid > 0 && k < SIZE && -1 <= tomb < SIZE && Passed(p, pid, k) && TombSoFar(p, pid, k, tomb)
    requires p[Pos(Slot(pid), k)] == EMPTY
    ensures Lands(p, pid, if tomb == -1 then Pos(Slot(pid), k) else tomb)
  {
    NotBeyondEmpty(p, pid, Pos(Slot(pid), k));
    EmptyIsTarget(p, pid, k, tomb);
  }

  lemma FirstTomb(p: Pids, pid: int, k: nat)
    requires k < SIZE && p[Pos(Slot(pid), k)] == TOMBSTONE
    ensures TombSoFar(p, pid, k + 1, Pos(Slot(pid), k))
  {
  }

  lemma {:induction false} InsertFromTarget(p: Pids, pid: int, k: nat, tomb: int)
    requires Inv(p) && pid > 0 && k <= SIZE && -1 <= tomb < SIZE
    requires Passed(p, pid, k) && TombSoFar(p, pid, k, tomb)
    ensures Lands(p, pid, InsertFrom(p, pid, k, tomb))
    decreases SIZE - k
  {
    if k == SIZE {
      ExhaustedLands(p, pid, tomb);
    } else {
      var s := Pos(Slot(pid), k);
      if p[s] == pid {
        assert InsertFrom(p, pid, k, tomb) == s;
      } else if p[s] == TOMBSTONE && tomb == -1 {
        PassedStep(p, pid, k);
        FirstTomb(p, pid, k);
        InsertFromTarget(p, pid, k + 1, s);
      } else if p[s] == EMPTY {
        EmptyLands(p, pid, k, tomb);
      } else {
        PassedStep(p, pid, k);
        TombStep(p, pid, k, tomb);
        InsertFromTarget(p, pid, k + 1, tomb);
      }
    }
  }

  lemma NoTombstoneAllLive(p: Pids, pid: int)
    requires Tagged(p) && Passed(p, pid, SIZE) && TombSoFar(p, pid, SIZE, -1)
    ensures AllLive(p)
  {
    PassedAll(p, pid);
    forall s | 0 <= s < SIZE
      ensures p[s] > 0
    {
      assert Dist(Slot(pid), s) < SIZE;
    }
  }

  lemma TombStep(p: Pids, pid: int, k: nat, tomb: int)
    requires k < SIZE && -1 <= tomb < SIZE && TombSoFar(p, pid, k, tomb)
    requires tomb == -1 ==> p[Pos(Slot(pid), k)] != TOMBSTONE
    ensures TombSoFar(p, pid, k + 1, tomb)
  {
    if tomb == -1 {
      forall s | 0 <= s < SIZE && Dist(Slot(pid), s) < k + 1
        ensures p[s] != TOMBSTONE
      {
        if Dist(Slot(pid), s) == k {
          assert s == Pos(Slot(pid), k);
        }
      }
    }
  }

  /** The first empty slot, or the tombstone met before it, precedes every other
      empty slot. */
  lemma EmptyIsTarget(p: Pids, pid: int, k: nat, tomb: int)
    requires k < SIZE && -1 <= tomb < SIZE
    requires Passed(p, pid, k) && TombSoFar(p, pid, k, tomb)
    requires p[Pos(Slot(pid), k)] == EMPTY
    ensures Target(p, pid, if tomb == -1 then Pos(Slot(pid), k) else tomb)
  {
    var d := if tomb == -1 then Pos(Slot(pid), k) else tomb;
    forall e | 0 <= e < SIZE && e != d && p[e] == EMPTY
      ensures Dist(Slot(pid), d) < Dist(Slot(pid), e)
    {
      assert Dist(Slot(pid), e) >= k;
      assert Pos(Slot(pid), Dist(Slot(pid), e)) == e;
    }
  }

  /** Insertion keeps the invariant; it reuses the slot of a PID already present,
      and overwrites a live entry only when every slot is live. */
  lemma InsertKeeps(p: Pids, pid: int)
    requires Inv(p) && pid > 0
    ensures Inv(Insert(p, pid)) && Insert(p, pid)[InsertSlot(p, pid)] == pid
    ensures pid in p ==> p[InsertSlot(p, pid)] == pid && Insert(p, pid) == p
    ensures pid !in p && p[InsertSlot(p, pid)] > 0 <==> pid !in p && AllLive(p)
    ensures pid !in p && AllLive(p) ==> InsertSlot(p, pid) == Slot(pid)
  {
    InsertFromTarget(p, pid, 0, -1);
    var d := InsertSlot(p, pid);
    var p' := Insert(p, pid);
    if p[d] == pid {
      assert p' == p;
    } else {
      assert pid !in p && Target(p, pid, d);
      assert Unique(p');
      if p[d] > 0 {
        assert AllLive(p');
      } else {
        assert Chained(p');
      }
    }
  }

  // --------------------------------------------------------------- probe loops

  lemma WrapsTo(start: nat, step: nat)
    requires start < SIZE && step < SIZE
    ensures (start + step) % SIZE == Pos(start, step)
  {
  }

  /** The probe loop of a lookup; -1 stands for `None`. */
  method ProbeForSlot(pids: array<int>, pid: int) returns (slot: int)
    requires pids.Length == SIZE
    ensures slot == Find(pids[..], pid)
  {
    var start := Slot(pid);
    ghost var p: Pids := pids[..];
    for step := 0 to SIZE
      invariant p == pids[..] && Find(p, pid) == FindFrom(p, pid, step)
    {
      WrapsTo(start, step);
      var s := (start + step) % SIZE;
      var cur := pids[s];
      assert cur == p[Pos(start, step)];
      if cur == pid {
        return s;
      }
      if cur == EMPTY {
        return -1;
      }
    }
    return -1;
  }

  /** The probe loop of an insertion: the slot to write, and whether it is already the
      PID's own. */
  method ProbeForInsert(pids: array<int>, pid: int) returns (slot: nat, present: bool)
    requires pids.Length == SIZE
    ensures slot == InsertSlot(pids[..], pid) && present == (pids[slot] == pid)
  {
    var start := Slot(pid);
    var firstTombstone := -1;
    ghost var p: Pids := pids[..];
    for step := 0 to SIZE
      invariant p == pids[..] && -1 <= firstTombstone < SIZE
      invariant firstTombstone != -1 ==> p[firstTombstone] == TOMBSTONE != pid
      invariant step > 0 ==> p[start] != pid
      invariant InsertSlot(p, pid) == InsertFrom(p, pid, step, firstTombstone)
    {
      WrapsTo(start, step);
      var s := (start + step) % SIZE;
      var cur := pids[s];
      assert cur == p[Pos(start, step)];
      if cur == pid {
        return s, true;
      }
      if cur == TOMBSTONE && firstTombstone == -1 {
        firstTombstone := s;
        continue;
      }
      if cur == EMPTY {
        slot := if firstTombstone == -1 then s else firstTombstone;
        return slot, false;
      }
    }
    slot := if firstTombstone == -1 then start else firstTombstone;
    return slot, false;
  }

  // ----------------------------------------------------- eviction and claiming

  function Evict(p: Pids, pid: int): Pids {
    var s := Find(p, pid);
    if 0 <= s < SIZE then p[s := TOMBSTONE] else p
  }

  lemma EvictKeeps(p: Pids, pid: int)
    requires Inv(p) && pid > 0
    ensures Inv(Evict(p, pid)) && pid !in Evict(p, pid)
    ensures forall s :: 0 <= s < SIZE && p[s] != pid ==> Evict(p, pid)[s] == p[s]
  {
    FindExact(p, pid);
  }

  /** The write `pids[slot(tgid)] = tgid` that happens outside any probe loop. */
  function Claim(p: Pids, tgid: int): Pids {
    if p[Slot(tgid)] == EMPTY then p[Slot(tgid) := tgid] else p
  }

  /** Claiming an empty home slot is safe: the chain invariant rules out that the
      PID lives further down its own probe path. */
  lemma ClaimKeeps(p: Pids, tgid: int)
    requires Inv(p) && tgid > 0
    ensures Inv(Claim(p, tgid))
    ensures p[Slot(tgid)] == EMPTY ==> tgid !in p && Claim(p, tgid)[Slot(tgid)] == tgid
    ensures forall s :: 0 <= s < SIZE && p[s] != EMPTY ==> Claim(p, tgid)[s] == p[s]
  {
    var h := Slot(tgid);
    if p[h] == EMPTY {
      assert Dist(h, h) == 0;
      NotBeyondEmpty(p, tgid, h);
      assert forall e :: 0 <= e < SIZE && e != h ==> 0 < Dist(h, e);
    }
  }

  // --------------------------------------------------------- whole runs as sets

  /** The PIDs held by the first `n` slots. */
  ghost function LiveUpTo(p: Pids, n: nat): (r: set<int>)
    requires n <= SIZE
    ensures forall x :: x in r <==> exists s :: 0 <= s < n && p[s] == x && x > 0
  {
    set s | 0 <= s < n && p[s] > 0 :: p[s]
  }

  ghost function LiveSet(p: Pids): (r: set<int>)
    ensures forall x :: x in r <==> x > 0 && x in p
  {
    LiveUpTo(p, SIZE)
  }

  lemma LiveUpToStep(p: Pids, n: nat)
    requires Unique(p) && n < SIZE
    ensures p[n] > 0 ==> p[n] !in LiveUpTo(p, n) && LiveUpTo(p, n + 1) == LiveUpTo(p, n) + {p[n]}
    ensures p[n] <= 0 ==> LiveUpTo(p, n + 1) == LiveUpTo(p, n)
  {
    var before, after := LiveUpTo(p, n), LiveUpTo(p, n + 1);
    forall x ensures x in after <==> x in before || (x > 0 && x == p[n]) {
      if x in after {
        var s :| 0 <= s < n + 1 && p[s] == x;
        assert s < n || s == n;
      }
    }
  }

  lemma LiveCountStep(p: Pids, n: nat)
    requires Unique(p) && n < SIZE
    ensures |LiveUpTo(p, n + 1)| == |LiveUpTo(p, n)| + if p[n] > 0 then 1 else 0
  {
    LiveUpToStep(p, n);
  }

  ghost predicate LiveBelow(p: Pids, n: nat)
    requires n <= SIZE
  {
    forall s :: 0 <= s < n ==> p[s] > 0
  }

  /** A table never holds more PIDs than slots; it holds as many exactly when every
      slot is live. */
  lemma {:induction false} LiveCount(p: Pids, n: nat)
    requires Unique(p) && n <= SIZE
    ensures |LiveUpTo(p, n)| <= n
    ensures |LiveUpTo(p, n)| == n <==> LiveBelow(p, n)
  {
    if n == 0 {
      assert LiveUpTo(p, 0) == {};
    } else {
      LiveCount(p, n - 1);
      LiveCountStep(p, n - 1);
      assert LiveBelow(p, n) <==> LiveBelow(p, n - 1) && p[n - 1] > 0;
    }
  }

  lemma LiveTotal(p: Pids)
    requires Unique(p)
    ensures |LiveSet(p)| <= SIZE && (|LiveSet(p)| == SIZE <==> AllLive(p))
  {
    LiveCount(p, SIZE);
  }

  datatype Op = Put(pid: int) | Drop(pid: int)

  ghost predicate Positive(ops: seq<Op>) {
    forall i :: 0 <= i < |ops| ==> ops[i].pid > 0
  }

  function Step(p: Pids, op: Op): Pids {
    match op
    case Put(pid) => Insert(p, pid)
    case Drop(pid) => Evict(p, pid)
  }

  function Exec(p: Pids, ops: seq<Op>): Pids {
    if ops == [] then p else Step(Exec(p, ops[..|ops| - 1]), ops[|ops| - 1])
  }

  /** The same operations on an unbounded set. */
  function Ideal(live: set<int>, ops: seq<Op>): set<int> {
    if ops == [] then live
    else
      var before := Ideal(live, ops[..|ops| - 1]);
      match ops[|ops| - 1]
      case Put(pid) => before + {pid}
      case Drop(pid) => before - {pid}
  }

  /** One write to slot `d` swaps its old PID for the new one and moves no other. */
  lemma WriteMembers(p: Pids, d: nat, v: int, x: int)
    requires Unique(p) && d < SIZE && x > 0
    ensures x in p[d := v] <==> x == v || (x in p && x != p[d])
  {
    var p' := p[d := v];
    assert p'[d] == v;
    if x in p' && x != v {
      var s :| 0 <= s < SIZE && p'[s] == x;
      assert p[s] == x;
    }
    if x in p && x != p[d] {
      var s :| 0 <= s < SIZE && p[s] == x;
      assert p'[s] == x;
    }
  }

  lemma PutRefines(p: Pids, pid: int)
    requires Inv(p) && pid > 0
    ensures pid in p || !AllLive(p) ==> LiveSet(Insert(p, pid)) == LiveSet(p) + {pid}
    ensures pid !in p && AllLive(p) ==> LiveSet(Insert(p, pid)) == LiveSet(p) - {p[Slot(pid)]} + {pid}
  {
    InsertKeeps(p, pid);
    var d := InsertSlot(p, pid);
    forall x | x > 0 ensures x in Insert(p, pid) <==> x == pid || (x in p && x != p[d]) {
      WriteMembers(p, d, pid, x);
    }
  }

  lemma DropRefines(p: Pids, pid: int)
    requires Inv(p) && pid > 0
    ensures LiveSet(Evict(p, pid)) == LiveSet(p) - {pid}
  {
    FindExact(p, pid);
    var d := Find(p, pid);
    if d != -1 {
      forall x | x > 0 ensures x in Evict(p, pid) <==> x in p && x != pid {
        WriteMembers(p, d, TOMBSTONE, x);
      }
    }
  }

  ghost predicate Agrees(p: Pids, ops: seq<Op>, n: nat)
    requires n <= |ops|
  {
    LiveSet(Exec(p, ops[..n])) == Ideal(LiveSet(p), ops[..n])
  }

  ghost predicate Fits(p: Pids, ops: seq<Op>, n: nat)
    requires n <= |ops|
  {
    |Ideal(LiveSet(p), ops[..n])| <= SIZE
  }

  lemma StepKeepsInv(p: Pids, op: Op)
    requires Inv(p) && op.pid > 0
    ensures Inv(Step(p, op))
  {
    match op
    case Put(pid) => InsertKeeps(p, pid);
    case Drop(pid) => EvictKeeps(p, pid);
  }

  lemma {:induction false} RunKeepsInv(p: Pids, ops: seq<Op>)
    requires Inv(p) && Positive(ops)
    ensures Inv(Exec(p, ops))
  {
    if ops == [] {
    } else {
      RunKeepsInv(p, ops[..|ops| - 1]);
      StepKeepsInv(Exec(p, ops[..|ops| - 1]), ops[|ops| - 1]);
    }
  }

  lemma {:induction false} FitsMeansAgrees(p: Pids, ops: seq<Op>, n: nat)
    requires Inv(p) && Positive(ops) && n <= |ops|
    requires forall i :: 0 <= i <= |ops| ==> Fits(p, ops, i)
    ensures Agrees(p, ops, n)
  {
    if n == 0 {
    } else {
      FitsMeansAgrees(p, ops, n - 1);
      assert ops[..n][..n - 1] == ops[..n - 1];
      var q := Exec(p, ops[..n - 1]);
      RunKeepsInv(p, ops[..n - 1]);
      assert Fits(p, ops, n) && Agrees(p, ops, n - 1);
      LiveTotal(q);
      match ops[n - 1]
      case Put(pid) => PutRefines(q, pid);
      case Drop(pid) => DropRefines(q, pid);
    }
  }

  /** The probing array is a set of PIDs for the whole of a run exactly when the
      run never asks it to hold more than `SIZE` of them; from any valid start. */
  lemma RunRefinesSet(p: Pids, ops: seq<Op>)
    requires Inv(p) && Positive(ops)
    ensures (forall n :: 0 <= n <= |ops| ==> Agrees(p, ops, n))
            <==> (forall n :: 0 <= n <= |ops| ==> Fits(p, ops, n))
  {
    if forall n :: 0 <= n <= |ops| ==> Fits(p, ops, n) {
      forall n | 0 <= n <= |ops| ensures Agrees(p, ops, n) {
        FitsMeansAgrees(p, ops, n);
      }
    }
    if forall n :: 0 <= n <= |ops| ==> Agrees(p, ops, n) {
      forall n | 0 <= n <= |ops| ensures Fits(p, ops, n) {
        assert Agrees(p, ops, n);
        RunKeepsInv(p, ops[..n]);
        LiveTotal(Exec(p, ops[..n]));
      }
    }
  }
}
