/** The watchlist of src/ai/trust.rs: which of the distrusted PIDs `worst_actors`
    keeps, and in what order. */
module Watchlists {
  import opened Numbers
  import opened PidProbe
  import opened Trust

  const SHAME_MAX: nat := 20

  datatype ShameEntry = ShameEntry(pid: int, trust: real, comm: string, flagged: bool)

  const ZERO_ENTRY := ShameEntry(0, 0.0, "", false)

  function EntryAt(t: Table, s: nat): ShameEntry
    requires Sized(t) && s < SIZE
  {
    ShameEntry(t.pids[s], t.scores[s], t.comms[s], t.flagged[s])
  }

  /** The first position whose score is better than `x`, or the length. */
  function FirstBetter(list: seq<ShameEntry>, x: real): (pos: nat)
    ensures pos <= |list| && (forall i :: 0 <= i < pos ==> list[i].trust <= x)
    ensures pos < |list| ==> list[pos].trust > x
  {
    if list == [] || list[0].trust > x then 0 else 1 + FirstBetter(list[1..], x)
  }

  lemma {:induction false} FirstBetterIs(list: seq<ShameEntry>, x: real, pos: nat)
    requires pos <= |list| && (forall i :: 0 <= i < pos ==> list[i].trust <= x)
                && (pos < |list| ==> list[pos].trust > x)
    ensures FirstBetter(list, x) == pos
  {
    if pos == 0 {
    } else {
      FirstBetterIs(list[1..], x, pos - 1);
    }
  }

  /** Append while there is room, then overwrite the first better entry. */
  function Offered(list: seq<ShameEntry>, e: ShameEntry): seq<ShameEntry> {
    if |list| < SHAME_MAX then list + [e]
    else
      var pos := FirstBetter(list, e.trust);
      if pos < |list| then list[pos := e] else list
  }

  /** The list after the first `k` slots. */
  function Kept(t: Table, k: nat): seq<ShameEntry>
    requires Sized(t) && k <= SIZE
  {
    if k == 0 then []
    else if Bad(t, k - 1) then Offered(Kept(t, k - 1), EntryAt(t, k - 1))
    else Kept(t, k - 1)
  }

  // ------------------------------------------------- what every list guarantees

  ghost predicate Listed(t: Table, k: nat, e: ShameEntry)
    requires Sized(t) && k <= SIZE
  {
    exists s :: 0 <= s < k && Bad(t, s) && e == EntryAt(t, s)
  }

  ghost predicate Least(t: Table, k: nat, x: real)
    requires Sized(t) && k <= SIZE
  {
    forall s :: 0 <= s < k && Bad(t, s) ==> x <= t.scores[s]
  }

  ghost predicate DistinctPids(list: seq<ShameEntry>) {
    forall i, j :: 0 <= i < j < |list| ==> list[i].pid != list[j].pid
  }

  ghost predicate HoldsLeast(t: Table, k: nat, list: seq<ShameEntry>)
    requires Sized(t) && k <= SIZE
  {
    exists i :: 0 <= i < |list| && Least(t, k, list[i].trust)
  }

  /** Entries of distinct bad slots, as many as fit, one of them with the least score. */
  ghost predicate Watchlist(t: Table, k: nat, list: seq<ShameEntry>)
    requires Sized(t) && k <= SIZE
  {
    && |list| == (if CountBad(t, k) < SHAME_MAX then CountBad(t, k) else SHAME_MAX)
    && (forall i :: 0 <= i < |list| ==> Listed(t, k, list[i]))
    && DistinctPids(list)
    && (list != [] ==> HoldsLeast(t, k, list))
  }

  lemma ListedStep(t: Table, k: nat, e: ShameEntry)
    requires Sized(t) && k < SIZE && Listed(t, k, e)
    ensures Listed(t, k + 1, e)
    ensures Unique(t.pids) && t.pids[k] > 0 ==> e.pid != t.pids[k]
  {
    var s :| 0 <= s < k && Bad(t, s) && e == EntryAt(t, s);
    assert 0 <= s < k + 1 && Bad(t, s) && e == EntryAt(t, s);
  }

  lemma LeastStep(t: Table, k: nat, x: real)
    requires Sized(t) && k < SIZE && Least(t, k, x)
    ensures Bad(t, k) && t.scores[k] < x ==> Least(t, k + 1, t.scores[k])
    ensures !Bad(t, k) || x <= t.scores[k] ==> Least(t, k + 1, x)
  {
  }

  /** Slot `k` adds nothing: it is not bad, or the list is full and no entry beats it. */
  lemma WatchlistSkip(t: Table, k: nat, list: seq<ShameEntry>)
    requires Sized(t) && k < SIZE && Watchlist(t, k, list)
    requires !Bad(t, k) || (|list| == SHAME_MAX && forall i :: 0 <= i < |list| ==> list[i].trust <= t.scores[k])
    ensures Watchlist(t, k + 1, list)
  {
    forall i | 0 <= i < |list| ensures Listed(t, k + 1, list[i]) {
      ListedStep(t, k, list[i]);
    }
    if list != [] {
      var i :| 0 <= i < |list| && Least(t, k, list[i].trust);
      LeastStep(t, k, list[i].trust);
    }
  }

  lemma {:induction false} NoneCounted(t: Table, k: nat)
    requires Sized(t) && k <= SIZE && CountBad(t, k) == 0
    ensures forall s :: 0 <= s < k ==> !Bad(t, s)
  {
    if k == 0 {
    } else {
      NoneCounted(t, k - 1);
    }
  }

  /** The newcomer, written at `pos`, keeps the entries listed and distinct. */
  lemma ListAfterWrite(t: Table, k: nat, list: seq<ShameEntry>, list': seq<ShameEntry>, pos: nat)
    requires Sized(t) && Unique(t.pids) && k < SIZE && Watchlist(t, k, list) && Bad(t, k)
    requires pos < |list'| && |list| <= |list'| && list'[pos] == EntryAt(t, k)
    requires forall i :: 0 <= i < |list'| && i != pos ==> i < |list| && list'[i] == list[i]
    ensures forall i :: 0 <= i < |list'| ==> Listed(t, k + 1, list'[i])
    ensures DistinctPids(list')
  {
    forall i | 0 <= i < |list| ensures Listed(t, k + 1, list[i]) && list[i].pid != t.pids[k] {
      ListedStep(t, k, list[i]);
    }
    assert Listed(t, k + 1, EntryAt(t, k));
  }

  lemma WatchlistAppend(t: Table, k: nat, list: seq<ShameEntry>)
    requires Sized(t) && Unique(t.pids) && k < SIZE && Watchlist(t, k, list) && Bad(t, k) && |list| < SHAME_MAX
    ensures Watchlist(t, k + 1, list + [EntryAt(t, k)])
  {
    var n, list' := |list|, list + [EntryAt(t, k)];
    ListAfterWrite(t, k, list, list', n);
    if list == [] {
      NoneCounted(t, k);
      assert Least(t, k + 1, list'[0].trust);
    } else {
      var i :| 0 <= i < n && Least(t, k, list[i].trust);
      LeastStep(t, k, list[i].trust);
      var m := if t.scores[k] < list[i].trust then n else i;
      assert Least(t, k + 1, list'[m].trust);
    }
  }

  /** Overwriting an entry that is better than the newcomer cannot lose the minimum:
      the minimum is overwritten only by something smaller. */
  lemma WatchlistReplace(t: Table, k: nat, list: seq<ShameEntry>, pos: nat)
    requires Sized(t) && Unique(t.pids) && k < SIZE && Watchlist(t, k, list) && Bad(t, k)
    requires |list| == SHAME_MAX && pos < SHAME_MAX && list[pos].trust > t.scores[k]
    ensures Watchlist(t, k + 1, list[pos := EntryAt(t, k)])
  {
    var list' := list[pos := EntryAt(t, k)];
    ListAfterWrite(t, k, list, list', pos);
    var i :| 0 <= i < SHAME_MAX && Least(t, k, list[i].trust);
    LeastStep(t, k, list[i].trust);
    var m := if t.scores[k] < list[i].trust then pos else i;
    assert list'[m].trust == if m == pos then t.scores[k] else list[i].trust;
    assert Least(t, k + 1, list'[m].trust);
  }

  lemma WatchlistOffer(t: Table, k: nat, list: seq<ShameEntry>)
    requires Sized(t) && Unique(t.pids) && k < SIZE && Watchlist(t, k, list) && Bad(t, k)
    ensures Watchlist(t, k + 1, Offered(list, EntryAt(t, k)))
  {
    var pos := FirstBetter(list, t.scores[k]);
    if |list| < SHAME_MAX {
      WatchlistAppend(t, k, list);
    } else if pos < |list| {
      WatchlistReplace(t, k, list, pos);
    } else {
      WatchlistSkip(t, k, list);
    }
  }

  /** Whatever the table, the list has `min(20, quarantined)` entries for distinct bad
      PIDs and never loses the least score. */
  lemma {:induction false} KeptIsWatchlist(t: Table, k: nat)
    requires Sized(t) && Unique(t.pids) && k <= SIZE
    ensures Watchlist(t, k, Kept(t, k))
  {
    if k == 0 {
    } else {
      KeptIsWatchlist(t, k - 1);
      if Bad(t, k - 1) {
        WatchlistOffer(t, k - 1, Kept(t, k - 1));
      } else {
        WatchlistSkip(t, k - 1, Kept(t, k - 1));
      }
    }
  }

  // --------------------------------------------------------------- slot order

  /** The entries of the bad slots below `k`, in slot order. */
  function BadEntries(t: Table, k: nat): seq<ShameEntry>
    requires Sized(t) && k <= SIZE
  {
    if k == 0 then [] else BadEntries(t, k - 1) + if Bad(t, k - 1) then [EntryAt(t, k - 1)] else []
  }

  lemma {:induction false} BadEntriesCount(t: Table, k: nat)
    requires Sized(t) && k <= SIZE
    ensures |BadEntries(t, k)| == CountBad(t, k)
  {
    if k == 0 {
    } else {
      BadEntriesCount(t, k - 1);
    }
  }

  lemma {:induction false} BadEntriesListAll(t: Table, k: nat, s: nat)
    requires Sized(t) && s < k <= SIZE && Bad(t, s)
    ensures EntryAt(t, s) in BadEntries(t, k)
  {
    if s == k - 1 {
    } else {
      BadEntriesListAll(t, k - 1, s);
    }
  }

  /** With at most 20 bad PIDs the list is all of them, in slot order. */
  lemma {:induction false} ShortListInOrder(t: Table, k: nat)
    requires Sized(t) && k <= SIZE && CountBad(t, k) <= SHAME_MAX
    ensures Kept(t, k) == BadEntries(t, k)
  {
    if k == 0 {
    } else {
      ShortListInOrder(t, k - 1);
      BadEntriesCount(t, k - 1);
    }
  }

  // ------------------------------------------------------------- completeness

  ghost function BadPids(t: Table, k: nat): set<int>
    requires Sized(t) && k <= SIZE
  {
    set s | 0 <= s < k && Bad(t, s) :: t.pids[s]
  }

  lemma {:induction false} BadPidsCount(t: Table, k: nat)
    requires Sized(t) && Unique(t.pids) && k <= SIZE
    ensures |BadPids(t, k)| == CountBad(t, k)
  {
    if k == 0 {
      assert BadPids(t, 0) == {};
    } else {
      BadPidsCount(t, k - 1);
      BadPidsStep(t, k - 1);
    }
  }

  lemma BadPidsStep(t: Table, k: nat)
    requires Sized(t) && Unique(t.pids) && k < SIZE
    ensures Bad(t, k) ==> t.pids[k] !in BadPids(t, k) && BadPids(t, k + 1) == BadPids(t, k) + {t.pids[k]}
    ensures !Bad(t, k) ==> BadPids(t, k + 1) == BadPids(t, k)
  {
    forall x ensures x in BadPids(t, k + 1) <==> x in BadPids(t, k) || (Bad(t, k) && x == t.pids[k]) {
      if x in BadPids(t, k + 1) {
        var s :| 0 <= s < k + 1 && Bad(t, s) && t.pids[s] == x;
        assert s < k || s == k;
      }
    }
  }

  ghost function PidsOf(list: seq<ShameEntry>): set<int> {
    set e | e in list :: e.pid
  }

  lemma {:induction false} PidsOfCount(list: seq<ShameEntry>)
    ensures |PidsOf(list)| <= |list|
  {
    if list == [] {
    } else {
      PidsOfCount(list[1..]);
      assert list == [list[0]] + list[1..];
      assert PidsOf(list) == PidsOf(list[1..]) + {list[0].pid};
    }
  }

  ghost predicate ListsEveryone(t: Table, list: seq<ShameEntry>)
    requires Sized(t)
  {
    forall s :: 0 <= s < SIZE && Bad(t, s) ==> EntryAt(t, s) in list
  }

  /** The list holds every quarantined PID exactly when there are at most 20. */
  lemma ListsEveryoneIff(t: Table)
    requires Sized(t) && Unique(t.pids)
    ensures ListsEveryone(t, Kept(t, SIZE)) <==> CountBad(t, SIZE) <= SHAME_MAX
  {
    var list := Kept(t, SIZE);
    KeptIsWatchlist(t, SIZE);
    if CountBad(t, SIZE) <= SHAME_MAX {
      ShortListInOrder(t, SIZE);
      forall s | 0 <= s < SIZE && Bad(t, s) ensures EntryAt(t, s) in list {
        BadEntriesListAll(t, SIZE, s);
      }
    }
    if ListsEveryone(t, list) {
      forall x | x in BadPids(t, SIZE) ensures x in PidsOf(list) {
        var s :| 0 <= s < SIZE && Bad(t, s) && t.pids[s] == x;
        assert EntryAt(t, s) in list;
      }
      BadPidsCount(t, SIZE);
      PidsOfCount(list);
      SubsetIsSmaller(BadPids(t, SIZE), PidsOf(list));
    }
  }

  // ------------------------------------------------------- most distrusted first

  ghost predicate WorstFirst(list: seq<ShameEntry>) {
    forall i, j :: 0 <= i < j < |list| ==> list[i].trust <= list[j].trust
  }

  /** Among bad slots, a later one never has a lower score. */
  ghost predicate AscendBySlot(t: Table, k: nat)
    requires Sized(t) && k <= SIZE
  {
    forall r, s :: 0 <= r < s < k && Bad(t, r) && Bad(t, s) ==> t.scores[r] <= t.scores[s]
  }

  lemma {:induction false} EntriesAscendIff(t: Table, k: nat)
    requires Sized(t) && k <= SIZE
    ensures WorstFirst(BadEntries(t, k)) <==> AscendBySlot(t, k)
    ensures forall e :: e in BadEntries(t, k) ==> Listed(t, k, e)
  {
    if k == 0 {
    } else {
      EntriesAscendIff(t, k - 1);
      forall e | e in BadEntries(t, k - 1) ensures Listed(t, k, e) {
        ListedStep(t, k - 1, e);
      }
      if Bad(t, k - 1) {
        LastAscends(t, k - 1);
        assert Listed(t, k, EntryAt(t, k - 1));
      } else {
        assert BadEntries(t, k) == BadEntries(t, k - 1);
        assert AscendBySlot(t, k - 1) ==> AscendBySlot(t, k);
      }
    }
  }

  lemma LastAscends(t: Table, k: nat)
    requires Sized(t) && k < SIZE && Bad(t, k)
    requires WorstFirst(BadEntries(t, k)) <==> AscendBySlot(t, k)
    requires forall e :: e in BadEntries(t, k) ==> Listed(t, k, e)
    ensures WorstFirst(BadEntries(t, k) + [EntryAt(t, k)]) <==> AscendBySlot(t, k + 1)
  {
    var list, last := BadEntries(t, k), EntryAt(t, k);
    if AscendBySlot(t, k + 1) {
      assert AscendBySlot(t, k);
      forall i | 0 <= i < |list| ensures list[i].trust <= last.trust {
        assert list[i] in list;
        var s :| 0 <= s < k && Bad(t, s) && list[i] == EntryAt(t, s);
      }
    }
    if WorstFirst(list + [last]) {
      assert forall i :: 0 <= i < |list| ==> (list + [last])[i] == list[i];
      assert WorstFirst(list);
      forall s | 0 <= s < k && Bad(t, s) ensures t.scores[s] <= t.scores[k] {
        BadEntriesListAll(t, k, s);
        var i :| 0 <= i < |list| && list[i] == EntryAt(t, s);
        assert (list + [last])[i].trust <= (list + [last])[|list|].trust;
      }
    }
  }

  /** With at most 20 bad PIDs the list is worst first exactly when their scores
      ascend by slot: nothing in the code sorts it. */
  lemma ShortListWorstFirstIff(t: Table)
    requires Sized(t) && CountBad(t, SIZE) <= SHAME_MAX
    ensures WorstFirst(Kept(t, SIZE)) <==> AscendBySlot(t, SIZE)
  {
    ShortListInOrder(t, SIZE);
    EntriesAscendIff(t, SIZE);
  }

  // ------------------------------------------------------------ what is overwritten

  /** The overwritten entry is a least bad one exactly when no later entry is better
      than it: the scan stops at the first better entry, not at the best. */
  lemma ReplacesLeastBadIff(list: seq<ShameEntry>, x: real)
    requires FirstBetter(list, x) < |list|
    ensures var pos := FirstBetter(list, x);
            (forall i :: 0 <= i < |list| ==> list[i].trust <= list[pos].trust)
            <==> forall i :: pos < i < |list| ==> list[i].trust <= list[pos].trust
  {
  }

  /** No bad PID left out is worse than one listed. */
  ghost predicate MostDistrusted(t: Table, list: seq<ShameEntry>)
    requires Sized(t)
  {
    forall s :: 0 <= s < SIZE && Bad(t, s) && EntryAt(t, s) !in list ==> NoBetter(list, t.scores[s])
  }

  ghost predicate NoBetter(list: seq<ShameEntry>, x: real) {
    forall e :: e in list ==> e.trust <= x
  }

  // ----------------------------------------------------------------- an example

  /** PIDs whose home slots are 0, 1, ..., 20. */
  const CULPRITS: seq<int> :=
    [4181, 1597, 3194, 610, 2207, 3804, 1220, 233, 4414, 1830, 843, 5024, 2440, 1453, 5634, 466, 2063, 6244, 1076,
        2673, 89]

  function ScoreOf(s: nat): real {
    if s == 0 then -0.50 else if s == 1 then -0.40 else if s < 20 then -0.68 else if s == 20 then -0.60 else 0.0
  }

  lemma LowBits(wraps: nat, rest: nat)
    requires rest < TWO32
    ensures (wraps * TWO32 + rest) % TWO32 == rest
  {
  }

  lemma HighBits(s: nat, low: nat)
    requires low < 0x10_0000
    ensures (s * 0x10_0000 + low) / 0x10_0000 == s
  {
  }

  /** A PID's slot from its 32-bit product. */
  lemma SlotFrom(pid: nat, wraps: nat, low: nat, s: nat)
    requires pid < TWO32 && pid * FIB32 == wraps * TWO32 + s * 0x10_0000 + low && low < 0x10_0000 && s < SIZE
    ensures Slot(pid) == s
  {
    assert pid % TWO32 == pid;
    LowBits(wraps, s * 0x10_0000 + low);
    HighBits(s, low);
  }

  lemma CulpritSlotsA(s: nat)
    requires 0 <= s < 7
    ensures Slot(CULPRITS[s]) == s && CULPRITS[s] > 0
  {
    match s
    case 0 => SlotFrom(4181, 2584, 457325, 0);
    case 1 => SlotFrom(1597, 987, 153365, 1);
    case 2 => SlotFrom(3194, 1974, 306730, 2);
    case 3 => SlotFrom(610, 377, 2770, 3);
    case 4 => SlotFrom(2207, 1364, 156135, 4);
    case 5 => SlotFrom(3804, 2351, 309500, 5);
    case 6 => SlotFrom(1220, 754, 5540, 6);
  }

  lemma CulpritSlotsB(s: nat)
    requires 7 <= s < 14
    ensures Slot(CULPRITS[s]) == s && CULPRITS[s] > 0
  {
    match s
    case 7 => SlotFrom(233, 144, 903521, 7);
    case 8 => SlotFrom(4414, 2728, 312270, 8);
    case 9 => SlotFrom(1830, 1131, 8310, 9);
    case 10 => SlotFrom(843, 521, 906291, 10);
    case 11 => SlotFrom(5024, 3105, 315040, 11);
    case 12 => SlotFrom(2440, 1508, 11080, 12);
    case 13 => SlotFrom(1453, 898, 909061, 13);
  }

  lemma CulpritSlotsC(s: nat)
    requires 14 <= s < 21
    ensures Slot(CULPRITS[s]) == s && CULPRITS[s] > 0
  {
    match s
    case 14 => SlotFrom(5634, 3482, 317810, 14);
    case 15 => SlotFrom(466, 288, 758466, 15);
    case 16 => SlotFrom(2063, 1275, 911831, 16);
    case 17 => SlotFrom(6244, 3859, 320580, 17);
    case 18 => SlotFrom(1076, 665, 761236, 18);
    case 19 => SlotFrom(2673, 1652, 914601, 19);
    case 20 => SlotFrom(89, 55, 610641, 20);
  }

  lemma CulpritSlots(s: nat)
    requires s < 21
    ensures Slot(CULPRITS[s]) == s && CULPRITS[s] > 0
  {
    if s < 7 {
      CulpritSlotsA(s);
    } else if s < 14 {
      CulpritSlotsB(s);
    } else {
      CulpritSlotsC(s);
    }
  }

  /** The first `n` culprits at home in the first slots, with their scores, and nobody else. */
  ghost predicate Culprits(t: Table, n: nat)
    requires n <= 21
  {
    && Sized(t)
    && (forall s :: 0 <= s < n ==> t.pids[s] == CULPRITS[s] && t.scores[s] == ScoreOf(s))
    && (forall s :: n <= s < SIZE ==> t.pids[s] == EMPTY && t.scores[s] == 0.0)
  }

  lemma {:induction false} PrefixFills(t: Table, k: nat)
    requires Sized(t) && k <= SIZE && forall s :: 0 <= s < k ==> Bad(t, s)
    ensures CountBad(t, k) == k == |BadEntries(t, k)|
    ensures forall s :: 0 <= s < k ==> BadEntries(t, k)[s] == EntryAt(t, s)
  {
    if k == 0 {
    } else {
      PrefixFills(t, k - 1);
    }
  }

  lemma {:induction false} RestAddsNothing(t: Table, n: nat, k: nat)
    requires Sized(t) && n <= k <= SIZE && forall s :: n <= s < k ==> !Bad(t, s)
    ensures Kept(t, k) == Kept(t, n)
  {
    if k == n {
    } else {
      RestAddsNothing(t, n, k - 1);
    }
  }

  lemma TwentyOneKept(t: Table)
    requires Culprits(t, 21)
    ensures |Kept(t, SIZE)| == SHAME_MAX && Kept(t, SIZE)[0] == EntryAt(t, 20)
    ensures forall s :: 0 < s < SHAME_MAX ==> Kept(t, SIZE)[s] == EntryAt(t, s)
  {
    assert forall s :: 0 <= s < 21 ==> CULPRITS[s] > 0 && Bad(t, s);
    PrefixFills(t, 20);
    ShortListInOrder(t, 20);
    var filled := Kept(t, 20);
    assert filled[0].trust > t.scores[20];
    assert FirstBetter(filled, t.scores[20]) == 0;
    RestAddsNothing(t, 21, SIZE);
    assert Kept(t, 21) == filled[0 := EntryAt(t, 20)];
  }

  /** Twenty-one distrusted PIDs: the last slot is listed first, and the entry it
      overwrote (-0.50) is worse than one that stays (-0.40). */
  lemma TwentyOneMisleads(t: Table)
    requires Culprits(t, 21)
    ensures var list := Kept(t, SIZE);
            && |list| == SHAME_MAX && list[0] == EntryAt(t, 20) && list[1] == EntryAt(t, 1) && EntryAt(t, 0) !in list
            && t.scores[0] < t.scores[1]
            && !WorstFirst(list) && !MostDistrusted(t, list) && !ListsEveryone(t, list)
  {
    var list := Kept(t, SIZE);
    TwentyOneKept(t);
    assert list[1].trust > list[2].trust;
    assert Bad(t, 0);
    forall i | 0 <= i < SHAME_MAX ensures list[i] != EntryAt(t, 0) {
      var s := if i == 0 then 20 else i;
      assert list[i] == EntryAt(t, s) && CULPRITS[s] != CULPRITS[0];
    }
    assert list[1] in list && !NoBetter(list, t.scores[0]);
  }
}
