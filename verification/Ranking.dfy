/** When the watchlist is what it is announced to be: the twenty most distrusted PIDs,
    worst first.  The answer is read off the scores alone. */
module Ranking {
  import opened Numbers
  import opened PidProbe
  import opened Trust
  import opened Watchlists

  // -------------------------------------------------------------------- the ranking

  /** Entry `i` ranks before entry `j`: a lower score, or the same in an earlier slot. */
  predicate Before(e: seq<ShameEntry>, i: nat, j: nat)
    requires i < |e| && j < |e|
  {
    e[i].trust < e[j].trust || (e[i].trust == e[j].trust && i < j)
  }

  /** How many of the first `k` entries rank before entry `j`. */
  function RankIn(e: seq<ShameEntry>, j: nat, k: nat): nat
    requires j < |e| && k <= |e|
  {
    if k == 0 then 0 else RankIn(e, j, k - 1) + if Before(e, k - 1, j) then 1 else 0
  }

  function Rank(e: seq<ShameEntry>, j: nat): nat
    requires j < |e|
  {
    RankIn(e, j, |e|)
  }

  /** Among the twenty most distrusted. */
  predicate Chosen(e: seq<ShameEntry>, j: nat)
    requires j < |e|
  {
    Rank(e, j) < SHAME_MAX
  }

  lemma {:induction false} RankGrows(e: seq<ShameEntry>, i: nat, j: nat, k: nat)
    requires i < |e| && j < |e| && k <= |e| && Before(e, i, j)
    ensures RankIn(e, i, k) + (if i < k then 1 else 0) <= RankIn(e, j, k)
  {
    if k == 0 {
    } else {
      RankGrows(e, i, j, k - 1);
    }
  }

  lemma {:induction false} RankBound(e: seq<ShameEntry>, j: nat, k: nat)
    requires j < |e| && k <= |e|
    ensures RankIn(e, j, k) + (if j < k then 1 else 0) <= k
  {
    if k == 0 {
    } else {
      RankBound(e, j, k - 1);
    }
  }

  lemma ChosenIsBefore(e: seq<ShameEntry>, i: nat, j: nat)
    requires i < |e| && j < |e| && Chosen(e, i) && !Chosen(e, j)
    ensures Before(e, i, j)
  {
    if !Before(e, i, j) {
      RankGrows(e, j, i, |e|);
    }
  }

  // ---------------------------------------------------------- exactly twenty are chosen

  ghost function RankedBelow(e: seq<ShameEntry>, k: nat): set<int> {
    set j | 0 <= j < |e| && Rank(e, j) < k
  }

  lemma RanksAreDistinct(e: seq<ShameEntry>, i: nat, j: nat)
    requires i < |e| && j < |e| && i != j
    ensures Rank(e, i) != Rank(e, j)
  {
    if Before(e, i, j) {
      RankGrows(e, i, j, |e|);
    } else {
      RankGrows(e, j, i, |e|);
    }
  }

  lemma RankedStep(e: seq<ShameEntry>, k: nat)
    ensures |RankedBelow(e, k + 1)| <= |RankedBelow(e, k)| + 1
  {
    var below, upTo := RankedBelow(e, k), RankedBelow(e, k + 1);
    if upTo == below {
    } else {
      var j :| j in upTo && j !in below;
      forall i | i in upTo && i !in below ensures i == j {
        if i != j {
          RanksAreDistinct(e, i, j);
        }
      }
      assert upTo == below + {j};
    }
  }

  lemma {:induction false} RankedAtMost(e: seq<ShameEntry>, k: nat)
    ensures |RankedBelow(e, k)| <= k
  {
    if k == 0 {
      assert RankedBelow(e, 0) == {};
    } else {
      RankedAtMost(e, k - 1);
      RankedStep(e, k - 1);
    }
  }

  lemma {:induction false} RankedAtLeast(e: seq<ShameEntry>, k: nat)
    requires k <= |e|
    ensures |RankedBelow(e, k)| >= k
    decreases |e| - k
  {
    if k == |e| {
      forall j | 0 <= j < |e| ensures j in RankedBelow(e, k) {
        RankBound(e, j, |e|);
      }
      assert RankedBelow(e, k) == Below(k);
    } else {
      RankedAtLeast(e, k + 1);
      RankedStep(e, k);
    }
  }

  ghost function Below(k: nat): (r: set<int>)
    ensures |r| == k && forall j :: j in r <==> 0 <= j < k
  {
    if k == 0 then {} else Below(k - 1) + {k - 1}
  }

  ghost function ChosenSet(e: seq<ShameEntry>): set<int> {
    set j | 0 <= j < |e| && Chosen(e, j)
  }

  /** Twenty entries are chosen, or all of fewer. */
  lemma ChosenCount(e: seq<ShameEntry>)
    ensures |ChosenSet(e)| == Min(|e|, SHAME_MAX)
  {
    assert ChosenSet(e) == RankedBelow(e, SHAME_MAX);
    if |e| >= SHAME_MAX {
      RankedAtMost(e, SHAME_MAX);
      RankedAtLeast(e, SHAME_MAX);
    } else {
      forall j | 0 <= j < |e| ensures Chosen(e, j) {
        RankBound(e, j, |e|);
      }
      assert ChosenSet(e) == Below(|e|);
    }
  }

  // ---------------------------------------------------------- the scan, by position

  ghost predicate Positions(e: seq<ShameEntry>, list: seq<nat>) {
    forall p :: 0 <= p < |list| ==> list[p] < |e|
  }

  /** The entries at the listed positions. */
  function Picked(e: seq<ShameEntry>, list: seq<nat>): (r: seq<ShameEntry>)
    requires Positions(e, list)
    ensures |r| == |list| && forall p :: 0 <= p < |list| ==> r[p] == e[list[p]]
  {
    seq(|list|, p requires 0 <= p < |list| => e[list[p]])
  }

  function Place(e: seq<ShameEntry>, list: seq<nat>, j: nat): seq<nat>
    requires Positions(e, list) && j < |e|
  {
    if |list| < SHAME_MAX then list + [j]
    else
      var pos := FirstBetter(Picked(e, list), e[j].trust);
      if pos < |list| then list[pos := j] else list
  }

  /** Which of the first `k` entries the scan holds. */
  function Scan(e: seq<ShameEntry>, k: nat): (list: seq<nat>)
    requires k <= |e|
    ensures |list| == Min(k, SHAME_MAX) && forall p :: 0 <= p < |list| ==> list[p] < k
  {
    if k == 0 then [] else Place(e, Scan(e, k - 1), k - 1)
  }

  ghost predicate Distinct(list: seq<nat>) {
    forall p, q :: 0 <= p < q < |list| ==> list[p] != list[q]
  }

  lemma {:induction false} ScanIsDistinct(e: seq<ShameEntry>, k: nat)
    requires k <= |e|
    ensures Distinct(Scan(e, k))
  {
    if k == 0 {
    } else {
      ScanIsDistinct(e, k - 1);
    }
  }

  lemma {:induction false} GoneStaysGone(e: seq<ShameEntry>, j: nat, k: nat, m: nat)
    requires j < k <= m <= |e| && j !in Scan(e, k)
    ensures j !in Scan(e, m)
  {
    if k == m {
    } else {
      GoneStaysGone(e, j, k, m - 1);
    }
  }

  // -------------------------------------------------------------- the filled-in list

  /** The first listed position that is not chosen, or the length. */
  function FirstOut(e: seq<ShameEntry>, list: seq<nat>): (u: nat)
    requires Positions(e, list)
    ensures u <= |list| && (forall p :: 0 <= p < u ==> Chosen(e, list[p])) && (u < |list| ==> !Chosen(e, list[u]))
  {
    if list == [] || !Chosen(e, list[0]) then 0 else 1 + FirstOut(e, list[1..])
  }

  /** The first twenty entries, those outside the twenty most distrusted replaced from
      left to right by the later ones among them. */
  function Filled(e: seq<ShameEntry>, k: nat): (list: seq<nat>)
    requires k <= |e|
    ensures |list| == Min(k, SHAME_MAX) && forall p :: 0 <= p < |list| ==> list[p] < k
  {
    if k == 0 then []
    else
      var list := Filled(e, k - 1);
      if |list| < SHAME_MAX then list + [k - 1]
      else
        var u := FirstOut(e, list);
        if Chosen(e, k - 1) && u < |list| then list[u := k - 1] else list
  }

  lemma {:induction false} FilledIsDistinct(e: seq<ShameEntry>, k: nat)
    requires k <= |e|
    ensures Distinct(Filled(e, k))
  {
    if k == 0 {
    } else {
      FilledIsDistinct(e, k - 1);
    }
  }

  ghost function Members(list: seq<nat>): set<int> {
    set p | 0 <= p < |list| :: list[p]
  }

  lemma {:induction false} MembersCount(list: seq<nat>)
    requires Distinct(list)
    ensures |Members(list)| == |list|
  {
    if list == [] {
    } else {
      var before, last := list[..|list| - 1], list[|list| - 1];
      MembersCount(before);
      assert last !in Members(before);
      assert Members(list) == Members(before) + {last} by {
        assert forall p :: 0 <= p < |before| ==> before[p] == list[p];
      }
    }
  }

  /** Room is left for a chosen newcomer. */
  lemma ChosenFindsRoom(e: seq<ShameEntry>, k: nat)
    requires SHAME_MAX <= k < |e| && Chosen(e, k)
    ensures FirstOut(e, Filled(e, k)) < SHAME_MAX
  {
    var list := Filled(e, k);
    if FirstOut(e, list) == |list| {
      FilledIsDistinct(e, k);
      MembersCount(list);
      ChosenCount(e);
      assert k !in Members(list);
      SubsetIsSmaller(Members(list) + {k}, ChosenSet(e));
    }
  }

  lemma {:induction false} FilledKeepsChosen(e: seq<ShameEntry>, j: nat, k: nat)
    requires j < k <= |e| && Chosen(e, j)
    ensures j in Filled(e, k)
  {
    var list := Filled(e, k - 1);
    if j == k - 1 {
      if |list| < SHAME_MAX {
        assert Filled(e, k)[|list|] == j;
      } else {
        ChosenFindsRoom(e, j);
        assert Filled(e, k)[FirstOut(e, list)] == j;
      }
    } else {
      FilledKeepsChosen(e, j, k - 1);
      var p :| 0 <= p < |list| && list[p] == j;
      assert Filled(e, k)[p] == j;
    }
  }

  /** In the end every position is filled by a chosen entry. */
  lemma FilledIsChosen(e: seq<ShameEntry>)
    ensures Members(Filled(e, |e|)) == ChosenSet(e)
  {
    var list := Filled(e, |e|);
    FilledIsDistinct(e, |e|);
    MembersCount(list);
    ChosenCount(e);
    forall j | j in ChosenSet(e) ensures j in Members(list) {
      FilledKeepsChosen(e, j, |e|);
    }
    SameWhenAsLarge(ChosenSet(e), Members(list));
  }

  lemma SameWhenAsLarge(a: set<int>, b: set<int>)
    requires a <= b && |a| == |b|
    ensures a == b
  {
    assert b == a + (b - a);
  }

  // -------------------------------------------------------- the scan against the fill

  /** The two lists hold the same chosen entries at the same positions. */
  ghost predicate Agree(e: seq<ShameEntry>, a: seq<nat>, b: seq<nat>)
    requires Positions(e, a) && Positions(e, b)
  {
    |a| == |b| && forall p :: 0 <= p < |a| ==>
      (Chosen(e, a[p]) <==> Chosen(e, b[p])) && (Chosen(e, a[p]) ==> a[p] == b[p])
  }

  /** A chosen newcomer `k` is no better than the chosen entries ahead of its place. */
  ghost predicate FitsAt(e: seq<ShameEntry>, k: nat)
    requires k < |e|
  {
    k >= SHAME_MAX && Chosen(e, k) ==>
      forall q :: 0 <= q < FirstOut(e, Filled(e, k)) ==> e[Filled(e, k)[q]].trust <= e[k].trust
  }

  lemma FirstBetterAt(list: seq<ShameEntry>, x: real, pos: nat)
    requires pos < |list| && list[pos].trust > x && forall i :: 0 <= i < pos ==> list[i].trust <= x
    ensures FirstBetter(list, x) == pos
  {
    FirstBetterIs(list, x, pos);
  }

  /** A fitting chosen newcomer takes the same place in both lists. */
  lemma ChosenTakesPlace(e: seq<ShameEntry>, k: nat)
    requires SHAME_MAX <= k < |e| && Chosen(e, k) && Agree(e, Scan(e, k), Filled(e, k)) && FitsAt(e, k)
    ensures var u := FirstOut(e, Filled(e, k));
            u < SHAME_MAX && Scan(e, k + 1) == Scan(e, k)[u := k] && Filled(e, k + 1) == Filled(e, k)[u := k]
  {
    ChosenFindsRoom(e, k);
    var a, u := Scan(e, k), FirstOut(e, Filled(e, k));
    ChosenIsBefore(e, k, a[u]);
    FirstBetterAt(Picked(e, a), e[k].trust, u);
  }

  lemma AgreeAfter(e: seq<ShameEntry>, a: seq<nat>, b: seq<nat>, u: nat, k: nat)
    requires Positions(e, a) && Positions(e, b) && Agree(e, a, b) && u < |a| && k < |e|
    ensures Agree(e, a[u := k], b[u := k])
  {
  }

  lemma StepAgrees(e: seq<ShameEntry>, k: nat)
    requires k < |e| && Agree(e, Scan(e, k), Filled(e, k)) && FitsAt(e, k)
    ensures Agree(e, Scan(e, k + 1), Filled(e, k + 1))
  {
    if k < SHAME_MAX {
    } else if Chosen(e, k) {
      ChosenTakesPlace(e, k);
      AgreeAfter(e, Scan(e, k), Filled(e, k), FirstOut(e, Filled(e, k)), k);
    } else {
      UnchosenReplacesUnchosen(e, k);
    }
  }

  lemma UnchosenReplacesUnchosen(e: seq<ShameEntry>, k: nat)
    requires SHAME_MAX <= k < |e| && !Chosen(e, k)
    ensures var pos := FirstBetter(Picked(e, Scan(e, k)), e[k].trust);
            pos < SHAME_MAX ==> !Chosen(e, Scan(e, k)[pos])
  {
    var pos := FirstBetter(Picked(e, Scan(e, k)), e[k].trust);
    if pos < SHAME_MAX && Chosen(e, Scan(e, k)[pos]) {
      ChosenIsBefore(e, Scan(e, k)[pos], k);
    }
  }

  /** A newcomer that does not fit pushes a chosen entry out. */
  lemma StepLoses(e: seq<ShameEntry>, k: nat) returns (j: nat)
    requires k < |e| && Agree(e, Scan(e, k), Filled(e, k)) && !FitsAt(e, k)
    ensures j < k && Chosen(e, j) && j !in Scan(e, k + 1)
  {
    var a, b := Scan(e, k), Filled(e, k);
    var q :| 0 <= q < FirstOut(e, b) && e[b[q]].trust > e[k].trust;
    assert Chosen(e, b[q]) && a[q] == b[q];
    var pos := FirstBetter(Picked(e, a), e[k].trust);
    assert pos <= q;
    j := a[pos];
    ScanIsDistinct(e, k);
    assert forall p :: 0 <= p < |a| && p != pos ==> a[p] != j;
  }

  lemma {:induction false} AgreeWhileFitting(e: seq<ShameEntry>, k: nat)
    requires k <= |e| && forall i :: 0 <= i < k ==> FitsAt(e, i)
    ensures Agree(e, Scan(e, k), Filled(e, k))
  {
    if k == 0 {
    } else {
      AgreeWhileFitting(e, k - 1);
      StepAgrees(e, k - 1);
    }
  }

  lemma {:induction false} FirstMisfit(e: seq<ShameEntry>, i: nat) returns (k: nat)
    requires i < |e| && !FitsAt(e, i)
    ensures k < |e| && !FitsAt(e, k) && forall j :: 0 <= j < k ==> FitsAt(e, j)
  {
    if j :| 0 <= j < i && !FitsAt(e, j) {
      k := FirstMisfit(e, j);
    } else {
      k := i;
    }
  }

  /** The scan ends with the twenty most distrusted. */
  ghost predicate HoldsChosen(e: seq<ShameEntry>) {
    Members(Scan(e, |e|)) == ChosenSet(e)
  }

  ghost predicate AllChosen(e: seq<ShameEntry>, list: seq<nat>)
    requires Positions(e, list)
  {
    forall p :: 0 <= p < |list| ==> Chosen(e, list[p])
  }

  lemma FilledIsAllChosen(e: seq<ShameEntry>)
    ensures AllChosen(e, Filled(e, |e|))
  {
    var b := Filled(e, |e|);
    FilledIsChosen(e);
    forall p | 0 <= p < |b| ensures Chosen(e, b[p]) {
      assert b[p] in Members(b);
    }
  }

  lemma AgreeingChosenEqual(e: seq<ShameEntry>, a: seq<nat>, b: seq<nat>)
    requires Positions(e, a) && Positions(e, b)
    ensures Agree(e, a, b) && AllChosen(e, b) ==> a == b
  {
  }

  lemma FittingIsFilled(e: seq<ShameEntry>)
    requires forall i :: 0 <= i < |e| ==> FitsAt(e, i)
    ensures Scan(e, |e|) == Filled(e, |e|) && HoldsChosen(e)
  {
    AgreeWhileFitting(e, |e|);
    FilledIsAllChosen(e);
    AgreeingChosenEqual(e, Scan(e, |e|), Filled(e, |e|));
    FilledIsChosen(e);
  }

  lemma MisfitLoses(e: seq<ShameEntry>, i: nat)
    requires i < |e| && !FitsAt(e, i)
    ensures !HoldsChosen(e)
  {
    var k := FirstMisfit(e, i);
    AgreeWhileFitting(e, k);
    var j := StepLoses(e, k);
    GoneStaysGone(e, j, k + 1, |e|);
    assert j in ChosenSet(e) && j !in Members(Scan(e, |e|));
  }

  lemma HoldsIffFitting(e: seq<ShameEntry>)
    ensures HoldsChosen(e) <==> forall i :: 0 <= i < |e| ==> FitsAt(e, i)
    ensures HoldsChosen(e) ==> Scan(e, |e|) == Filled(e, |e|)
  {
    if i :| 0 <= i < |e| && !FitsAt(e, i) {
      MisfitLoses(e, i);
    } else {
      FittingIsFilled(e);
    }
  }

  // ---------------------------------------------------------- the condition, at rest

  /** Each filled-in entry is no better than every entry to its left. */
  ghost predicate FillsFit(e: seq<ShameEntry>) {
    var g := Filled(e, |e|);
    forall q, p :: 0 <= q < p < |g| && g[p] >= SHAME_MAX ==> e[g[q]].trust <= e[g[p]].trust
  }

  lemma PrefixStep(e: seq<ShameEntry>, k: nat)
    requires SHAME_MAX <= k < |e|
    ensures FirstOut(e, Filled(e, k)) <= FirstOut(e, Filled(e, k + 1))
    ensures forall p :: 0 <= p < FirstOut(e, Filled(e, k)) ==> Filled(e, k + 1)[p] == Filled(e, k)[p]
  {
    var b, c := Filled(e, k), Filled(e, k + 1);
    var u := FirstOut(e, b);
    assert c == if Chosen(e, k) && u < |b| then b[u := k] else b;
    assert forall p :: 0 <= p < u ==> Chosen(e, c[p]);
  }

  /** What stands before the first unchosen entry never changes again. */
  lemma {:induction false} PrefixIsFinal(e: seq<ShameEntry>, k: nat, m: nat)
    requires SHAME_MAX <= k <= m <= |e|
    ensures FirstOut(e, Filled(e, k)) <= FirstOut(e, Filled(e, m))
    ensures forall p :: 0 <= p < FirstOut(e, Filled(e, k)) ==> Filled(e, m)[p] == Filled(e, k)[p]
  {
    if k == m {
    } else {
      PrefixIsFinal(e, k, m - 1);
      PrefixStep(e, m - 1);
    }
  }

  lemma FillStep(e: seq<ShameEntry>, k: nat)
    requires SHAME_MAX <= k < |e| && Chosen(e, k)
    ensures var u := FirstOut(e, Filled(e, k));
            && u < SHAME_MAX && u < FirstOut(e, Filled(e, k + 1))
            && Filled(e, k + 1) == Filled(e, k)[u := k]
  {
    ChosenFindsRoom(e, k);
    var u := FirstOut(e, Filled(e, k));
    var after := Filled(e, k + 1);
    assert forall p :: 0 <= p <= u ==> Chosen(e, after[p]);
  }

  /** A chosen newcomer ends where it was filled in, behind what stood there then. */
  lemma NewcomerIsFinal(e: seq<ShameEntry>, k: nat)
    requires SHAME_MAX <= k < |e| && Chosen(e, k)
    ensures var u, g := FirstOut(e, Filled(e, k)), Filled(e, |e|);
            u < SHAME_MAX && g[u] == k && forall p :: 0 <= p < u ==> g[p] == Filled(e, k)[p]
  {
    FillStep(e, k);
    PrefixIsFinal(e, k + 1, |e|);
    PrefixIsFinal(e, k, |e|);
  }

  lemma FittingIffFillsFit(e: seq<ShameEntry>)
    ensures (forall i :: 0 <= i < |e| ==> FitsAt(e, i)) <==> FillsFit(e)
  {
    var g := Filled(e, |e|);
    if forall i :: 0 <= i < |e| ==> FitsAt(e, i) {
      FilledIsChosen(e);
      FilledIsDistinct(e, |e|);
      forall q, p | 0 <= q < p < |g| && g[p] >= SHAME_MAX ensures e[g[q]].trust <= e[g[p]].trust {
        assert g[p] in Members(g);
        NewcomerIsFinal(e, g[p]);
        assert FitsAt(e, g[p]);
      }
    }
    if FillsFit(e) {
      forall i | 0 <= i < |e| ensures FitsAt(e, i) {
        if i >= SHAME_MAX && Chosen(e, i) {
          NewcomerIsFinal(e, i);
        }
      }
    }
  }

  /** The scan holds the twenty most distrusted exactly when each filled-in entry is no
      better than every entry to its left. */
  lemma HoldsChosenIff(e: seq<ShameEntry>)
    ensures HoldsChosen(e) <==> FillsFit(e)
    ensures HoldsChosen(e) ==> Scan(e, |e|) == Filled(e, |e|)
  {
    HoldsIffFitting(e);
    FittingIffFillsFit(e);
  }

  // ------------------------------------------------------------------- the table's list

  lemma {:induction false} ScanOfPrefix(e: seq<ShameEntry>, last: ShameEntry, k: nat)
    requires k <= |e|
    ensures Scan(e + [last], k) == Scan(e, k)
  {
    if k == 0 {
    } else {
      ScanOfPrefix(e, last, k - 1);
      assert Picked(e + [last], Scan(e, k - 1)) == Picked(e, Scan(e, k - 1));
    }
  }

  lemma OfferIsPlace(e: seq<ShameEntry>, list: seq<nat>, j: nat)
    requires Positions(e, list) && j < |e|
    ensures Positions(e, Place(e, list, j)) && Offered(Picked(e, list), e[j]) == Picked(e, Place(e, list, j))
  {
  }

  ghost function ScanResult(e: seq<ShameEntry>): seq<ShameEntry> {
    Picked(e, Scan(e, |e|))
  }

  lemma ScanOffers(before: seq<ShameEntry>, last: ShameEntry)
    ensures ScanResult(before + [last]) == Offered(ScanResult(before), last)
  {
    var e, list := before + [last], Scan(before, |before|);
    ScanOfPrefix(before, last, |before|);
    assert Picked(e, list) == Picked(before, list);
    OfferIsPlace(e, list, |before|);
  }

  lemma EmptyScan()
    ensures ScanResult([]) == []
  {
  }

  lemma KeptStep(t: Table, k: nat, before: seq<ShameEntry>)
    requires Sized(t) && k < SIZE && before == BadEntries(t, k) && Kept(t, k) == ScanResult(before)
    ensures Kept(t, k + 1) == ScanResult(BadEntries(t, k + 1))
  {
    if Bad(t, k) {
      ScanOffers(before, EntryAt(t, k));
    } else {
      assert BadEntries(t, k + 1) == before;
    }
  }

  /** The list of the table is the scan of its bad entries. */
  lemma {:induction false} KeptIsScan(t: Table, k: nat)
    requires Sized(t) && k <= SIZE
    ensures Kept(t, k) == ScanResult(BadEntries(t, k))
  {
    if k == 0 {
      EmptyScan();
    } else {
      KeptIsScan(t, k - 1);
      KeptStep(t, k - 1, BadEntries(t, k - 1));
    }
  }

  ghost predicate DistinctEntries(e: seq<ShameEntry>) {
    forall i, j :: 0 <= i < j < |e| ==> e[i] != e[j]
  }

  lemma {:induction false} BadEntriesAreDistinct(t: Table, k: nat)
    requires Sized(t) && Unique(t.pids) && k <= SIZE
    ensures DistinctEntries(BadEntries(t, k))
  {
    if k == 0 {
    } else {
      BadEntriesAreDistinct(t, k - 1);
      EntriesAscendIff(t, k - 1);
      if Bad(t, k - 1) {
        var before := BadEntries(t, k - 1);
        forall i | 0 <= i < |before| ensures before[i] != EntryAt(t, k - 1) {
          assert before[i] in before;
          ListedStep(t, k - 1, before[i]);
        }
      }
    }
  }

  /** The list is exactly the twenty most distrusted, ties broken by slot. */
  ghost predicate ListsTop(e: seq<ShameEntry>, list: seq<ShameEntry>) {
    forall j :: 0 <= j < |e| ==> (e[j] in list <==> Chosen(e, j))
  }

  lemma PickedMembers(e: seq<ShameEntry>, list: seq<nat>, j: nat)
    requires DistinctEntries(e) && Positions(e, list) && j < |e|
    ensures e[j] in Picked(e, list) <==> j in Members(list)
  {
    if e[j] in Picked(e, list) {
      var p :| 0 <= p < |list| && Picked(e, list)[p] == e[j];
      assert list[p] == j;
    }
    if j in Members(list) {
      var p :| 0 <= p < |list| && list[p] == j;
      assert Picked(e, list)[p] == e[j];
    }
  }

  lemma ListsTopMembers(e: seq<ShameEntry>, list: seq<nat>)
    requires DistinctEntries(e) && Positions(e, list)
    ensures ListsTop(e, Picked(e, list)) <==> Members(list) == ChosenSet(e)
  {
    forall j | 0 <= j < |e| ensures e[j] in Picked(e, list) <==> j in Members(list) {
      PickedMembers(e, list, j);
    }
    if ListsTop(e, Picked(e, list)) {
      forall j ensures j in Members(list) <==> j in ChosenSet(e) {
      }
    }
  }

  /** The bad entries of a table, in slot order, filled in. */
  ghost function Ideal(t: Table): seq<ShameEntry>
    requires Sized(t)
  {
    Picked(BadEntries(t, SIZE), Filled(BadEntries(t, SIZE), |BadEntries(t, SIZE)|))
  }

  /** The list is exactly the twenty most distrusted PIDs exactly when, in the first
      twenty bad slots with those outside the twenty replaced in order by the later ones
      among them, each filled-in score is at least every score to its left. */
  lemma ListsTopIff(t: Table)
    requires Sized(t) && Unique(t.pids)
    ensures ListsTop(BadEntries(t, SIZE), Kept(t, SIZE)) <==> FillsFit(BadEntries(t, SIZE))
    ensures ListsTop(BadEntries(t, SIZE), Kept(t, SIZE)) ==> Kept(t, SIZE) == Ideal(t)
  {
    KeptIsScan(t, SIZE);
    BadEntriesAreDistinct(t, SIZE);
    ListsTopMembers(BadEntries(t, SIZE), Scan(BadEntries(t, SIZE), |BadEntries(t, SIZE)|));
    HoldsChosenIff(BadEntries(t, SIZE));
  }

  lemma AscendingFits(e: seq<ShameEntry>)
    ensures WorstFirst(Picked(e, Filled(e, |e|))) ==> FillsFit(e)
  {
  }

  /** The list is what it is announced to be, the twenty most distrusted PIDs worst first,
      exactly when the filled-in entries ascend. */
  lemma AnnouncedIff(t: Table)
    requires Sized(t) && Unique(t.pids)
    ensures ListsTop(BadEntries(t, SIZE), Kept(t, SIZE)) && WorstFirst(Kept(t, SIZE)) <==> WorstFirst(Ideal(t))
  {
    ListsTopIff(t);
    AscendingFits(BadEntries(t, SIZE));
  }

  // -------------------------------------------------------------------- without ties

  /** The twentieth and the twenty-first differ in score. */
  ghost predicate NoTie(e: seq<ShameEntry>) {
    forall i, j :: 0 <= i < |e| && 0 <= j < |e| && Chosen(e, i) && !Chosen(e, j) ==> e[i].trust != e[j].trust
  }

  /** No entry left out is worse than a listed one. */
  ghost predicate LeavesOutBest(e: seq<ShameEntry>, list: seq<ShameEntry>) {
    forall j :: 0 <= j < |e| && e[j] !in list ==> NoBetter(list, e[j].trust)
  }

  lemma LeavesOutIsMostDistrusted(t: Table, list: seq<ShameEntry>)
    requires Sized(t)
    ensures MostDistrusted(t, list) <==> LeavesOutBest(BadEntries(t, SIZE), list)
  {
    var e := BadEntries(t, SIZE);
    EntriesAscendIff(t, SIZE);
    if MostDistrusted(t, list) {
      forall j | 0 <= j < |e| && e[j] !in list ensures NoBetter(list, e[j].trust) {
        assert e[j] in e;
        var s :| 0 <= s < SIZE && Bad(t, s) && e[j] == EntryAt(t, s);
      }
    }
    if LeavesOutBest(e, list) {
      forall s | 0 <= s < SIZE && Bad(t, s) && EntryAt(t, s) !in list ensures NoBetter(list, t.scores[s]) {
        BadEntriesListAll(t, SIZE, s);
        var j :| 0 <= j < |e| && e[j] == EntryAt(t, s);
      }
    }
  }

  lemma ChosenAreBetter(e: seq<ShameEntry>, list: seq<nat>, j: nat)
    requires Positions(e, list) && Members(list) == ChosenSet(e) && j < |e| && !Chosen(e, j)
    ensures NoBetter(Picked(e, list), e[j].trust)
  {
    forall f | f in Picked(e, list) ensures f.trust <= e[j].trust {
      var p :| 0 <= p < |list| && Picked(e, list)[p] == f;
      assert list[p] in Members(list);
      ChosenIsBefore(e, list[p], j);
    }
  }

  lemma TopLeavesOutBest(e: seq<ShameEntry>, list: seq<nat>)
    requires DistinctEntries(e) && Positions(e, list) && Members(list) == ChosenSet(e)
    ensures LeavesOutBest(e, Picked(e, list))
  {
    forall j | 0 <= j < |e| && e[j] !in Picked(e, list) ensures NoBetter(Picked(e, list), e[j].trust) {
      PickedMembers(e, list, j);
      ChosenAreBetter(e, list, j);
    }
  }

  lemma BestLeftOutIsTop(e: seq<ShameEntry>, list: seq<nat>)
    requires DistinctEntries(e) && NoTie(e) && Positions(e, list) && LeavesOutBest(e, Picked(e, list))
    requires |Members(list)| == |ChosenSet(e)|
    ensures Members(list) == ChosenSet(e)
  {
    if Members(list) != ChosenSet(e) {
      var j := MissingMember(ChosenSet(e), Members(list));
      var i := MissingMember(Members(list), ChosenSet(e));
      PickedMembers(e, list, j);
      PickedMembers(e, list, i);
      assert e[i].trust <= e[j].trust;
      ChosenIsBefore(e, j, i);
    }
  }

  lemma ScanSize(e: seq<ShameEntry>)
    ensures |Members(Scan(e, |e|))| == |ChosenSet(e)|
  {
    ChosenCount(e);
    ScanIsDistinct(e, |e|);
    MembersCount(Scan(e, |e|));
  }

  lemma MissingMember(a: set<int>, b: set<int>) returns (x: int)
    requires |a| == |b| && a != b
    ensures x in a && x !in b
  {
    if y :| y in a && y !in b {
      x := y;
    } else {
      assert forall y :: y in a ==> y in b;
      SameWhenAsLarge(a, b);
    }
  }

  /** No PID left out is worse than a listed one, in particular when the list is exactly
      the twenty most distrusted, and without a tie at the twentieth only then. */
  lemma MostDistrustedWithoutTies(t: Table)
    requires Sized(t) && Unique(t.pids)
    ensures FillsFit(BadEntries(t, SIZE)) ==> MostDistrusted(t, Kept(t, SIZE))
    ensures NoTie(BadEntries(t, SIZE)) ==> (MostDistrusted(t, Kept(t, SIZE)) <==> FillsFit(BadEntries(t, SIZE)))
  {
    var e := BadEntries(t, SIZE);
    KeptIsScan(t, SIZE);
    BadEntriesAreDistinct(t, SIZE);
    HoldsChosenIff(e);
    LeavesOutIsMostDistrusted(t, Kept(t, SIZE));
    if FillsFit(e) {
      TopLeavesOutBest(e, Scan(e, |e|));
    }
    if NoTie(e) && MostDistrusted(t, Kept(t, SIZE)) {
      ScanSize(e);
      BestLeftOutIsTop(e, Scan(e, |e|));
    }
  }

  /** The same for both promises together. */
  lemma AnnouncedWithoutTies(t: Table)
    requires Sized(t) && Unique(t.pids) && NoTie(BadEntries(t, SIZE))
    ensures MostDistrusted(t, Kept(t, SIZE)) && WorstFirst(Kept(t, SIZE)) <==> WorstFirst(Ideal(t))
  {
    MostDistrustedWithoutTies(t);
    ListsTopIff(t);
    AnnouncedIff(t);
  }

  // --------------------------------------------------------------- ascending by slot

  lemma {:induction false} AscendingRank(e: seq<ShameEntry>, j: nat, k: nat)
    requires WorstFirst(e) && j < |e| && k <= |e|
    ensures RankIn(e, j, k) == Min(j, k)
  {
    if k == 0 {
    } else {
      AscendingRank(e, j, k - 1);
    }
  }

  lemma {:induction false} AscendingFilled(e: seq<ShameEntry>, k: nat)
    requires WorstFirst(e) && k <= |e|
    ensures forall p :: 0 <= p < |Filled(e, k)| ==> Filled(e, k)[p] == p
  {
    if k == 0 {
    } else {
      AscendingFilled(e, k - 1);
      AscendingRank(e, k - 1, |e|);
    }
  }

  /** However many PIDs are distrusted: when their scores ascend by slot, the list is the
      twenty most distrusted, worst first. */
  lemma AscendingIsAnnounced(t: Table)
    requires Sized(t) && Unique(t.pids) && AscendBySlot(t, SIZE)
    ensures ListsTop(BadEntries(t, SIZE), Kept(t, SIZE)) && WorstFirst(Kept(t, SIZE))
    ensures MostDistrusted(t, Kept(t, SIZE))
  {
    var e := BadEntries(t, SIZE);
    EntriesAscendIff(t, SIZE);
    AscendingFilled(e, |e|);
    assert WorstFirst(Ideal(t));
    AnnouncedIff(t);
    AscendingFits(e);
    MostDistrustedWithoutTies(t);
  }
}
