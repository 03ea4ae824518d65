/** Dispatch queues, as the kernel helpers that main.bpf.c calls treat them: a
    virtual-time insertion keeps the queue sorted by key (first come first served
    among equal keys), a peek returns the head, and a move to a CPU's local queue
    takes the first waiter allowed there. */
module Dsq {
  datatype Waiter = Waiter(pid: int, vtime: nat, cpus: set<int>)

  /** Queues by identifier; an identifier without an entry names an empty queue. */
  type Queues = map<int, seq<Waiter>>

  function Queue(q: Queues, id: int): seq<Waiter> {
    if id in q then q[id] else []
  }

  function Depth(q: Queues, id: int): nat {
    |Queue(q, id)|
  }

  ghost predicate Sorted(ws: seq<Waiter>) {
    forall i, j :: 0 <= i < j < |ws| ==> ws[i].vtime <= ws[j].vtime
  }

  function InsertSorted(ws: seq<Waiter>, w: Waiter): seq<Waiter> {
    if ws == [] || w.vtime < ws[0].vtime then [w] + ws else [ws[0]] + InsertSorted(ws[1..], w)
  }

  /** Where the insertion puts the newcomer: after every key not greater than its own. */
  function Rank(ws: seq<Waiter>, key: nat): (r: nat)
    ensures r <= |ws|
  {
    if ws == [] || key < ws[0].vtime then 0 else 1 + Rank(ws[1..], key)
  }

  lemma {:induction false} InsertSplits(ws: seq<Waiter>, w: Waiter)
    ensures InsertSorted(ws, w) == ws[..Rank(ws, w.vtime)] + [w] + ws[Rank(ws, w.vtime)..]
    ensures forall i :: 0 <= i < Rank(ws, w.vtime) ==> ws[i].vtime <= w.vtime
    ensures Rank(ws, w.vtime) < |ws| ==> w.vtime < ws[Rank(ws, w.vtime)].vtime
  {
    if ws == [] || w.vtime < ws[0].vtime {
      assert [w] + ws == ws[..0] + [w] + ws[0..];
    } else {
      var rest, k := ws[1..], Rank(ws[1..], w.vtime);
      InsertSplits(rest, w);
      ConsSplit(ws, w, k);
      RankShift(ws, w.vtime, k);
    }
  }

  lemma ConsSplit(ws: seq<Waiter>, w: Waiter, k: nat)
    requires k < |ws|
    ensures [ws[0]] + (ws[1..][..k] + [w] + ws[1..][k..]) == ws[..k + 1] + [w] + ws[k + 1..]
  {
  }

  lemma RankShift(ws: seq<Waiter>, key: nat, k: nat)
    requires k < |ws| && ws[0].vtime <= key && forall i :: 0 <= i < k ==> ws[1..][i].vtime <= key
    ensures forall i :: 0 <= i < k + 1 ==> ws[i].vtime <= key
  {
    assert forall i :: 1 <= i < k + 1 ==> ws[i] == ws[1..][i - 1];
  }

  lemma {:induction false} InsertCounts(ws: seq<Waiter>, w: Waiter)
    ensures |InsertSorted(ws, w)| == |ws| + 1
    ensures multiset(InsertSorted(ws, w)) == multiset(ws) + multiset{w}
  {
    if !(ws == [] || w.vtime < ws[0].vtime) {
      InsertCounts(ws[1..], w);
      assert ws == [ws[0]] + ws[1..];
    }
  }

  /** A sorted queue stays sorted, keeps its waiters and gains one. */
  lemma InsertKeepsSorted(ws: seq<Waiter>, w: Waiter)
    requires Sorted(ws)
    ensures Sorted(InsertSorted(ws, w))
    ensures |InsertSorted(ws, w)| == |ws| + 1
    ensures multiset(InsertSorted(ws, w)) == multiset(ws) + multiset{w}
  {
    InsertSplits(ws, w);
    SortedAround(ws, Rank(ws, w.vtime), w);
    InsertCounts(ws, w);
  }

  lemma SortedAround(ws: seq<Waiter>, k: nat, w: Waiter)
    requires Sorted(ws) && k <= |ws|
    requires forall i :: 0 <= i < k ==> ws[i].vtime <= w.vtime
    requires k < |ws| ==> w.vtime < ws[k].vtime
    ensures Sorted(ws[..k] + [w] + ws[k..])
  {
    var r := ws[..k] + [w] + ws[k..];
    forall i, j | 0 <= i < j < |r| ensures r[i].vtime <= r[j].vtime {
      assert r[i] == if i < k then ws[i] else if i == k then w else ws[i - 1];
      assert r[j] == if j < k then ws[j] else if j == k then w else ws[j - 1];
    }
  }

  /** The first position whose waiter may run on `cpu`, or -1. */
  function FirstAllowed(ws: seq<Waiter>, cpu: int): int {
    if ws == [] then -1
    else if cpu in ws[0].cpus then 0
    else
      var r := FirstAllowed(ws[1..], cpu);
      if r == -1 then -1 else r + 1
  }

  lemma {:induction false} FirstAllowedIsFirst(ws: seq<Waiter>, cpu: int)
    ensures var r := FirstAllowed(ws, cpu);
            if r == -1 then forall i :: 0 <= i < |ws| ==> cpu !in ws[i].cpus
            else 0 <= r < |ws| && cpu in ws[r].cpus && forall i :: 0 <= i < r ==> cpu !in ws[i].cpus
  {
    if ws != [] && cpu !in ws[0].cpus {
      FirstAllowedIsFirst(ws[1..], cpu);
      assert forall i :: 1 <= i < |ws| ==> ws[i] == ws[1..][i - 1];
    }
  }

  predicate CanMove(q: Queues, id: int, cpu: int) {
    FirstAllowed(Queue(q, id), cpu) != -1
  }

  function Without(ws: seq<Waiter>, i: nat): seq<Waiter>
    requires i < |ws|
  {
    ws[..i] + ws[i + 1..]
  }

  lemma WithoutCounts(ws: seq<Waiter>, i: nat)
    requires i < |ws|
    ensures |Without(ws, i)| == |ws| - 1
    ensures multiset(Without(ws, i)) + multiset{ws[i]} == multiset(ws)
  {
    assert ws == ws[..i] + [ws[i]] + ws[i + 1..];
  }

  lemma WithoutKeepsSorted(ws: seq<Waiter>, i: nat)
    requires Sorted(ws) && i < |ws|
    ensures Sorted(Without(ws, i))
  {
    var r := Without(ws, i);
    forall a, b | 0 <= a < b < |r| ensures r[a].vtime <= r[b].vtime {
      assert r[a] == ws[if a < i then a else a + 1] && r[b] == ws[if b < i then b else b + 1];
    }
  }

  // ------------------------------------------------------------------ head choice

  /** `is_deadline_min` on two queue heads: an empty candidate never wins, an empty
      or absent (-1) incumbent always loses. */
  predicate HeadEarlier(q: Queues, a: int, b: int) {
    Queue(q, a) != [] && (b == -1 || Queue(q, b) == [] || Queue(q, a)[0].vtime < Queue(q, b)[0].vtime)
  }

  /** `is_remote_head_better` between two non-empty queues: earlier head first, then
      greater depth. */
  predicate RemoteBetter(q: Queues, a: int, b: int)
    requires Queue(q, a) != [] && Queue(q, b) != []
  {
    if Queue(q, a)[0].vtime != Queue(q, b)[0].vtime then Queue(q, a)[0].vtime < Queue(q, b)[0].vtime
    else Depth(q, a) > Depth(q, b)
  }

  /** The winner between the best so far, or -1, and one more candidate. */
  function Better(q: Queues, best: int, id: int): (r: int)
    requires best == -1 || Queue(q, best) != []
    ensures r == -1 || Queue(q, r) != []
  {
    if Queue(q, id) != [] && (best == -1 || RemoteBetter(q, id, best)) then id else best
  }

  /** The winner of a scan over `ids` in order, or -1 when all are empty. */
  function Scan(q: Queues, ids: seq<int>): (r: int)
    ensures r == -1 || Queue(q, r) != []
  {
    if ids == [] then -1
    else
      var best, c := Scan(q, ids[..|ids| - 1]), ids[|ids| - 1];
      if Queue(q, c) == [] then best
      else if best == -1 || RemoteBetter(q, c, best) then c
      else best
  }

  /** `r` is the first best of `ids`: listed, non-empty, beaten by none and strictly
      better than every non-empty queue scanned before it. */
  ghost predicate FirstBest(q: Queues, ids: seq<int>, r: int) {
    && Queue(q, r) != []
    && (forall i :: 0 <= i < |ids| && Queue(q, ids[i]) != [] ==> !RemoteBetter(q, ids[i], r))
    && exists k :: 0 <= k < |ids| && ids[k] == r
                   && forall i :: 0 <= i < k && Queue(q, ids[i]) != [] ==> RemoteBetter(q, r, ids[i])
  }

  /** What one more candidate does to an election. */
  lemma ScanAppend(q: Queues, before: seq<int>, id: int)
    ensures Scan(q, before + [id])
            == if Queue(q, id) == [] then Scan(q, before)
               else if Scan(q, before) == -1 || RemoteBetter(q, id, Scan(q, before)) then id
               else Scan(q, before)
  {
    assert (before + [id])[..|before|] == before;
  }

  lemma BestStays(q: Queues, before: seq<int>, id: int, best: int)
    requires FirstBest(q, before, best) && (Queue(q, id) != [] ==> !RemoteBetter(q, id, best))
    ensures FirstBest(q, before + [id], best)
  {
    var ids := before + [id];
    var k :| 0 <= k < |before| && before[k] == best
             && forall i :: 0 <= i < k && Queue(q, before[i]) != [] ==> RemoteBetter(q, best, before[i]);
    assert ids[k] == best && forall i :: 0 <= i < k ==> ids[i] == before[i];
  }

  lemma BestIsReplaced(q: Queues, before: seq<int>, id: int, best: int)
    requires FirstBest(q, before, best) && Queue(q, id) != [] && RemoteBetter(q, id, best)
    ensures FirstBest(q, before + [id], id)
  {
    var ids := before + [id];
    forall i | 0 <= i < |before| && Queue(q, before[i]) != [] ensures RemoteBetter(q, id, before[i]) {
      assert !RemoteBetter(q, before[i], best);
    }
    assert ids[|before|] == id && forall i :: 0 <= i < |before| ==> ids[i] == before[i];
  }

  lemma FirstIsBest(q: Queues, before: seq<int>, id: int)
    requires (forall i :: 0 <= i < |before| ==> Queue(q, before[i]) == []) && Queue(q, id) != []
    ensures FirstBest(q, before + [id], id)
  {
    var ids := before + [id];
    assert ids[|before|] == id && forall i :: 0 <= i < |before| ==> ids[i] == before[i];
  }

  /** A scan picks the lexicographic best of (earliest head, deepest queue), ties
      going to the queue visited first. */
  lemma {:induction false} ScanPicksBest(q: Queues, ids: seq<int>)
    requires forall x :: x in ids ==> x >= 0
    ensures Scan(q, ids) == -1 <==> forall i :: 0 <= i < |ids| ==> Queue(q, ids[i]) == []
    ensures Scan(q, ids) != -1 ==> FirstBest(q, ids, Scan(q, ids))
  {
    if ids == [] {
    } else {
      var before, c := ids[..|ids| - 1], ids[|ids| - 1];
      assert ids == before + [c] && c in ids && forall x :: x in before ==> x in ids;
      ScanPicksBest(q, before);
      ScanAppend(q, before, c);
      var best := Scan(q, before);
      if best == -1 {
        if Queue(q, c) != [] {
          FirstIsBest(q, before, c);
        }
      } else if Queue(q, c) != [] && RemoteBetter(q, c, best) {
        BestIsReplaced(q, before, c, best);
      } else {
        BestStays(q, before, c, best);
      }
    }
  }

  lemma {:induction false} ScanListed(q: Queues, ids: seq<int>)
    ensures Scan(q, ids) == -1 || Scan(q, ids) in ids
  {
    if ids == [] {
    } else {
      ScanListed(q, ids[..|ids| - 1]);
    }
  }

  /** A scan over a list that names a non-empty queue elects one of the listed queues. */
  lemma ScanFinds(q: Queues, ids: seq<int>, id: int)
    requires forall x :: x in ids ==> x >= 0
    requires id in ids && Queue(q, id) != []
    ensures Scan(q, ids) != -1 && Scan(q, ids) in ids && Queue(q, Scan(q, ids)) != []
  {
    ScanPicksBest(q, ids);
  }
}
