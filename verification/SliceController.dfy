/** The load-driven slice ceiling and the pipeline-latency ring (src/ai/policy.rs).
    Floating point is exact: `f64` is `real` and the cast to `u64` is the floor. */
module SliceControl {
  import opened Numbers

  const TARGETED_LATENCY_NS: nat := 6_000_000
  const AUTO_SLICE_MIN_NS: nat := 250_000
  const AUTO_SLICE_MAX_NS: nat := 8_000_000
  const LAT_RING_CAP: nat := 2048

  datatype Controller = Controller(current: nat, base: nat, autoBase: nat)

  function TasksPerCpu(nrRunnable: nat, nrCpus: nat): (r: real)
    requires nrCpus > 0
    ensures r >= 1.0
  {
    var t := nrRunnable as real / nrCpus as real;
    if t >= 1.0 then t else 1.0
  }

  function Computed(nrRunnable: nat, nrCpus: nat): nat
    requires nrCpus > 0
  {
    (TARGETED_LATENCY_NS as real / TasksPerCpu(nrRunnable, nrCpus)).Floor
  }

  function Initial(base: nat): (r: Controller)
    ensures r.base == base && 250_000 <= r.current <= 8_000_000
    ensures 250_000 <= base <= 8_000_000 ==> r.current == base
    ensures base == 0 ==> r.current == 6_000_000
  {
    var auto := Clamp(if base > 0 then base else TARGETED_LATENCY_NS, AUTO_SLICE_MIN_NS, AUTO_SLICE_MAX_NS);
    Controller(auto, base, auto)
  }

  function EffectiveBase(c: Controller): nat {
    if c.base > 0 then Min(c.autoBase, c.base) else c.autoBase
  }

  function Updated(c: Controller, nrRunnable: nat, nrCpus: nat): Controller {
    if nrCpus == 0 then c
    else
      var c' := c.(autoBase := Clamp(Computed(nrRunnable, nrCpus), AUTO_SLICE_MIN_NS, AUTO_SLICE_MAX_NS));
      c'.(current := Clamp(EffectiveBase(c'), AUTO_SLICE_MIN_NS, AUTO_SLICE_MAX_NS))
  }

  /** The slice one update recommends. */
  function Slice(c: Controller, nrRunnable: nat, nrCpus: nat): nat {
    Updated(c, nrRunnable, nrCpus).current
  }

  // ------------------------------------------------------------- what the slice is

  /** One round of the runnable tasks, spread over the CPUs, fits the targeted latency. */
  predicate RoundFits(slice: nat, nrRunnable: nat, nrCpus: nat) {
    slice * nrRunnable <= TARGETED_LATENCY_NS * nrCpus
  }

  lemma RealProduct(a: real, b: real, d: real)
    requires a <= b && d > 0.0
    ensures a * d <= b * d && (a < b ==> a * d < b * d)
  {
  }

  lemma FloorIsExact(n: nat, d: nat)
    requires d > 0
    ensures (n as real / d as real).Floor == n / d
  {
    var q := n as real / d as real;
    FloorBounds(q, n, d);
    QuotientIs(n, d, q.Floor);
  }

  lemma FloorBounds(q: real, n: nat, d: nat)
    requires d > 0 && q * d as real == n as real
    ensures q.Floor * d <= n < q.Floor * d + d
  {
    var f := q.Floor;
    RealProduct(f as real, q, d as real);
    RealProduct(q, f as real + 1.0, d as real);
    ProductAsReal(f, d);
    ProductAsReal(f + 1, d);
    assert (f + 1) as real == f as real + 1.0;
    assert (f + 1) * d == f * d + d;
    assert q < (f + 1) as real;
    assert n as real < ((f + 1) * d) as real;
  }

  lemma ProductAsReal(f: int, d: int)
    ensures f as real * d as real == (f * d) as real
  {
  }

  lemma QuotientIs(n: nat, d: nat, f: int)
    requires d > 0 && f * d <= n < f * d + d
    ensures n / d == f
  {
    var q := n / d;
    assert d * q <= n < d * q + d;
    if q < f {
      MulMonotone(q + 1, f, d);
    } else if q > f {
      MulMonotone(f + 1, q, d);
    }
  }

  /** The float quotient is the integer one. */
  lemma ComputedIsQuotient(nrRunnable: nat, nrCpus: nat)
    requires nrCpus > 0
    ensures nrRunnable <= nrCpus ==> Computed(nrRunnable, nrCpus) == TARGETED_LATENCY_NS
    ensures nrRunnable > nrCpus ==> Computed(nrRunnable, nrCpus) == TARGETED_LATENCY_NS * nrCpus / nrRunnable
  {
    var t := nrRunnable as real / nrCpus as real;
    assert t * nrCpus as real == nrRunnable as real;
    if nrRunnable <= nrCpus {
      assert t <= 1.0;
      assert TasksPerCpu(nrRunnable, nrCpus) == 1.0;
    } else {
      assert t > 1.0;
      var q := TARGETED_LATENCY_NS as real / t;
      assert q * t == TARGETED_LATENCY_NS as real;
      assert q * nrRunnable as real == (TARGETED_LATENCY_NS * nrCpus) as real by {
        assert q * (t * nrCpus as real) == (q * t) * nrCpus as real;
      }
      assert q == (TARGETED_LATENCY_NS * nrCpus) as real / nrRunnable as real;
      FloorIsExact(TARGETED_LATENCY_NS * nrCpus, nrRunnable);
    }
  }

  /** `computed` is the largest slice within the targeted latency whose round fits. */
  lemma ComputedIsLargest(nrRunnable: nat, nrCpus: nat, s: nat)
    requires nrCpus > 0
    ensures s <= Computed(nrRunnable, nrCpus) <==> s <= TARGETED_LATENCY_NS && RoundFits(s, nrRunnable, nrCpus)
  {
    ComputedIsQuotient(nrRunnable, nrCpus);
    var n := TARGETED_LATENCY_NS * nrCpus;
    if nrRunnable <= nrCpus {
      if s <= TARGETED_LATENCY_NS {
        ProductMonotone(s, nrRunnable, TARGETED_LATENCY_NS, nrCpus);
      }
    } else {
      assert n == nrRunnable * (n / nrRunnable) + n % nrRunnable;
      ProductMonotone(TARGETED_LATENCY_NS, nrCpus, TARGETED_LATENCY_NS, nrRunnable);
      if s <= n / nrRunnable {
        ProductMonotone(s, nrRunnable, n / nrRunnable, nrRunnable);
        QuotientWithinTarget(nrCpus, nrRunnable);
      } else {
        ProductMonotone(n / nrRunnable + 1, nrRunnable, s, nrRunnable);
      }
    }
  }

  lemma QuotientWithinTarget(nrCpus: nat, nrRunnable: nat)
    requires nrCpus < nrRunnable
    ensures TARGETED_LATENCY_NS * nrCpus / nrRunnable <= TARGETED_LATENCY_NS
  {
    var q := TARGETED_LATENCY_NS * nrCpus / nrRunnable;
    assert nrRunnable * q <= TARGETED_LATENCY_NS * nrCpus;
    if q > TARGETED_LATENCY_NS {
      ProductMonotone(TARGETED_LATENCY_NS + 1, nrRunnable, q, nrRunnable);
    }
  }

  /** A slice above the floor is allowed exactly when its round fits, the targeted
      latency covers it and the configured ceiling, if any, admits it. */
  lemma SliceIsLargestFitting(c: Controller, nrRunnable: nat, nrCpus: nat, s: nat)
    requires nrCpus > 0 && s > AUTO_SLICE_MIN_NS
    ensures s <= Slice(c, nrRunnable, nrCpus) <==>
              s <= TARGETED_LATENCY_NS && RoundFits(s, nrRunnable, nrCpus) && (c.base > 0 ==> s <= c.base)
  {
    ComputedIsLargest(nrRunnable, nrCpus, s);
    ComputedIsLargest(nrRunnable, nrCpus, Computed(nrRunnable, nrCpus));
  }

  /** Every update lands between the floor and the targeted latency: the 8 ms
      maximum is never reached. */
  lemma SliceBounds(c: Controller, nrRunnable: nat, nrCpus: nat)
    requires nrCpus > 0
    ensures AUTO_SLICE_MIN_NS <= Slice(c, nrRunnable, nrCpus) <= TARGETED_LATENCY_NS
    ensures c.base > 0 ==> Slice(c, nrRunnable, nrCpus) <= Max(c.base, AUTO_SLICE_MIN_NS)
    ensures Slice(c, nrRunnable, nrCpus) > AUTO_SLICE_MIN_NS ==>
              RoundFits(Slice(c, nrRunnable, nrCpus), nrRunnable, nrCpus)
  {
    var s := Slice(c, nrRunnable, nrCpus);
    if s > AUTO_SLICE_MIN_NS {
      SliceIsLargestFitting(c, nrRunnable, nrCpus, s);
    }
  }

  /** The configured ceiling is respected at every load exactly when it is at least
      the 250 us floor. */
  lemma CeilingRespectedIff(c: Controller, nrRunnable: nat, nrCpus: nat)
    requires nrCpus > 0 && c.base > 0
    ensures Slice(c, nrRunnable, nrCpus) <= c.base <==> c.base >= AUTO_SLICE_MIN_NS
  {
    SliceBounds(c, nrRunnable, nrCpus);
  }

  /** More runnable tasks or fewer CPUs never lengthen the slice. */
  lemma SliceIsMonotone(c: Controller, nrRunnable: nat, nrCpus: nat, more: nat, fewer: nat)
    requires 0 < fewer <= nrCpus && nrRunnable <= more
    ensures Slice(c, more, fewer) <= Slice(c, nrRunnable, nrCpus)
  {
    var s := Slice(c, more, fewer);
    SliceBounds(c, more, fewer);
    SliceBounds(c, nrRunnable, nrCpus);
    if s > AUTO_SLICE_MIN_NS {
      SliceIsLargestFitting(c, more, fewer, s);
      ProductMonotone(s, nrRunnable, s, more);
      ProductMonotone(TARGETED_LATENCY_NS, fewer, TARGETED_LATENCY_NS, nrCpus);
      SliceIsLargestFitting(c, nrRunnable, nrCpus, s);
    }
  }

  datatype Load = Load(nrRunnable: nat, nrCpus: nat)

  function AfterAll(c: Controller, loads: seq<Load>): Controller {
    if loads == [] then c
    else
      var prior := AfterAll(c, loads[..|loads| - 1]);
      Updated(prior, loads[|loads| - 1].nrRunnable, loads[|loads| - 1].nrCpus)
  }

  /** Whatever loads it saw, the controller stays in bounds, keeps its ceiling and
      forgets everything but the last load: no state builds up between updates. */
  lemma {:induction false} ControllerIsMemoryless(base: nat, loads: seq<Load>)
    ensures AfterAll(Initial(base), loads).base == base
    ensures AUTO_SLICE_MIN_NS <= AfterAll(Initial(base), loads).current <= AUTO_SLICE_MAX_NS
    ensures loads != [] && loads[|loads| - 1].nrCpus > 0 ==>
              AfterAll(Initial(base), loads)
              == Updated(Initial(base), loads[|loads| - 1].nrRunnable, loads[|loads| - 1].nrCpus)
  {
    if loads == [] {
    } else {
      ControllerIsMemoryless(base, loads[..|loads| - 1]);
    }
  }

  // ------------------------------------------------------------------ latency ring

  datatype Ring = Ring(slots: seq<nat>, idx: nat)

  function EmptyRing(): Ring { Ring(Zeros(LAT_RING_CAP), 0) }

  function Record(r: Ring, ns: nat): Ring
    requires |r.slots| == LAT_RING_CAP
  {
    Ring(r.slots[r.idx % LAT_RING_CAP := ns], (r.idx + 1) % TWO64)
  }

  function Recorded(h: seq<nat>): (r: Ring)
    ensures |r.slots| == LAT_RING_CAP
  {
    if h == [] then EmptyRing() else Record(Recorded(h[..|h| - 1]), h[|h| - 1])
  }

  /** The samples the ring can still remember. */
  function Window(h: seq<nat>): seq<nat> {
    if |h| <= LAT_RING_CAP then h else h[|h| - LAT_RING_CAP..]
  }

  function NonZero(s: seq<nat>): seq<nat> {
    if s == [] then [] else NonZero(s[..|s| - 1]) + if s[|s| - 1] > 0 then [s[|s| - 1]] else []
  }

  function CountBelow(s: seq<nat>, v: nat): nat {
    if s == [] then 0 else (if s[0] < v then 1 else 0) + CountBelow(s[1..], v)
  }

  /** `p` has rank `k` in `s`: at most `k` samples lie below it, more than `k` at or below. */
  predicate HasRank(s: seq<nat>, p: nat, k: nat) { CountBelow(s, p) <= k < CountBelow(s, p + 1) }

  lemma {:induction false} CountGrows(s: seq<nat>, v: nat, w: nat)
    requires v <= w
    ensures CountBelow(s, v) <= CountBelow(s, w)
  {
    if s == [] {
    } else {
      CountGrows(s[1..], v, w);
    }
  }

  /** A rank names one value. */
  lemma RankIsUnique(s: seq<nat>, p: nat, q: nat, k: nat)
    requires HasRank(s, p, k) && HasRank(s, q, k)
    ensures p == q
  {
    if p < q {
      CountGrows(s, p + 1, q);
    } else if q < p {
      CountGrows(s, q + 1, p);
    }
  }

  lemma {:induction false} CountConcat(a: seq<nat>, b: seq<nat>, v: nat)
    ensures CountBelow(a + b, v) == CountBelow(a, v) + CountBelow(b, v)
  {
    if a == [] {
      assert a + b == b;
    } else {
      assert (a + b)[1..] == a[1..] + b;
      CountConcat(a[1..], b, v);
    }
  }

  lemma {:induction false} NonZeroConcat(a: seq<nat>, b: seq<nat>)
    ensures NonZero(a + b) == NonZero(a) + NonZero(b)
  {
    if b == [] {
      assert a + b == a;
    } else {
      assert (a + b)[..|a + b| - 1] == a + b[..|b| - 1];
      NonZeroConcat(a, b[..|b| - 1]);
    }
  }

  lemma {:induction false} NonZeroOfZeros(s: seq<nat>)
    requires forall i :: 0 <= i < |s| ==> s[i] == 0
    ensures NonZero(s) == []
  {
    if s == [] {
    } else {
      NonZeroOfZeros(s[..|s| - 1]);
    }
  }

  /** Slot `j % 2048` holds sample `j` for every sample still in the window; slots
      never written are zero. */
  ghost predicate Remembers(slots: seq<nat>, h: seq<nat>) {
    && |slots| == LAT_RING_CAP
    && (forall j :: 0 <= j < |h| && |h| - LAT_RING_CAP <= j ==> slots[j % LAT_RING_CAP] == h[j])
    && (forall i :: |h| <= i < LAT_RING_CAP ==> slots[i] == 0)
  }

  lemma RememberStep(slots: seq<nat>, h: seq<nat>, ns: nat)
    requires Remembers(slots, h)
    ensures Remembers(slots[|h| % LAT_RING_CAP := ns], h + [ns])
  {
    var h', n, i := h + [ns], |h|, |h| % LAT_RING_CAP;
    var slots' := slots[i := ns];
    forall j | 0 <= j < |h'| && |h'| - LAT_RING_CAP <= j
      ensures slots'[j % LAT_RING_CAP] == h'[j]
    {
      if j < n {
        SlotsDiffer(j, n);
        assert slots[j % LAT_RING_CAP] == h[j];
      }
    }
  }

  ghost predicate RingOf(r: Ring, h: seq<nat>) { r.idx == |h| % TWO64 && Remembers(r.slots, h) }

  /** The counter's wrap-around does not disturb the slot order. */
  lemma WrapKeepsSlot(n: nat)
    ensures (n % TWO64) % LAT_RING_CAP == n % LAT_RING_CAP
    ensures (n % TWO64 + 1) % TWO64 == (n + 1) % TWO64
  {
    var q, m := n / TWO64, n % TWO64;
    var a := m / LAT_RING_CAP;
    assert n == LAT_RING_CAP * (0x20_0000_0000_0000 * q + a) + m % LAT_RING_CAP;
  }

  lemma RecordKeeps(r: Ring, h: seq<nat>, ns: nat)
    requires RingOf(r, h)
    ensures RingOf(Record(r, ns), h + [ns])
  {
    WrapKeepsSlot(|h|);
    RememberStep(r.slots, h, ns);
  }

  lemma {:induction false} RingRemembers(h: seq<nat>)
    ensures RingOf(Recorded(h), h)
  {
    if h == [] {
      assert RingOf(EmptyRing(), h);
    } else {
      var prior, last := h[..|h| - 1], h[|h| - 1];
      RingRemembers(prior);
      RecordKeeps(Recorded(prior), prior, last);
      assert prior + [last] == h;
    }
  }

  lemma SlotsDiffer(j: nat, n: nat)
    requires j < n < j + LAT_RING_CAP
    ensures j % LAT_RING_CAP != n % LAT_RING_CAP
  {
    var a, b := j / LAT_RING_CAP, n / LAT_RING_CAP;
    assert j == LAT_RING_CAP * a + j % LAT_RING_CAP && n == LAT_RING_CAP * b + n % LAT_RING_CAP;
  }

  /** The latest sample whose number is `i` modulo 2048. */
  function LatestAt(n: nat, i: nat): (j: nat)
    requires LAT_RING_CAP < n && i < LAT_RING_CAP
    ensures n - LAT_RING_CAP <= j < n && j % LAT_RING_CAP == i
  {
    var r := n % LAT_RING_CAP;
    assert n - r == LAT_RING_CAP * (n / LAT_RING_CAP);
    if i < r then n - r + i else n - r - LAT_RING_CAP + i
  }

  lemma Joined(s: seq<nat>, a: seq<nat>, b: seq<nat>, r: nat)
    requires |s| == |a| + |b| && |a| == r
    requires forall i :: 0 <= i < |s| ==> s[i] == if i < r then a[i] else b[i - r]
    ensures s == a + b
  {
  }

  lemma SlotRotated(slots: seq<nat>, h: seq<nat>, r: nat, i: nat)
    requires Remembers(slots, h) && LAT_RING_CAP < |h| && r == |h| % LAT_RING_CAP && i < LAT_RING_CAP
    ensures slots[i] == if i < r then h[|h| - r..][i] else h[|h| - LAT_RING_CAP..|h| - r][i - r]
  {
    assert slots[LatestAt(|h|, i) % LAT_RING_CAP] == h[LatestAt(|h|, i)];
  }

  /** The ring is the window, rotated. */
  lemma RingIsRotation(slots: seq<nat>, h: seq<nat>, r: nat)
    requires Remembers(slots, h) && LAT_RING_CAP < |h| && r == |h| % LAT_RING_CAP
    ensures slots == h[|h| - r..] + h[|h| - LAT_RING_CAP..|h| - r]
  {
    var newer, older := h[|h| - r..], h[|h| - LAT_RING_CAP..|h| - r];
    forall i | 0 <= i < LAT_RING_CAP
      ensures slots[i] == if i < r then newer[i] else older[i - r]
    {
      SlotRotated(slots, h, r, i);
    }
    Joined(slots, newer, older, r);
  }

  lemma ShortRing(slots: seq<nat>, h: seq<nat>)
    requires Remembers(slots, h) && |h| <= LAT_RING_CAP
    ensures NonZero(slots) == NonZero(h)
  {
    forall i | 0 <= i < |h|
      ensures slots[i] == h[i]
    {
      assert slots[i % LAT_RING_CAP] == h[i];
    }
    Joined(slots, h, slots[|h|..], |h|);
    NonZeroConcat(h, slots[|h|..]);
    NonZeroOfZeros(slots[|h|..]);
  }

  function Zeros(n: nat): (s: seq<nat>)
    ensures |s| == n && forall i :: 0 <= i < n ==> s[i] == 0
  {
    seq(n, _ => 0)
  }

  lemma SwapParts(a: seq<nat>, b: seq<nat>, v: nat)
    ensures |NonZero(a + b)| == |NonZero(b + a)|
    ensures CountBelow(NonZero(a + b), v) == CountBelow(NonZero(b + a), v)
  {
    NonZeroConcat(a, b);
    NonZeroConcat(b, a);
    CountConcat(NonZero(a), NonZero(b), v);
    CountConcat(NonZero(b), NonZero(a), v);
  }

  /** The samples a percentile query reads are exactly the non-zero ones among the
      last 2048 recorded, in number and in every rank. */
  lemma RingSeesWindow(h: seq<nat>, v: nat)
    ensures |NonZero(Recorded(h).slots)| == |NonZero(Window(h))|
    ensures CountBelow(NonZero(Recorded(h).slots), v) == CountBelow(NonZero(Window(h)), v)
  {
    RingRemembers(h);
    var slots := Recorded(h).slots;
    if |h| <= LAT_RING_CAP {
      ShortRing(slots, h);
    } else {
      RotatedRing(slots, h, v);
    }
  }

  lemma RotatedRing(slots: seq<nat>, h: seq<nat>, v: nat)
    requires Remembers(slots, h) && LAT_RING_CAP < |h|
    ensures |NonZero(slots)| == |NonZero(Window(h))|
    ensures CountBelow(NonZero(slots), v) == CountBelow(NonZero(Window(h)), v)
  {
    var r := |h| % LAT_RING_CAP;
    RingIsRotation(slots, h, r);
    var newer, older := h[|h| - r..], h[|h| - LAT_RING_CAP..|h| - r];
    assert Window(h) == older + newer;
    SwapParts(newer, older, v);
  }

  lemma SameRanks(h: seq<nat>, p: nat, k: nat)
    ensures HasRank(NonZero(Recorded(h).slots), p, k) <==> HasRank(NonZero(Window(h)), p, k)
  {
    RingSeesWindow(h, p);
    RingSeesWindow(h, p + 1);
  }

  // ----------------------------------------------------------------------- sorting

  function PutInOrder(s: seq<nat>, x: nat): seq<nat> {
    if s == [] || x <= s[0] then [x] + s else [s[0]] + PutInOrder(s[1..], x)
  }

  /** The library's sort, by insertion. */
  function Sorted(s: seq<nat>): seq<nat> {
    if s == [] then [] else PutInOrder(Sorted(s[1..]), s[0])
  }

  ghost predicate Ordered(s: seq<nat>) { forall i, j :: 0 <= i < j < |s| ==> s[i] <= s[j] }

  lemma {:induction false} InsertKeeps(s: seq<nat>, x: nat, v: nat)
    requires Ordered(s)
    ensures var t := PutInOrder(s, x);
            && Ordered(t) && |t| == |s| + 1 && (t[0] == x || (s != [] && t[0] == s[0]))
            && CountBelow(t, v) == CountBelow(s, v) + if x < v then 1 else 0
  {
    if !(s == [] || x <= s[0]) {
      InsertKeeps(s[1..], x, v);
    }
  }

  lemma {:induction false} SortKeeps(s: seq<nat>, v: nat)
    ensures Ordered(Sorted(s)) && |Sorted(s)| == |s| && CountBelow(Sorted(s), v) == CountBelow(s, v)
  {
    if s == [] {
    } else {
      SortKeeps(s[1..], v);
      InsertKeeps(Sorted(s[1..]), s[0], v);
    }
  }

  lemma {:induction false} NoneBelowFirst(s: seq<nat>, v: nat)
    requires forall i :: 0 <= i < |s| ==> v <= s[i]
    ensures CountBelow(s, v) == 0
  {
    if s == [] {
    } else {
      NoneBelowFirst(s[1..], v);
    }
  }

  lemma {:induction false} OrderedRank(s: seq<nat>, k: nat)
    requires Ordered(s) && k < |s|
    ensures HasRank(s, s[k], k)
  {
    if k == 0 {
      NoneBelowFirst(s, s[0]);
    } else {
      OrderedRank(s[1..], k - 1);
    }
  }

  /** The entry at index `k` of the sorted samples has rank `k` in the samples. */
  lemma SortedRank(s: seq<nat>, k: nat)
    requires k < |s|
    ensures |Sorted(s)| == |s| && HasRank(s, Sorted(s)[k], k)
  {
    SortKeeps(s, 0);
    var p := Sorted(s)[k];
    SortKeeps(s, p);
    SortKeeps(s, p + 1);
    OrderedRank(Sorted(s), k);
  }

  /** The three reported percentiles of a set of samples. */
  ghost predicate Percentiles(samples: seq<nat>, p50: nat, p95: nat, p99: nat) {
    if samples == [] then p50 == p95 == p99 == 0
    else
      && HasRank(samples, p50, |samples| / 2)
      && HasRank(samples, p95, |samples| * 95 / 100)
      && HasRank(samples, p99, |samples| * 99 / 100)
  }

  /** After any history of samples, a percentile query describes the non-zero samples
      among the last 2048 and gives one answer, ordered p50 <= p95 <= p99. */
  lemma PercentilesOfWindow(h: seq<nat>, p50: nat, p95: nat, p99: nat)
    ensures Percentiles(NonZero(Recorded(h).slots), p50, p95, p99) <==> Percentiles(NonZero(Window(h)), p50, p95, p99)
    ensures Percentiles(NonZero(Window(h)), p50, p95, p99) ==> p50 <= p95 <= p99
  {
    var seen, s := NonZero(Recorded(h).slots), NonZero(Window(h));
    RingSeesWindow(h, 0);
    SameRanks(h, p50, |s| / 2);
    SameRanks(h, p95, |s| * 95 / 100);
    SameRanks(h, p99, |s| * 99 / 100);
    if s != [] && Percentiles(s, p50, p95, p99) {
      RanksAreOrdered(s, p50, p95, |s| / 2, |s| * 95 / 100);
      RanksAreOrdered(s, p95, p99, |s| * 95 / 100, |s| * 99 / 100);
    }
  }

  lemma RanksAreOrdered(s: seq<nat>, p: nat, q: nat, j: nat, k: nat)
    requires HasRank(s, p, j) && HasRank(s, q, k) && j <= k
    ensures p <= q
  {
    if q < p {
      CountGrows(s, q + 1, p);
    }
  }

  // ----------------------------------------------------------------- the controller

  class SliceController {
    var currentSliceNs: nat
    const baseSliceNs: nat
    var autoBaseNs: nat
    const minNs: nat
    const maxNs: nat
    const latRing: array<nat>
    var latIdx: nat

    ghost predicate Valid() reads this {
      minNs == AUTO_SLICE_MIN_NS && maxNs == AUTO_SLICE_MAX_NS && latRing.Length == LAT_RING_CAP
    }

    ghost function State(): Controller reads this { Controller(currentSliceNs, baseSliceNs, autoBaseNs) }

    ghost function Samples(): Ring reads this, latRing { Ring(latRing[..], latIdx) }

    constructor (base: nat)
      ensures Valid() && fresh(latRing)
      ensures State() == Initial(base) && Samples() == Recorded([])
    {
      var auto := Clamp(if base > 0 then base else TARGETED_LATENCY_NS, AUTO_SLICE_MIN_NS, AUTO_SLICE_MAX_NS);
      currentSliceNs, baseSliceNs, autoBaseNs := auto, base, auto;
      minNs, maxNs := AUTO_SLICE_MIN_NS, AUTO_SLICE_MAX_NS;
      latRing, latIdx := new nat[LAT_RING_CAP](_ => 0), 0;
      new;
      assert latRing[..] == EmptyRing().slots;
    }

    method Update(nrRunnable: nat, nrCpus: nat) returns (slice: nat)
      requires Valid()
      modifies this`autoBaseNs, this`currentSliceNs
      ensures State() == Updated(old(State()), nrRunnable, nrCpus) && slice == State().current
    {
      if nrCpus == 0 {
        return currentSliceNs;
      }
      autoBaseNs := Clamp(Computed(nrRunnable, nrCpus), AUTO_SLICE_MIN_NS, AUTO_SLICE_MAX_NS);
      var base := if baseSliceNs > 0 then Min(autoBaseNs, baseSliceNs) else autoBaseNs;
      currentSliceNs := Clamp(base, minNs, maxNs);
      return currentSliceNs;
    }

    method RecordSchedEventLatency(ns: nat)
      requires Valid()
      modifies this`latIdx, latRing
      ensures Samples() == Record(old(Samples()), ns)
    {
      var i := latIdx % LAT_RING_CAP;
      latIdx := (latIdx + 1) % TWO64;
      latRing[i] := ns;
    }

    method ComputeSchedPercentiles() returns (p50: nat, p95: nat, p99: nat)
      requires Valid()
      ensures Percentiles(NonZero(latRing[..]), p50, p95, p99)
    {
      var samples := new nat[LAT_RING_CAP];
      var len := 0;
      for i := 0 to LAT_RING_CAP
        invariant len <= i && samples[..len] == NonZero(latRing[..i])
      {
        assert latRing[..i + 1] == latRing[..i] + [latRing[i]];
        var v := latRing[i];
        if v > 0 {
          samples[len] := v;
          len := len + 1;
        }
      }
      assert latRing[..LAT_RING_CAP] == latRing[..];
      if len == 0 {
        return 0, 0, 0;
      }
      var taken := samples[..len];
      SortedRank(taken, len / 2);
      SortedRank(taken, len * 95 / 100);
      SortedRank(taken, len * 99 / 100);
      var sorted := Sorted(taken);
      return sorted[len / 2], sorted[len * 95 / 100], sorted[len * 99 / 100];
    }
  }
}
