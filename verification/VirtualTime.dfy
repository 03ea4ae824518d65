/** Virtual-time arithmetic of main.bpf.c: unsigned 64-bit sums that wrap, signed
    comparison of their difference, weight scaling, and the deadline of a task. */
module VirtualTime {
  import opened Numbers

  const STARVATION_NS: nat := 500_000_000
  const MAX_WAKEUP_FREQ: nat := 64
  const MAX_WEIGHT: nat := 10_000
  /** The larger of the two profiles' lag budgets (src/main.rs). */
  const MAX_SLICE_LAG_NS: nat := 40_000_000

  function U64(x: int): (r: nat)
    ensures r < TWO64
  {
    x % TWO64
  }

  /** `(s64)(a - b) < 0` */
  predicate TimeBefore(a: nat, b: nat) {
    U64(a - b) >= TWO63
  }

  /** The kernel's weight scaling, 100 being the neutral weight. */
  function Scale(v: nat, weight: nat): nat {
    U64(v * weight) / 100
  }

  function ScaleInverse(v: nat, weight: nat): nat
    requires weight > 0
  {
    U64(v * 100) / weight
  }

  function CalcAvg(old_: nat, new_: nat): nat {
    U64(U64(old_ - old_ / 4) + new_ / 4)
  }

  function UpdateFreq(freq: nat, interval: nat): nat
    requires interval > 0
  {
    CalcAvg(freq, 100_000_000 / interval)
  }

  /** The running average never leaves the range of its two inputs. */
  lemma AvgIsBetween(old_: nat, new_: nat)
    requires old_ < TWO64 && new_ < TWO64
    ensures Min(old_, new_) <= CalcAvg(old_, new_) <= Max(old_, new_)
  {
    var kept := old_ - old_ / 4;
    assert U64(kept) == kept;
    assert Min(old_, new_) <= kept + new_ / 4 <= Max(old_, new_);
  }

  /** It moves a quarter of the way to the new value, up to rounding. */
  lemma AvgIsWeighted(old_: nat, new_: nat)
    requires old_ < TWO64 && new_ < TWO64
    ensures 3 * old_ + new_ <= 4 * CalcAvg(old_, new_) + 3 && 4 * CalcAvg(old_, new_) <= 3 * old_ + new_ + 3
  {
    AvgIsBetween(old_, new_);
    var kept := old_ - old_ / 4;
    assert U64(kept) == kept && U64(kept + new_ / 4) == kept + new_ / 4;
  }

  // ------------------------------------------------------- the catch-up of vtime

  /** A sleeper's virtual time is pulled up to `now - lag`. */
  function CatchUp(now: nat, lag: nat, vtime: nat): nat {
    var vmin := U64(now - lag);
    if TimeBefore(vtime, vmin) then vmin else vtime
  }

  /** The wrapping code computes the integer maximum exactly when the distance it
      compares is representable as a signed 64-bit number (or so large that the
      wrapped comparison happens to agree). */
  lemma CatchUpExact(now: nat, lag: nat, vtime: nat)
    requires now < TWO64 && vtime < TWO64 && lag < TWO63
    ensures CatchUp(now, lag, vtime) == Max(vtime, now - lag)
            <==> (-TWO63 <= vtime - now + lag < TWO63 || TWO64 <= vtime - now + lag)
  {
    var vmin := U64(now - lag);
    var d := vtime - now + lag;
    assert vmin == if now >= lag then now - lag else now - lag + TWO64;
    assert U64(vtime - vmin) == U64(d) by {
      WrapDifference(vtime, now - lag);
    }
    assert d < 0 ==> U64(d) == d + TWO64;
    assert 0 <= d < TWO64 ==> U64(d) == d;
    assert TWO64 <= d ==> U64(d) == d - TWO64;
  }

  lemma WrapDifference(a: int, b: int)
    ensures U64(a - U64(b)) == U64(a - b)
  {
    var k := b / TWO64;
    assert b == k * TWO64 + U64(b);
    assert a - U64(b) == a - b + k * TWO64;
    WrapMultiple(a - b, k);
  }

  lemma WrapMultiple(x: int, k: int)
    ensures U64(x + k * TWO64) == U64(x)
  {
    var j := x / TWO64;
    assert x == j * TWO64 + U64(x);
    assert x + k * TWO64 == (j + k) * TWO64 + U64(x);
  }

  /** In the first 2^63 ns nothing wraps, start-up included, when `now < lag`. */
  lemma CatchUpCalm(now: nat, lag: nat, vtime: nat)
    requires now < TWO63 && vtime < TWO63 && vtime + lag < TWO63
    ensures CatchUp(now, lag, vtime) == Max(vtime, now - lag)
    ensures now <= lag ==> CatchUp(now, lag, vtime) == vtime
  {
    CatchUpExact(now, lag, vtime);
  }

  lemma TimeBeforeCalm(a: nat, b: nat)
    requires a < TWO63 && b < TWO63
    ensures TimeBefore(a, b) <==> a < b
  {
  }

  // ------------------------------------------------------------------- deadlines

  function QThresh(sliceNs: nat): (r: nat)
    ensures r >= 1
  {
    Max(STARVATION_NS / Max(sliceNs, 1), 1)
  }

  /** Enough work waits for half a second of slices: no extra lag. */
  predicate Backlogged(sliceNs: nat, pressure: nat) {
    U64(pressure * sliceNs) >= STARVATION_NS
  }

  function Shrunk(scale: nat, thresh: nat, pressure: nat): nat
    requires thresh >= 1
  {
    Max(U64(scale * thresh) / (thresh + pressure), 1)
  }

  function LagScale(sliceNs: nat, pressure: nat, freq: nat): nat {
    if Backlogged(sliceNs, pressure) then 1 else Shrunk(Max(freq, 1), QThresh(sliceNs), pressure)
  }

  function AwakeMax(lagNs: nat, weight: nat): nat
    requires weight > 0
  {
    ScaleInverse(lagNs, weight)
  }

  function ClampAwake(awake: nat, cap: nat): nat {
    if TimeBefore(cap, awake) then cap else awake
  }

  function Lag(sliceNs: nat, lagNs: nat, weight: nat, pressure: nat, freq: nat): nat {
    Scale(U64(lagNs * LagScale(sliceNs, pressure, freq)), weight)
  }

  // ----------------------------------------------------------------- credit bounds

  lemma DivisionBound(y: nat, m: nat, p: nat)
    requires y >= 1
    ensures (m * y) / (y + p) <= m
  {
    assert (y + p) * (m + 1) == m * y + p * m + y + p;
    QuotientAtMost(m * y, y + p, m);
  }

  lemma CreditFits(sliceNs: nat, scale: nat)
    requires scale <= MAX_WAKEUP_FREQ
    ensures U64(scale * QThresh(sliceNs)) == scale * QThresh(sliceNs)
  {
    var t := QThresh(sliceNs);
    DivisionMonotone(STARVATION_NS, 1, Max(sliceNs, 1));
    MulMonotone(scale, MAX_WAKEUP_FREQ, t);
  }

  /** The lag multiplier lies between one and the (non-zero) wakeup frequency. */
  lemma LagScaleBounds(sliceNs: nat, pressure: nat, freq: nat)
    requires freq <= MAX_WAKEUP_FREQ
    ensures 1 <= LagScale(sliceNs, pressure, freq) <= Max(freq, 1)
  {
    CreditFits(sliceNs, Max(freq, 1));
    DivisionBound(QThresh(sliceNs), Max(freq, 1), pressure);
  }

  /** Without a backlog of half a second, a multiplier above one is granted exactly when the
      wakeup frequency, spread over the slices that fill half a second and the waiters on
      top of them, leaves as much. */
  lemma LagScaleExact(sliceNs: nat, pressure: nat, freq: nat, k: nat)
    requires freq <= MAX_WAKEUP_FREQ && k > 1 && pressure * sliceNs < TWO64
    ensures k <= LagScale(sliceNs, pressure, freq)
            <==> pressure * sliceNs < STARVATION_NS
                 && k * (QThresh(sliceNs) + pressure) <= Max(freq, 1) * QThresh(sliceNs)
  {
    CreditFits(sliceNs, Max(freq, 1));
    QuotientAtLeast(Max(freq, 1) * QThresh(sliceNs), QThresh(sliceNs) + pressure, k);
    assert U64(pressure * sliceNs) == pressure * sliceNs;
  }

  /** `QThresh` slices fill half a second. */
  lemma QThreshExact(sliceNs: nat, k: nat)
    requires sliceNs > 0 && k > 1
    ensures k <= QThresh(sliceNs) <==> k * sliceNs <= STARVATION_NS
  {
    QuotientAtLeast(STARVATION_NS, sliceNs, k);
  }

  lemma ShrunkMonotone(scale: nat, thresh: nat, p1: nat, p2: nat)
    requires thresh >= 1 && p1 <= p2
    ensures Shrunk(scale, thresh, p2) <= Shrunk(scale, thresh, p1)
  {
    DivisionMonotone(U64(scale * thresh), thresh + p1, thresh + p2);
  }

  lemma BackloggedMonotone(sliceNs: nat, p1: nat, p2: nat)
    requires p1 <= p2 && p2 * sliceNs < TWO64
    ensures Backlogged(sliceNs, p1) ==> Backlogged(sliceNs, p2)
  {
    MulMonotone(p1, p2, sliceNs);
    var small, large := p1 * sliceNs, p2 * sliceNs;
    assert small <= large && U64(small) == small && U64(large) == large;
  }

  lemma ShrunkAboveOne(sliceNs: nat, pressure: nat, scale: nat)
    requires scale <= MAX_WAKEUP_FREQ
    ensures Shrunk(scale, QThresh(sliceNs), pressure) > 1
            <==> scale * QThresh(sliceNs) >= 2 * (QThresh(sliceNs) + pressure)
  {
    CreditFits(sliceNs, scale);
    QuotientAtLeast(scale * QThresh(sliceNs), QThresh(sliceNs) + pressure, 2);
  }

  /** More queued work buys a longer lag exactly when the product the code compares
      wraps: the shorter queue counts as a backlog, the longer one does not, and the
      credit left for the longer one still exceeds one budget. */
  lemma LagScaleShrinksIff(sliceNs: nat, p1: nat, p2: nat, freq: nat)
    requires freq <= MAX_WAKEUP_FREQ && p1 <= p2
    ensures LagScale(sliceNs, p2, freq) > LagScale(sliceNs, p1, freq)
            <==> Backlogged(sliceNs, p1) && !Backlogged(sliceNs, p2)
                 && Max(freq, 1) * QThresh(sliceNs) >= 2 * (QThresh(sliceNs) + p2)
  {
    LagScaleBounds(sliceNs, p1, freq);
    LagScaleBounds(sliceNs, p2, freq);
    ShrunkAboveOne(sliceNs, p2, Max(freq, 1));
    ShrunkMonotone(Max(freq, 1), QThresh(sliceNs), p1, p2);
  }

  /** In particular never while that product fits in 64 bits. */
  lemma LagScaleShrinks(sliceNs: nat, p1: nat, p2: nat, freq: nat)
    requires freq <= MAX_WAKEUP_FREQ && p1 <= p2 && p2 * sliceNs < TWO64
    ensures LagScale(sliceNs, p2, freq) <= LagScale(sliceNs, p1, freq)
  {
    LagScaleShrinksIff(sliceNs, p1, p2, freq);
    BackloggedMonotone(sliceNs, p1, p2);
  }

  /** The lag of any task is at most 64 budgets at the highest weight. */
  function LagBound(lagNs: nat): nat {
    lagNs * MAX_WAKEUP_FREQ * (MAX_WEIGHT / 100)
  }

  lemma LagIsBounded(sliceNs: nat, lagNs: nat, weight: nat, pressure: nat, freq: nat)
    requires freq <= MAX_WAKEUP_FREQ && 1 <= weight <= MAX_WEIGHT && lagNs <= MAX_SLICE_LAG_NS
    ensures Lag(sliceNs, lagNs, weight, pressure, freq) == lagNs * LagScale(sliceNs, pressure, freq) * weight / 100
    ensures Lag(sliceNs, lagNs, weight, pressure, freq) <= LagBound(lagNs) < TWO63
  {
    LagScaleBounds(sliceNs, pressure, freq);
    ScaledLag(lagNs, LagScale(sliceNs, pressure, freq), weight);
  }

  lemma ScaledLag(lagNs: nat, k: nat, weight: nat)
    requires k <= MAX_WAKEUP_FREQ && weight <= MAX_WEIGHT && lagNs <= MAX_SLICE_LAG_NS
    ensures Scale(U64(lagNs * k), weight) == lagNs * k * weight / 100 <= LagBound(lagNs) < TWO63
  {
    ProductMonotone(lagNs, k, lagNs, MAX_WAKEUP_FREQ);
    Unwrapped(lagNs * k, weight, lagNs * MAX_WAKEUP_FREQ);
  }

  lemma Unwrapped(v: nat, weight: nat, cap: nat)
    requires v <= cap <= 0x1_0000_0000_0000 && weight <= MAX_WEIGHT
    ensures U64(v) == v && Scale(v, weight) == v * weight / 100 <= cap * 100
  {
    ProductMonotone(v, weight, cap, MAX_WEIGHT);
    FlooredAtMost(v * weight, cap);
  }

  lemma FlooredAtMost(product: nat, cap: nat)
    requires product <= cap * 10_000 && cap <= 0x1_0000_0000_0000
    ensures U64(product) == product && product / 100 <= cap * 100
  {
  }

  lemma AwakeIsCapped(lagNs: nat, weight: nat, awake: nat)
    requires 1 <= weight && lagNs <= MAX_SLICE_LAG_NS && awake < TWO63
    ensures ClampAwake(awake, AwakeMax(lagNs, weight)) == Min(awake, lagNs * 100 / weight)
    ensures AwakeMax(lagNs, weight) <= lagNs * 100
  {
    DivisionMonotone(lagNs * 100, 1, weight);
    TimeBeforeCalm(AwakeMax(lagNs, weight), awake);
  }
}
