/** What the userspace fallback grants an arriving task, in terms of the kernel's message
    and of the task's last record: its label, slice, wake credit, deadline and message. */
module Grants {
  import opened Numbers
  import opened Options
  import opened Lifetime
  import opened Policy

  // ------------------------------------------------------------------ who is boosted

  /** The time the task just ran; none if the clock ran backwards. */
  function Burst(a: Arrival): nat {
    if a.qtask.stopTs > a.qtask.startTs then a.qtask.stopTs - a.qtask.startTs else 0
  }

  /** The burst is at least `num / den` of the slice last granted, or, for a task nobody
      remembers, of the base slice and of one millisecond. */
  predicate UsedAtLeast(p: Profile, a: Arrival, num: nat, den: nat) {
    if a.life.Some? && a.life.value.lastSliceNs > 0 then den * Burst(a) >= num * a.life.value.lastSliceNs
    else den * Burst(a) >= num * p.baseSliceNs && den * Burst(a) >= num * 1_000_000
  }

  predicate UsedMoreThan(p: Profile, a: Arrival, num: nat, den: nat) {
    if a.life.Some? && a.life.value.lastSliceNs > 0 then den * Burst(a) > num * a.life.value.lastSliceNs
    else den * Burst(a) > num * p.baseSliceNs && den * Burst(a) > num * 1_000_000
  }

  /** The burst is at least `num / den` of everything the task ran since it woke. */
  predicate FreshAtLeast(a: Arrival, num: nat, den: nat) {
    a.qtask.execRuntime == 0 || den * Burst(a) >= num * a.qtask.execRuntime
  }

  /** The task slept between 0.75 and 25 ms before this burst. */
  predicate Napped(a: Arrival) {
    && a.life.Some? && a.life.value.lastStopTs > 0
    && a.life.value.lastStopTs + 750_000 <= a.qtask.startTs <= a.life.value.lastStopTs + 25_000_000
  }

  lemma CrossMultiply(x: real, y: real, n: real, d: real)
    requires y > 0.0 && d > 0.0
    ensures x / y >= n / d <==> d * x >= n * y
  {
    var r, s := x / y, n / d;
    assert x == r * y && n == s * d;
    assert d * x - n * y == (r - s) * (d * y);
    RealScale(r, s, d * y);
  }

  lemma RealScale(r: real, s: real, k: real)
    requires k > 0.0
    ensures (r - s) * k >= 0.0 <==> r >= s
  {
  }

  lemma RatioAtLeast(x: nat, y: nat, num: nat, den: nat)
    requires y > 0 && 0 < num <= den
    ensures Ratio(x, y) >= num as real / den as real <==> den * x >= num * y
  {
    CrossMultiply(x as real, y as real, num as real, den as real);
    CrossMultiply(1.0, 1.0, num as real, den as real);
    IsProduct(den, x);
    IsProduct(num, y);
  }

  lemma IsProduct(x: nat, y: nat)
    ensures (x * y) as real == x as real * y as real
  {
  }

  lemma IntensityAtLeast(p: Profile, a: Arrival, num: nat, den: nat)
    requires 0 < num <= den
    ensures CpuIntensity(a.qtask, PrevSliceNs(p, a)) >= num as real / den as real <==> UsedAtLeast(p, a, num, den)
  {
    RatioAtLeast(Burst(a), PrevSliceNs(p, a), num, den);
    MulMonotone(p.baseSliceNs, 1_000_000, num);
    MulMonotone(1_000_000, p.baseSliceNs, num);
  }

  lemma FreshnessAtLeast(a: Arrival, num: nat, den: nat)
    requires 0 < num <= den
    ensures ExecRatio(a.qtask) >= num as real / den as real <==> FreshAtLeast(a, num, den)
  {
    if a.qtask.execRuntime > 0 {
      RatioAtLeast(Burst(a), a.qtask.execRuntime, num, den);
    } else {
      CrossMultiply(1.0, 1.0, num as real, den as real);
    }
  }

  lemma NappedIff(a: Arrival)
    ensures Napped(a) <==> ShortSleep(RecentSleepNs(a))
  {
  }

  /** A task is real-time exactly when it is a kernel worker or weighs more than 9500. */
  lemma RealTimeIff(p: Profile, front: nat, a: Arrival)
    ensures Derived(p, front, a).kind.RealTime? <==> a.isKernelWorker || a.qtask.weight > 9500
  {
    var w := a.qtask.weight as real / 10000.0;
    assert w * 10000.0 == a.qtask.weight as real;
  }

  /** A task is boosted exactly when it is ordinary, napped, spent at least 45% of its last
      slice and at least 60% of its run time since waking in this burst. */
  lemma BoostedIff(p: Profile, front: nat, a: Arrival)
    ensures Derived(p, front, a).wakeBoosted
            <==> && !a.isKernelWorker && a.qtask.weight <= 9500 && Napped(a)
                 && FreshAtLeast(a, 60, 100) && UsedAtLeast(p, a, 45, 100)
  {
    RealTimeIff(p, front, a);
    NappedIff(a);
    IntensityAtLeast(p, a, 45, 100);
    FreshnessAtLeast(a, 60, 100);
  }

  /** Whether it is latency sensitive asks for less: 30% of its slice and 55% freshness. */
  lemma SensitiveIff(p: Profile, front: nat, a: Arrival)
    ensures Derived(p, front, a).latencySensitive
            <==> && !a.isKernelWorker && a.qtask.weight <= 9500 && Napped(a)
                 && FreshAtLeast(a, 55, 100) && UsedAtLeast(p, a, 30, 100)
  {
    RealTimeIff(p, front, a);
    NappedIff(a);
    IntensityAtLeast(p, a, 30, 100);
    FreshnessAtLeast(a, 55, 100);
  }

  lemma RatioAbove(x: nat, y: nat, num: nat, den: nat)
    requires y > 0 && 0 < num < den
    ensures Ratio(x, y) > num as real / den as real <==> den * x > num * y
  {
    CrossMultiply(num as real, den as real, x as real, y as real);
    CrossMultiply(num as real, den as real, 1.0, 1.0);
    IsProduct(y, num);
    IsProduct(x, den);
  }

  lemma IntensityAbove(p: Profile, a: Arrival, num: nat, den: nat)
    requires 0 < num < den
    ensures CpuIntensity(a.qtask, PrevSliceNs(p, a)) > num as real / den as real <==> UsedMoreThan(p, a, num, den)
  {
    RatioAbove(Burst(a), PrevSliceNs(p, a), num, den);
    MulMonotone(p.baseSliceNs, 1_000_000, num);
    MulMonotone(1_000_000, p.baseSliceNs, num);
  }

  /** An ordinary task waits for I/O if it used less than a tenth of its slice, computes if
      it used more than 85% in a burst that is under 30% of its run time since waking, and
      is interactive otherwise. */
  lemma LabelIff(p: Profile, front: nat, a: Arrival)
    requires !a.isKernelWorker && a.qtask.weight <= 9500
    ensures Derived(p, front, a).kind
            == if !UsedAtLeast(p, a, 10, 100) then IoWait
               else if UsedMoreThan(p, a, 85, 100) && !FreshAtLeast(a, 30, 100) then Compute
               else Interactive
  {
    RealTimeIff(p, front, a);
    IntensityAtLeast(p, a, 10, 100);
    IntensityAbove(p, a, 85, 100);
    FreshnessAtLeast(a, 30, 100);
  }

  // ------------------------------------------------------------------------- slices

  /** `b` is a quarter of the task's nap, kept between half the minimum slice and the longer
      of base and minimum slice; nothing without a nap. */
  ghost predicate IsSleepBonus(p: Profile, a: Arrival, b: nat) {
    if !Napped(a) then b == 0
    else
      var slept := a.qtask.startTs - a.life.value.lastStopTs;
      var lo, hi := p.sliceMinNs / 2, Max(p.baseSliceNs, p.sliceMinNs);
      lo <= b <= hi && (b > lo ==> 4 * b <= slept) && (b < hi ==> slept < 4 * (b + 1))
  }

  lemma BonusIsQuarter(p: Profile, a: Arrival)
    ensures IsSleepBonus(p, a, SleepBonusNs(p, RecentSleepNs(a)))
  {
    NappedIff(a);
  }

  /** What a slice is never cut below: the minimum, for real-time tasks the base slice too. */
  function SliceFloor(p: Profile, t: Task): nat {
    if t.kind.RealTime? then Max(p.sliceMinNs, p.baseSliceNs) else p.sliceMinNs
  }

  /** Neither the slice's products nor its sum reach the end of 64 bits. */
  predicate FarFromSaturation(p: Profile, a: Arrival) {
    p.baseSliceNs < 0x4000_0000_0000_0000 && p.sliceMinNs <= 0x4000_0000_0000_0000
    && a.aiSliceNs * Max(a.qtask.weight, 1) < TWO63
  }

  lemma ScaledIff(p: Profile, front: nat, a: Arrival, bonus: nat, s: nat)
    requires FarFromSaturation(p, a) && bonus <= 0x4000_0000_0000_0000
    ensures var scaled := SatMul(a.aiSliceNs, Max(a.qtask.weight, 1)) / 100;
            s <= SatAdd(scaled, bonus) <==> (s - bonus) * 100 <= a.aiSliceNs * Max(a.qtask.weight, 1)
  {
    if s >= bonus {
      QuotientAtLeast(a.aiSliceNs * Max(a.qtask.weight, 1), 100, s - bonus);
    }
  }

  lemma LongestSlice(p: Profile)
    requires p.baseSliceNs < 0x4000_0000_0000_0000
    ensures ClampMax(p) == Max(4 * p.baseSliceNs, p.sliceMinNs) && p.baseSliceNs <= ClampMax(p)
  {
  }

  lemma ClampTwice(x: int, lo: int, base: int, hi: int)
    requires lo <= hi && base <= hi
    ensures Min(Max(Clamp(x, lo, hi), base), hi) == Clamp(x, Max(lo, base), hi)
  {
  }

  lemma BoostAtMostBonus(p: Profile, front: nat, a: Arrival) returns (boost: nat)
    requires FarFromSaturation(p, a)
    ensures Derived(p, front, a).sliceNs
            == var scaled := SatAdd(SatMul(a.aiSliceNs, Max(a.qtask.weight, 1)) / 100, boost);
               Clamp(scaled, SliceFloor(p, Derived(p, front, a)), Max(4 * p.baseSliceNs, p.sliceMinNs))
    ensures boost == if WakeBoosted(p, a) then SleepBonusNs(p, RecentSleepNs(a)) / 2 else 0
  {
    boost := if WakeBoosted(p, a) then SleepBonusNs(p, RecentSleepNs(a)) / 2 else 0;
    LongestSlice(p);
    var scaled := SatMul(a.aiSliceNs, Max(a.qtask.weight, 1)) / 100;
    assert SatAdd(scaled, 0) == scaled;
    ClampTwice(SatAdd(scaled, boost), p.sliceMinNs, p.baseSliceNs, ClampMax(p));
    assert Derived(p, front, a).sliceNs == SliceNs(p, a) && Derived(p, front, a).kind == LabelOf(p, a);
  }

  /** A slice above the floor is granted exactly when it is within four base slices (or the
      minimum) and within the controller's slice scaled by the weight, plus, for a boosted
      task only, half its sleep bonus. */
  lemma SliceIsGrantedIff(p: Profile, front: nat, a: Arrival, s: nat) returns (bonus: nat)
    requires FarFromSaturation(p, a) && s > SliceFloor(p, Derived(p, front, a))
    ensures IsSleepBonus(p, a, bonus)
    ensures s <= Derived(p, front, a).sliceNs
            <==> && s <= Max(4 * p.baseSliceNs, p.sliceMinNs)
                 && (s - if Derived(p, front, a).wakeBoosted then bonus / 2 else 0) * 100
                    <= a.aiSliceNs * Max(a.qtask.weight, 1)
  {
    bonus := SleepBonusNs(p, RecentSleepNs(a));
    BonusIsQuarter(p, a);
    var boost := BoostAtMostBonus(p, front, a);
    ScaledIff(p, front, a, boost, s);
  }

  /** Whatever saturates: a heavier ordinary task never gets less. */
  lemma HeavierGetsNoLess(p: Profile, front: nat, a: Arrival, weight: nat)
    requires a.qtask.weight <= weight <= 9500 && !a.isKernelWorker
    ensures Derived(p, front, a.(qtask := a.qtask.(weight := weight))).sliceNs >= Derived(p, front, a).sliceNs
  {
    var b := a.(qtask := a.qtask.(weight := weight));
    BoostedIff(p, front, a);
    BoostedIff(p, front, b);
    RealTimeIff(p, front, a);
    RealTimeIff(p, front, b);
    MulMonotone(Max(a.qtask.weight, 1), Max(weight, 1), a.aiSliceNs);
  }

  /** A boosted task's wake credit is its sleep bonus, cut to its slice and to 4 ms; nobody
      else has any. */
  lemma CreditIsBonus(p: Profile, front: nat, a: Arrival, x: nat) returns (bonus: nat)
    ensures IsSleepBonus(p, a, bonus)
    ensures var t := Derived(p, front, a);
            if t.wakeBoosted then x <= t.wakeCreditNs <==> x <= bonus && x <= t.sliceNs && x <= 4_000_000
            else t.wakeCreditNs == 0
  {
    bonus := SleepBonusNs(p, RecentSleepNs(a));
    BonusIsQuarter(p, a);
    NappedIff(a);
  }

  // ------------------------------------------------------------------ virtual time

  /** The virtual time a task enters with: the front for a newcomer, else its own, raised to
      one base slice behind the front. */
  ghost predicate IsEntry(p: Profile, front: nat, q: QueuedTask, entry: nat) {
    && (q.vtime == 0 ==> entry == front)
    && (q.vtime > 0 ==> entry >= q.vtime && entry + p.baseSliceNs >= front
                        && (entry == q.vtime || entry + p.baseSliceNs == front))
  }

  /** `charge` is `ns` scaled by the inverse of the weight. */
  ghost predicate IsCharge(weight: nat, ns: nat, charge: nat) {
    charge * Max(weight, 1) <= ns * 100 < (charge + 1) * Max(weight, 1)
  }

  lemma ScaledIsCharge(weight: nat, ns: nat)
    requires ns * 100 <= U64_MAX
    ensures IsCharge(weight, ns, ScaleByWeightInverse(weight, ns))
  {
    QuotientAtLeast(ns * 100, Max(weight, 1), ScaleByWeightInverse(weight, ns));
    QuotientAtLeast(ns * 100, Max(weight, 1), ScaleByWeightInverse(weight, ns) + 1);
  }

  /** An arrival is charged its burst, inversely to its weight, and its deadline lies one
      slice, scaled alike, ahead; real-time tasks have deadline 0.  The front moves to it, or
      stays.  While values are small this is exact. */
  lemma ArrivalIsCharged(p: Profile, front: nat, a: Arrival) returns (entry: nat, charge: nat, ahead: nat)
    requires front < TWO63 && a.qtask.vtime < TWO63 && Burst(a) * 100 < 0x2000_0000_0000_0000
    requires Derived(p, front, a).sliceNs * 100 < 0x2000_0000_0000_0000
    ensures IsEntry(p, front, a.qtask, entry) && IsCharge(a.qtask.weight, Burst(a), charge)
    ensures IsCharge(a.qtask.weight, Derived(p, front, a).sliceNs, ahead)
    ensures Derived(p, front, a).qtask == a.qtask.(vtime := entry + charge)
    ensures Derived(p, front, a).deadline == if Derived(p, front, a).kind.RealTime? then 0 else entry + charge + ahead
    ensures NewFront(p, front, a.qtask) == Max(front, entry + charge)
  {
    var slice := Derived(p, front, a).sliceNs;
    entry := EntryVtime(p, front, a.qtask);
    charge := ScaleByWeightInverse(a.qtask.weight, Burst(a));
    ahead := ScaleByWeightInverse(a.qtask.weight, slice);
    ScaledIsCharge(a.qtask.weight, Burst(a));
    ScaledIsCharge(a.qtask.weight, slice);
    ChargeIsSmall(a.qtask.weight, Burst(a), charge);
    ChargeIsSmall(a.qtask.weight, slice, ahead);
  }

  lemma ChargeIsSmall(weight: nat, ns: nat, charge: nat)
    requires IsCharge(weight, ns, charge)
    ensures charge <= ns * 100
  {
    MulMonotone(1, Max(weight, 1), charge);
  }

  // ------------------------------------------------------------------- the message

  /** Half the slice or the wake credit, whichever is longer, up to 4 ms. */
  ghost predicate IsAhead(t: Task, ahead: nat) {
    && ahead <= 4_000_000 && (ahead <= t.sliceNs / 2 || ahead <= t.wakeCreditNs)
    && (ahead < 4_000_000 ==> ahead >= t.sliceNs / 2 && ahead >= t.wakeCreditNs)
  }

  /** What goes to the kernel: the task's PID, flags, count and slice; its own CPU for kernel
      workers, and for everybody when CPU-local placement was asked for, else any CPU.  Its
      virtual time is 0 for real-time tasks and otherwise the deadline; a boosted task goes
      ahead of it by half its slice or its wake credit, whichever is longer, up to 4 ms. */
  lemma MessageSays(p: Profile, t: Task)
    ensures var m := Message(p, t);
            && m.pid == t.qtask.pid && m.flags == t.qtask.flags && m.enqCnt == t.qtask.enqCnt && m.sliceNs == t.sliceNs
            && (m.cpu == if t.isKernelWorker || p.percpuLocal then t.qtask.cpu else RL_CPU_ANY)
            && (t.kind.RealTime? ==> m.vtime == 0)
            && (!t.kind.RealTime? && !t.wakeBoosted ==> m.vtime == t.deadline)
    ensures !t.kind.RealTime? && t.wakeBoosted ==>
              exists ahead :: IsAhead(t, ahead) && Message(p, t).vtime == Max(t.deadline - ahead, 0)
  {
    if !t.kind.RealTime? && t.wakeBoosted {
      var ahead := WakeDeadlineCreditNs(t);
      assert IsAhead(t, ahead) && Message(p, t).vtime == Max(t.deadline - ahead, 0);
    }
  }
}
