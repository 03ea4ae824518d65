/** Arithmetic shared by the models: comparisons, saturating 64-bit operations, integer
    division and the size of a subset. */
module Numbers {
  const U64_MAX: nat := 0xFFFF_FFFF_FFFF_FFFF
  const TWO63: int := 0x8000_0000_0000_0000
  const TWO64: nat := 0x1_0000_0000_0000_0000

  function Max(x: int, y: int): int { if x <= y then y else x }

  function Min(x: int, y: int): int { if x <= y then x else y }

  function Clamp(x: int, lo: int, hi: int): int { Min(Max(x, lo), hi) }

  function SatAdd(x: nat, y: nat): nat { Min(x + y, U64_MAX) }

  function SatSub(x: nat, y: nat): nat { if x < y then 0 else x - y }

  function SatMul(x: nat, y: nat): nat { Min(x * y, U64_MAX) }

  lemma MulMonotone(a: int, b: int, k: nat)
    ensures a <= b ==> k * a <= k * b
  {
    if a <= b {
      assert k * b - k * a == k * (b - a);
    }
  }

  lemma ProductMonotone(a: nat, b: nat, c: nat, d: nat)
    requires a <= c && b <= d
    ensures a * b <= c * d
  {
    assert a * b <= c * b;
    assert c * b <= c * d;
  }

  lemma QuotientAtMost(x: nat, y: nat, k: nat)
    requires y > 0 && x < y * (k + 1)
    ensures x / y <= k
  {
    MulMonotone(k + 1, x / y, y);
    assert y * (x / y) <= x;
  }

  lemma QuotientAtLeast(x: nat, y: nat, s: nat)
    requires y > 0
    ensures s <= x / y <==> s * y <= x
  {
    var k := x / y;
    assert y * k <= x < y * (k + 1);
    if s <= k {
      MulMonotone(s, k, y);
    } else {
      MulMonotone(k + 1, s, y);
    }
  }

  lemma DivisionMonotone(x: nat, a: nat, b: nat)
    requires 0 < a <= b
    ensures x / b <= x / a
  {
    assert x < a * (x / a + 1);
    MulMonotone(a, b, x / a + 1);
    QuotientAtMost(x, b, x / a);
  }

  lemma SubsetIsSmaller(a: set<int>, b: set<int>)
    requires a <= b
    ensures |a| <= |b|
  {
    assert b == a + (b - a);
  }
}
