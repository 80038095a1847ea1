/**
 * Python's `round(x, 1)` over exact reals: the nearest multiple of 0.1,
 * halves rounded up.
 */
module Rounding {

  function Round1(x: real): (r: real)
    ensures x - 0.05 < r <= x + 0.05
  {
    ((x * 10.0 + 0.5).Floor as real) / 10.0
  }

  /** Rounding never reverses an order. */
  lemma Round1Monotone(x: real, y: real)
    requires x <= y
    ensures Round1(x) <= Round1(y)
  {
    var a, b := (x * 10.0 + 0.5).Floor, (y * 10.0 + 0.5).Floor;
    assert a as real <= x * 10.0 + 0.5 <= y * 10.0 + 0.5 < b as real + 1.0;
    assert a <= b;
  }

  /** A value that already has one decimal is left alone. */
  lemma Round1OfTenths(k: int)
    ensures Round1(k as real / 10.0) == k as real / 10.0
  {
    var x := k as real / 10.0;
    assert x * 10.0 + 0.5 == k as real + 0.5;
    assert (x * 10.0 + 0.5).Floor == k;
  }

  /** Rounding keeps a value inside [lo, hi] when both bounds have one decimal. */
  lemma Round1Within(x: real, lo: int, hi: int)
    requires lo as real / 10.0 <= x <= hi as real / 10.0
    ensures lo as real / 10.0 <= Round1(x) <= hi as real / 10.0
  {
    Round1Monotone(lo as real / 10.0, x);
    Round1Monotone(x, hi as real / 10.0);
    Round1OfTenths(lo);
    Round1OfTenths(hi);
  }

  /** A ratio of a non-negative part to a larger positive whole lies in [0, 1]. */
  lemma RatioAtMostOne(a: real, b: real)
    requires 0.0 <= a <= b && 0.0 < b
    ensures 0.0 <= a / b <= 1.0
  {
  }

  /** `round(sum / n, 1) if n else 0`: a rounded mean. */
  function Mean(sum: real, n: nat): (r: real)
    ensures n == 0 ==> r == 0.0
    ensures 0 < n && 0.0 <= sum <= 100.0 * n as real ==> 0.0 <= r <= 100.0
  {
    if n == 0 then 0.0
    else if 0.0 <= sum <= 100.0 * n as real then
      RatioAtMostOne(sum, 100.0 * n as real);
      assert sum / n as real == 100.0 * (sum / (100.0 * n as real));
      Round1Within(sum / n as real, 0, 1000);
      Round1(sum / n as real)
    else Round1(sum / n as real)
  }

}
