/**
 * The division-safe percentage rule shared by the shift workload and the
 * stage breakdown: `int(completed / total * 100) if total > 0 else 0`.
 */
module Percent {

  /** Python's `int()` on a number: truncation toward zero. */
  function Trunc(x: real): (n: int)
    ensures 0.0 <= x ==> n as real <= x < n as real + 1.0
    ensures x < 0.0 ==> n as real - 1.0 < x <= n as real
  {
    if x >= 0.0 then x.Floor else -((-x).Floor)
  }

  /**
   * Percent complete: truncated `completed / total * 100` when `total > 0`,
   * and exactly 0 (no division at all) otherwise.
   */
  function PercentComplete(completed: real, total: real): (p: int)
    ensures total <= 0.0 ==> p == 0
    ensures total > 0.0 && 0.0 <= completed ==> p >= 0
    ensures total > 0.0 && 0.0 <= completed <= total ==> 0 <= p <= 100
  {
    if total > 0.0 then Trunc(completed / total * 100.0) else 0
  }

  /**
   * A division-free characterisation: for a positive total and a
   * non-negative completed figure, the percentage is `k` exactly when
   * `k * total <= completed * 100 < (k + 1) * total`.
   */
  lemma PercentCompleteCharacterised(completed: real, total: real, k: int)
    requires total > 0.0 && completed >= 0.0
    ensures PercentComplete(completed, total) == k
        <==> k as real * total <= completed * 100.0 < (k + 1) as real * total
  {
    var x := completed / total * 100.0;
    var p := PercentComplete(completed, total);
    ScaledBack(completed, total, x);
    assert p as real <= x < (p + 1) as real;
    IntervalScaled(p, x, total, completed * 100.0);
    IntervalScaled(k, x, total, completed * 100.0);
  }

  /** The scaled ratio times the total is the scaled completed figure, and is non-negative. */
  lemma ScaledBack(completed: real, total: real, x: real)
    requires total > 0.0 && completed >= 0.0
    requires x == completed / total * 100.0
    ensures x * total == completed * 100.0
    ensures x >= 0.0
  {
    MulBoth(0.0, x, total);
  }

  /** `k <= x < k + 1` holds exactly when it holds after scaling by a positive `c` (`x * c == m`). */
  lemma IntervalScaled(k: int, x: real, c: real, m: real)
    requires c > 0.0 && x * c == m
    ensures k as real <= x < (k + 1) as real <==> k as real * c <= m < (k + 1) as real * c
  {
    MulBoth(k as real, x, c);
    MulBoth(x, (k + 1) as real, c);
  }

  lemma MulMonotone(a: real, b: real, c: real)
    requires a <= b && c > 0.0
    ensures a * c <= b * c
    ensures a < b ==> a * c < b * c
  {
  }

  /** Multiplying both sides by a positive `c` keeps both orderings, in both directions. */
  lemma MulBoth(a: real, b: real, c: real)
    requires c > 0.0
    ensures a <= b <==> a * c <= b * c
    ensures a < b <==> a * c < b * c
  {
    if a <= b {
      MulMonotone(a, b, c);
    } else {
      MulMonotone(b, a, c);
    }
  }
}
