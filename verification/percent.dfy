/** `Math.round((k / n) * 100)`, the percentage the dashboard and the analytics
    page show, computed exactly on integers: round half up, 0 for an empty set. */
module Percent {

  /** `p` is `100 k / n` rounded to the nearest integer with halves going
      up, that is `p - 1/2 <= 100 k / n < p + 1/2`, multiplied out by `2 n`. */
  ghost predicate IsRoundedPercent(p: int, k: nat, n: nat) {
    n > 0 && 2 * n * p <= 200 * k + n < 2 * n * p + 2 * n
  }

  function RoundPercent(k: nat, n: nat): (p: nat)
    ensures n == 0 ==> p == 0
    ensures n > 0 ==> IsRoundedPercent(p, k, n)
    ensures k <= n ==> p <= 100
    ensures k == 0 ==> p == 0
    ensures 0 < n == k ==> p == 100
  {
    if n == 0 then 0
    else
      var p := (200 * k + n) / (2 * n);
      QuotientFacts(k, n, p);
      p
  }

  lemma QuotientFacts(k: nat, n: nat, p: nat)
    requires n > 0 && p == (200 * k + n) / (2 * n)
    ensures 2 * n * p <= 200 * k + n < 2 * n * p + 2 * n
    ensures k <= n ==> p <= 100
    ensures k == 0 ==> p == 0
    ensures n == k ==> p == 100
  {
    BoundedQuotient(200 * k + n, 2 * n, p);
    if k <= n {
      assert 200 * k + n < 2 * n * 101 by {
        assert 200 * k <= 200 * n;
      }
      if p >= 101 {
        MulMonotone(2 * n, 101, p);
      }
    }
    if k == 0 && p >= 1 {
      MulMonotone(2 * n, 1, p);
    }
    if n == k && p <= 99 {
      MulMonotone(2 * n, p + 1, 100);
    }
  }

  /** Euclidean division brackets the dividend between two multiples of the divisor. */
  lemma BoundedQuotient(a: nat, b: nat, q: nat)
    requires b > 0 && q == a / b
    ensures b * q <= a < b * q + b
  {
  }

  lemma MulMonotone(c: nat, x: nat, y: nat)
    requires x <= y
    ensures c * x <= c * y
  {
  }

  /** The rounding is unique: `RoundPercent` is the one integer the
      half-up rounding of `100 k / n` allows. */
  lemma RoundPercentIsNearest(k: nat, n: nat, q: int)
    requires n > 0
    ensures IsRoundedPercent(q, k, n) <==> q == RoundPercent(k, n)
  {
    var p := RoundPercent(k, n);
    if q < p {
      MulMonotoneInt(2 * n, q + 1, p);
    } else if q > p {
      MulMonotoneInt(2 * n, p + 1, q);
    }
  }

  lemma MulMonotoneInt(c: nat, x: int, y: int)
    requires x <= y
    ensures c * x <= c * y
  {
  }
}
