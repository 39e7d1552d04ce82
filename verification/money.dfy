/**
  Amounts of money as whole cents, and the rounding that Python's `Decimal.quantize`
  applies under the default decimal context (ROUND_HALF_EVEN).

  A quotient `n / d` of cents is rounded to the nearest whole cent; when it lies exactly
  half-way between two cents, the even one is chosen. Everything is exact rational
  arithmetic on integers.
*/
module Money {

  /** `r` is a half-even rounding of the rational n/d: strictly within half a unit of it,
      or exactly half a unit away and even. */
  predicate IsHalfEvenRounding(n: int, d: int, r: int)
    requires d > 0
  {
    var e := 2 * (r * d - n);
    (-d < e < d) || ((e == d || e == -d) && r % 2 == 0)
  }

  /** The integer nearest to n/d, ties going to the even neighbour. */
  function RoundHalfEven(n: int, d: int): (r: int)
    requires d > 0
    ensures IsHalfEvenRounding(n, d, r)
  {
    var q := n / d;
    var rem := n % d;
    assert n == q * d + rem;
    assert (q + 1) * d - n == d - rem;
    if 2 * rem < d then q
    else if 2 * rem > d then q + 1
    else if q % 2 == 0 then q
    else q + 1
  }

  /** An exact quotient is left as it is. */
  lemma RoundHalfEvenExact(n: int, d: int)
    requires d > 0 && n % d == 0
    ensures RoundHalfEven(n, d) * d == n
  {
  }

  /** Rounding never turns a non-negative amount negative. */
  lemma RoundHalfEvenNonNegative(n: int, d: int)
    requires d > 0 && n >= 0
    ensures RoundHalfEven(n, d) >= 0
  {
    assert n / d >= 0;
  }

  /** k * d stays at least d away from zero once k is a non-zero integer. */
  lemma MulAwayFromZero(k: int, d: int)
    requires d > 0
    ensures k >= 1 ==> k * d >= d
    ensures k <= -1 ==> k * d <= -d
    ensures k >= 2 ==> k * d >= 2 * d
  {
    if k >= 1 {
      assert k * d == (k - 1) * d + d;
      assert (k - 1) * d >= 0;
    } else if k <= -1 {
      assert k * d == (k + 1) * d - d;
      assert (k + 1) * d <= 0;
    }
  }

  /** Half-even rounding has exactly one answer, so RoundHalfEven is THE rounding. */
  lemma RoundHalfEvenUnique(n: int, d: int, r: int)
    requires d > 0
    requires IsHalfEvenRounding(n, d, r)
    ensures r == RoundHalfEven(n, d)
  {
    var q := n / d;
    var rem := n % d;
    var k := r - q;
    assert r * d - n == k * d - rem by {
      assert n == q * d + rem;
      assert r * d == q * d + k * d;
    }
    MulAwayFromZero(k, d);
    // Only the two neighbours q and q + 1 are within half a unit (inclusive).
    if k == 0 {
      assert 2 * (r * d - n) == -2 * rem;
    } else if k == 1 {
      assert 2 * (r * d - n) == 2 * (d - rem);
    } else {
      assert false;
    }
  }
}
