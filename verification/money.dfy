/**
 * Exact decimal money.  Every amount the program stores is a whole number of
 * cents, kept here as an `int`; the numbers it receives are exact reals.  The
 * two rounding primitives the program applies to numbers are defined once each:
 *
 *  - `ToFixed2` is `parseFloat(x.toFixed(2))` (ECMA-262 section 21.1.3.3,
 *    Number.prototype.toFixed): the magnitude goes to the nearest cent, a tie
 *    goes to the larger magnitude, and the sign is put back;
 *  - `MathRound` is `Math.round` (ECMA-262 section 21.3.2.28): the nearest
 *    integer, a tie goes toward +infinity.
 *
 * Both agree on non-negative amounts, where `RoundCents` is the shared rule.
 */
module Money {

  /** The amount, in currency units, of a whole number of cents. */
  function ToReal(cents: int): (x: real)
    ensures x * 100.0 == cents as real
  {
    cents as real / 100.0
  }

  /** True when `x` has at most two decimal places. */
  predicate IsCents(x: real)
  {
    (x * 100.0).Floor as real == x * 100.0
  }

  /** Math.round: the integer nearest to `x`, a tie going toward +infinity. */
  function MathRound(x: real): (n: int)
    ensures n as real - 0.5 <= x < n as real + 0.5
  {
    (x + 0.5).Floor
  }

  /** The whole number of cents nearest to `x`, a tie going up (Math.round(x * 100)). */
  function RoundCents(x: real): (c: int)
    ensures ToReal(c) - 0.005 <= x < ToReal(c) + 0.005
  {
    MathRound(x * 100.0)
  }

  /**
   * `parseFloat(x.toFixed(2))`: the nearest cent, a tie going away from zero,
   * because toFixed rounds the magnitude and then restores the sign.
   */
  function ToFixed2(x: real): (c: int)
    ensures x >= 0.0 ==> ToReal(c) - 0.005 <= x < ToReal(c) + 0.005
    ensures x < 0.0 ==> ToReal(c) - 0.005 < x <= ToReal(c) + 0.005
  {
    if x < 0.0 then -RoundCents(-x) else RoundCents(x)
  }

  /** At most one whole number of cents lies in a half-open interval one cent wide. */
  lemma RoundCentsUnique(x: real, c: int)
    requires ToReal(c) - 0.005 <= x < ToReal(c) + 0.005
    ensures RoundCents(x) == c
  {
    var d := RoundCents(x);
    assert (d - c) as real * 0.01 < 0.01 && (c - d) as real * 0.01 < 0.01;
  }

  /** A whole number of cents rounds to itself under both primitives. */
  lemma RoundCentsOfCents(c: int)
    ensures RoundCents(ToReal(c)) == c
    ensures ToFixed2(ToReal(c)) == c
    ensures MathRound(c as real) == c
  {
    RoundCentsUnique(ToReal(c), c);
    if c < 0 {
      assert -ToReal(c) == ToReal(-c);
      RoundCentsUnique(ToReal(-c), -c);
    }
  }

  /**
   * The two primitives part ways on a negative tie: toFixed takes -0.005 to
   * -0.01, Math.round takes it to 0.00.
   */
  lemma NegativeTieDiffers()
    ensures ToFixed2(-0.005) == -1
    ensures RoundCents(-0.005) == 0
  {
    RoundCentsUnique(0.005, 1);
    RoundCentsUnique(-0.005, 0);
  }

  /** Rounding to cents preserves order. */
  lemma RoundCentsMonotone(x: real, y: real)
    requires x <= y
    ensures RoundCents(x) <= RoundCents(y)
  {
  }

  /** The amount of a whole number of cents has at most two decimal places, and conversely. */
  lemma CentsAreCents(x: real)
    ensures IsCents(x) <==> ToReal(RoundCents(x)) == x
  {
    if IsCents(x) {
      RoundCentsUnique(x, (x * 100.0).Floor);
    }
  }
}
