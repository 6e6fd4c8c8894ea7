/**
 The two host numeric operations the projection routine relies on, over exact
 reals: `Math.pow` with a non-negative integer exponent and `Math.round`
 (round half towards positive infinity).
 */
module JsMath {

  /** `x` raised to the power `n`; `Math.pow(x, n)` for a non-negative integer `n`. */
  function Pow(x: real, n: nat): real
  {
    if n == 0 then 1.0 else x * Pow(x, n - 1)
  }

  /** `Math.round`: the integer nearest to `x`, a tie going to the larger one. */
  function Round(x: real): (r: int)
    ensures x - 0.5 < r as real <= x + 0.5
  {
    (x + 0.5).Floor
  }

  /** Rounding never reverses the order of two values. */
  lemma RoundMonotone(x: real, y: real)
    requires x <= y
    ensures Round(x) <= Round(y)
  {
  }

  /** A whole number rounds to itself. */
  lemma RoundOfInteger(n: int)
    ensures Round(n as real) == n
  {
  }

  /** Every power of 1 is 1. */
  lemma {:induction false} PowOfOne(n: nat)
    ensures Pow(1.0, n) == 1.0
  {
    if n > 0 {
      PowOfOne(n - 1);
    }
  }

  /** Every positive power of 0 is 0. */
  lemma PowOfZero(n: nat)
    requires n >= 1
    ensures Pow(0.0, n) == 0.0
  {
  }

  /** A non-negative base has non-negative powers. */
  lemma {:induction false} PowNonNegative(x: real, n: nat)
    requires x >= 0.0
    ensures Pow(x, n) >= 0.0
  {
    if n > 0 {
      PowNonNegative(x, n - 1);
      MulNonNegative(x, Pow(x, n - 1));
    }
  }

  /** A base of at least 1 has powers of at least 1. */
  lemma {:induction false} PowAtLeastOne(x: real, n: nat)
    requires x >= 1.0
    ensures Pow(x, n) >= 1.0
  {
    if n > 0 {
      PowAtLeastOne(x, n - 1);
      MulMonotone(Pow(x, n - 1), 1.0, x);
    }
  }

  /** For a base of at least 1 the powers never decrease as the exponent grows. */
  lemma {:induction false} PowMonotone(x: real, m: nat, n: nat)
    requires x >= 1.0 && m <= n
    ensures Pow(x, m) <= Pow(x, n)
  {
    if m < n {
      PowMonotone(x, m, n - 1);
      PowNonNegative(x, n - 1);
      MulMonotone(Pow(x, n - 1), 1.0, x);
    }
  }

  /** For a base above 1 the powers strictly increase with the exponent. */
  lemma {:induction false} PowStrictlyMonotone(x: real, m: nat, n: nat)
    requires x > 1.0 && m < n
    ensures Pow(x, m) < Pow(x, n)
  {
    PowAtLeastOne(x, n - 1);
    MulStrictlyMonotone(Pow(x, n - 1), 1.0, x);
    if m < n - 1 {
      PowStrictlyMonotone(x, m, n - 1);
    }
  }

  /** For a base in [0, 1] the powers never increase as the exponent grows. */
  lemma {:induction false} PowAntitone(x: real, m: nat, n: nat)
    requires 0.0 <= x <= 1.0 && m <= n
    ensures Pow(x, n) <= Pow(x, m)
  {
    if m < n {
      PowAntitone(x, m, n - 1);
      PowNonNegative(x, n - 1);
      MulMonotone(Pow(x, n - 1), x, 1.0);
    }
  }

  /** Helper fact about real multiplication, used by the `Pow` inductions. */
  lemma MulNonNegative(a: real, b: real)
    requires a >= 0.0 && b >= 0.0
    ensures a * b >= 0.0
  {
  }

  /** Helper fact about real multiplication, used by the `Pow` inductions. */
  lemma MulMonotone(a: real, b: real, c: real)
    requires a >= 0.0 && b <= c
    ensures a * b <= a * c
  {
  }

  /** Helper fact about real multiplication, used by the `Pow` inductions. */
  lemma MulStrictlyMonotone(a: real, b: real, c: real)
    requires a > 0.0 && b < c
    ensures a * b < a * c
  {
  }
}
