/**
  Amounts of money. The program rounds with `Number(x.toFixed(2))`; on exact
  reals that is |x| rounded to the nearest cent with halves going up, and the
  sign put back.
*/
module Money {

  /** True when `x` is a whole number of cents. */
  predicate IsCents(x: real)
  {
    (x * 100.0).Floor as real == x * 100.0
  }

  /** The number of cents `x.toFixed(2)` prints: |x| in cents, halves rounded up, sign kept. */
  function RoundedCents(x: real): (n: int)
    ensures n as real - 0.5 <= x * 100.0 <= n as real + 0.5
    ensures x >= 0.0 ==> n >= 0
  {
    if x >= 0.0 then (x * 100.0 + 0.5).Floor
    else -(-x * 100.0 + 0.5).Floor
  }

  /** `Number(x.toFixed(2))`. */
  function Round2(x: real): (r: real)
    ensures IsCents(r)
    ensures r - 0.005 <= x <= r + 0.005
    ensures x >= 0.0 ==> r >= 0.0
  {
    var n := RoundedCents(x);
    assert (n as real / 100.0) * 100.0 == n as real;
    n as real / 100.0
  }

  /** An amount already in whole cents is left as it is. */
  lemma Round2OfCents(x: real)
    requires IsCents(x)
    ensures Round2(x) == x
  {
    var n := (x * 100.0).Floor;
    assert x * 100.0 == n as real;
    if x >= 0.0 {
      assert (x * 100.0 + 0.5).Floor == n;
    } else {
      assert (-x * 100.0 + 0.5).Floor == -n;
    }
  }

  /** Rounding twice is rounding once. */
  lemma Round2Idempotent(x: real)
    ensures Round2(Round2(x)) == Round2(x)
  {
    Round2OfCents(Round2(x));
  }
}
