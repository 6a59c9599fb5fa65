/**
 * `round(x, 2)` on money, taken on exact reals as rounding to the nearest
 * cent with halves rounded up (Python rounds the nearest binary float, half
 * to even; the model does not reproduce that).
 */
module Rounding {

  function Round2(x: real): (r: real)
  {
    ((x * 100.0 + 0.5).Floor as real) / 100.0
  }

  /** The rounded value is within half a cent of the exact one. */
  lemma Round2Bounds(x: real)
    ensures x - 0.005 < Round2(x) <= x + 0.005
  {
    var f := (x * 100.0 + 0.5).Floor;
    assert (f as real) <= x * 100.0 + 0.5 < (f as real) + 1.0;
  }

  /** A whole number of cents is left as it is. */
  lemma Round2Cents(n: int)
    ensures Round2((n as real) / 100.0) == (n as real) / 100.0
  {
    var x := (n as real) / 100.0;
    assert x * 100.0 + 0.5 == (n as real) + 0.5;
    assert (x * 100.0 + 0.5).Floor == n;
  }
}
