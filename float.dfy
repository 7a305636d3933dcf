/**
 * The few `f32` operations the calibration code relies on (`abs`, `signum`,
 * `trunc`, `fract`), modelled over exact reals: there is no rounding error,
 * no NaN and no negative zero here.
 */
module Float {

  /** `f32::abs` */
  function Abs(x: real): (r: real)
    ensures r >= 0.0
    ensures r == x || r == -x
  {
    if x >= 0.0 then x else -x
  }

  /** `f32::signum`: 1.0 for zero and for positive numbers, -1.0 for negative ones. */
  function Signum(x: real): (r: real)
    ensures r == 1.0 <==> x >= 0.0
    ensures r == -1.0 <==> x < 0.0
    ensures r * Abs(x) == x
  {
    if x >= 0.0 then 1.0 else -1.0
  }

  /** `f32::trunc`: the integer part of `x`, rounded toward zero. */
  function Trunc(x: real): (r: int)
    ensures Abs(r as real) <= Abs(x) < Abs(r as real) + 1.0
    ensures x >= 0.0 ==> r >= 0
    ensures x <= 0.0 ==> r <= 0
  {
    if x >= 0.0 then x.Floor else -((-x).Floor)
  }

  /** `f32::fract`: what is left of `x` once its integer part is taken away. */
  function Fract(x: real): (r: real)
    ensures x == Trunc(x) as real + r
    ensures -1.0 < r < 1.0
    ensures x >= 0.0 ==> r >= 0.0
    ensures x <= 0.0 ==> r <= 0.0
  {
    x - Trunc(x) as real
  }

  /** `x` lies on the 0.5-degree grid the valve accepts: it is a multiple of 0.5. */
  predicate OnHalfGrid(x: real)
  {
    (2.0 * x).Floor as real == 2.0 * x
  }

  /** Every whole number of half degrees is on the grid. */
  lemma HalvesOnHalfGrid(k: int)
    ensures OnHalfGrid(k as real / 2.0)
  {
    assert 2.0 * (k as real / 2.0) == k as real;
  }
}
