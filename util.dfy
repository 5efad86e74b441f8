/** The numeric helpers of the optimiser: clamping into a range and drawing
    uniformly between two bounds. `Math.random()` is not modelled; the draw
    `u` it would return is a parameter. */
module Util {
  import opened JsMath

  /** A uniform draw in [0, 1), as `Math.random()` returns. */
  predicate UnitDraw(u: real) {
    0.0 <= u < 1.0
  }

  /** `Math.min(max, Math.max(min, value))`. The outer minimum wins when the
      range is empty (`min > max`). */
  function Clamp(value: real, min: real, max: real): (r: real)
    ensures min <= max ==> min <= r <= max
    ensures min <= value <= max ==> r == value
    ensures min > max ==> r == max
    ensures r <= max
  {
    if max < (if min < value then value else min) then max
    else if min < value then value else min
  }

  /** Clamping twice is clamping once. */
  lemma ClampIdempotent(value: real, min: real, max: real)
    ensures Clamp(Clamp(value, min, max), min, max) == Clamp(value, min, max)
  {
  }

  /** Clamping is monotone in the clamped value. */
  lemma ClampMonotone(v1: real, v2: real, min: real, max: real)
    requires v1 <= v2
    ensures Clamp(v1, min, max) <= Clamp(v2, min, max)
  {
  }

  /** Clamping never moves two values further apart. */
  lemma ClampNonExpansive(v1: real, v2: real, min: real, max: real)
    requires min <= max
    ensures Abs(Clamp(v1, min, max) - Clamp(v2, min, max)) <= Abs(v1 - v2)
  {
  }

  /** `randBetween(min, max)` with the draw `u` of `Math.random()` passed in. */
  function RandBetween(min: real, max: real, u: real): (r: real)
    ensures UnitDraw(u) && min <= max ==> min <= r <= max
    ensures UnitDraw(u) && min < max ==> r < max
    ensures u == 0.0 ==> r == min
  {
    var span := max - min;
    ScaleByDraw(u, span);
    min + u * span
  }

  /** A fraction `u` in [0, 1) of a non-negative span stays inside the span,
      and a positive fraction of a positive span is positive. */
  lemma ScaleByDraw(u: real, span: real)
    ensures UnitDraw(u) && 0.0 <= span ==> 0.0 <= u * span <= span
    ensures UnitDraw(u) && 0.0 < span ==> u * span < span
    ensures 0.0 < u && 0.0 < span ==> 0.0 < u * span
  {
    if UnitDraw(u) && 0.0 <= span {
      assert span - u * span == (1.0 - u) * span;
    }
  }

  /** A symmetric jitter `randBetween(-j, j)` stays within `j` of zero,
      and the mirrored draws `u` and `1 - u` give opposite jitters. */
  lemma SymmetricJitter(j: real, u: real)
    requires 0.0 <= j
    ensures UnitDraw(u) ==> Abs(RandBetween(-j, j, u)) <= j
    ensures RandBetween(-j, j, 1.0 - u) == -RandBetween(-j, j, u)
  {
    assert (1.0 - u) * (j - -j) == (j - -j) - u * (j - -j);
  }
}
