/** `MathHelper.clamp` (src/util/math_helper.js). */
module MathHelper {

  /** Clamps `input` between `min` and `max`; `max` is tested first, so
      bounds given the wrong way round yield `max` above `max` and `min`
      everywhere else. */
  function Clamp(input: real, min: real, max: real): (r: real)
    ensures input > max ==> r == max
    ensures min <= input <= max ==> r == input
    ensures input < min && input <= max ==> r == min
    ensures min <= max ==> min <= r <= max
    ensures r == input || r == min || r == max
  {
    if input > max then max else if input < min then min else input
  }

  /** Clamping twice is clamping once. */
  lemma ClampIdempotent(input: real, min: real, max: real)
    requires min <= max
    ensures Clamp(Clamp(input, min, max), min, max) == Clamp(input, min, max)
  {
  }

  /** With `min > max` no input comes back unchanged unless it equals a bound. */
  lemma ClampInvertedBounds(input: real, min: real, max: real)
    requires min > max
    ensures Clamp(input, min, max) == (if input > max then max else min)
  {
  }
}
