/**
 * The stepping helpers of Shared/Scripts/CraterMath.cs, over `real`: move a
 * value towards a target, or back into a range, by at most a given rate.
 */
module CraterMath {

  function Abs(x: real): real
  {
    if x < 0.0 then -x else x
  }

  /** `x` lies between `a` and `b` inclusive, in whichever order they come. */
  predicate Between(x: real, a: real, b: real)
  {
    (a <= x <= b) || (b <= x <= a)
  }

  /**
   * `MoveTo`: the destination once it is closer than `rate`, otherwise one
   * step of `rate` towards it. For a non-negative rate the result never
   * overshoots and never ends further from the destination.
   */
  function MoveTo(input: real, destination: real, rate: real): (r: real)
    ensures rate >= 0.0 ==> Between(r, input, destination)
    ensures rate >= 0.0 ==> Abs(destination - r) <= Abs(destination - input)
  {
    var delta := destination - input;
    if Abs(delta) < rate then destination
    else input + (if delta < 0.0 then -rate else rate)
  }

  /** Closer than `rate`, the destination is reached. */
  lemma MoveToSnaps(input: real, destination: real, rate: real)
    requires Abs(destination - input) < rate
    ensures MoveTo(input, destination, rate) == destination
  {
  }

  /** Otherwise the step is exactly `rate`, in the destination's direction. */
  lemma MoveToSteps(input: real, destination: real, rate: real)
    requires Abs(destination - input) >= rate
    ensures destination < input ==> MoveTo(input, destination, rate) == input - rate
    ensures destination >= input ==> MoveTo(input, destination, rate) == input + rate
  {
  }

  /**
   * Already at the destination, a positive rate stays there; a zero rate also
   * stays, as the step is zero. (A negative rate moves away: the source asks
   * for a positive one.)
   */
  lemma MoveToFixedPoint(destination: real, rate: real)
    requires rate >= 0.0
    ensures MoveTo(destination, destination, rate) == destination
  {
  }

  /**
   * `ClampTowards`: inside `[min, max]` the input is kept; above `max` it steps
   * down by `rate`, snapping to `max` when within `rate`; below `min` it steps
   * up symmetrically. With a non-negative rate it never crosses the bound.
   */
  function ClampTowards(input: real, min: real, max: real, rate: real): (r: real)
    ensures !(input > max) && !(input < min) ==> r == input
    ensures input > max && rate >= 0.0 ==> max <= r <= input
    ensures input > max ==> r == max || r == input - rate
    ensures input <= max && input < min && rate >= 0.0 ==> input <= r <= min
    ensures input <= max && input < min ==> r == min || r == input + rate
  {
    if input > max then
      var delta := input - max;
      if delta < rate then max else input - rate
    else if input < min then
      var delta := input - min;
      if delta > -rate then min else input + rate
    else input
  }

  /** Within `rate` of the violated bound, the result is that bound; further away, one full step. */
  lemma ClampTowardsSnaps(input: real, min: real, max: real, rate: real)
    ensures input > max ==> (ClampTowards(input, min, max, rate) == max <==> input - max < rate || input - rate == max)
    ensures input <= max && input < min ==>
              (ClampTowards(input, min, max, rate) == min <==> min - input < rate || input + rate == min)
  {
  }
}
