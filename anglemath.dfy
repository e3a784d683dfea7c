/**
 * Degree-angle reduction helpers of Caligrapher's Math.js section
 * (`reduceAngleDeg`, `getSmallerAngleDeg`).
 */
module AngleMath {

  function Abs(a: real): real { if a < 0.0 then -a else a }

  function Min(a: real, b: real): real { if a <= b then a else b }

  /**
   * `reduceAngleDeg`: `angle - floor(angle / 360) * 360`, the representative
   * of the angle in [0, 360).
   */
  function ReduceAngleDeg(angle: real): (r: real)
    ensures 0.0 <= r < 360.0
    ensures ((angle - r) / 360.0).Floor as real == (angle - r) / 360.0
  {
    var k := (angle / 360.0).Floor;
    assert k as real <= angle / 360.0 < k as real + 1.0;
    angle - k as real * 360.0
  }

  /** Adding a full turn does not change the reduced angle. */
  lemma ReduceAngleDegPeriodic(angle: real)
    ensures ReduceAngleDeg(angle + 360.0) == ReduceAngleDeg(angle)
  {
    var k := (angle / 360.0).Floor;
    assert (angle + 360.0) / 360.0 == angle / 360.0 + 1.0;
    assert ((angle + 360.0) / 360.0).Floor == k + 1;
  }

  /** An angle already in [0, 360) is its own reduction. */
  lemma ReduceAngleDegFixesRange(angle: real)
    requires 0.0 <= angle < 360.0
    ensures ReduceAngleDeg(angle) == angle
  {
    assert 0.0 <= angle / 360.0 < 1.0;
    assert (angle / 360.0).Floor == 0;
  }

  /** Reduction is idempotent. */
  lemma ReduceAngleDegIdempotent(angle: real)
    ensures ReduceAngleDeg(ReduceAngleDeg(angle)) == ReduceAngleDeg(angle)
  {
    ReduceAngleDegFixesRange(ReduceAngleDeg(angle));
  }

  /**
   * `getSmallerAngleDeg`: for an angle in [-360, 360], an angle in
   * [-180, 180] whose magnitude is the smaller of |angle| and
   * 360 - |angle|, the smaller of the two arcs it describes.
   */
  function GetSmallerAngleDeg(angle: real): (r: real)
    ensures -360.0 <= angle <= 360.0 ==> -180.0 <= r <= 180.0
    ensures -360.0 <= angle <= 360.0 ==> Abs(r) == Min(Abs(angle), 360.0 - Abs(angle))
  {
    if angle > 180.0 then 360.0 - angle
    else if angle < -180.0 then -360.0 - angle
    else angle
  }
}
