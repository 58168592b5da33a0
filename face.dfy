/**
 * The face record built from one detector tuple (x, y, w, h): centroid
 * offsets, absolute centroid and the optional camera distance estimated by
 * triangle similarity (distance = calibration / w).
 */
module Faces {
  import opened Outcomes
  import opened Numeric

  /** One detector tuple, in pixels. */
  datatype Box = Box(x: int, y: int, w: int, h: int)

  /**
   * A Face. `distance` is the camera distance in tenths of the calibration
   * unit: Some(t) stands for the Python float t / 10, None for a Face whose
   * `distance` attribute was never set.
   */
  datatype Face = Face(
    x: int, y: int, w: int, h: int,
    centroidW: int, centroidH: int,
    centroidX: int, centroidY: int,
    distance: Option<int>)

  /** Python truthiness of the `calibration` argument (None and 0 are false). */
  predicate Truthy(calibration: Option<int>)
  {
    calibration.Some? && calibration.value != 0
  }

  /** round(calibration / w, 1), as a count of tenths. */
  function EstimateDistance(calibration: int, w: int): (tenths: int)
    requires w != 0
    ensures RoundsTo(10.0 * (calibration as real / w as real), tenths)
  {
    RoundHalfEven(10.0 * (calibration as real / w as real))
  }

  /** Face.__init__(cv2_face, calibration). */
  function NewFace(box: Box, calibration: Option<int>): (r: Result<Face>)
    ensures r.Err? <==> Truthy(calibration) && box.w == 0
    ensures r.Err? ==> r.error == ZeroDivision
    ensures r.Ok? ==> var f := r.value;
      f.x == box.x && f.y == box.y && f.w == box.w && f.h == box.h &&
      // floor halves: w // 2 and h // 2
      2 * f.centroidW <= f.w < 2 * f.centroidW + 2 &&
      2 * f.centroidH <= f.h < 2 * f.centroidH + 2 &&
      f.centroidX == f.x + f.centroidW && f.centroidY == f.y + f.centroidH &&
      (f.distance.Some? <==> Truthy(calibration)) &&
      (f.distance.Some? ==>
        RoundsTo(10.0 * (calibration.value as real / f.w as real), f.distance.value))
    ensures r.Ok? && box.w >= 0 && box.h >= 0 ==>
      box.x <= r.value.centroidX <= box.x + box.w &&
      box.y <= r.value.centroidY <= box.y + box.h
  {
    var cw, ch := box.w / 2, box.h / 2;
    if !Truthy(calibration) then
      Ok(Face(box.x, box.y, box.w, box.h, cw, ch, box.x + cw, box.y + ch, None))
    else if box.w == 0 then
      Err(ZeroDivision)
    else
      Ok(Face(box.x, box.y, box.w, box.h, cw, ch, box.x + cw, box.y + ch,
              Some(EstimateDistance(calibration.value, box.w))))
  }

  /** A narrower face is never estimated closer than a wider one (fixed positive calibration). */
  lemma EstimateDistanceMonotone(calibration: int, w1: int, w2: int)
    requires calibration > 0 && 0 < w1 <= w2
    ensures EstimateDistance(calibration, w2) <= EstimateDistance(calibration, w1)
  {
    var c := calibration as real;
    var a, b := c / w1 as real, c / w2 as real;
    assert a * w1 as real == c;
    assert b * w2 as real == c;
    assert b >= 0.0;
    assert b * w1 as real <= b * w2 as real;
    assert b <= a;
    RoundHalfEvenMonotone(10.0 * b, 10.0 * a);
  }

  /** The same statement on Faces built from two boxes. */
  lemma FaceDistanceMonotone(b1: Box, b2: Box, calibration: int)
    requires calibration > 0 && 0 < b1.w <= b2.w
    ensures NewFace(b2, Some(calibration)).value.distance.value
         <= NewFace(b1, Some(calibration)).value.distance.value
  {
    EstimateDistanceMonotone(calibration, b1.w, b2.w);
  }
}
