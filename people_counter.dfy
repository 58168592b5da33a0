/**
 * PeopleCounter: the 3-D distance between two faces, from the difference of
 * their centroid offsets (the plane parallel to the camera) and of their
 * camera distances (the plane parallel to the ground).
 */
module PeopleCounter {
  import opened Outcomes
  import opened Numeric
  import opened Faces

  /** _distance_from_camera_squared: built from the centroid offsets, not the centroids. */
  function DistanceFromCameraSquared(f1: Face, f2: Face): (r: nat)
    ensures r == 0 <==> f1.centroidW == f2.centroidW && f1.centroidH == f2.centroidH
  {
    Sq(f1.centroidW - f2.centroidW) + Sq(f1.centroidH - f2.centroidH)
  }

  /**
   * _distance_from_ground_squared, in hundredths: the camera distances are
   * tenths, so their squared difference is a whole number of hundredths.
   * A face without a distance raises AttributeError.
   */
  function DistanceFromGroundSquared(f1: Face, f2: Face): (r: Result<nat>)
    ensures r.Err? <==> f1.distance.None? || f2.distance.None?
    ensures r.Err? ==> r.error == MissingDistance
    ensures r.Ok? ==>
      var diff := f1.distance.value as real / 10.0 - f2.distance.value as real / 10.0;
      r.value as real / 100.0 == diff * diff &&
      (r.value == 0 <==> f1.distance.value == f2.distance.value)
  {
    if f1.distance.None? || f2.distance.None? then Err(MissingDistance)
    else
      var d := f1.distance.value - f2.distance.value;
      assert (d as real / 10.0) * (d as real / 10.0) == (d * d) as real / 100.0;
      Ok(Sq(d))
  }

  /**
   * distance_in_space, in hundredths: r / 100 is sqrt(F + G / 100) rounded to
   * two decimals, where F is the frontal and G / 100 the depth term.
   */
  function DistanceInSpace(f1: Face, f2: Face): (r: Result<nat>)
    ensures r.Err? <==> f1.distance.None? || f2.distance.None?
    ensures r.Err? ==> r.error == MissingDistance
    ensures r.Ok? ==>
      IsNearestRoot(10000 * DistanceFromCameraSquared(f1, f2)
                    + 100 * DistanceFromGroundSquared(f1, f2).value, r.value)
  {
    var ground := DistanceFromGroundSquared(f1, f2);
    if ground.Err? then Err(ground.error)
    else Ok(NearestRoot(10000 * DistanceFromCameraSquared(f1, f2) + 100 * ground.value))
  }

  /** Both terms are symmetric in the two faces, the depth term including its error case. */
  lemma TermsSymmetric(f1: Face, f2: Face)
    ensures DistanceFromCameraSquared(f1, f2) == DistanceFromCameraSquared(f2, f1)
    ensures DistanceFromGroundSquared(f1, f2) == DistanceFromGroundSquared(f2, f1)
  {
    SqNegate(f1.centroidW - f2.centroidW);
    SqNegate(f1.centroidH - f2.centroidH);
    if f1.distance.Some? && f2.distance.Some? {
      SqNegate(f1.distance.value - f2.distance.value);
    }
  }

  lemma DistanceInSpaceSymmetric(f1: Face, f2: Face)
    ensures DistanceInSpace(f1, f2) == DistanceInSpace(f2, f1)
  {
    TermsSymmetric(f1, f2);
  }

  lemma DistanceInSpaceSelf(f: Face)
    requires f.distance.Some?
    ensures DistanceInSpace(f, f) == Ok(0)
  {
    var r := DistanceInSpace(f, f).value;
    assert IsNearestRoot(0, r);
    NearestRootUnique(0, r, 0);
  }

  /** Only w, h and the distance matter: moving a box leaves every pair distance alone. */
  lemma DistanceInSpaceIgnoresPosition(b1: Box, b1': Box, b2: Box, calibration: Option<int>)
    requires b1.w == b1'.w && b1.h == b1'.h
    requires NewFace(b1, calibration).Ok? && NewFace(b2, calibration).Ok?
    ensures NewFace(b1', calibration).Ok?
    ensures DistanceInSpace(NewFace(b1, calibration).value, NewFace(b2, calibration).value)
         == DistanceInSpace(NewFace(b1', calibration).value, NewFace(b2, calibration).value)
  {
  }

  /** Faces that share offsets and distance are at distance 0 wherever they are on screen. */
  lemma DistanceInSpaceZero(f1: Face, f2: Face)
    requires f1.distance.Some? && f2.distance.Some?
    ensures DistanceInSpace(f1, f2) == Ok(0) <==>
      f1.centroidW == f2.centroidW && f1.centroidH == f2.centroidH && f1.distance == f2.distance
  {
    var m := 10000 * DistanceFromCameraSquared(f1, f2) + 100 * DistanceFromGroundSquared(f1, f2).value;
    var r := DistanceInSpace(f1, f2).value;
    if m == 0 {
      NearestRootUnique(0, r, 0);
    } else {
      assert !IsNearestRoot(m, 0);
    }
  }
}
