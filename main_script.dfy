/**
 * main.py, the earlier script: get_face_data, the index-based pair loop with
 * its fixed threshold, and the calibration loop that stops on an exact
 * sample count.
 */
module MainScript {
  import opened Outcomes
  import opened Numeric
  import opened Faces
  import opened PeopleCounter
  import opened Pairs
  import opened Detections
  import SocialDistancing

  /** The tuple returned by get_face_data. */
  datatype FaceData = FaceData(
    x: int, y: int, w: int, h: int,
    centroidX: int, centroidY: int,
    centroidW: int, centroidH: int)

  /** int(v / 2): true division, then truncation toward zero. */
  function HalfTowardZero(v: int): (r: int)
    ensures 0 <= v ==> 0 <= 2 * r <= v < 2 * r + 2
    ensures v < 0 ==> v <= 2 * r <= 0 && 2 * r - 2 < v
  {
    if v >= 0 then v / 2 else -((-v) / 2)
  }

  function GetFaceData(box: Box): (d: FaceData)
    ensures d.x == box.x && d.y == box.y && d.w == box.w && d.h == box.h
    ensures d.centroidX == d.x + d.centroidW && d.centroidY == d.y + d.centroidH
    ensures 0 <= box.w ==> d.centroidW == box.w / 2
    ensures 0 <= box.h ==> d.centroidH == box.h / 2
    ensures box.w < 0 ==> box.w <= 2 * d.centroidW <= 0 && 2 * d.centroidW - 2 < box.w
    ensures box.h < 0 ==> box.h <= 2 * d.centroidH <= 0 && 2 * d.centroidH - 2 < box.h
  {
    var cw, ch := HalfTowardZero(box.w), HalfTowardZero(box.h);
    FaceData(box.x, box.y, box.w, box.h, box.x + cw, box.y + ch, cw, ch)
  }

  /** round(calibration / w, 1), in tenths; computed for every face, whatever the calibration. */
  function FaceDistance(calibration: int, w: int): (r: Result<int>)
    ensures r.Err? <==> w == 0
    ensures r.Err? ==> r.error == ZeroDivision
    ensures r.Ok? ==> RoundsTo(10.0 * (calibration as real / w as real), r.value)
  {
    if w == 0 then Err(ZeroDivision) else Ok(EstimateDistance(calibration, w))
  }

  /**
   * The inline distance_between_people, in hundredths: r / 100 is
   * sqrt(frontal + depth) rounded to two decimals.
   */
  function PairDistance(d1: FaceData, tenths1: int, d2: FaceData, tenths2: int): (r: nat)
    ensures IsNearestRoot(
      10000 * (Sq(d1.centroidW - d2.centroidW) + Sq(d1.centroidH - d2.centroidH))
      + 100 * Sq(tenths1 - tenths2), r)
  {
    var frontal := Sq(d1.centroidW - d2.centroidW) + Sq(d1.centroidH - d2.centroidH);
    var ground := Sq(tenths1 - tenths2);
    NearestRoot(10000 * frontal + 100 * ground)
  }

  lemma PairDistanceSymmetric(d1: FaceData, tenths1: int, d2: FaceData, tenths2: int)
    ensures PairDistance(d1, tenths1, d2, tenths2) == PairDistance(d2, tenths2, d1, tenths1)
  {
    var m := 10000 * (Sq(d1.centroidW - d2.centroidW) + Sq(d1.centroidH - d2.centroidH))
      + 100 * Sq(tenths1 - tenths2);
    NearestRootUnique(m, PairDistance(d1, tenths1, d2, tenths2), PairDistance(d2, tenths2, d1, tenths1));
  }

  /** The violation threshold is fixed: `distance_between_people < 150`. */
  const Threshold: int := 150

  predicate NoZeroWidth(boxes: seq<Box>)
  {
    forall j :: 0 <= j < |boxes| ==> boxes[j].w != 0
  }

  /** Detection i (the outer index) against detection k < i (the inner index). */
  function MainCompare(boxes: seq<Box>, calibration: int, p: (nat, nat)): (c: SocialDistancing.Comparison)
    requires p.1 < p.0 < |boxes| && NoZeroWidth(boxes)
    ensures c.newer == p.0 && c.older == p.1
    ensures c.distance == PairDistance(GetFaceData(boxes[p.0]), FaceDistance(calibration, boxes[p.0].w).value,
                                       GetFaceData(boxes[p.1]), FaceDistance(calibration, boxes[p.1].w).value)
    ensures c.violation <==> c.distance as real / 100.0 < Threshold as real
  {
    var d := PairDistance(GetFaceData(boxes[p.0]), FaceDistance(calibration, boxes[p.0].w).value,
                          GetFaceData(boxes[p.1]), FaceDistance(calibration, boxes[p.1].w).value);
    SocialDistancing.Comparison(p.0, p.1, d, d < 100 * Threshold)
  }

  function MainComparisons(boxes: seq<Box>, calibration: int): seq<SocialDistancing.Comparison>
    requires NoZeroWidth(boxes)
  {
    var e := Enumeration(|boxes|);
    seq(|e|, j requires 0 <= j < |e| => MainCompare(boxes, calibration, e[j]))
  }

  function MainRow(boxes: seq<Box>, calibration: int, i: nat): seq<SocialDistancing.Comparison>
    requires i < |boxes| && NoZeroWidth(boxes)
  {
    seq(i, k requires 0 <= k < i => MainCompare(boxes, calibration, (i, k)))
  }

  lemma MainComparisonsSnoc(boxes: seq<Box>, calibration: int, i: nat)
    requires i < |boxes| && NoZeroWidth(boxes)
    ensures NoZeroWidth(boxes[..i]) && NoZeroWidth(boxes[..i + 1])
    ensures MainComparisons(boxes[..i + 1], calibration)
         == MainComparisons(boxes[..i], calibration) + MainRow(boxes, calibration, i)
  {
    var lhs, prev, row := MainComparisons(boxes[..i + 1], calibration),
      MainComparisons(boxes[..i], calibration), MainRow(boxes, calibration, i);
    assert |lhs| == |prev| + |row|;
    forall j | 0 <= j < |lhs|
      ensures lhs[j] == (prev + row)[j]
    {
      if j < |prev| {
        assert Enumeration(i + 1)[j] == Enumeration(i)[j];
      }
    }
  }

  /** The body of main_loop for one frame of detections. */
  method ProcessFrame(boxes: seq<Box>, calibration: int) returns (r: Result<seq<SocialDistancing.Comparison>>)
    ensures r.Err? <==> !NoZeroWidth(boxes)
    ensures r.Err? ==> r.error == ZeroDivision
    ensures r.Ok? ==> r.value == MainComparisons(boxes, calibration)
  {
    var comparisons: seq<SocialDistancing.Comparison> := [];
    for i := 0 to |boxes|
      invariant NoZeroWidth(boxes[..i])
      invariant comparisons == MainComparisons(boxes[..i], calibration)
    {
      var data1 := GetFaceData(boxes[i]);
      var distance1 := FaceDistance(calibration, data1.w);
      if distance1.Err? {
        return Err(distance1.error);
      }
      assert NoZeroWidth(boxes[..i + 1]);
      if i != 0 {
        for k := 0 to i
          invariant comparisons == MainComparisons(boxes[..i], calibration)
                                   + MainRow(boxes[..i + 1], calibration, i)[..k]
        {
          var data2 := GetFaceData(boxes[k]);
          var distance2 := FaceDistance(calibration, data2.w).value;
          var d := PairDistance(data1, distance1.value, data2, distance2);
          comparisons := comparisons + [SocialDistancing.Comparison(i, k, d, d < 100 * Threshold)];
        }
      }
      MainComparisonsSnoc(boxes[..i + 1], calibration, i);
      assert boxes[..i + 1][..i] == boxes[..i];
      assert boxes[..i + 1][..i + 1] == boxes[..i + 1];
    }
    assert boxes[..|boxes|] == boxes;
    r := Ok(comparisons);
  }

  // ---- agreement with the Face / PeopleCounter version ----

  /**
   * For a non-zero calibration, positive widths and non-negative heights, the
   * inline computation equals PeopleCounter.distance_in_space.
   */
  lemma PairDistanceAgrees(b1: Box, b2: Box, calibration: int)
    requires calibration != 0 && b1.w > 0 && b2.w > 0 && b1.h >= 0 && b2.h >= 0
    ensures DistanceInSpace(NewFace(b1, Some(calibration)).value, NewFace(b2, Some(calibration)).value)
         == Ok(PairDistance(GetFaceData(b1), FaceDistance(calibration, b1.w).value,
                            GetFaceData(b2), FaceDistance(calibration, b2.w).value))
  {
  }

  /** The faces social_distancing.py builds for the same frame and calibration. */
  function FacesOf(boxes: seq<Box>, calibration: int): (faces: seq<Face>)
    requires calibration != 0 && NoZeroWidth(boxes)
    ensures |faces| == |boxes| && SocialDistancing.Measured(faces)
    ensures forall j :: 0 <= j < |boxes| ==> NewFace(boxes[j], Some(calibration)) == Ok(faces[j])
  {
    seq(|boxes|, j requires 0 <= j < |boxes| => NewFace(boxes[j], Some(calibration)).value)
  }

  /**
   * With a non-zero calibration and proper boxes both scripts make the same
   * comparisons in the same order and flag the same pairs at threshold 150.
   */
  lemma FrameAgrees(boxes: seq<Box>, calibration: int)
    requires calibration != 0
    requires forall j :: 0 <= j < |boxes| ==> boxes[j].w > 0 && boxes[j].h >= 0
    ensures MainComparisons(boxes, calibration)
         == SocialDistancing.Comparisons(FacesOf(boxes, calibration), Threshold)
  {
    var faces := FacesOf(boxes, calibration);
    var e := Enumeration(|boxes|);
    var lhs, rhs := MainComparisons(boxes, calibration), SocialDistancing.Comparisons(faces, Threshold);
    forall j | 0 <= j < |e|
      ensures lhs[j] == rhs[j]
    {
      PairDistanceAgrees(boxes[e[j].0], boxes[e[j].1], calibration);
    }
  }

  /**
   * Negative heights are where the scripts part: int(-3 / 2) truncates to -1,
   * -3 // 2 floors to -2, so the offsets and hence the pair distances differ.
   */
  lemma NegativeHeightDiverges()
    ensures GetFaceData(Box(0, 0, 10, -3)).centroidH == -1
    ensures NewFace(Box(0, 0, 10, -3), Some(100)).value.centroidH == -2
    ensures PairDistance(GetFaceData(Box(0, 0, 10, -3)), 100, GetFaceData(Box(0, 0, 10, 0)), 100) == 100
    ensures DistanceInSpace(NewFace(Box(0, 0, 10, -3), Some(100)).value, NewFace(Box(0, 0, 10, 0), Some(100)).value)
         == Ok(200)
  {
    var d1, d2 := GetFaceData(Box(0, 0, 10, -3)), GetFaceData(Box(0, 0, 10, 0));
    assert d1.centroidW == d2.centroidW == 5 && d1.centroidH == -1 && d2.centroidH == 0;
    NearestRootUnique(10000, PairDistance(d1, 100, d2, 100), 100);
    NegativeHeightFaces(NewFace(Box(0, 0, 10, -3), Some(100)).value, NewFace(Box(0, 0, 10, 0), Some(100)).value);
  }

  /** Two measured faces whose offsets differ by 2 in height only are 2.00 apart. */
  lemma NegativeHeightFaces(f1: Face, f2: Face)
    requires f1.centroidW == f2.centroidW && f1.centroidH == -2 && f2.centroidH == 0
    requires f1.distance.Some? && f1.distance == f2.distance
    ensures DistanceInSpace(f1, f2) == Ok(200)
  {
    assert DistanceFromCameraSquared(f1, f2) == 4;
    assert DistanceFromGroundSquared(f1, f2) == Ok(0);
    NearestRootUnique(40000, DistanceInSpace(f1, f2).value, 200);
  }

  /**
   * At calibration 0 the scripts part: main.py still computes round(0 / w, 1),
   * while social_distancing.py builds Faces without a distance, so
   * distance_in_space raises.
   */
  lemma ZeroCalibrationDiverges()
    ensures FaceDistance(0, 100) == Ok(0)
    ensures DistanceInSpace(NewFace(Box(0, 0, 100, 100), Some(0)).value,
                            NewFace(Box(50, 50, 120, 120), Some(0)).value) == Err(MissingDistance)
  {
    assert RoundsTo(10.0 * (0 as real / 100 as real), 0);
    RoundsToUnique(10.0 * (0 as real / 100 as real), 0, EstimateDistance(0, 100));
  }

  // ---- calibration ----

  /** calibrate stops once exactly this many detections have been counted. */
  const SampleTarget: nat := 1000

  /**
   * calibrate over a finite prefix of the camera stream: Some(mean width)
   * once the count equals SampleTarget after a frame, None when the prefix
   * runs out first (the script would go on reading frames).
   */
  method Calibrate(frames: seq<seq<Box>>) returns (result: Option<real>, read: nat)
    ensures read <= |frames|
    ensures result.Some? <==>
      exists j :: 1 <= j <= |frames| && DetectionCount(frames[..j]) == SampleTarget
    ensures result.Some? ==>
      1 <= read && DetectionCount(frames[..read]) == SampleTarget &&
      (forall j :: 1 <= j < read ==> DetectionCount(frames[..j]) != SampleTarget) &&
      result.value == TotalWidth(frames[..read]) as real / SampleTarget as real
    ensures result.None? ==> read == |frames|
  {
    var counter, total := 0, 0;
    read := 0;
    while read < |frames|
      invariant read <= |frames|
      invariant counter == DetectionCount(frames[..read]) && total == TotalWidth(frames[..read])
      invariant forall j :: 1 <= j <= read ==> DetectionCount(frames[..j]) != SampleTarget
    {
      var frame := frames[read];
      for i := 0 to |frame|
        invariant counter == DetectionCount(frames[..read]) + i
        invariant total == TotalWidth(frames[..read]) + FrameWidth(frame[..i])
      {
        var data := GetFaceData(frame[i]);
        counter := counter + 1;
        total := total + data.w;
        assert frame[..i + 1][..i] == frame[..i];
      }
      assert frame[..|frame|] == frame;
      assert frames[..read + 1][..read] == frames[..read];
      read := read + 1;
      if counter == SampleTarget {
        return Some(total as real / counter as real), read;
      }
    }
    result := None;
  }

  /**
   * The printed figure is the mean width: a reference face always seen at
   * width p prints p, for whatever prefix of the stream the loop stopped at.
   */
  lemma CalibrateMeanWidth(frames: seq<seq<Box>>, p: int, read: nat)
    requires UniformWidth(frames, p) && read <= |frames|
    requires DetectionCount(frames[..read]) == SampleTarget
    ensures TotalWidth(frames[..read]) as real / SampleTarget as real == p as real
  {
    UniformWidthPrefix(frames, p, read);
    TotalWidthUniform(frames[..read], p);
  }

  /** Once a frame carries the count past SampleTarget, no later frame boundary meets it. */
  lemma OvershootNeverStops(frames: seq<seq<Box>>, j: nat)
    requires j <= |frames| && DetectionCount(frames[..j]) > SampleTarget
    ensures forall j' :: j <= j' <= |frames| ==> DetectionCount(frames[..j']) != SampleTarget
  {
    forall j' | j <= j' <= |frames|
      ensures DetectionCount(frames[..j']) != SampleTarget
    {
      DetectionCountMonotone(frames, j, j');
    }
  }

  /** The stop the loop evidently intends: the first frame boundary at or past SampleTarget. */
  function FirstFrameReaching(frames: seq<seq<Box>>, j: nat): (r: Option<nat>)
    requires 1 <= j
    ensures r.Some? ==>
      j <= r.value <= |frames| && DetectionCount(frames[..r.value]) >= SampleTarget &&
      forall j' :: j <= j' < r.value ==> DetectionCount(frames[..j']) < SampleTarget
    ensures r.None? ==> forall j' :: j <= j' <= |frames| ==> DetectionCount(frames[..j']) < SampleTarget
    decreases |frames| + 1 - j
  {
    if j > |frames| then None
    else if DetectionCount(frames[..j]) >= SampleTarget then Some(j)
    else FirstFrameReaching(frames, j + 1)
  }

  /** The corrected stop is always reached once the stream holds enough detections. */
  lemma FirstFrameReachingStops(frames: seq<seq<Box>>)
    requires DetectionCount(frames) >= SampleTarget
    ensures FirstFrameReaching(frames, 1).Some?
  {
    assert frames[..|frames|] == frames;
  }

  /** 999 detections in one frame, then two: the count goes 999, 1001. */
  function OvershootRun(): seq<seq<Box>>
  {
    [seq(999, _ => Box(0, 0, 100, 100)), [Box(0, 0, 100, 100), Box(200, 0, 100, 100)]]
  }

  /** On OvershootRun calibrate never meets its stop, the corrected stop comes after frame 2. */
  lemma OvershootCounterexample()
    ensures forall j :: 1 <= j <= |OvershootRun()| ==> DetectionCount(OvershootRun()[..j]) != SampleTarget
    ensures FirstFrameReaching(OvershootRun(), 1) == Some(2)
  {
    var run := OvershootRun();
    assert run[..1] == [run[0]];
    assert run[..2][..1] == run[..1];
    assert run[..2] == run;
    assert DetectionCount(run[..1]) == 999;
    assert DetectionCount(run[..2]) == 1001;
  }
}
