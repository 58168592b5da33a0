/**
 * social_distancing.py without its OpenCV calls: the per-frame loop that
 * builds a Face per detection and compares it with every face collected
 * before it, the people-count message, and the calibration run.
 */
module SocialDistancing {
  import opened Outcomes
  import opened Numeric
  import opened Faces
  import opened PeopleCounter
  import opened Pairs
  import opened Detections

  /**
   * One call of distance_in_space(face, other_face): `newer` and `older` are
   * the detection indices of face and other_face, `distance` is in
   * hundredths, `violation` is the threshold test that draws the red line.
   */
  datatype Comparison = Comparison(newer: nat, older: nat, distance: nat, violation: bool)

  /** What one frame leaves behind: the `faces` list and the comparisons made. */
  datatype Frame = Frame(faces: seq<Face>, comparisons: seq<Comparison>)

  predicate Measured(faces: seq<Face>)
  {
    forall j :: 0 <= j < |faces| ==> faces[j].distance.Some?
  }

  /** Every face that takes part in a comparison has a distance. */
  predicate Comparable(faces: seq<Face>)
  {
    |faces| <= 1 || Measured(faces)
  }

  /** A pair is flagged exactly when its distance is strictly below the threshold. */
  function Compare(i: nat, k: nat, face: Face, other: Face, threshold: int): (c: Comparison)
    requires face.distance.Some? && other.distance.Some?
    ensures c.newer == i && c.older == k
    ensures DistanceInSpace(face, other) == Ok(c.distance)
    ensures c.violation <==> c.distance as real / 100.0 < threshold as real
  {
    var d := DistanceInSpace(face, other).value;
    Comparison(i, k, d, d < 100 * threshold)
  }

  function CompareAt(faces: seq<Face>, threshold: int, p: (nat, nat)): Comparison
    requires p.1 < p.0 < |faces| && Comparable(faces)
  {
    Compare(p.0, p.1, faces[p.0], faces[p.1], threshold)
  }

  /** The comparisons a frame makes, in the order of Pairs.Enumeration. */
  function Comparisons(faces: seq<Face>, threshold: int): (cs: seq<Comparison>)
    requires Comparable(faces)
  {
    var e := Enumeration(|faces|);
    seq(|e|, j requires 0 <= j < |e| => CompareAt(faces, threshold, e[j]))
  }

  /** The comparisons of the newer face, detection i, with the faces before it. */
  function NewerRow(i: nat, face: Face, earlier: seq<Face>, threshold: int): seq<Comparison>
    requires earlier != [] ==> face.distance.Some? && Measured(earlier)
  {
    seq(|earlier|, k requires 0 <= k < |earlier| => Compare(i, k, face, earlier[k], threshold))
  }

  /** Appending a face adds its comparisons with every earlier face, after the old ones. */
  lemma ComparisonsSnoc(faces: seq<Face>, face: Face, threshold: int)
    requires Comparable(faces + [face])
    ensures Comparable(faces)
    ensures faces != [] ==> face.distance.Some? && Measured(faces)
    ensures Comparisons(faces + [face], threshold)
         == Comparisons(faces, threshold) + NewerRow(|faces|, face, faces, threshold)
  {
    var n := |faces|;
    var all := faces + [face];
    if n > 0 {
      assert all[n] == face;
      assert forall j :: 0 <= j < n ==> faces[j] == all[j];
    }
    var lhs, prev, row := Comparisons(all, threshold), Comparisons(faces, threshold),
      NewerRow(n, face, faces, threshold);
    assert |lhs| == |prev| + |row|;
    forall j | 0 <= j < |lhs|
      ensures lhs[j] == (prev + row)[j]
    {
      if j < |prev| {
        assert Enumeration(n + 1)[j] == Enumeration(n)[j];
      }
    }
  }

  /**
   * When the frame's loop raises instead of finishing: a zero width divides
   * by zero, and without a calibration the first face's label already reads
   * the missing distance.
   */
  predicate FrameFails(boxes: seq<Box>, calibration: int)
  {
    (calibration != 0 && exists j :: 0 <= j < |boxes| && boxes[j].w == 0) ||
    (calibration == 0 && boxes != [])
  }

  /** The body of main_loop for one frame of detections. */
  method ProcessFrame(boxes: seq<Box>, calibration: int, threshold: int) returns (r: Result<Frame>)
    ensures r.Err? <==> FrameFails(boxes, calibration)
    ensures r.Err? ==> r.error == if calibration != 0 then ZeroDivision else MissingDistance
    ensures r.Ok? ==> (|r.value.faces| == |boxes| &&
      forall j :: 0 <= j < |boxes| ==> NewFace(boxes[j], Some(calibration)) == Ok(r.value.faces[j]))
    ensures r.Ok? ==> (Measured(r.value.faces) &&
      r.value.comparisons == Comparisons(r.value.faces, threshold))
  {
    var faces: seq<Face> := [];
    var comparisons: seq<Comparison> := [];
    for i := 0 to |boxes|
      invariant |faces| == i
      invariant forall j :: 0 <= j < i ==> NewFace(boxes[j], Some(calibration)) == Ok(faces[j])
      invariant calibration != 0 ==> forall j :: 0 <= j < i ==> boxes[j].w != 0
      invariant calibration == 0 ==> i == 0
      invariant Measured(faces)
      invariant comparisons == Comparisons(faces, threshold)
    {
      var made := NewFace(boxes[i], Some(calibration));
      if made.Err? {
        return Err(made.error);
      }
      var face := made.value;
      // the label drawn under the box formats face.distance
      if face.distance.None? {
        return Err(MissingDistance);
      }
      var row := CompareWithEarlier(i, face, faces, threshold);
      comparisons := comparisons + row.value;
      ComparisonsSnoc(faces, face, threshold);
      faces := faces + [face];
    }
    r := Ok(Frame(faces, comparisons));
  }

  /**
   * The inner `for other_face in faces` loop for the newer face, detection i:
   * it fails on the first comparison when a face has no distance.
   */
  method CompareWithEarlier(i: nat, face: Face, faces: seq<Face>, threshold: int)
    returns (r: Result<seq<Comparison>>)
    requires faces != [] && face.distance.Some? ==> Measured(faces)
    ensures r.Err? <==> faces != [] && face.distance.None?
    ensures r.Err? ==> r.error == MissingDistance
    ensures r.Ok? ==> r.value == NewerRow(i, face, faces, threshold)
  {
    var row: seq<Comparison> := [];
    for k := 0 to |faces|
      invariant k > 0 ==> face.distance.Some?
      invariant row == NewerRow(i, face, faces[..k], threshold)
    {
      var d := DistanceInSpace(face, faces[k]);
      if d.Err? {
        return Err(d.error);
      }
      row := row + [Comparison(i, k, d.value, d.value < 100 * threshold)];
      assert NewerRow(i, face, faces[..k + 1], threshold)
          == NewerRow(i, face, faces[..k], threshold) + [Compare(i, k, face, faces[k], threshold)];
    }
    assert faces[..|faces|] == faces;
    r := Ok(row);
  }

  /** A frame's comparisons: n(n-1)/2 of them, each newer face against an older one. */
  lemma ComparisonsShape(faces: seq<Face>, threshold: int)
    requires Comparable(faces)
    ensures 2 * |Comparisons(faces, threshold)| == |faces| * (|faces| - 1)
    ensures forall j :: 0 <= j < |Comparisons(faces, threshold)| ==>
      Comparisons(faces, threshold)[j].older < Comparisons(faces, threshold)[j].newer < |faces|
  {
    EnumerationLength(|faces|);
  }

  /** Each pair of distinct detections is compared exactly once, at a fixed position. */
  lemma ComparisonOfPair(faces: seq<Face>, threshold: int, i: nat, k: nat)
    requires Comparable(faces) && k < i < |faces|
    ensures var cs := Comparisons(faces, threshold);
      exists j :: 0 <= j < |cs| && cs[j].newer == i && cs[j].older == k &&
        (forall j' :: 0 <= j' < |cs| && cs[j'].newer == i && cs[j'].older == k ==> j' == j)
  {
    var cs := Comparisons(faces, threshold);
    var e := Enumeration(|faces|);
    EnumerationAt(|faces|, i, k);
    var j := |Enumeration(i)| + k;
    assert cs[j] == CompareAt(faces, threshold, e[j]);
    forall j' | 0 <= j' < |cs| && cs[j'].newer == i && cs[j'].older == k
      ensures j' == j
    {
      EnumerationDistinct(|faces|, j, j');
    }
  }

  // ---- the people-count message ----

  function DigitChar(d: nat): char
    requires d < 10
  {
    ('0' as int + d) as char
  }

  predicate IsDigits(s: string)
  {
    forall i :: 0 <= i < |s| ==> '0' <= s[i] <= '9'
  }

  /** The value a string of decimal digits denotes. */
  function DecimalValue(s: string): nat
    requires IsDigits(s)
  {
    if s == [] then 0 else 10 * DecimalValue(s[..|s| - 1]) + (s[|s| - 1] - '0') as nat
  }

  /** str(n) for n >= 0: decimal digits without a leading zero. */
  function NatToString(n: nat): (s: string)
    ensures |s| >= 1 && IsDigits(s)
    ensures |s| > 1 ==> s[0] != '0'
  {
    if n < 10 then [DigitChar(n)] else NatToString(n / 10) + [DigitChar(n % 10)]
  }

  lemma {:induction false} NatToStringValue(n: nat)
    ensures DecimalValue(NatToString(n)) == n
  {
    if n >= 10 {
      var prefix := NatToString(n / 10);
      var s := prefix + [DigitChar(n % 10)];
      assert NatToString(n) == s;
      NatToStringValue(n / 10);
      assert s[..|s| - 1] == prefix;
      assert DecimalValue(s) == 10 * DecimalValue(prefix) + n % 10;
    }
  }

  /** The "{} {} detected" line printed for every frame. */
  function PeopleMessage(total: nat): (m: string)
    ensures total == 0 ==> m == "No people detected"
    ensures total == 1 ==> m == "1 person detected"
    ensures total >= 2 ==> m == NatToString(total) + " people detected"
  {
    (if total > 0 then NatToString(total) else "No") + " " +
    (if total == 1 then "person" else "people") + " detected"
  }

  // ---- calibration ----

  /** calibrate reads this many frames: range(1, 1001). */
  const FrameBudget: nat := 1000

  /** The printed int(round(total * distance / counter)). */
  function CalibrationValue(total: int, counter: int, knownDistance: real): int
    requires counter != 0
  {
    RoundHalfEven(total as real * knownDistance / counter as real)
  }

  /**
   * calibrate(distance): the `for counter in range(1, 1001)` header rebinds
   * `counter` every frame, so the divisor ends up as the last frame number
   * plus that frame's detections, not the number of samples.
   */
  method Calibrate(frames: seq<seq<Box>>, knownDistance: real) returns (total: int, counter: nat, result: int)
    requires |frames| == FrameBudget
    ensures total == TotalWidth(frames)
    ensures counter == FrameBudget + |frames[FrameBudget - 1]|
    ensures result == CalibrationValue(total, counter, knownDistance)
  {
    total, counter := 0, 0;
    for index := 1 to FrameBudget + 1
      invariant total == TotalWidth(frames[..index - 1])
      invariant index > 1 ==> counter == index - 1 + |frames[index - 2]|
    {
      counter := index;
      var frame := frames[index - 1];
      for j := 0 to |frame|
        invariant counter == index + j
        invariant total == TotalWidth(frames[..index - 1]) + FrameWidth(frame[..j])
      {
        var face := NewFace(frame[j], None).value;
        counter := counter + 1;
        total := total + face.w;
        assert frame[..j + 1][..j] == frame[..j];
      }
      assert frame[..|frame|] == frame;
      assert frames[..index][..index - 1] == frames[..index - 1];
    }
    assert frames[..FrameBudget] == frames;
    result := CalibrationValue(total, counter, knownDistance);
  }

  /** What calibrate evidently means to print: mean width times the known distance. */
  function CalibrationBySamples(frames: seq<seq<Box>>, knownDistance: real): (r: Result<int>)
    ensures r.Err? <==> DetectionCount(frames) == 0
    ensures r.Err? ==> r.error == InsufficientSamples
  {
    var count := DetectionCount(frames);
    if count == 0 then Err(InsufficientSamples)
    else Ok(CalibrationValue(TotalWidth(frames), count, knownDistance))
  }

  /** A reference face seen at width p always calibrates to round(p * distance). */
  lemma CalibrationBySamplesUniform(frames: seq<seq<Box>>, p: int, knownDistance: real)
    requires UniformWidth(frames, p) && DetectionCount(frames) > 0
    ensures CalibrationBySamples(frames, knownDistance) == Ok(RoundHalfEven(p as real * knownDistance))
  {
    UniformCalibrationValue(frames, p, knownDistance);
  }

  lemma UniformCalibrationValue(frames: seq<seq<Box>>, p: int, knownDistance: real)
    requires UniformWidth(frames, p) && DetectionCount(frames) > 0
    ensures CalibrationValue(TotalWidth(frames), DetectionCount(frames), knownDistance)
         == RoundHalfEven(p as real * knownDistance)
  {
    TotalWidthUniform(frames, p);
    CalibrationValueOfProduct(TotalWidth(frames), DetectionCount(frames), p, knownDistance);
  }

  lemma CalibrationValueOfProduct(total: int, counter: int, p: int, knownDistance: real)
    requires counter != 0 && total == p * counter
    ensures CalibrationValue(total, counter, knownDistance) == RoundHalfEven(p as real * knownDistance)
  {
    RealOfProduct(p, counter);
    CalibrationValueOfMean(total, counter, knownDistance, p as real);
  }

  /** A run whose width total is q times its divisor calibrates to round(q * distance). */
  lemma CalibrationValueOfMean(total: int, counter: int, knownDistance: real, q: real)
    requires counter != 0 && total as real == q * counter as real
    ensures CalibrationValue(total, counter, knownDistance) == RoundHalfEven(q * knownDistance)
  {
    assert total as real * knownDistance / counter as real == q * knownDistance;
  }

  /**
   * Casting a product to real; kept apart so CalibrationValueOfProduct meets
   * no int product next to the real division it unfolds.
   */
  lemma RealOfProduct(p: int, n: int)
    ensures (p * n) as real == p as real * n as real
  {
  }

  /** One face of width 100 in each of the 1000 frames. */
  function SteadyRun(): seq<seq<Box>>
  {
    seq(FrameBudget, _ => [Box(0, 0, 100, 100)])
  }

  /**
   * On SteadyRun at distance 200, calibrate divides 100000 * 200 by 1001 and
   * prints 19980, where the mean-width reading gives 20000.
   */
  lemma CalibrateDivisorCounterexample()
    ensures TotalWidth(SteadyRun()) == 100000
    ensures FrameBudget + |SteadyRun()[FrameBudget - 1]| == 1001
    ensures CalibrationValue(100000, 1001, 200.0) == 19980
    ensures CalibrationBySamples(SteadyRun(), 200.0) == Ok(20000)
  {
    var run := SteadyRun();
    DetectionCountOnePerFrame(run);
    TotalWidthUniform(run, 100);
    assert RoundsTo(100000.0 * 200.0 / 1001.0, 19980);
    RoundsToUnique(100000.0 * 200.0 / 1001.0, 19980, RoundHalfEven(100000.0 * 200.0 / 1001.0));
    CalibrationBySamplesUniform(run, 100, 200.0);
    assert RoundsTo(100.0 * 200.0, 20000);
    RoundsToUnique(100.0 * 200.0, 20000, RoundHalfEven(100.0 * 200.0));
  }
}
