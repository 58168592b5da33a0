# Social distancing demo: face geometry and proximity, verified

The program watches a webcam and measures social distance. An OpenCV cascade
detects faces, and each detection is a box `(x, y, w, h)` in pixels. The
program turns each box into a face record:

- centroid offsets `w // 2`, `h // 2`;
- an absolute centroid;
- a camera distance by triangle similarity (`calibration / w`, rounded to one
  decimal).

Every new face is compared with the faces already seen in the same frame.
The pair distance is `sqrt(frontal + depth)` rounded to two decimals, where:

- the frontal term is the squared difference of the centroid offsets;
- the depth term is the squared difference of the camera distances.

A pair closer than the threshold is flagged. A separate calibration run
averages the widths of a reference face over many frames and prints the
calibration number.

The repository holds two versions of all this:

- `social_distancing.py` with the `people_counter` package (`Face`,
  `PeopleCounter`);
- the older `main.py`, which computes the same quantities inline, uses a fixed
  threshold of 150, and has a different calibration loop.

This project models both versions, with the OpenCV calls removed. A frame is
a `seq<Box>` and a calibration run is a `seq<seq<Box>>`.

Modules:

- `Outcomes`: `Option`, `Result`, and the exceptions the code can end in.
  - `ZeroDivision`: a zero width.
  - `MissingDistance`: the `AttributeError` of a `Face` built without a
    calibration.
  - `InsufficientSamples`: used only by the corrected calibration.
- `Numeric`: Python's `round` (ties to even) over exact rationals, and
  `round(sqrt(s), 2)` as the integer nearest to a square root.
- `Faces`: the `Face` record and `Face.__init__`.
- `PeopleCounter`: the frontal term, the depth term and `distance_in_space`.
- `Pairs`: the order in which a frame's faces are compared. The pair
  `(i, k)` has `k < i`, with `i` ascending and then `k` ascending.
- `Detections`: detection counts and width totals over a run of frames.
- `SocialDistancing`: the per-frame loop of `main_loop`, the people-count
  message and `calibrate` of `social_distancing.py`.
- `MainScript`: `get_face_data`, the index loop of `main_loop` and
  `calibrate` of `main.py`. It also proves that both scripts make the same
  comparisons.

Distances are exact integers:

- a face's camera distance is a count of tenths, so `Some(t)` stands for the
  float `t / 10`;
- a pair distance is a count of hundredths.

`round(sqrt(s), 2)` is the integer `r` nearest to `sqrt(10000 * s)`. Here
`10000 * s` is always an integer, and a tie between `r` and `r + 1` cannot
happen (`Numeric.NearestRootNoTie`). So Python's tie rule plays no part there.

## Model

| member | source | states |
|---|---|---|
| Faces.EstimateDistance | people_counter/face.py:44 | the count of tenths is `calibration / w` rounded to one decimal, nearest with ties to even |
| Faces.NewFace | people_counter/face.py:40-44 | `x, y, w, h` are stored as given. The offsets are the floor halves of `w` and `h`, and the centroid is the corner plus the offsets. The centroid lies inside the box when `w, h >= 0`. A distance is set exactly when the calibration is truthy, and is then the rounded `calibration / w`. A truthy calibration with `w == 0` is a ZeroDivision |
| Faces.EstimateDistanceMonotone | people_counter/face.py:44 | for a positive calibration, a wider face never gets a larger distance |
| Faces.FaceDistanceMonotone | people_counter/face.py:43-44 | the same for the `distance` of two Faces built from boxes |
| Numeric.RoundHalfEven | people_counter/face.py:44 | Python's `round` on an exact value: the nearest integer, with ties going to the even one |
| Numeric.RoundHalfEvenMonotone | people_counter/face.py:44 | rounding preserves order |
| Numeric.NearestRoot | people_counter/peopleCounter.py:68 | the result is the integer nearest to `sqrt(m)` |
| Numeric.NearestRootUnique | people_counter/peopleCounter.py:68 | that nearest root is unique |
| Numeric.NearestRootMonotone | people_counter/peopleCounter.py:68 | the rounded root preserves order |
| Numeric.NearestRootNoTie | people_counter/peopleCounter.py:68 | `sqrt(m)` is never exactly halfway between two integers |
| PeopleCounter.DistanceFromCameraSquared | people_counter/peopleCounter.py:25-27 | a natural number built from the centroid offsets only; it is 0 exactly when both offsets agree |
| PeopleCounter.DistanceFromGroundSquared | people_counter/peopleCounter.py:47 | `(d1 - d2)^2` in hundredths, and 0 exactly when the distances agree. A face without a distance gives MissingDistance |
| PeopleCounter.DistanceInSpace | people_counter/peopleCounter.py:67-68 | the result in hundredths is `sqrt(frontal + depth)` rounded to two decimals. It fails with MissingDistance exactly when a face has no distance |
| PeopleCounter.TermsSymmetric | people_counter/peopleCounter.py:25-47 | the frontal term and the depth term (including its error) are symmetric in the two faces |
| PeopleCounter.DistanceInSpaceSymmetric | people_counter/peopleCounter.py:67-68 | `distance_in_space(f1, f2) == distance_in_space(f2, f1)` |
| PeopleCounter.DistanceInSpaceSelf | people_counter/peopleCounter.py:67-68 | a face with a distance is at distance 0 from itself |
| PeopleCounter.DistanceInSpaceIgnoresPosition | people_counter/peopleCounter.py:25-27 | moving a box without resizing it changes no pair distance |
| PeopleCounter.DistanceInSpaceZero | people_counter/peopleCounter.py:67-68 | the distance is 0 exactly when the offsets and the camera distances agree |
| Pairs.Enumeration | social_distancing.py:46-58 | every comparison pairs a newer detection with an older one: `k < i < n` |
| Pairs.EnumerationLength | social_distancing.py:46-58 | n detections make n(n-1)/2 comparisons |
| Pairs.EnumerationAt | main.py:22-34 | pair `(i, k)` is comparison number `i(i-1)/2 + k` |
| Pairs.EnumerationIndex | main.py:22-34 | conversely, every comparison's position is fixed by its pair |
| Pairs.EnumerationCovers | main.py:32-34 | every pair of distinct detections is compared |
| Pairs.EnumerationDistinct | main.py:32-34 | no pair is compared twice |
| Pairs.EnumerationPrefix | social_distancing.py:56-76 | adding detections only appends comparisons |
| Pairs.EnumerationOrdered | social_distancing.py:46-58 | comparisons run with the newer index ascending, then the older index ascending |
| Detections.FrameWidthUniform | social_distancing.py:169-173 | a frame whose widths are all p adds p times its number of detections |
| Detections.TotalWidthUniform | social_distancing.py:169-173 | when every width is p, the width total is p times the number of detections |
| Detections.DetectionCountMonotone | main.py:120-123 | reading more frames never lowers the detection count |
| SocialDistancing.Compare | social_distancing.py:58-60 | the comparison holds `distance_in_space(face, other_face)`. It is flagged exactly when that distance is strictly below the threshold |
| SocialDistancing.ComparisonsSnoc | social_distancing.py:56-76 | appending a face adds its comparisons with every earlier face, after the old ones |
| SocialDistancing.CompareWithEarlier | social_distancing.py:56-60 | the inner loop compares the new face with each collected face in order, and fails with MissingDistance when it has no distance |
| SocialDistancing.ProcessFrame | social_distancing.py:43-76 | fails exactly when a width is 0 under a non-zero calibration (ZeroDivision), or when a frame with detections has no calibration (MissingDistance, from the label that formats `face.distance`). Otherwise `faces` holds one measured Face per detection, in detection order, and the comparisons are `Comparisons` in pair order |
| SocialDistancing.ComparisonsShape | social_distancing.py:46-58 | a frame makes n(n-1)/2 comparisons, each newer face against an older one |
| SocialDistancing.ComparisonOfPair | social_distancing.py:46-58 | each pair of distinct detections is compared exactly once |
| SocialDistancing.NatToString | social_distancing.py:80 | `str(n)` is decimal digits without a leading zero |
| SocialDistancing.NatToStringValue | social_distancing.py:80 | `str(n)` reads back as n |
| SocialDistancing.PeopleMessage | social_distancing.py:78-82 | "No people detected" for 0, "1 person detected" for 1, "N people detected" otherwise; `main.py:60-64` prints the same message |
| SocialDistancing.Calibrate | social_distancing.py:160-180 | `total` is the sum of every detection's width. Because the `for` header rebinds `counter`, the divisor is 1000 plus the detections of frame 1000. The printed value is `round(total * distance / counter)` |
| SocialDistancing.CalibrationBySamples | social_distancing.py:180 | the corrected calibration divides by the number of samples, and fails with InsufficientSamples exactly when there are none |
| SocialDistancing.CalibrationBySamplesUniform | social_distancing.py:180 | a reference face always seen at width p calibrates to `round(p * distance)`, the constant `C = P * D` of the calibrate docstring |
| SocialDistancing.CalibrateDivisorCounterexample | social_distancing.py:163-180 | 1000 frames, each with one face of width 100, at distance 200: `calibrate` prints 19980, while the corrected calibration gives 20000 |
| MainScript.HalfTowardZero | main.py:98 | `int(v / 2)` truncates toward zero: it is the floor half for `v >= 0` and rounds up for negative `v` |
| MainScript.GetFaceData | main.py:96-100 | the tuple keeps `x, y, w, h`. Its offsets equal the floor halves for non-negative sizes and truncate for negative ones, and the centroid is the corner plus the offsets |
| MainScript.FaceDistance | main.py:24 | `round(calibration / w, 1)` in tenths for any calibration. `w == 0` is a ZeroDivision |
| MainScript.PairDistance | main.py:40-48 | the inline distance is `sqrt(offset term + squared depth difference)` rounded to two decimals, in hundredths |
| MainScript.PairDistanceSymmetric | main.py:40-48 | the inline distance is symmetric |
| MainScript.MainCompare | main.py:47-50 | the comparison holds the inline `PairDistance` of detections i and k, and is flagged exactly when that distance is strictly below the fixed 150 |
| MainScript.MainComparisonsSnoc | main.py:22-34 | outer index i adds the comparisons with `k = 0 .. i-1` after those of the earlier indices |
| MainScript.ProcessFrame | main.py:22-50 | the frame fails with ZeroDivision exactly when some width is 0. Otherwise it makes the comparisons of `MainComparisons`, in pair order |
| MainScript.PairDistanceAgrees | main.py:40-48 | for a non-zero calibration, positive widths and non-negative heights, the inline pair distance equals `PeopleCounter.distance_in_space` of the two Faces |
| MainScript.FacesOf | social_distancing.py:46-47 | the Faces `social_distancing.py` builds for a frame with a non-zero calibration: one per box, each measured |
| MainScript.FrameAgrees | main.py:22-50 | for a non-zero calibration, positive widths and non-negative heights, `main.py` makes the same comparisons as `social_distancing.py` at threshold 150, in the same order, with the same distances and flags |
| MainScript.ZeroCalibrationDiverges | main.py:24 | why `PairDistanceAgrees` needs a non-zero calibration: at calibration 0, `main.py` computes a distance of 0.0 for a width-100 box, while the Faces of `social_distancing.py` have no distance and `distance_in_space` raises |
| MainScript.NegativeHeightDiverges | main.py:98 | why `FrameAgrees` needs non-negative heights: for a box of height -3, `int(-3 / 2)` gives offset -1 where `-3 // 2` gives -2, so against a box of height 0 at calibration 100, `main.py` computes 1.00 and `social_distancing.py` 2.00 |
| MainScript.Calibrate | main.py:110-133 | stops after the first frame whose running count equals 1000 exactly and yields the mean width `total / 1000`; otherwise it reads the whole finite stream and yields nothing |
| MainScript.CalibrateMeanWidth | main.py:133 | the printed value is the mean width: for any prefix the loop stops at (1000 detections), a reference face always seen at width p prints p |
| Detections.UniformWidthPrefix | main.py:120-123 | every prefix of a run whose widths are all p has widths all p |
| MainScript.OvershootNeverStops | main.py:128-129 | once a frame carries the count past 1000, no later frame boundary meets the stop |
| MainScript.FirstFrameReaching | main.py:128-129 | the corrected stop is the first frame boundary whose count is at least 1000 |
| MainScript.FirstFrameReachingStops | main.py:128-129 | the corrected stop is always reached when the stream holds at least 1000 detections |
| MainScript.OvershootCounterexample | main.py:128-129 | a frame of 999 detections followed by a frame of 2: the count never equals 1000, and the corrected stop comes after frame 2 |

## Left out

- OpenCV is not modelled: cascade loading, `VideoCapture`, `cap.read`, `detectMultiScale`, `cvtColor`, drawing and display. The detector is an input sequence of boxes, and a calibration run is a finite sequence of frames.
- Only one point of the drawing code is kept: the read of `face.distance` in the box label, because it decides whether a frame raises.
- Command-line parsing, `sys.exit` and the process-level interrupt handler are thin plumbing and are not modelled.
- `KeyboardInterrupt` is an asynchronous signal, so the early break out of `main_loop` and `calibrate` is not modelled. `SocialDistancing.Calibrate` always reads its 1000 frames.
- Progress printing (`counter % 100`) and the cm/in unit label are display only.
- The per-frame loop over frames in `main_loop` is not modelled: frames share no state, and one frame is `ProcessFrame`.
- Faces.EstimateDistance: rounds the exact rational `calibration / w`. Python rounds a binary float, so a value that lies exactly halfway in decimal can round the other way.
- PeopleCounter.DistanceInSpace: `math.sqrt` and `round(., 2)` are taken exactly. On binary floats the last digit can differ near a rounding boundary.
- MainScript.PairDistance: the same exact treatment of the square root and the rounding.
- SocialDistancing.Calibrate: the known distance is an exact `real`, and `round(total * distance / counter)` is evaluated without float error.
- MainScript.Calibrate: runs over a finite prefix of the camera stream. When the prefix never meets the stop it yields None, where the script would keep reading frames.

Without an interrupt, neither script can fail for lack of samples:

- `social_distancing.py` always reads 1000 frames, so its divisor is at least 1000.
- `main.py` stops only on an exact count of 1000.
- `main.py` interrupted before its first detection divides 0 by 0 at `print(total / counter)`. The model leaves this out together with `KeyboardInterrupt` (see above). Ctrl-C is also the only way out of the overshoot in the second Findings row, and the script then prints the mean over all the samples it read.
- InsufficientSamples exists only for the corrected `SocialDistancing.CalibrationBySamples`.
- Box sizes are any integers, and a zero width raises the ZeroDivision the code raises.

## Findings

| source | as written | input that shows it | evidently intended | confidence | as-written member | corrected member |
|---|---|---|---|---|---|---|
| social_distancing.py:163-180 | `for counter in range(1, 1001)` rebinds `counter` each frame, so the divisor is 1000 plus the detections of the last frame | 1000 frames, each with one face of width 100, at known distance 200: it prints 19980 | divide by the number of samples (1000), giving 20000 | high, not executed | SocialDistancing.CalibrateDivisorCounterexample | SocialDistancing.CalibrationBySamples |
| main.py:128-129 | the loop stops only when `counter == 1000` at a frame boundary | a frame with 999 detections, then a frame with 2: the count goes 999, 1001 and the loop never stops | stop at the first frame boundary where the count reaches at least 1000 | high, not executed | MainScript.OvershootCounterexample | MainScript.FirstFrameReaching |
