/**
 * A calibration run as a stream of frames, each frame the detector's boxes:
 * how many detections it holds and the sum of their widths.
 */
module Detections {
  import opened Faces

  function DetectionCount(frames: seq<seq<Box>>): nat
  {
    if frames == [] then 0
    else DetectionCount(frames[..|frames| - 1]) + |frames[|frames| - 1]|
  }

  function FrameWidth(frame: seq<Box>): int
  {
    if frame == [] then 0 else FrameWidth(frame[..|frame| - 1]) + frame[|frame| - 1].w
  }

  function TotalWidth(frames: seq<seq<Box>>): int
  {
    if frames == [] then 0
    else TotalWidth(frames[..|frames| - 1]) + FrameWidth(frames[|frames| - 1])
  }

  /** Every detection in the run has width p. */
  predicate UniformWidth(frames: seq<seq<Box>>, p: int)
  {
    forall i, j :: 0 <= i < |frames| && 0 <= j < |frames[i]| ==> frames[i][j].w == p
  }

  lemma {:induction false} FrameWidthUniform(frame: seq<Box>, p: int)
    requires forall j :: 0 <= j < |frame| ==> frame[j].w == p
    ensures FrameWidth(frame) == p * |frame|
  {
    if frame != [] {
      FrameWidthUniform(frame[..|frame| - 1], p);
    }
  }

  /** When every width is p, the width total is p times the number of detections. */
  lemma {:induction false} TotalWidthUniform(frames: seq<seq<Box>>, p: int)
    requires UniformWidth(frames, p)
    ensures TotalWidth(frames) == p * DetectionCount(frames)
  {
    if frames != [] {
      var last := |frames| - 1;
      assert UniformWidth(frames[..last], p) by {
        forall i, j | 0 <= i < last && 0 <= j < |frames[..last][i]|
          ensures frames[..last][i][j].w == p
        {
          assert frames[..last][i] == frames[i];
        }
      }
      TotalWidthUniform(frames[..last], p);
      FrameWidthUniform(frames[last], p);
    }
  }

  /** Every prefix of a uniform run is uniform. */
  lemma UniformWidthPrefix(frames: seq<seq<Box>>, p: int, j: nat)
    requires UniformWidth(frames, p) && j <= |frames|
    ensures UniformWidth(frames[..j], p)
  {
    forall i, k | 0 <= i < j && 0 <= k < |frames[..j][i]|
      ensures frames[..j][i][k].w == p
    {
      assert frames[..j][i] == frames[i];
    }
  }

  /** Reading more frames never lowers the detection count. */
  lemma {:induction false} DetectionCountMonotone(frames: seq<seq<Box>>, i: nat, j: nat)
    requires i <= j <= |frames|
    ensures DetectionCount(frames[..i]) <= DetectionCount(frames[..j])
  {
    if i < j {
      DetectionCountMonotone(frames, i, j - 1);
      assert frames[..j][..j - 1] == frames[..j - 1];
    }
  }

  lemma {:induction false} DetectionCountOnePerFrame(frames: seq<seq<Box>>)
    requires forall i :: 0 <= i < |frames| ==> |frames[i]| == 1
    ensures DetectionCount(frames) == |frames|
  {
    if frames != [] {
      DetectionCountOnePerFrame(frames[..|frames| - 1]);
    }
  }
}
