/**
 * The aiming point of one detection frame (script.js:110-116): take the first pose the
 * estimator returns, keep its keypoints whose score exceeds 0.5, and aim at the
 * arithmetic mean of their coordinates.
 */
module Anchor {

  /** Keypoints scoring above this take part in the anchor (script.js:112). */
  const ConfidenceThreshold: real := 0.5

  /** One keypoint of a pose, with the estimator's confidence in it. */
  datatype Keypoint = Keypoint(x: real, y: real, score: real)

  /** A pose: its keypoints, in the estimator's order. */
  type Pose = seq<Keypoint>

  /** What a frame's pose list yields for aiming. */
  datatype Aim =
    | NoPose                  // the estimator found nobody
    | NoConfidentKeypoint     // the first pose has no keypoint above the threshold
    | Centre(x: real, y: real)

  predicate IsConfident(k: Keypoint) {
    k.score > ConfidenceThreshold
  }

  /** `keypoints.filter(k => k.score > 0.5)`. */
  function Confident(kps: seq<Keypoint>): (r: seq<Keypoint>)
    ensures |r| <= |kps|
    ensures forall k :: k in r <==> k in kps && IsConfident(k)
  {
    if kps == [] then []
    else (if IsConfident(kps[0]) then [kps[0]] else []) + Confident(kps[1..])
  }

  /** The filter keeps the keypoints in their original order: it distributes over concatenation. */
  lemma {:induction false} ConfidentAppend(a: seq<Keypoint>, b: seq<Keypoint>)
    ensures Confident(a + b) == Confident(a) + Confident(b)
  {
    if a == [] {
      assert a + b == b;
    } else {
      assert (a + b)[0] == a[0];
      assert (a + b)[1..] == a[1..] + b;
      ConfidentAppend(a[1..], b);
    }
  }

  function Xs(kps: seq<Keypoint>): seq<real> {
    seq(|kps|, i requires 0 <= i < |kps| => kps[i].x)
  }

  function Ys(kps: seq<Keypoint>): seq<real> {
    seq(|kps|, i requires 0 <= i < |kps| => kps[i].y)
  }

  /** A left fold from 0, as `reduce((a, b) => a + b.x, 0)` computes it. */
  function Sum(s: seq<real>): real {
    if s == [] then 0.0 else Sum(s[..|s| - 1]) + s[|s| - 1]
  }

  /** A sum of n terms, each within [lo, hi], lies within [n * lo, n * hi]. */
  lemma {:induction false} SumBounds(s: seq<real>, lo: real, hi: real)
    requires forall i :: 0 <= i < |s| ==> lo <= s[i] <= hi
    ensures |s| as real * lo <= Sum(s) <= |s| as real * hi
  {
    if s != [] {
      var n := |s| - 1;
      SumBounds(s[..n], lo, hi);
      assert (n + 1) as real * lo == n as real * lo + lo;
      assert (n + 1) as real * hi == n as real * hi + hi;
    }
  }

  /** The anchor of a frame, or why there is none (script.js:110-116). */
  function FrameAim(poses: seq<Pose>): (a: Aim)
    ensures a.NoPose? <==> poses == []
    ensures a.NoConfidentKeypoint? <==>
              poses != [] && forall k :: k in poses[0] ==> !IsConfident(k)
    ensures a.Centre? ==>
              IsMean(a.x, Xs(Confident(poses[0]))) && IsMean(a.y, Ys(Confident(poses[0])))
  {
    if poses == [] then NoPose
    else
      var c := Confident(poses[0]);
      if |c| == 0 then NoConfidentKeypoint
      else
        assert c[0] in c;
        Centre(Mean(Xs(c)), Mean(Ys(c)))
  }

  /** m is the arithmetic mean of s: s is not empty and m times its length is its sum. */
  predicate IsMean(m: real, s: seq<real>) {
    |s| > 0 && m * |s| as real == Sum(s)
  }

  function Mean(s: seq<real>): (m: real)
    requires |s| > 0
    ensures IsMean(m, s)
  {
    Sum(s) / |s| as real
  }

  /** A mean of terms that all lie within [lo, hi] lies within [lo, hi]. */
  lemma MeanWithin(m: real, s: seq<real>, lo: real, hi: real)
    requires IsMean(m, s)
    requires forall i :: 0 <= i < |s| ==> lo <= s[i] <= hi
    ensures lo <= m <= hi
  {
    SumBounds(s, lo, hi);
    var n := |s| as real;
    assert (m - lo) * n >= 0.0;
    assert (hi - m) * n >= 0.0;
  }

  /**
   * The anchor lies inside every box that holds all confident keypoints of the first
   * pose; in particular inside their bounding box.
   */
  lemma AnchorWithinBox(poses: seq<Pose>, loX: real, hiX: real, loY: real, hiY: real)
    requires FrameAim(poses).Centre?
    requires forall k :: k in poses[0] && IsConfident(k) ==> loX <= k.x <= hiX && loY <= k.y <= hiY
    ensures loX <= FrameAim(poses).x <= hiX
    ensures loY <= FrameAim(poses).y <= hiY
  {
    var a := FrameAim(poses);
    var c := Confident(poses[0]);
    forall i | 0 <= i < |c| ensures loX <= Xs(c)[i] <= hiX && loY <= Ys(c)[i] <= hiY {
      assert c[i] in c;
    }
    MeanWithin(a.x, Xs(c), loX, hiX);
    MeanWithin(a.y, Ys(c), loY, hiY);
  }

  /** A pose with a single confident keypoint is aimed at exactly that keypoint. */
  lemma SingleConfidentKeypoint(poses: seq<Pose>, k: Keypoint)
    requires poses != [] && k in poses[0] && IsConfident(k)
    requires forall j :: j in poses[0] && IsConfident(j) ==> j == k
    ensures FrameAim(poses) == Centre(k.x, k.y)
  {
    assert !FrameAim(poses).NoConfidentKeypoint?;
    AnchorWithinBox(poses, k.x, k.x, k.y, k.y);
  }

  /** A keypoint at or below the threshold, wherever it sits in the first pose, never moves the anchor. */
  lemma UnconfidentKeypointIgnored(pose: Pose, i: nat, k: Keypoint, rest: seq<Pose>)
    requires i <= |pose| && !IsConfident(k)
    ensures FrameAim([pose[..i] + [k] + pose[i..]] + rest) == FrameAim([pose] + rest)
  {
    var front, back := pose[..i], pose[i..];
    assert front + back == pose;
    ConfidentAppend(front + [k], back);
    ConfidentAppend(front, [k]);
    ConfidentAppend(front, back);
    assert Confident([k]) == [];
    assert Confident(front + [k] + back) == Confident(front) + Confident(back) == Confident(pose);
    assert ([front + [k] + back] + rest)[0] == front + [k] + back;
    assert ([pose] + rest)[0] == pose;
  }
}
