/** The desktop evaluator (smart_yoga.py): joint angles from three landmarks,
    a score per preset pose, the best-matching preset and the warrior knee
    prompts. `np.linalg.norm` and `np.degrees(np.arccos(...))` are parameters. */
module SmartYoga {
  import opened Common
  import opened PoseAnalysis

  /** An angle in degrees between 0 and 180, the range of `arccos`. */
  type HalfCircle = r: real | 0.0 <= r <= 180.0
  /** A cosine after `np.clip(_, -1.0, 1.0)`. */
  type Cosine = c: real | -1.0 <= c <= 1.0
  /** `np.degrees(np.arccos(c))`. */
  type ArccosDegrees = Cosine -> HalfCircle

  /** A landmark's image coordinates `[x, y]`. */
  datatype Vec2 = Vec2(x: real, y: real)

  function Clip(v: real): (c: Cosine)
    ensures -1.0 <= v <= 1.0 ==> c == v
    ensures v < -1.0 ==> c == -1.0
    ensures v > 1.0 ==> c == 1.0
  {
    if v < -1.0 then -1.0 else if v > 1.0 then 1.0 else v
  }

  function Minus(a: Vec2, b: Vec2): Vec2 {
    Vec2(a.x - b.x, a.y - b.y)
  }

  function Dot(u: Vec2, v: Vec2): real {
    u.x * v.x + u.y * v.y
  }

  /** `np.linalg.norm(v)`. */
  function Norm(sqrt: SquareRoot, v: Vec2): (r: real)
    ensures r >= 0.0
    ensures sqrt(0.0) == 0.0 && v.x == 0.0 && v.y == 0.0 ==> r == 0.0
  {
    sqrt(Dot(v, v))
  }

  /** `calculate_angle(a, b, c)`: the angle at `b`, 0.0 when either arm has
      zero length, otherwise the arccosine of the clipped cosine. */
  function CalculateAngle(sqrt: SquareRoot, arccos: ArccosDegrees, a: Vec2, b: Vec2, c: Vec2): (r: real)
    ensures 0.0 <= r <= 180.0
    ensures Norm(sqrt, Minus(a, b)) == 0.0 || Norm(sqrt, Minus(c, b)) == 0.0 ==> r == 0.0
  {
    var ba := Minus(a, b);
    var bc := Minus(c, b);
    var normBa := Norm(sqrt, ba);
    var normBc := Norm(sqrt, bc);
    if normBa == 0.0 || normBc == 0.0 then 0.0
    else
      arccos(Clip(Dot(ba, bc) / (normBa * normBc)))
  }

  /** Joint name to measured angle; `angles.get(joint, 0)` reads it. */
  type Angles = map<string, real>

  /** A missing joint reads as 0, so with all measured angles in [0, 180] every
      reading is in [0, 180]. */
  function AngleOr0(angles: Angles, joint: string): (r: real)
    ensures joint !in angles ==> r == 0.0
    ensures (forall j :: j in angles ==> 0.0 <= angles[j] <= 180.0) ==> 0.0 <= r <= 180.0
  {
    if joint in angles then angles[joint] else 0.0
  }

  /** A preset: its name and the standard angle of each of its joints, in the
      order the dictionary lists them. */
  type Preset = (string, seq<(string, int)>)

  /** `POSES`. */
  const Presets: seq<Preset> := [
    ("warrior", [("left_elbow", 160), ("right_elbow", 160), ("left_knee", 90), ("right_knee", 90)]),
    ("tree", [("left_knee", 45), ("right_knee", 45)]),
    ("downward_dog", [("left_elbow", 180), ("right_elbow", 180), ("left_knee", 180), ("right_knee", 180)])
  ]

  const UnknownPose: string := "Unknown"
  const KneeThreshold: real := 85.0
  const LeftKneePrompt: string := "左膝盖需要再弯曲一点"
  const RightKneePrompt: string := "右膝盖需要再弯曲一点"

  /** `max(0, 100 - abs(standard_angle - angle))`. */
  function JointScore(standard: int, angle: real): (r: real)
    ensures 0.0 <= r <= 100.0
    ensures r == 100.0 <==> angle == standard as real
    ensures r > 0.0 ==> r == 100.0 - Abs(standard as real - angle)
  {
    Max(0.0, 100.0 - Abs(standard as real - angle))
  }

  /** The joint scores of a preset, summed from the front: at most 100 per joint. */
  function ScoreSum(standard: seq<(string, int)>, angles: Angles): (r: real)
    ensures 0.0 <= r <= 100.0 * |standard| as real
  {
    if standard == [] then 0.0
    else
      var last := standard[|standard| - 1];
      ScoreSum(standard[..|standard| - 1], angles) + JointScore(last.1, AngleOr0(angles, last.0))
  }


  /** `int(np.mean(scores)) if scores else 0`: the truncated mean. */
  function PoseScore(standard: seq<(string, int)>, angles: Angles): (r: int)
    ensures standard == [] ==> r == 0
    ensures 0 <= r <= 100
    ensures standard != [] ==>
      var mean := ScoreSum(standard, angles) / |standard| as real;
      r as real <= mean < r as real + 1.0
  {
    if standard == [] then 0
    else
      var n := |standard| as real;
      var total := ScoreSum(standard, angles);
      DivMono(0.0, total, n);
      DivMono(total, 100.0 * n, n);
      ScaleCancels(n, 100.0);
      assert 100.0 * n == n * 100.0;
      PyTruncate(total / n)
  }

  /** A preset whose joints all sit at their standard angles scores 100. */
  lemma {:induction false} PerfectScore(standard: seq<(string, int)>, angles: Angles)
    requires standard != []
    requires forall k :: 0 <= k < |standard| ==> AngleOr0(angles, standard[k].0) == standard[k].1 as real
    ensures PoseScore(standard, angles) == 100
  {
    PerfectSum(standard, angles);
    var n := |standard| as real;
    ScaleCancels(n, 100.0);
    assert 100.0 * n == n * 100.0;
  }

  lemma {:induction false} PerfectSum(standard: seq<(string, int)>, angles: Angles)
    requires forall k :: 0 <= k < |standard| ==> AngleOr0(angles, standard[k].0) == standard[k].1 as real
    ensures ScoreSum(standard, angles) == 100.0 * |standard| as real
  {
    if standard != [] {
      PerfectSum(standard[..|standard| - 1], angles);
    }
  }

  /** The `(best_pose, best_score)` the loop in `process_frame` holds after
      visiting `presets`, starting from `("Unknown", 0)`. */
  function Best(presets: seq<Preset>, angles: Angles): (r: (string, int))
    ensures 0 <= r.1 <= 100
  {
    if presets == [] then (UnknownPose, 0)
    else
      var previous := Best(presets[..|presets| - 1], angles);
      var last := presets[|presets| - 1];
      var score := PoseScore(last.1, angles);
      if score > previous.1 then (last.0, score) else previous
  }

  /** Each preset's name with its score. */
  function Ranked(presets: seq<Preset>, angles: Angles): (r: seq<(string, int)>)
    ensures |r| == |presets|
    ensures forall j :: 0 <= j < |r| ==> r[j] == (presets[j].0, PoseScore(presets[j].1, angles))
  {
    seq(|presets|, j requires 0 <= j < |presets| => (presets[j].0, PoseScore(presets[j].1, angles)))
  }

  /** The same loop over names already paired with their scores. */
  function BestOf(scored: seq<(string, int)>): (string, int) {
    if scored == [] then (UnknownPose, 0)
    else
      var previous := BestOf(scored[..|scored| - 1]);
      var last := scored[|scored| - 1];
      if last.1 > previous.1 then last else previous
  }

  lemma {:induction false} BestIsBestOfRanked(presets: seq<Preset>, angles: Angles)
    ensures Best(presets, angles) == BestOf(Ranked(presets, angles))
  {
    if presets != [] {
      var init := presets[..|presets| - 1];
      BestIsBestOfRanked(init, angles);
      assert Ranked(presets, angles)[..|presets| - 1] == Ranked(init, angles);
    }
  }

  /** The first-maximum property of the loop, on scores alone. */
  lemma {:induction false} BestOfIsFirstMaximum(scored: seq<(string, int)>)
    requires forall j :: 0 <= j < |scored| ==> scored[j].1 >= 0
    ensures var r := BestOf(scored);
      (r == (UnknownPose, 0) && forall j :: 0 <= j < |scored| ==> scored[j].1 == 0) ||
      (exists k :: 0 <= k < |scored| && r == scored[k] && r.1 > 0 &&
         (forall j :: 0 <= j < |scored| ==> scored[j].1 <= r.1) &&
         (forall j :: 0 <= j < k ==> scored[j].1 < r.1))
  {
    if scored != [] {
      var n := |scored| - 1;
      var init := scored[..n];
      BestOfIsFirstMaximum(init);
      var previous := BestOf(init);
      assert forall j :: 0 <= j < n ==> init[j] == scored[j];
      if scored[n].1 > previous.1 {
        assert BestOf(scored) == scored[n];
      } else if previous != (UnknownPose, 0) {
        var k :| 0 <= k < n && previous == init[k] && previous.1 > 0 &&
          (forall j :: 0 <= j < n ==> init[j].1 <= previous.1) &&
          (forall j :: 0 <= j < k ==> init[j].1 < previous.1);
        assert scored[k] == init[k];
      }
    }
  }

  /** The loop's result is the FIRST preset of maximal score, provided that
      score is positive; when every preset scores 0 it is `("Unknown", 0)`. */
  lemma BestIsFirstMaximum(presets: seq<Preset>, angles: Angles)
    ensures var r := Best(presets, angles);
      (r == (UnknownPose, 0) && forall j :: 0 <= j < |presets| ==> PoseScore(presets[j].1, angles) == 0) ||
      (exists k :: 0 <= k < |presets| && r == (presets[k].0, PoseScore(presets[k].1, angles)) && r.1 > 0 &&
         (forall j :: 0 <= j < |presets| ==> PoseScore(presets[j].1, angles) <= r.1) &&
         (forall j :: 0 <= j < k ==> PoseScore(presets[j].1, angles) < r.1))
  {
    var scored := Ranked(presets, angles);
    BestIsBestOfRanked(presets, angles);
    BestOfIsFirstMaximum(scored);
  }

  /** The loop over the presets: the score must rise strictly to replace the
      current best. */
  method BestPoseMatch(presets: seq<Preset>, angles: Angles) returns (bestPose: string, bestScore: int)
    ensures (bestPose, bestScore) == Best(presets, angles)
  {
    bestPose := UnknownPose;
    bestScore := 0;
    for i := 0 to |presets|
      invariant (bestPose, bestScore) == Best(presets[..i], angles)
    {
      assert presets[..i + 1][..i] == presets[..i];
      var standard := presets[i].1;
      var poseScore := if standard != [] then PoseScore(standard, angles) else 0;
      if poseScore > bestScore {
        bestScore := poseScore;
        bestPose := presets[i].0;
      }
    }
    assert presets[..|presets|] == presets;
  }

  /** The spoken knee advice, left before right. */
  function KneePrompts(bestPose: string, angles: Angles): (r: seq<string>)
    ensures LeftKneePrompt in r <==> bestPose == "warrior" && AngleOr0(angles, "left_knee") < KneeThreshold
    ensures RightKneePrompt in r <==> bestPose == "warrior" && AngleOr0(angles, "right_knee") < KneeThreshold
    ensures |r| <= 2 && forall m :: m in r ==> m == LeftKneePrompt || m == RightKneePrompt
    ensures |r| == 2 ==> r == [LeftKneePrompt, RightKneePrompt]
  {
    if bestPose != "warrior" then []
    else
      (if AngleOr0(angles, "left_knee") < KneeThreshold then [LeftKneePrompt] else []) +
      (if AngleOr0(angles, "right_knee") < KneeThreshold then [RightKneePrompt] else [])
  }

  /** MediaPipe's pose landmark indices. */
  const LeftShoulder: nat := 11
  const RightShoulder: nat := 12
  const LeftElbow: nat := 13
  const RightElbow: nat := 14
  const LeftWrist: nat := 15
  const RightWrist: nat := 16
  const LeftHip: nat := 23
  const RightHip: nat := 24
  const LeftKnee: nat := 25
  const RightKnee: nat := 26
  const LeftAnkle: nat := 27
  const RightAnkle: nat := 28

  /** The `angles` dictionary of a frame. */
  function FrameAngles(sqrt: SquareRoot, arccos: ArccosDegrees, landmarks: seq<Vec2>): (angles: Angles)
    requires |landmarks| == 33
    ensures angles.Keys == {"left_elbow", "right_elbow", "left_knee", "right_knee"}
    ensures forall joint :: joint in angles ==> 0.0 <= angles[joint] <= 180.0
  {
    map[
      "left_elbow" := CalculateAngle(sqrt, arccos, landmarks[LeftShoulder], landmarks[LeftElbow], landmarks[LeftWrist]),
      "right_elbow" := CalculateAngle(sqrt, arccos, landmarks[RightShoulder], landmarks[RightElbow], landmarks[RightWrist]),
      "left_knee" := CalculateAngle(sqrt, arccos, landmarks[LeftHip], landmarks[LeftKnee], landmarks[LeftAnkle]),
      "right_knee" := CalculateAngle(sqrt, arccos, landmarks[RightHip], landmarks[RightKnee], landmarks[RightAnkle])
    ]
  }

  /** `process_frame` without the drawing: the best preset, its score and the
      prompts to speak; a frame without detected landmarks gives
      `("Unknown", 0)` and no prompt. */
  method ProcessFrame(sqrt: SquareRoot, arccos: ArccosDegrees, landmarks: Option<seq<Vec2>>)
    returns (bestPose: string, bestScore: int, prompts: seq<string>)
    requires landmarks.Some? ==> |landmarks.value| == 33
    ensures landmarks.None? ==> bestPose == UnknownPose && bestScore == 0 && prompts == []
    ensures landmarks.Some? ==>
      var angles := FrameAngles(sqrt, arccos, landmarks.value);
      (bestPose, bestScore) == Best(Presets, angles) && prompts == KneePrompts(bestPose, angles)
    ensures 0 <= bestScore <= 100
  {
    bestPose := UnknownPose;
    bestScore := 0;
    prompts := [];
    if landmarks.Some? {
      var angles := FrameAngles(sqrt, arccos, landmarks.value);
      bestPose, bestScore := BestPoseMatch(Presets, angles);
      prompts := KneePrompts(bestPose, angles);
    }
  }
}
