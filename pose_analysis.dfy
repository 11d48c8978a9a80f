/** The back end's pose scorer and feedback generator
    (backend/utils/poseAnalysis.js).

    `PoseAccuracy` compares the direction of the line through each bilateral
    joint pair; `PartAccuracy` compares joint positions one by one; and
    `PoseFeedback` turns four region scores into canned advice. The methods
    `CalculatePoseAccuracy`, `CalculatePartAccuracy` and `GeneratePoseFeedback`
    are the source's loops, proved equal to those functions.

    Floating-point library calls are parameters: `atan2` stands for
    `Math.atan2(dy, dx) * (180 / Math.PI)`, whose value always lies in
    [-180, 180], and `sqrt` for `Math.sqrt`, which is never negative. */
module PoseAnalysis {
  import opened Common
  import opened Keypoints
  import opened Text

  type HalfTurn = r: real | -180.0 <= r <= 180.0
  type NonNegReal = r: real | r >= 0.0

  /** `Math.atan2(dy, dx)` converted to degrees. */
  type Atan2Degrees = (real, real) -> HalfTurn
  /** `Math.sqrt`. */
  type SquareRoot = real -> NonNegReal

  type JointPair = (Joint, Joint)

  /** The bilateral pairs whose connecting line is compared, in source order. */
  const KeypointPairs: seq<JointPair> := [
    (LeftShoulder, RightShoulder),
    (LeftElbow, RightElbow),
    (LeftWrist, RightWrist),
    (LeftHip, RightHip),
    (LeftKnee, RightKnee),
    (LeftAnkle, RightAnkle)
  ]

  // ----- angles -----

  /** `calculateAngle`: direction of the line from (x1, y1) to (x2, y2), in degrees,
      moved into [0, 360) by `(degrees + 360) % 360`. */
  function CalculateAngle(atan2: Atan2Degrees, x1: real, y1: real, x2: real, y2: real): (r: real)
    ensures 0.0 <= r < 360.0
    ensures atan2(y2 - y1, x2 - x1) >= 0.0 ==> r == atan2(y2 - y1, x2 - x1)
    ensures atan2(y2 - y1, x2 - x1) < 0.0 ==> r == atan2(y2 - y1, x2 - x1) + 360.0
  {
    var degrees := atan2(y2 - y1, x2 - x1);
    JsRemainder(degrees + 360.0, 360.0)
  }

  // ----- whole-pose accuracy -----

  /** Both joints of the pair are present in both keypoint sets. */
  predicate ValidPair(user: KeypointSet, template: KeypointSet, p: JointPair) {
    p.0 in user && p.1 in user && p.0 in template && p.1 in template
  }

  /** Direction of the pair's line in one keypoint set. */
  function PairAngle(atan2: Atan2Degrees, kp: KeypointSet, p: JointPair): (r: real)
    requires p.0 in kp && p.1 in kp
    ensures 0.0 <= r < 360.0
  {
    CalculateAngle(atan2, kp[p.0].x, kp[p.0].y, kp[p.1].x, kp[p.1].y)
  }

  /** `1 - |userAngle - templateAngle| / 180`: no wrap-around is applied to the
      difference, so the term can fall below zero. */
  function PairTerm(atan2: Atan2Degrees, user: KeypointSet, template: KeypointSet, p: JointPair): (r: real)
    requires ValidPair(user, template, p)
    ensures -1.0 < r <= 1.0
  {
    1.0 - Abs(PairAngle(atan2, user, p) - PairAngle(atan2, template, p)) / 180.0
  }

  /** The pairs of `pairs` that are valid for both sets, in order. */
  function ValidPairs(user: KeypointSet, template: KeypointSet, pairs: seq<JointPair>): (vs: seq<JointPair>)
    ensures |vs| <= |pairs|
    ensures forall p :: p in vs <==> p in pairs && ValidPair(user, template, p)
    ensures IsSubsequence(vs, pairs)
  {
    if pairs == [] then []
    else
      var init := ValidPairs(user, template, pairs[..|pairs| - 1]);
      var last := pairs[|pairs| - 1];
      assert pairs == pairs[..|pairs| - 1] + [last];
      if ValidPair(user, template, last) then init + [last] else init
  }

  /** Sum of the pair terms over the valid pairs of `pairs`. */
  function TermTotal(atan2: Atan2Degrees, user: KeypointSet, template: KeypointSet, pairs: seq<JointPair>): (r: real)
    ensures var n := |ValidPairs(user, template, pairs)| as real;
      -n <= r <= n
  {
    if pairs == [] then 0.0
    else
      var init := TermTotal(atan2, user, template, pairs[..|pairs| - 1]);
      var last := pairs[|pairs| - 1];
      if ValidPair(user, template, last) then init + PairTerm(atan2, user, template, last) else init
  }

  /** `calculatePoseAccuracy`: the mean pair term over the valid pairs, times
      100, rounded; 0 when no pair is valid. */
  function PoseAccuracy(atan2: Atan2Degrees, user: KeypointSet, template: KeypointSet): (r: int)
    ensures |ValidPairs(user, template, KeypointPairs)| == 0 ==> r == 0
    ensures -100 <= r <= 100
  {
    JsRound(MeanPercent(TermTotal(atan2, user, template, KeypointPairs), |ValidPairs(user, template, KeypointPairs)|))
  }

  method CalculatePoseAccuracy(atan2: Atan2Degrees, user: KeypointSet, template: KeypointSet)
    returns (accuracy: int)
    ensures accuracy == PoseAccuracy(atan2, user, template)
    ensures -100 <= accuracy <= 100
  {
    var totalScore := 0.0;
    var validKeypoints := 0;
    for i := 0 to |KeypointPairs|
      invariant totalScore == TermTotal(atan2, user, template, KeypointPairs[..i])
      invariant validKeypoints == |ValidPairs(user, template, KeypointPairs[..i])|
    {
      var (left, right) := KeypointPairs[i];
      PairStep(atan2, user, template, KeypointPairs, i);
      if left in user && right in user && left in template && right in template {
        var userAngle := CalculateAngle(atan2, user[left].x, user[left].y, user[right].x, user[right].y);
        var templateAngle := CalculateAngle(atan2, template[left].x, template[left].y, template[right].x, template[right].y);
        var angleDiff := Abs(userAngle - templateAngle);
        var normalizedDiff := 1.0 - angleDiff / 180.0;
        totalScore := totalScore + normalizedDiff;
        validKeypoints := validKeypoints + 1;
      }
    }
    assert KeypointPairs[..|KeypointPairs|] == KeypointPairs;
    accuracy := JsRound(MeanPercent(totalScore, validKeypoints));
  }

  /** One more pair adds its term and one to the count when it is valid for
      both sets, and nothing otherwise. */
  lemma PairStep(atan2: Atan2Degrees, user: KeypointSet, template: KeypointSet, pairs: seq<JointPair>, i: nat)
    requires i < |pairs|
    ensures var p := pairs[i];
      && TermTotal(atan2, user, template, pairs[..i + 1]) ==
           TermTotal(atan2, user, template, pairs[..i]) + (if ValidPair(user, template, p) then PairTerm(atan2, user, template, p) else 0.0)
      && |ValidPairs(user, template, pairs[..i + 1])| ==
           |ValidPairs(user, template, pairs[..i])| + (if ValidPair(user, template, p) then 1 else 0)
  {
    var prefix := pairs[..i + 1];
    assert prefix[..|prefix| - 1] == pairs[..i];
    assert prefix[|prefix| - 1] == pairs[i];
  }

  /** A total within ± n, or within [0, n], has its mean within [-1, 1], or [0, 1]. */
  lemma MeanBounds(total: real, n: real)
    requires n > 0.0
    ensures -n <= total <= n ==> -1.0 <= total / n <= 1.0
    ensures 0.0 <= total ==> 0.0 <= total / n
  {
    var m := total / n;
    assert total == m * n;
  }

  /** The accuracy lies in [-100, 100]: at most 100, and, because angle
      differences are not wrapped, possibly negative. */

  lemma {:induction false} TermTotalOfIdentical(atan2: Atan2Degrees, kp: KeypointSet, pairs: seq<JointPair>)
    ensures TermTotal(atan2, kp, kp, pairs) == |ValidPairs(kp, kp, pairs)| as real
  {
    if pairs != [] {
      TermTotalOfIdentical(atan2, kp, pairs[..|pairs| - 1]);
    }
  }

  /** A pose compared with itself scores 100, provided one pair is present. */
  lemma PoseAccuracyOfIdentical(atan2: Atan2Degrees, kp: KeypointSet)
    requires |ValidPairs(kp, kp, KeypointPairs)| > 0
    ensures PoseAccuracy(atan2, kp, kp) == 100
  {
    var n := |ValidPairs(kp, kp, KeypointPairs)|;
    TermTotalOfIdentical(atan2, kp, KeypointPairs);
    assert MeanPercent(TermTotal(atan2, kp, kp, KeypointPairs), n) == 100.0 by {
      DivSelf(n as real);
    }
  }

  lemma {:induction false} PairTotalsSymmetric(atan2: Atan2Degrees, user: KeypointSet, template: KeypointSet, pairs: seq<JointPair>)
    ensures ValidPairs(user, template, pairs) == ValidPairs(template, user, pairs)
    ensures TermTotal(atan2, user, template, pairs) == TermTotal(atan2, template, user, pairs)
  {
    if pairs != [] {
      PairTotalsSymmetric(atan2, user, template, pairs[..|pairs| - 1]);
    }
  }

  /** Swapping the detected and the template keypoints does not change the accuracy. */
  lemma PoseAccuracySymmetric(atan2: Atan2Degrees, user: KeypointSet, template: KeypointSet)
    ensures PoseAccuracy(atan2, user, template) == PoseAccuracy(atan2, template, user)
  {
    PairTotalsSymmetric(atan2, user, template, KeypointPairs);
  }

  /** The accuracy can be negative: shoulders level in the detected pose and
      sloping at 45 degrees the other way in the template differ by 315 degrees,
      not 45, for any arctangent with atan2(0, 1) = 0 and atan2(-1, 1) in (-90, 0). */
  lemma PoseAccuracyCanBeNegative(atan2: Atan2Degrees)
    requires atan2(0.0, 1.0) == 0.0
    requires -90.0 < atan2(-1.0, 1.0) < 0.0
    ensures var user := map[LeftShoulder := Point(0.0, 0.0, 1.0), RightShoulder := Point(1.0, 0.0, 1.0)];
      var template := map[LeftShoulder := Point(0.0, 0.0, 1.0), RightShoulder := Point(1.0, -1.0, 1.0)];
      PoseAccuracy(atan2, user, template) < 0
  {
    var user := map[LeftShoulder := Point(0.0, 0.0, 1.0), RightShoulder := Point(1.0, 0.0, 1.0)];
    var template := map[LeftShoulder := Point(0.0, 0.0, 1.0), RightShoulder := Point(1.0, -1.0, 1.0)];
    var shoulders := KeypointPairs[0];
    OnlyShouldersValid(atan2, user, template);
    assert PairAngle(atan2, user, shoulders) == 0.0;
    assert PairAngle(atan2, template, shoulders) > 270.0;
    assert PairTerm(atan2, user, template, shoulders) < -0.5;
  }

  /** When only the first pair is valid, it alone makes up the mean. */
  lemma OnlyFirstValid(atan2: Atan2Degrees, user: KeypointSet, template: KeypointSet, ps: seq<JointPair>)
    requires |ps| > 0 && ValidPair(user, template, ps[0])
    requires forall k :: 1 <= k < |ps| ==> !ValidPair(user, template, ps[k])
    ensures ValidPairs(user, template, ps) == [ps[0]]
    ensures TermTotal(atan2, user, template, ps) == PairTerm(atan2, user, template, ps[0])
  {
    var term := PairTerm(atan2, user, template, ps[0]);
    PairStep(atan2, user, template, ps, 0);
    assert ps[..0] == [];
    assert ValidPairs(user, template, ps[..1]) == [ps[0]] by {
      assert ps[..1][..0] == [];
    }
    for k := 1 to |ps|
      invariant ValidPairs(user, template, ps[..k]) == [ps[0]]
      invariant TermTotal(atan2, user, template, ps[..k]) == term
    {
      PairStep(atan2, user, template, ps, k);
      assert ps[..k + 1][..k] == ps[..k];
      assert !ValidPair(user, template, ps[k]);
    }
    assert ps[..|ps|] == ps;
  }

  /** When only the shoulders are present, they alone make up the mean. */
  lemma OnlyShouldersValid(atan2: Atan2Degrees, user: KeypointSet, template: KeypointSet)
    requires ValidPair(user, template, KeypointPairs[0])
    requires forall k :: 1 <= k < |KeypointPairs| ==> !ValidPair(user, template, KeypointPairs[k])
    ensures ValidPairs(user, template, KeypointPairs) == [KeypointPairs[0]]
    ensures TermTotal(atan2, user, template, KeypointPairs) == PairTerm(atan2, user, template, KeypointPairs[0])
  {
    OnlyFirstValid(atan2, user, template, KeypointPairs);
  }

  // ----- per-region accuracy -----

  /** Euclidean distance between two points, through the `sqrt` oracle. */
  /** Euclidean distance; 0 between points at the same position. */
  function Distance(sqrt: SquareRoot, a: Point, b: Point): (r: NonNegReal)
    ensures sqrt(0.0) == 0.0 && a.x == b.x && a.y == b.y ==> r == 0.0
  {
    assert a.x == b.x && a.y == b.y ==> Square(a.x - b.x) + Square(a.y - b.y) == 0.0;
    sqrt(Square(a.x - b.x) + Square(a.y - b.y))
  }

  /** `1 - Math.min(distance, 1)`. */
  function Similarity(sqrt: SquareRoot, a: Point, b: Point): (r: real)
    ensures 0.0 <= r <= 1.0
  {
    1.0 - Min(Distance(sqrt, a, b), 1.0)
  }

  /** The joints of `joints` present in both sets, in order. */
  function PresentJoints(user: KeypointSet, template: KeypointSet, joints: seq<Joint>): (js: seq<Joint>)
    ensures |js| <= |joints|
    ensures forall j :: j in js <==> j in joints && j in user && j in template
  {
    if joints == [] then []
    else
      var init := PresentJoints(user, template, joints[..|joints| - 1]);
      var last := joints[|joints| - 1];
      assert joints == joints[..|joints| - 1] + [last];
      if last in user && last in template then init + [last] else init
  }

  /** Sum of the similarities over the present joints of `joints`. */
  function SimilarityTotal(sqrt: SquareRoot, user: KeypointSet, template: KeypointSet, joints: seq<Joint>): (r: real)
    ensures 0.0 <= r <= |PresentJoints(user, template, joints)| as real
  {
    if joints == [] then 0.0
    else
      var init := SimilarityTotal(sqrt, user, template, joints[..|joints| - 1]);
      var last := joints[|joints| - 1];
      if last in user && last in template then init + Similarity(sqrt, user[last], template[last]) else init
  }

  /** `calculatePartAccuracy`: mean similarity of the present joints, times 100
      (not rounded); 0 when none of the listed joints is present in both sets. */
  function PartAccuracy(sqrt: SquareRoot, user: KeypointSet, template: KeypointSet, joints: seq<Joint>): (r: real)
    ensures |PresentJoints(user, template, joints)| == 0 ==> r == 0.0
    ensures 0.0 <= r <= 100.0
  {
    MeanPercent(SimilarityTotal(sqrt, user, template, joints), |PresentJoints(user, template, joints)|)
  }

  /** The mean of `count` terms totalling `total`, as a percentage; 0 for no
      terms. Terms in [-1, 1] give a percentage in [-100, 100], and terms in
      [0, 1] one in [0, 100]. */
  function MeanPercent(total: real, count: nat): (r: real)
    ensures count == 0 ==> r == 0.0
    ensures -(count as real) <= total <= count as real ==> -100.0 <= r <= 100.0
    ensures 0.0 <= total <= count as real ==> 0.0 <= r <= 100.0
  {
    if count > 0 then
      MeanBounds(total, count as real);
      total / count as real * 100.0
    else 0.0
  }

  method CalculatePartAccuracy(sqrt: SquareRoot, user: KeypointSet, template: KeypointSet, keypointList: seq<Joint>)
    returns (score: real)
    ensures score == PartAccuracy(sqrt, user, template, keypointList)
    ensures 0.0 <= score <= 100.0
  {
    var totalScore := 0.0;
    var validPoints := 0;
    for i := 0 to |keypointList|
      invariant totalScore == SimilarityTotal(sqrt, user, template, keypointList[..i])
      invariant validPoints == |PresentJoints(user, template, keypointList[..i])|
    {
      var point := keypointList[i];
      PartStep(sqrt, user, template, keypointList, i);
      if point in user && point in template {
        var userPoint := user[point];
        var templatePoint := template[point];
        var distance := Distance(sqrt, userPoint, templatePoint);
        var similarity := 1.0 - Min(distance, 1.0);
        totalScore := totalScore + similarity;
        validPoints := validPoints + 1;
      }
    }
    assert keypointList[..|keypointList|] == keypointList;
    score := MeanPercent(totalScore, validPoints);
  }

  /** One more joint adds its similarity and one to the count when it is
      present in both sets, and nothing otherwise. */
  lemma PartStep(sqrt: SquareRoot, user: KeypointSet, template: KeypointSet, joints: seq<Joint>, i: nat)
    requires i < |joints|
    ensures var j := joints[i];
      && SimilarityTotal(sqrt, user, template, joints[..i + 1]) ==
           SimilarityTotal(sqrt, user, template, joints[..i]) + (if j in user && j in template then Similarity(sqrt, user[j], template[j]) else 0.0)
      && |PresentJoints(user, template, joints[..i + 1])| ==
           |PresentJoints(user, template, joints[..i])| + (if j in user && j in template then 1 else 0)
  {
    var prefix := joints[..i + 1];
    assert prefix[..|prefix| - 1] == joints[..i];
    assert prefix[|prefix| - 1] == joints[i];
  }


  lemma DivSelf(n: real)
    requires n > 0.0
    ensures n / n * 100.0 == 100.0
  {
  }

  /** Every present joint lies at the same position in both sets. */
  predicate Coincide(user: KeypointSet, template: KeypointSet, joints: seq<Joint>) {
    forall j :: j in joints && j in user && j in template ==> user[j].x == template[j].x && user[j].y == template[j].y
  }

  lemma {:induction false} SimilarityTotalOfCoinciding(sqrt: SquareRoot, user: KeypointSet, template: KeypointSet, joints: seq<Joint>)
    requires sqrt(0.0) == 0.0
    requires Coincide(user, template, joints)
    ensures SimilarityTotal(sqrt, user, template, joints) == |PresentJoints(user, template, joints)| as real
  {
    if joints != [] {
      var init := joints[..|joints| - 1];
      var last := joints[|joints| - 1];
      assert joints == init + [last];
      assert Coincide(user, template, init);
      SimilarityTotalOfCoinciding(sqrt, user, template, init);
    }
  }

  /** A region whose present joints all coincide scores 100 (given one is present
      and the square root of 0 is 0). */
  lemma PartAccuracyOfCoinciding(sqrt: SquareRoot, user: KeypointSet, template: KeypointSet, joints: seq<Joint>)
    requires sqrt(0.0) == 0.0
    requires Coincide(user, template, joints)
    requires |PresentJoints(user, template, joints)| > 0
    ensures PartAccuracy(sqrt, user, template, joints) == 100.0
  {
    SimilarityTotalOfCoinciding(sqrt, user, template, joints);
    DivSelf(|PresentJoints(user, template, joints)| as real);
  }

  lemma SimilaritySymmetric(sqrt: SquareRoot, a: Point, b: Point)
    ensures Similarity(sqrt, a, b) == Similarity(sqrt, b, a)
  {
    assert Square(a.x - b.x) == Square(b.x - a.x);
    assert Square(a.y - b.y) == Square(b.y - a.y);
  }

  lemma {:induction false} JointTotalsSymmetric(sqrt: SquareRoot, user: KeypointSet, template: KeypointSet, joints: seq<Joint>)
    ensures PresentJoints(user, template, joints) == PresentJoints(template, user, joints)
    ensures SimilarityTotal(sqrt, user, template, joints) == SimilarityTotal(sqrt, template, user, joints)
  {
    if joints != [] {
      JointTotalsSymmetric(sqrt, user, template, joints[..|joints| - 1]);
      var last := joints[|joints| - 1];
      if last in user && last in template {
        SimilaritySymmetric(sqrt, user[last], template[last]);
      }
    }
  }

  /** Swapping the detected and the template keypoints does not change a region score. */
  lemma PartAccuracySymmetric(sqrt: SquareRoot, user: KeypointSet, template: KeypointSet, joints: seq<Joint>)
    ensures PartAccuracy(sqrt, user, template, joints) == PartAccuracy(sqrt, template, user, joints)
  {
    JointTotalsSymmetric(sqrt, user, template, joints);
  }

  // ----- feedback -----

  datatype Region = Shoulders | Arms | Hips | Legs

  /** The regions in the order `Object.entries(bodyParts)` visits them. */
  const Regions: seq<Region> := [Shoulders, Arms, Hips, Legs]

  lemma RegionListed(r: Region)
    ensures r in Regions
  {
    assert Regions[0] == Shoulders && Regions[1] == Arms && Regions[2] == Hips && Regions[3] == Legs;
  }

  /** A region scoring below this gets a corrective message. */
  const FeedbackThreshold: real := 70.0

  function RegionJoints(r: Region): (js: seq<Joint>)
    ensures 2 <= |js| <= 4
    ensures forall a, b :: 0 <= a < b < |js| ==> js[a] != js[b]
  {
    match r
    case Shoulders => [LeftShoulder, RightShoulder]
    case Arms => [LeftElbow, RightElbow, LeftWrist, RightWrist]
    case Hips => [LeftHip, RightHip]
    case Legs => [LeftKnee, RightKnee, LeftAnkle, RightAnkle]
  }

  /** The body part a region's advice is about, as the advice words it. */
  function PartWord(r: Region): string {
    match r
    case Shoulders => "肩膀"
    case Arms => "手臂"
    case Hips => "髋部"
    case Legs => "腿部"
  }

  /** The corrective advice for a region: it names the region's body part. */
  function RegionMessage(r: Region): (m: string)
    ensures Contains(m, PartWord(r))
  {
    match r
    case Shoulders =>
      var m := "尝试调整肩膀的位置，保持肩膀放松下沉。";
      ContainsAt(m, "肩膀", 4);
      m
    case Arms =>
      var m := "注意手臂的伸展和角度，尝试更好地对齐。";
      ContainsAt(m, "手臂", 2);
      m
    case Hips =>
      var m := "检查髋部的旋转和位置，保持骨盆的正确定位。";
      ContainsAt(m, "髋部", 2);
      m
    case Legs =>
      var m := "调整腿部姿势，注意膝盖和脚踝的对齐。";
      ContainsAt(m, "腿部", 2);
      m
  }

  /** The general encouragement: it names the pose. */
  function Encouragement(poseName: string): (m: string)
    ensures StartsWith(m, "您的") && Contains(m, poseName)
  {
    var m := "您的" + poseName + "姿势看起来不错，继续保持！";
    ContainsAt(m, poseName, 2);
    m
  }

  function RegionScore(sqrt: SquareRoot, user: KeypointSet, template: KeypointSet, r: Region): (s: real)
    ensures 0.0 <= s <= 100.0
    ensures |PresentJoints(user, template, RegionJoints(r))| == 0 ==> s == 0.0
  {
    PartAccuracy(sqrt, user, template, RegionJoints(r))
  }

  /** A region none of whose joints is present in both sets scores 0. */
  lemma RegionScoreOfMissing(sqrt: SquareRoot, user: KeypointSet, template: KeypointSet, r: Region)
    requires forall j :: j in RegionJoints(r) ==> j !in user || j !in template
    ensures RegionScore(sqrt, user, template, r) == 0.0
  {
    NonePresent(user, template, RegionJoints(r));
  }

  lemma {:induction false} NonePresent(user: KeypointSet, template: KeypointSet, joints: seq<Joint>)
    requires forall j :: j in joints ==> j !in user || j !in template
    ensures PresentJoints(user, template, joints) == []
  {
    if joints != [] {
      var init := joints[..|joints| - 1];
      assert joints == init + [joints[|joints| - 1]];
      NonePresent(user, template, init);
    }
  }

  /** The regions of `rs` whose score is below the threshold, in order. */
  function FlaggedRegions(sqrt: SquareRoot, user: KeypointSet, template: KeypointSet, rs: seq<Region>): (fs: seq<Region>)
    ensures forall r :: r in fs <==> r in rs && RegionScore(sqrt, user, template, r) < FeedbackThreshold
  {
    if rs == [] then []
    else
      var init := FlaggedRegions(sqrt, user, template, rs[..|rs| - 1]);
      var last := rs[|rs| - 1];
      assert rs == rs[..|rs| - 1] + [last];
      if RegionScore(sqrt, user, template, last) < FeedbackThreshold then init + [last] else init
  }

  /** The flagged regions are those of `rs` scoring below the threshold, in
      their order in `rs`. */
  lemma FlaggedRegionsSelect(sqrt: SquareRoot, user: KeypointSet, template: KeypointSet, rs: seq<Region>)
    ensures var fs := FlaggedRegions(sqrt, user, template, rs);
      && (forall r :: r in fs <==> r in rs && RegionScore(sqrt, user, template, r) < FeedbackThreshold)
      && IsSubsequence(fs, rs)
  {
    FlaggedRegionsInOrder(sqrt, user, template, rs);
  }

  lemma {:induction false} FlaggedRegionsInOrder(sqrt: SquareRoot, user: KeypointSet, template: KeypointSet, rs: seq<Region>)
    ensures IsSubsequence(FlaggedRegions(sqrt, user, template, rs), rs)
  {
    if rs != [] {
      var init := rs[..|rs| - 1];
      var last := rs[|rs| - 1];
      FlaggedRegionsInOrder(sqrt, user, template, init);
      var fs := FlaggedRegions(sqrt, user, template, init);
      if RegionScore(sqrt, user, template, last) < FeedbackThreshold {
        assert (fs + [last])[..|fs|] == fs;
      } else {
        assert fs != [] ==> fs[|fs| - 1] in fs;
      }
    }
  }

  function RegionMessages(rs: seq<Region>): (ms: seq<string>)
    ensures |ms| == |rs|
    ensures forall k :: 0 <= k < |rs| ==> ms[k] == RegionMessage(rs[k])
  {
    seq(|rs|, k requires 0 <= k < |rs| => RegionMessage(rs[k]))
  }

  lemma RegionMessagesAppend(rs: seq<Region>, r: Region)
    ensures RegionMessages(rs + [r]) == RegionMessages(rs) + [RegionMessage(r)]
  {
    var grown := rs + [r];
    assert forall k :: 0 <= k < |rs| ==> grown[k] == rs[k];
  }

  lemma RegionMessagesPrefix(rs: seq<Region>, n: nat)
    requires n <= |rs|
    ensures RegionMessages(rs)[..n] == RegionMessages(rs[..n])
  {
    var prefix := rs[..n];
    assert forall k :: 0 <= k < n ==> prefix[k] == rs[k];
  }

  /** `generatePoseFeedback`: one message per region scoring below 70, in region
      order, or the encouragement alone when no region does. */
  function PoseFeedback(sqrt: SquareRoot, user: KeypointSet, template: KeypointSet, poseName: string): (fb: seq<string>)
    ensures 1 <= |fb| <= 4
  {
    var flagged := FlaggedRegions(sqrt, user, template, Regions);
    FlaggedRegionsInOrder(sqrt, user, template, Regions);
    SubsequenceLength(flagged, Regions);
    var messages := RegionMessages(flagged);
    if messages == [] then [Encouragement(poseName)] else messages
  }

  method GeneratePoseFeedback(sqrt: SquareRoot, user: KeypointSet, template: KeypointSet, poseName: string)
    returns (feedback: seq<string>)
    ensures feedback == PoseFeedback(sqrt, user, template, poseName)
    ensures 1 <= |feedback| <= 4
  {
    feedback := [];
    for i := 0 to |Regions|
      invariant feedback == RegionMessages(FlaggedRegions(sqrt, user, template, Regions[..i]))
    {
      var part := Regions[i];
      FeedbackStep(sqrt, user, template, Regions, i);
      var partScore := CalculatePartAccuracy(sqrt, user, template, RegionJoints(part));
      if partScore < 70.0 {
        feedback := feedback + [RegionMessage(part)];
      }
    }
    assert Regions[..|Regions|] == Regions;
    if |feedback| == 0 {
      feedback := feedback + [Encouragement(poseName)];
    }
  }

  /** One more region either adds its message at the end or adds nothing. */
  lemma FeedbackStep(sqrt: SquareRoot, user: KeypointSet, template: KeypointSet, rs: seq<Region>, i: nat)
    requires i < |rs|
    ensures RegionMessages(FlaggedRegions(sqrt, user, template, rs[..i + 1])) ==
      RegionMessages(FlaggedRegions(sqrt, user, template, rs[..i])) +
      (if RegionScore(sqrt, user, template, rs[i]) < FeedbackThreshold then [RegionMessage(rs[i])] else [])
  {
    var prefix := rs[..i + 1];
    var init := FlaggedRegions(sqrt, user, template, rs[..i]);
    var flagged := RegionScore(sqrt, user, template, rs[i]) < FeedbackThreshold;
    assert FlaggedRegions(sqrt, user, template, prefix) == if flagged then init + [rs[i]] else init by {
      assert prefix[..|prefix| - 1] == rs[..i];
      assert prefix[|prefix| - 1] == rs[i];
    }
    if flagged {
      RegionMessagesAppend(init, rs[i]);
    }
  }

  lemma {:induction false} SubsequenceLength<T>(a: seq<T>, b: seq<T>)
    requires IsSubsequence(a, b)
    ensures |a| <= |b|
    decreases |b|
  {
    if a != [] && b != [] {
      if a[|a| - 1] == b[|b| - 1] {
        SubsequenceLength(a[..|a| - 1], b[..|b| - 1]);
      } else {
        SubsequenceLength(a, b[..|b| - 1]);
      }
    }
  }

  lemma MessagesDiffer(r: Region, poseName: string)
    ensures RegionMessage(r) != Encouragement(poseName)
    ensures forall q :: RegionMessage(q) == RegionMessage(r) ==> q == r
  {
    assert Encouragement(poseName)[0] == '您';
    MessageInitial(Shoulders);
    MessageInitial(Arms);
    MessageInitial(Hips);
    MessageInitial(Legs);
  }

  lemma MessagesDistinct(q: Region, r: Region)
    requires q != r
    ensures RegionMessage(q) != RegionMessage(r)
  {
    MessageInitial(q);
    MessageInitial(r);
  }

  /** Each region's advice starts with its own character. */
  lemma MessageInitial(r: Region)
    ensures |RegionMessage(r)| > 0
    ensures RegionMessage(r)[0] == match r case Shoulders => '尝' case Arms => '注' case Hips => '检' case Legs => '调'
  {
  }

  /** A region's message appears exactly when that region scores below 70
      (so a region with none of its joints present always appears). */
  lemma PoseFeedbackRegion(sqrt: SquareRoot, user: KeypointSet, template: KeypointSet, poseName: string, r: Region)
    ensures RegionMessage(r) in PoseFeedback(sqrt, user, template, poseName)
        <==> RegionScore(sqrt, user, template, r) < FeedbackThreshold
  {
    var flagged := FlaggedRegions(sqrt, user, template, Regions);
    FlaggedRegionsSelect(sqrt, user, template, Regions);
    MessagesDiffer(r, poseName);
    RegionListed(r);
    MessageListed(flagged, r);
  }

  /** Distinct regions have distinct messages, so a message is listed exactly
      when its region is. */
  lemma MessageListed(fs: seq<Region>, r: Region)
    ensures RegionMessage(r) in RegionMessages(fs) <==> r in fs
  {
    MessagesDiffer(r, "");
    if r in fs {
      var k :| 0 <= k < |fs| && fs[k] == r;
      assert RegionMessages(fs)[k] == RegionMessage(r);
    }
    if RegionMessage(r) in RegionMessages(fs) {
      var k :| 0 <= k < |fs| && RegionMessages(fs)[k] == RegionMessage(r);
      assert fs[k] == r;
    }
  }

  /** The encouragement appears exactly when every region scores at least 70,
      and then it is the only message. */
  lemma PoseFeedbackEncouragement(sqrt: SquareRoot, user: KeypointSet, template: KeypointSet, poseName: string)
    ensures var fb := PoseFeedback(sqrt, user, template, poseName);
      (Encouragement(poseName) in fb <==> forall r :: RegionScore(sqrt, user, template, r) >= FeedbackThreshold) &&
      (Encouragement(poseName) in fb ==> fb == [Encouragement(poseName)])
  {
    var fb := PoseFeedback(sqrt, user, template, poseName);
    var flagged := FlaggedRegions(sqrt, user, template, Regions);
    FlaggedRegionsSelect(sqrt, user, template, Regions);
    if flagged != [] {
      assert fb == RegionMessages(flagged);
      forall k | 0 <= k < |fb| ensures fb[k] != Encouragement(poseName) {
        MessagesDiffer(flagged[k], poseName);
      }
      assert Encouragement(poseName) !in fb;
      assert flagged[0] in flagged;
      assert RegionScore(sqrt, user, template, flagged[0]) < FeedbackThreshold;
    } else {
      assert fb == [Encouragement(poseName)];
      forall r ensures RegionScore(sqrt, user, template, r) >= FeedbackThreshold {
        RegionListed(r);
      }
    }
  }

  /** Region messages keep the canonical order shoulders, arms, hips, legs. */
  lemma MessagesOfSubsequence(a: seq<Region>, b: seq<Region>)
    requires IsSubsequence(a, b)
    ensures IsSubsequence(RegionMessages(a), RegionMessages(b))
  {
    forall q: Region, r: Region | RegionMessage(q) == RegionMessage(r)
      ensures q == r
    {
      if q != r {
        MessagesDistinct(q, r);
      }
    }
    MapSubsequence(RegionMessage, a, b);
    assert RegionMessages(a) == Map(RegionMessage, a);
    assert RegionMessages(b) == Map(RegionMessage, b);
  }

  /** Unless it is the encouragement alone, the feedback is an in-order selection
      of the four region messages, each at most once. */
  lemma PoseFeedbackOrder(sqrt: SquareRoot, user: KeypointSet, template: KeypointSet, poseName: string)
    ensures var fb := PoseFeedback(sqrt, user, template, poseName);
      fb == [Encouragement(poseName)] || IsSubsequence(fb, RegionMessages(Regions))
  {
    FlaggedRegionsSelect(sqrt, user, template, Regions);
    MessagesOfSubsequence(FlaggedRegions(sqrt, user, template, Regions), Regions);
  }
}
