/** The MediaPipe adapter of the training context
    (frontend/src/contexts/TrainingContext.js): a detector's array of 33
    landmarks becomes a `KeypointSet` keyed by the thirteen named joints. */
module TrainingContext {
  import opened Common
  import opened Keypoints

  /** One element of the detector's array; `score` may be absent. */
  datatype RawKeypoint = RawKeypoint(x: real, y: real, score: Option<real>)

  /** `keypointMap[index]`: the joint a MediaPipe index stands for, if any.
      Exactly the indices 0, 11-16 and 23-28 are mapped, each to the joint
      whose index it is. */
  function JointAt(index: int): (r: Option<Joint>)
    ensures r.Some? <==> index == 0 || 11 <= index <= 16 || 23 <= index <= 28
    ensures r.Some? ==> JointIndex(r.value) == index
  {
    match index
    case 0 => Some(Nose)
    case 11 => Some(LeftShoulder)
    case 12 => Some(RightShoulder)
    case 13 => Some(LeftElbow)
    case 14 => Some(RightElbow)
    case 15 => Some(LeftWrist)
    case 16 => Some(RightWrist)
    case 23 => Some(LeftHip)
    case 24 => Some(RightHip)
    case 25 => Some(LeftKnee)
    case 26 => Some(RightKnee)
    case 27 => Some(LeftAnkle)
    case 28 => Some(RightAnkle)
    case _ => None
  }

  /** The MediaPipe index of each joint. */
  function JointIndex(j: Joint): (i: nat)
    ensures i == 0 || 11 <= i <= 16 || 23 <= i <= 28
  {
    match j
    case Nose => 0
    case LeftShoulder => 11
    case RightShoulder => 12
    case LeftElbow => 13
    case RightElbow => 14
    case LeftWrist => 15
    case RightWrist => 16
    case LeftHip => 23
    case RightHip => 24
    case LeftKnee => 25
    case RightKnee => 26
    case LeftAnkle => 27
    case RightAnkle => 28
  }

  /** The table is a bijection between the thirteen joints and the indices
      0, 11-16 and 23-28; every other index is unmapped. */
  lemma JointTableInverse(index: int, j: Joint)
    ensures JointAt(index) == Some(j) <==> JointIndex(j) == index
    ensures JointAt(index).Some? <==> index == 0 || 11 <= index <= 16 || 23 <= index <= 28
  {
  }

  /** `{x, y, score: keypoint.score || 0}`. */
  function Normalized(k: RawKeypoint): (p: Point)
    ensures p.x == k.x && p.y == k.y
    ensures p.score == if k.score.Some? then k.score.value else 0.0
  {
    Point(k.x, k.y, k.score.GetOr(0.0))
  }

  /** `normalizeKeypoints`: a joint is present exactly when its index is
      inside the array, and then carries that element's coordinates. */
  method NormalizeKeypoints(keypoints: seq<RawKeypoint>) returns (result: KeypointSet)
    ensures forall j :: j in result <==> JointIndex(j) < |keypoints|
    ensures forall j :: j in result ==> result[j] == Normalized(keypoints[JointIndex(j)])
    ensures result.Keys == PresentFor(|keypoints|)
  {
    result := map[];
    for index := 0 to |keypoints|
      invariant forall j :: j in result <==> JointIndex(j) < index
      invariant forall j :: j in result ==> result[j] == Normalized(keypoints[JointIndex(j)])
    {
      var joint := JointAt(index);
      if joint.Some? {
        JointTableInverse(index, joint.value);
        result := result[joint.value := Normalized(keypoints[index])];
      }
    }
  }

  /** The joints present for an array of length `n`. */
  function PresentFor(n: nat): (js: set<Joint>)
    ensures js <= AllJoints
    ensures forall j :: j in js <==> JointIndex(j) < n
  {
    set j | j in AllJoints && JointIndex(j) < n
  }

  /** The mapped indices below `n`. */
  function MappedBelow(n: nat): set<nat> {
    set i: nat | i < n && JointAt(i).Some?
  }

  lemma {:induction false} IndexImageSize(js: set<Joint>)
    ensures |set j | j in js :: JointIndex(j)| == |js|
    decreases |js|
  {
    if js != {} {
      var j :| j in js;
      var rest := js - {j};
      IndexImageSize(rest);
      var image := set k | k in js :: JointIndex(k);
      var restImage := set k | k in rest :: JointIndex(k);
      assert image == restImage + {JointIndex(j)};
      assert JointIndex(j) !in restImage;
    }
  }

  /** The output has one entry per mapped index below the array length, so
      never more than thirteen. */
  lemma NormalizedSize(n: nat)
    ensures |PresentFor(n)| == |MappedBelow(n)|
    ensures |PresentFor(n)| <= 13
  {
    var js := PresentFor(n);
    IndexImageSize(js);
    IndexImageOfPresent(n);
    AllJointsCount();
    SubsetSize(js, AllJoints);
  }

  lemma IndexImageOfPresent(n: nat)
    ensures (set j | j in PresentFor(n) :: JointIndex(j)) == MappedBelow(n)
  {
    var image := set j | j in PresentFor(n) :: JointIndex(j);
    forall i | i in MappedBelow(n)
      ensures i in image
    {
      JointTableInverse(i, JointAt(i).value);
    }
  }

  lemma SubsetSize(a: set<Joint>, b: set<Joint>)
    requires a <= b
    ensures |a| <= |b|
  {
    assert b == a + (b - a);
  }
}
