/** The body-joint vocabulary shared by the scorer, the fixture loader and the
    MediaPipe adapter: thirteen named joints, each mapped to a point. A joint
    missing from a `KeypointSet` is a property absent from the JavaScript
    object. */
module Keypoints {

  datatype Joint =
    | Nose
    | LeftShoulder | RightShoulder
    | LeftElbow | RightElbow
    | LeftWrist | RightWrist
    | LeftHip | RightHip
    | LeftKnee | RightKnee
    | LeftAnkle | RightAnkle

  /** `{x, y, score}`: normalised image coordinates and detector confidence. */
  datatype Point = Point(x: real, y: real, score: real)

  type KeypointSet = map<Joint, Point>

  const AllJoints: set<Joint> := {
    Nose, LeftShoulder, RightShoulder, LeftElbow, RightElbow, LeftWrist, RightWrist,
    LeftHip, RightHip, LeftKnee, RightKnee, LeftAnkle, RightAnkle
  }

  /** The thirteen joints are distinct. */
  lemma AllJointsCount()
    ensures |AllJoints| == 13
  {
  }

  lemma EveryJointListed(j: Joint)
    ensures j in AllJoints
  {
  }
}
