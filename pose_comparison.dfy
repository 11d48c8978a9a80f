/** Scoring against the current entry of a sequence, and the session summary
    (backend/utils/poseComparison.js). */
module PoseComparison {
  import opened Common
  import opened Keypoints
  import opened PoseAnalysis
  import opened Text

  /** The populated `pose` of a sequence entry: id, display name, template. */
  datatype PoseTemplate = PoseTemplate(id: string, name: string, keypoints: KeypointSet)

  /** `{pose, duration, transitionHint}`; an absent hint is `None`. */
  datatype SequenceEntry = SequenceEntry(pose: PoseTemplate, duration: int, transitionHint: Option<string>)

  /** A sequence whose `poses` field may be missing. */
  datatype Sequence = Sequence(poses: Option<seq<SequenceEntry>>)

  datatype NextPose = NextPose(name: string, transitionHint: Option<string>)

  datatype CurrentPoseReport = CurrentPoseReport(
    poseId: string,
    poseName: string,
    currentIndex: int,
    totalPoses: nat,
    duration: int,
    accuracy: int,
    feedback: seq<string>,
    isLastPose: bool,
    nextPose: Option<NextPose>)

  /** The three outcomes of `analyzeSequencePose`: the error object, a
      TypeError thrown by reading `.pose` of an entry that does not exist
      (a negative index), and the report. */
  datatype AnalysisResult =
    | InvalidRequest(error: string)
    | Thrown
    | Analyzed(report: CurrentPoseReport)

  const InvalidSequenceError: string := "Invalid sequence or pose index"

  /** `hint || null`: an empty string counts as absent. */
  function HintOrNull(hint: Option<string>): (r: Option<string>)
    ensures r.Some? <==> hint.Some? && hint.value != ""
    ensures r.Some? ==> r == hint
  {
    match hint
    case Some(h) => if h == "" then None else Some(h)
    case None => None
  }

  /** `analyzeSequencePose`. */
  function AnalyzeSequencePose(atan2: Atan2Degrees, sqrt: SquareRoot, user: KeypointSet,
                               sequence: Option<Sequence>, currentPoseIndex: int): (r: AnalysisResult)
    ensures r.InvalidRequest? <==>
      sequence.None? || sequence.value.poses.None? || currentPoseIndex >= |sequence.value.poses.value|
    ensures r.InvalidRequest? ==> r.error == InvalidSequenceError
    ensures r.Thrown? <==> !r.InvalidRequest? && currentPoseIndex < 0
    ensures r.Analyzed? ==>
      var poses := sequence.value.poses.value;
      var entry := poses[currentPoseIndex];
      var rep := r.report;
      && rep.poseId == entry.pose.id
      && rep.poseName == entry.pose.name
      && rep.currentIndex == currentPoseIndex
      && rep.totalPoses == |poses|
      && rep.duration == entry.duration
      && rep.accuracy == PoseAccuracy(atan2, user, entry.pose.keypoints)
      && rep.feedback == PoseFeedback(sqrt, user, entry.pose.keypoints, entry.pose.name)
      && -100 <= rep.accuracy <= 100 && 1 <= |rep.feedback| <= 4
      && (rep.isLastPose <==> currentPoseIndex == |poses| - 1)
      && (rep.nextPose.None? <==> rep.isLastPose)
      && (rep.nextPose.Some? ==>
            rep.nextPose.value.name == poses[currentPoseIndex + 1].pose.name &&
            rep.nextPose.value.transitionHint == HintOrNull(poses[currentPoseIndex + 1].transitionHint))
  {
    if sequence.None? || sequence.value.poses.None? || currentPoseIndex >= |sequence.value.poses.value| then
      InvalidRequest(InvalidSequenceError)
    else if currentPoseIndex < 0 then
      Thrown
    else
      var poses := sequence.value.poses.value;
      var current := poses[currentPoseIndex];
      var template := current.pose.keypoints;
      Analyzed(CurrentPoseReport(
        poseId := current.pose.id,
        poseName := current.pose.name,
        currentIndex := currentPoseIndex,
        totalPoses := |poses|,
        duration := current.duration,
        accuracy := PoseAccuracy(atan2, user, template),
        feedback := PoseFeedback(sqrt, user, template, current.pose.name),
        isLastPose := currentPoseIndex == |poses| - 1,
        nextPose :=
          if currentPoseIndex < |poses| - 1 then
            Some(NextPose(poses[currentPoseIndex + 1].pose.name, HintOrNull(poses[currentPoseIndex + 1].transitionHint)))
          else None))
  }


  // ----- session summary -----

  /** One completed pose: its name and accuracy (`record.pose.name`, `record.accuracy`). */
  datatype PoseRecord = PoseRecord(poseName: string, accuracy: real)

  /** `{completed, averageAccuracy, completedPoses?, feedback}`; `completedPoses`
      is absent from the empty-session object. */
  datatype SessionSummary = SessionSummary(
    completed: bool,
    averageAccuracy: real,
    completedPoses: Option<nat>,
    feedback: seq<string>)

  const NoPosesMessage: string := "还没有完成任何姿势"
  const ExcellentMessage: string := "出色的表现！您掌握了这个序列的大部分姿势。"
  const GoodMessage: string := "不错的尝试！继续练习可以提高您的准确度。"
  const KeepPractisingMessage: string := "继续练习，随着时间的推移您会看到改进。"

  /** The advice about the weakest pose: it names the pose, in quotes. */
  function WeakestPoseMessage(poseName: string): (m: string)
    ensures Contains(m, "\"" + poseName + "\"")
  {
    var m := "您可能想要多练习\"" + poseName + "\"，这是您最具挑战性的姿势。";
    ContainsAt(m, "\"" + poseName + "\"", 8);
    m
  }

  /** `records.reduce((sum, record) => sum + record.accuracy, 0)`: 0 for no
      records, and never negative when no accuracy is. */
  function TotalAccuracy(records: seq<PoseRecord>): (r: real)
    ensures records == [] ==> r == 0.0
    ensures (forall j :: 0 <= j < |records| ==> records[j].accuracy >= 0.0) ==> r >= 0.0
  {
    if records == [] then 0.0
    else
      var init := records[..|records| - 1];
      assert forall j :: 0 <= j < |init| ==> init[j] == records[j];
      TotalAccuracy(init) + records[|records| - 1].accuracy
  }

  /** The index the `reduce` that looks for the worst pose keeps after visiting
      `records[..i]`, starting from `worst`: it moves only on a strictly smaller
      accuracy, so it names the FIRST record of minimum accuracy. */
  function WorstFrom(records: seq<PoseRecord>, worst: nat, i: nat): (k: nat)
    requires worst < |records| && i <= |records| && (worst < i || worst == 0)
    requires forall j :: 0 <= j < i ==> records[worst].accuracy <= records[j].accuracy
    requires forall j :: 0 <= j < worst ==> records[j].accuracy > records[worst].accuracy
    ensures k < |records|
    ensures forall j :: 0 <= j < |records| ==> records[k].accuracy <= records[j].accuracy
    ensures forall j :: 0 <= j < k ==> records[j].accuracy > records[k].accuracy
    decreases |records| - i
  {
    if i == |records| then worst
    else WorstFrom(records, if records[i].accuracy < records[worst].accuracy then i else worst, i + 1)
  }

  /** The record `userRecords.reduce(..., userRecords[0])` returns. */
  function WeakestIndex(records: seq<PoseRecord>): (k: nat)
    requires records != []
    ensures k < |records|
    ensures forall j :: 0 <= j < |records| ==> records[k].accuracy <= records[j].accuracy
    ensures forall j :: 0 <= j < k ==> records[j].accuracy > records[k].accuracy
  {
    WorstFrom(records, 0, 0)
  }

  /** `trackSequenceProgress`; `records` is `None` when `userRecords` is missing. */
  method TrackSequenceProgress(records: Option<seq<PoseRecord>>) returns (summary: SessionSummary)
    ensures (records.None? || records.value == []) ==>
      summary == SessionSummary(false, 0.0, None, [NoPosesMessage])
    ensures records.Some? && records.value != [] ==>
      var rs := records.value;
      var average := TotalAccuracy(rs) / |rs| as real;
      var weakest := rs[WeakestIndex(rs)];
      && summary.completed
      && summary.completedPoses == Some(|rs|)
      && summary.averageAccuracy == average
      && 1 <= |summary.feedback| <= 2
      && (average >= 85.0 ==> summary.feedback[0] == ExcellentMessage)
      && (70.0 <= average < 85.0 ==> summary.feedback[0] == GoodMessage)
      && (average < 70.0 ==> summary.feedback[0] == KeepPractisingMessage)
      && (|summary.feedback| == 2 <==> |rs| > 1 && weakest.accuracy < 70.0)
      && (|summary.feedback| == 2 ==> summary.feedback[1] == WeakestPoseMessage(weakest.poseName))
  {
    if records.None? || records.value == [] {
      return SessionSummary(false, 0.0, None, [NoPosesMessage]);
    }
    var userRecords := records.value;
    var totalAccuracy := TotalAccuracy(userRecords);
    var averageAccuracy := totalAccuracy / |userRecords| as real;

    var feedback: seq<string> := [];
    if averageAccuracy >= 85.0 {
      feedback := feedback + [ExcellentMessage];
    } else if averageAccuracy >= 70.0 {
      feedback := feedback + [GoodMessage];
    } else {
      feedback := feedback + [KeepPractisingMessage];
    }

    if |userRecords| > 1 {
      var worstPose := userRecords[WeakestIndex(userRecords)];
      if worstPose.accuracy < 70.0 {
        feedback := feedback + [WeakestPoseMessage(worstPose.poseName)];
      }
    }
    summary := SessionSummary(true, averageAccuracy, Some(|userRecords|), feedback);
  }

  /** The weakest pose is determined by the accuracies alone: any first
      minimum is the one `WeakestIndex` picks. */
  lemma WeakestIndexUnique(records: seq<PoseRecord>, k: nat)
    requires k < |records|
    requires forall j :: 0 <= j < |records| ==> records[k].accuracy <= records[j].accuracy
    requires forall j :: 0 <= j < k ==> records[j].accuracy > records[k].accuracy
    ensures WeakestIndex(records) == k
  {
    var w := WeakestIndex(records);
    var atW, atK := records[w].accuracy, records[k].accuracy;
    assert atW <= atK && atK <= atW;
  }

  /** Accuracies in [0, 100] sum to between 0 and 100 per record. */
  lemma {:induction false} TotalAccuracyBounds(records: seq<PoseRecord>)
    requires forall j :: 0 <= j < |records| ==> 0.0 <= records[j].accuracy <= 100.0
    ensures 0.0 <= TotalAccuracy(records) <= |records| as real * 100.0
  {
    if records != [] {
      var init := records[..|records| - 1];
      assert forall j :: 0 <= j < |init| ==> init[j] == records[j];
      TotalAccuracyBounds(init);
      assert |records| as real * 100.0 == |init| as real * 100.0 + 100.0;
    }
  }

  /** Records scored in [0, 100] average in [0, 100]. */
  lemma AverageInRange(records: seq<PoseRecord>)
    requires records != []
    requires forall j :: 0 <= j < |records| ==> 0.0 <= records[j].accuracy <= 100.0
    ensures 0.0 <= TotalAccuracy(records) / |records| as real <= 100.0
  {
    TotalAccuracyBounds(records);
    MeanWithin(TotalAccuracy(records), |records| as real);
  }

  lemma MeanWithin(total: real, n: real)
    requires n > 0.0 && 0.0 <= total <= n * 100.0
    ensures 0.0 <= total / n <= 100.0
  {
    DivMono(0.0, total, n);
    DivMono(total, n * 100.0, n);
    ScaleCancels(n, 100.0);
  }
}
