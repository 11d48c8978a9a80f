/** The guided training page (frontend/src/components/TrainingModes/SequenceTraining.js):
    the pose cursor and count-up timer, the clock text, the landmark scorer and the
    feedback line shown under the camera view. */
module SequenceTraining {
  import opened Common
  import opened Text
  import opened PoseAnalysis

  // ----- pose cursor and timer -----

  /** What the page's controls and its one-second interval do to the state. */
  datatype Control = Toggle | Tick | Next | Prev

  /** `currentPoseIndex`, `isPlaying` and `time`. */
  datatype PlayerState = PlayerState(index: int, isPlaying: bool, time: nat)

  /** Effect of one control for a sequence of `count` poses (`None` while no
      sequence is loaded): a tick counts one second only while playing, a
      toggle never touches the clock, and moving to a neighbouring pose stops
      and resets it; moving past either end does nothing. */
  function Step(count: Option<nat>, s: PlayerState, c: Control): (t: PlayerState)
    ensures c == Toggle ==> t == s.(isPlaying := !s.isPlaying)
    ensures c == Tick ==> t == s.(time := if s.isPlaying then s.time + 1 else s.time)
    ensures c == Next ==>
      if count.None? || s.index >= count.value - 1 then t == s else t == PlayerState(s.index + 1, false, 0)
    ensures c == Prev ==>
      if count.None? || s.index <= 0 then t == s else t == PlayerState(s.index - 1, false, 0)
  {
    match c
    case Toggle => s.(isPlaying := !s.isPlaying)
    case Tick => if s.isPlaying then s.(time := s.time + 1) else s
    case Next => if count.None? || s.index >= count.value - 1 then s else PlayerState(s.index + 1, false, 0)
    case Prev => if count.None? || s.index <= 0 then s else PlayerState(s.index - 1, false, 0)
  }

  /** The state after the controls `cs`, in order. Without a sequence the
      cursor never moves, and the clock never runs ahead of the interval:
      each tick adds at most one second. */
  function Run(count: Option<nat>, s: PlayerState, cs: seq<Control>): (r: PlayerState)
    ensures count.None? ==> r.index == s.index
    ensures r.time <= s.time + Ticks(cs)
    decreases |cs|
  {
    if cs == [] then s
    else
      assert cs == [cs[0]] + cs[1..];
      assert multiset(cs) == multiset{cs[0]} + multiset(cs[1..]);
      Run(count, Step(count, s, cs[0]), cs[1..])
  }

  predicate InRange(count: Option<nat>, s: PlayerState) {
    count.Some? && 0 <= s.index < count.value
  }

  /** Whatever the controls, an index that starts inside the sequence stays inside it. */
  lemma {:induction false} RunStaysInRange(count: Option<nat>, s: PlayerState, cs: seq<Control>)
    requires InRange(count, s)
    ensures InRange(count, Run(count, s, cs))
    decreases |cs|
  {
    if cs != [] {
      RunStaysInRange(count, Step(count, s, cs[0]), cs[1..]);
    }
  }

  function Ticks(cs: seq<Control>): nat {
    multiset(cs)[Tick]
  }


  /** Going forward and then back returns to the same pose, stopped at 0:00. */
  lemma NextThenPrev(count: Option<nat>, s: PlayerState)
    requires InRange(count, s) && s.index < count.value - 1
    ensures Run(count, s, [Next, Prev]) == PlayerState(s.index, false, 0)
  {
    assert [Next, Prev][1..] == [Prev];
    assert [Prev][1..] == [];
  }

  /** The page's state fields; `timerActive` is whether `timerRef` holds an interval. */
  class SequencePlayer {
    var poseCount: Option<nat>
    var currentPoseIndex: int
    var isPlaying: bool
    var time: nat
    var timerActive: bool

    /** The interval runs exactly while the player is playing. */
    predicate Valid()
      reads this
    {
      timerActive == isPlaying
    }

    function State(): PlayerState
      reads this
    {
      PlayerState(currentPoseIndex, isPlaying, time)
    }

    constructor ()
      ensures poseCount == None && State() == PlayerState(0, false, 0) && Valid()
    {
      poseCount := None;
      currentPoseIndex := 0;
      isPlaying := false;
      time := 0;
      timerActive := false;
    }

    /** `setSequence(data)` once the sequence has been fetched. */
    method SetSequence(count: nat)
      modifies this
      ensures poseCount == Some(count)
      ensures State() == old(State()) && timerActive == old(timerActive)
    {
      poseCount := Some(count);
    }

    /** `toggleTimer`: starts or clears the interval and flips `isPlaying`. */
    method ToggleTimer()
      requires Valid()
      modifies this
      ensures Valid() && poseCount == old(poseCount)
      ensures State() == Step(poseCount, old(State()), Toggle)
    {
      if isPlaying {
        timerActive := false;
      } else {
        timerActive := true;
      }
      isPlaying := !isPlaying;
    }

    /** One firing of the one-second interval. */
    method Tick()
      requires Valid()
      modifies this
      ensures Valid() && poseCount == old(poseCount)
      ensures State() == Step(poseCount, old(State()), Control.Tick)
    {
      if timerActive {
        time := time + 1;
      }
    }

    /** `nextPose`. */
    method NextPose()
      requires Valid()
      modifies this
      ensures Valid() && poseCount == old(poseCount)
      ensures State() == Step(poseCount, old(State()), Next)
    {
      if poseCount.None? || currentPoseIndex >= poseCount.value - 1 {
        return;
      }
      time := 0;
      isPlaying := false;
      if timerActive {
        timerActive := false;
      }
      currentPoseIndex := currentPoseIndex + 1;
    }

    /** `prevPose`. */
    method PrevPose()
      requires Valid()
      modifies this
      ensures Valid() && poseCount == old(poseCount)
      ensures State() == Step(poseCount, old(State()), Prev)
    {
      if poseCount.None? || currentPoseIndex <= 0 {
        return;
      }
      time := 0;
      isPlaying := false;
      if timerActive {
        timerActive := false;
      }
      currentPoseIndex := currentPoseIndex - 1;
    }
  }

  // ----- clock text -----

  /** `n.toString().padStart(2, '0')`: at least two decimal digits denoting `n`,
      exactly two when `n` is below 100. */
  function TwoDigits(n: nat): (r: string)
    ensures |r| >= 2 && (n < 100 ==> |r| == 2)
  {
    TwoDigitsLength(n);
    PadStart(NatToString(n), 2, '0')
  }

  lemma TwoDigitsLength(n: nat)
    ensures var r := PadStart(NatToString(n), 2, '0');
      |r| >= 2 && (n < 100 ==> |r| == 2)
  {
    if n < 100 { NatToStringBelow100(n); }
  }

  /** The padded field is all digits and reads back as the number. */
  lemma TwoDigitsValue(n: nat)
    ensures AllDigits(TwoDigits(n), 10) && DigitsValue(TwoDigits(n), 10) == n
  {
    PaddedNatValue(n, 2);
  }

  /** Minutes and seconds fields, each padded to two digits, around a colon. */
  function ClockText(mins: nat, secs: nat): (r: string)
    requires secs < 60
    ensures |r| >= 5 && r[|r| - 3] == ':'
  {
    TwoDigits(mins) + ":" + TwoDigits(secs)
  }

  /** `formatTime`. */
  function FormatTime(seconds: nat): (r: string)
    ensures |r| >= 5 && r[|r| - 3] == ':'
  {
    var ms := MinutesAndSeconds(seconds);
    ClockText(ms.0, ms.1)
  }

  /** `Math.floor(seconds / 60)` and `seconds % 60`. */
  function MinutesAndSeconds(seconds: nat): (r: (nat, nat))
    ensures r.1 < 60 && r.0 * 60 + r.1 == seconds
  {
    (seconds / 60, seconds % 60)
  }

  /** Reads `m…m:ss` text back as a number of seconds: digits, a colon, two digits. */
  function ReadClock(text: string): (r: Option<nat>)
  {
    if |text| >= 3 && text[|text| - 3] == ':' then ReadFields(text[..|text| - 3], text[|text| - 2..])
    else None
  }

  /** The minutes and seconds fields, read as one number of seconds. */
  function ReadFields(mm: string, ss: string): (r: Option<nat>) {
    if AllDigits(mm, 10) && AllDigits(ss, 10) then Some(DigitsValue(mm, 10) * 60 + DigitsValue(ss, 10))
    else None
  }

  /** What any `mm:ss` text with digit fields and a two-character seconds field reads as. */
  lemma ClockFields(mm: string, ss: string, seconds: nat)
    requires AllDigits(mm, 10) && AllDigits(ss, 10) && |ss| == 2
    requires DigitsValue(mm, 10) * 60 + DigitsValue(ss, 10) == seconds
    ensures ReadClock(mm + ":" + ss) == Some(seconds)
  {
    ClockSplits(mm, ss);
    assert ReadFields(mm, ss) == Some(seconds);
  }

  /** `mm:ss` text splits at its colon back into the two fields. */
  lemma ClockSplits(mm: string, ss: string)
    requires |ss| == 2
    ensures ReadClock(mm + ":" + ss) == ReadFields(mm, ss)
  {
    var r := mm + ":" + ss;
    assert r[|r| - 3] == ':';
    assert r[..|r| - 3] == mm;
    assert r[|r| - 2..] == ss;
  }

  lemma ClockTextValue(seconds: nat, mins: nat, secs: nat)
    requires mins * 60 + secs == seconds && secs < 60
    ensures ReadClock(ClockText(mins, secs)) == Some(seconds)
  {
    TwoDigitsValue(mins);
    TwoDigitsValue(secs);
    ClockFields(TwoDigits(mins), TwoDigits(secs), seconds);
  }

  /** The clock text shows the whole time: its minutes field times 60 plus its
      seconds field, which is always below 60, is the number of seconds formatted. */
  lemma FormatTimeValue(seconds: nat)
    ensures ReadClock(FormatTime(seconds)) == Some(seconds)
  {
    var (mins, secs) := MinutesAndSeconds(seconds);
    ClockTextValue(seconds, mins, secs);
  }

  // ----- landmark scorer -----

  /** A MediaPipe landmark: normalised position and visibility. */
  datatype Landmark = Landmark(x: real, y: real, visibility: real)

  /** `landmarks[i]`: `None` past the end of the array (`undefined`). */
  function At(ls: seq<Landmark>, i: nat): (r: Option<Landmark>)
    ensures r.Some? <==> i < |ls|
    ensures r.Some? ==> r.value == ls[i]
  {
    if i < |ls| then Some(ls[i]) else None
  }

  /** `POSE_LANDMARKS` indices of the shoulders, elbows, wrists, hips, knees and ankles. */
  const KeyLandmarks: seq<nat> := [11, 12, 13, 14, 15, 16, 23, 24, 25, 26, 27, 28]

  /** A pose template: the reference landmark at each index where the
      template has a truthy entry. A template array with holes or `null`
      entries, or an object keyed by index, lacks exactly those keys. */
  type Template = map<nat, Landmark>

  /** `template[i]`: `None` where the template has no truthy entry. */
  function TemplateAt(template: Template, i: nat): (r: Option<Landmark>)
    ensures r.Some? <==> i in template
    ensures r.Some? ==> r.value == template[i]
  {
    if i in template then Some(template[i]) else None
  }

  /** A landmark counts when it was detected with visibility above 0.5 and
      the template has an entry at the same index. */
  predicate Compared(landmarks: seq<Landmark>, template: Template, i: nat) {
    i < |landmarks| && landmarks[i].visibility > 0.5 && i in template
  }

  function ComparedPoints(landmarks: seq<Landmark>, template: Template, idxs: seq<nat>): (cs: seq<nat>)
    ensures forall i :: i in cs <==> i in idxs && Compared(landmarks, template, i)
  {
    if idxs == [] then []
    else
      var init := ComparedPoints(landmarks, template, idxs[..|idxs| - 1]);
      var last := idxs[|idxs| - 1];
      assert idxs == idxs[..|idxs| - 1] + [last];
      if Compared(landmarks, template, last) then init + [last] else init
  }

  /** Euclidean distance in the image plane; 0 between landmarks at the same
      position. */
  function LandmarkDistance(sqrt: SquareRoot, a: Landmark, b: Landmark): (r: NonNegReal)
    ensures sqrt(0.0) == 0.0 && a.x == b.x && a.y == b.y ==> r == 0.0
  {
    assert a.x == b.x && a.y == b.y ==> Square(a.x - b.x) + Square(a.y - b.y) == 0.0;
    sqrt(Square(a.x - b.x) + Square(a.y - b.y))
  }

  /** The sum of the distances of the compared landmarks of `idxs`: never
      negative, and 0 when none is compared. */
  function DistanceTotal(sqrt: SquareRoot, landmarks: seq<Landmark>, template: Template, idxs: seq<nat>): (r: real)
    ensures r >= 0.0
    ensures (forall i :: i in idxs ==> !Compared(landmarks, template, i)) ==> r == 0.0
  {
    if idxs == [] then 0.0
    else
      var init := DistanceTotal(sqrt, landmarks, template, idxs[..|idxs| - 1]);
      var last := idxs[|idxs| - 1];
      if Compared(landmarks, template, last) then init + LandmarkDistance(sqrt, landmarks[last], template[last]) else init
  }

  /** `Math.max(0, Math.min(100, (1 - avgDistance * 10) * 100))`. */
  function Clamp(avgDistance: real): (r: real)
    ensures 0.0 <= r <= 100.0
    ensures avgDistance == 0.0 ==> r == 100.0
    ensures avgDistance >= 0.1 ==> r == 0.0
  {
    Max(0.0, Min(100.0, (1.0 - avgDistance * 10.0) * 100.0))
  }

  /** One more index adds its distance and one compared point when it is
      compared, and nothing otherwise. */
  lemma CompareStep(sqrt: SquareRoot, landmarks: seq<Landmark>, template: Template, idxs: seq<nat>, k: nat)
    requires k < |idxs|
    ensures var i := idxs[k];
      && DistanceTotal(sqrt, landmarks, template, idxs[..k + 1]) ==
         DistanceTotal(sqrt, landmarks, template, idxs[..k]) +
         (if Compared(landmarks, template, i) then LandmarkDistance(sqrt, landmarks[i], template[i]) else 0.0)
      && |ComparedPoints(landmarks, template, idxs[..k + 1])| ==
         |ComparedPoints(landmarks, template, idxs[..k])| + (if Compared(landmarks, template, i) then 1 else 0)
  {
    assert idxs[..k + 1][..k] == idxs[..k];
  }

  /** Mean landmark distance over `idxs`, clamped into a percentage; 0 when no
      landmark of `idxs` is compared. */
  function MatchOver(sqrt: SquareRoot, landmarks: seq<Landmark>, template: Template, idxs: seq<nat>): (r: real)
    ensures 0.0 <= r <= 100.0
    ensures (forall i :: i in idxs ==> !Compared(landmarks, template, i)) ==> r == 0.0
  {
    var cs := ComparedPoints(landmarks, template, idxs);
    if |cs| == 0 then 0.0
    else
      assert cs[0] in cs;
      Clamp(DistanceTotal(sqrt, landmarks, template, idxs) / |cs| as real)
  }

  /** `comparePoseWithTemplate`; `None` is a missing `landmarks` or `template`. */
  function TemplateMatch(sqrt: SquareRoot, landmarks: Option<seq<Landmark>>, template: Option<Template>): (r: real)
    ensures 0.0 <= r <= 100.0
    ensures landmarks.None? || template.None? ==> r == 0.0
    ensures landmarks.Some? && template.Some? ==>
      ((forall i :: i in KeyLandmarks ==> !Compared(landmarks.value, template.value, i)) ==> r == 0.0)
  {
    if landmarks.None? || template.None? then 0.0
    else MatchOver(sqrt, landmarks.value, template.value, KeyLandmarks)
  }

  method ComparePoseWithTemplate(sqrt: SquareRoot, landmarks: Option<seq<Landmark>>, template: Option<Template>)
    returns (accuracy: real)
    ensures accuracy == TemplateMatch(sqrt, landmarks, template)
  {
    if landmarks.None? || template.None? {
      return 0.0;
    }
    var ls, ts := landmarks.value, template.value;
    var totalDistance := 0.0;
    var validPoints := 0;
    for k := 0 to |KeyLandmarks|
      invariant totalDistance == DistanceTotal(sqrt, ls, ts, KeyLandmarks[..k])
      invariant validPoints == |ComparedPoints(ls, ts, KeyLandmarks[..k])|
    {
      var pointIndex := KeyLandmarks[k];
      CompareStep(sqrt, ls, ts, KeyLandmarks, k);
      var detected := At(ls, pointIndex);
      var reference := TemplateAt(ts, pointIndex);
      if detected.Some? && detected.value.visibility > 0.5 && reference.Some? {
        var distance := LandmarkDistance(sqrt, detected.value, reference.value);
        totalDistance := totalDistance + distance;
        validPoints := validPoints + 1;
      }
    }
    assert KeyLandmarks[..|KeyLandmarks|] == KeyLandmarks;
    if validPoints == 0 {
      return 0.0;
    }
    var avgDistance := totalDistance / validPoints as real;
    accuracy := Max(0.0, Min(100.0, (1.0 - avgDistance * 10.0) * 100.0));
  }

  predicate CoincideAt(landmarks: seq<Landmark>, template: Template, idxs: seq<nat>) {
    forall i :: i in idxs && Compared(landmarks, template, i) ==>
      landmarks[i].x == template[i].x && landmarks[i].y == template[i].y
  }

  lemma {:induction false} DistanceTotalOfCoinciding(sqrt: SquareRoot, landmarks: seq<Landmark>, template: Template, idxs: seq<nat>)
    requires sqrt(0.0) == 0.0
    requires CoincideAt(landmarks, template, idxs)
    ensures DistanceTotal(sqrt, landmarks, template, idxs) == 0.0
  {
    if idxs != [] {
      var init := idxs[..|idxs| - 1];
      assert idxs == init + [idxs[|idxs| - 1]];
      DistanceTotalOfCoinciding(sqrt, landmarks, template, init);
    }
  }

  lemma MatchOverOfCoinciding(sqrt: SquareRoot, landmarks: seq<Landmark>, template: Template, idxs: seq<nat>, i: nat)
    requires sqrt(0.0) == 0.0
    requires CoincideAt(landmarks, template, idxs)
    requires i in idxs && Compared(landmarks, template, i)
    ensures MatchOver(sqrt, landmarks, template, idxs) == 100.0
  {
    DistanceTotalOfCoinciding(sqrt, landmarks, template, idxs);
    assert i in ComparedPoints(landmarks, template, idxs);
  }

  /** A detected pose that sits exactly on the template scores 100. */
  lemma TemplateMatchOfCoinciding(sqrt: SquareRoot, landmarks: seq<Landmark>, template: Template, i: nat)
    requires sqrt(0.0) == 0.0
    requires CoincideAt(landmarks, template, KeyLandmarks)
    requires i in KeyLandmarks && Compared(landmarks, template, i)
    ensures TemplateMatch(sqrt, Some(landmarks), Some(template)) == 100.0
  {
    MatchOverOfCoinciding(sqrt, landmarks, template, KeyLandmarks, i);
  }

  // ----- feedback line -----

  const AdjustMessage: string := "请调整您的姿势，确保身体对齐"
  const NearlyMessage: string := "您的姿势近乎正确，请继续保持并进行微调"
  const ExcellentMessage: string := "非常好！您的姿势非常准确"
  const ShoulderHint: string := "。尝试让您的肩膀保持水平"

  const LeftShoulderIndex: nat := 11
  const RightShoulderIndex: nat := 12

  /** The message `updateFeedback` stores. `None` stands for the TypeError
      raised when both inputs are present but a shoulder landmark is not. */
  function FeedbackMessage(landmarks: Option<seq<Landmark>>, template: Option<Template>, accuracy: real): (r: Option<string>)
    ensures r.None? <==> landmarks.Some? && template.Some? && |landmarks.value| <= RightShoulderIndex
    ensures r.Some? ==>
      var tier := if accuracy < 50.0 then AdjustMessage else if accuracy < 80.0 then NearlyMessage else ExcellentMessage;
      var hinted := landmarks.Some? && template.Some? &&
                    Abs(landmarks.value[LeftShoulderIndex].y - landmarks.value[RightShoulderIndex].y) > 0.05;
      r.value == tier + (if hinted then ShoulderHint else "")
  {
    var base :=
      if accuracy < 50.0 then AdjustMessage
      else if accuracy < 80.0 then NearlyMessage
      else ExcellentMessage;
    if landmarks.Some? && template.Some? then
      var leftShoulder := At(landmarks.value, LeftShoulderIndex);
      var rightShoulder := At(landmarks.value, RightShoulderIndex);
      if leftShoulder.None? || rightShoulder.None? then None
      else
        var shoulderYDiff := Abs(leftShoulder.value.y - rightShoulder.value.y);
        Some(if shoulderYDiff > 0.05 then base + ShoulderHint else base)
    else Some(base)
  }

  predicate EndsWithHint(m: string) {
    |m| >= |ShoulderHint| && m[|m| - |ShoulderHint|..] == ShoulderHint
  }

  /** The line tells the user whether the shoulders were found uneven: it ends
      with the shoulder hint exactly when the check fired, since no tier
      message ends that way. */
  lemma FeedbackShowsShoulderCheck(landmarks: seq<Landmark>, template: Template, accuracy: real)
    requires |landmarks| > RightShoulderIndex
    ensures FeedbackMessage(Some(landmarks), Some(template), accuracy).Some?
    ensures EndsWithHint(FeedbackMessage(Some(landmarks), Some(template), accuracy).value) <==>
      Abs(landmarks[LeftShoulderIndex].y - landmarks[RightShoulderIndex].y) > 0.05
  {
    var m := FeedbackMessage(Some(landmarks), Some(template), accuracy).value;
    assert !EndsWithHint(AdjustMessage) && !EndsWithHint(NearlyMessage) && !EndsWithHint(ExcellentMessage) by {
      assert AdjustMessage[|AdjustMessage| - 1] != ShoulderHint[|ShoulderHint| - 1];
      assert NearlyMessage[|NearlyMessage| - 1] != ShoulderHint[|ShoulderHint| - 1];
      assert ExcellentMessage[|ExcellentMessage| - 1] != ShoulderHint[|ShoulderHint| - 1];
    }
  }
}
