/** The sequence editor page (frontend/src/pages/SequenceBuilder.js): the list of
    chosen poses that drag-and-drop, the duration and hint inputs and the remove
    button edit in place, the checks and normalisation done when saving, and the
    running total shown under the list. */
module SequenceBuilder {
  import opened Common
  import opened Text

  /** A duration as the page holds it: the number 30 a new entry starts with (or
      the number loaded from the server), or the text of the number input once
      the user has typed in it. */
  datatype Duration = Number(n: int) | Text(s: string)

  /** One chosen pose: `{pose, poseName, duration, order, transitionHint}`. */
  datatype BuilderEntry = BuilderEntry(pose: string, poseName: string, duration: Duration, order: int, transitionHint: string)

  /** An entry of the available-pose palette: `_id` and `name`. */
  datatype AvailablePose = AvailablePose(id: string, name: string)

  /** The two droppable lists, `availablePoses` and `selectedPoses`. */
  datatype Zone = Available | Selected

  datatype DragEnd = DragEnd(sourceZone: Zone, sourceIndex: nat, destination: Option<(Zone, nat)>)

  /** The two fields the inputs edit. */
  datatype Param = DurationParam | HintParam

  /** One entry of the data sent to the service. */
  datatype SubmittedEntry = SubmittedEntry(pose: string, duration: int, order: int, transitionHint: string)

  datatype ServiceCall =
    | Create(name: string, poses: seq<SubmittedEntry>)
    | Update(id: string, name: string, poses: seq<SubmittedEntry>)

  const DefaultDuration: int := 30
  const MissingNameError: string := "请输入序列名称"
  const NoPosesError: string := "请至少添加一个姿势"
  const SaveFailedError: string := "保存序列失败，请稍后再试"

  // ----- list operations -----

  /** `poses.map((pose, index) => ({...pose, order: index}))`. */
  function Renumber(ps: seq<BuilderEntry>): (r: seq<BuilderEntry>)
    ensures |r| == |ps|
    ensures forall i :: 0 <= i < |r| ==> r[i] == ps[i].(order := i)
  {
    seq(|ps|, i requires 0 <= i < |ps| => ps[i].(order := i))
  }

  predicate Numbered(ps: seq<BuilderEntry>) {
    forall i :: 0 <= i < |ps| ==> ps[i].order == i
  }

  /** `splice(i, 1)`: the entry at `i` is gone and the others keep their order. */
  function RemoveAt<T>(ps: seq<T>, i: nat): (r: seq<T>)
    requires i < |ps|
    ensures |r| == |ps| - 1
    ensures forall k :: 0 <= k < i ==> r[k] == ps[k]
    ensures forall k :: i <= k < |r| ==> r[k] == ps[k + 1]
    ensures multiset(r) + multiset{ps[i]} == multiset(ps)
  {
    assert ps == ps[..i] + [ps[i]] + ps[i + 1..];
    ps[..i] + ps[i + 1..]
  }

  /** `splice(i, 0, x)`. */
  function InsertAt<T>(ps: seq<T>, i: nat, x: T): (r: seq<T>)
    requires i <= |ps|
    ensures |r| == |ps| + 1 && r[i] == x
    ensures forall k :: 0 <= k < i ==> r[k] == ps[k]
    ensures forall k :: i < k < |r| ==> r[k] == ps[k - 1]
    ensures multiset(r) == multiset(ps) + multiset{x}
  {
    assert ps == ps[..i] + ps[i..];
    ps[..i] + [x] + ps[i..]
  }

  /** Takes the entry at `src` out and puts it back at `dst`: a rearrangement of
      the same entries in which the moved one lands at `dst`. */
  function Move<T>(ps: seq<T>, src: nat, dst: nat): (r: seq<T>)
    requires src < |ps| && dst < |ps|
    ensures |r| == |ps| && multiset(r) == multiset(ps)
    ensures r[dst] == ps[src]
  {
    InsertAt(RemoveAt(ps, src), dst, ps[src])
  }

  /** The entry dragged in from the palette. */
  function NewEntry(p: AvailablePose, order: nat): (e: BuilderEntry)
    ensures e.pose == p.id && e.poseName == p.name && e.order == order && e.transitionHint == ""
    ensures DisplayedDuration(e.duration) == DefaultDuration && SubmittedDuration(e.duration) == DefaultDuration
  {
    var e := BuilderEntry(p.id, p.name, Number(DefaultDuration), order, "");
    ParseIntOfIntToString(DefaultDuration);
    e
  }

  /** `{...poses[index], [param]: value}` written into slot `index`. */
  function UpdateEntry(ps: seq<BuilderEntry>, index: nat, param: Param, value: string): (r: seq<BuilderEntry>)
    requires index < |ps|
    ensures |r| == |ps|
    ensures forall k :: 0 <= k < |ps| && k != index ==> r[k] == ps[k]
    ensures param == DurationParam ==> r[index] == ps[index].(duration := Text(value))
    ensures param == HintParam ==> r[index] == ps[index].(transitionHint := value)
  {
    var e := ps[index];
    ps[index := match param
      case DurationParam => e.(duration := Text(value))
      case HintParam => e.(transitionHint := value)]
  }

  // ----- durations -----

  /** `parseInt(duration)`; `None` is `NaN`. A number is first turned into its
      decimal text. */
  function ParsedDuration(d: Duration): (r: Option<int>)
    ensures d.Number? ==> r == Some(d.n)
  {
    match d
    case Number(n) =>
      ParseIntOfIntToString(n);
      ParseInt(IntToString(n))
    case Text(s) => ParseInt(s)
  }

  /** `parseInt(duration) || 30`: `NaN` and 0 fall back to the default. */
  function SubmittedDuration(d: Duration): (r: int)
    ensures r != 0
    ensures r == DefaultDuration <==> ParsedDuration(d) in {None, Some(0), Some(DefaultDuration)}
  {
    match ParsedDuration(d)
    case Some(v) => if v != 0 then v else DefaultDuration
    case None => DefaultDuration
  }

  /** `parseInt(duration) || 0`, one term of the displayed total. */
  function DisplayedDuration(d: Duration): (r: int)
    ensures ParsedDuration(d).None? ==> r == 0
    ensures ParsedDuration(d).Some? ==> r == ParsedDuration(d).value
  {
    match ParsedDuration(d)
    case Some(v) => v
    case None => 0
  }

  lemma SumRemove(ds: seq<int>, i: nat)
    requires i < |ds|
    ensures Sum(RemoveAt(ds, i)) == Sum(ds) - ds[i]
  {
    RemoveAtSplit(ds, i);
    SumAround(ds[..i], ds[i], ds[i + 1..]);
  }

  lemma SumInsert(ds: seq<int>, i: nat, d: int)
    requires i <= |ds|
    ensures Sum(InsertAt(ds, i, d)) == Sum(ds) + d
  {
    InsertAtSplit(ds, i, d);
    SumAround(ds[..i], d, ds[i..]);
  }

  lemma RemoveAtSplit<T>(ds: seq<T>, i: nat)
    requires i < |ds|
    ensures ds == ds[..i] + ([ds[i]] + ds[i + 1..])
    ensures RemoveAt(ds, i) == ds[..i] + ds[i + 1..]
  {
    assert ds[i..] == [ds[i]] + ds[i + 1..];
    assert ds == ds[..i] + ds[i..];
  }

  lemma InsertAtSplit<T>(ds: seq<T>, i: nat, x: T)
    requires i <= |ds|
    ensures ds == ds[..i] + ds[i..]
    ensures InsertAt(ds, i, x) == ds[..i] + ([x] + ds[i..])
  {
  }

  /** An element between two runs adds its value to theirs. */
  lemma SumAround(pre: seq<int>, x: int, post: seq<int>)
    ensures Sum(pre + ([x] + post)) == Sum(pre + post) + x
  {
    SumAppend(pre, [x] + post);
    SumAppend([x], post);
    SumAppend(pre, post);
    SumSingle(x);
  }

  /** The term each entry adds to the displayed total. */
  function DisplayedDurations(ps: seq<BuilderEntry>): (ds: seq<int>)
    ensures |ds| == |ps| && forall i :: 0 <= i < |ps| ==> ds[i] == DisplayedDuration(ps[i].duration)
  {
    seq(|ps|, i requires 0 <= i < |ps| => DisplayedDuration(ps[i].duration))
  }

  /** The total under the list: `poses.reduce((total, pose) => total + (parseInt(pose.duration) || 0), 0)`. */
  function DisplayedTotal(ps: seq<BuilderEntry>): (t: int)
    ensures ps == [] ==> t == 0
    ensures (forall i :: 0 <= i < |ps| ==> DisplayedDuration(ps[i].duration) >= 0) ==> t >= 0
  {
    Sum(DisplayedDurations(ps))
  }

  /** Dragging a pose in from the palette adds exactly 30 seconds to the total. */
  lemma DisplayedTotalOfAdd(ps: seq<BuilderEntry>, p: AvailablePose)
    ensures DisplayedTotal(ps + [NewEntry(p, |ps|)]) == DisplayedTotal(ps) + DefaultDuration
  {
    DisplayedTotalOfAppend(ps, NewEntry(p, |ps|));
  }

  lemma DisplayedTotalOfAppend(ps: seq<BuilderEntry>, e: BuilderEntry)
    ensures DisplayedTotal(ps + [e]) == DisplayedTotal(ps) + DisplayedDuration(e.duration)
  {
    var ds := DisplayedDurations(ps);
    var d := DisplayedDuration(e.duration);
    var grown := ps + [e];
    assert forall i :: 0 <= i < |ps| ==> grown[i] == ps[i];
    assert DisplayedDurations(grown) == ds + [d];
    SumAppend(ds, [d]);
    SumSingle(d);
  }

  /** Removing an entry takes exactly its own duration off the total. */
  lemma DisplayedTotalOfRemove(ps: seq<BuilderEntry>, i: nat)
    requires i < |ps|
    ensures DisplayedTotal(RemoveAt(ps, i)) == DisplayedTotal(ps) - DisplayedDuration(ps[i].duration)
  {
    var ds := DisplayedDurations(ps);
    assert DisplayedDurations(RemoveAt(ps, i)) == RemoveAt(ds, i);
    SumRemove(ds, i);
  }

  lemma DisplayedTotalOfInsert(ps: seq<BuilderEntry>, i: nat, x: BuilderEntry)
    requires i <= |ps|
    ensures DisplayedTotal(InsertAt(ps, i, x)) == DisplayedTotal(ps) + DisplayedDuration(x.duration)
  {
    var ds := DisplayedDurations(ps);
    assert DisplayedDurations(InsertAt(ps, i, x)) == InsertAt(ds, i, DisplayedDuration(x.duration));
    SumInsert(ds, i, DisplayedDuration(x.duration));
  }

  /** Reordering the list keeps the total. */
  lemma DisplayedTotalOfMove(ps: seq<BuilderEntry>, src: nat, dst: nat)
    requires src < |ps| && dst < |ps|
    ensures DisplayedTotal(Renumber(Move(ps, src, dst))) == DisplayedTotal(ps)
  {
    DisplayedTotalOfRemove(ps, src);
    DisplayedTotalOfInsert(RemoveAt(ps, src), dst, ps[src]);
    var moved := Move(ps, src, dst);
    assert DisplayedDurations(Renumber(moved)) == DisplayedDurations(moved);
  }

  // ----- saving -----

  /** The poses as `saveSequence` submits them. */
  function Submission(ps: seq<BuilderEntry>): (r: seq<SubmittedEntry>)
    ensures |r| == |ps|
    ensures forall i :: 0 <= i < |r| ==>
      r[i] == SubmittedEntry(ps[i].pose, SubmittedDuration(ps[i].duration), ps[i].order, ps[i].transitionHint)
  {
    seq(|ps|, i requires 0 <= i < |ps| =>
      SubmittedEntry(ps[i].pose, SubmittedDuration(ps[i].duration), ps[i].order, ps[i].transitionHint))
  }

  /** The validation message, if any: the name is checked before the poses. */
  function ValidationError(name: string, ps: seq<BuilderEntry>): (r: Option<string>)
    ensures r == None <==> name != "" && ps != []
    ensures name == "" ==> r == Some(MissingNameError)
    ensures name != "" && ps == [] ==> r == Some(NoPosesError)
  {
    if name == "" then Some(MissingNameError)
    else if ps == [] then Some(NoPosesError)
    else None
  }

  /** After a save in which every duration was still a number, each submitted
      duration is that number, or 30 where it was 0. */
  lemma SubmissionOfNumbers(ps: seq<BuilderEntry>, i: nat)
    requires i < |ps| && ps[i].duration.Number?
    ensures Submission(ps)[i].duration == if ps[i].duration.n == 0 then DefaultDuration else ps[i].duration.n
  {
  }

  // ----- the page -----

  class SequenceBuilderPage {
    var editId: Option<string>
    var name: string
    var poses: seq<BuilderEntry>
    var availablePoses: seq<AvailablePose>
    var error: Option<string>
    var saving: bool
    var success: bool
    /** The last request sent to the sequence service. */
    var lastCall: Option<ServiceCall>

    constructor (editId: Option<string>, availablePoses: seq<AvailablePose>)
      ensures this.editId == editId && this.availablePoses == availablePoses
      ensures name == "" && poses == [] && error == None && !saving && !success && lastCall == None
    {
      this.editId := editId;
      this.availablePoses := availablePoses;
      name := "";
      poses := [];
      error := None;
      saving := false;
      success := false;
      lastCall := None;
    }

    /** `handleDragEnd`; the drag library reports indices inside the lists. */
    method HandleDragEnd(result: DragEnd)
      requires result.sourceZone == Available ==> result.sourceIndex < |availablePoses|
      requires result.sourceZone == Selected ==> result.sourceIndex < |poses|
      requires result.destination.Some? && result.destination.value.0 == Selected && result.sourceZone == Selected ==>
        result.destination.value.1 < |poses|
      modifies this
      ensures availablePoses == old(availablePoses) && name == old(name) && editId == old(editId)
      ensures error == old(error) && saving == old(saving) && success == old(success) && lastCall == old(lastCall)
      ensures result.destination.None? ==> poses == old(poses)
      ensures result.destination.Some? ==>
        var (dstZone, dstIndex) := result.destination.value;
        match (result.sourceZone, dstZone)
        case (Available, Selected) => poses == old(poses) + [NewEntry(old(availablePoses)[result.sourceIndex], |old(poses)|)]
        case (Selected, Selected) => poses == Renumber(Move(old(poses), result.sourceIndex, dstIndex))
        case (Selected, Available) => poses == Renumber(RemoveAt(old(poses), result.sourceIndex))
        case (Available, Available) => poses == old(poses)
    {
      if result.destination.None? {
        return;
      }
      var (dstZone, dstIndex) := result.destination.value;
      if result.sourceZone == Available && dstZone == Selected {
        var pose := availablePoses[result.sourceIndex];
        poses := poses + [BuilderEntry(pose.id, pose.name, Number(30), |poses|, "")];
      } else if result.sourceZone == Selected && dstZone == Selected {
        var removed := poses[result.sourceIndex];
        var newPoses := RemoveAt(poses, result.sourceIndex);
        newPoses := InsertAt(newPoses, dstIndex, removed);
        poses := Renumber(newPoses);
      } else if result.sourceZone == Selected && dstZone == Available {
        poses := Renumber(RemoveAt(poses, result.sourceIndex));
      }
    }

    /** `updatePoseParams(index, param, e.target.value)`. */
    method UpdatePoseParams(index: nat, param: Param, value: string)
      requires index < |poses|
      modifies this
      ensures poses == UpdateEntry(old(poses), index, param, value)
      ensures availablePoses == old(availablePoses) && name == old(name) && editId == old(editId)
      ensures error == old(error) && saving == old(saving) && success == old(success) && lastCall == old(lastCall)
    {
      var newPoses := poses;
      var entry := newPoses[index];
      newPoses := newPoses[index := match param
        case DurationParam => entry.(duration := Text(value))
        case HintParam => entry.(transitionHint := value)];
      poses := newPoses;
    }

    /** `removePose(index)`. */
    method RemovePose(index: nat)
      requires index < |poses|
      modifies this
      ensures poses == Renumber(RemoveAt(old(poses), index))
      ensures availablePoses == old(availablePoses) && name == old(name) && editId == old(editId)
      ensures error == old(error) && saving == old(saving) && success == old(success) && lastCall == old(lastCall)
    {
      var newPoses := RemoveAt(poses, index);
      poses := Renumber(newPoses);
    }

    /** `saveSequence`; `serviceOk` says whether the create or update request
        resolved. Navigation after success is left to the caller. */
    method SaveSequence(serviceOk: bool)
      modifies this
      ensures poses == old(poses) && name == old(name) && editId == old(editId) && availablePoses == old(availablePoses)
      ensures !saving
      ensures ValidationError(name, poses).Some? ==>
        error == ValidationError(name, poses) && lastCall == old(lastCall) && success == old(success)
      ensures ValidationError(name, poses).None? ==>
        && lastCall == Some(if editId.Some? then Update(editId.value, name, Submission(poses)) else Create(name, Submission(poses)))
        && (serviceOk ==> error == None && success)
        && (!serviceOk ==> error == Some(SaveFailedError) && success == old(success))
    {
      saving := true;
      error := None;

      if name == "" {
        error := Some(MissingNameError);
        saving := false;
        return;
      }
      if |poses| == 0 {
        error := Some(NoPosesError);
        saving := false;
        return;
      }

      var data := Submission(poses);
      if editId.Some? {
        lastCall := Some(Update(editId.value, name, data));
      } else {
        lastCall := Some(Create(name, data));
      }
      if serviceOk {
        success := true;
      } else {
        error := Some(SaveFailedError);
      }
      saving := false;
    }
  }

  /** Every list the page can produce from a numbered list is numbered again. */
  lemma RenumberNumbers(ps: seq<BuilderEntry>)
    ensures Numbered(Renumber(ps))
    ensures Renumber(Renumber(ps)) == Renumber(ps)
  {
  }

  lemma AddKeepsNumbering(ps: seq<BuilderEntry>, p: AvailablePose)
    requires Numbered(ps)
    ensures Numbered(ps + [NewEntry(p, |ps|)])
  {
  }
}
