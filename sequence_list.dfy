/** The sequence catalogue page (frontend/src/pages/SequenceList.js): the three
    drop-down filters and the list they select. */
module SequenceList {
  import opened Common

  /** The fields of a catalogue card the filter reads. */
  datatype SequenceCard = SequenceCard(id: int, level: string, duration: real, focus: string)

  /** The filter state, keyed by the `name` of each `<select>`. */
  type FilterState = map<string, string>

  const All: string := "all"

  const InitialFilter: FilterState := map["level" := All, "duration" := All, "focus" := All]

  predicate HasFilterKeys(f: FilterState) {
    "level" in f && "duration" in f && "focus" in f
  }

  /** `handleFilterChange`: sets the key named by the control and nothing else. */
  function FilterChange(f: FilterState, name: string, value: string): (r: FilterState)
    ensures name in r && r[name] == value
    ensures r.Keys == f.Keys + {name}
    ensures forall k :: k in f && k != name ==> r[k] == f[k]
    ensures HasFilterKeys(f) ==> HasFilterKeys(r)
  {
    f[name := value]
  }

  /** The bucket a duration belongs to: short up to 15 minutes, medium
      above 15 up to 30, long above 30. */
  function BucketOf(duration: real): string {
    if duration <= 15.0 then "short" else if duration <= 30.0 then "medium" else "long"
  }

  /** The duration clause of the filter for a chosen bucket. It holds exactly
      when the duration lies in that bucket, and never for a bucket name
      other than the three. */
  predicate InBucket(bucket: string, duration: real): (r: bool)
    ensures r <==> bucket == BucketOf(duration)
  {
    (bucket == "short" && duration <= 15.0) ||
    (bucket == "medium" && duration > 15.0 && duration <= 30.0) ||
    (bucket == "long" && duration > 30.0)
  }

  /** The predicate handed to `sequences.filter`: a filter left at 'all'
      admits every card, and the duration filter admits the cards of its
      bucket. */
  predicate Matches(f: FilterState, s: SequenceCard): (r: bool)
    requires HasFilterKeys(f)
    ensures f["level"] == All && f["focus"] == All && f["duration"] == All ==> r
    ensures r ==> f["duration"] == All || BucketOf(s.duration) == f["duration"]
  {
    (f["level"] == All || s.level == f["level"]) &&
    (f["focus"] == All || s.focus == f["focus"]) &&
    (f["duration"] == All || InBucket(f["duration"], s.duration))
  }

  /** `filteredSequences`. */
  function FilteredSequences(f: FilterState, sequences: seq<SequenceCard>): (r: seq<SequenceCard>)
    requires HasFilterKeys(f)
    ensures |r| <= |sequences|
  {
    if sequences == [] then []
    else
      var kept := FilteredSequences(f, sequences[..|sequences| - 1]);
      var last := sequences[|sequences| - 1];
      if Matches(f, last) then kept + [last] else kept
  }

  /** The filter keeps exactly the matching cards, in catalogue order. */
  lemma {:induction false} FilteredSequencesSelect(f: FilterState, sequences: seq<SequenceCard>)
    requires HasFilterKeys(f)
    ensures var r := FilteredSequences(f, sequences);
      && IsSubsequence(r, sequences)
      && (forall s :: s in r <==> s in sequences && Matches(f, s))
  {
    if sequences != [] {
      var init := sequences[..|sequences| - 1];
      var last := sequences[|sequences| - 1];
      FilteredSequencesSelect(f, init);
      var kept := FilteredSequences(f, init);
      assert sequences == init + [last];
      if Matches(f, last) {
        assert (kept + [last])[..|kept|] == kept;
      } else {
        assert kept != [] ==> kept[|kept| - 1] in kept;
      }
    }
  }

  /** One more card adds one to the count exactly when it matches. */
  lemma FilteredCountStep(f: FilterState, sequences: seq<SequenceCard>)
    requires HasFilterKeys(f) && sequences != []
    ensures |FilteredSequences(f, sequences)| ==
      |FilteredSequences(f, sequences[..|sequences| - 1])| + (if Matches(f, sequences[|sequences| - 1]) then 1 else 0)
  {
  }

  /** With every filter at 'all' the whole catalogue is shown, in order. */
  lemma {:induction false} AllFiltersShowEverything(sequences: seq<SequenceCard>)
    ensures FilteredSequences(InitialFilter, sequences) == sequences
  {
    if sequences != [] {
      AllFiltersShowEverything(sequences[..|sequences| - 1]);
    }
  }

  /** Every duration falls in exactly one of the three buckets. */
  lemma BucketsPartition(duration: real)
    ensures InBucket("short", duration) || InBucket("medium", duration) || InBucket("long", duration)
    ensures !(InBucket("short", duration) && InBucket("medium", duration))
    ensures !(InBucket("short", duration) && InBucket("long", duration))
    ensures !(InBucket("medium", duration) && InBucket("long", duration))
  {
  }

  /** Choosing the buckets one after another shows each card exactly once. */
  lemma {:induction false} BucketsSplitCatalogue(f: FilterState, sequences: seq<SequenceCard>)
    requires HasFilterKeys(f) && f["duration"] == All
    ensures |FilteredSequences(f, sequences)| ==
      |FilteredSequences(f["duration" := "short"], sequences)| +
      |FilteredSequences(f["duration" := "medium"], sequences)| +
      |FilteredSequences(f["duration" := "long"], sequences)|
  {
    if sequences != [] {
      var init := sequences[..|sequences| - 1];
      var last := sequences[|sequences| - 1];
      var short, medium, long := f["duration" := "short"], f["duration" := "medium"], f["duration" := "long"];
      BucketsSplitCatalogue(f, init);
      FilteredCountStep(f, sequences);
      FilteredCountStep(short, sequences);
      FilteredCountStep(medium, sequences);
      FilteredCountStep(long, sequences);
      BucketsPartition(last.duration);
      assert Matches(short, last) <==> Matches(f, last) && InBucket("short", last.duration);
      assert Matches(medium, last) <==> Matches(f, last) && InBucket("medium", last.duration);
      assert Matches(long, last) <==> Matches(f, last) && InBucket("long", last.duration);
    }
  }

  /** Filtering what was already filtered changes nothing. */
  lemma {:induction false} FilterIdempotent(f: FilterState, sequences: seq<SequenceCard>)
    requires HasFilterKeys(f)
    ensures FilteredSequences(f, FilteredSequences(f, sequences)) == FilteredSequences(f, sequences)
  {
    if sequences != [] {
      var init := sequences[..|sequences| - 1];
      var last := sequences[|sequences| - 1];
      FilterIdempotent(f, init);
      var kept := FilteredSequences(f, init);
      if Matches(f, last) {
        assert (kept + [last])[..|kept|] == kept;
      }
    }
  }

  /** A control whose name is not one of the three filters leaves the list as it was. */
  lemma {:induction false} UnknownControlKeepsList(f: FilterState, name: string, value: string, sequences: seq<SequenceCard>)
    requires HasFilterKeys(f) && name !in {"level", "duration", "focus"}
    ensures FilteredSequences(FilterChange(f, name, value), sequences) == FilteredSequences(f, sequences)
  {
    if sequences != [] {
      UnknownControlKeepsList(f, name, value, sequences[..|sequences| - 1]);
    }
  }
}
