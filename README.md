# free_yoga core, modelled in Dafny

free_yoga is a yoga-practice application. A camera feed is turned into body
keypoints, and the keypoints are scored against pose templates with short
corrective messages. Users assemble, browse and favourite pose sequences.
This project models the logic behind those features, one Dafny module per
source file, and proves what that logic promises:

- **PoseAnalysis** (`backend/utils/poseAnalysis.js`): the pair-angle accuracy, the per-region
  joint-distance score, and the region feedback messages.
- **PoseComparison** (`backend/utils/poseComparison.js`): analysis of the current pose of a
  sequence, and the end-of-session summary.
- **SequenceTraining** (`SequenceTraining.js`): the pose cursor and count-up timer of the
  guided-training page, the `mm:ss` clock, the landmark scorer and the line shown under
  the camera.
- **SequenceBuilder**, **SequenceList**, **SequenceDetail**, **Register**: the page state and
  pure helpers of the builder (drag and drop, removal, parameter edits, save, total
  duration), the list filter, the favourites toggle with its duration badge, and the
  registration form checks.
- **Fixtures** (`scripts/load_fixtures.js`): the fixture text parser and the name
  classifiers.
- **TrainingContext** (`TrainingContext.js`): the MediaPipe-to-joint normaliser.
- **SmartYoga** (`smart_yoga.py`): the three-point angle and the best-pose loop.
- **DeviceUtils** (`DeviceUtils.js`): the device and image-quality decision table.
- Shared modules: **Common** (options, rounding, JavaScript's `%`, sums, small real-arithmetic facts), **Text** (the
  JavaScript string built-ins used by the core: `trim`, `split`, `includes`,
  `padStart`, `toString`, `parseInt`) and **Keypoints** (the thirteen named joints).

Floating-point primitives (`Math.atan2` in degrees, `Math.sqrt`, `np.arccos` in
degrees) are function-valued parameters. Their subset types carry only the ranges
the code relies on: [-180, 180] for `atan2`, non-negative for `sqrt`, [0, 180] for
`arccos`. `Math.round` is `floor(x + 0.5)`, Python's `int()` truncates toward zero,
and JavaScript's `%` keeps the sign of the dividend. Each is written out explicitly.
Loops in the source are Dafny methods with loop invariants, each proved equal to a
specification function; the lemmas are stated about those functions.

Reading the code settled four points:

- The accuracy term in `calculatePoseAccuracy` (`1 - |Δ|/180`, with both angles in
  [0, 360)) is not clamped, so accuracy can be negative. `PoseAccuracyCanBeNegative` gives
  an input for which it is.
- `analyzeSequencePose` does not guard a negative index. The code then reads a property of
  `undefined` and throws, which the model returns as the `Thrown` outcome.
- SequenceDetail.js compares `parseInt(id)` of the route text with `includes` and
  `!==`. For a non-numeric id that value is `NaN`, which equals nothing and which
  `JSON.stringify` stores as `null`. Every favourite press then appends another `null`,
  unfavouriting removes nothing, and after a reload the page reads as not favourited.
  `SequenceDetailPage.ToggleFavorite` states this: with a `NaN` id the flag agrees with
  the store only while it is off.
- `handleSubmit` in Register.js checks `password.length`, which counts UTF-16 code units.
  The model counts them too (`Utf16Length`).

## Model

| member | source | states |
|---|---|---|
| PoseAnalysis.CalculateAngle | backend/utils/poseAnalysis.js:53-57 | the angle is in [0, 360); it is atan2 in degrees when that is non-negative, otherwise atan2 + 360 |
| PoseAnalysis.ValidPair | backend/utils/poseAnalysis.js:21-22 | definition: both joints of the pair are present in the user set and in the template set |
| PoseAnalysis.PairAngle | backend/utils/poseAnalysis.js:24-34 | the direction of a pair's line, left joint to right joint, in one keypoint set lies in [0, 360) |
| PoseAnalysis.PairTerm | backend/utils/poseAnalysis.js:37-38 | the unclamped term, one minus the angle difference over 180, lies in (-1, 1] |
| PoseAnalysis.ValidPairs | backend/utils/poseAnalysis.js:20-22 | the pairs counted are exactly the listed pairs with all four points present, in listed order |
| PoseAnalysis.PoseAccuracy | backend/utils/poseAnalysis.js:46-47 | accuracy lies in [-100, 100], and is 0 when no pair is valid |
| PoseAnalysis.CalculatePoseAccuracy | backend/utils/poseAnalysis.js:4-48 | the loop returns the rounded mean of the valid pair terms times 100, and the result lies in [-100, 100] |
| PoseAnalysis.PairStep | backend/utils/poseAnalysis.js:20-43 | each pair adds its term and one to the count when all four points are present, and nothing otherwise |
| PoseAnalysis.TermTotal | backend/utils/poseAnalysis.js:20-43 | the sum of terms lies within ± the number of valid pairs |
| PoseAnalysis.MeanPercent | backend/utils/poseAnalysis.js:46 | 0 without terms; a total within ± the count gives a percentage in [-100, 100], and a total in [0, count] one in [0, 100] (the same formula is used at line 127) |
| PoseAnalysis.TermTotalOfIdentical | backend/utils/poseAnalysis.js:37-40 | identical keypoint sets give term 1 for every valid pair |
| PoseAnalysis.PoseAccuracyOfIdentical | backend/utils/poseAnalysis.js:37-47 | identical keypoint sets with at least one valid pair score exactly 100 |
| PoseAnalysis.PairTotalsSymmetric | backend/utils/poseAnalysis.js:21-38 | swapping user and template keeps both the valid pairs and the sum of terms |
| PoseAnalysis.PoseAccuracySymmetric | backend/utils/poseAnalysis.js:21-47 | swapping user and template keeps the accuracy |
| PoseAnalysis.PoseAccuracyCanBeNegative | backend/utils/poseAnalysis.js:37-38 | a concrete shoulder pair whose accuracy is below 0 |
| PoseAnalysis.OnlyFirstValid | backend/utils/poseAnalysis.js:20-43 | when only the first pair is valid, the count is 1 and the sum is that pair's term |
| PoseAnalysis.OnlyShouldersValid | backend/utils/poseAnalysis.js:10-46 | the same, for the shoulder pair of the source's table |
| PoseAnalysis.Similarity | backend/utils/poseAnalysis.js:115-121 | `1 - min(distance, 1)` lies in [0, 1] |
| PoseAnalysis.Distance | backend/utils/poseAnalysis.js:115-118 | the Euclidean distance of two points is 0 when they sit at the same position (given the square root of 0 is 0) |
| PoseAnalysis.PresentJoints | backend/utils/poseAnalysis.js:109-110 | the joints counted are exactly the listed joints present on both sides |
| PoseAnalysis.PartAccuracy | backend/utils/poseAnalysis.js:127 | part accuracy lies in [0, 100], and is 0 when no listed joint is present on both sides |
| PoseAnalysis.CalculatePartAccuracy | backend/utils/poseAnalysis.js:105-128 | the loop returns the mean similarity times 100, and the result lies in [0, 100] |
| PoseAnalysis.PartStep | backend/utils/poseAnalysis.js:109-124 | each joint adds its similarity and one to the count when both points exist, and nothing otherwise |
| PoseAnalysis.SimilarityTotal | backend/utils/poseAnalysis.js:109-124 | the similarity sum lies between 0 and the number of present joints |
| PoseAnalysis.NonePresent | backend/utils/poseAnalysis.js:109-110 | when no listed joint is present in both sets, no joint is scored |
| PoseAnalysis.SimilarityTotalOfCoinciding | backend/utils/poseAnalysis.js:115-122 | coinciding points each add similarity 1 |
| PoseAnalysis.PartAccuracyOfCoinciding | backend/utils/poseAnalysis.js:105-128 | part accuracy is 100 when every present joint coincides and at least one is present |
| PoseAnalysis.JointTotalsSymmetric | backend/utils/poseAnalysis.js:110-122 | swapping the two sides keeps the present joints and the similarity sum |
| PoseAnalysis.PartAccuracySymmetric | backend/utils/poseAnalysis.js:105-128 | swapping user and template keeps the part accuracy |
| PoseAnalysis.RegionListed | backend/utils/poseAnalysis.js:66-71 | every region is in the fixed list shoulders, arms, hips, legs |
| PoseAnalysis.FlaggedRegionsSelect | backend/utils/poseAnalysis.js:73-76 | the flagged regions are exactly those scoring below 70, kept in list order |
| PoseAnalysis.FlaggedRegions | backend/utils/poseAnalysis.js:73-76 | a region is flagged iff it is listed and scores below 70 |
| PoseAnalysis.RegionJoints | backend/utils/poseAnalysis.js:66-71 | each body part lists two or four joints, none of them twice: the shoulders; the elbows and wrists; the hips; the knees and ankles |
| PoseAnalysis.RegionScore | backend/utils/poseAnalysis.js:74 | a body part's score lies in [0, 100] and is 0 when none of its joints is scored |
| PoseAnalysis.RegionScoreOfMissing | backend/utils/poseAnalysis.js:74 | a body part none of whose joints is present in both sets scores 0 |
| PoseAnalysis.FlaggedRegionsInOrder | backend/utils/poseAnalysis.js:73 | the flagged regions form a subsequence of the region list |
| PoseAnalysis.RegionMessages | backend/utils/poseAnalysis.js:77-90 | one message per flagged region, the `k`-th being that region's message |
| PoseAnalysis.RegionMessage | backend/utils/poseAnalysis.js:77-90 | each region's advice names that region's body part (shoulders, arms, hips, legs) |
| PoseAnalysis.Encouragement | backend/utils/poseAnalysis.js:96 | the encouragement starts with "您的" and names the pose |
| PoseAnalysis.GeneratePoseFeedback | backend/utils/poseAnalysis.js:62-100 | the loop yields the region messages in order, or the encouragement alone, and so 1 to 4 messages |
| PoseAnalysis.FeedbackStep | backend/utils/poseAnalysis.js:73-91 | each region appends its message exactly when it scores below 70 |
| PoseAnalysis.PoseFeedback | backend/utils/poseAnalysis.js:62-99 | the feedback always has between 1 and 4 messages |
| PoseAnalysis.MessagesDiffer | backend/utils/poseAnalysis.js:79-96 | the four region messages are pairwise distinct and differ from the encouragement |
| PoseAnalysis.PoseFeedbackRegion | backend/utils/poseAnalysis.js:73-91 | a region's message appears iff that region scores below 70, including a region with no joints present |
| PoseAnalysis.MessageListed | backend/utils/poseAnalysis.js:77-90 | a message is in the list iff its region was flagged |
| PoseAnalysis.PoseFeedbackEncouragement | backend/utils/poseAnalysis.js:95-97 | the encouragement appears iff every region scores at least 70, and it is then the only message |
| PoseAnalysis.MessagesOfSubsequence | backend/utils/poseAnalysis.js:73-91 | messages of an ordered subsequence of regions keep that order |
| PoseAnalysis.PoseFeedbackOrder | backend/utils/poseAnalysis.js:66-99 | the feedback is the encouragement or follows the order shoulders, arms, hips, legs, each at most once |
| PoseComparison.HintOrNull | backend/utils/poseComparison.js:34 | an absent or empty hint becomes null, any other hint is kept |
| PoseComparison.AnalyzeSequencePose | backend/utils/poseComparison.js:6-37 | an error exactly for a missing sequence, missing poses or index ≥ length, and a throw for a negative index. Otherwise the report echoes the index, length, id, name and duration; accuracy and feedback are those of the current template, so accuracy is in [-100, 100] with 1 to 4 messages; last pose iff index = length - 1; next pose absent exactly then, else it names entry index + 1 with its hint or null |
| PoseComparison.WorstFrom | backend/utils/poseComparison.js:67-68 | the reduce keeps the first record of minimal accuracy |
| PoseComparison.WeakestIndex | backend/utils/poseComparison.js:67-68 | the chosen record has minimal accuracy, and every earlier record is strictly more accurate |
| PoseComparison.WeakestIndexUnique | backend/utils/poseComparison.js:67-68 | that first minimum is unique |
| PoseComparison.TrackSequenceProgress | backend/utils/poseComparison.js:42-81 | empty or absent records give the "not completed" summary without a pose count. Otherwise: completed, the pose count, the mean accuracy, exactly one tier message first (≥85, ≥70, else), and a second message iff there is more than one record and the weakest is below 70 |
| PoseComparison.WeakestPoseMessage | backend/utils/poseComparison.js:71 | the advice names the weakest pose, in quotes |
| PoseComparison.TotalAccuracy | backend/utils/poseComparison.js:52 | the reduce of accuracies is 0 for no records and never negative when no accuracy is |
| PoseComparison.TotalAccuracyBounds | backend/utils/poseComparison.js:52 | the reduce of accuracies each in [0, 100] lies between 0 and 100·n |
| PoseComparison.AverageInRange | backend/utils/poseComparison.js:52-53 | records scored in [0, 100] average in [0, 100] |
| SequenceTraining.Step | frontend/src/components/TrainingModes/SequenceTraining.js:362-403 | toggle flips `isPlaying` only; a tick adds one second only while playing; next and prev are no-ops at the ends, and otherwise move one pose and reset time and playing |
| SequenceTraining.RunStaysInRange | frontend/src/components/TrainingModes/SequenceTraining.js:377-392 | from an index inside the sequence, any run of controls stays inside it |
| SequenceTraining.Run | frontend/src/components/TrainingModes/SequenceTraining.js:362-403 | without a loaded sequence the cursor never moves, and the clock never advances by more than the number of ticks |
| SequenceTraining.NextThenPrev | frontend/src/components/TrainingModes/SequenceTraining.js:376-403 | next then prev returns to the same pose with a stopped, reset clock |
| SequenceTraining.SequencePlayer.constructor | frontend/src/components/TrainingModes/SequenceTraining.js:12-15 | no sequence, index 0, not playing, time 0 |
| SequenceTraining.SequencePlayer.SetSequence | frontend/src/components/TrainingModes/SequenceTraining.js:84 | records the loaded sequence's length and changes nothing else |
| SequenceTraining.SequencePlayer.ToggleTimer | frontend/src/components/TrainingModes/SequenceTraining.js:362-373 | the new state is `Step(…, Toggle)` and the interval runs iff playing |
| SequenceTraining.SequencePlayer.Tick | frontend/src/components/TrainingModes/SequenceTraining.js:367-369 | the new state is `Step(…, Tick)` |
| SequenceTraining.SequencePlayer.NextPose | frontend/src/components/TrainingModes/SequenceTraining.js:376-388 | the new state is `Step(…, Next)` and the interval is cleared on a move |
| SequenceTraining.SequencePlayer.PrevPose | frontend/src/components/TrainingModes/SequenceTraining.js:391-403 | the new state is `Step(…, Prev)` and the interval is cleared on a move |
| SequenceTraining.TwoDigits | frontend/src/components/TrainingModes/SequenceTraining.js:414 | `padStart(2, '0')` of a number gives at least two characters, exactly two below 100 |
| SequenceTraining.TwoDigitsValue | frontend/src/components/TrainingModes/SequenceTraining.js:414 | the padded field is all digits and reads back as the number |
| SequenceTraining.MinutesAndSeconds | frontend/src/components/TrainingModes/SequenceTraining.js:412-413 | mins·60 + secs = seconds and secs < 60 |
| SequenceTraining.ClockText | frontend/src/components/TrainingModes/SequenceTraining.js:414 | `${mm}:${ss}` with a seconds field below 60 has at least five characters, with the colon third from the end |
| SequenceTraining.FormatTime | frontend/src/components/TrainingModes/SequenceTraining.js:411-415 | the text has at least five characters, with a colon before a two-character seconds field |
| SequenceTraining.ClockTextValue | frontend/src/components/TrainingModes/SequenceTraining.js:414 | padded minutes, a colon and padded seconds read back as mins·60 + secs |
| SequenceTraining.FormatTimeValue | frontend/src/components/TrainingModes/SequenceTraining.js:411-415 | the clock text reads back as exactly the number of seconds formatted |
| SequenceTraining.ComparedPoints | frontend/src/components/TrainingModes/SequenceTraining.js:261-265 | the compared indices are the key points detected with visibility > 0.5 that have a truthy entry in the template (an array with holes or nulls, or an index-keyed object) |
| SequenceTraining.At | frontend/src/components/TrainingModes/SequenceTraining.js:262 | `landmarks[i]` is a landmark exactly for an index inside the array, and then the one stored there |
| SequenceTraining.TemplateAt | frontend/src/components/TrainingModes/SequenceTraining.js:263 | `template[i]` is a landmark exactly where the template has an entry, and then that entry |
| SequenceTraining.Compared | frontend/src/components/TrainingModes/SequenceTraining.js:265 | definition: the landmark at the index exists with visibility above 0.5, and the template has an entry at that index |
| SequenceTraining.LandmarkDistance | frontend/src/components/TrainingModes/SequenceTraining.js:266-269 | the distance of a detected landmark from its reference is 0 when both sit at the same position (given the square root of 0 is 0) |
| SequenceTraining.DistanceTotal | frontend/src/components/TrainingModes/SequenceTraining.js:261-273 | the distance sum is never negative, and is 0 when no point is compared |
| SequenceTraining.Clamp | frontend/src/components/TrainingModes/SequenceTraining.js:280 | the clamped score lies in [0, 100]; it is 100 at distance 0 and 0 from distance 0.1 on |
| SequenceTraining.MatchOver | frontend/src/components/TrainingModes/SequenceTraining.js:258-282 | the score lies in [0, 100] and is 0 when no point is compared |
| SequenceTraining.TemplateMatch | frontend/src/components/TrainingModes/SequenceTraining.js:236-283 | the score lies in [0, 100]; it is 0 for missing landmarks or template, or when no key point is visible |
| SequenceTraining.ComparePoseWithTemplate | frontend/src/components/TrainingModes/SequenceTraining.js:236-283 | the `forEach` accumulation returns the clamped average-distance score |
| SequenceTraining.DistanceTotalOfCoinciding | frontend/src/components/TrainingModes/SequenceTraining.js:266-270 | coinciding compared points add no distance |
| SequenceTraining.MatchOverOfCoinciding | frontend/src/components/TrainingModes/SequenceTraining.js:261-280 | when every point coincides with the template and at least one point is compared, the score is 100 |
| SequenceTraining.TemplateMatchOfCoinciding | frontend/src/components/TrainingModes/SequenceTraining.js:236-283 | landmarks coinciding with the template, with one key point compared, score 100 |
| SequenceTraining.FeedbackMessage | frontend/src/components/TrainingModes/SequenceTraining.js:286-306 | the tier is chosen by < 50, < 80, else, and the shoulder hint is appended iff both inputs exist and the shoulders differ in height by more than 0.05. There is no message (a throw) exactly when both inputs exist and a shoulder landmark is missing |
| SequenceTraining.FeedbackShowsShoulderCheck | frontend/src/components/TrainingModes/SequenceTraining.js:289-306 | the message ends with the shoulder hint iff the check fired |
| SequenceBuilder.Renumber | frontend/src/pages/SequenceBuilder.js:104-107 | same length, and every entry keeps its fields with `order` set to its position |
| SequenceBuilder.RemoveAt | frontend/src/pages/SequenceBuilder.js:117 | `splice(i, 1)` drops exactly entry `i`, and the rest keep their order |
| SequenceBuilder.InsertAt | frontend/src/pages/SequenceBuilder.js:101 | `splice(i, 0, x)` puts `x` at `i` and shifts the rest |
| SequenceBuilder.Move | frontend/src/pages/SequenceBuilder.js:99-101 | a reorder is a permutation of the same length, with the moved entry at the destination |
| SequenceBuilder.UpdateEntry | frontend/src/pages/SequenceBuilder.js:134-147 | only the named field of the one entry changes |
| SequenceBuilder.NewEntry | frontend/src/pages/SequenceBuilder.js:84-90 | the entry carries the palette pose's id and name, the given order and an empty hint, and its duration counts and is submitted as 30 |
| SequenceBuilder.ParsedDuration | frontend/src/pages/SequenceBuilder.js:192 | `parseInt` of a duration still held as a number gives that number |
| SequenceBuilder.SubmittedDuration | frontend/src/pages/SequenceBuilder.js:192 | the submitted duration is 30 exactly when the parse fails, is 0 or is 30, and never 0 |
| SequenceBuilder.DisplayedDuration | frontend/src/pages/SequenceBuilder.js:446 | a duration that does not parse counts 0, and any other counts as its parsed value |
| SequenceBuilder.SumRemove | frontend/src/pages/SequenceBuilder.js:446 | removing an entry lowers the sum by its value |
| SequenceBuilder.SumInsert | frontend/src/pages/SequenceBuilder.js:446 | inserting an entry raises the sum by its value |
| SequenceBuilder.DisplayedDurations | frontend/src/pages/SequenceBuilder.js:446 | one parsed duration per entry, in order |
| SequenceBuilder.DisplayedTotal | frontend/src/pages/SequenceBuilder.js:446 | the total is 0 for no entries and never negative when no displayed duration is |
| SequenceBuilder.DisplayedTotalOfAdd | frontend/src/pages/SequenceBuilder.js:83-96 | adding a pose raises the displayed total by 30 |
| SequenceBuilder.DisplayedTotalOfRemove | frontend/src/pages/SequenceBuilder.js:113-129 | removing an entry lowers the displayed total by its duration |
| SequenceBuilder.DisplayedTotalOfInsert | frontend/src/pages/SequenceBuilder.js:101 | inserting an entry raises the displayed total by its duration |
| SequenceBuilder.DisplayedTotalOfMove | frontend/src/pages/SequenceBuilder.js:97-112 | reordering keeps the displayed total |
| SequenceBuilder.Submission | frontend/src/pages/SequenceBuilder.js:188-196 | one submitted entry per entry, with its pose, order, hint and its submitted duration |
| SequenceBuilder.ValidationError | frontend/src/pages/SequenceBuilder.js:175-185 | the empty name is reported before the empty pose list; no error iff both are present |
| SequenceBuilder.SubmissionOfNumbers | frontend/src/pages/SequenceBuilder.js:192 | a numeric duration is submitted as itself, or 30 when it is 0 |
| SequenceBuilder.SequenceBuilderPage.constructor | frontend/src/pages/SequenceBuilder.js:13-26 | an empty sequence and no error, saving or success |
| SequenceBuilder.SequenceBuilderPage.HandleDragEnd | frontend/src/pages/SequenceBuilder.js:74-131 | no destination changes nothing. Available→selected appends a 30-second entry numbered by the old length; selected→selected moves and renumbers; selected→available removes and renumbers; anything else changes nothing |
| SequenceBuilder.SequenceBuilderPage.UpdatePoseParams | frontend/src/pages/SequenceBuilder.js:134-147 | the poses become `UpdateEntry` of the old poses, and nothing else changes |
| SequenceBuilder.SequenceBuilderPage.RemovePose | frontend/src/pages/SequenceBuilder.js:150-166 | removes the entry at the index and renumbers, and nothing else changes |
| SequenceBuilder.SequenceBuilderPage.SaveSequence | frontend/src/pages/SequenceBuilder.js:169-215 | a validation error is stored and nothing is sent. Otherwise the update or create call receives the normalised entries; success or the save error follows the service outcome; saving always ends false |
| SequenceBuilder.RenumberNumbers | frontend/src/pages/SequenceBuilder.js:104-107 | after renumbering every order equals its position, and renumbering again changes nothing |
| SequenceBuilder.AddKeepsNumbering | frontend/src/pages/SequenceBuilder.js:84-90 | appending with order = old length keeps the numbering |
| SequenceList.FilterChange | frontend/src/pages/SequenceList.js:105-111 | only the named key changes, and the three filter keys stay present |
| SequenceList.InBucket | frontend/src/pages/SequenceList.js:117-119 | a duration satisfies a bucket clause iff that bucket is the one the duration falls in (short up to 15, medium up to 30, long above); no other bucket name admits anything |
| SequenceList.Matches | frontend/src/pages/SequenceList.js:113-120 | with all three filters at 'all' every card matches; a matching card with a duration filter lies in that bucket |
| SequenceList.FilteredSequences | frontend/src/pages/SequenceList.js:113-120 | the `filter` keeps at most as many sequences as it is given |
| SequenceList.FilteredSequencesSelect | frontend/src/pages/SequenceList.js:113-120 | the result is an order-preserving subsequence holding exactly the matching sequences |
| SequenceList.FilteredCountStep | frontend/src/pages/SequenceList.js:113 | each sequence adds one to the count iff it matches |
| SequenceList.AllFiltersShowEverything | frontend/src/pages/SequenceList.js:8-12 | with every filter 'all', the whole list is shown |
| SequenceList.BucketsPartition | frontend/src/pages/SequenceList.js:117-119 | every duration lies in exactly one of short, medium and long |
| SequenceList.BucketsSplitCatalogue | frontend/src/pages/SequenceList.js:116-119 | with duration 'all', the count is the sum of the short, medium and long counts |
| SequenceList.FilterIdempotent | frontend/src/pages/SequenceList.js:113-120 | filtering twice equals filtering once |
| SequenceList.UnknownControlKeepsList | frontend/src/pages/SequenceList.js:105-120 | a change to a key the predicate does not read leaves the list unchanged |
| SequenceDetail.AddFavorite | frontend/src/pages/SequenceDetail.js:137-139 | a numeric id is present afterwards, appended once when absent; a NaN id is never found, so each call appends one more null; existing entries and every other value are untouched |
| SequenceDetail.Includes | frontend/src/pages/SequenceDetail.js:115 | `includes(parseInt(id))` holds iff the id is a number whose stored form is in the list; a NaN id is never included |
| SequenceDetail.Stored | frontend/src/pages/SequenceDetail.js:145 | `JSON.stringify` keeps a number and writes null for NaN |
| SequenceDetail.RemoveFavorite | frontend/src/pages/SequenceDetail.js:142 | every occurrence of a numeric id is gone, and the other entries keep their order and counts; a NaN id removes nothing |
| SequenceDetail.RemoveAbsent | frontend/src/pages/SequenceDetail.js:142 | removing an absent id changes nothing |
| SequenceDetail.AddThenRemove | frontend/src/pages/SequenceDetail.js:135-143 | favouriting then unfavouriting from a list without the id restores the list, except that a NaN id leaves one more null |
| SequenceDetail.SequenceDetailPage.constructor | frontend/src/pages/SequenceDetail.js:111-116 | the id is `parseInt` of the route text; favourited iff stored favourites exist and include the parsed id, so never for a NaN id |
| SequenceDetail.SequenceDetailPage.ToggleFavorite | frontend/src/pages/SequenceDetail.js:127-146 | the flag flips and the stored list becomes the added or filtered list; a numeric id keeps the flag consistent with the store, while with a NaN id the two agree only when the flag is off |
| SequenceDetail.TotalDuration | frontend/src/pages/SequenceDetail.js:149-151 | the sum of pose durations, or 0 when poses are absent |
| SequenceDetail.TotalDurationBounds | frontend/src/pages/SequenceDetail.js:150 | with non-negative durations, the total is at least each duration |
| Common.JsRem | frontend/src/pages/SequenceDetail.js:184 | JavaScript `%` on integers: the sign follows the dividend, and it agrees with `%` for non-negative totals |
| SequenceDetail.SecondsField | frontend/src/pages/SequenceDetail.js:193 | the seconds field is two digits (zero-padded below 10) and reads back as the seconds |
| SequenceDetail.SecondsText | frontend/src/pages/SequenceDetail.js:193 | definition: the seconds with a "0" in front below 10; SecondsField states what it reads back as |
| SequenceDetail.BadgeText | frontend/src/pages/SequenceDetail.js:193 | whole minutes and seconds below 60 read back as minutes·60 + seconds; negative minutes read as no clock at all |
| SequenceDetail.DurationBadge | frontend/src/pages/SequenceDetail.js:182-193 | the badge reads back as the total exactly when the total is non-negative |
| Fixtures.NonBlankLines | scripts/load_fixtures.js:61 | the kept lines are exactly the non-blank lines, in order |
| Fixtures.ParsePoseData | scripts/load_fixtures.js:60-83 | floor(n/3) poses for n non-blank lines, pose k built from lines 3k, 3k+1 and 3k+2 |
| Fixtures.ParseGroups | scripts/load_fixtures.js:64-80 | the `i += 3` loop builds one pose per complete group and drops a trailing incomplete group |
| Fixtures.GroupsAt | scripts/load_fixtures.js:64-80 | group k is built from lines 3k to 3k+2 |
| Fixtures.ParseGroup | scripts/load_fixtures.js:66-78 | the loop body builds the pose of its three lines, whose fields `PoseOfLines` describes |
| Fixtures.PoseOfLines | scripts/load_fixtures.js:66-78 | trimmed name and description; benefits split on '、' that rejoin to the trimmed line; difficulty and category in their enums; all 13 joints |
| Fixtures.FirstValueFrom | scripts/load_fixtures.js:102-108 | the value of the first entry whose key occurs in the name, or the default when none does |
| Fixtures.EnglishName | scripts/load_fixtures.js:86-109 | the English name of a table key occurring in the name, or 'Yoga Pose' exactly when no key occurs |
| Fixtures.GenerateEnglishName | scripts/load_fixtures.js:86-109 | the early-return loop over the name table returns the first-match value or 'Yoga Pose' |
| Fixtures.FirstValue | scripts/load_fixtures.js:102-108 | the loop returns at the first matching entry |
| Fixtures.Difficulty | scripts/load_fixtures.js:112-125 | advanced iff an advanced word occurs; intermediate iff none does but an intermediate one does; else beginner |
| Fixtures.DifficultyInLevels | backend/models/PoseTemplate.js:19 | the difficulty is always in the schema's enum |
| Fixtures.DetermineDifficulty | scripts/load_fixtures.js:112-125 | the two early-return loops compute `Difficulty` |
| Fixtures.DetermineCategory | scripts/load_fixtures.js:128-146 | the category is always one of the values the schema's enum allows (backend/models/PoseTemplate.js line 30) |
| Fixtures.FirstRuleFrom | scripts/load_fixtures.js:128-146 | the first rule with a keyword in the name wins, or the default |
| Fixtures.DetermineCategoryByRules | scripts/load_fixtures.js:128-146 | the if-chain is the ordered rule list with default 'standing' |
| Fixtures.InversionIsAdvanced | scripts/load_fixtures.js:112-146 | an inversion is always classified advanced |
| Fixtures.MockKeypoints | scripts/load_fixtures.js:149-165 | all 13 joints, each with x, y and score in [0, 1] |
| TrainingContext.JointIndex | frontend/src/contexts/TrainingContext.js:96-110 | every joint's index is 0, 11-16 or 23-28 |
| TrainingContext.JointAt | frontend/src/contexts/TrainingContext.js:96-110 | exactly the indices 0, 11-16 and 23-28 are mapped, each to the joint whose index it is |
| TrainingContext.JointTableInverse | frontend/src/contexts/TrainingContext.js:96-110 | the table is a bijection between the 13 joints and those indices; other indices are unmapped |
| TrainingContext.Normalized | frontend/src/contexts/TrainingContext.js:114-118 | x and y are copied, and the score is the element's or 0 when absent |
| TrainingContext.NormalizeKeypoints | frontend/src/contexts/TrainingContext.js:94-123 | a joint is present iff its index is inside the array, with that element's normalised point, so the keys are `PresentFor` of the length |
| TrainingContext.PresentFor | frontend/src/contexts/TrainingContext.js:112-120 | the output keys are named joints whose index is below the array length |
| TrainingContext.IndexImageOfPresent | frontend/src/contexts/TrainingContext.js:112-120 | the indices of the output joints are exactly the mapped indices below the length |
| TrainingContext.NormalizedSize | frontend/src/contexts/TrainingContext.js:112-120 | the output has one entry per mapped index below the length, so at most 13 |
| SmartYoga.Clip | smart_yoga.py:47 | a cosine inside [-1, 1] is kept, and one outside is moved to the nearer bound |
| SmartYoga.CalculateAngle | smart_yoga.py:34-48 | the angle lies in [0, 180], and is 0.0 when either arm has zero length |
| SmartYoga.Minus | smart_yoga.py:40-41 | definition: the componentwise difference `a - b` of two points |
| SmartYoga.Norm | smart_yoga.py:42-43 | `np.linalg.norm` is never negative and is 0 for the zero vector (given the square root of 0 is 0) |
| SmartYoga.Dot | smart_yoga.py:46 | definition: `np.dot` of two plane vectors, the sum of the componentwise products |
| SmartYoga.JointScore | smart_yoga.py:124 | the score lies in [0, 100]; it is 100 iff the angle equals the standard, and when positive it is 100 minus the deviation |
| SmartYoga.AngleOr0 | smart_yoga.py:124 | a missing joint reads as 0, and with all measured angles in [0, 180] every reading is too |
| SmartYoga.ScoreSum | smart_yoga.py:123-126 | the sum of joint scores lies in [0, 100·n] |
| SmartYoga.PoseScore | smart_yoga.py:127 | the truncated mean of the joint scores, 0 for an empty list, in [0, 100] |
| SmartYoga.PerfectScore | smart_yoga.py:124-127 | every angle at its standard scores 100 |
| SmartYoga.Best | smart_yoga.py:82-130 | the loop's best score lies in [0, 100] |
| SmartYoga.Ranked | smart_yoga.py:122-127 | each preset paired with its score, in `POSES` order |
| SmartYoga.BestIsBestOfRanked | smart_yoga.py:122-130 | the loop over presets is the same loop over their scores |
| SmartYoga.BestOfIsFirstMaximum | smart_yoga.py:128-130 | over scores: a strict rise replaces the best, so the result is the first maximum, or ("Unknown", 0) when all scores are 0 |
| SmartYoga.BestIsFirstMaximum | smart_yoga.py:82-130 | the result is the first preset of maximal positive score, or ("Unknown", 0) when every preset scores 0 |
| SmartYoga.BestPoseMatch | smart_yoga.py:82-130 | the loop computes `Best` |
| SmartYoga.KneePrompts | smart_yoga.py:133-137 | each knee prompt is issued iff the best pose is warrior and that knee's angle is below 85, left before right |
| SmartYoga.FrameAngles | smart_yoga.py:114-119 | exactly the four joint angles, each in [0, 180] |
| SmartYoga.ProcessFrame | smart_yoga.py:70-137 | no landmarks give ("Unknown", 0) and no prompts; otherwise the best match and its knee prompts, with a score in [0, 100] |
| DeviceUtils.MemoryOrDefault | frontend/src/utils/DeviceUtils.js:50 | an absent or zero memory reading becomes 4 |
| DeviceUtils.CoresOrDefault | frontend/src/utils/DeviceUtils.js:51 | an absent or zero core count becomes 4 |
| DeviceUtils.DevicePerformance | frontend/src/utils/DeviceUtils.js:48-60 | high iff memory ≥ 4 and cores ≥ 8; medium iff not high and memory ≥ 2 and cores ≥ 4; otherwise low |
| DeviceUtils.UnknownDeviceIsMedium | frontend/src/utils/DeviceUtils.js:50-56 | with both readings missing, the device is medium |
| DeviceUtils.PerformanceMonotone | frontend/src/utils/DeviceUtils.js:53-59 | more memory and more cores never lower the level |
| DeviceUtils.ImageQuality | frontend/src/utils/DeviceUtils.js:63-89 | offline gives low; slow cellular gives low; 3g gives medium; otherwise the device level |
| DeviceUtils.SlowCellular | frontend/src/utils/DeviceUtils.js:76-77 | definition: the connection type is "cellular" and the effective type is "slow-2g" or "2g" |
| DeviceUtils.ThirdGeneration | frontend/src/utils/DeviceUtils.js:82 | definition: the effective type is "3g" |
| DeviceUtils.HighQualityNeedsHighDevice | frontend/src/utils/DeviceUtils.js:63-89 | high quality only online on a high device; the network never raises the level except to medium on 3g |
| Register.Utf16Length | frontend/src/pages/Register.js:34 | `length` counts at least one unit per character and at most two, exactly one each inside the Basic Multilingual Plane |
| Register.PasswordError | frontend/src/pages/Register.js:29-37 | the mismatch error iff the passwords differ; the length error iff they match and are shorter than 6; no error iff both checks pass |
| Register.ShortPasswordRejected | frontend/src/pages/Register.js:34-37 | matching passwords of fewer than six BMP characters are rejected |
| Register.AstralCharactersCountTwice | frontend/src/pages/Register.js:34 | three characters outside the BMP already pass the length check |
| Register.RegisterPage.constructor | frontend/src/pages/Register.js:6-13 | empty fields, no error, not loading |
| Register.RegisterPage.HandleChange | frontend/src/pages/Register.js:16-22 | only the named field changes |
| Register.RegisterPage.HandleSubmit | frontend/src/pages/Register.js:24-39 | the error is cleared and then set by the first failing check; loading starts only when both pass; the fields are unchanged |
| Text.TrimStart | scripts/load_fixtures.js:66-68 | the text without its leading white space is no longer than the input and does not start with white space |
| Text.TrimStartIsSuffix | scripts/load_fixtures.js:66-68 | that text is a suffix of the input |
| Text.TrimEnd | scripts/load_fixtures.js:66-68 | the text without its trailing white space is no longer than the input and does not end with white space |
| Text.TrimEndIsPrefix | scripts/load_fixtures.js:66-68 | that text is a prefix of the input |
| Text.Trim | scripts/load_fixtures.js:61-68 | `trim()` leaves no JavaScript white space at either end |
| Text.IsJsSpace | scripts/load_fixtures.js:61 | definition: the characters `trim()` removes: tab, line feed, vertical tab, form feed, carriage return, space, no-break space, the Unicode space separators, the line and paragraph separators and the byte-order mark |
| Text.TrimIsInfix | scripts/load_fixtures.js:66-68 | the trimmed text is a slice of the input with only white space outside it |
| Text.TrimEmptyIffBlank | scripts/load_fixtures.js:61 | `line.trim()` is empty (falsy) iff the line is all white space |
| Text.Split | scripts/load_fixtures.js:61-68 | `split(sep)` gives at least one part, none containing the separator, and joining them restores the input |
| Text.SplitJoin | scripts/load_fixtures.js:68 | splitting a join of separator-free parts gives back the parts |
| Text.PadStart | frontend/src/components/TrainingModes/SequenceTraining.js:414 | `padStart(width, c)` keeps the text as a suffix and fills the front with `c` up to the width |
| Text.NatToString | frontend/src/components/TrainingModes/SequenceTraining.js:414 | `toString()` of a number is all digits with no leading zero |
| Text.NatToStringValue | frontend/src/components/TrainingModes/SequenceTraining.js:414 | the decimal text reads back as the number |
| Text.PaddedNatValue | frontend/src/components/TrainingModes/SequenceTraining.js:414 | zero-padding keeps the value |
| Text.ParseIntOfIntToString | frontend/src/pages/SequenceBuilder.js:192 | `parseInt` of a number's decimal text gives the number |
| Text.ParseUnsignedOfNatToString | frontend/src/pages/SequenceBuilder.js:192 | the digits of a number parse back to it |
| Text.ParseInt | frontend/src/pages/SequenceBuilder.js:192 | blank text gives NaN; a number is read only when a digit comes first after the white space and an optional sign, and it is negative only after a minus |
| Text.IntToString | frontend/src/pages/SequenceDetail.js:193 | `String(n)` is non-empty, starts with "-" iff the number is negative, and is all digits otherwise |
| Text.ParseUnsigned | frontend/src/pages/SequenceBuilder.js:192 | only text starting with a decimal digit has a value |
| Text.ContainsAt | backend/utils/poseAnalysis.js:96 | text holding `sub` at some position is text that `includes(sub)` |
| Text.Contains | scripts/load_fixtures.js:103 | definition: `includes(sub)`, some position of the text starts with `sub`; ContainsAt gives the direction used |
| Keypoints.EveryJointListed | frontend/src/contexts/TrainingContext.js:96-110 | the joint list names every one of the thirteen joints |
| Common.JsRound | backend/utils/poseAnalysis.js:47 | `Math.round` is within half a unit of its argument |
| Common.PyTruncate | smart_yoga.py:127 | `int()` truncates toward zero |
| Common.JsRemainder | backend/utils/poseAnalysis.js:56 | JavaScript `%` on reals: the sign follows the dividend, and the remainder equals `a` or `a - b` in the ranges the angle needs |
| Common.Sum | frontend/src/pages/SequenceBuilder.js:446 | the sum of no values is 0, and of non-negative values is non-negative |
| Common.SumAppend | frontend/src/pages/SequenceBuilder.js:446 | the reduce is additive over concatenation |

## Left out

- Floating-point arithmetic: `Math.atan2`, `Math.sqrt` and `np.arccos` are parameters with
  range-only subset types. Reals are exact, so rounding error, NaN and infinities are not
  modelled, and a JavaScript `NaN` coordinate cannot arise.
- Camera, MediaPipe, drawing, speech and screen orientation. These are the `useEffect`
  blocks, the canvas code and `speak_async`: all I/O with no logic the scores depend on.
  `handlePoseResults` is represented only by its calls to the scorer and the feedback line.
- Network, storage and routing: fetches, `localStorage`, the sequence service calls, the
  database loader and navigation. `localStorage` is a field of the detail page. A service
  call is recorded as the `lastCall` field, and its outcome is a parameter of
  `SaveSequence`.
- Timers: `setInterval` is the `timerActive` flag plus a `Tick` method; `setTimeout` delays
  are not modelled.
- SequenceTraining.SequencePlayer.SetSequence: only the pose count of the fetched sequence
  is kept, since the cursor depends on nothing else. A fetched sequence without `poses`
  is recorded like one with no poses, so the next-pose control does nothing. In the
  source, `nextPose` would read the length of `undefined` (SequenceTraining.js:377) and
  throw; the model does not show that throw.
- SequenceBuilder.SequenceBuilderPage.HandleDragEnd: it requires that the drag indices
  point inside their lists. The drag library guarantees this, and an out-of-range index
  would make the source read `undefined`.
- SequenceBuilder.SequenceBuilderPage.SaveSequence: `setSaving(true)` before the awaits is
  not observable in the model, which has no interleaving.
- The sequence builder's edit-mode loading and sequence field editing
  (`handleSequenceChange`) copy values, and are left out as I/O and form plumbing.
- Register.RegisterPage.HandleSubmit: the `catch` branch (Register.js:51-54) cannot be
  reached, because the simulated request only schedules a timeout. The stored user and the
  navigation are not modelled.
- SmartYoga.ProcessFrame: it requires the landmark list MediaPipe always produces (33
  points). The image conversion, drawing and the `cv2` loop are left out.
- SmartYoga.FrameAngles: `get_landmark_point` is modelled as indexing into the 33-point
  list by the `PoseLandmark` constants.
- DeviceUtils: the three level strings are the `Level` datatype, and
  `navigator.connection` / `mozConnection` / `webkitConnection` is one optional
  `Connection` parameter.
- PoseComparison.AnalyzeSequencePose: the error thrown for a negative index is the
  `Thrown` outcome; its message is not modelled.
- SequenceTraining.ComparedPoints: the detected landmarks are a dense array, as MediaPipe
  produces them. The template is a map from index to landmark, so holes, `null` entries and
  index-keyed objects are covered. A truthy template entry that is not a landmark object
  (a number, say) would give a `NaN` distance, and the model does not represent it.
- SequenceTraining.FeedbackMessage: the `TypeError` for a missing shoulder landmark is
  `None`, so the message is absent and `setFeedback` is not reached.
- SequenceDetail.SequenceDetailPage: the stored favourites hold numbers and `null`s,
  the only values this page writes. Other JSON a different program might leave under
  the same key is not modelled.
- Text.ParseInt: it models `parseInt` for decimal and `0x` hexadecimal text, with
  JavaScript's leading white space and sign. Radix arguments and the precision limits of
  very long digit strings are not modelled.
- Fixtures.ParsePoseData: the loop body calls `ParseGroup` through `ParseGroups`, which
  takes the pose constructor as a parameter. `GenerateEnglishName` runs the same
  first-match loop (`FirstValue`) over the name table.
