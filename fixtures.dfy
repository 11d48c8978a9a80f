/** The fixture loader (scripts/load_fixtures.js): the pose text file is read as
    groups of three non-blank lines (name, description, benefits), and each name
    is classified by substring rules into an English name, a difficulty and a
    category; every pose receives the same mock keypoints. */
module Fixtures {
  import opened Common
  import opened Text
  import opened Keypoints

  /** The document `parsePoseData` builds for one pose. */
  datatype FixturePose = FixturePose(
    name: string,
    englishName: string,
    description: string,
    difficulty: string,
    category: string,
    benefits: seq<string>,
    keypoints: KeypointSet)

  /** The `difficulty` and `category` enumerations of the pose template schema. */
  const DifficultyLevels: set<string> := {"beginner", "intermediate", "advanced"}
  const Categories: set<string> :=
    {"standing", "seated", "balancing", "twisting", "backbend", "forward_bend", "inversion"}

  const DefaultEnglishName: string := "Yoga Pose"
  const BenefitSeparator: char := '、'

  /** `name.includes(w)` for some `w` of `words`. */
  predicate ContainsAny(name: string, words: seq<string>) {
    exists k :: 0 <= k < |words| && Contains(name, words[k])
  }

  // ----- parsing -----

  /** `lines.filter(line => line.trim())`. */
  function NonBlankLines(lines: seq<string>): (r: seq<string>)
    ensures IsSubsequence(r, lines)
    ensures forall k :: 0 <= k < |r| ==> !IsBlank(r[k])
    ensures forall l :: l in r <==> l in lines && !IsBlank(l)
  {
    if lines == [] then []
    else
      var init := lines[..|lines| - 1];
      var last := lines[|lines| - 1];
      var kept := NonBlankLines(init);
      assert lines == init + [last];
      TrimEmptyIffBlank(last);
      if Trim(last) != "" then
        assert (kept + [last])[..|kept|] == kept;
        kept + [last]
      else kept
  }

  /** The pose built from a name line, a description line and a benefits line:
      its fields come from those lines, trimmed; the benefits are the third
      line cut at every '、', which they join back into; the difficulty and
      category are values of the schema's enumerations. */
  function PoseOfLines(nameLine: string, descriptionLine: string, benefitsLine: string): (p: FixturePose)
    ensures p.name == Trim(nameLine)
    ensures p.description == Trim(descriptionLine)
    ensures Join(p.benefits, BenefitSeparator) == Trim(benefitsLine)
    ensures forall b :: b in p.benefits ==> BenefitSeparator !in b
    ensures p.difficulty in DifficultyLevels
    ensures p.category in Categories
    ensures p.keypoints.Keys == AllJoints
  {
    var name := Trim(nameLine);
    DifficultyInLevels(name);
    FixturePose(
      name := name,
      englishName := EnglishName(name),
      description := Trim(descriptionLine),
      difficulty := Difficulty(name),
      category := DetermineCategory(name),
      benefits := Split(Trim(benefitsLine), BenefitSeparator),
      keypoints := MockKeypoints())
  }

  /** The body of the loop of `parsePoseData` as statements, calling the
      loop-based lookups: it builds exactly `PoseOfLines`. */
  method ParseGroup(nameLine: string, descriptionLine: string, benefitsLine: string) returns (pose: FixturePose)
    ensures pose == PoseOfLines(nameLine, descriptionLine, benefitsLine)
  {
    var name := Trim(nameLine);
    var description := Trim(descriptionLine);
    var keywords := Split(Trim(benefitsLine), BenefitSeparator);
    var english := GenerateEnglishName(name);
    var difficulty := DetermineDifficulty(name);
    pose := FixturePose(name, english, description, difficulty,
                        DetermineCategory(name), keywords, MockKeypoints());
  }

  /** `parsePoseData`: splits the text into lines, drops the blank ones and
      builds one pose from every complete group of three. */
  method ParsePoseData(data: string) returns (poses: seq<FixturePose>)
    ensures var lines := NonBlankLines(Split(data, '\n'));
      && |poses| == |lines| / 3
      && forall k :: 0 <= k < |poses| ==> 3 * k + 2 < |lines| && poses[k] == PoseOfLines(lines[3 * k], lines[3 * k + 1], lines[3 * k + 2])
  {
    var lines := NonBlankLines(Split(data, '\n'));
    poses := ParseGroups(lines, PoseOfLines);
  }

  /** What `build` makes of the first `n` complete groups of three lines. */
  function Groups<T>(lines: seq<string>, n: nat, build: (string, string, string) -> T): seq<T>
    requires 3 * n <= |lines|
  {
    if n == 0 then []
    else Groups(lines, n - 1, build) + [build(lines[3 * n - 3], lines[3 * n - 2], lines[3 * n - 1])]
  }

  /** Element `k` of the first `n` groups is built from lines `3k`, `3k+1` and `3k+2`. */
  lemma {:induction false} GroupsAt<T>(lines: seq<string>, n: nat, build: (string, string, string) -> T)
    requires 3 * n <= |lines|
    ensures |Groups(lines, n, build)| == n
    ensures forall k :: 0 <= k < n ==>
      Groups(lines, n, build)[k] == build(lines[3 * k], lines[3 * k + 1], lines[3 * k + 2])
  {
    if n > 0 {
      GroupsAt(lines, n - 1, build);
      var before := Groups(lines, n - 1, build);
      var after := Groups(lines, n, build);
      assert after == before + [build(lines[3 * n - 3], lines[3 * n - 2], lines[3 * n - 1])];
      forall k | 0 <= k < n
        ensures after[k] == build(lines[3 * k], lines[3 * k + 1], lines[3 * k + 2])
      {
        if k < n - 1 {
          assert after[k] == before[k];
        }
      }
    }
  }

  /** The loop of `parsePoseData`, stepping through the lines three at a time
      and building one element from each complete group; an incomplete last
      group is skipped. */
  method ParseGroups<T>(lines: seq<string>, build: (string, string, string) -> T) returns (poses: seq<T>)
    ensures |poses| == |lines| / 3
    ensures forall k :: 0 <= k < |poses| ==> 3 * k + 2 < |lines| && poses[k] == build(lines[3 * k], lines[3 * k + 1], lines[3 * k + 2])
  {
    poses := [];
    var n := 0;
    var i := 0;
    while i < |lines|
      invariant 3 * n == i || (3 * n + 3 == i && 3 * n + 2 >= |lines|)
      invariant 3 * n <= |lines|
      invariant poses == Groups(lines, n, build)
      decreases |lines| - i
    {
      if i + 2 < |lines| {
        poses := poses + [build(lines[i], lines[i + 1], lines[i + 2])];
        n := n + 1;
      }
      i := i + 3;
    }
    GroupsAt(lines, n, build);
  }


  // ----- English names -----

  /** The name table, in the order its entries are tried. */
  const NameMap: seq<(string, string)> := [
    ("山式", "Mountain Pose"),
    ("战士一式", "Warrior I"),
    ("战士二式", "Warrior II"),
    ("战士三式", "Warrior III"),
    ("下犬式", "Downward Facing Dog"),
    ("树式", "Tree Pose"),
    ("鸽子式", "Pigeon Pose"),
    ("眼镜蛇式", "Cobra Pose"),
    ("婴儿式", "Child Pose"),
    ("三角式", "Triangle Pose"),
    ("船式", "Boat Pose"),
    ("鱼式", "Fish Pose")
  ]

  /** The value of the first entry of `table`, from index `i` on, whose key
      occurs in the name; `default` when none does. */
  function FirstValueFrom(name: string, table: seq<(string, string)>, i: nat, default: string): (r: string)
    requires i <= |table|
    ensures (exists k :: i <= k < |table| && Contains(name, table[k].0) &&
               (forall j :: i <= j < k ==> !Contains(name, table[j].0)) && r == table[k].1) ||
            ((forall j :: i <= j < |table| ==> !Contains(name, table[j].0)) && r == default)
    decreases |table| - i
  {
    if i == |table| then default
    else if Contains(name, table[i].0) then table[i].1
    else FirstValueFrom(name, table, i + 1, default)
  }

  /** `generateEnglishName`: the English name of the first table key found in
      the name, or "Yoga Pose". */
  function EnglishName(name: string): (r: string)
    ensures (exists k :: 0 <= k < |NameMap| && Contains(name, NameMap[k].0) && r == NameMap[k].1) ||
            ((forall k :: 0 <= k < |NameMap| ==> !Contains(name, NameMap[k].0)) && r == DefaultEnglishName)
  {
    FirstValueFrom(name, NameMap, 0, DefaultEnglishName)
  }

  /** `generateEnglishName`: the loop over the table that returns at the first hit. */
  method GenerateEnglishName(name: string) returns (r: string)
    ensures r == EnglishName(name)
  {
    r := FirstValue(name, NameMap, DefaultEnglishName);
  }

  method FirstValue(name: string, table: seq<(string, string)>, default: string) returns (r: string)
    ensures r == FirstValueFrom(name, table, 0, default)
  {
    for i := 0 to |table|
      invariant FirstValueFrom(name, table, i, default) == FirstValueFrom(name, table, 0, default)
    {
      if Contains(name, table[i].0) {
        return table[i].1;
      }
    }
    return default;
  }

  // ----- difficulty -----

  const AdvancedWords: seq<string> := ["倒立", "手倒立", "孔雀", "乌鸦"]
  const IntermediateWords: seq<string> := ["半月", "战士三式", "侧鸽子"]

  /** Advanced words win over intermediate ones; beginner is the default. */
  function Difficulty(name: string): (r: string)
    ensures r == "advanced" <==> ContainsAny(name, AdvancedWords)
    ensures r == "intermediate" <==> !ContainsAny(name, AdvancedWords) && ContainsAny(name, IntermediateWords)
    ensures r == "beginner" <==> !ContainsAny(name, AdvancedWords) && !ContainsAny(name, IntermediateWords)
  {
    if ContainsAny(name, AdvancedWords) then "advanced"
    else if ContainsAny(name, IntermediateWords) then "intermediate"
    else "beginner"
  }

  lemma DifficultyInLevels(name: string)
    ensures Difficulty(name) in DifficultyLevels
  {
  }

  /** `determineDifficulty`: two loops, each returning at its first hit. */
  method DetermineDifficulty(name: string) returns (r: string)
    ensures r == Difficulty(name)
  {
    for i := 0 to |AdvancedWords|
      invariant forall j :: 0 <= j < i ==> !Contains(name, AdvancedWords[j])
    {
      if Contains(name, AdvancedWords[i]) {
        return "advanced";
      }
    }
    for i := 0 to |IntermediateWords|
      invariant forall j :: 0 <= j < i ==> !Contains(name, IntermediateWords[j])
    {
      if Contains(name, IntermediateWords[i]) {
        return "intermediate";
      }
    }
    return "beginner";
  }

  // ----- category -----

  /** `determineCategory`: the if-chain over substrings. */
  function DetermineCategory(name: string): (r: string)
    ensures r in Categories
  {
    if Contains(name, "站立") || Contains(name, "山式") || Contains(name, "战士") then "standing"
    else if Contains(name, "坐") || Contains(name, "蝴蝶") then "seated"
    else if Contains(name, "树式") || Contains(name, "半月") then "balancing"
    else if Contains(name, "扭转") then "twisting"
    else if Contains(name, "眼镜蛇") || Contains(name, "上犬") then "backbend"
    else if Contains(name, "前屈") || Contains(name, "下犬") then "forward_bend"
    else if Contains(name, "倒立") then "inversion"
    else "standing"
  }

  /** The same rules as a table: keywords and the category they select. */
  const CategoryRules: seq<(seq<string>, string)> := [
    (["站立", "山式", "战士"], "standing"),
    (["坐", "蝴蝶"], "seated"),
    (["树式", "半月"], "balancing"),
    (["扭转"], "twisting"),
    (["眼镜蛇", "上犬"], "backbend"),
    (["前屈", "下犬"], "forward_bend"),
    (["倒立"], "inversion")
  ]

  /** The category of the first rule, from index `i` on, with a keyword in
      the name; `default` when none has. */
  function FirstRuleFrom(name: string, rules: seq<(seq<string>, string)>, i: nat, default: string): (r: string)
    requires i <= |rules|
    ensures (exists k :: i <= k < |rules| && ContainsAny(name, rules[k].0) &&
               (forall j :: i <= j < k ==> !ContainsAny(name, rules[j].0)) && r == rules[k].1) ||
            ((forall j :: i <= j < |rules| ==> !ContainsAny(name, rules[j].0)) && r == default)
    decreases |rules| - i
  {
    if i == |rules| then default
    else if ContainsAny(name, rules[i].0) then rules[i].1
    else FirstRuleFrom(name, rules, i + 1, default)
  }


  lemma ContainsAnyOfTwo(name: string, a: string, b: string)
    ensures ContainsAny(name, [a, b]) <==> Contains(name, a) || Contains(name, b)
  {
    if Contains(name, a) { assert [a, b][0] == a; }
    if Contains(name, b) { assert [a, b][1] == b; }
  }

  lemma ContainsAnyOfThree(name: string, a: string, b: string, c: string)
    ensures ContainsAny(name, [a, b, c]) <==> Contains(name, a) || Contains(name, b) || Contains(name, c)
  {
    if Contains(name, a) { assert [a, b, c][0] == a; }
    if Contains(name, b) { assert [a, b, c][1] == b; }
    if Contains(name, c) { assert [a, b, c][2] == c; }
  }

  lemma ContainsAnyOfOne(name: string, a: string)
    ensures ContainsAny(name, [a]) <==> Contains(name, a)
  {
    if Contains(name, a) { assert [a][0] == a; }
  }

  /** The if-chain is "first matching rule wins, standing by default". */
  lemma DetermineCategoryByRules(name: string)
    ensures DetermineCategory(name) == FirstRuleFrom(name, CategoryRules, 0, "standing")
  {
    CategoryHead(name);
    CategoryMiddle(name);
    CategoryTail(name);
  }

  /** The first three rules of the chain. */
  lemma CategoryHead(name: string)
    ensures FirstRuleFrom(name, CategoryRules, 0, "standing") ==
      if Contains(name, "站立") || Contains(name, "山式") || Contains(name, "战士") then "standing"
      else if Contains(name, "坐") || Contains(name, "蝴蝶") then "seated"
      else if Contains(name, "树式") || Contains(name, "半月") then "balancing"
      else FirstRuleFrom(name, CategoryRules, 3, "standing")
  {
    assert CategoryRules[2] == (["树式", "半月"], "balancing");
    RuleStep(name, CategoryRules, 2, "standing");
    ContainsAnyOfTwo(name, "树式", "半月");
    assert CategoryRules[1] == (["坐", "蝴蝶"], "seated");
    RuleStep(name, CategoryRules, 1, "standing");
    ContainsAnyOfTwo(name, "坐", "蝴蝶");
    assert CategoryRules[0] == (["站立", "山式", "战士"], "standing");
    RuleStep(name, CategoryRules, 0, "standing");
    ContainsAnyOfThree(name, "站立", "山式", "战士");
  }

  /** Rules four and five of the chain. */
  lemma CategoryMiddle(name: string)
    ensures FirstRuleFrom(name, CategoryRules, 3, "standing") ==
      if Contains(name, "扭转") then "twisting"
      else if Contains(name, "眼镜蛇") || Contains(name, "上犬") then "backbend"
      else FirstRuleFrom(name, CategoryRules, 5, "standing")
  {
    assert CategoryRules[4] == (["眼镜蛇", "上犬"], "backbend");
    RuleStep(name, CategoryRules, 4, "standing");
    ContainsAnyOfTwo(name, "眼镜蛇", "上犬");
    assert CategoryRules[3] == (["扭转"], "twisting");
    RuleStep(name, CategoryRules, 3, "standing");
    ContainsAnyOfOne(name, "扭转");
  }

  /** The last two rules of the chain, then the default. */
  lemma CategoryTail(name: string)
    ensures FirstRuleFrom(name, CategoryRules, 5, "standing") ==
      if Contains(name, "前屈") || Contains(name, "下犬") then "forward_bend"
      else if Contains(name, "倒立") then "inversion"
      else "standing"
  {
    assert CategoryRules[6] == (["倒立"], "inversion");
    RuleStep(name, CategoryRules, 6, "standing");
    ContainsAnyOfOne(name, "倒立");
    assert CategoryRules[5] == (["前屈", "下犬"], "forward_bend");
    RuleStep(name, CategoryRules, 5, "standing");
    ContainsAnyOfTwo(name, "前屈", "下犬");
  }

  /** One rule of the table: it wins if it matches, else the rest decide. */
  lemma RuleStep(name: string, rules: seq<(seq<string>, string)>, i: nat, default: string)
    requires i < |rules|
    ensures FirstRuleFrom(name, rules, i, default) ==
      if ContainsAny(name, rules[i].0) then rules[i].1 else FirstRuleFrom(name, rules, i + 1, default)
  {
  }

  /** An inversion is always advanced: its keyword is the first advanced word. */
  lemma InversionIsAdvanced(name: string)
    requires DetermineCategory(name) == "inversion"
    ensures Difficulty(name) == "advanced"
  {
    assert Contains(name, AdvancedWords[0]);
  }

  // ----- mock keypoints -----

  /** `generateMockKeypoints`: one fixed point per joint. */
  function MockKeypoints(): (r: KeypointSet)
    ensures r.Keys == AllJoints
    ensures forall j :: j in r ==> 0.0 <= r[j].x <= 1.0 && 0.0 <= r[j].y <= 1.0 && 0.0 <= r[j].score <= 1.0
  {
    map[
      Nose := Point(0.5, 0.2, 0.9),
      LeftShoulder := Point(0.4, 0.3, 0.8),
      RightShoulder := Point(0.6, 0.3, 0.8),
      LeftElbow := Point(0.3, 0.4, 0.8),
      RightElbow := Point(0.7, 0.4, 0.8),
      LeftWrist := Point(0.3, 0.5, 0.7),
      RightWrist := Point(0.7, 0.5, 0.7),
      LeftHip := Point(0.45, 0.6, 0.9),
      RightHip := Point(0.55, 0.6, 0.9),
      LeftKnee := Point(0.4, 0.75, 0.8),
      RightKnee := Point(0.6, 0.75, 0.8),
      LeftAnkle := Point(0.4, 0.9, 0.7),
      RightAnkle := Point(0.6, 0.9, 0.7)
    ]
  }
}
