/**
 * Subject names of a monthly report: which names count as subjects, the
 * name collectors (`collectSubjectNames`, `detectSpecialSubjects`), the
 * per-course chapter map, and the course progress line.
 *
 * A report field is a `Val`: a string, or any other JSON value with only its
 * JavaScript truthiness kept. `Array.isArray` fields are `Option<seq<_>>`,
 * array entries that may be `null` are `Option<_>`. `JSON.stringify(report)`
 * is an input: `Some(text)`, or `None` when it throws.
 */
module Subjects {
  import opened Wrappers
  import opened Text
  import TimeProgress
  import Format

  // ---------------------------------------------------------------------------
  // isIgnorableSubjectName

  /** `IGNORE_SUBJECT_PATTERNS`, each a plain substring pattern. */
  const IgnoreSubjectPatterns: seq<string> := ["普通科", "大修館書店版", "光村図書版", "第一学習社版"]

  /** Some pattern of `ps` occurs in `s` (`ps.some(p => p.test(s))`). */
  predicate AnyContains(s: string, ps: seq<string>)
    decreases |ps|
  {
    ps != [] && (Contains(s, ps[0]) || AnyContains(s, ps[1..]))
  }

  /** `isIgnorableSubjectName(name)`. */
  predicate IsIgnorableSubjectName(name: string) {
    AnyContains(name, IgnoreSubjectPatterns)
  }

  lemma {:induction false} AnyContainsSpec(s: string, ps: seq<string>)
    ensures AnyContains(s, ps) <==> exists i :: 0 <= i < |ps| && Contains(s, ps[i])
    decreases |ps|
  {
    if ps != [] {
      AnyContainsSpec(s, ps[1..]);
      assert forall i :: 1 <= i < |ps| ==> ps[i] == ps[1..][i - 1];
      if exists i :: 0 <= i < |ps| && Contains(s, ps[i]) {
        var i :| 0 <= i < |ps| && Contains(s, ps[i]);
        if i > 0 {
          assert Contains(s, ps[1..][i - 1]);
        }
      }
    }
  }

  /** A name is ignorable exactly when it contains one of the four edition and course markers. */
  lemma {:induction false} IsIgnorableSpec(name: string)
    ensures IsIgnorableSubjectName(name) <==>
      Contains(name, "普通科") || Contains(name, "大修館書店版") ||
      Contains(name, "光村図書版") || Contains(name, "第一学習社版")
  {
    AnyContainsSpec(name, IgnoreSubjectPatterns);
    assert IgnoreSubjectPatterns[0] == "普通科";
    assert IgnoreSubjectPatterns[1] == "大修館書店版";
    assert IgnoreSubjectPatterns[2] == "光村図書版";
    assert IgnoreSubjectPatterns[3] == "第一学習社版";
  }

  /** Trimming a name that is not ignorable leaves it not ignorable. */
  lemma {:induction false} TrimKeepsNotIgnorable(s: string)
    requires !IsIgnorableSubjectName(s)
    ensures !IsIgnorableSubjectName(Trim(s))
  {
    AnyContainsSpec(s, IgnoreSubjectPatterns);
    AnyContainsSpec(Trim(s), IgnoreSubjectPatterns);
    forall i | 0 <= i < |IgnoreSubjectPatterns|
      ensures !Contains(Trim(s), IgnoreSubjectPatterns[i])
    {
      if Contains(Trim(s), IgnoreSubjectPatterns[i]) {
        ContainsTrimmedPart(s, IgnoreSubjectPatterns[i]);
      }
    }
  }

  // ---------------------------------------------------------------------------
  // The report's name fields

  /** A JSON field: a string, or anything else with its truthiness. */
  datatype Val = StrVal(s: string) | OtherVal(truthy: bool)

  /** A missing field, `null` or `undefined`. */
  const Missing: Val := OtherVal(false)

  datatype CourseRef = CourseRef(name: Val, title: Val)

  datatype NamedChapter = NamedChapter(courseId: TimeProgress.Id, chapterId: TimeProgress.Id,
                                       courseName: Val, courseTitle: Val, title: Val, name: Val,
                                       course: Option<CourseRef>)

  datatype NamedGroup = NamedGroup(courseName: Val, courseTitle: Val, name: Val, title: Val,
                                   course: Option<CourseRef>, chapters: Option<seq<Option<NamedChapter>>>)

  datatype Course = Course(id: TimeProgress.Id, name: Val, title: Val)

  datatype SubjectReport = SubjectReport(courses: Option<seq<Option<Course>>>,
                                         deadlineGroups: Option<seq<Option<NamedGroup>>>,
                                         completedChapters: Option<seq<Option<NamedChapter>>>)

  /** `x?.course?.name` and `x?.course?.title`. */
  function RefName(c: Option<CourseRef>): Val {
    if c.Some? then c.value.name else Missing
  }

  function RefTitle(c: Option<CourseRef>): Val {
    if c.Some? then c.value.title else Missing
  }

  /** The six name fields of a chapter, in the order the collectors visit them. */
  function ChapterFields(ch: NamedChapter): seq<Val> {
    [ch.courseName, ch.courseTitle, ch.title, ch.name, RefName(ch.course), RefTitle(ch.course)]
  }

  /** `collectFromChapter`'s values: none for a `null` entry. */
  function ChapterVals(c: Option<NamedChapter>): seq<Val> {
    if c.Some? then ChapterFields(c.value) else []
  }

  function ChaptersVals(cs: seq<Option<NamedChapter>>): seq<Val>
    decreases |cs|
  {
    if cs == [] then [] else ChaptersVals(cs[..|cs| - 1]) + ChapterVals(cs[|cs| - 1])
  }

  /** The six name fields of a deadline group; note `name` before `title`, unlike a chapter. */
  function GroupFields(g: NamedGroup): seq<Val> {
    [g.courseName, g.courseTitle, g.name, g.title, RefName(g.course), RefTitle(g.course)]
  }

  /** `collectFromGroup`'s values: the group's fields, then its chapters' when they are an array. */
  function GroupVals(g: Option<NamedGroup>): seq<Val> {
    if g.Some? then GroupFields(g.value) + ChaptersVals(g.value.chapters.GetOr([])) else []
  }

  function GroupsVals(gs: seq<Option<NamedGroup>>): seq<Val>
    decreases |gs|
  {
    if gs == [] then [] else GroupsVals(gs[..|gs| - 1]) + GroupVals(gs[|gs| - 1])
  }

  /** `course?.name` and `course?.title`. */
  function CourseVals(c: Option<Course>): seq<Val> {
    if c.Some? then [c.value.name, c.value.title] else [Missing, Missing]
  }

  function CoursesVals(cs: seq<Option<Course>>): seq<Val>
    decreases |cs|
  {
    if cs == [] then [] else CoursesVals(cs[..|cs| - 1]) + CourseVals(cs[|cs| - 1])
  }

  /** The report's arrays; a missing report or a field that is not an array is empty. */
  function ReportCourses(r: Option<SubjectReport>): seq<Option<Course>> {
    if r.Some? then r.value.courses.GetOr([]) else []
  }

  function ReportGroups(r: Option<SubjectReport>): seq<Option<NamedGroup>> {
    if r.Some? then r.value.deadlineGroups.GetOr([]) else []
  }

  function ReportCompleted(r: Option<SubjectReport>): seq<Option<NamedChapter>> {
    if r.Some? then r.value.completedChapters.GetOr([]) else []
  }

  /** The values `collectSubjectNames` offers: courses, then deadline groups, then completed chapters. */
  function CollectVals(r: Option<SubjectReport>): seq<Val> {
    CoursesVals(ReportCourses(r)) + GroupsVals(ReportGroups(r)) + ChaptersVals(ReportCompleted(r))
  }

  /** The values `detectSpecialSubjects` offers: deadline groups, then completed chapters, then courses. */
  function DetectVals(r: Option<SubjectReport>): seq<Val> {
    GroupsVals(ReportGroups(r)) + ChaptersVals(ReportCompleted(r)) + CoursesVals(ReportCourses(r))
  }

  // ---------------------------------------------------------------------------
  // appendName and the name set

  /** The name `appendName(value)` adds: a string that is not blank and not ignorable, trimmed. */
  function Accepted(v: Val): Option<string> {
    if v.StrVal? && Trim(v.s) != [] && !IsIgnorableSubjectName(v.s) then Some(Trim(v.s)) else None
  }

  /** The insertion-ordered set after `appendName(v)`. */
  function AddName(names: seq<string>, v: Val): seq<string> {
    match Accepted(v)
    case Some(n) => if n in names then names else names + [n]
    case None => names
  }

  /** The set after `appendName` of each value in turn. */
  function AddAll(names: seq<string>, vs: seq<Val>): seq<string>
    decreases |vs|
  {
    if vs == [] then names else AddName(AddAll(names, vs[..|vs| - 1]), vs[|vs| - 1])
  }

  /** `x` is the accepted form of some value in `vs`. */
  predicate AcceptedIn(vs: seq<Val>, x: string) {
    exists i :: 0 <= i < |vs| && Accepted(vs[i]) == Some(x)
  }

  /** What is added is a trimmed, non-blank name that is not ignorable. */
  lemma {:induction false} AcceptedSpec(v: Val)
    ensures Accepted(v).Some? ==>
      var n := Accepted(v).value;
      n != [] && IsTrimmed(n) && !IsIgnorableSubjectName(n)
    ensures Accepted(v).Some? <==> v.StrVal? && Trim(v.s) != [] && !IsIgnorableSubjectName(v.s)
  {
    if Accepted(v).Some? {
      TrimIsTrimmed(v.s);
      TrimKeepsNotIgnorable(v.s);
    }
  }

  lemma {:induction false} AddAllSnoc(names: seq<string>, vs: seq<Val>, v: Val)
    ensures AddAll(names, vs + [v]) == AddName(AddAll(names, vs), v)
  {
    assert (vs + [v])[..|vs|] == vs;
  }

  lemma {:induction false} AddAllSnocAt(names: seq<string>, s: seq<Val>, vs: seq<Val>, v: Val)
    requires s == vs + [v]
    ensures AddAll(names, s) == AddName(AddAll(names, vs), v)
  {
    AddAllSnoc(names, vs, v);
  }

  /** Offering two runs of values is offering their concatenation. */
  lemma {:induction false} AddAllAppend(names: seq<string>, a: seq<Val>, b: seq<Val>)
    ensures AddAll(names, a + b) == AddAll(AddAll(names, a), b)
    decreases |b|
  {
    if b == [] {
      assert a + b == a;
    } else {
      var n := |b| - 1;
      var front := a + b[..n];
      assert a + b == front + [b[n]];
      assert b == b[..n] + [b[n]];
      AddAllSnocAt(names, a + b, front, b[n]);
      AddAllAppend(names, a, b[..n]);
      AddAllSnocAt(AddAll(names, a), b, b[..n], b[n]);
    }
  }

  /** The names already present stay, first and in order. */
  lemma {:induction false} AddAllPrefix(names: seq<string>, vs: seq<Val>)
    ensures |names| <= |AddAll(names, vs)| && AddAll(names, vs)[..|names|] == names
    decreases |vs|
  {
    if vs != [] {
      var before := AddAll(names, vs[..|vs| - 1]);
      AddAllPrefix(names, vs[..|vs| - 1]);
      assert before[..|names|] == names;
      if AddName(before, vs[|vs| - 1]) != before {
        assert (before + [Accepted(vs[|vs| - 1]).value])[..|names|] == before[..|names|];
      }
    }
  }

  /** No name is added twice. */
  lemma {:induction false} AddAllDistinct(names: seq<string>, vs: seq<Val>)
    requires TimeProgress.Distinct(names)
    ensures TimeProgress.Distinct(AddAll(names, vs))
    decreases |vs|
  {
    if vs != [] {
      AddAllDistinct(names, vs[..|vs| - 1]);
    }
  }

  /** The set holds exactly the names it started with and the accepted form of each value offered. */
  lemma {:induction false} AddAllMembers(names: seq<string>, vs: seq<Val>, x: string)
    ensures x in AddAll(names, vs) <==> x in names || AcceptedIn(vs, x)
    decreases |vs|
  {
    if vs != [] {
      var n := |vs| - 1;
      AddAllMembers(names, vs[..n], x);
      AddNameMembers(AddAll(names, vs[..n]), vs[n], x);
      AcceptedInSnoc(vs, x);
    }
  }

  lemma {:induction false} AddNameMembers(names: seq<string>, v: Val, x: string)
    ensures x in AddName(names, v) <==> x in names || Accepted(v) == Some(x)
  {
  }

  lemma {:induction false} AcceptedInSnoc(vs: seq<Val>, x: string)
    requires vs != []
    ensures AcceptedIn(vs, x) <==> AcceptedIn(vs[..|vs| - 1], x) || Accepted(vs[|vs| - 1]) == Some(x)
  {
    var n := |vs| - 1;
    if AcceptedIn(vs, x) {
      var i :| 0 <= i < |vs| && Accepted(vs[i]) == Some(x);
      if i < n {
        assert vs[..n][i] == vs[i];
      }
    }
    if AcceptedIn(vs[..n], x) {
      var i :| 0 <= i < n && Accepted(vs[..n][i]) == Some(x);
      assert vs[i] == vs[..n][i];
    }
  }

  lemma {:induction false} AcceptedInAppend(a: seq<Val>, b: seq<Val>, x: string)
    ensures AcceptedIn(a + b, x) <==> AcceptedIn(a, x) || AcceptedIn(b, x)
  {
    if AcceptedIn(a + b, x) {
      var i :| 0 <= i < |a + b| && Accepted((a + b)[i]) == Some(x);
      if i >= |a| {
        assert (a + b)[i] == b[i - |a|];
      }
    }
    if AcceptedIn(a, x) {
      var i :| 0 <= i < |a| && Accepted(a[i]) == Some(x);
      assert (a + b)[i] == a[i];
    }
    if AcceptedIn(b, x) {
      var i :| 0 <= i < |b| && Accepted(b[i]) == Some(x);
      assert (a + b)[|a| + i] == b[i];
    }
  }

  /** Every name collected is trimmed, non-blank and not ignorable, when the starting names are. */
  lemma {:induction false} AddAllNamesClean(names: seq<string>, vs: seq<Val>, x: string)
    requires x in AddAll(names, vs) && x !in names
    ensures x != [] && IsTrimmed(x) && !IsIgnorableSubjectName(x)
  {
    AddAllMembers(names, vs, x);
    var i :| 0 <= i < |vs| && Accepted(vs[i]) == Some(x);
    AcceptedSpec(vs[i]);
  }

  // ---------------------------------------------------------------------------
  // The collector loops

  /** `appendName` of each value in turn. */
  method AppendNames(names: seq<string>, vs: seq<Val>) returns (out: seq<string>)
    ensures out == AddAll(names, vs)
  {
    out := names;
    for i := 0 to |vs|
      invariant out == AddAll(names, vs[..i])
    {
      var v := vs[i];
      if v.StrVal? && Trim(v.s) != [] && !IsIgnorableSubjectName(v.s) {
        var n := Trim(v.s);
        if n !in out {
          out := out + [n];
        }
      }
      AddAllSnoc(names, vs[..i], v);
      assert vs[..i + 1] == vs[..i] + [v];
    }
    assert vs[..|vs|] == vs;
  }

  /** `collectFromChapter` of each chapter of a list. */
  method CollectChapters(names: seq<string>, cs: seq<Option<NamedChapter>>) returns (out: seq<string>)
    ensures out == AddAll(names, ChaptersVals(cs))
  {
    out := names;
    for i := 0 to |cs|
      invariant out == AddAll(names, ChaptersVals(cs[..i]))
    {
      if cs[i].Some? {
        out := AppendNames(out, ChapterFields(cs[i].value));
      }
      assert cs[..i + 1][..i] == cs[..i];
      AddAllAppend(names, ChaptersVals(cs[..i]), ChapterVals(cs[i]));
    }
    assert cs[..|cs|] == cs;
  }

  /** `collectFromGroup` of each group of a list. */
  method CollectGroups(names: seq<string>, gs: seq<Option<NamedGroup>>) returns (out: seq<string>)
    ensures out == AddAll(names, GroupsVals(gs))
  {
    out := names;
    for i := 0 to |gs|
      invariant out == AddAll(names, GroupsVals(gs[..i]))
    {
      ghost var before := out;
      if gs[i].Some? {
        var g := gs[i].value;
        out := AppendNames(out, GroupFields(g));
        if g.chapters.Some? {
          out := CollectChapters(out, g.chapters.value);
        } else {
          assert ChaptersVals([]) == [];
          assert GroupFields(g) + [] == GroupFields(g);
        }
        AddAllAppend(before, GroupFields(g), ChaptersVals(g.chapters.GetOr([])));
      }
      assert gs[..i + 1][..i] == gs[..i];
      AddAllAppend(names, GroupsVals(gs[..i]), GroupVals(gs[i]));
    }
    assert gs[..|gs|] == gs;
  }

  /** `appendName(course?.name)` and `appendName(course?.title)` for each course. */
  method CollectCourses(names: seq<string>, cs: seq<Option<Course>>) returns (out: seq<string>)
    ensures out == AddAll(names, CoursesVals(cs))
  {
    out := names;
    for i := 0 to |cs|
      invariant out == AddAll(names, CoursesVals(cs[..i]))
    {
      out := AppendNames(out, CourseVals(cs[i]));
      assert cs[..i + 1][..i] == cs[..i];
      AddAllAppend(names, CoursesVals(cs[..i]), CourseVals(cs[i]));
    }
    assert cs[..|cs|] == cs;
  }

  // ---------------------------------------------------------------------------
  // collectSubjectNames

  /** `knownKeywords`. */
  const KnownKeywords: seq<string> := [
    "国語", "現代文", "古典", "数学", "算数", "理科", "生物", "化学", "物理", "地学",
    "社会", "地理", "歴史", "日本史", "世界史", "公民", "政治", "経済", "倫理",
    "英語", "英会話", "外国語", "中国語", "韓国語", "フランス語", "ドイツ語",
    "体育", "保健", "家庭", "家庭科", "家庭総合", "技術", "情報", "美術", "音楽", "書道",
    "商業", "簿記", "デザイン", "表現"
  ]

  /** The set after adding, in turn, each keyword the serialised report contains. */
  function AddKeywords(names: seq<string>, kws: seq<string>, serialized: string): seq<string>
    decreases |kws|
  {
    if kws == [] then names
    else
      var before := AddKeywords(names, kws[..|kws| - 1], serialized);
      var kw := kws[|kws| - 1];
      if Contains(serialized, kw) && kw !in before then before + [kw] else before
  }

  /** The names of the report's own fields, in `collectSubjectNames` order. */
  function CollectedNames(r: Option<SubjectReport>): seq<string> {
    AddAll([], CollectVals(r))
  }

  /** `collectSubjectNames(report)`: the collected names, then the keywords found in its serialisation. */
  function SubjectNames(r: Option<SubjectReport>, serialized: Option<string>): seq<string> {
    if serialized.Some? then AddKeywords(CollectedNames(r), KnownKeywords, serialized.value)
    else CollectedNames(r)
  }

  method CollectSubjectNames(r: Option<SubjectReport>, serialized: Option<string>) returns (names: seq<string>)
    ensures names == SubjectNames(r, serialized)
  {
    names := CollectCourses([], ReportCourses(r));
    names := CollectGroups(names, ReportGroups(r));
    names := CollectChapters(names, ReportCompleted(r));
    AddAllAppend([], CoursesVals(ReportCourses(r)), GroupsVals(ReportGroups(r)));
    AddAllAppend([], CoursesVals(ReportCourses(r)) + GroupsVals(ReportGroups(r)), ChaptersVals(ReportCompleted(r)));
    if serialized.Some? {
      names := AppendKeywords(names, KnownKeywords, serialized.value);
    }
  }

  /** The `for (const keyword of knownKeywords)` loop. */
  method AppendKeywords(names: seq<string>, kws: seq<string>, text: string) returns (out: seq<string>)
    ensures out == AddKeywords(names, kws, text)
  {
    out := names;
    for k := 0 to |kws|
      invariant out == AddKeywords(names, kws[..k], text)
    {
      var kw := kws[k];
      if Contains(text, kw) && kw !in out {
        out := out + [kw];
      }
      assert kws[..k + 1][..k] == kws[..k];
    }
    assert kws[..|kws|] == kws;
  }

  lemma {:induction false} AddKeywordsSpec(names: seq<string>, kws: seq<string>, serialized: string, x: string)
    ensures |names| <= |AddKeywords(names, kws, serialized)|
    ensures AddKeywords(names, kws, serialized)[..|names|] == names
    ensures x in AddKeywords(names, kws, serialized) <==> x in names || (x in kws && Contains(serialized, x))
    ensures TimeProgress.Distinct(names) ==> TimeProgress.Distinct(AddKeywords(names, kws, serialized))
    decreases |kws|
  {
    if kws != [] {
      var n := |kws| - 1;
      var before := AddKeywords(names, kws[..n], serialized);
      AddKeywordsSpec(names, kws[..n], serialized, x);
      assert kws == kws[..n] + [kws[n]];
      assert before[..|names|] == names;
      if Contains(serialized, kws[n]) && kws[n] !in before {
        assert (before + [kws[n]])[..|names|] == before[..|names|];
      }
    }
  }

  /**
   * The result has no duplicate; every name of the report's own fields comes
   * first, in courses, deadline groups, completed chapters order; it holds a
   * name exactly when some field offers it or it is a known keyword the
   * serialisation contains.
   */
  lemma {:induction false} SubjectNamesSpec(r: Option<SubjectReport>, serialized: Option<string>, x: string)
    ensures TimeProgress.Distinct(SubjectNames(r, serialized))
    ensures |CollectedNames(r)| <= |SubjectNames(r, serialized)|
    ensures SubjectNames(r, serialized)[..|CollectedNames(r)|] == CollectedNames(r)
    ensures x in SubjectNames(r, serialized) <==>
      AcceptedIn(CollectVals(r), x) || (serialized.Some? && x in KnownKeywords && Contains(serialized.value, x))
  {
    AddAllDistinct([], CollectVals(r));
    AddAllMembers([], CollectVals(r), x);
    if serialized.Some? {
      AddKeywordsSpec(CollectedNames(r), KnownKeywords, serialized.value, x);
    }
  }

  /** The collected names are trimmed, non-blank and not ignorable. */
  lemma {:induction false} CollectedNamesClean(r: Option<SubjectReport>, x: string)
    requires x in CollectedNames(r)
    ensures x != [] && IsTrimmed(x) && !IsIgnorableSubjectName(x)
  {
    AddAllNamesClean([], CollectVals(r), x);
  }

  /** Names from the courses come before those from the deadline groups, and those before the completed chapters'. */
  lemma {:induction false} CollectedOrder(r: Option<SubjectReport>)
    ensures var fromCourses := AddAll([], CoursesVals(ReportCourses(r)));
      var fromGroups := AddAll(fromCourses, GroupsVals(ReportGroups(r)));
      |fromCourses| <= |fromGroups| <= |CollectedNames(r)| &&
      fromGroups[..|fromCourses|] == fromCourses && CollectedNames(r)[..|fromGroups|] == fromGroups
  {
    var a, b, c := CoursesVals(ReportCourses(r)), GroupsVals(ReportGroups(r)), ChaptersVals(ReportCompleted(r));
    AddAllAppend([], a, b);
    AddAllAppend([], a + b, c);
    AddAllPrefix(AddAll([], a), b);
    AddAllPrefix(AddAll([], a + b), c);
  }

  // ---------------------------------------------------------------------------
  // detectSpecialSubjects

  /** The names `detectSpecialSubjects` collects: deadline groups, completed chapters, courses. */
  function DetectedNames(r: Option<SubjectReport>): seq<string> {
    AddAll([], DetectVals(r))
  }

  /** `nameList.some((name) => name.includes(kw))`. */
  predicate SomeNameContains(names: seq<string>, kw: string)
    decreases |names|
  {
    names != [] && (Contains(names[0], kw) || SomeNameContains(names[1..], kw))
  }

  /** A name contains `kw`, or (when it can be serialised) the report does. */
  predicate HasSubject(r: Option<SubjectReport>, serialized: Option<string>, kw: string) {
    SomeNameContains(DetectedNames(r), kw) || (serialized.Some? && Contains(serialized.value, kw))
  }

  const PE: string := "体育"
  const HomeEc: string := "家庭"

  method DetectSpecialSubjects(r: Option<SubjectReport>, serialized: Option<string>) returns (hasPE: bool, hasHomeEc: bool)
    ensures hasPE == HasSubject(r, serialized, PE)
    ensures hasHomeEc == HasSubject(r, serialized, HomeEc)
  {
    var names := CollectGroups([], ReportGroups(r));
    names := CollectChapters(names, ReportCompleted(r));
    names := CollectCourses(names, ReportCourses(r));
    AddAllAppend([], GroupsVals(ReportGroups(r)), ChaptersVals(ReportCompleted(r)));
    AddAllAppend([], GroupsVals(ReportGroups(r)) + ChaptersVals(ReportCompleted(r)), CoursesVals(ReportCourses(r)));
    hasPE := SomeNameContains(names, PE);
    hasHomeEc := SomeNameContains(names, HomeEc);
    if !(hasPE && hasHomeEc) && serialized.Some? {
      hasPE := hasPE || Contains(serialized.value, PE);
      hasHomeEc := hasHomeEc || Contains(serialized.value, HomeEc);
    }
  }

  lemma {:induction false} SomeNameContainsSpec(names: seq<string>, kw: string)
    ensures SomeNameContains(names, kw) <==> exists x :: x in names && Contains(x, kw)
    decreases |names|
  {
    if names != [] {
      SomeNameContainsSpec(names[1..], kw);
      if exists x :: x in names && Contains(x, kw) {
        var x :| x in names && Contains(x, kw);
        if x != names[0] {
          assert x in names[1..];
        }
      }
      if exists x :: x in names[1..] && Contains(x, kw) {
        var x :| x in names[1..] && Contains(x, kw);
        assert x in names;
      }
    }
  }

  /** Both collectors see the same names; only their order differs. */
  lemma {:induction false} DetectedSameNames(r: Option<SubjectReport>, x: string)
    ensures x in DetectedNames(r) <==> x in CollectedNames(r)
  {
    var a, b, c := CoursesVals(ReportCourses(r)), GroupsVals(ReportGroups(r)), ChaptersVals(ReportCompleted(r));
    AddAllMembers([], DetectVals(r), x);
    AddAllMembers([], CollectVals(r), x);
    AcceptedInAppend(b + c, a, x);
    AcceptedInAppend(b, c, x);
    AcceptedInAppend(a + b, c, x);
    AcceptedInAppend(a, b, x);
  }

  /**
   * A flag is set exactly when some collected subject name contains its
   * keyword (体育 or 家庭) or the serialised report does; the short cut when
   * both are already set changes nothing.
   */
  lemma {:induction false} HasSubjectSpec(r: Option<SubjectReport>, serialized: Option<string>, kw: string)
    ensures HasSubject(r, serialized, kw) <==>
      (exists x :: x in CollectedNames(r) && Contains(x, kw)) || (serialized.Some? && Contains(serialized.value, kw))
  {
    SomeNameContainsSpec(DetectedNames(r), kw);
    forall x
      ensures x in DetectedNames(r) <==> x in CollectedNames(r)
    {
      DetectedSameNames(r, x);
    }
  }

  // ---------------------------------------------------------------------------
  // buildCourseChapterMap

  /** JavaScript truthiness of a field. */
  predicate Truthy(v: Val) {
    if v.StrVal? then v.s != [] else v.truthy
  }

  /** `a || b`. */
  function Or(a: Val, b: Val): Val {
    if Truthy(a) then a else b
  }

  /** `c1 || c2 || ... || fallback`: the first truthy candidate, else the fallback as it is. */
  function FirstTruthy(vs: seq<Val>, fallback: Val): (v: Val)
    ensures v == fallback || exists i :: 0 <= i < |vs| && v == vs[i] && Truthy(v)
    ensures (exists i :: 0 <= i < |vs| && Truthy(vs[i])) ==> Truthy(v)
    decreases |vs|
  {
    if vs == [] then fallback
    else
      var rest := FirstTruthy(vs[1..], fallback);
      assert forall i :: 1 <= i < |vs| ==> vs[i] == vs[1..][i - 1];
      Or(vs[0], rest)
  }

  /** The object `appendChapter` receives: its ids, its name candidates in `||` order, and the fallback name. */
  datatype ChapterArg = ChapterArg(courseId: TimeProgress.Id, chapterId: TimeProgress.Id,
                                   candidates: seq<Val>, fallback: Val)

  /** `courseName`: the chosen candidate trimmed when it is a string, else blank. */
  function ArgCourseName(c: ChapterArg): string {
    var v := FirstTruthy(c.candidates, c.fallback);
    if v.StrVal? then Trim(v.s) else ""
  }

  /** A map entry: `{ courseId, name, chapters }`; the key is the course id. */
  datatype CourseEntry = CourseEntry(name: string, chapters: set<int>)

  /** The `Map`: its keys in insertion order, and its entries. */
  datatype CourseMap = CourseMap(order: seq<int>, entries: map<int, CourseEntry>)

  const EmptyMap: CourseMap := CourseMap([], map[])

  /** The keys are listed once each, in `order`. */
  ghost predicate WellFormed(m: CourseMap) {
    (forall i, j :: 0 <= i < j < |m.order| ==> m.order[i] != m.order[j]) &&
    (forall id :: id in m.entries <==> id in m.order)
  }

  /** `科目${courseId}`. */
  function DefaultName(id: int): string {
    "科目" + IntToString(id)
  }

  /** `appendChapter(chapter, fallbackName)` on the map's value. */
  function WithChapter(m: CourseMap, c: Option<ChapterArg>): CourseMap {
    if c.None? || !c.value.courseId.Num? || !c.value.chapterId.Num? then m
    else
      var id := c.value.courseId.n;
      var name := ArgCourseName(c.value);
      var m1 := if id in m.entries then m
        else CourseMap(m.order + [id], m.entries[id := CourseEntry(if name != [] then name else DefaultName(id), {})]);
      var e := m1.entries[id];
      var named := if name != [] && !IsIgnorableSubjectName(name) then name else e.name;
      CourseMap(m1.order, m1.entries[id := CourseEntry(named, e.chapters + {c.value.chapterId.n})])
  }

  method AppendChapter(m: CourseMap, c: Option<ChapterArg>) returns (m': CourseMap)
    ensures m' == WithChapter(m, c)
  {
    if c.None? || !c.value.courseId.Num? || !c.value.chapterId.Num? {
      return m;
    }
    var id := c.value.courseId.n;
    var name := ArgCourseName(c.value);
    var order, entries := m.order, m.entries;
    if id !in entries {
      entries := entries[id := CourseEntry(if name != [] then name else DefaultName(id), {})];
      order := order + [id];
    }
    var entry := entries[id];
    if name != [] && !IsIgnorableSubjectName(name) {
      entry := entry.(name := name);
    }
    entry := entry.(chapters := entry.chapters + {c.value.chapterId.n});
    m' := CourseMap(order, entries[id := entry]);
  }

  /** `appendChapter` of each argument in turn. */
  function BuildMap(m: CourseMap, args: seq<Option<ChapterArg>>): CourseMap
    decreases |args|
  {
    if args == [] then m else WithChapter(BuildMap(m, args[..|args| - 1]), args[|args| - 1])
  }

  /** A course's argument: `{ course_id: course.id, chapter_id: -1, course_name: course.name || course.title }`. */
  function CourseArg(c: Course): ChapterArg {
    var n := Or(c.name, c.title);
    ChapterArg(c.id, TimeProgress.Num(-1), [n], n)
  }

  /** The courses' arguments, or `None` when an entry is `null` (reading `course.id` throws). */
  function CourseArgs(cs: seq<Option<Course>>): Option<seq<Option<ChapterArg>>>
    decreases |cs|
  {
    if cs == [] then Some([])
    else
      match CourseArgs(cs[..|cs| - 1])
      case None => None
      case Some(xs) => if cs[|cs| - 1].None? then None else Some(xs + [Some(CourseArg(cs[|cs| - 1].value))])
  }

  /** A chapter's argument, with the chapter's six name fields as candidates. */
  function ChapterArgOf(ch: Option<NamedChapter>, fallback: Val): Option<ChapterArg> {
    if ch.Some? then Some(ChapterArg(ch.value.courseId, ch.value.chapterId, ChapterFields(ch.value), fallback)) else None
  }

  function ChapterArgs(cs: seq<Option<NamedChapter>>, fallback: Val): (r: seq<Option<ChapterArg>>)
    ensures |r| == |cs| && forall i :: 0 <= i < |cs| ==> r[i] == ChapterArgOf(cs[i], fallback)
  {
    seq(|cs|, i requires 0 <= i < |cs| => ChapterArgOf(cs[i], fallback))
  }

  /** A group's chapters (`group?.chapters ?? []`), with fallback `group?.course_name || group?.name`. */
  function GroupArgs(g: Option<NamedGroup>): seq<Option<ChapterArg>> {
    if g.Some? then ChapterArgs(g.value.chapters.GetOr([]), Or(g.value.courseName, g.value.name)) else []
  }

  function GroupsArgs(gs: seq<Option<NamedGroup>>): seq<Option<ChapterArg>>
    decreases |gs|
  {
    if gs == [] then [] else GroupsArgs(gs[..|gs| - 1]) + GroupArgs(gs[|gs| - 1])
  }

  /** Every `appendChapter` call, in order: courses, deadline-group chapters, completed chapters. */
  function ReportArgs(r: Option<SubjectReport>): Option<seq<Option<ChapterArg>>> {
    match CourseArgs(ReportCourses(r))
    case None => None
    case Some(xs) => Some(xs + GroupsArgs(ReportGroups(r)) + ChapterArgs(ReportCompleted(r), Missing))
  }

  /** The chapter ids that are not negative. */
  function NonNegative(s: set<int>): (r: set<int>)
    ensures forall c :: c in r <==> c in s && c >= 0
  {
    set c | c in s && c >= 0
  }

  /** The final pass: every entry keeps only its chapter ids `>= 0`. */
  function DropPlaceholders(m: CourseMap): CourseMap {
    CourseMap(m.order, map id | id in m.entries :: m.entries[id].(chapters := NonNegative(m.entries[id].chapters)))
  }

  /** `buildCourseChapterMap(report)`, or `None` when it throws. */
  function CourseChapterMap(r: Option<SubjectReport>): Option<CourseMap> {
    match ReportArgs(r)
    case None => None
    case Some(args) => Some(DropPlaceholders(BuildMap(EmptyMap, args)))
  }

  lemma {:induction false} BuildMapAppend(m: CourseMap, a: seq<Option<ChapterArg>>, b: seq<Option<ChapterArg>>)
    ensures BuildMap(m, a + b) == BuildMap(BuildMap(m, a), b)
    decreases |b|
  {
    if b == [] {
      assert a + b == a;
    } else {
      var n := |b| - 1;
      assert (a + b)[..|a + b| - 1] == a + b[..n];
      assert (a + b)[|a + b| - 1] == b[n];
      BuildMapAppend(m, a, b[..n]);
    }
  }

  lemma {:induction false} BuildMapSnoc(m: CourseMap, a: seq<Option<ChapterArg>>, c: Option<ChapterArg>)
    ensures BuildMap(m, a + [c]) == WithChapter(BuildMap(m, a), c)
  {
    assert (a + [c])[..|a|] == a;
  }

  /** The loop over one array of chapters. */
  method AppendChapters(m: CourseMap, cs: seq<Option<NamedChapter>>, fallback: Val) returns (m': CourseMap)
    ensures m' == BuildMap(m, ChapterArgs(cs, fallback))
  {
    m' := m;
    for i := 0 to |cs|
      invariant m' == BuildMap(m, ChapterArgs(cs[..i], fallback))
    {
      BuildMapSnoc(m, ChapterArgs(cs[..i], fallback), ChapterArgOf(cs[i], fallback));
      assert ChapterArgs(cs[..i + 1], fallback) == ChapterArgs(cs[..i], fallback) + [ChapterArgOf(cs[i], fallback)];
      m' := AppendChapter(m', ChapterArgOf(cs[i], fallback));
    }
    assert cs[..|cs|] == cs;
  }

  /** The loop over the deadline groups and, inside it, their chapters. */
  method AppendGroups(m: CourseMap, gs: seq<Option<NamedGroup>>) returns (m': CourseMap)
    ensures m' == BuildMap(m, GroupsArgs(gs))
  {
    m' := m;
    for i := 0 to |gs|
      invariant m' == BuildMap(m, GroupsArgs(gs[..i]))
    {
      var g := gs[i];
      ghost var before := m';
      if g.Some? {
        m' := AppendChapters(m', g.value.chapters.GetOr([]), Or(g.value.courseName, g.value.name));
      } else {
        assert GroupArgs(g) == [];
      }
      assert gs[..i + 1][..i] == gs[..i];
      BuildMapAppend(m, GroupsArgs(gs[..i]), GroupArgs(g));
    }
    assert gs[..|gs|] == gs;
  }

  /** The loop over the courses; `None` when an entry is `null`. */
  method AppendCourses(m: CourseMap, cs: seq<Option<Course>>) returns (r: Option<CourseMap>)
    ensures CourseArgs(cs).None? ==> r.None?
    ensures CourseArgs(cs).Some? ==> r == Some(BuildMap(m, CourseArgs(cs).value))
  {
    var acc := m;
    for i := 0 to |cs|
      invariant CourseArgs(cs[..i]).Some? && acc == BuildMap(m, CourseArgs(cs[..i]).value)
    {
      assert cs[..i + 1][..i] == cs[..i];
      if cs[i].None? {
        CourseArgsNull(cs, i + 1);
        return None;
      }
      BuildMapSnoc(m, CourseArgs(cs[..i]).value, Some(CourseArg(cs[i].value)));
      acc := AppendChapter(acc, Some(CourseArg(cs[i].value)));
    }
    assert cs[..|cs|] == cs;
    r := Some(acc);
  }

  /** Once a prefix has a `null` course, so has the whole list. */
  lemma {:induction false} CourseArgsNull(cs: seq<Option<Course>>, k: nat)
    requires k <= |cs| && CourseArgs(cs[..k]).None?
    ensures CourseArgs(cs).None?
    decreases |cs| - k
  {
    if k < |cs| {
      assert cs[..k + 1][..k] == cs[..k];
      CourseArgsNull(cs, k + 1);
    } else {
      assert cs[..k] == cs;
    }
  }

  /** `for (const entry of map.values()) entry.chapters = ...filter((id) => id >= 0)`. */
  method DropPlaceholderChapters(m: CourseMap) returns (m': CourseMap)
    requires WellFormed(m)
    ensures m' == DropPlaceholders(m)
  {
    var entries := m.entries;
    for k := 0 to |m.order|
      invariant entries.Keys == m.entries.Keys
      invariant forall id :: id in entries ==>
        entries[id] == if id in m.order[..k] then m.entries[id].(chapters := NonNegative(m.entries[id].chapters)) else m.entries[id]
    {
      var id := m.order[k];
      assert id !in m.order[..k];
      assert m.order[..k + 1] == m.order[..k] + [id];
      entries := entries[id := entries[id].(chapters := NonNegative(entries[id].chapters))];
    }
    assert m.order[..|m.order|] == m.order;
    m' := CourseMap(m.order, entries);
    forall id | id in entries
      ensures entries[id] == DropPlaceholders(m).entries[id]
    {
      assert id in m.order;
    }
    assert entries == DropPlaceholders(m).entries;
  }

  method BuildCourseChapterMap(r: Option<SubjectReport>) returns (result: Option<CourseMap>)
    ensures result == CourseChapterMap(r)
  {
    var courses := AppendCourses(EmptyMap, ReportCourses(r));
    if courses.None? {
      return None;
    }
    var xs := CourseArgs(ReportCourses(r)).value;
    var gs := GroupsArgs(ReportGroups(r));
    var done := ChapterArgs(ReportCompleted(r), Missing);
    var m := AppendGroups(courses.value, ReportGroups(r));
    m := AppendChapters(m, ReportCompleted(r), Missing);
    BuildMapAppend(EmptyMap, xs, gs);
    BuildMapAppend(EmptyMap, xs + gs, done);
    BuildMapWellFormed(EmptyMap, xs + gs + done);
    m := DropPlaceholderChapters(m);
    result := Some(m);
  }

  // ---------------------------------------------------------------------------
  // What the map holds

  /** `appendChapter` accepts `a` for course `id`: both ids are numbers and the course id is `id`. */
  predicate ArgFor(a: Option<ChapterArg>, id: int) {
    a.Some? && a.value.courseId == TimeProgress.Num(id) && a.value.chapterId.Num?
  }

  predicate HasArgFor(args: seq<Option<ChapterArg>>, id: int) {
    exists i :: 0 <= i < |args| && ArgFor(args[i], id)
  }

  lemma {:induction false} WithChapterWellFormed(m: CourseMap, c: Option<ChapterArg>)
    requires WellFormed(m)
    ensures WellFormed(WithChapter(m, c))
  {
  }

  lemma {:induction false} BuildMapWellFormed(m: CourseMap, args: seq<Option<ChapterArg>>)
    requires WellFormed(m)
    ensures WellFormed(BuildMap(m, args))
    decreases |args|
  {
    if args != [] {
      BuildMapWellFormed(m, args[..|args| - 1]);
      WithChapterWellFormed(BuildMap(m, args[..|args| - 1]), args[|args| - 1]);
    }
  }

  /** An argument for another course, or one that is skipped, leaves course `id` as it was. */
  lemma {:induction false} WithChapterOther(m: CourseMap, c: Option<ChapterArg>, id: int)
    requires !ArgFor(c, id)
    ensures id in WithChapter(m, c).entries <==> id in m.entries
    ensures id in m.entries ==> WithChapter(m, c).entries[id] == m.entries[id]
  {
  }

  /**
   * An argument for course `id` creates its entry when missing (named by the
   * candidate, or `科目<id>` when that is blank), renames it when the candidate
   * is neither blank nor ignorable, and adds the chapter id.
   */
  lemma {:induction false} WithChapterSame(m: CourseMap, c: Option<ChapterArg>, id: int)
    requires ArgFor(c, id)
    ensures var r := WithChapter(m, c); var n := ArgCourseName(c.value);
      var old_ := if id in m.entries then m.entries[id] else CourseEntry(if n != [] then n else DefaultName(id), {});
      id in r.entries &&
      r.entries[id].name == (if n != [] && !IsIgnorableSubjectName(n) then n else old_.name) &&
      r.entries[id].chapters == old_.chapters + {c.value.chapterId.n}
  {
  }

  /** The courses that have an entry are exactly the start's and those of an accepted argument. */
  lemma {:induction false} BuildMapKeys(m: CourseMap, args: seq<Option<ChapterArg>>, id: int)
    ensures id in BuildMap(m, args).entries <==> id in m.entries || HasArgFor(args, id)
    decreases |args|
  {
    if args != [] {
      var n := |args| - 1;
      BuildMapKeys(m, args[..n], id);
      if ArgFor(args[n], id) {
        WithChapterSame(BuildMap(m, args[..n]), args[n], id);
      } else {
        WithChapterOther(BuildMap(m, args[..n]), args[n], id);
      }
      PrefixArgFor(args, id);
    }
  }

  lemma {:induction false} PrefixArgFor(args: seq<Option<ChapterArg>>, id: int)
    requires args != []
    ensures HasArgFor(args, id) <==> HasArgFor(args[..|args| - 1], id) || ArgFor(args[|args| - 1], id)
  {
    var n := |args| - 1;
    if HasArgFor(args, id) {
      var i :| 0 <= i < |args| && ArgFor(args[i], id);
      if i < n {
        assert args[..n][i] == args[i];
      }
    }
    if HasArgFor(args[..n], id) {
      var i :| 0 <= i < n && ArgFor(args[..n][i], id);
      assert args[i] == args[..n][i];
    }
  }

  /** `a` adds chapter `c` to course `id`. */
  predicate AddsChapter(a: Option<ChapterArg>, id: int, c: int) {
    ArgFor(a, id) && a.value.chapterId == TimeProgress.Num(c)
  }

  predicate HasChapterArg(args: seq<Option<ChapterArg>>, id: int, c: int) {
    exists i :: 0 <= i < |args| && AddsChapter(args[i], id, c)
  }

  /** A course's chapter set is its starting set plus the chapter id of every argument for it. */
  lemma {:induction false} BuildMapChapters(m: CourseMap, args: seq<Option<ChapterArg>>, id: int, c: int)
    requires id in BuildMap(m, args).entries
    ensures c in BuildMap(m, args).entries[id].chapters <==>
      (id in m.entries && c in m.entries[id].chapters) || HasChapterArg(args, id, c)
    decreases |args|
  {
    if args != [] {
      var n := |args| - 1;
      var before := BuildMap(m, args[..n]);
      if ArgFor(args[n], id) {
        WithChapterSame(before, args[n], id);
        if id in before.entries {
          BuildMapChapters(m, args[..n], id, c);
        } else {
          BuildMapKeys(m, args[..n], id);
          NoArgNoChapter(args[..n], id, c);
        }
      } else {
        WithChapterOther(before, args[n], id);
        BuildMapChapters(m, args[..n], id, c);
      }
      PrefixAddsChapter(args, id, c);
    }
  }

  lemma {:induction false} NoArgNoChapter(args: seq<Option<ChapterArg>>, id: int, c: int)
    requires !HasArgFor(args, id)
    ensures !HasChapterArg(args, id, c)
  {
  }

  lemma {:induction false} PrefixAddsChapter(args: seq<Option<ChapterArg>>, id: int, c: int)
    requires args != []
    ensures HasChapterArg(args, id, c) <==> HasChapterArg(args[..|args| - 1], id, c) || AddsChapter(args[|args| - 1], id, c)
  {
    var n := |args| - 1;
    if HasChapterArg(args, id, c) {
      var i :| 0 <= i < |args| && AddsChapter(args[i], id, c);
      if i < n {
        assert args[..n][i] == args[i];
      }
    }
    if HasChapterArg(args[..n], id, c) {
      var i :| 0 <= i < n && AddsChapter(args[..n][i], id, c);
      assert args[i] == args[..n][i];
    }
  }

  /** The name `a` renames course `id` to: a candidate that is neither blank nor ignorable. */
  function GoodName(a: Option<ChapterArg>, id: int): Option<string> {
    if ArgFor(a, id) && ArgCourseName(a.value) != [] && !IsIgnorableSubjectName(ArgCourseName(a.value))
    then Some(ArgCourseName(a.value)) else None
  }

  /** The last such name among the arguments. */
  function LastGoodName(args: seq<Option<ChapterArg>>, id: int): Option<string>
    decreases |args|
  {
    if args == [] then None
    else if GoodName(args[|args| - 1], id).Some? then GoodName(args[|args| - 1], id)
    else LastGoodName(args[..|args| - 1], id)
  }

  /** The index of the first argument for course `id`, or `|args|`. */
  function FirstArgFor(args: seq<Option<ChapterArg>>, id: int): (k: nat)
    ensures k <= |args|
    ensures k < |args| ==> ArgFor(args[k], id)
    ensures forall j :: 0 <= j < k ==> !ArgFor(args[j], id)
    decreases |args|
  {
    if args == [] then 0
    else
      var n := |args| - 1;
      var k := FirstArgFor(args[..n], id);
      assert forall j :: 0 <= j < n ==> args[..n][j] == args[j];
      if k < n then k else if ArgFor(args[n], id) then n else |args|
  }

  /** The name the entry of course `id` is created with: the first argument's candidate, or `科目<id>`. */
  function FirstName(args: seq<Option<ChapterArg>>, id: int): string {
    var k := FirstArgFor(args, id);
    if k < |args| then
      var n := ArgCourseName(args[k].value);
      if n != [] then n else DefaultName(id)
    else DefaultName(id)
  }

  lemma {:induction false} NoArgNoGoodName(args: seq<Option<ChapterArg>>, id: int)
    requires !HasArgFor(args, id)
    ensures LastGoodName(args, id).None?
    decreases |args|
  {
    if args != [] {
      PrefixArgFor(args, id);
      NoArgNoGoodName(args[..|args| - 1], id);
    }
  }

  /**
   * A course's name is the last non-blank, non-ignorable candidate among its
   * arguments; without one it keeps the name it had, and a new entry keeps
   * its first candidate, which may be ignorable, or `科目<id>` when that is blank.
   */
  lemma {:induction false} BuildMapName(m: CourseMap, args: seq<Option<ChapterArg>>, id: int)
    requires id in BuildMap(m, args).entries
    ensures BuildMap(m, args).entries[id].name ==
      if LastGoodName(args, id).Some? then LastGoodName(args, id).value
      else if id in m.entries then m.entries[id].name
      else FirstName(args, id)
    decreases |args|
  {
    if args != [] {
      var n := |args| - 1;
      var p := args[..n];
      var before := BuildMap(m, p);
      BuildMapKeys(m, p, id);
      if ArgFor(args[n], id) {
        WithChapterSame(before, args[n], id);
        if id in before.entries {
          BuildMapName(m, p, id);
          if id !in m.entries {
            var i :| 0 <= i < |p| && ArgFor(p[i], id);
          }
        } else {
          NoArgNoGoodName(p, id);
        }
      } else {
        WithChapterOther(before, args[n], id);
        BuildMapName(m, p, id);
        if id !in m.entries {
          var i :| 0 <= i < |p| && ArgFor(p[i], id);
        }
      }
    }
  }

  /** Each course gives one argument, for chapter -1; a `null` course makes the whole map throw. */
  lemma {:induction false} CourseArgsSpec(cs: seq<Option<Course>>)
    ensures CourseArgs(cs).None? <==> exists i :: 0 <= i < |cs| && cs[i].None?
    ensures CourseArgs(cs).Some? ==>
      |CourseArgs(cs).value| == |cs| &&
      forall i :: 0 <= i < |cs| ==> CourseArgs(cs).value[i] == Some(CourseArg(cs[i].value))
    decreases |cs|
  {
    if cs != [] {
      var n := |cs| - 1;
      CourseArgsSpec(cs[..n]);
      assert forall i :: 0 <= i < n ==> cs[..n][i] == cs[i];
    }
  }

  lemma {:induction false} HasChapterArgAppend(a: seq<Option<ChapterArg>>, b: seq<Option<ChapterArg>>, id: int, c: int)
    ensures HasChapterArg(a + b, id, c) <==> HasChapterArg(a, id, c) || HasChapterArg(b, id, c)
  {
    if HasChapterArg(a + b, id, c) {
      var i :| 0 <= i < |a + b| && AddsChapter((a + b)[i], id, c);
      if i >= |a| {
        assert (a + b)[i] == b[i - |a|];
      }
    }
    if HasChapterArg(a, id, c) {
      var i :| 0 <= i < |a| && AddsChapter(a[i], id, c);
      assert (a + b)[i] == a[i];
    }
    if HasChapterArg(b, id, c) {
      var i :| 0 <= i < |b| && AddsChapter(b[i], id, c);
      assert (a + b)[|a| + i] == b[i];
    }
  }

  /** The courses' arguments add only chapter -1. */
  lemma {:induction false} CourseArgsPlaceholders(cs: seq<Option<Course>>, id: int, c: int)
    requires CourseArgs(cs).Some? && c >= 0
    ensures !HasChapterArg(CourseArgs(cs).value, id, c)
  {
    CourseArgsSpec(cs);
  }

  /** `buildCourseChapterMap` throws exactly when the courses array has a `null` entry. */
  lemma {:induction false} CourseChapterMapThrows(r: Option<SubjectReport>)
    ensures CourseChapterMap(r).None? <==> exists i :: 0 <= i < |ReportCourses(r)| && ReportCourses(r)[i].None?
  {
    CourseArgsSpec(ReportCourses(r));
  }

  /**
   * After the final pass: a course has an entry exactly when some accepted
   * argument is for it (every course with a numeric id among them); its
   * chapters are exactly the ids >= 0 of the deadline-group and completed
   * chapters given for it, so no -1 placeholder is left; its name is the last
   * non-blank, non-ignorable candidate, else its first name.
   */
  lemma {:induction false} CourseChapterMapSpec(r: Option<SubjectReport>, id: int, c: int)
    requires CourseChapterMap(r).Some?
    ensures var m := CourseChapterMap(r).value; var args := ReportArgs(r).value;
      WellFormed(m) &&
      (id in m.entries <==> HasArgFor(args, id)) &&
      (id in m.entries ==>
        (c in m.entries[id].chapters <==>
          c >= 0 && HasChapterArg(GroupsArgs(ReportGroups(r)) + ChapterArgs(ReportCompleted(r), Missing), id, c)) &&
        m.entries[id].chapters == NonNegative(BuildMap(EmptyMap, args).entries[id].chapters) &&
        m.entries[id].name == (if LastGoodName(args, id).Some? then LastGoodName(args, id).value else FirstName(args, id)))
  {
    var args := ReportArgs(r).value;
    var xs := CourseArgs(ReportCourses(r)).value;
    var rest := GroupsArgs(ReportGroups(r)) + ChapterArgs(ReportCompleted(r), Missing);
    assert args == xs + rest;
    var built := BuildMap(EmptyMap, args);
    BuildMapWellFormed(EmptyMap, args);
    BuildMapKeys(EmptyMap, args, id);
    if id in built.entries {
      BuildMapChapters(EmptyMap, args, id, c);
      BuildMapName(EmptyMap, args, id);
      HasChapterArgAppend(xs, rest, id, c);
      if c >= 0 {
        CourseArgsPlaceholders(ReportCourses(r), id, c);
      }
    }
  }

  /** Every course with a numeric id has an entry (possibly with no chapters left). */
  lemma {:induction false} CoursesHaveEntries(r: Option<SubjectReport>, i: nat)
    requires CourseChapterMap(r).Some? && i < |ReportCourses(r)|
    requires ReportCourses(r)[i].Some? && ReportCourses(r)[i].value.id.Num?
    ensures ReportCourses(r)[i].value.id.n in CourseChapterMap(r).value.entries
  {
    var id := ReportCourses(r)[i].value.id.n;
    var xs := CourseArgs(ReportCourses(r)).value;
    var args := ReportArgs(r).value;
    CourseArgsSpec(ReportCourses(r));
    assert args[i] == xs[i];
    assert ArgFor(args[i], id);
    BuildMapKeys(EmptyMap, args, id);
  }

  // ---------------------------------------------------------------------------
  // formatCourseProgressList

  /** An item of the course progress list: its name and `progress?.primary?.current` / `?.goal`. */
  datatype CourseProgress = CourseProgress(name: string, current: Option<int>, goal: Option<int>)

  /** `${item.name}:${Time}(${Percent})`, a missing time counting as 0. */
  function ItemText(item: CourseProgress): string {
    var t := Format.FormatProgressAndGoalText(item.current.GetOr(0), item.goal.GetOr(0));
    item.name + ":" + t.time + "(" + t.percent + ")"
  }

  function ItemTexts(items: seq<CourseProgress>): (r: seq<string>)
    ensures |r| == |items| && forall i :: 0 <= i < |items| ==> r[i] == ItemText(items[i])
  {
    seq(|items|, i requires 0 <= i < |items| => ItemText(items[i]))
  }

  const ItemSeparator: string := " / "

  /** `formatCourseProgressList(list)`. */
  function FormatCourseProgressList(list: Option<seq<CourseProgress>>): string {
    if list.None? || list.value == [] then "" else Join(ItemTexts(list.value), ItemSeparator)
  }

  lemma {:induction false} JoinHead(parts: seq<string>, sep: string)
    requires parts != []
    ensures |parts[0]| <= |Join(parts, sep)| && Join(parts, sep)[..|parts[0]|] == parts[0]
  {
  }

  /** Only an empty list, or no array at all, gives the empty text. */
  lemma {:induction false} FormatCourseProgressListEmpty(list: Option<seq<CourseProgress>>)
    ensures FormatCourseProgressList(list) == "" <==> list.None? || list.value == []
  {
    if list.Some? && list.value != [] {
      var item := list.value[0];
      JoinHead(ItemTexts(list.value), ItemSeparator);
      assert |ItemText(item)| > |item.name|;
    }
  }

  lemma {:induction false} JoinAppend(a: seq<string>, b: seq<string>, sep: string)
    requires a != [] && b != []
    ensures Join(a + b, sep) == Join(a, sep) + sep + Join(b, sep)
    decreases |a|
  {
    assert (a + b)[0] == a[0];
    assert (a + b)[1..] == a[1..] + b;
    if |a| > 1 {
      JoinAppend(a[1..], b, sep);
    }
  }

  /** The list's text is its items' texts, one after another, separated by ` / `. */
  lemma {:induction false} FormatCourseProgressListAppend(xs: seq<CourseProgress>, ys: seq<CourseProgress>)
    requires xs != [] && ys != []
    ensures FormatCourseProgressList(Some(xs + ys)) ==
      FormatCourseProgressList(Some(xs)) + ItemSeparator + FormatCourseProgressList(Some(ys))
  {
    ItemTextsAppend(xs, ys);
    JoinAppend(ItemTexts(xs), ItemTexts(ys), ItemSeparator);
  }

  lemma {:induction false} ItemTextsAppend(xs: seq<CourseProgress>, ys: seq<CourseProgress>)
    ensures ItemTexts(xs + ys) == ItemTexts(xs) + ItemTexts(ys)
  {
    var l, r := ItemTexts(xs + ys), ItemTexts(xs) + ItemTexts(ys);
    forall i | 0 <= i < |l| ensures l[i] == r[i] {
      if i < |xs| {
        assert (xs + ys)[i] == xs[i];
      } else {
        assert (xs + ys)[i] == ys[i - |xs|];
      }
    }
  }

  /** A one-item list is that item's text alone. */
  lemma {:induction false} FormatCourseProgressListSingle(item: CourseProgress)
    ensures FormatCourseProgressList(Some([item])) == ItemText(item)
  {
    assert ItemTexts([item]) == [ItemText(item)];
  }

  /** An item starts with its name and `:` and ends with its percent text in parentheses. */
  lemma {:induction false} ItemTextSpec(item: CourseProgress)
    ensures StartsWith(ItemText(item), item.name + ":")
    ensures EndsWith(ItemText(item), Format.PercentText(item.current.GetOr(0), item.goal.GetOr(0)) + ")")
  {
    var t := Format.FormatProgressAndGoalText(item.current.GetOr(0), item.goal.GetOr(0));
    ItemLineEnds(item.name, t.time, t.percent);
  }

  lemma {:induction false} ItemLineEnds(name: string, time: string, percent: string)
    ensures StartsWith(name + ":" + time + "(" + percent + ")", name + ":")
    ensures EndsWith(name + ":" + time + "(" + percent + ")", percent + ")")
  {
    var line := name + ":" + time + "(" + percent + ")";
    assert line == (name + ":") + (time + "(" + percent + ")");
    assert line == (name + ":" + time + "(") + (percent + ")");
  }

  /** An item with no progress reads `name:00h00m / 00h00m(000%)`. */
  lemma {:induction false} ItemTextMissing(name: string)
    ensures ItemText(CourseProgress(name, None, None)) == name + ":" + "00h00m / 00h00m" + "(" + "000%" + ")"
  {
    Format.ZeroProgressText();
  }
}
