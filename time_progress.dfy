/**
 * Study-time aggregation of the popup: goal and current totals (in seconds)
 * of a chapter, course or monthly report, with one primary total and a list
 * of labelled groups.
 *
 * The chapter, course and report API calls are not modelled; their JSON
 * responses are the datatypes below, with `Option` for fields that may be
 * missing. JavaScript numbers are integers here.
 */
module TimeProgress {
  import opened Wrappers
  import opened Text

  /** `{ goal, current }`. */
  datatype Group = Group(goal: int, current: int)

  /** `{ label, goal, current }`; the label is `name` here (`label` is a Dafny keyword). */
  datatype LabeledGroup = LabeledGroup(name: string, goal: int, current: int)

  /** `{ primary, groups }`. */
  datatype Progress = Progress(primary: Group, groups: seq<LabeledGroup>)

  /** `defaultTimeProgressGroup()`. */
  const Zero: Group := Group(0, 0)

  function Plus(a: Group, b: Group): Group {
    Group(a.goal + b.goal, a.current + b.current)
  }

  function Labels(gs: seq<LabeledGroup>): (r: seq<string>)
    ensures |r| == |gs|
    ensures forall i :: 0 <= i < |gs| ==> r[i] == gs[i].name
  {
    seq(|gs|, i requires 0 <= i < |gs| => gs[i].name)
  }

  // ---------------------------------------------------------------------------
  // mergeTimeProgress

  /** `groups.find((group) => group.name === name)`: the first index with the name, or |gs|. */
  function FindLabel(gs: seq<LabeledGroup>, name: string): (k: nat)
    ensures k <= |gs|
    ensures k < |gs| ==> gs[k].name == name
    ensures forall j :: 0 <= j < k ==> gs[j].name != name
  {
    if gs == [] then 0
    else if gs[0].name == name then 0
    else 1 + FindLabel(gs[1..], name)
  }

  /** An index before which no group has the name, and which is the end or has the name, is the found one. */
  lemma {:induction false} FindLabelUnique(gs: seq<LabeledGroup>, name: string, k: nat)
    requires k <= |gs| && (k < |gs| ==> gs[k].name == name)
    requires forall j :: 0 <= j < k ==> gs[j].name != name
    ensures FindLabel(gs, name) == k
    decreases |gs|
  {
    if gs != [] && gs[0].name != name {
      assert forall j :: 0 <= j < k - 1 ==> gs[1..][j] == gs[j + 1];
      FindLabelUnique(gs[1..], name, k - 1);
    }
  }

  lemma {:induction false} FindLabelFound(gs: seq<LabeledGroup>, name: string)
    ensures FindLabel(gs, name) < |gs| <==> name in Labels(gs)
  {
    var k := FindLabel(gs, name);
    if name in Labels(gs) {
      var i :| 0 <= i < |gs| && Labels(gs)[i] == name;
      assert gs[i].name == name;
    }
    if k < |gs| {
      assert Labels(gs)[k] == name;
    }
  }

  /** One turn of the loop over the right groups: add into the first group with the name, or push a new one. */
  function AddGroup(gs: seq<LabeledGroup>, g: LabeledGroup): seq<LabeledGroup> {
    var k := FindLabel(gs, g.name);
    if k < |gs| then gs[k := gs[k].(goal := gs[k].goal + g.goal, current := gs[k].current + g.current)]
    else gs + [g]
  }

  /** The groups after the loop has run over `rs`. */
  function MergeGroups(gs: seq<LabeledGroup>, rs: seq<LabeledGroup>): seq<LabeledGroup>
    decreases |rs|
  {
    if rs == [] then gs
    else AddGroup(MergeGroups(gs, rs[..|rs| - 1]), rs[|rs| - 1])
  }

  /** `mergeTimeProgress` as a value. */
  function Merge(left: Progress, right: Progress): Progress {
    Progress(Plus(left.primary, right.primary), MergeGroups(left.groups, right.groups))
  }

  /**
   * `mergeTimeProgress(left, right)`. The groups of `left` are copied first
   * (`{ ...group }`); as values, the input is never changed.
   */
  method MergeTimeProgress(left: Progress, right: Progress) returns (r: Progress)
    ensures r == Merge(left, right)
  {
    var primary := Group(left.primary.goal + right.primary.goal, left.primary.current + right.primary.current);
    var groups := left.groups;
    var i := 0;
    while i < |right.groups|
      invariant 0 <= i <= |right.groups|
      invariant groups == MergeGroups(left.groups, right.groups[..i])
    {
      var g := right.groups[i];
      var k := 0;
      while k < |groups| && groups[k].name != g.name
        invariant 0 <= k <= |groups|
        invariant forall j :: 0 <= j < k ==> groups[j].name != g.name
      {
        k := k + 1;
      }
      FindLabelUnique(groups, g.name, k);
      if k < |groups| {
        groups := groups[k := groups[k].(goal := groups[k].goal + g.goal, current := groups[k].current + g.current)];
      } else {
        groups := groups + [LabeledGroup(g.name, g.goal, g.current)];
      }
      assert right.groups[..i + 1][..i] == right.groups[..i];
      i := i + 1;
    }
    assert right.groups[..i] == right.groups;
    r := Progress(primary, groups);
  }

  /** `ls` followed by the labels of `xs` not seen before, each once, in first-occurrence order. */
  function AppendNew(ls: seq<string>, xs: seq<string>): seq<string>
    decreases |xs|
  {
    if xs == [] then ls
    else
      var before := AppendNew(ls, xs[..|xs| - 1]);
      if xs[|xs| - 1] in before then before else before + [xs[|xs| - 1]]
  }

  predicate Distinct(xs: seq<string>) {
    forall i, j :: 0 <= i < j < |xs| ==> xs[i] != xs[j]
  }

  /** `AppendNew` keeps `ls` as its prefix, holds exactly the labels of both, and adds no duplicate. */
  lemma {:induction false} AppendNewSpec(ls: seq<string>, xs: seq<string>)
    ensures |ls| <= |AppendNew(ls, xs)| && AppendNew(ls, xs)[..|ls|] == ls
    ensures forall x :: x in AppendNew(ls, xs) <==> x in ls || x in xs
    ensures Distinct(ls) ==> Distinct(AppendNew(ls, xs))
    decreases |xs|
  {
    if xs != [] {
      var n := |xs| - 1;
      var before := AppendNew(ls, xs[..n]);
      AppendNewSpec(ls, xs[..n]);
      assert xs == xs[..n] + [xs[n]];
      if xs[n] !in before {
        assert (before + [xs[n]])[..|ls|] == before[..|ls|];
      }
    }
  }

  lemma {:induction false} AddGroupLabels(gs: seq<LabeledGroup>, g: LabeledGroup)
    ensures Labels(AddGroup(gs, g)) == if g.name in Labels(gs) then Labels(gs) else Labels(gs) + [g.name]
  {
    FindLabelFound(gs, g.name);
  }

  /** The merged labels: the left labels in order, then the unseen right labels in order. */
  lemma {:induction false} MergeGroupsLabels(gs: seq<LabeledGroup>, rs: seq<LabeledGroup>)
    ensures Labels(MergeGroups(gs, rs)) == AppendNew(Labels(gs), Labels(rs))
    decreases |rs|
  {
    if rs != [] {
      var n := |rs| - 1;
      var m := MergeGroups(gs, rs[..n]);
      MergeGroupsLabels(gs, rs[..n]);
      AddGroupLabels(m, rs[n]);
      LabelsSnoc(rs);
      assert MergeGroups(gs, rs) == AddGroup(m, rs[n]);
      AppendNewSnoc(Labels(gs), Labels(rs));
    }
  }

  lemma {:induction false} LabelsSnoc(rs: seq<LabeledGroup>)
    requires rs != []
    ensures Labels(rs)[..|rs| - 1] == Labels(rs[..|rs| - 1]) && Labels(rs)[|rs| - 1] == rs[|rs| - 1].name
  {
    assert Labels(rs)[..|rs| - 1] == Labels(rs[..|rs| - 1]);
  }

  /** One more label is added unless it is already there. */
  lemma {:induction false} AppendNewSnoc(ls: seq<string>, xs: seq<string>)
    requires xs != []
    ensures var before := AppendNew(ls, xs[..|xs| - 1]);
      AppendNew(ls, xs) == if xs[|xs| - 1] in before then before else before + [xs[|xs| - 1]]
  {
  }

  /** The part a labelled group contributes to the total of `name`. */
  function Part(g: LabeledGroup, name: string): Group {
    if g.name == name then Group(g.goal, g.current) else Zero
  }

  /** The summed goal and current of all groups with the name. */
  function LabelTotal(gs: seq<LabeledGroup>, name: string): Group
    decreases |gs|
  {
    if gs == [] then Zero
    else Plus(LabelTotal(gs[..|gs| - 1], name), Part(gs[|gs| - 1], name))
  }

  lemma {:induction false} LabelTotalUpdate(gs: seq<LabeledGroup>, k: nat, h: LabeledGroup, name: string)
    requires k < |gs|
    ensures Plus(LabelTotal(gs[k := h], name), Part(gs[k], name)) == Plus(LabelTotal(gs, name), Part(h, name))
    decreases |gs|
  {
    var n := |gs| - 1;
    if k < n {
      assert gs[k := h][..n] == gs[..n][k := h];
      LabelTotalUpdate(gs[..n], k, h, name);
    } else {
      assert gs[k := h][..n] == gs[..n];
    }
  }

  lemma {:induction false} LabelTotalSnoc(gs: seq<LabeledGroup>, g: LabeledGroup, name: string)
    ensures LabelTotal(gs + [g], name) == Plus(LabelTotal(gs, name), Part(g, name))
  {
    assert (gs + [g])[..|gs|] == gs;
  }

  lemma {:induction false} AddGroupTotal(gs: seq<LabeledGroup>, g: LabeledGroup, name: string)
    ensures LabelTotal(AddGroup(gs, g), name) == Plus(LabelTotal(gs, name), Part(g, name))
  {
    var k := FindLabel(gs, g.name);
    if k < |gs| {
      var h := gs[k].(goal := gs[k].goal + g.goal, current := gs[k].current + g.current);
      assert AddGroup(gs, g) == gs[k := h];
      LabelTotalUpdate(gs, k, h, name);
      PartOfSum(gs[k], g, h, name);
      var a, t := LabelTotal(gs[k := h], name), LabelTotal(gs, name);
      assert Plus(a, Part(gs[k], name)) == Plus(t, Plus(Part(gs[k], name), Part(g, name)));
      PlusCancel(a, t, Part(gs[k], name), Part(g, name));
    } else {
      LabelTotalSnoc(gs, g, name);
    }
  }

  lemma {:induction false} PlusCancel(a: Group, t: Group, p: Group, q: Group)
    requires Plus(a, p) == Plus(t, Plus(p, q))
    ensures a == Plus(t, q)
  {
    assert a.goal + p.goal == t.goal + (p.goal + q.goal);
    assert a.current + p.current == t.current + (p.current + q.current);
  }

  /** A group with `g` added into it contributes its old part plus `g`'s. */
  lemma {:induction false} PartOfSum(old_: LabeledGroup, g: LabeledGroup, h: LabeledGroup, name: string)
    requires old_.name == g.name && h == old_.(goal := old_.goal + g.goal, current := old_.current + g.current)
    ensures Part(h, name) == Plus(Part(old_, name), Part(g, name))
  {
  }

  /** Equal labels are summed: each name's total after the merge is its total on the left plus on the right. */
  lemma {:induction false} MergeGroupsTotal(gs: seq<LabeledGroup>, rs: seq<LabeledGroup>, name: string)
    ensures LabelTotal(MergeGroups(gs, rs), name) == Plus(LabelTotal(gs, name), LabelTotal(rs, name))
    decreases |rs|
  {
    if rs != [] {
      var n := |rs| - 1;
      MergeGroupsTotal(gs, rs[..n], name);
      AddGroupTotal(MergeGroups(gs, rs[..n]), rs[n], name);
    }
  }

  /** What `mergeTimeProgress` computes: summed primaries, the merged name order, the summed name totals. */
  lemma {:induction false} MergeSpec(left: Progress, right: Progress, name: string)
    ensures var m := Merge(left, right);
      m.primary.goal == left.primary.goal + right.primary.goal &&
      m.primary.current == left.primary.current + right.primary.current &&
      Labels(m.groups) == AppendNew(Labels(left.groups), Labels(right.groups)) &&
      LabelTotal(m.groups, name) == Plus(LabelTotal(left.groups, name), LabelTotal(right.groups, name))
  {
    MergeGroupsLabels(left.groups, right.groups);
    MergeGroupsTotal(left.groups, right.groups, name);
  }

  // ---------------------------------------------------------------------------
  // flatTimeProgress

  /** `flatTimeProgress`: `reduce` of `mergeTimeProgress` from a zero primary and no groups. */
  function Flat(list: seq<Progress>): Progress
    decreases |list|
  {
    if list == [] then Progress(Zero, [])
    else Merge(Flat(list[..|list| - 1]), list[|list| - 1])
  }

  function PrimarySum(list: seq<Progress>): Group
    decreases |list|
  {
    if list == [] then Zero
    else Plus(PrimarySum(list[..|list| - 1]), list[|list| - 1].primary)
  }

  function ListLabelTotal(list: seq<Progress>, name: string): Group
    decreases |list|
  {
    if list == [] then Zero
    else Plus(ListLabelTotal(list[..|list| - 1], name), LabelTotal(list[|list| - 1].groups, name))
  }

  /** The flattened primary is the sum of the primaries, and each name's total is its sum over the list. */
  lemma {:induction false} FlatSpec(list: seq<Progress>, name: string)
    ensures Flat(list).primary == PrimarySum(list)
    ensures LabelTotal(Flat(list).groups, name) == ListLabelTotal(list, name)
    ensures list == [] ==> Flat(list) == Progress(Zero, [])
    decreases |list|
  {
    if list != [] {
      var n := |list| - 1;
      FlatSpec(list[..n], name);
      MergeGroupsTotal(Flat(list[..n]).groups, list[n].groups, name);
    }
  }

  /** The flattened labels are distinct when every input's labels are: labels are never duplicated by a merge. */
  lemma {:induction false} FlatDistinct(list: seq<Progress>)
    ensures Distinct(Labels(Flat(list).groups))
    decreases |list|
  {
    if list != [] {
      var n := |list| - 1;
      FlatDistinct(list[..n]);
      MergeGroupsLabels(Flat(list[..n]).groups, list[n].groups);
      AppendNewSpec(Labels(Flat(list[..n]).groups), Labels(list[n].groups));
    }
  }

  // ---------------------------------------------------------------------------
  // calcTimeProgressGroup and its wrappers

  /** `resources.filter(p)`. */
  function Filter<R>(xs: seq<R>, p: R -> bool): (r: seq<R>)
    ensures |r| <= |xs|
    decreases |xs|
  {
    if xs == [] then []
    else Filter(xs[..|xs| - 1], p) + if p(xs[|xs| - 1]) then [xs[|xs| - 1]] else []
  }

  function SumTimes<R>(xs: seq<R>, time: R -> int): int
    decreases |xs|
  {
    if xs == [] then 0 else SumTimes(xs[..|xs| - 1], time) + time(xs[|xs| - 1])
  }

  /** The `reduce` of `calcTimeProgressGroup` over an array. */
  function CalcGroup<R>(xs: seq<R>, time: R -> int, done: R -> bool): Group
    decreases |xs|
  {
    if xs == [] then Zero
    else
      var acc := CalcGroup(xs[..|xs| - 1], time, done);
      var t := time(xs[|xs| - 1]);
      Group(acc.goal + t, acc.current + if done(xs[|xs| - 1]) then t else 0)
  }

  /** `calcTimeProgressGroup(resources, getTime, isDone)`; `None` is any value that is not an array. */
  function CalcTimeProgressGroup<R>(resources: Option<seq<R>>, time: R -> int, done: R -> bool): Group {
    CalcGroup(resources.GetOr([]), time, done)
  }

  /** The goal is the sum of all times and the current total the sum of the times of done resources. */
  lemma {:induction false} CalcGroupSpec<R>(xs: seq<R>, time: R -> int, done: R -> bool)
    ensures CalcGroup(xs, time, done).goal == SumTimes(xs, time)
    ensures CalcGroup(xs, time, done).current == SumTimes(Filter(xs, done), time)
    decreases |xs|
  {
    if xs != [] {
      var n := |xs| - 1;
      CalcGroupSpec(xs[..n], time, done);
      if done(xs[n]) {
        SumTimesSnoc(Filter(xs[..n], done), xs[n], time);
      } else {
        assert Filter(xs, done) == Filter(xs[..n], done);
      }
    }
  }

  lemma {:induction false} SumTimesSnoc<R>(xs: seq<R>, x: R, time: R -> int)
    ensures SumTimes(xs + [x], time) == SumTimes(xs, time) + time(x)
  {
    assert (xs + [x])[..|xs|] == xs;
  }

  /** For non-negative times, a group's current total lies between 0 and its goal; a non-array gives zero. */
  lemma {:induction false} CalcGroupBounds<R>(resources: Option<seq<R>>, time: R -> int, done: R -> bool)
    requires forall r :: r in resources.GetOr([]) ==> time(r) >= 0
    ensures var g := CalcTimeProgressGroup(resources, time, done); 0 <= g.current <= g.goal
    ensures resources.None? ==> CalcTimeProgressGroup(resources, time, done) == Zero
  {
    CalcGroupBoundsSeq(resources.GetOr([]), time, done);
  }

  lemma {:induction false} CalcGroupBoundsSeq<R>(xs: seq<R>, time: R -> int, done: R -> bool)
    requires forall r :: r in xs ==> time(r) >= 0
    ensures 0 <= CalcGroup(xs, time, done).current <= CalcGroup(xs, time, done).goal
    decreases |xs|
  {
    if xs != [] {
      var n := |xs| - 1;
      assert xs[n] in xs;
      assert forall r :: r in xs[..n] ==> r in xs;
      CalcGroupBoundsSeq(xs[..n], time, done);
    }
  }

  /** Splitting resources by a test and its negation splits the group: the two parts sum to the whole. */
  lemma {:induction false} CalcGroupPartition<R>(xs: seq<R>, p: R -> bool, q: R -> bool, time: R -> int, done: R -> bool)
    requires forall i :: 0 <= i < |xs| ==> (p(xs[i]) <==> !q(xs[i]))
    ensures CalcGroup(Filter(xs, p), time, done).goal + CalcGroup(Filter(xs, q), time, done).goal ==
      CalcGroup(xs, time, done).goal
    ensures CalcGroup(Filter(xs, p), time, done).current + CalcGroup(Filter(xs, q), time, done).current ==
      CalcGroup(xs, time, done).current
    decreases |xs|
  {
    if xs != [] {
      var n := |xs| - 1;
      assert forall i :: 0 <= i < n ==> xs[..n][i] == xs[i];
      CalcGroupPartition(xs[..n], p, q, time, done);
      if p(xs[n]) {
        assert Filter(xs, q) == Filter(xs[..n], q);
        CalcGroupSnoc(Filter(xs[..n], p), xs[n], time, done);
      } else {
        assert Filter(xs, p) == Filter(xs[..n], p);
        CalcGroupSnoc(Filter(xs[..n], q), xs[n], time, done);
      }
    }
  }

  lemma {:induction false} CalcGroupSnoc<R>(xs: seq<R>, x: R, time: R -> int, done: R -> bool)
    ensures CalcGroup(xs + [x], time, done) ==
      Group(CalcGroup(xs, time, done).goal + time(x), CalcGroup(xs, time, done).current + if done(x) then time(x) else 0)
  {
    assert (xs + [x])[..|xs|] == xs;
  }

  // ---------------------------------------------------------------------------
  // The chapter API response

  datatype Comprehension = Comprehension(good: Option<int>, limit: Option<int>)
  datatype SectionProgress = SectionProgress(comprehension: Option<Comprehension>)
  datatype Archive = Archive(second: int, startOffset: int)

  /** A section of a chapter: the fields the n_school and advanced interpretations read. */
  datatype Section = Section(resourceType: Option<string>, materialType: Option<string>, length: Option<int>,
                             passed: bool, progress: Option<SectionProgress>, archive: Option<Archive>,
                             minute: Option<int>, statusLabel: Option<string>)

  datatype ClassHeader = ClassHeader(name: Option<string>, sections: Option<seq<Section>>)
  datatype Chapter = Chapter(sections: Option<seq<Section>>, classHeaders: Option<seq<ClassHeader>>)
  datatype ChapterResponse = ChapterResponse(courseType: Option<string>, chapter: Option<Chapter>)

  /** `Number(resource.length ?? 0)`. */
  function MovieTime(s: Section): int {
    s.length.GetOr(0)
  }

  /** `calcMovieResourcesTimeProgressGroup(movies, isWatched)`. */
  function CalcMovieGroup(movies: seq<Section>, watched: Section -> bool): Group {
    CalcTimeProgressGroup(Some(movies), MovieTime, watched)
  }

  /** `calcNSchoolSectionsTimeProgressGroup`: a movie is watched when `passed` is truthy. */
  function CalcNSchoolGroup(sections: seq<Section>): Group {
    CalcMovieGroup(sections, (s: Section) => s.passed)
  }

  datatype NSchoolData = NSchoolData(allMovie: Option<Group>, mainMovie: Option<Group>, supplementMovie: Option<Group>)
  datatype AdvancedData = AdvancedData(movie: Option<Group>, lesson: Option<Group>)

  function WithLabel(name: string, g: Option<Group>): LabeledGroup {
    var v := g.GetOr(Zero);
    LabeledGroup(name, v.goal, v.current)
  }

  const NSchoolLabels: seq<string> := ["全動画", "必須", "Nプラス"]
  const AdvancedLabels: seq<string> := ["動画", "授業"]

  /** `createNSchoolTimeProgress(data)`. */
  function CreateNSchool(d: NSchoolData): Progress {
    Progress(d.mainMovie.GetOr(Zero),
      [WithLabel(NSchoolLabels[0], d.allMovie), WithLabel(NSchoolLabels[1], d.mainMovie),
       WithLabel(NSchoolLabels[2], d.supplementMovie)])
  }

  /** `createAdvancedTimeProgress(data)`. */
  function CreateAdvanced(d: AdvancedData): Progress {
    Progress(d.movie.GetOr(Zero), [WithLabel(AdvancedLabels[0], d.movie), WithLabel(AdvancedLabels[1], d.lesson)])
  }

  /** `createNSchoolTimeProgress()`: zero everywhere. */
  const EmptyNSchool: Progress := CreateNSchool(NSchoolData(None, None, None))

  predicate IsMovie(s: Section) { s.resourceType == Some("movie") }
  predicate IsLesson(s: Section) { s.resourceType == Some("lesson") }
  predicate IsMain(s: Section) { s.materialType == Some("main") }
  predicate IsSupplement(s: Section) { s.materialType == Some("supplement") }

  /** An advanced movie is done when it has a comprehension whose `good` equals its `limit`. */
  predicate AdvancedMovieDone(s: Section) {
    s.progress.Some? && s.progress.value.comprehension.Some? &&
    s.progress.value.comprehension.value.good == s.progress.value.comprehension.value.limit
  }

  /** An archived lesson lasts `max(0, second - start_offset)`, another `minute * 60`. */
  function LessonTime(s: Section): int {
    if s.archive.Some? then
      var d := s.archive.value.second - s.archive.value.startOffset;
      if d > 0 then d else 0
    else s.minute.GetOr(0) * 60
  }

  predicate LessonDone(s: Section) {
    s.statusLabel == Some("watched")
  }

  /** The movie sections of `section` headers, in order. */
  function MovieSections(hs: seq<ClassHeader>): seq<Section>
    decreases |hs|
  {
    if hs == [] then []
    else
      var h := hs[|hs| - 1];
      MovieSections(hs[..|hs| - 1]) + if h.name == Some("section") then Filter(h.sections.GetOr([]), IsMovie) else []
  }

  /** The lesson sections of `lesson` headers, in order. */
  function LessonSections(hs: seq<ClassHeader>): seq<Section>
    decreases |hs|
  {
    if hs == [] then []
    else
      var h := hs[|hs| - 1];
      LessonSections(hs[..|hs| - 1]) +
        if h.name != Some("section") && h.name == Some("lesson") then Filter(h.sections.GetOr([]), IsLesson) else []
  }

  /** The advanced branch's loop over the class headers, pushing movie and lesson sections. */
  method CollectClassSections(hs: seq<ClassHeader>) returns (movies: seq<Section>, lessons: seq<Section>)
    ensures movies == MovieSections(hs) && lessons == LessonSections(hs)
  {
    movies, lessons := [], [];
    var i := 0;
    while i < |hs|
      invariant 0 <= i <= |hs|
      invariant movies == MovieSections(hs[..i]) && lessons == LessonSections(hs[..i])
    {
      var h := hs[i];
      var secs := h.sections.GetOr([]);
      if h.name == Some("section") {
        movies := PushMatching(movies, secs, IsMovie);
      } else if h.name == Some("lesson") {
        lessons := PushMatching(lessons, secs, IsLesson);
      }
      assert hs[..i + 1][..i] == hs[..i] && hs[..i + 1][i] == h;
      i := i + 1;
    }
    assert hs[..i] == hs;
  }

  /** `for (const section of sections) if (p(section)) out.push(section)`. */
  method PushMatching(out: seq<Section>, secs: seq<Section>, p: Section -> bool) returns (out': seq<Section>)
    ensures out' == out + Filter(secs, p)
  {
    out' := out;
    var j := 0;
    while j < |secs|
      invariant 0 <= j <= |secs|
      invariant out' == out + Filter(secs[..j], p)
    {
      if p(secs[j]) {
        out' := out' + [secs[j]];
      }
      assert secs[..j + 1][..j] == secs[..j];
      j := j + 1;
    }
    assert secs[..j] == secs;
  }

  /** The sections of an n_school chapter: `chapter.sections` when it is an array, else none. */
  function NSchoolSections(resp: ChapterResponse): seq<Section> {
    if resp.chapter.Some? then resp.chapter.value.sections.GetOr([]) else []
  }

  function ClassHeaders(resp: ChapterResponse): seq<ClassHeader> {
    if resp.chapter.Some? then resp.chapter.value.classHeaders.GetOr([]) else []
  }

  /** The n_school groups: all movies, the main ones and the supplementary ones. */
  function NSchoolProgress(sections: seq<Section>): Progress {
    var all := Filter(sections, IsMovie);
    CreateNSchool(NSchoolData(Some(CalcNSchoolGroup(all)), Some(CalcNSchoolGroup(Filter(all, IsMain))),
                              Some(CalcNSchoolGroup(Filter(all, IsSupplement)))))
  }

  /** The advanced groups: the movies of `section` headers and the lessons of `lesson` headers. */
  function AdvancedProgress(hs: seq<ClassHeader>): Progress {
    CreateAdvanced(AdvancedData(Some(CalcMovieGroup(MovieSections(hs), AdvancedMovieDone)),
                                Some(CalcTimeProgressGroup(Some(LessonSections(hs)), LessonTime, LessonDone))))
  }

  /** What `fetchChapterTimeProgress` makes of the chapter response. */
  function InterpretChapter(resp: ChapterResponse): Progress {
    if resp.courseType == Some("n_school") then NSchoolProgress(NSchoolSections(resp))
    else if resp.courseType == Some("advanced") then AdvancedProgress(ClassHeaders(resp))
    else EmptyNSchool
  }

  /**
   * The n_school labels are fixed and the primary is the main-movie group;
   * when every movie is either main or supplementary, the all-movie group is their sum.
   */
  lemma {:induction false} NSchoolSpec(resp: ChapterResponse)
    requires resp.courseType == Some("n_school")
    ensures var p := InterpretChapter(resp);
      Labels(p.groups) == NSchoolLabels &&
      p.primary == Group(p.groups[1].goal, p.groups[1].current) &&
      ((forall s :: s in Filter(NSchoolSections(resp), IsMovie) ==> IsMain(s) || IsSupplement(s)) ==>
         p.groups[0].goal == p.groups[1].goal + p.groups[2].goal &&
         p.groups[0].current == p.groups[1].current + p.groups[2].current)
  {
    var all := Filter(NSchoolSections(resp), IsMovie);
    var p := InterpretChapter(resp);
    assert Labels(p.groups) == NSchoolLabels;
    if forall s :: s in all ==> IsMain(s) || IsSupplement(s) {
      forall i | 0 <= i < |all|
        ensures IsMain(all[i]) <==> !IsSupplement(all[i])
      {
        assert all[i] in all;
      }
      CalcGroupPartition(all, IsMain, IsSupplement, MovieTime, (s: Section) => s.passed);
    }
  }

  /** The advanced labels are fixed, the primary is the movie group, and for lessons current never exceeds goal. */
  lemma {:induction false} AdvancedSpec(resp: ChapterResponse)
    requires resp.courseType == Some("advanced")
    requires forall s :: s in LessonSections(ClassHeaders(resp)) ==> s.minute.GetOr(0) >= 0
    ensures var p := InterpretChapter(resp);
      Labels(p.groups) == AdvancedLabels &&
      p.primary == Group(p.groups[0].goal, p.groups[0].current) &&
      0 <= p.groups[1].current <= p.groups[1].goal
  {
    var lessons := LessonSections(ClassHeaders(resp));
    var p := InterpretChapter(resp);
    assert Labels(p.groups) == AdvancedLabels;
    CalcGroupBounds(Some(lessons), LessonTime, LessonDone);
  }

  /** Any other course type gives the zero n_school progress. */
  lemma {:induction false} OtherCourseSpec(resp: ChapterResponse)
    requires resp.courseType != Some("n_school") && resp.courseType != Some("advanced")
    ensures var p := InterpretChapter(resp);
      Labels(p.groups) == NSchoolLabels && p.primary == Zero &&
      forall k :: 0 <= k < |p.groups| ==> p.groups[k].goal == 0 && p.groups[k].current == 0
  {
    assert Labels(EmptyNSchool.groups) == NSchoolLabels;
  }

  // ---------------------------------------------------------------------------
  // Monthly report chapters

  /** A JSON id: a number, a string, `null` or missing. */
  datatype Id = Num(n: int) | Str(s: string) | Null | Undefined

  /** The text of an id in a template literal. */
  function IdText(id: Id): string {
    match id
    case Num(n) => IntToString(n)
    case Str(t) => t
    case Null => "null"
    case Undefined => "undefined"
  }

  datatype ReportChapter = ReportChapter(courseId: Id, chapterId: Id)
  datatype DeadlineGroup = DeadlineGroup(chapters: Option<seq<Option<ReportChapter>>>)

  /** A monthly report; `None` entries are `null` chapters or groups. */
  datatype MonthlyReport = MonthlyReport(deadlineGroups: Option<seq<Option<DeadlineGroup>>>,
                                         completedChapters: Option<seq<Option<ReportChapter>>>)

  /** `{ courseId, chapterId }`. */
  datatype ChapterPageInfo = ChapterPageInfo(courseId: Id, chapterId: Id)

  /** `${course_id}:${chapter_id}`. */
  function ChapterKey(courseId: Id, chapterId: Id): string {
    IdText(courseId) + ":" + IdText(chapterId)
  }

  function Keys(infos: seq<ChapterPageInfo>): (r: seq<string>)
    ensures |r| == |infos|
    ensures forall i :: 0 <= i < |infos| ==> r[i] == ChapterKey(infos[i].courseId, infos[i].chapterId)
  {
    seq(|infos|, i requires 0 <= i < |infos| => ChapterKey(infos[i].courseId, infos[i].chapterId))
  }

  /** The chapters of the deadline groups, in order (`group?.chapters ?? []`). */
  function DeadlineChapters(groups: seq<Option<DeadlineGroup>>): seq<Option<ReportChapter>>
    decreases |groups|
  {
    if groups == [] then []
    else
      var g := groups[|groups| - 1];
      DeadlineChapters(groups[..|groups| - 1]) + if g.Some? then g.value.chapters.GetOr([]) else []
  }

  /** Every chapter `buildMonthlyReportChapterList` visits: the deadline groups' chapters, then the completed ones. */
  function ReportChapters(report: Option<MonthlyReport>): seq<Option<ReportChapter>> {
    if report.None? then []
    else DeadlineChapters(report.value.deadlineGroups.GetOr([])) + report.value.completedChapters.GetOr([])
  }

  /** The `Map` after `append` of each chapter: null chapters skipped, the first chapter of each key kept. */
  function Dedup(xs: seq<Option<ReportChapter>>): seq<ChapterPageInfo>
    decreases |xs|
  {
    if xs == [] then []
    else
      var before := Dedup(xs[..|xs| - 1]);
      var x := xs[|xs| - 1];
      if x.None? || ChapterKey(x.value.courseId, x.value.chapterId) in Keys(before) then before
      else before + [ChapterPageInfo(x.value.courseId, x.value.chapterId)]
  }

  /** `buildMonthlyReportChapterList` as a value. */
  function ChapterList(report: Option<MonthlyReport>): seq<ChapterPageInfo> {
    Dedup(ReportChapters(report))
  }

  /** The key set of `chapterMap`. */
  function KeySet(infos: seq<ChapterPageInfo>): (r: set<string>)
    ensures forall k :: k in r <==> k in Keys(infos)
  {
    set i | 0 <= i < |infos| :: ChapterKey(infos[i].courseId, infos[i].chapterId)
  }

  /** The inner `append`: `chapterMap` is its key set and its values in insertion order. */
  method AppendChapter(keys: set<string>, values: seq<ChapterPageInfo>, chapter: Option<ReportChapter>)
    returns (keys': set<string>, values': seq<ChapterPageInfo>)
    requires keys == KeySet(values)
    ensures keys' == KeySet(values')
    ensures values' == if chapter.None? || ChapterKey(chapter.value.courseId, chapter.value.chapterId) in Keys(values)
      then values else values + [ChapterPageInfo(chapter.value.courseId, chapter.value.chapterId)]
  {
    keys', values' := keys, values;
    if chapter.None? {
      return;
    }
    var key := ChapterKey(chapter.value.courseId, chapter.value.chapterId);
    if key !in keys {
      keys' := keys + {key};
      values' := values + [ChapterPageInfo(chapter.value.courseId, chapter.value.chapterId)];
      assert Keys(values') == Keys(values) + [key];
    }
  }

  lemma {:induction false} DedupSnoc(ys: seq<Option<ReportChapter>>, x: Option<ReportChapter>)
    ensures Dedup(ys + [x]) == if x.None? || ChapterKey(x.value.courseId, x.value.chapterId) in Keys(Dedup(ys))
      then Dedup(ys) else Dedup(ys) + [ChapterPageInfo(x.value.courseId, x.value.chapterId)]
  {
    assert (ys + [x])[..|ys|] == ys;
  }

  lemma {:induction false} DedupStep(done: seq<Option<ReportChapter>>, xs: seq<Option<ReportChapter>>, i: nat)
    requires i < |xs|
    ensures Dedup(done + xs[..i + 1]) == Dedup((done + xs[..i]) + [xs[i]])
  {
    assert xs[..i + 1] == xs[..i] + [xs[i]];
    assert done + xs[..i + 1] == (done + xs[..i]) + [xs[i]];
  }

  /** `append` of every chapter in `xs`, in order. */
  method AppendAll(keys: set<string>, values: seq<ChapterPageInfo>, xs: seq<Option<ReportChapter>>, ghost done: seq<Option<ReportChapter>>)
    returns (keys': set<string>, values': seq<ChapterPageInfo>)
    requires values == Dedup(done) && keys == KeySet(values)
    ensures values' == Dedup(done + xs) && keys' == KeySet(values')
  {
    keys', values' := keys, values;
    var i := 0;
    assert done + xs[..0] == done;
    while i < |xs|
      invariant 0 <= i <= |xs|
      invariant values' == Dedup(done + xs[..i]) && keys' == KeySet(values')
    {
      keys', values' := AppendChapter(keys', values', xs[i]);
      DedupStep(done, xs, i);
      DedupSnoc(done + xs[..i], xs[i]);
      i := i + 1;
    }
    assert xs[..i] == xs;
  }

  /** `buildMonthlyReportChapterList(monthlyReport)`. */
  method BuildMonthlyReportChapterList(report: Option<MonthlyReport>) returns (list: seq<ChapterPageInfo>)
    ensures list == ChapterList(report)
  {
    var keys: set<string> := {};
    list := [];
    if report.None? {
      return;
    }
    var groups := report.value.deadlineGroups.GetOr([]);
    var i := 0;
    while i < |groups|
      invariant 0 <= i <= |groups|
      invariant list == Dedup(DeadlineChapters(groups[..i])) && keys == KeySet(list)
    {
      var chapters := if groups[i].Some? then groups[i].value.chapters.GetOr([]) else [];
      keys, list := AppendAll(keys, list, chapters, DeadlineChapters(groups[..i]));
      assert groups[..i + 1][..i] == groups[..i];
      i := i + 1;
    }
    assert groups[..i] == groups;
    keys, list := AppendAll(keys, list, report.value.completedChapters.GetOr([]), DeadlineChapters(groups));
  }

  /** The chapter list has distinct keys; each listed chapter is one of the report's, and each report chapter's key is listed. */
  lemma {:induction false} DedupSpec(xs: seq<Option<ReportChapter>>)
    ensures Distinct(Keys(Dedup(xs)))
    ensures forall k :: 0 <= k < |Dedup(xs)| ==>
      Some(ReportChapter(Dedup(xs)[k].courseId, Dedup(xs)[k].chapterId)) in xs
    ensures forall x :: x in xs && x.Some? ==> ChapterKey(x.value.courseId, x.value.chapterId) in Keys(Dedup(xs))
    decreases |xs|
  {
    if xs != [] {
      var n := |xs| - 1;
      var before := Dedup(xs[..n]);
      DedupSpec(xs[..n]);
      assert xs == xs[..n] + [xs[n]];
      var x := xs[n];
      if x.Some? && ChapterKey(x.value.courseId, x.value.chapterId) !in Keys(before) {
        assert Keys(Dedup(xs)) == Keys(before) + [ChapterKey(x.value.courseId, x.value.chapterId)];
      }
    }
  }

  /** Earlier chapters keep their places: the list of a prefix is a prefix of the list. */
  lemma {:induction false} DedupPrefix(a: seq<Option<ReportChapter>>, b: seq<Option<ReportChapter>>)
    ensures |Dedup(a)| <= |Dedup(a + b)| && Dedup(a + b)[..|Dedup(a)|] == Dedup(a)
    decreases |b|
  {
    if b == [] {
      assert a + b == a;
    } else {
      var n := |b| - 1;
      DedupPrefix(a, b[..n]);
      assert (a + b)[..|a + b| - 1] == a + b[..n];
      var before := Dedup(a + b[..n]);
      if b[n].Some? {
        var info := ChapterPageInfo(b[n].value.courseId, b[n].value.chapterId);
        assert (before + [info])[..|Dedup(a)|] == before[..|Dedup(a)|];
      }
    }
  }

  /** Deadline-group chapters come before completed chapters that are not among them. */
  lemma {:induction false} DeadlineFirst(report: MonthlyReport)
    ensures var deadline := Dedup(DeadlineChapters(report.deadlineGroups.GetOr([])));
      var list := ChapterList(Some(report));
      |deadline| <= |list| && list[..|deadline|] == deadline
  {
    DedupPrefix(DeadlineChapters(report.deadlineGroups.GetOr([])), report.completedChapters.GetOr([]));
  }

  // ---------------------------------------------------------------------------
  // countCompletedReportChapters

  predicate NumericIds(x: Option<ReportChapter>) {
    x.Some? && x.value.courseId.Num? && x.value.chapterId.Num?
  }

  /** The keys of the numeric chapters among `xs`: the `seen` set after the loop. */
  function SeenKeys(xs: seq<Option<ReportChapter>>): set<string>
    decreases |xs|
  {
    if xs == [] then {}
    else
      var x := xs[|xs| - 1];
      SeenKeys(xs[..|xs| - 1]) + if NumericIds(x) then {ChapterKey(x.value.courseId, x.value.chapterId)} else {}
  }

  /** The counter after the loop: numeric chapters once per key, every other entry always. */
  function CompletedCount(xs: seq<Option<ReportChapter>>): nat
    decreases |xs|
  {
    if xs == [] then 0
    else
      var x := xs[|xs| - 1];
      var before := xs[..|xs| - 1];
      CompletedCount(before) +
        if NumericIds(x) && ChapterKey(x.value.courseId, x.value.chapterId) in SeenKeys(before) then 0 else 1
  }

  function NonNumericCount(xs: seq<Option<ReportChapter>>): nat
    decreases |xs|
  {
    if xs == [] then 0 else NonNumericCount(xs[..|xs| - 1]) + if NumericIds(xs[|xs| - 1]) then 0 else 1
  }

  /** `countCompletedReportChapters(monthlyReport)`. */
  method CountCompletedReportChapters(report: Option<MonthlyReport>) returns (count: nat)
    ensures count == CompletedCount(CompletedOf(report))
  {
    var completed := CompletedOf(report);
    var seen: set<string> := {};
    count := 0;
    var i := 0;
    while i < |completed|
      invariant 0 <= i <= |completed|
      invariant seen == SeenKeys(completed[..i]) && count == CompletedCount(completed[..i])
    {
      seen, count := CountStep(seen, count, completed[i]);
      assert completed[..i + 1][..i] == completed[..i];
      i := i + 1;
    }
    assert completed[..i] == completed;
  }

  /** One pass of the counting loop: a repeated numeric key is skipped (`continue`), anything else counted. */
  method CountStep(seen: set<string>, count: nat, chapter: Option<ReportChapter>) returns (seen': set<string>, count': nat)
    ensures NumericIds(chapter) ==> seen' == seen + {ChapterKey(chapter.value.courseId, chapter.value.chapterId)}
    ensures !NumericIds(chapter) ==> seen' == seen
    ensures count' == count + if NumericIds(chapter) && ChapterKey(chapter.value.courseId, chapter.value.chapterId) in seen then 0 else 1
  {
    seen', count' := seen, count;
    if NumericIds(chapter) {
      var key := ChapterKey(chapter.value.courseId, chapter.value.chapterId);
      if key in seen {
        return;
      }
      seen' := seen + {key};
    }
    count' := count + 1;
  }

  /** `Array.isArray(monthlyReport?.completed_chapters) ? ... : []`. */
  function CompletedOf(report: Option<MonthlyReport>): seq<Option<ReportChapter>> {
    if report.Some? then report.value.completedChapters.GetOr([]) else []
  }

  /** Each numeric key counts once, every other entry counts; so the count never exceeds the list. */
  lemma {:induction false} CompletedCountSpec(xs: seq<Option<ReportChapter>>)
    ensures CompletedCount(xs) == |SeenKeys(xs)| + NonNumericCount(xs)
    ensures CompletedCount(xs) <= |xs|
    decreases |xs|
  {
    if xs != [] {
      var n := |xs| - 1;
      CompletedCountSpec(xs[..n]);
      var x := xs[n];
      if NumericIds(x) {
        var key := ChapterKey(x.value.courseId, x.value.chapterId);
        if key in SeenKeys(xs[..n]) {
          assert SeenKeys(xs) == SeenKeys(xs[..n]);
        } else {
          assert |SeenKeys(xs)| == |SeenKeys(xs[..n])| + 1;
        }
      }
    }
  }

  /** `{ completedCount, totalCount }`. */
  datatype CompletionSummary = CompletionSummary(completedCount: nat, totalCount: nat)

  /** `buildMonthlyReportCompletionSummary(monthlyReport)`. */
  function BuildCompletionSummary(report: Option<MonthlyReport>): CompletionSummary {
    CompletionSummary(CompletedCount(CompletedOf(report)), |ChapterList(report)|)
  }

  /** The completed count is at most the completed list's length, and the total at most the chapters visited. */
  lemma {:induction false} CompletionSummaryBounds(report: Option<MonthlyReport>)
    ensures BuildCompletionSummary(report).completedCount <= |CompletedOf(report)|
    ensures BuildCompletionSummary(report).totalCount <= |ReportChapters(report)|
  {
    CompletedCountSpec(CompletedOf(report));
    DedupLength(ReportChapters(report));
  }

  lemma {:induction false} DedupLength(xs: seq<Option<ReportChapter>>)
    ensures |Dedup(xs)| <= |xs|
    decreases |xs|
  {
    if xs != [] {
      DedupLength(xs[..|xs| - 1]);
    }
  }
}
