/**
 * Which monthly report the popup shows: the `/study_plans/month/<y>/<m>` path
 * of an open report tab, the preference for the active tab, the current month
 * when no tab matches, and the module-level tab-query pattern.
 *
 * `new URL(url).pathname` is the `pathOf` parameter (`None` when the URL does
 * not parse); the tab list is `None` when the tab query fails.
 */
module MonthlyReport {
  import opened Wrappers
  import opened Text
  import Calendar
  import Config

  const MonthPathPrefix: string := "/study_plans/month/"

  datatype YearMonth = YearMonth(year: int, month: int)

  // ---------------------------------------------------------------------------
  // The path match `^\/study_plans\/month\/(\d+)\/(\d+)\/?$`

  /** The length of the leading run of digits. */
  function DigitRun(s: string): (n: nat)
    ensures n <= |s| && AllDigits(s[..n]) && (n < |s| ==> !IsDigit(s[n]))
    decreases |s|
  {
    if s == [] || !IsDigit(s[0]) then 0
    else
      var k := DigitRun(s[1..]);
      assert s[..k + 1] == [s[0]] + s[1..][..k];
      k + 1
  }

  lemma {:induction false} DigitRunOf(d: string, t: string)
    requires AllDigits(d) && (t == [] || !IsDigit(t[0]))
    ensures DigitRun(d + t) == |d|
    decreases |d|
  {
    if d == [] {
      assert d + t == t;
    } else {
      assert (d + t)[1..] == d[1..] + t;
      DigitRunOf(d[1..], t);
    }
  }

  /** The month group and the optional closing `/`: digits, then nothing or one `/`. */
  function MatchMonthTail(tail: string): Option<string> {
    var j := DigitRun(tail);
    if j == 0 then None
    else if j == |tail| || (j == |tail| - 1 && tail[j] == '/') then Some(tail[..j])
    else None
  }

  /** The year group, `/`, and the month tail. */
  function MatchGroups(rest: string): Option<(string, string)> {
    var i := DigitRun(rest);
    if i == 0 || i == |rest| || rest[i] != '/' then None
    else
      match MatchMonthTail(rest[i + 1..])
      case None => None
      case Some(m) => Some((rest[..i], m))
  }

  /** The two digit groups of a monthly-report path, or `None` when the path does not match. */
  function MatchMonthPath(path: string): Option<(string, string)> {
    if !StartsWith(path, MonthPathPrefix) then None
    else MatchGroups(path[|MonthPathPrefix|..])
  }

  /** The paths the pattern accepts: the prefix, digits, `/`, digits, and at most one `/`. */
  predicate MonthPathOf(path: string, y: string, m: string) {
    y != [] && m != [] && AllDigits(y) && AllDigits(m) &&
    (path == MonthPathPrefix + y + "/" + m || path == MonthPathPrefix + y + "/" + m + "/")
  }

  lemma {:induction false} MatchMonthTailSound(tail: string)
    ensures MatchMonthTail(tail).Some? ==>
      var m := MatchMonthTail(tail).value;
      m != [] && AllDigits(m) && (tail == m || tail == m + "/")
  {
    if MatchMonthTail(tail).Some? {
      var j := DigitRun(tail);
      if j == |tail| {
        assert tail[..j] == tail;
      } else {
        assert tail == tail[..j] + "/";
      }
    }
  }

  lemma {:induction false} MatchGroupsSound(rest: string)
    ensures MatchGroups(rest).Some? ==>
      var (y, m) := MatchGroups(rest).value;
      y != [] && m != [] && AllDigits(y) && AllDigits(m) && (rest == y + "/" + m || rest == y + "/" + m + "/")
  {
    if MatchGroups(rest).Some? {
      var i := DigitRun(rest);
      var tail := rest[i + 1..];
      MatchMonthTailSound(tail);
      assert rest == rest[..i] + "/" + tail;
    }
  }

  /** Whatever the match returns is the two digit groups of an accepted path. */
  lemma {:induction false} MatchMonthPathSound(path: string)
    ensures MatchMonthPath(path).Some? ==> MonthPathOf(path, MatchMonthPath(path).value.0, MatchMonthPath(path).value.1)
  {
    if MatchMonthPath(path).Some? {
      var rest := path[|MonthPathPrefix|..];
      MatchGroupsSound(rest);
      assert path == MonthPathPrefix + rest;
    }
  }

  lemma {:induction false} MatchMonthTailComplete(m: string, end: string)
    requires m != [] && AllDigits(m) && (end == "" || end == "/")
    ensures MatchMonthTail(m + end) == Some(m)
  {
    DigitRunOf(m, end);
    assert (m + end)[..|m|] == m;
  }

  lemma {:induction false} MatchGroupsComplete(y: string, m: string, end: string)
    requires y != [] && m != [] && AllDigits(y) && AllDigits(m) && (end == "" || end == "/")
    ensures MatchGroups(y + "/" + m + end) == Some((y, m))
  {
    var rest := y + "/" + m + end;
    assert rest == y + ("/" + m + end);
    DigitRunOf(y, "/" + m + end);
    assert rest[|y| + 1..] == m + end;
    MatchMonthTailComplete(m, end);
    assert rest[..|y|] == y;
  }

  /** Every accepted path matches, with its own digit groups. */
  lemma {:induction false} MatchMonthPathComplete(y: string, m: string, slash: bool)
    requires y != [] && m != [] && AllDigits(y) && AllDigits(m)
    ensures MatchMonthPath(MonthPathPrefix + y + "/" + m + (if slash then "/" else "")) == Some((y, m))
  {
    var end := if slash then "/" else "";
    var rest := y + "/" + m + end;
    var path := MonthPathPrefix + y + "/" + m + end;
    assert path == MonthPathPrefix + rest;
    assert path[|MonthPathPrefix|..] == rest;
    MatchGroupsComplete(y, m, end);
  }

  /** `parseMonthlyReportUrl(url)`: the decimal year and month of a matching path, with no range check. */
  function ParseMonthlyReportUrl(pathOf: string -> Option<string>, url: string): (r: Option<YearMonth>)
    ensures pathOf(url).None? ==> r.None?
  {
    match pathOf(url)
    case None => None
    case Some(path) =>
      match MatchMonthPath(path)
      case None => None
      case Some(groups) =>
        MatchMonthPathSound(path);
        Some(YearMonth(DigitsValue(groups.0), DigitsValue(groups.1)))
  }

  /**
   * A URL parses exactly when its path is accepted, and then gives the
   * numbers written in the path; any numbers are accepted, month 13 included.
   */
  lemma {:induction false} ParseMonthlyReportUrlSpec(pathOf: string -> Option<string>, url: string)
    ensures ParseMonthlyReportUrl(pathOf, url).Some? <==>
      pathOf(url).Some? && exists y, m :: MonthPathOf(pathOf(url).value, y, m)
    ensures ParseMonthlyReportUrl(pathOf, url).Some? ==>
      exists y, m :: MonthPathOf(pathOf(url).value, y, m) &&
        ParseMonthlyReportUrl(pathOf, url).value == YearMonth(DigitsValue(y), DigitsValue(m))
  {
    if pathOf(url).Some? {
      var path := pathOf(url).value;
      MatchMonthPathSound(path);
      if exists y, m :: MonthPathOf(path, y, m) {
        var y, m :| MonthPathOf(path, y, m);
        var slash := path != MonthPathPrefix + y + "/" + m;
        MatchMonthPathComplete(y, m, slash);
        assert path == MonthPathPrefix + y + "/" + m + (if slash then "/" else "");
      }
    }
  }

  /** Writing a year and month into the path and parsing it gives them back, whatever their range. */
  lemma {:induction false} MonthPathRoundTrip(year: nat, month: nat, slash: bool)
    ensures MatchMonthPath(MonthPathPrefix + NatToString(year) + "/" + NatToString(month) + (if slash then "/" else ""))
      == Some((NatToString(year), NatToString(month)))
    ensures DigitsValue(NatToString(year)) == year && DigitsValue(NatToString(month)) == month
  {
    MatchMonthPathComplete(NatToString(year), NatToString(month), slash);
    NatToStringRoundTrip(year);
    NatToStringRoundTrip(month);
  }

  // ---------------------------------------------------------------------------
  // getCurrentMonthlyReportInfo

  datatype Tab = Tab(url: Option<string>, active: bool)

  /** `parseTab(tab)`: a tab without a (non-empty) URL gives nothing. */
  function ParseTab(pathOf: string -> Option<string>, tab: Tab): Option<YearMonth> {
    if tab.url.Some? && tab.url.value != [] then ParseMonthlyReportUrl(pathOf, tab.url.value) else None
  }

  /** The index of the first tab that parses (and is active, when `activeOnly`), or `|tabs|`. */
  function FirstTab(pathOf: string -> Option<string>, tabs: seq<Tab>, activeOnly: bool): (k: nat)
    ensures k <= |tabs|
    ensures k < |tabs| ==> ParseTab(pathOf, tabs[k]).Some? && (activeOnly ==> tabs[k].active)
    ensures forall j :: 0 <= j < k ==> !(ParseTab(pathOf, tabs[j]).Some? && (activeOnly ==> tabs[j].active))
    decreases |tabs|
  {
    if tabs == [] then 0
    else if ParseTab(pathOf, tabs[0]).Some? && (activeOnly ==> tabs[0].active) then 0
    else
      var k := FirstTab(pathOf, tabs[1..], activeOnly);
      assert forall j :: 1 <= j < k + 1 ==> tabs[j] == tabs[1..][j - 1];
      k + 1
  }

  /** `getCurrentMonthlyReportInfo()`: the first active report tab, else the first report tab, else this month. */
  function CurrentMonthlyReportInfo(pathOf: string -> Option<string>, tabs: Option<seq<Tab>>, now: int): YearMonth {
    var ts := tabs.GetOr([]);
    var a := FirstTab(pathOf, ts, true);
    var f := FirstTab(pathOf, ts, false);
    if a < |ts| then ParseTab(pathOf, ts[a]).value
    else if f < |ts| then ParseTab(pathOf, ts[f]).value
    else YearMonth(Calendar.YearOf(now), Calendar.MonthOf(now) + 1)
  }

  /**
   * An active tab that parses wins, the first such; otherwise the first tab that
   * parses; only when none parses, or the query fails, the current year and
   * 1-based month.
   */
  lemma {:induction false} CurrentMonthlyReportInfoSpec(pathOf: string -> Option<string>, tabs: Option<seq<Tab>>, now: int)
    ensures var r := CurrentMonthlyReportInfo(pathOf, tabs, now); var ts := tabs.GetOr([]);
      ((exists i :: 0 <= i < |ts| && ts[i].active && ParseTab(pathOf, ts[i]).Some?) ==>
        exists i :: 0 <= i < |ts| && ts[i].active && Some(r) == ParseTab(pathOf, ts[i]) &&
          forall j :: 0 <= j < i ==> !(ts[j].active && ParseTab(pathOf, ts[j]).Some?)) &&
      ((forall i :: 0 <= i < |ts| ==> !ts[i].active || ParseTab(pathOf, ts[i]).None?) &&
       (exists i :: 0 <= i < |ts| && ParseTab(pathOf, ts[i]).Some?) ==>
        exists i :: 0 <= i < |ts| && Some(r) == ParseTab(pathOf, ts[i]) &&
          forall j :: 0 <= j < i ==> ParseTab(pathOf, ts[j]).None?) &&
      ((forall i :: 0 <= i < |ts| ==> ParseTab(pathOf, ts[i]).None?) ==>
        r == YearMonth(Calendar.YearOf(now), Calendar.MonthOf(now) + 1))
  {
    var ts := tabs.GetOr([]);
    var a := FirstTab(pathOf, ts, true);
    var f := FirstTab(pathOf, ts, false);
    if a < |ts| {
      assert ts[a].active && ParseTab(pathOf, ts[a]).Some?;
    } else if f < |ts| {
      assert ParseTab(pathOf, ts[f]).Some?;
    }
  }

  // ---------------------------------------------------------------------------
  // The module's tab-query pattern

  /** `monthlyReportUrlPattern` and its setter. */
  class ReportUrlPattern {
    var pattern: string

    /** The pattern starts as the default site's. */
    constructor()
      ensures pattern == Config.BuildMonthlyReportUrlPattern(Config.Str(Config.DefaultSiteOrigin))
    {
      pattern := Config.BuildMonthlyReportUrlPattern(Config.Str(Config.DefaultSiteOrigin));
    }

    /** `setMonthlyReportUrlPattern(siteOrigin)`. */
    method SetMonthlyReportUrlPattern(origin: Config.ConfigValue)
      modifies this
      ensures pattern == Config.BuildMonthlyReportUrlPattern(origin)
    {
      pattern := Config.BuildMonthlyReportUrlPattern(origin);
    }
  }
}
