/**
 * The report-range overlay: the seven months June..December of a year, the
 * combined summary line over the fetched months, and the fetch handler's
 * in-flight guard and error messages.
 *
 * The fetch itself is asynchronous; `HandleFetchStart` is the handler up to the
 * `await`, and `HandleFetchFinish` is what runs once the fetch settles.
 */
module ReportRange {
  import opened Wrappers
  import opened Text
  import TimeProgress
  import Format

  /** `REPORT_RANGE_MONTHS`. */
  const ReportRangeMonths: seq<int> := [6, 7, 8, 9, 10, 11, 12]

  datatype PageInfo = PageInfo(year: int, month: int)

  /** `buildReportRangePageInfos(year)`: months 6 through 12 in order, all in `year`. */
  function BuildReportRangePageInfos(year: int): (r: seq<PageInfo>)
    ensures |r| == 7
    ensures forall i :: 0 <= i < 7 ==> r[i] == PageInfo(year, 6 + i)
  {
    seq(|ReportRangeMonths|, i requires 0 <= i < |ReportRangeMonths| => PageInfo(year, ReportRangeMonths[i]))
  }

  /** One fetched month: its page info spread with its progress and its (possibly missing) summary. */
  datatype RangeItem = RangeItem(year: int, month: int, progress: TimeProgress.Progress,
                                 summary: Option<TimeProgress.CompletionSummary>)

  const NoCounts: TimeProgress.CompletionSummary := TimeProgress.CompletionSummary(0, 0)

  /** An item's counts, `?? 0` for a missing summary. */
  function ItemCounts(item: RangeItem): TimeProgress.CompletionSummary {
    item.summary.GetOr(NoCounts)
  }

  function AddCounts(a: TimeProgress.CompletionSummary, b: TimeProgress.CompletionSummary): TimeProgress.CompletionSummary {
    TimeProgress.CompletionSummary(a.completedCount + b.completedCount, a.totalCount + b.totalCount)
  }

  /** The `reduce` over the results, from zero counts. */
  function SumCounts(items: seq<RangeItem>): TimeProgress.CompletionSummary
    decreases |items|
  {
    if items == [] then NoCounts
    else AddCounts(SumCounts(items[..|items| - 1]), ItemCounts(items[|items| - 1]))
  }

  /** The summed counts split over any concatenation. */
  lemma {:induction false} SumCountsAppend(a: seq<RangeItem>, b: seq<RangeItem>)
    ensures SumCounts(a + b) == AddCounts(SumCounts(a), SumCounts(b))
    decreases |b|
  {
    if b == [] {
      assert a + b == a;
    } else {
      var n := |b| - 1;
      var ab := a + b;
      assert ab[..|ab| - 1] == a + b[..n];
      assert ab[|ab| - 1] == b[n];
      assert SumCounts(ab) == AddCounts(SumCounts(a + b[..n]), ItemCounts(b[n]));
      SumCountsAppend(a, b[..n]);
    }
  }

  /** A month without a summary adds nothing; a month with one adds exactly its counts. */
  lemma {:induction false} SumCountsItem(items: seq<RangeItem>, item: RangeItem)
    ensures item.summary.None? ==> SumCounts(items + [item]) == SumCounts(items)
    ensures item.summary.Some? ==> SumCounts(items + [item]) == AddCounts(SumCounts(items), item.summary.value)
  {
    assert (items + [item])[..|items|] == items;
  }

  /** When each month's completed count is at most its total, so is the sum's. */
  lemma {:induction false} SumCountsBounded(items: seq<RangeItem>)
    requires forall i :: 0 <= i < |items| && items[i].summary.Some? ==>
      items[i].summary.value.completedCount <= items[i].summary.value.totalCount
    ensures SumCounts(items).completedCount <= SumCounts(items).totalCount
    decreases |items|
  {
    if items != [] {
      SumCountsBounded(items[..|items| - 1]);
    }
  }

  function Progresses(items: seq<RangeItem>): (r: seq<TimeProgress.Progress>)
    ensures |r| == |items| && forall i :: 0 <= i < |items| ==> r[i] == items[i].progress
  {
    seq(|items|, i requires 0 <= i < |items| => items[i].progress)
  }

  /** `合計: <Time> (<Percent>) | <count text>`. */
  function SummaryLine(current: int, goal: int, counts: TimeProgress.CompletionSummary): string {
    var t := Format.FormatProgressAndGoalText(current, goal);
    "合計: " + t.time + " (" + t.percent + ") | " + Format.FormatReportCountText(counts.completedCount, counts.totalCount)
  }

  /** The literal written for no results. */
  const EmptySummaryText: string := "合計: " + "00h00m / 00h00m" + " (" + "000%" + ") | " + Format.FormatReportCountText(0, 0)

  /** The summary text `renderReportRangeResults` writes. */
  function SummaryText(items: seq<RangeItem>): string {
    if items == [] then EmptySummaryText
    else
      var p := TimeProgress.Flat(Progresses(items)).primary;
      SummaryLine(p.current, p.goal, SumCounts(items))
  }

  /**
   * The summary is the line for the summed primary times and the summed
   * counts; the literal for no results is that same line for zero times and
   * zero counts, `合計: 00h00m / 00h00m (000%) | 0 / 0 件`.
   */
  lemma {:induction false} SummaryTextSpec(items: seq<RangeItem>)
    ensures var p := TimeProgress.PrimarySum(Progresses(items));
      SummaryText(items) == SummaryLine(p.current, p.goal, SumCounts(items))
  {
    TimeProgress.FlatSpec(Progresses(items), "");
    if items == [] {
      EmptySummaryAgrees();
    }
  }

  lemma {:induction false} EmptySummaryAgrees()
    ensures EmptySummaryText == SummaryLine(0, 0, NoCounts)
    ensures Format.FormatReportCountText(0, 0) == "0 / 0 件"
  {
    EmptySummaryLine();
    ZeroCountText();
  }

  lemma {:induction false} EmptySummaryLine()
    ensures SummaryLine(0, 0, NoCounts) == EmptySummaryText
  {
    Format.ZeroProgressText();
  }

  lemma {:induction false} ZeroCountText()
    ensures Format.FormatReportCountText(0, 0) == "0 / 0 件"
  {
    assert IntToString(0) == "0";
  }

  // ---------------------------------------------------------------------------
  // handleFetch

  /** How the fetch settled: the results, or an error with its `code` and `status`. */
  datatype FetchOutcome = Fetched(results: seq<RangeItem>) | Failed(code: Option<string>, status: Option<int>)

  const BadYearText: string := "年の入力を確認してください"
  const FetchingText: string := "取得中..."
  const TabNotFoundText: string := "ZENページを開いた状態で再実行してください"
  const UnauthorizedText: string := "ログイン情報を確認してください"
  const FailedText: string := "取得に失敗しました"
  const NoDataText: string := "対象月のデータがありません"
  const ErrorPlaceholderText: string := "データを取得できませんでした"

  /** The summary text a failure leaves: the tab code first, then status 401, then the generic message. */
  function FailureText(code: Option<string>, status: Option<int>): (r: string)
    ensures code == Some("ZEN_TAB_NOT_FOUND") ==> r == TabNotFoundText
    ensures code != Some("ZEN_TAB_NOT_FOUND") && status == Some(401) ==> r == UnauthorizedText
    ensures code != Some("ZEN_TAB_NOT_FOUND") && status != Some(401) ==> r == FailedText
  {
    if code == Some("ZEN_TAB_NOT_FOUND") then TabNotFoundText
    else if status == Some(401) then UnauthorizedText
    else FailedText
  }

  /** The overlay's fetch state and the two texts it shows. */
  class ReportRangeOverlay {
    var isFetching: bool
    /** The summary element's text. */
    var summaryText: string
    /** The results element: a placeholder paragraph, or (when `None`) one row per result. */
    var placeholder: Option<string>
    var rows: seq<RangeItem>

    constructor()
      ensures !isFetching && summaryText == "" && placeholder == None && rows == []
    {
      isFetching := false;
      summaryText := "";
      placeholder := None;
      rows := [];
    }

    /**
     * `handleFetch` up to the `await`: nothing while a fetch is in flight; a
     * rejected year (`None`, not finite) only sets the message; otherwise the
     * flag is set, both texts say it is fetching, and the seven page infos are
     * returned for fetching.
     */
    method HandleFetchStart(year: Option<int>) returns (pageInfos: Option<seq<PageInfo>>)
      modifies this
      ensures old(isFetching) ==>
        pageInfos == None && isFetching && summaryText == old(summaryText) &&
        placeholder == old(placeholder) && rows == old(rows)
      ensures !old(isFetching) && year.None? ==>
        pageInfos == None && !isFetching && summaryText == BadYearText &&
        placeholder == old(placeholder) && rows == old(rows)
      ensures !old(isFetching) && year.Some? ==>
        pageInfos == Some(BuildReportRangePageInfos(year.value)) && isFetching &&
        summaryText == FetchingText && placeholder == Some(FetchingText) && rows == []
    {
      if isFetching {
        return None;
      }
      if year.None? {
        summaryText := BadYearText;
        return None;
      }
      isFetching := true;
      summaryText := FetchingText;
      placeholder := Some(FetchingText);
      rows := [];
      pageInfos := Some(BuildReportRangePageInfos(year.value));
    }

    /**
     * The rest of `handleFetch`: the texts and rows the settled fetch leaves
     * (see `FinishedSpec`), and the flag is always cleared.
     */
    method HandleFetchFinish(outcome: FetchOutcome)
      modifies this
      ensures !isFetching
      ensures summaryText == FinishedSummary(outcome)
      ensures placeholder == FinishedPlaceholder(outcome) && rows == FinishedRows(outcome)
    {
      match outcome {
        case Fetched(results) =>
          RenderReportRangeResults(results);
        case Failed(code, status) =>
          summaryText := FailureText(code, status);
          placeholder := Some(ErrorPlaceholderText);
          rows := [];
      }
      isFetching := false;
    }

    /** `renderReportRangeResults`: the no-data placeholder, or one row per result; then the summary. */
    method RenderReportRangeResults(results: seq<RangeItem>)
      modifies this
      ensures isFetching == old(isFetching)
      ensures results == [] ==> placeholder == Some(NoDataText) && rows == []
      ensures results != [] ==> placeholder == None && rows == results
      ensures summaryText == SummaryText(results)
    {
      if results == [] {
        placeholder := Some(NoDataText);
        rows := [];
      } else {
        placeholder := None;
        rows := results;
      }
      summaryText := SummaryText(results);
    }
  }

  /** The summary text once the fetch settles: the rendered summary, or the failure's message. */
  function FinishedSummary(outcome: FetchOutcome): string {
    match outcome
    case Fetched(results) => SummaryText(results)
    case Failed(code, status) => FailureText(code, status)
  }

  /** The results element once the fetch settles. */
  function FinishedPlaceholder(outcome: FetchOutcome): Option<string> {
    match outcome
    case Fetched(results) => if results == [] then Some(NoDataText) else None
    case Failed(_, _) => Some(ErrorPlaceholderText)
  }

  function FinishedRows(outcome: FetchOutcome): seq<RangeItem> {
    match outcome
    case Fetched(results) => results
    case Failed(_, _) => []
  }

  /**
   * Results are shown one row each under the summed summary, no results give
   * the no-data placeholder and the zero summary, and a failure shows no rows,
   * the error placeholder and the message for its code or status.
   */
  lemma {:induction false} FinishedSpec(outcome: FetchOutcome)
    ensures outcome.Fetched? && outcome.results == [] ==>
      FinishedPlaceholder(outcome) == Some(NoDataText) && FinishedRows(outcome) == [] &&
      FinishedSummary(outcome) == EmptySummaryText
    ensures outcome.Fetched? && outcome.results != [] ==>
      FinishedPlaceholder(outcome) == None && FinishedRows(outcome) == outcome.results &&
      var p := TimeProgress.PrimarySum(Progresses(outcome.results));
      FinishedSummary(outcome) == SummaryLine(p.current, p.goal, SumCounts(outcome.results))
    ensures outcome.Failed? ==>
      FinishedPlaceholder(outcome) == Some(ErrorPlaceholderText) && FinishedRows(outcome) == [] &&
      FinishedSummary(outcome) == FailureText(outcome.code, outcome.status) &&
      FinishedSummary(outcome) in {TabNotFoundText, UnauthorizedText, FailedText}
  {
    if outcome.Fetched? {
      SummaryTextSpec(outcome.results);
      if outcome.results == [] {
        EmptySummaryAgrees();
      }
    }
  }

  /**
   * A click, a second click while the first fetch is in flight, and the
   * fetch settling: only the first click fetches, the second is ignored, and
   * the handler ends ready for the next click with the settled texts.
   */
  method ReentrantClick(o: ReportRangeOverlay, year: Option<int>, again: Option<int>, outcome: FetchOutcome)
    returns (first: Option<seq<PageInfo>>, second: Option<seq<PageInfo>>)
    requires !o.isFetching && year.Some?
    modifies o
    ensures first == Some(BuildReportRangePageInfos(year.value)) && second == None
    ensures !o.isFetching && o.summaryText == FinishedSummary(outcome)
  {
    first := o.HandleFetchStart(year);
    second := o.HandleFetchStart(again);
    o.HandleFetchFinish(outcome);
  }
}
