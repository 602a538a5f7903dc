/**
 * The popup's display helpers: seconds split into hours, minutes and seconds,
 * `HHhMMm` text, the capped percent, compact `M/D` dates, the schedule dates
 * "15th of the month minus N days", and the `c / t 件` count text.
 *
 * Dates are time values on the integer local calendar of module Calendar;
 * a `Date` whose time value is NaN is `None`.
 */
module Format {
  import opened Wrappers
  import opened Text
  import Calendar

  // ---------------------------------------------------------------------------
  // Durations

  datatype TimeParts = TimeParts(hours: nat, minutes: nat, fullMinutes: nat, seconds: nat)

  /** `Math.max(0, Math.round(seconds))` for a whole number of seconds. */
  function SafeSeconds(seconds: int): nat {
    if seconds > 0 then seconds else 0
  }

  /** `formatTimeFromSeconds(seconds)`: the safe seconds split into h/m/s, plus the whole minutes. */
  function FormatTimeFromSeconds(seconds: int): (r: TimeParts)
    ensures r.hours * 3600 + r.minutes * 60 + r.seconds == SafeSeconds(seconds)
    ensures r.minutes < 60 && r.seconds < 60
    ensures r.fullMinutes == r.hours * 60 + r.minutes
  {
    var safe := SafeSeconds(seconds);
    MinutesSplit(safe);
    TimeParts(safe / 3600, safe % 3600 / 60, safe / 60, safe % 60)
  }

  lemma {:induction false} MinutesSplit(n: nat)
    ensures n / 60 == n / 3600 * 60 + n % 3600 / 60
    ensures n == n / 3600 * 3600 + n % 3600 / 60 * 60 + n % 60
  {
    var h, r := n / 3600, n % 3600;
    assert n == h * 3600 + r;
    assert r == r / 60 * 60 + r % 60;
    assert n == (h * 60 + r / 60) * 60 + r % 60;
    assert n % 60 == r % 60;
  }

  function Padded2(n: nat): string {
    PadStart(NatToString(n), 2, '0')
  }

  /** `formatFullTimeText(seconds)`: `HHhMMm`. */
  function FullTimeText(seconds: int): string {
    var p := FormatTimeFromSeconds(seconds);
    ClockText(p.hours, p.minutes)
  }

  function ClockText(h: nat, m: nat): string {
    Padded2(h) + "h" + Padded2(m) + "m"
  }

  /**
   * The text reads back as the hours (at least two digits, no upper bound)
   * before `h` and exactly two minute digits before the final `m`.
   */
  lemma {:induction false} FullTimeTextSpec(seconds: int)
    ensures var t := FullTimeText(seconds); var p := FormatTimeFromSeconds(seconds);
      |t| >= 6 && t[|t| - 4] == 'h' && t[|t| - 1] == 'm' &&
      AllDigits(t[..|t| - 4]) && DigitsValue(t[..|t| - 4]) == p.hours &&
      AllDigits(t[|t| - 3..|t| - 1]) && DigitsValue(t[|t| - 3..|t| - 1]) == p.minutes
  {
    var p := FormatTimeFromSeconds(seconds);
    assert FullTimeText(seconds) == ClockText(p.hours, p.minutes);
    HoursMinutesText(p.hours, p.minutes);
  }

  lemma {:induction false} HoursMinutesText(h: nat, m: nat)
    requires m < 60
    ensures var t := ClockText(h, m);
      |t| >= 6 && t[|t| - 4] == 'h' && t[|t| - 1] == 'm' &&
      AllDigits(t[..|t| - 4]) && DigitsValue(t[..|t| - 4]) == h &&
      AllDigits(t[|t| - 3..|t| - 1]) && DigitsValue(t[|t| - 3..|t| - 1]) == m
  {
    Padded2Facts(h);
    Padded2Facts(m);
    ClockDigits(ClockText(h, m), Padded2(h), Padded2(m), h, m);
  }

  /** Two-digit padding reads back as the number, with at least two digits and exactly two below 100. */
  lemma {:induction false} Padded2Facts(n: nat)
    ensures AllDigits(Padded2(n)) && DigitsValue(Padded2(n)) == n && |Padded2(n)| >= 2
    ensures n < 100 ==> |Padded2(n)| == 2
  {
    PaddedRoundTrip(n, 2);
    if n < 100 {
      PaddedWidth2(n);
    }
  }

  lemma {:induction false} ClockDigits(t: string, hh: string, mm: string, h: nat, m: nat)
    requires t == hh + "h" + mm + "m" && |hh| >= 2 && |mm| == 2
    requires AllDigits(hh) && DigitsValue(hh) == h && AllDigits(mm) && DigitsValue(mm) == m
    ensures |t| >= 6 && t[|t| - 4] == 'h' && t[|t| - 1] == 'm' &&
      AllDigits(t[..|t| - 4]) && DigitsValue(t[..|t| - 4]) == h &&
      AllDigits(t[|t| - 3..|t| - 1]) && DigitsValue(t[|t| - 3..|t| - 1]) == m
  {
    ClockSlices(hh, mm);
  }

  lemma {:induction false} ClockSlices(hh: string, mm: string)
    requires |hh| >= 2 && |mm| == 2
    ensures var t := hh + "h" + mm + "m";
      |t| >= 6 && t[|t| - 4] == 'h' && t[|t| - 1] == 'm' && t[..|t| - 4] == hh && t[|t| - 3..|t| - 1] == mm
  {
    var t := hh + "h" + mm + "m";
    assert t[..|t| - 4] == hh;
    assert t[|t| - 3..|t| - 1] == mm;
  }

  // ---------------------------------------------------------------------------
  // Progress against a goal

  /** `Math.floor(goal > 0 ? Math.min(100, cur / goal * 100) : 0)`, on exact rationals. */
  function PercentValue(current: int, goal: int): (p: int)
    ensures goal <= 0 ==> p == 0
    ensures goal > 0 ==> p <= 100
    ensures goal > 0 && current >= 0 ==> p >= 0
    ensures goal > 0 && current >= goal ==> p == 100
    ensures goal > 0 && p < 100 ==> p * goal <= current * 100 < (p + 1) * goal
  {
    if goal <= 0 then 0
    else
      var q := current * 100 / goal;
      QuotientFacts(current, goal);
      if q >= 100 then 100 else q
  }

  lemma {:induction false} QuotientFacts(current: int, goal: int)
    requires goal > 0
    ensures var q := current * 100 / goal;
      q * goal <= current * 100 < (q + 1) * goal &&
      (current >= 0 ==> q >= 0) && (current >= goal ==> q >= 100)
  {
    var q := current * 100 / goal;
    assert current * 100 == q * goal + current * 100 % goal;
    if current >= goal {
      assert goal * 100 < goal * (q + 1);
      ProductOrder(goal, 100, q + 1);
    }
  }

  lemma {:induction false} ProductOrder(a: int, x: int, y: int)
    requires a > 0 && a * x < a * y
    ensures x < y
  {
    assert a * (y - x) > 0;
  }

  /** `{ Time, Percent }`. */
  datatype ProgressText = ProgressText(time: string, percent: string)

  /** `formatProgressAndGoalText(currentSeconds, goalSeconds)`. */
  function FormatProgressAndGoalText(current: int, goal: int): ProgressText {
    ProgressText(FullTimeText(current) + " / " + FullTimeText(goal), PercentText(current, goal))
  }

  /** The `Percent` text: the capped percent padded to three digits, then `%`. */
  function PercentText(current: int, goal: int): string {
    PadStart(IntToString(PercentValue(current, goal)), 3, '0') + "%"
  }

  /** With no time and no goal: `00h00m / 00h00m` and `000%`. */
  lemma {:induction false} ZeroProgressText()
    ensures FormatProgressAndGoalText(0, 0) == ProgressText("00h00m / 00h00m", "000%")
  {
    var z, pct := FullTimeText(0), PercentText(0, 0);
    ZeroFullTimeText();
    PercentTextCases(0, 0);
    assert FormatProgressAndGoalText(0, 0) == ProgressText(z + " / " + z, pct);
    ZeroProgressParts(z, pct);
  }

  lemma {:induction false} ZeroProgressParts(z: string, pct: string)
    requires z == "00h00m" && pct == "000%"
    ensures ProgressText(z + " / " + z, pct) == ProgressText("00h00m / 00h00m", "000%")
  {
  }

  lemma {:induction false} ZeroFullTimeText()
    ensures FullTimeText(0) == "00h00m"
  {
    assert FormatTimeFromSeconds(0) == TimeParts(0, 0, 0, 0);
    ZeroClockText();
  }

  lemma {:induction false} ZeroClockText()
    ensures ClockText(0, 0) == "00h00m"
  {
    assert Padded2(0) == "00";
  }

  /** Without a positive goal the percent is `000%`; once the goal is reached it is `100%`. */
  lemma {:induction false} PercentTextCases(current: int, goal: int)
    ensures goal <= 0 ==> PercentText(current, goal) == "000%"
    ensures goal > 0 && current >= goal ==> PercentText(current, goal) == "100%"
  {
    if goal <= 0 {
      assert PadStart(IntToString(0), 3, '0') == "000";
    } else if current >= goal {
      assert IntToString(100) == "100";
    }
  }

  /** For a non-negative current (or no goal) the percent is three digits reading back as the capped percent. */
  lemma {:induction false} PercentTextSpec(current: int, goal: int)
    requires goal <= 0 || current >= 0
    ensures var r := PercentText(current, goal);
      |r| == 4 && r[3] == '%' && AllDigits(r[..3]) && DigitsValue(r[..3]) == PercentValue(current, goal)
  {
    PercentDigits(PercentValue(current, goal));
  }

  lemma {:induction false} PercentDigits(p: nat)
    requires p <= 100
    ensures var s := PadStart(IntToString(p), 3, '0') + "%";
      |s| == 4 && s[3] == '%' && AllDigits(s[..3]) && DigitsValue(s[..3]) == p
  {
    var d := PadStart(NatToString(p), 3, '0');
    PaddedRoundTrip(p, 3);
    PaddedWidth3(p);
    assert IntToString(p) == NatToString(p);
    PercentSlices(d);
  }

  lemma {:induction false} PercentSlices(digits: string)
    requires |digits| == 3
    ensures var s := digits + "%"; |s| == 4 && s[3] == '%' && s[..3] == digits
  {
    var s := digits + "%";
    assert s[..3] == digits;
  }

  // ---------------------------------------------------------------------------
  // Dates

  const NoDateText: string := "--/--"

  /** `${m}/${d}` without padding. */
  function MonthDayText(month: nat, date: nat): string {
    NatToString(month) + "/" + NatToString(date)
  }

  /** Splitting a month/day text on `/` gives back the two numbers. */
  lemma {:induction false} MonthDayTextRoundTrip(month: nat, date: nat)
    ensures var parts := SplitOn(MonthDayText(month, date), '/');
      |parts| == 2 && AllDigits(parts[0]) && AllDigits(parts[1]) &&
      DigitsValue(parts[0]) == month && DigitsValue(parts[1]) == date
  {
    var parts := [NatToString(month), NatToString(date)];
    assert Join(parts, "/") == MonthDayText(month, date) by {
      assert parts[1..] == [NatToString(date)];
    }
    DigitsHaveNoChar(NatToString(month), '/');
    DigitsHaveNoChar(NatToString(date), '/');
    SplitJoin(parts, '/');
    NatToStringRoundTrip(month);
    NatToStringRoundTrip(date);
  }

  lemma {:induction false} DigitsHaveNoChar(s: string, c: char)
    requires AllDigits(s) && !IsDigit(c)
    ensures c !in s
  {
    forall i | 0 <= i < |s|
      ensures s[i] != c
    {
      assert IsDigit(s[i]);
    }
  }

  /** `formatCompactDateText(date)`: `--/--` for an invalid date, else `M/D`. */
  function FormatCompactDateText(date: Option<int>): string {
    match date
    case None => NoDateText
    case Some(t) => MonthDayText(Calendar.MonthOf(t) + 1, Calendar.DateOf(t))
  }

  lemma {:induction false} CompactDateOf(t: int)
    ensures FormatCompactDateText(Some(t)) == MonthDayText(Calendar.MonthOf(t) + 1, Calendar.DateOf(t))
  {
  }

  /** The placeholder appears exactly for an invalid date; a valid one reads back as its month and day. */
  lemma {:induction false} CompactDateSpec(date: Option<int>)
    ensures FormatCompactDateText(date) == NoDateText <==> date.None?
    ensures date.Some? ==>
      var parts := SplitOn(FormatCompactDateText(date), '/');
      |parts| == 2 && AllDigits(parts[0]) && AllDigits(parts[1]) &&
      DigitsValue(parts[0]) == Calendar.MonthOf(date.value) + 1 &&
      DigitsValue(parts[1]) == Calendar.DateOf(date.value)
  {
    if date.Some? {
      var m, d := Calendar.MonthOf(date.value) + 1, Calendar.DateOf(date.value);
      MonthDayTextRoundTrip(m, d);
      NotPlaceholder(m, d);
    }
  }

  lemma {:induction false} NotPlaceholder(m: nat, d: nat)
    ensures MonthDayText(m, d) != NoDateText
  {
    assert IsDigit(MonthDayText(m, d)[0]);
  }

  datatype ScheduleDates = ScheduleDates(dueDate: int, finishDate: int)

  /** `calcScheduleDates(year, month, days)`: the 15th of the month, and that day minus `max(0, days)` days. */
  function CalcScheduleDates(year: int, month: int, days: int): ScheduleDates {
    var safeDays := if days > 0 then days else 0;
    var due := Calendar.NewDate(year, month - 1, 15, 0, 0, 0);
    ScheduleDates(due, Calendar.SetDate(due, Calendar.DateOf(due) - safeDays))
  }

  /**
   * The due date is midnight on the 15th of the given month (a two-digit year
   * meaning 19xx); the finish date is exactly `max(0, days)` whole days
   * earlier, across month and year boundaries.
   */
  lemma {:induction false} ScheduleDatesSpec(year: int, month: int, days: int)
    requires 1 <= month <= 12
    ensures var r := CalcScheduleDates(year, month, days);
      var safeDays := if days > 0 then days else 0;
      Calendar.YearOf(r.dueDate) == Calendar.JsYear(year) &&
      Calendar.MonthOf(r.dueDate) == month - 1 && Calendar.DateOf(r.dueDate) == 15 &&
      Calendar.HourOf(r.dueDate) == 0 && Calendar.MinuteOf(r.dueDate) == 0 &&
      r.finishDate == r.dueDate - safeDays * Calendar.MsPerDay &&
      Calendar.Day(r.finishDate) == Calendar.Day(r.dueDate) - safeDays
  {
    var y := Calendar.JsYear(year);
    assert Calendar.JsYear(y) == y;
    assert Calendar.NewDate(year, month - 1, 15, 0, 0, 0) == Calendar.NewDate(y, month - 1, 15, 0, 0, 0);
    Calendar.NewDateFields(y, month - 1, 15, 0, 0, 0);
    FinishShift(year, month, days);
  }

  /** For any month, the finish date is the due date moved back by the safe number of days. */
  lemma {:induction false} FinishShift(year: int, month: int, days: int)
    ensures var r := CalcScheduleDates(year, month, days);
      var safeDays := if days > 0 then days else 0;
      r.finishDate == r.dueDate - safeDays * Calendar.MsPerDay &&
      Calendar.Day(r.finishDate) == Calendar.Day(r.dueDate) - safeDays
  {
    var safeDays := if days > 0 then days else 0;
    var due := Calendar.NewDate(year, month - 1, 15, 0, 0, 0);
    Calendar.SetDateShift(due, -safeDays);
    Calendar.DayShift(due, -safeDays);
  }

  // ---------------------------------------------------------------------------
  // Counts

  /** `formatReportCountText(c, t)`. */
  function FormatReportCountText(completed: int, total: int): string {
    IntToString(completed) + " / " + IntToString(total) + " 件"
  }

  /** The text splits on spaces into exactly the two numbers, `/` and `件`; so it determines both counts. */
  lemma {:induction false} ReportCountTextSpec(completed: int, total: int)
    ensures SplitOn(FormatReportCountText(completed, total), ' ') == [IntToString(completed), "/", IntToString(total), "件"]
  {
    var parts := [IntToString(completed), "/", IntToString(total), "件"];
    assert Join(parts, " ") == FormatReportCountText(completed, total) by {
      assert parts[1..][1..][1..] == ["件"];
      assert Join(parts[1..][1..], " ") == IntToString(total) + " " + "件";
      assert Join(parts[1..], " ") == "/" + " " + IntToString(total) + " " + "件";
    }
    IntTextHasNoSpace(completed);
    IntTextHasNoSpace(total);
    SplitJoin(parts, ' ');
  }

  lemma {:induction false} ReportCountTextInjective(c1: int, t1: int, c2: int, t2: int)
    requires FormatReportCountText(c1, t1) == FormatReportCountText(c2, t2)
    ensures c1 == c2 && t1 == t2
  {
    ReportCountTextSpec(c1, t1);
    ReportCountTextSpec(c2, t2);
    IntToStringInjective(c1, c2);
    IntToStringInjective(t1, t2);
  }

  lemma {:induction false} IntTextHasNoSpace(i: int)
    ensures ' ' !in IntToString(i)
  {
    var n: nat := if i < 0 then -i else i;
    DigitsHaveNoChar(NatToString(n), ' ');
    if i < 0 {
      assert IntToString(i) == "-" + NatToString(n);
    }
  }

  lemma {:induction false} IntToStringInjective(a: int, b: int)
    requires IntToString(a) == IntToString(b)
    ensures a == b
  {
    FirstCharSign(a);
    FirstCharSign(b);
    var s := IntToString(a);
    if a < 0 {
      assert NatToString(-a) == s[1..] == NatToString(-b);
      NatToStringInjective(-a, -b);
    } else {
      NatToStringInjective(a, b);
    }
  }

  lemma {:induction false} FirstCharSign(i: int)
    ensures IntToString(i)[0] == '-' <==> i < 0
  {
    if i >= 0 {
      assert IsDigit(NatToString(i)[0]);
    }
  }
}
