/**
 * The event side of `content-scripts/chatgpt-csv-calendar.js`: reading a date
 * cell and a time cell, mapping header names to columns, building an event
 * from a row, the event list of a whole file, the iCalendar writer (RFC 5545)
 * and the payload the script sends to the reminder store.
 */
module CsvEvents {
  import opened Wrappers
  import opened Text
  import Calendar
  import Reminders
  import opened CsvCalendar

  // ---------------------------------------------------------------------------
  // Date and time cells

  /** `s.split(/\s+/)`: the pieces between runs of white space. */
  function SplitWs(s: string): (r: seq<string>)
    ensures |r| >= 1
    decreases |s|
  {
    if s == [] then [""]
    else if IsSpace(s[0]) then [""] + SplitWs(TrimStart(s[1..]))
    else
      var rest := SplitWs(s[1..]);
      [[s[0]] + rest[0]] + rest[1..]
  }

  /** A word without white space is a single piece. */
  lemma {:induction false} SplitWsWord(w: string)
    requires NoSpace(w)
    ensures SplitWs(w) == [w]
    decreases |w|
  {
    if w != [] {
      assert NoSpace(w[1..]) by {
        forall i | 0 <= i < |w[1..]| ensures !IsSpace(w[1..][i]) {
          assert w[1..][i] == w[i + 1];
        }
      }
      SplitWsWord(w[1..]);
      assert [w[0]] + w[1..] == w;
    }
  }

  /** A word, a run of white space and the rest: the word is the first piece. */
  lemma {:induction false} SplitWsFirst(d: string, ws: string, t: string)
    requires NoSpace(d) && ws != [] && AllSpace(ws) && (t == [] || !IsSpace(t[0]))
    ensures SplitWs(d + ws + t) == [d] + SplitWs(t)
    decreases |d|
  {
    var s := d + ws + t;
    if d == [] {
      assert s == ws + t;
      assert s[0] == ws[0];
      assert s[1..] == ws[1..] + t;
      assert AllSpace(ws[1..]) by {
        forall i | 0 <= i < |ws[1..]| ensures IsSpace(ws[1..][i]) {
          assert ws[1..][i] == ws[i + 1];
        }
      }
      TrimStartSpaces(ws[1..], t);
    } else {
      assert NoSpace(d[1..]) by {
        forall i | 0 <= i < |d[1..]| ensures !IsSpace(d[1..][i]) {
          assert d[1..][i] == d[i + 1];
        }
      }
      SplitWsFirst(d[1..], ws, t);
      assert s[0] == d[0] && s[1..] == d[1..] + ws + t;
      assert [d[0]] + d[1..] == d;
    }
  }

  /** `{ date, hasTime }`: a parsed time value and whether a time of day was given. */
  datatype Moment = Moment(date: int, hasTime: bool)

  /**
   * The time text `parseDateTimeParts` settles on: the trimmed time cell, or,
   * when that is blank, the words after the first one of the date text,
   * joined by single spaces.
   */
  function TimeText(dateStr: string, timeCell: string): string {
    var timeStr := Trim(timeCell);
    if dateStr != [] && timeStr == [] then
      var split := SplitWs(dateStr);
      if |split| > 1 then Join(split[1..], " ") else timeStr
    else timeStr
  }

  /** `[dateStr, timeStr].filter(Boolean).join(' ')`. */
  function Combined(dateStr: string, timeStr: string): (r: string)
    ensures r == [] <==> dateStr == [] && timeStr == []
  {
    if dateStr == [] then timeStr
    else if timeStr == [] then dateStr
    else dateStr + " " + timeStr
  }

  /** `T\d{2}:\d{2}` at i. */
  predicate TimeMarkAt(s: string, i: nat)
    requires i + 6 <= |s|
  {
    s[i] == 'T' && IsDigit(s[i + 1]) && IsDigit(s[i + 2]) && s[i + 3] == ':' &&
    IsDigit(s[i + 4]) && IsDigit(s[i + 5])
  }

  /** `/T\d{2}:\d{2}/.test(s)`. */
  predicate HasTimeMark(s: string) {
    exists i: nat :: i + 6 <= |s| && TimeMarkAt(s, i)
  }

  /** `parseDateTimeParts`: the combined text is parsed first, then the date text alone. */
  function ParseDateTimeParts(env: Reminders.DateEnv, datePart: string, timePart: string): Option<Moment> {
    var dateStr := Trim(datePart);
    var timeStr := TimeText(dateStr, timePart);
    var parsed :=
      match TryParseDate(env, Combined(dateStr, timeStr))
      case Some(t) => Some(t)
      case None => TryParseDate(env, dateStr);
    match parsed
    case None => None
    case Some(t) => Some(Moment(t, timeStr != [] || HasTimeMark(dateStr)))
  }

  /** Two blank cells give no date. */
  lemma {:induction false} PartsBlank(env: Reminders.DateEnv, datePart: string, timePart: string)
    requires Trim(datePart) == [] && Trim(timePart) == []
    ensures ParseDateTimeParts(env, datePart, timePart) == None
  {
    assert TimeText(Trim(datePart), timePart) == [];
    assert TryParseDate(env, []) == None;
  }

  /** A non-blank time cell is the time text, so a parsed result has a time. */
  lemma {:induction false} PartsTimeCell(env: Reminders.DateEnv, datePart: string, timePart: string)
    requires Trim(timePart) != []
    ensures TimeText(Trim(datePart), timePart) == Trim(timePart)
    ensures ParseDateTimeParts(env, datePart, timePart).Some? ==> ParseDateTimeParts(env, datePart, timePart).value.hasTime
  {
  }

  /**
   * A one-word date with a blank time cell: the date text alone is parsed, and
   * there is a time exactly when the date holds `THH:MM`.
   */
  lemma {:induction false} PartsOneWord(env: Reminders.DateEnv, datePart: string, timePart: string)
    requires NoSpace(Trim(datePart)) && Trim(timePart) == []
    ensures TimeText(Trim(datePart), timePart) == []
    ensures ParseDateTimeParts(env, datePart, timePart) ==
      match TryParseDate(env, Trim(datePart))
      case None => None
      case Some(t) => Some(Moment(t, HasTimeMark(Trim(datePart))))
  {
    var dateStr := Trim(datePart);
    if dateStr != [] {
      SplitWsWord(dateStr);
    }
    assert TimeText(dateStr, timePart) == [];
    assert Combined(dateStr, []) == dateStr;
  }

  /**
   * A date cell `d t` (two words, any white space between) with a blank time
   * cell: the second word becomes the time, and the result has a time. The
   * text parsed first is the whole cell, a space and the second word again
   * (`combined` repeats the time); failing that, the cell alone.
   */
  lemma {:induction false} PartsTwoWords(env: Reminders.DateEnv, d: string, ws: string, t: string, timePart: string)
    requires d != [] && t != [] && NoSpace(d) && NoSpace(t) && ws != [] && AllSpace(ws)
    requires Trim(timePart) == []
    ensures TimeText(Trim(d + ws + t), timePart) == t
    ensures var r := ParseDateTimeParts(env, d + ws + t, timePart);
      var combined := d + ws + t + " " + t;
      (r.None? <==> TryParseDate(env, combined).None? && TryParseDate(env, d + ws + t).None?) &&
      (r.Some? ==> r.value.hasTime) &&
      (TryParseDate(env, combined).Some? ==> r == Some(Moment(TryParseDate(env, combined).value, true)))
  {
    var s := d + ws + t;
    assert s[0] == d[0] && s[|s| - 1] == t[|t| - 1];
    TrimOfTrimmed(s);
    SplitWsFirst(d, ws, t);
    SplitWsWord(t);
    assert SplitWs(s)[1..] == [t];
    assert TimeText(s, timePart) == t;
  }

  // ---------------------------------------------------------------------------
  // Header row

  /** Column indexes found by `mapHeaders`, -1 for a field no header names. */
  datatype HeaderMap = HeaderMap(title: int, startDate: int, startTime: int, endDate: int, endTime: int,
                                 description: int, location: int)

  const TitleKeys: seq<string> := ["title", "件名", "summary", "subject", "科目", "name"]
  const StartDateKeys: seq<string> := ["start", "開始", "date", "日付", "start_date"]
  const StartTimeKeys: seq<string> := ["start_time", "開始時刻", "開始時間"]
  const EndDateKeys: seq<string> := ["end", "終了", "finish", "end_date"]
  const EndTimeKeys: seq<string> := ["end_time", "終了時刻", "終了時間"]
  const DescriptionKeys: seq<string> := ["description", "memo", "メモ", "備考", "note"]
  const LocationKeys: seq<string> := ["location", "場所", "会場"]

  /** `candidates.some((c) => h.includes(c))`. */
  predicate MentionsAny(h: string, candidates: seq<string>) {
    exists k :: 0 <= k < |candidates| && Contains(h, candidates[k])
  }

  /** `lowered.findIndex(...)`, searching from `from`. */
  function FindHeader(lowered: seq<string>, candidates: seq<string>, from: nat): (r: int)
    requires from <= |lowered|
    ensures r == -1 || from <= r < |lowered|
    decreases |lowered| - from
  {
    if from == |lowered| then -1
    else if MentionsAny(lowered[from], candidates) then from
    else FindHeader(lowered, candidates, from + 1)
  }

  /** The index found is the first header mentioning a candidate; -1 exactly when none does. */
  lemma {:induction false} FindHeaderSpec(lowered: seq<string>, candidates: seq<string>, from: nat)
    requires from <= |lowered|
    ensures var r := FindHeader(lowered, candidates, from);
      (r >= 0 ==> MentionsAny(lowered[r], candidates) &&
                  forall j :: from <= j < r ==> !MentionsAny(lowered[j], candidates)) &&
      (r == -1 <==> forall j :: from <= j < |lowered| ==> !MentionsAny(lowered[j], candidates))
    decreases |lowered| - from
  {
    if from < |lowered| && !MentionsAny(lowered[from], candidates) {
      FindHeaderSpec(lowered, candidates, from + 1);
    }
  }

  function Lowered(headers: seq<string>): (r: seq<string>)
    ensures |r| == |headers|
    ensures forall k :: 0 <= k < |r| ==> r[k] == ToLowerAscii(headers[k])
  {
    seq(|headers|, k requires 0 <= k < |headers| => ToLowerAscii(headers[k]))
  }

  /** `mapHeaders`. */
  function MapHeaders(headers: seq<string>): HeaderMap {
    var lowered := Lowered(headers);
    HeaderMap(
      title := FindHeader(lowered, TitleKeys, 0),
      startDate := FindHeader(lowered, StartDateKeys, 0),
      startTime := FindHeader(lowered, StartTimeKeys, 0),
      endDate := FindHeader(lowered, EndDateKeys, 0),
      endTime := FindHeader(lowered, EndTimeKeys, 0),
      description := FindHeader(lowered, DescriptionKeys, 0),
      location := FindHeader(lowered, LocationKeys, 0))
  }

  /**
   * A `start_time` column that comes before every other start-date column is
   * taken as the start date too: `start_time` contains the candidate `start`.
   */
  lemma {:induction false} StartTimeTakenAsStart(headers: seq<string>, k: nat)
    requires k < |headers| && Contains(ToLowerAscii(headers[k]), "start_time")
    requires forall j :: 0 <= j < k ==> !MentionsAny(ToLowerAscii(headers[j]), StartDateKeys)
    ensures MapHeaders(headers).startDate == k
  {
    var lowered := Lowered(headers);
    var h := lowered[k];
    var i := ContainsWitness(h, "start_time");
    assert h[i..i + 5] == "start" by {
      assert h[i..i + 10] == "start_time";
      SliceOfSlice(h, i, i + 10, 0, 5);
    }
    ContainsAt(h, "start", i);
    assert StartDateKeys[0] == "start";
    assert MentionsAny(h, StartDateKeys);
    FindHeaderSpec(lowered, StartDateKeys, 0);
    var r := FindHeader(lowered, StartDateKeys, 0);
    assert r != -1;
    assert lowered[r] == ToLowerAscii(headers[r]);
    assert !(r < k);
    assert !(r > k);
  }

  // ---------------------------------------------------------------------------
  // Rows to events

  /** An event read from one row of the file. */
  datatype Event = Event(title: string, description: string, location: string,
                         startDate: int, endDate: int, hasTime: bool)

  /** `pick(idx)`: the cell at idx, or '' for -1 or a row too short. */
  function Pick(row: seq<string>, idx: int): string {
    if 0 <= idx < |row| then row[idx] else ""
  }

  /** The end when the end cells do not parse: `setHours(getHours() + 1)` with a time, else `setDate(getDate() + 1)`. */
  function FallbackEnd(start: Moment): int {
    var t := start.date;
    if start.hasTime then
      Calendar.SetHours(t, Calendar.HourOf(t) + 1, Calendar.MinuteOf(t), Calendar.SecondOf(t), Calendar.MsOf(t))
    else Calendar.SetDate(t, Calendar.DateOf(t) + 1)
  }

  /** The fallback end is one hour after a timed start and one day after an all-day one. */
  lemma {:induction false} FallbackEndSpec(start: Moment)
    ensures FallbackEnd(start) == start.date + if start.hasTime then Calendar.MsPerHour else Calendar.MsPerDay
  {
    if start.hasTime {
      Calendar.AddHour(start.date);
    } else {
      Calendar.SetDateShift(start.date, 1);
    }
  }

  /** The cell the end is read from: `endDateRaw || startDateRaw`, untrimmed. */
  function EndSource(row: seq<string>, cols: HeaderMap): string {
    var endDateRaw := Pick(row, cols.endDate);
    if endDateRaw != [] then endDateRaw else Pick(row, cols.startDate)
  }

  /** `buildEvent`. */
  function BuildEvent(env: Reminders.DateEnv, row: seq<string>, cols: HeaderMap): Option<Event> {
    var picked := Trim(Pick(row, cols.title));
    var title := if picked == [] then Reminders.DefaultTitle else picked;
    match ParseDateTimeParts(env, Pick(row, cols.startDate), Pick(row, cols.startTime))
    case None => None
    case Some(start) =>
      var endDate :=
        match ParseDateTimeParts(env, EndSource(row, cols), Pick(row, cols.endTime))
        case Some(end) => end.date
        case None => FallbackEnd(start);
      Some(Event(title, Pick(row, cols.description), Pick(row, cols.location), start.date, endDate, start.hasTime))
  }

  /**
   * No event without a parseable start. Otherwise the title is the trimmed
   * title cell or '予定', start and `hasTime` come from the start cells, and
   * the end is the parsed end cells or the start plus one hour (timed) or one
   * day (all-day).
   */
  lemma {:induction false} BuildEventSpec(env: Reminders.DateEnv, row: seq<string>, cols: HeaderMap)
    ensures var r := BuildEvent(env, row, cols);
      var start := ParseDateTimeParts(env, Pick(row, cols.startDate), Pick(row, cols.startTime));
      var end := ParseDateTimeParts(env, EndSource(row, cols), Pick(row, cols.endTime));
      var picked := Trim(Pick(row, cols.title));
      (r.None? <==> start.None?) &&
      (r.Some? ==>
        r.value.title != [] && IsTrimmed(r.value.title) &&
        (r.value.title == picked || (picked == [] && r.value.title == Reminders.DefaultTitle)) &&
        r.value.startDate == start.value.date && r.value.hasTime == start.value.hasTime &&
        r.value.description == Pick(row, cols.description) && r.value.location == Pick(row, cols.location) &&
        (end.Some? ==> r.value.endDate == end.value.date) &&
        (end.None? ==>
          r.value.endDate == start.value.date + (if start.value.hasTime then Calendar.MsPerHour else Calendar.MsPerDay)))
  {
    var start := ParseDateTimeParts(env, Pick(row, cols.startDate), Pick(row, cols.startTime));
    TrimIsTrimmed(Pick(row, cols.title));
    assert IsTrimmed(Reminders.DefaultTitle);
    if start.Some? {
      FallbackEndSpec(start.value);
    }
  }

  /** The events of data lines under a header map: `buildEvent` of each parsed line, nulls dropped. */
  function BuildAll(env: Reminders.DateEnv, lines: seq<string>, cols: HeaderMap): (r: seq<Event>)
    ensures |r| <= |lines|
  {
    if lines == [] then []
    else
      var e := BuildEvent(env, CsvCells(lines[|lines| - 1]), cols);
      BuildAll(env, lines[..|lines| - 1], cols) + if e.Some? then [e.value] else []
  }

  /** Events keep the order of their lines: the events of two stretches of lines are concatenated. */
  lemma {:induction false} BuildAllAppend(env: Reminders.DateEnv, a: seq<string>, b: seq<string>, cols: HeaderMap)
    ensures BuildAll(env, a + b, cols) == BuildAll(env, a, cols) + BuildAll(env, b, cols)
    decreases |b|
  {
    if b == [] {
      assert a + b == a;
    } else {
      var b', x := b[..|b| - 1], b[|b| - 1];
      assert b == b' + [x];
      assert a + b == (a + b') + [x];
      BuildAllSnocAt(env, a + b, a + b', x, cols);
      BuildAllSnocAt(env, b, b', x, cols);
      BuildAllAppend(env, a, b', cols);
    }
  }

  lemma {:induction false} BuildAllSnocLine(env: Reminders.DateEnv, lines: seq<string>, line: string, cols: HeaderMap)
    ensures var e := BuildEvent(env, CsvCells(line), cols);
      BuildAll(env, lines + [line], cols) == BuildAll(env, lines, cols) + if e.Some? then [e.value] else []
  {
    assert (lines + [line])[..|lines|] == lines;
    assert (lines + [line])[|lines|] == line;
  }

  lemma {:induction false} BuildAllSnocAt(env: Reminders.DateEnv, all: seq<string>, lines: seq<string>, line: string, cols: HeaderMap)
    requires all == lines + [line]
    ensures var e := BuildEvent(env, CsvCells(line), cols);
      BuildAll(env, all, cols) == BuildAll(env, lines, cols) + if e.Some? then [e.value] else []
  {
    BuildAllSnocLine(env, lines, line, cols);
  }

  /** One line gives its event, or nothing when it has no parseable start. */
  lemma {:induction false} BuildAllOne(env: Reminders.DateEnv, line: string, cols: HeaderMap)
    ensures var e := BuildEvent(env, CsvCells(line), cols);
      BuildAll(env, [line], cols) == if e.Some? then [e.value] else []
  {
    assert [line][..0] == [];
  }

  lemma {:induction false} BuildAllSnoc(env: Reminders.DateEnv, lines: seq<string>, i: nat, cols: HeaderMap)
    requires 1 <= i < |lines|
    ensures var e := BuildEvent(env, CsvCells(lines[i]), cols);
      BuildAll(env, lines[1..i + 1], cols) == BuildAll(env, lines[1..i], cols) + if e.Some? then [e.value] else []
  {
    assert lines[1..i + 1] == lines[1..i] + [lines[i]];
    BuildAllSnocAt(env, lines[1..i + 1], lines[1..i], lines[i], cols);
  }

  /** `parseEventsFromCsv` as a value. */
  function EventsFromCsv(env: Reminders.DateEnv, text: string): seq<Event> {
    var lines := SplitCsv(text);
    if |lines| < 2 then []
    else
      var cols := MapHeaders(CsvCells(lines[0]));
      if cols.startDate < 0 then [] else BuildAll(env, lines[1..], cols)
  }

  /** `parseEventsFromCsv`: the header line, then one `buildEvent` per data line. */
  method ParseEventsFromCsv(env: Reminders.DateEnv, text: string) returns (events: seq<Event>)
    ensures events == EventsFromCsv(env, text)
  {
    var lines := SplitCsv(text);
    if |lines| < 2 {
      return [];
    }
    var header := ParseCsvLine(lines[0]);
    var cols := MapHeaders(header);
    if cols.startDate < 0 {
      return [];
    }
    events := BuildEvents(env, lines, cols);
  }

  /** The loop of `parseEventsFromCsv` over the data lines after the header. */
  method BuildEvents(env: Reminders.DateEnv, lines: seq<string>, cols: HeaderMap) returns (events: seq<Event>)
    requires 1 <= |lines|
    ensures events == BuildAll(env, lines[1..], cols)
  {
    events := [];
    var i := 1;
    while i < |lines|
      invariant 1 <= i <= |lines|
      invariant events == BuildAll(env, lines[1..i], cols)
    {
      var row := ParseCsvLine(lines[i]);
      var event := BuildEvent(env, row, cols);
      BuildAllSnoc(env, lines, i, cols);
      if event.Some? {
        events := events + [event.value];
      }
      i := i + 1;
    }
    assert lines[1..i] == lines[1..];
  }

  /**
   * A file written as a header line and data lines (clean lines joined by LF
   * or CRLF) gives the events of its data lines, when a header names a start
   * column; otherwise no events.
   */
  lemma {:induction false} EventsOfFile(env: Reminders.DateEnv, header: string, rows: seq<string>, crlf: bool)
    requires |rows| >= 1
    requires CleanLine(header) && forall k :: 0 <= k < |rows| ==> CleanLine(rows[k])
    ensures var cols := MapHeaders(CsvCells(header));
      EventsFromCsv(env, Join([header] + rows, Newline(crlf))) ==
        if cols.startDate < 0 then [] else BuildAll(env, rows, cols)
  {
    var lines := [header] + rows;
    forall k | 0 <= k < |lines| ensures CleanLine(lines[k]) {
      if k > 0 { assert lines[k] == rows[k - 1]; }
    }
    SplitCsvJoin(lines, crlf);
    assert lines[1..] == rows;
  }

  // ---------------------------------------------------------------------------
  // iCalendar dates (RFC 5545, sections 3.3.4 and 3.3.5)

  /** `String(n).padStart(2, '0')`. */
  function Pad2(n: nat): string {
    PadStart(NatToString(n), 2, '0')
  }

  datatype Clock = Clock(hour: nat, minute: nat, second: nat)

  /** The fields of an iCalendar DATE or (floating) DATE-TIME value; month and day as written, 1-based. */
  datatype IcsDate = IcsDate(year: int, month: nat, day: nat, time: Option<Clock>)

  /** The text of date fields: the year unpadded (`${y}`), the other fields padded to two digits. */
  function IcsText(f: IcsDate): string {
    var ymd := IntToString(f.year) + Pad2(f.month) + Pad2(f.day);
    match f.time
    case None => ymd
    case Some(c) => ymd + "T" + Pad2(c.hour) + Pad2(c.minute) + Pad2(c.second)
  }

  /** The local fields `formatICSDate` reads: `getFullYear()`, `getMonth() + 1`, `getDate()` and, with a time, the clock. */
  function IcsFields(t: int, withTime: bool): IcsDate {
    IcsDate(Calendar.YearOf(t), Calendar.MonthOf(t) + 1, Calendar.DateOf(t),
      if withTime then Some(Clock(Calendar.HourOf(t), Calendar.MinuteOf(t), Calendar.SecondOf(t))) else None)
  }

  /** `formatICSDate`: `YYYYMMDD`, or `YYYYMMDDTHHMMSS` with a time. */
  function FormatICSDate(t: int, withTime: bool): string {
    IcsText(IcsFields(t, withTime))
  }

  /** Reads back an 8-character DATE or a 15-character DATE-TIME. */
  function ReadICSDate(s: string): Option<IcsDate> {
    if |s| == 8 && AllDigits(s) then
      Some(IcsDate(DigitsValue(s[..4]), DigitsValue(s[4..6]), DigitsValue(s[6..]), None))
    else if |s| == 15 && AllDigits(s[..8]) && s[8] == 'T' && AllDigits(s[9..]) then
      var date := s[..8];
      var time := s[9..];
      Some(IcsDate(DigitsValue(date[..4]), DigitsValue(date[4..6]), DigitsValue(date[6..]),
                   Some(Clock(DigitsValue(time[..2]), DigitsValue(time[2..4]), DigitsValue(time[4..])))))
    else None
  }

  /** A two-digit field reads back as its value. */
  lemma {:induction false} Pad2Facts(n: nat)
    requires n < 100
    ensures |Pad2(n)| == 2 && AllDigits(Pad2(n)) && DigitsValue(Pad2(n)) == n
  {
    assert Pow10(2) == 100 by {
      assert Pow10(1) == 10;
    }
    PaddedWidth(n, 2);
    PaddedRoundTrip(n, 2);
  }

  /** A year from 1000 to 9999 is written with exactly four digits. */
  lemma {:induction false} YearFacts(y: int)
    requires 1000 <= y <= 9999
    ensures var s := IntToString(y); |s| == 4 && AllDigits(s) && DigitsValue(s) == y
  {
    var s := NatToString(y);
    assert Pow10(1) == 10 && Pow10(2) == 100 && Pow10(3) == 1000 && Pow10(4) == 10000;
    NatToStringLength(y, 4);
    NatToStringRoundTrip(y);
    DigitsValueBound(s);
    if |s| < 4 {
      assert false;
    }
  }

  /** Reading back the 8 digits of a date. */
  lemma {:induction false} ReadDigits8(y: string, m: string, d: string)
    requires |y| == 4 && |m| == 2 && |d| == 2 && AllDigits(y) && AllDigits(m) && AllDigits(d)
    ensures var s := y + m + d;
      |s| == 8 && AllDigits(s) && s[..4] == y && s[4..6] == m && s[6..] == d
  {
  }

  /** A DATE text read back from its digit groups. */
  lemma {:induction false} ReadDateText(y: string, m: string, d: string)
    requires |y| == 4 && |m| == 2 && |d| == 2 && AllDigits(y) && AllDigits(m) && AllDigits(d)
    ensures ReadICSDate(y + m + d) == Some(IcsDate(DigitsValue(y), DigitsValue(m), DigitsValue(d), None))
  {
    ReadDigits8(y, m, d);
  }

  /** A DATE-TIME text read back from its digit groups. */
  lemma {:induction false} ReadDateTimeText(y: string, m: string, d: string, hh: string, mi: string, ss: string)
    requires |y| == 4 && |m| == 2 && |d| == 2 && AllDigits(y) && AllDigits(m) && AllDigits(d)
    requires |hh| == 2 && |mi| == 2 && |ss| == 2 && AllDigits(hh) && AllDigits(mi) && AllDigits(ss)
    ensures ReadICSDate(y + m + d + "T" + hh + mi + ss) ==
      Some(IcsDate(DigitsValue(y), DigitsValue(m), DigitsValue(d),
                   Some(Clock(DigitsValue(hh), DigitsValue(mi), DigitsValue(ss)))))
  {
    ReadDigits8(y, m, d);
    ReadDigits6(hh, mi, ss);
    var ymd := y + m + d;
    var s := ymd + "T" + hh + mi + ss;
    assert s == ymd + ("T" + (hh + mi + ss));
    assert s[..8] == ymd && s[8] == 'T' && s[9..] == hh + mi + ss;
  }

  /** Fields of the sizes a four-digit year and a calendar give read back from their text. */
  lemma {:induction false} IcsTextRoundTrip(f: IcsDate)
    requires 1000 <= f.year <= 9999 && f.month < 100 && f.day < 100
    requires f.time.Some? ==> f.time.value.hour < 100 && f.time.value.minute < 100 && f.time.value.second < 100
    ensures ReadICSDate(IcsText(f)) == Some(f)
  {
    YearFacts(f.year);
    Pad2Facts(f.month);
    Pad2Facts(f.day);
    if f.time.Some? {
      var c := f.time.value;
      Pad2Facts(c.hour);
      Pad2Facts(c.minute);
      Pad2Facts(c.second);
      ReadDateTimeText(IntToString(f.year), Pad2(f.month), Pad2(f.day), Pad2(c.hour), Pad2(c.minute), Pad2(c.second));
    } else {
      ReadDateText(IntToString(f.year), Pad2(f.month), Pad2(f.day));
    }
  }

  /** For a four-digit year, the text `formatICSDate` writes reads back as the date's local fields. */
  lemma {:induction false} ICSDateRoundTrip(t: int, withTime: bool)
    requires 1000 <= Calendar.YearOf(t) <= 9999
    ensures ReadICSDate(FormatICSDate(t, withTime)) == Some(IcsFields(t, withTime))
  {
    IcsTextRoundTrip(IcsFields(t, withTime));
  }

  /** Reading back the 6 digits of a time. */
  lemma {:induction false} ReadDigits6(h: string, m: string, s: string)
    requires |h| == 2 && |m| == 2 && |s| == 2 && AllDigits(h) && AllDigits(m) && AllDigits(s)
    ensures var x := h + m + s;
      |x| == 6 && AllDigits(x) && x[..2] == h && x[2..4] == m && x[4..] == s
  {
  }

  // ---------------------------------------------------------------------------
  // The iCalendar file (RFC 5545, sections 3.1, 3.4 and 3.6.1)

  const IcsHeader: seq<string> := ["BEGIN:VCALENDAR", "VERSION:2.0", "PRODID:-//zen-csv-to-calendar//EN"]

  /** The UID of an event: the stamp, the random base-36 text and the fixed domain. */
  function Uid(stamp: string, random: string): string {
    stamp + "-" + random + "@zen-csv-calendar"
  }

  /** A property written only when its value is non-empty. */
  function Optional(name: string, value: string): seq<string> {
    if value != [] then [name + value] else []
  }

  /** DTSTART and DTEND: DATE-TIME values for a timed event, `;VALUE=DATE` values for an all-day one. */
  function DateLinesOf(hasTime: bool, start: string, end: string): seq<string> {
    if hasTime then ["DTSTART:" + start, "DTEND:" + end]
    else ["DTSTART;VALUE=DATE:" + start, "DTEND;VALUE=DATE:" + end]
  }

  function DateLines(e: Event): seq<string> {
    DateLinesOf(e.hasTime, FormatICSDate(e.startDate, e.hasTime), FormatICSDate(e.endDate, e.hasTime))
  }

  /** The property lines of a VEVENT, from its UID, stamp, date lines, title, description and location. */
  function PropertyLines(uid: string, stamp: string, dates: seq<string>, title: string,
                         description: string, location: string): seq<string>
  {
    ["UID:" + uid, "DTSTAMP:" + stamp] + dates + ["SUMMARY:" + title] +
    Optional("DESCRIPTION:", description) + Optional("LOCATION:", location)
  }

  /** The lines of one VEVENT between `BEGIN:VEVENT` and `END:VEVENT`. */
  function EventProperties(e: Event, stamp: string, random: string): seq<string> {
    PropertyLines(Uid(stamp, random), stamp, DateLines(e), e.title, e.description, e.location)
  }

  function EventLines(e: Event, stamp: string, random: string): seq<string> {
    ["BEGIN:VEVENT"] + EventProperties(e, stamp, random) + ["END:VEVENT"]
  }

  /** The VEVENT lines of all events, in order; `randoms` holds one random text per event. */
  function EventsLines(events: seq<Event>, stamp: string, randoms: seq<string>): seq<string>
    requires |randoms| == |events|
    decreases |events|
  {
    if events == [] then []
    else
      var n := |events| - 1;
      EventsLines(events[..n], stamp, randoms[..n]) + EventLines(events[n], stamp, randoms[n])
  }

  function IcsLines(events: seq<Event>, stamp: string, randoms: seq<string>): seq<string>
    requires |randoms| == |events|
  {
    IcsHeader + EventsLines(events, stamp, randoms) + ["END:VCALENDAR"]
  }

  /** The DTSTART and DTEND pushes of one event. */
  method PushDates(lines: seq<string>, event: Event) returns (lines': seq<string>)
    ensures lines' == lines + DateLines(event)
  {
    if event.hasTime {
      var start := FormatICSDate(event.startDate, true);
      var end := FormatICSDate(event.endDate, true);
      lines' := lines + ["DTSTART:" + start];
      lines' := lines' + ["DTEND:" + end];
      TwoPushes(lines, "DTSTART:" + start, "DTEND:" + end);
    } else {
      var start := FormatICSDate(event.startDate, false);
      var end := FormatICSDate(event.endDate, false);
      lines' := lines + ["DTSTART;VALUE=DATE:" + start];
      lines' := lines' + ["DTEND;VALUE=DATE:" + end];
      TwoPushes(lines, "DTSTART;VALUE=DATE:" + start, "DTEND;VALUE=DATE:" + end);
    }
  }

  lemma {:induction false} TwoPushes(lines: seq<string>, a: string, b: string)
    ensures lines + [a] + [b] == lines + [a, b]
  {
  }

  /** One turn of the `buildICS` loop: the pushes of one event's lines. */
  method PushEvent(lines: seq<string>, event: Event, stamp: string, random: string) returns (lines': seq<string>)
    ensures lines' == lines + EventLines(event, stamp, random)
  {
    var uid := Uid(stamp, random);
    lines' := lines + ["BEGIN:VEVENT"];
    lines' := lines' + ["UID:" + uid];
    lines' := lines' + ["DTSTAMP:" + stamp];
    ghost var opening := lines';
    lines' := PushDates(lines', event);
    ghost var dates := DateLines(event);
    lines' := lines' + ["SUMMARY:" + event.title];
    ghost var summary := lines';
    if event.description != [] {
      lines' := lines' + ["DESCRIPTION:" + event.description];
    }
    assert lines' == summary + Optional("DESCRIPTION:", event.description);
    ghost var described := lines';
    if event.location != [] {
      lines' := lines' + ["LOCATION:" + event.location];
    }
    assert lines' == described + Optional("LOCATION:", event.location);
    lines' := lines' + ["END:VEVENT"];
    PushesRegroup(lines, uid, stamp, dates, event.title, event.description, event.location);
  }

  /** The pushes of one event, regrouped into its VEVENT. */
  lemma {:induction false} PushesRegroup(lines: seq<string>, uid: string, stamp: string, dates: seq<string>,
                                         title: string, description: string, location: string)
    ensures lines + ["BEGIN:VEVENT"] + ["UID:" + uid] + ["DTSTAMP:" + stamp] + dates + ["SUMMARY:" + title] +
      Optional("DESCRIPTION:", description) + Optional("LOCATION:", location) + ["END:VEVENT"] ==
      lines + (["BEGIN:VEVENT"] + PropertyLines(uid, stamp, dates, title, description, location) + ["END:VEVENT"])
  {
    assert ["UID:" + uid] + ["DTSTAMP:" + stamp] == ["UID:" + uid, "DTSTAMP:" + stamp];
  }

  /**
   * `buildICS`. The clock (`new Date()`) is the parameter `now`, and the
   * random UID texts (`Math.random().toString(36).slice(2)`) are `randoms`.
   */
  method BuildICS(events: seq<Event>, now: int, randoms: seq<string>) returns (ics: string)
    requires |randoms| == |events|
    ensures ics == Join(IcsLines(events, FormatICSDate(now, true), randoms), "\r\n")
  {
    var stamp := FormatICSDate(now, true);
    var lines := PushEvents(IcsHeader, events, stamp, randoms);
    lines := lines + ["END:VCALENDAR"];
    ics := Join(lines, "\r\n");
  }

  /** The loop of `buildICS`: the lines of every event, pushed in order. */
  method PushEvents(header: seq<string>, events: seq<Event>, stamp: string, randoms: seq<string>)
    returns (lines: seq<string>)
    requires |randoms| == |events|
    ensures lines == header + EventsLines(events, stamp, randoms)
  {
    lines := header;
    for i := 0 to |events|
      invariant lines == header + EventsLines(events[..i], stamp, randoms[..i])
    {
      ghost var before := lines;
      lines := PushEvent(lines, events[i], stamp, randoms[i]);
      PushEventsStep(header, events, stamp, randoms, i, before, lines);
    }
    PushEventsDone(header, events, stamp, randoms, lines);
  }

  lemma {:induction false} PushEventsDone(header: seq<string>, events: seq<Event>, stamp: string, randoms: seq<string>, lines: seq<string>)
    requires |randoms| == |events|
    requires lines == header + EventsLines(events[..|events|], stamp, randoms[..|events|])
    ensures lines == header + EventsLines(events, stamp, randoms)
  {
    assert events[..|events|] == events && randoms[..|events|] == randoms;
  }

  lemma {:induction false} EventsLinesSnoc(events: seq<Event>, stamp: string, randoms: seq<string>, i: nat)
    requires |randoms| == |events| && i < |events|
    ensures EventsLines(events[..i + 1], stamp, randoms[..i + 1]) ==
      EventsLines(events[..i], stamp, randoms[..i]) + EventLines(events[i], stamp, randoms[i])
  {
    assert events[..i + 1][..i] == events[..i] && randoms[..i + 1][..i] == randoms[..i];
    assert events[..i + 1][i] == events[i] && randoms[..i + 1][i] == randoms[i];
  }

  lemma {:induction false} PushEventsStep(header: seq<string>, events: seq<Event>, stamp: string, randoms: seq<string>, i: nat,
                                         before: seq<string>, after: seq<string>)
    requires |randoms| == |events| && i < |events|
    requires before == header + EventsLines(events[..i], stamp, randoms[..i])
    requires after == before + EventLines(events[i], stamp, randoms[i])
    ensures after == header + EventsLines(events[..i + 1], stamp, randoms[..i + 1])
  {
    EventsLinesSnoc(events, stamp, randoms, i);
    AppendStep(before, header, EventsLines(events[..i], stamp, randoms[..i]),
      EventLines(events[i], stamp, randoms[i]), EventsLines(events[..i + 1], stamp, randoms[..i + 1]));
  }

  lemma {:induction false} AppendStep(lines: seq<string>, header: seq<string>, done: seq<string>, one: seq<string>, next: seq<string>)
    requires lines == header + done && next == done + one
    ensures lines + one == header + next
  {
  }

  /** How often a line occurs. */
  function CountOf(lines: seq<string>, x: string): nat {
    if lines == [] then 0 else (if lines[0] == x then 1 else 0) + CountOf(lines[1..], x)
  }

  lemma {:induction false} CountOfAppend(a: seq<string>, b: seq<string>, x: string)
    ensures CountOf(a + b, x) == CountOf(a, x) + CountOf(b, x)
    decreases |a|
  {
    if a == [] {
      assert a + b == b;
    } else {
      assert (a + b)[1..] == a[1..] + b;
      CountOfAppend(a[1..], b, x);
    }
  }

  lemma {:induction false} CountOfAbsent(a: seq<string>, x: string)
    requires x !in a
    ensures CountOf(a, x) == 0
    decreases |a|
  {
    if a != [] {
      assert a[0] in a;
      assert forall k :: 0 <= k < |a[1..]| ==> a[1..][k] == a[k + 1];
      CountOfAbsent(a[1..], x);
    }
  }

  lemma {:induction false} CountOfOne(x: string, y: string)
    ensures CountOf([x], y) == if x == y then 1 else 0
  {
    assert [x][1..] == [];
  }

  /** The shape of a DTSTART or DTEND line: it starts with `DT`. */
  predicate DateLineShape(line: string) {
    |line| >= 2 && line[0] == 'D' && line[1] == 'T'
  }

  lemma {:induction false} DateLinesShape(hasTime: bool, start: string, end: string)
    ensures |DateLinesOf(hasTime, start, end)| == 2
    ensures DateLineShape(DateLinesOf(hasTime, start, end)[0]) && DateLineShape(DateLinesOf(hasTime, start, end)[1])
  {
    if hasTime {
      assert ("DTSTART:" + start)[..2] == "DT" && ("DTEND:" + end)[..2] == "DT";
    } else {
      assert ("DTSTART;VALUE=DATE:" + start)[..2] == "DT" && ("DTEND;VALUE=DATE:" + end)[..2] == "DT";
    }
  }

  /** No property line starts with `B` or `E`, so none is `BEGIN:VEVENT` or `END:VEVENT`. */
  lemma {:induction false} PropertyLinesAvoidMarkers(uid: string, stamp: string, dates: seq<string>, title: string,
                                                     description: string, location: string)
    requires |dates| == 2 && DateLineShape(dates[0]) && DateLineShape(dates[1])
    ensures "BEGIN:VEVENT" !in PropertyLines(uid, stamp, dates, title, description, location)
    ensures "END:VEVENT" !in PropertyLines(uid, stamp, dates, title, description, location)
  {
    var p := PropertyLines(uid, stamp, dates, title, description, location);
    assert ("UID:" + uid)[0] == 'U' && ("DTSTAMP:" + stamp)[0] == 'D';
    assert ("SUMMARY:" + title)[0] == 'S';
    assert description != [] ==> ("DESCRIPTION:" + description)[0] == 'D';
    assert location != [] ==> ("LOCATION:" + location)[0] == 'L';
    forall k | 0 <= k < |p|
      ensures |p[k]| > 0 && p[k][0] != 'B' && p[k][0] != 'E'
    {
    }
  }

  /** A VEVENT whose properties hold no marker counts one `BEGIN:VEVENT` and one `END:VEVENT`. */
  lemma {:induction false} FramedCount(p: seq<string>)
    requires "BEGIN:VEVENT" !in p && "END:VEVENT" !in p
    ensures CountOf(["BEGIN:VEVENT"] + p + ["END:VEVENT"], "BEGIN:VEVENT") == 1
    ensures CountOf(["BEGIN:VEVENT"] + p + ["END:VEVENT"], "END:VEVENT") == 1
  {
    CountOfAbsent(p, "BEGIN:VEVENT");
    CountOfAbsent(p, "END:VEVENT");
    CountOfOne("BEGIN:VEVENT", "BEGIN:VEVENT");
    CountOfOne("BEGIN:VEVENT", "END:VEVENT");
    CountOfOne("END:VEVENT", "BEGIN:VEVENT");
    CountOfOne("END:VEVENT", "END:VEVENT");
    CountOfAppend(["BEGIN:VEVENT"], p, "BEGIN:VEVENT");
    CountOfAppend(["BEGIN:VEVENT"] + p, ["END:VEVENT"], "BEGIN:VEVENT");
    CountOfAppend(["BEGIN:VEVENT"], p, "END:VEVENT");
    CountOfAppend(["BEGIN:VEVENT"] + p, ["END:VEVENT"], "END:VEVENT");
  }

  /** An event's lines hold `BEGIN:VEVENT` once and `END:VEVENT` once. */
  lemma {:induction false} EventLinesCount(e: Event, stamp: string, random: string)
    ensures CountOf(EventLines(e, stamp, random), "BEGIN:VEVENT") == 1
    ensures CountOf(EventLines(e, stamp, random), "END:VEVENT") == 1
  {
    var dates := DateLines(e);
    DateLinesShape(e.hasTime, FormatICSDate(e.startDate, e.hasTime), FormatICSDate(e.endDate, e.hasTime));
    PropertyLinesAvoidMarkers(Uid(stamp, random), stamp, dates, e.title, e.description, e.location);
    FramedCount(EventProperties(e, stamp, random));
  }

  lemma {:induction false} EventsLinesCount(events: seq<Event>, stamp: string, randoms: seq<string>)
    requires |randoms| == |events|
    ensures CountOf(EventsLines(events, stamp, randoms), "BEGIN:VEVENT") == |events|
    ensures CountOf(EventsLines(events, stamp, randoms), "END:VEVENT") == |events|
    decreases |events|
  {
    if events != [] {
      var n := |events| - 1;
      EventsLinesCount(events[..n], stamp, randoms[..n]);
      EventLinesCount(events[n], stamp, randoms[n]);
      var a := EventsLines(events[..n], stamp, randoms[..n]);
      var b := EventLines(events[n], stamp, randoms[n]);
      CountOfAppend(a, b, "BEGIN:VEVENT");
      CountOfAppend(a, b, "END:VEVENT");
    }
  }

  /** The calendar's header and closing line hold no VEVENT marker. */
  lemma {:induction false} CalendarFrameCount(body: seq<string>, x: string)
    requires x == "BEGIN:VEVENT" || x == "END:VEVENT"
    ensures CountOf(IcsHeader + body + ["END:VCALENDAR"], x) == CountOf(body, x)
  {
    assert x !in IcsHeader by {
      assert IcsHeader[0][6] == 'V' && IcsHeader[1][0] == 'V' && IcsHeader[2][0] == 'P';
    }
    assert "END:VCALENDAR"[5] == 'C';
    CountOfAbsent(IcsHeader, x);
    CountOfOne("END:VCALENDAR", x);
    CountOfAppend(IcsHeader, body, x);
    CountOfAppend(IcsHeader + body, ["END:VCALENDAR"], x);
  }

  /** The file holds one VEVENT per event: as many `BEGIN:VEVENT` and `END:VEVENT` lines as events. */
  lemma {:induction false} VEventCount(events: seq<Event>, stamp: string, randoms: seq<string>)
    requires |randoms| == |events|
    ensures CountOf(IcsLines(events, stamp, randoms), "BEGIN:VEVENT") == |events|
    ensures CountOf(IcsLines(events, stamp, randoms), "END:VEVENT") == |events|
  {
    EventsLinesCount(events, stamp, randoms);
    CalendarFrameCount(EventsLines(events, stamp, randoms), "BEGIN:VEVENT");
    CalendarFrameCount(EventsLines(events, stamp, randoms), "END:VEVENT");
  }

  /** DESCRIPTION and LOCATION lines appear exactly when those texts are non-empty. */
  lemma {:induction false} PropertyLinesOptional(uid: string, stamp: string, dates: seq<string>, title: string,
                                                 description: string, location: string)
    requires |dates| == 2 && DateLineShape(dates[0]) && DateLineShape(dates[1])
    ensures var p := PropertyLines(uid, stamp, dates, title, description, location);
      (("DESCRIPTION:" + description) in p <==> description != []) &&
      (("LOCATION:" + location) in p <==> location != [])
  {
    var desc := "DESCRIPTION:" + description;
    var loc := "LOCATION:" + location;
    assert ("UID:" + uid)[1] == 'I' && ("DTSTAMP:" + stamp)[1] == 'T';
    assert ("SUMMARY:" + title)[0] == 'S';
    assert desc[0] == 'D' && desc[1] == 'E';
    assert loc[0] == 'L';
    assert loc != desc;
  }

  /** An event's DESCRIPTION and LOCATION lines appear exactly when its texts are non-empty. */
  lemma {:induction false} EventPropertiesOptional(e: Event, stamp: string, random: string)
    ensures ("DESCRIPTION:" + e.description) in EventProperties(e, stamp, random) <==> e.description != []
    ensures ("LOCATION:" + e.location) in EventProperties(e, stamp, random) <==> e.location != []
  {
    DateLinesShape(e.hasTime, FormatICSDate(e.startDate, e.hasTime), FormatICSDate(e.endDate, e.hasTime));
    PropertyLinesOptional(Uid(stamp, random), stamp, DateLines(e), e.title, e.description, e.location);
  }

  // ---------------------------------------------------------------------------
  // Payload for the reminder store

  /** One entry of `buildReminderPayload`: dates as ISO text. */
  function ReminderPayload(env: Reminders.DateEnv, e: Event): Reminders.EventInput {
    Reminders.EventObject(Some(e.title), Some(env.iso(e.startDate)), Some(env.iso(e.endDate)),
                          Some(e.description), Some(e.location), e.hasTime)
  }

  /** `buildReminderPayload`. */
  function BuildReminderPayload(env: Reminders.DateEnv, events: seq<Event>): (r: seq<Reminders.EventInput>)
    ensures |r| == |events|
  {
    seq(|events|, k requires 0 <= k < |events| => ReminderPayload(env, events[k]))
  }

  /** A trimmed, non-empty title passes through the reminder store's `trim` unchanged. */
  lemma {:induction false} PayloadOfEvent(env: Reminders.DateEnv, nowIso: string, e: Event)
    requires e.title != [] && IsTrimmed(e.title)
    requires env.iso(e.startDate) != []
    ensures var r := Reminders.BuildReminderFromEvent(env, nowIso, ReminderPayload(env, e));
      r.Some? && r.value.title == e.title && r.value.description == e.description &&
      r.value.location == e.location && r.value.hasTime == e.hasTime &&
      r.value.startAt == env.iso(e.startDate) && r.value.endAt == env.iso(e.endDate)
  {
    TrimOfTrimmed(e.title);
  }

  /**
   * An event built from a CSV row becomes a reminder (given that the ISO text of
   * its start is not empty) with the same title, description, location and
   * `hasTime`, and the ISO texts of its dates.
   */
  lemma {:induction false} PayloadBecomesReminder(env: Reminders.DateEnv, nowIso: string, row: seq<string>, cols: HeaderMap)
    requires BuildEvent(env, row, cols).Some?
    requires env.iso(BuildEvent(env, row, cols).value.startDate) != []
    ensures var e := BuildEvent(env, row, cols).value;
      var r := Reminders.BuildReminderFromEvent(env, nowIso, ReminderPayload(env, e));
      r.Some? && r.value.title == e.title && r.value.description == e.description &&
      r.value.location == e.location && r.value.hasTime == e.hasTime &&
      r.value.startAt == env.iso(e.startDate) && r.value.endAt == env.iso(e.endDate)
  {
    BuildEventSpec(env, row, cols);
    PayloadOfEvent(env, nowIso, BuildEvent(env, row, cols).value);
  }
}
