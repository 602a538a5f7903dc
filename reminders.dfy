/**
 * The background reminder service of the extension: a persisted list of
 * reminder records under one storage key, and a registry of named one-shot
 * alarms `zen-reminder-<id>` that fire a notification three days before an
 * event.
 *
 * The browser's storage, alarm and notification services are the fields of
 * `ReminderService`; `Date.now()` is the `now` parameter, `new Date().toISOString()`
 * the `nowIso` parameter, and the browser's date-string parser and ISO
 * formatter are the two functions of `DateEnv`.
 */
module Reminders {
  import opened Wrappers
  import opened Text
  import Calendar

  const AlarmPrefix: string := "zen-reminder-"
  const ReminderDaysBefore: int := 3
  const DefaultReminderHour: int := 9
  const DefaultTitle: string := "予定"
  const NotificationTitle: string := "リマインダー"

  /** `new Date(text).getTime()` (None for an invalid date) and `Date.prototype.toISOString`. */
  datatype DateEnv = DateEnv(parse: string -> Option<int>, iso: int -> string)

  // ---------------------------------------------------------------------------
  // 32-bit arithmetic of the id hash (sections 7.1.6, 7.1.7 and 21.3.2.19 of ECMA-262)

  const Two32: int := 0x1_0000_0000
  const Two31: int := 0x8000_0000

  /** ToUint32. */
  function ToUint32(x: int): (r: int)
    ensures 0 <= r < Two32 && (x - r) % Two32 == 0
  {
    x % Two32
  }

  /** ToInt32, which is also what `x | 0` computes. */
  function ToInt32(x: int): (r: int)
    ensures -Two31 <= r < Two31 && (x - r) % Two32 == 0
  {
    var u := ToUint32(x);
    if u >= Two31 then u - Two32 else u
  }

  /** Factors congruent mod 2^32 give products congruent mod 2^32. */
  lemma {:induction false} ProductCongruent(x: int, y: int, ux: int, uy: int)
    requires (x - ux) % Two32 == 0 && (y - uy) % Two32 == 0
    ensures (x * y - ux * uy) % Two32 == 0
  {
    var a := (x - ux) / Two32;
    var b := (y - uy) / Two32;
    assert x == ux + a * Two32;
    assert y == uy + b * Two32;
    var q := ux * b + a * uy + a * b * Two32;
    assert x * y - ux * uy == q * Two32;
  }

  /** Reducing p mod 2^32, and then reading it as signed, keeps it congruent to anything p is congruent to. */
  lemma {:induction false} ReducedCongruent(xy: int, p: int, r: int)
    requires (xy - p) % Two32 == 0
    requires r == p % Two32 || r == p % Two32 - Two32
    ensures (xy - r) % Two32 == 0
  {
    var a := (xy - p) / Two32;
    assert xy - p == a * Two32;
    assert p == (p / Two32) * Two32 + p % Two32;
    if r == p % Two32 {
      assert xy - r == (a + p / Two32) * Two32;
    } else {
      assert xy - r == (a + p / Two32 + 1) * Two32;
    }
  }

  /** `Math.imul(x, y)`: the low 32 bits of the product, read as a signed integer. */
  function Imul(x: int, y: int): (r: int)
    ensures -Two31 <= r < Two31
    ensures (x * y - r) % Two32 == 0
  {
    var ux := ToUint32(x);
    var uy := ToUint32(y);
    var p := ux * uy;
    var product := p % Two32;
    var r := if product >= Two31 then product - Two32 else product;
    ProductCongruent(x, y, ux, uy);
    ReducedCongruent(x * y, p, r);
    r
  }

  /** One step of the hash loop: `hash = Math.imul(31, hash) + code; hash |= 0`. */
  function HashStep(hash: int, code: int): (r: int)
    ensures -Two31 <= r < Two31
  {
    ToInt32(Imul(31, hash) + code)
  }

  /** The hash of a sequence of UTF-16 code units, folded from the left starting at 0. */
  function HashFold(units: seq<int>): (r: int)
    ensures -Two31 <= r < Two31
  {
    if units == [] then 0 else HashStep(HashFold(units[..|units| - 1]), units[|units| - 1])
  }

  function Abs(x: int): nat {
    if x < 0 then -x else x
  }

  /** The number in an id: `Math.abs` of the 32-bit hash. */
  function HashNumber(value: string): (n: nat)
    ensures n <= Two31
  {
    Abs(HashFold(CodeUnits(value)))
  }

  /** `hashString(value)` as a value: `rem-` and the decimal hash number. */
  function HashId(value: string): string {
    "rem-" + NatToString(HashNumber(value))
  }

  lemma {:induction false} HashFoldSnoc(units: seq<int>, i: nat)
    requires i < |units|
    ensures HashFold(units[..i + 1]) == HashStep(HashFold(units[..i]), units[i])
  {
    assert units[..i + 1][..i] == units[..i];
  }

  /** `hashString`: the loop over `value.charCodeAt(i)`. */
  method HashString(value: string) returns (id: string)
    ensures id == HashId(value)
  {
    var units := CodeUnits(value);
    var hash := 0;
    var i := 0;
    while i < |units|
      invariant 0 <= i <= |units|
      invariant hash == HashFold(units[..i])
    {
      HashFoldSnoc(units, i);
      hash := Imul(31, hash) + units[i];
      hash := ToInt32(hash);
      i := i + 1;
    }
    assert units[..i] == units;
    id := "rem-" + NatToString(Abs(hash));
  }

  /** Ids are `rem-` followed by the decimal digits of a number in 0..2^31. */
  lemma {:induction false} HashIdShape(value: string)
    ensures var id := HashId(value);
      |id| > 4 && id[..4] == "rem-" && AllDigits(id[4..]) &&
      DigitsValue(id[4..]) <= Two31
  {
    var n := HashNumber(value);
    var id := HashId(value);
    assert id[4..] == NatToString(n);
    NatToStringRoundTrip(n);
  }

  // ---------------------------------------------------------------------------
  // Dates

  /** `parseDate`: an empty value is no date; otherwise the browser's parser decides. */
  function ParseDate(env: DateEnv, value: string): (r: Option<int>)
    ensures value == [] ==> r == None
  {
    if value == [] then None else env.parse(value)
  }

  /** `parseDate` of a field that may be `null`. */
  function ParseDateField(env: DateEnv, value: Option<string>): (r: Option<int>)
    ensures value == None ==> r == None
  {
    match value
    case None => None
    case Some(v) => ParseDate(env, v)
  }

  /** `computeReminderAt`: three calendar days before the start, at 09:00 when there is no time. */
  function ComputeReminderAt(env: DateEnv, startAt: string, hasTime: bool): (r: Option<int>)
    ensures r == None <==> ParseDate(env, startAt) == None
  {
    match ParseDate(env, startAt)
    case None => None
    case Some(t) => Some(ReminderFromStart(t, hasTime))
  }

  /** The reminder time for a start that parsed to `t`: `setDate(getDate() - 3)`, then `setHours(9, 0, 0, 0)` without a time. */
  function ReminderFromStart(t: int, hasTime: bool): int {
    var earlier := Calendar.SetDate(t, Calendar.DateOf(t) - ReminderDaysBefore);
    if hasTime then earlier
    else Calendar.SetHours(earlier, DefaultReminderHour, 0, 0, 0)
  }

  /** With a time, the reminder is exactly three days (of 24 hours, local time being UTC) before the start. */
  lemma {:induction false} ReminderAtTimed(env: DateEnv, startAt: string, t: int)
    requires ParseDate(env, startAt) == Some(t)
    ensures ComputeReminderAt(env, startAt, true) == Some(t - ReminderDaysBefore * Calendar.MsPerDay)
  {
    assert ReminderFromStart(t, true) == Calendar.SetDate(t, Calendar.DateOf(t) - ReminderDaysBefore);
    EarlierIsThreeDays(t);
  }

  /** Without a time, the reminder is at 09:00:00.000 on the day three days before the start. */
  lemma {:induction false} ReminderAtDateOnly(env: DateEnv, startAt: string, t: int)
    requires ParseDate(env, startAt) == Some(t)
    ensures ComputeReminderAt(env, startAt, false).Some?
    ensures AtHourOnDay(ComputeReminderAt(env, startAt, false).value, Calendar.Day(t) - ReminderDaysBefore, DefaultReminderHour)
  {
    assert ComputeReminderAt(env, startAt, false) == Some(ReminderFromStart(t, false));
    DateOnlyAtNine(t);
  }

  lemma {:induction false} EarlierIsThreeDays(t: int)
    ensures Calendar.SetDate(t, Calendar.DateOf(t) - ReminderDaysBefore) == t - ReminderDaysBefore * Calendar.MsPerDay
  {
    Calendar.SetDateShift(t, -ReminderDaysBefore);
  }

  /** The time is `h` o'clock sharp on day number `day`. */
  predicate AtHourOnDay(r: int, day: int, h: int) {
    Calendar.Day(r) == day && Calendar.HourOf(r) == h && Calendar.MinuteOf(r) == 0 &&
    Calendar.SecondOf(r) == 0 && Calendar.MsOf(r) == 0
  }

  lemma {:induction false} DateOnlyAtNine(t: int)
    ensures AtHourOnDay(ReminderFromStart(t, false), Calendar.Day(t) - ReminderDaysBefore, DefaultReminderHour)
  {
    EarlierIsThreeDays(t);
    var earlier := t - ReminderDaysBefore * Calendar.MsPerDay;
    Calendar.DayShift(t, -ReminderDaysBefore);
    Calendar.SetHoursFields(earlier, DefaultReminderHour);
  }

  /** `formatDateText`: `M/D`, or `M/D HH:MM` with a time, or empty for no date. */
  function FormatDateText(env: DateEnv, value: string, hasTime: bool): (r: string)
    ensures ParseDate(env, value) == None <==> r == []
  {
    match ParseDate(env, value)
    case None => ""
    case Some(t) =>
      var md := NatToString(Calendar.MonthOf(t) + 1) + "/" + NatToString(Calendar.DateOf(t));
      if !hasTime then md
      else
        md + " " + PadStart(NatToString(Calendar.HourOf(t)), 2, '0') + ":" +
        PadStart(NatToString(Calendar.MinuteOf(t)), 2, '0')
  }

  /**
   * The shape of a due text: the month/day text `md`; with a time, then a
   * space and the hour and minute as two digits each around `:`.
   */
  predicate DueTextShape(r: string, md: string, h: nat, m: nat, hasTime: bool) {
    (!hasTime ==> r == md) &&
    (hasTime ==>
      |r| == |md| + 6 && r[..|md|] == md && r[|md|] == ' ' && r[|md| + 3] == ':' &&
      AllDigits(r[|md| + 1..|md| + 3]) && DigitsValue(r[|md| + 1..|md| + 3]) == h &&
      AllDigits(r[|md| + 4..]) && DigitsValue(r[|md| + 4..]) == m)
  }

  /**
   * When the start parses, the text is its month (counted from 1), `/` and
   * its day, followed with a time by its hour and minute.
   */
  lemma {:induction false} FormatDateTextSpec(env: DateEnv, value: string, hasTime: bool)
    requires ParseDate(env, value).Some?
    ensures var t := ParseDate(env, value).value;
      var md := NatToString(Calendar.MonthOf(t) + 1) + "/" + NatToString(Calendar.DateOf(t));
      DueTextShape(FormatDateText(env, value, hasTime), md, Calendar.HourOf(t), Calendar.MinuteOf(t), hasTime)
  {
    var t := ParseDate(env, value).value;
    var md := NatToString(Calendar.MonthOf(t) + 1) + "/" + NatToString(Calendar.DateOf(t));
    DueTextAt(FormatDateText(env, value, hasTime), hasTime, md, Calendar.HourOf(t), Calendar.MinuteOf(t));
  }

  lemma {:induction false} DueTextAt(r: string, hasTime: bool, md: string, h: nat, m: nat)
    requires h < 100 && m < 100
    requires r == if hasTime then md + " " + PadStart(NatToString(h), 2, '0') + ":" + PadStart(NatToString(m), 2, '0') else md
    ensures DueTextShape(r, md, h, m, hasTime)
  {
    if hasTime {
      var hh, mm := PadStart(NatToString(h), 2, '0'), PadStart(NatToString(m), 2, '0');
      PaddedWidth2(h);
      PaddedWidth2(m);
      PaddedRoundTrip(h, 2);
      PaddedRoundTrip(m, 2);
      ClockShape(r, md, hh, mm, h, m);
    }
  }

  lemma {:induction false} ClockShape(r: string, md: string, hh: string, mm: string, h: nat, m: nat)
    requires r == md + " " + hh + ":" + mm && |hh| == 2 && |mm| == 2
    requires AllDigits(hh) && DigitsValue(hh) == h && AllDigits(mm) && DigitsValue(mm) == m
    ensures DueTextShape(r, md, h, m, true)
  {
    DueClockSlices(r, md, hh, mm);
  }

  lemma {:induction false} DueClockSlices(r: string, md: string, hh: string, mm: string)
    requires r == md + " " + hh + ":" + mm && |hh| == 2 && |mm| == 2
    ensures |r| == |md| + 6 && r[..|md|] == md && r[|md|] == ' ' && r[|md| + 3] == ':' &&
      r[|md| + 1..|md| + 3] == hh && r[|md| + 4..] == mm
  {
    assert r[..|md|] == md;
    assert r[|md| + 1..|md| + 3] == hh;
    assert r[|md| + 4..] == mm;
  }

  // ---------------------------------------------------------------------------
  // Records

  datatype Reminder = Reminder(
    id: string,
    title: string,
    description: string,
    location: string,
    startAt: string,
    endAt: string,
    hasTime: bool,
    reminderAt: Option<string>,
    createdAt: string,
    updatedAt: string,
    completed: bool,
    completedAt: Option<string>,
    notified: bool,
    notifiedAt: Option<string>,
    source: string)

  /**
   * An event handed to `addReminders`: either something that is not an object,
   * or an object whose string fields are `None` when the property is missing or
   * not a string; `hasTime` is the property's truthiness.
   */
  datatype EventInput =
    | NotAnObject
    | EventObject(title: Option<string>, startAt: Option<string>, endAt: Option<string>,
                  description: Option<string>, location: Option<string>, hasTime: bool)

  /** A string property, or '' when it is missing or not a string. */
  function StringOr(v: Option<string>): string {
    v.GetOr("")
  }

  /** The text the id is hashed from: trimmed title, start and end joined by `|`. */
  function IdSource(title: string, startAt: string, endAt: string): string {
    Trim(title) + "|" + startAt + "|" + endAt
  }

  /** `buildReminderFromEvent`. */
  function BuildReminderFromEvent(env: DateEnv, nowIso: string, e: EventInput): (r: Option<Reminder>)
    ensures r == None <==> e.NotAnObject? || StringOr(e.startAt) == []
    ensures r.Some? ==>
      var v := r.value;
      v.id == HashId(IdSource(StringOr(e.title), v.startAt, v.endAt)) &&
      v.startAt == StringOr(e.startAt) && v.endAt == StringOr(e.endAt) &&
      v.hasTime == e.hasTime && v.title != [] &&
      v.description == StringOr(e.description) && v.location == StringOr(e.location) &&
      !v.completed && v.completedAt == None && !v.notified && v.notifiedAt == None &&
      v.createdAt == nowIso && v.updatedAt == nowIso && v.source == "chatgpt"
  {
    match e
    case NotAnObject => None
    case EventObject(_, _, _, _, _, _) =>
      var title := Trim(StringOr(e.title));
      var startAt := StringOr(e.startAt);
      var endAt := StringOr(e.endAt);
      if startAt == [] then None
      else
        var reminderAt := ComputeReminderAt(env, startAt, e.hasTime);
        Some(Reminder(
          id := HashId(title + "|" + startAt + "|" + endAt),
          title := if title == [] then DefaultTitle else title,
          description := StringOr(e.description),
          location := StringOr(e.location),
          startAt := startAt,
          endAt := endAt,
          hasTime := e.hasTime,
          reminderAt := if reminderAt.Some? then Some(env.iso(reminderAt.value)) else None,
          createdAt := nowIso,
          updatedAt := nowIso,
          completed := false,
          completedAt := None,
          notified := false,
          notifiedAt := None,
          source := "chatgpt"))
  }

  /** The title is the trimmed title, or '予定' when that is empty. */
  lemma {:induction false} BuildTitle(env: DateEnv, nowIso: string, e: EventInput)
    requires BuildReminderFromEvent(env, nowIso, e).Some?
    ensures var t := Trim(StringOr(e.title));
      BuildReminderFromEvent(env, nowIso, e).value.title == if t == [] then DefaultTitle else t
  {
  }

  /** The reminder time is the ISO text of `ComputeReminderAt`, or null when the start does not parse. */
  lemma {:induction false} BuildReminderAt(env: DateEnv, nowIso: string, e: EventInput)
    requires BuildReminderFromEvent(env, nowIso, e).Some?
    ensures var r := BuildReminderFromEvent(env, nowIso, e).value;
      (r.reminderAt == None <==> ParseDate(env, r.startAt) == None) &&
      (r.reminderAt.Some? ==>
        r.reminderAt.value == env.iso(ComputeReminderAt(env, r.startAt, r.hasTime).value))
  {
  }

  /** Description, location, `hasTime`, the title's surrounding blanks and the clock never change the id. */
  lemma {:induction false} IdDependsOnlyOnTitleStartEnd(env: DateEnv, iso1: string, iso2: string, e1: EventInput, e2: EventInput)
    requires e1.EventObject? && e2.EventObject?
    requires Trim(StringOr(e1.title)) == Trim(StringOr(e2.title))
    requires StringOr(e1.startAt) == StringOr(e2.startAt) && StringOr(e1.endAt) == StringOr(e2.endAt)
    requires StringOr(e1.startAt) != []
    ensures BuildReminderFromEvent(env, iso1, e1).value.id == BuildReminderFromEvent(env, iso2, e2).value.id
  {
    var r1 := BuildReminderFromEvent(env, iso1, e1).value;
    var r2 := BuildReminderFromEvent(env, iso2, e2).value;
    assert IdSource(StringOr(e1.title), r1.startAt, r1.endAt) == IdSource(StringOr(e2.title), r2.startAt, r2.endAt);
  }

  // ---------------------------------------------------------------------------
  // Alarms

  function AlarmName(id: string): (n: string)
    ensures StartsWith(n, AlarmPrefix) && n[|AlarmPrefix|..] == id
  {
    AlarmPrefix + id
  }

  lemma {:induction false} AlarmNameInjective(a: string, b: string)
    requires AlarmName(a) == AlarmName(b)
    ensures a == b
  {
    assert AlarmName(a)[|AlarmPrefix|..] == a;
  }

  /**
   * The rule of `scheduleAlarmForReminder`: an alarm is due only for a record
   * neither completed nor notified whose reminder time parses to a time that is
   * not 0 (`!when`) and is later than now.
   */
  function AlarmTime(env: DateEnv, r: Reminder, now: int): (w: Option<int>)
    ensures w.Some? <==>
      !r.completed && !r.notified && ParseDateField(env, r.reminderAt).Some? &&
      ParseDateField(env, r.reminderAt).value != 0 && ParseDateField(env, r.reminderAt).value > now
    ensures w.Some? ==> w == ParseDateField(env, r.reminderAt)
  {
    if r.completed || r.notified then None
    else
      match ParseDateField(env, r.reminderAt)
      case None => None
      case Some(when) => if when == 0 || when <= now then None else Some(when)
  }

  /** The registry after `scheduleAlarmForReminder(r)`. */
  function ScheduleOn(env: DateEnv, alarms: map<string, int>, r: Reminder, now: int): (a: map<string, int>)
    ensures a.Keys == alarms.Keys + (if AlarmTime(env, r, now).Some? then {AlarmName(r.id)} else {})
    ensures forall n :: n in alarms && n != AlarmName(r.id) ==> a[n] == alarms[n]
    ensures AlarmTime(env, r, now).Some? ==> a[AlarmName(r.id)] == AlarmTime(env, r, now).value
    ensures AlarmTime(env, r, now).None? ==> a == alarms
  {
    match AlarmTime(env, r, now)
    case None => alarms
    case Some(w) => alarms[AlarmName(r.id) := w]
  }

  /** The registry after scheduling every record of `rs` in order. */
  function ScheduleAll(env: DateEnv, alarms: map<string, int>, rs: seq<Reminder>, now: int): map<string, int>
  {
    if rs == [] then alarms
    else ScheduleOn(env, ScheduleAll(env, alarms, rs[..|rs| - 1], now), rs[|rs| - 1], now)
  }

  /** The set of alarm names of a list of records. */
  function NameSet(rs: seq<Reminder>): set<string> {
    set k | 0 <= k < |rs| :: AlarmName(rs[k].id)
  }

  predicate IsReminderAlarm(name: string) {
    StartsWith(name, AlarmPrefix)
  }

  /** The first loop of `syncAlarmsWithReminders`: stale prefixed alarms are cleared. */
  function Prune(alarms: map<string, int>, keep: set<string>): (a: map<string, int>)
    ensures forall n :: n in a <==> n in alarms && (!IsReminderAlarm(n) || n in keep)
    ensures forall n :: n in a ==> a[n] == alarms[n]
  {
    map n | n in alarms && (!IsReminderAlarm(n) || n in keep) :: alarms[n]
  }

  /** Scheduling only adds alarms named after the records, and never removes one. */
  lemma {:induction false} ScheduleAllKeys(env: DateEnv, alarms: map<string, int>, rs: seq<Reminder>, now: int)
    ensures alarms.Keys <= ScheduleAll(env, alarms, rs, now).Keys <= alarms.Keys + NameSet(rs)
    ensures forall n :: n in alarms && n !in NameSet(rs) ==> ScheduleAll(env, alarms, rs, now)[n] == alarms[n]
  {
    if rs != [] {
      var init := rs[..|rs| - 1];
      ScheduleAllKeys(env, alarms, init, now);
      assert NameSet(init) <= NameSet(rs) by {
        forall n | n in NameSet(init) ensures n in NameSet(rs) {
          var k :| 0 <= k < |init| && n == AlarmName(init[k].id);
          assert rs[k] == init[k];
        }
      }
      assert AlarmName(rs[|rs| - 1].id) in NameSet(rs);
    }
  }

  /** A record found schedulable gets its alarm, at its own time when ids are unique. */
  lemma {:induction false} ScheduleAllHas(env: DateEnv, alarms: map<string, int>, rs: seq<Reminder>, now: int, k: nat)
    requires k < |rs| && AlarmTime(env, rs[k], now).Some?
    ensures AlarmName(rs[k].id) in ScheduleAll(env, alarms, rs, now)
    ensures UniqueIds(rs) ==>
      ScheduleAll(env, alarms, rs, now)[AlarmName(rs[k].id)] == AlarmTime(env, rs[k], now).value
  {
    var last := |rs| - 1;
    var init := rs[..last];
    if k < last {
      ScheduleAllHas(env, alarms, init, now, k);
      assert init[k] == rs[k];
      if UniqueIds(rs) {
        assert rs[k].id != rs[last].id;
        if AlarmName(rs[k].id) == AlarmName(rs[last].id) {
          AlarmNameInjective(rs[k].id, rs[last].id);
        }
        assert UniqueIds(init) by {
          forall i, j | 0 <= i < j < |init| ensures init[i].id != init[j].id {
            assert init[i] == rs[i] && init[j] == rs[j];
          }
        }
      }
    }
  }

  /** No two records share an id. */
  predicate UniqueIds(rs: seq<Reminder>) {
    forall i, j :: 0 <= i < j < |rs| ==> rs[i].id != rs[j].id
  }

  /** The registry after `syncAlarmsWithReminders(rs)`. */
  function Synced(env: DateEnv, alarms: map<string, int>, rs: seq<Reminder>, now: int): map<string, int> {
    ScheduleAll(env, Prune(alarms, NameSet(rs)), rs, now)
  }

  /**
   * After a re-sync no reminder alarm remains for an id absent from the list,
   * every other alarm is untouched, and every schedulable record has its alarm.
   */
  lemma {:induction false} SyncedSpec(env: DateEnv, alarms: map<string, int>, rs: seq<Reminder>, now: int)
    ensures forall n :: n in Synced(env, alarms, rs, now) && IsReminderAlarm(n) ==> n in NameSet(rs)
    ensures forall n :: !IsReminderAlarm(n) ==>
      (n in Synced(env, alarms, rs, now) <==> n in alarms) &&
      (n in alarms ==> Synced(env, alarms, rs, now)[n] == alarms[n])
    ensures forall k :: 0 <= k < |rs| && AlarmTime(env, rs[k], now).Some? ==>
      AlarmName(rs[k].id) in Synced(env, alarms, rs, now)
  {
    var pruned := Prune(alarms, NameSet(rs));
    ScheduleAllKeys(env, pruned, rs, now);
    forall n | !IsReminderAlarm(n) ensures n !in NameSet(rs) {
    }
    forall k | 0 <= k < |rs| && AlarmTime(env, rs[k], now).Some?
      ensures AlarmName(rs[k].id) in Synced(env, alarms, rs, now)
    {
      ScheduleAllHas(env, pruned, rs, now, k);
    }
  }

  /**
   * Re-sync keeps the existing alarm of every stored record, completed and
   * notified ones included: the set of names it keeps holds all stored ids.
   */
  lemma {:induction false} SyncKeepsAlarmOfStoredRecord(env: DateEnv, alarms: map<string, int>, rs: seq<Reminder>, now: int, k: nat)
    requires k < |rs| && AlarmName(rs[k].id) in alarms
    ensures AlarmName(rs[k].id) in Synced(env, alarms, rs, now)
  {
    assert AlarmName(rs[k].id) in NameSet(rs);
    ScheduleAllKeys(env, Prune(alarms, NameSet(rs)), rs, now);
  }

  /** So a completed record keeps an alarm left over from before it was completed. */
  lemma {:induction false} SyncKeepsCompletedAlarm(env: DateEnv, now: int)
    ensures var r := Reminder("rem-1", "t", "", "", "2025-06-15", "", false, None, "", "", true, None, false, None, "chatgpt");
      AlarmName("rem-1") in Synced(env, map[AlarmName("rem-1") := 5], [r], now)
  {
    var r := Reminder("rem-1", "t", "", "", "2025-06-15", "", false, None, "", "", true, None, false, None, "chatgpt");
    SyncKeepsAlarmOfStoredRecord(env, map[AlarmName("rem-1") := 5], [r], now, 0);
  }

  // ---------------------------------------------------------------------------
  // Batch add

  /** The ids occurring in a list of records. */
  function IdSet(rs: seq<Reminder>): set<string> {
    set k | 0 <= k < |rs| :: rs[k].id
  }

  /**
   * The records `addReminders` appends: each event that builds a record whose
   * id is not yet seen, in input order, adding its id to the seen set.
   */
  function Additions(env: DateEnv, nowIso: string, events: seq<EventInput>, seen: set<string>): (r: seq<Reminder>)
    ensures |r| <= |events|
    decreases |events|
  {
    if events == [] then []
    else
      match BuildReminderFromEvent(env, nowIso, events[0])
      case None => Additions(env, nowIso, events[1..], seen)
      case Some(r) =>
        if r.id in seen then Additions(env, nowIso, events[1..], seen)
        else [r] + Additions(env, nowIso, events[1..], seen + {r.id})
  }

  /** One step of the fold, at position i. */
  lemma {:induction false} AdditionsStep(env: DateEnv, nowIso: string, events: seq<EventInput>, i: nat, seen: set<string>)
    requires i < |events|
    ensures var b := BuildReminderFromEvent(env, nowIso, events[i]);
      Additions(env, nowIso, events[i..], seen) ==
        if b.Some? && b.value.id !in seen then [b.value] + Additions(env, nowIso, events[i + 1..], seen + {b.value.id})
        else Additions(env, nowIso, events[i + 1..], seen)
  {
    assert events[i..][0] == events[i];
    assert events[i..][1..] == events[i + 1..];
  }

  /** The records built from a list of events, in order (no dedup). */
  function Built(env: DateEnv, nowIso: string, events: seq<EventInput>): seq<Reminder>
    decreases |events|
  {
    if events == [] then []
    else
      match BuildReminderFromEvent(env, nowIso, events[0])
      case None => Built(env, nowIso, events[1..])
      case Some(r) => [r] + Built(env, nowIso, events[1..])
  }

  /** `a` is `b` with some elements left out, the rest in the same order. */
  predicate IsSubsequence<T(==)>(a: seq<T>, b: seq<T>)
    decreases |b|
  {
    a == [] || (b != [] && ((a[0] == b[0] && IsSubsequence(a[1..], b[1..])) || IsSubsequence(a, b[1..])))
  }

  /** The additions are fresh, pairwise distinct, no more than the events, and in input order. */
  lemma {:induction false} AdditionsSpec(env: DateEnv, nowIso: string, events: seq<EventInput>, seen: set<string>)
    ensures var adds := Additions(env, nowIso, events, seen);
      |adds| <= |events| && UniqueIds(adds) && IdSet(adds) !! seen &&
      IsSubsequence(adds, Built(env, nowIso, events))
    decreases |events|
  {
    if events != [] {
      var rest := events[1..];
      match BuildReminderFromEvent(env, nowIso, events[0])
      case None =>
        AdditionsSpec(env, nowIso, rest, seen);
      case Some(r) =>
        if r.id in seen {
          AdditionsSpec(env, nowIso, rest, seen);
          var adds := Additions(env, nowIso, rest, seen);
          var b := Built(env, nowIso, events);
          assert b[1..] == Built(env, nowIso, rest);
          assert adds == [] || IsSubsequence(adds, b[1..]);
        } else {
          var seen' := seen + {r.id};
          AdditionsSpec(env, nowIso, rest, seen');
          var tail := Additions(env, nowIso, rest, seen');
          var adds := [r] + tail;
          assert adds[1..] == tail;
          forall i, j | 0 <= i < j < |adds| ensures adds[i].id != adds[j].id {
            if i == 0 {
              assert adds[j] == tail[j - 1];
              assert tail[j - 1].id in IdSet(tail);
            }
          }
          forall x | x in IdSet(adds) ensures x !in seen {
            var k :| 0 <= k < |adds| && x == adds[k].id;
            if k > 0 { assert adds[k] == tail[k - 1]; assert x in IdSet(tail); }
          }
          var b := Built(env, nowIso, events);
          assert b[0] == r && b[1..] == Built(env, nowIso, rest);
        }
    }
  }

  lemma {:induction false} IdSetCons(r: Reminder, tail: seq<Reminder>)
    ensures IdSet([r] + tail) == {r.id} + IdSet(tail)
  {
    var rs := [r] + tail;
    assert rs[0].id == r.id;
    forall x | x in IdSet(tail) ensures x in IdSet(rs) {
      var k :| 0 <= k < |tail| && x == tail[k].id;
      assert rs[k + 1] == tail[k];
    }
    forall x | x in IdSet(rs) ensures x in {r.id} + IdSet(tail) {
      var k :| 0 <= k < |rs| && x == rs[k].id;
      if k > 0 { assert rs[k] == tail[k - 1]; }
    }
  }

  /** Every record built from some event has its id in s. */
  predicate Covers(env: DateEnv, nowIso: string, events: seq<EventInput>, s: set<string>) {
    forall k :: 0 <= k < |events| && BuildReminderFromEvent(env, nowIso, events[k]).Some? ==>
      BuildReminderFromEvent(env, nowIso, events[k]).value.id in s
  }

  lemma {:induction false} CoversCons(env: DateEnv, nowIso: string, events: seq<EventInput>, s: set<string>, s': set<string>)
    requires events != [] && s' <= s && Covers(env, nowIso, events[1..], s')
    requires BuildReminderFromEvent(env, nowIso, events[0]).Some? ==> BuildReminderFromEvent(env, nowIso, events[0]).value.id in s
    ensures Covers(env, nowIso, events, s)
  {
    forall k | 1 <= k < |events| ensures events[k] == events[1..][k - 1] { }
  }

  /** Every event that builds a record ends up with its id seen: added now or seen before. */
  lemma {:induction false} AdditionsCover(env: DateEnv, nowIso: string, events: seq<EventInput>, seen: set<string>)
    ensures Covers(env, nowIso, events, seen + IdSet(Additions(env, nowIso, events, seen)))
    decreases |events|
  {
    if events != [] {
      var rest := events[1..];
      var all := seen + IdSet(Additions(env, nowIso, events, seen));
      match BuildReminderFromEvent(env, nowIso, events[0])
      case None =>
        AdditionsCover(env, nowIso, rest, seen);
        CoversCons(env, nowIso, events, all, all);
      case Some(r) =>
        if r.id in seen {
          AdditionsCover(env, nowIso, rest, seen);
          CoversCons(env, nowIso, events, all, all);
        } else {
          var seen' := seen + {r.id};
          AdditionsCover(env, nowIso, rest, seen');
          var tail := Additions(env, nowIso, rest, seen');
          IdSetCons(r, tail);
          assert all == seen' + IdSet(tail);
          CoversCons(env, nowIso, events, all, all);
        }
    }
  }

  /** When every buildable event's id is already seen, nothing is added. */
  lemma {:induction false} AdditionsNone(env: DateEnv, nowIso: string, events: seq<EventInput>, seen: set<string>)
    requires forall k :: 0 <= k < |events| && BuildReminderFromEvent(env, nowIso, events[k]).Some? ==>
      BuildReminderFromEvent(env, nowIso, events[k]).value.id in seen
    ensures Additions(env, nowIso, events, seen) == []
    decreases |events|
  {
    if events != [] {
      var rest := events[1..];
      forall k | 0 <= k < |rest| && BuildReminderFromEvent(env, nowIso, rest[k]).Some?
        ensures BuildReminderFromEvent(env, nowIso, rest[k]).value.id in seen
      {
        assert rest[k] == events[k + 1];
      }
      AdditionsNone(env, nowIso, rest, seen);
    }
  }

  /** The ids do not depend on the clock, so the records' ids are the same at any `nowIso`. */
  lemma {:induction false} BuildIdClockFree(env: DateEnv, iso1: string, iso2: string, e: EventInput)
    ensures BuildReminderFromEvent(env, iso1, e).Some? <==> BuildReminderFromEvent(env, iso2, e).Some?
    ensures BuildReminderFromEvent(env, iso1, e).Some? ==>
      BuildReminderFromEvent(env, iso1, e).value.id == BuildReminderFromEvent(env, iso2, e).value.id
  {
  }

  /** Adding the same batch a second time, at any later time, adds nothing. */
  lemma {:induction false} RepeatBatchAddsNothing(env: DateEnv, iso1: string, iso2: string, store: seq<Reminder>, events: seq<EventInput>)
    ensures var store' := store + Additions(env, iso1, events, IdSet(store));
      Additions(env, iso2, events, IdSet(store')) == []
  {
    var adds := Additions(env, iso1, events, IdSet(store));
    var store' := store + adds;
    AdditionsCover(env, iso1, events, IdSet(store));
    assert IdSet(store') == IdSet(store) + IdSet(adds) by {
      forall x | x in IdSet(store') ensures x in IdSet(store) + IdSet(adds) {
        var k :| 0 <= k < |store'| && x == store'[k].id;
        if k >= |store| { assert store'[k] == adds[k - |store|]; }
      }
      forall x | x in IdSet(store) + IdSet(adds) ensures x in IdSet(store') {
        if x in IdSet(store) {
          var k :| 0 <= k < |store| && x == store[k].id;
          assert store'[k] == store[k];
        } else {
          var k :| 0 <= k < |adds| && x == adds[k].id;
          assert store'[|store| + k] == adds[k];
        }
      }
    }
    forall k | 0 <= k < |events| && BuildReminderFromEvent(env, iso2, events[k]).Some?
      ensures BuildReminderFromEvent(env, iso2, events[k]).value.id in IdSet(store')
    {
      BuildIdClockFree(env, iso1, iso2, events[k]);
    }
    AdditionsNone(env, iso2, events, IdSet(store'));
  }

  /** A store with unique ids still has unique ids after the additions are appended. */
  lemma {:induction false} AddKeepsIdsUnique(env: DateEnv, nowIso: string, store: seq<Reminder>, events: seq<EventInput>)
    requires UniqueIds(store)
    ensures UniqueIds(store + Additions(env, nowIso, events, IdSet(store)))
  {
    var adds := Additions(env, nowIso, events, IdSet(store));
    AdditionsSpec(env, nowIso, events, IdSet(store));
    var all := store + adds;
    forall i, j | 0 <= i < j < |all| ensures all[i].id != all[j].id {
      if j >= |store| {
        assert all[j] == adds[j - |store|];
        if i < |store| {
          assert all[i].id in IdSet(store);
          assert adds[j - |store|].id in IdSet(adds);
        } else {
          assert all[i] == adds[i - |store|];
        }
      }
    }
  }

  /** The result of `addReminders`. */
  datatype AddResult = AddResult(ok: bool, addedCount: nat, skippedCount: nat)

  // ---------------------------------------------------------------------------
  // Completion and notification marks

  /** The `map` of `updateReminderCompletion`. */
  function MarkCompletion(store: seq<Reminder>, id: string, completed: bool, nowIso: string): (r: seq<Reminder>)
    ensures |r| == |store|
    ensures forall i :: 0 <= i < |store| && store[i].id != id ==> r[i] == store[i]
    ensures forall i :: 0 <= i < |store| && store[i].id == id ==>
      r[i].completed == completed && r[i].completedAt == (if completed then Some(nowIso) else None) &&
      r[i].updatedAt == nowIso &&
      r[i].(completed := store[i].completed, completedAt := store[i].completedAt, updatedAt := store[i].updatedAt) == store[i]
  {
    seq(|store|, i requires 0 <= i < |store| =>
      if store[i].id != id then store[i]
      else store[i].(completed := completed,
                     completedAt := if completed then Some(nowIso) else None,
                     updatedAt := nowIso))
  }

  /** The `map` of `markReminderNotified`. */
  function MarkNotifiedAll(store: seq<Reminder>, id: string, nowIso: string): (r: seq<Reminder>)
    ensures |r| == |store|
    ensures forall i :: 0 <= i < |store| && store[i].id != id ==> r[i] == store[i]
    ensures forall i :: 0 <= i < |store| && store[i].id == id ==>
      r[i].notified && r[i].notifiedAt == Some(nowIso) && r[i].updatedAt == nowIso &&
      r[i].(notified := store[i].notified, notifiedAt := store[i].notifiedAt, updatedAt := store[i].updatedAt) == store[i]
  {
    seq(|store|, i requires 0 <= i < |store| =>
      if store[i].id != id then store[i]
      else store[i].(notified := true, notifiedAt := Some(nowIso), updatedAt := nowIso))
  }

  /** The last record with the id, as `updateReminderCompletion` keeps it in `updatedReminder`. */
  function LastWithId(store: seq<Reminder>, id: string): (r: Option<Reminder>)
    ensures r.None? <==> id !in IdSet(store)
    ensures r.Some? ==> r.value.id == id
    ensures r.Some? ==>
      exists k :: 0 <= k < |store| && store[k] == r.value && forall j :: k < j < |store| ==> store[j].id != id
  {
    if store == [] then None
    else if store[|store| - 1].id == id then
      assert store[|store| - 1] == store[|store| - 1];
      Some(store[|store| - 1])
    else
      var r := LastWithId(store[..|store| - 1], id);
      IdSetSnoc(store);
      if r.Some? then
        LastWithIdLater(store, id, r.value);
        r
      else r
  }

  lemma {:induction false} IdSetSnoc(store: seq<Reminder>)
    requires store != []
    ensures IdSet(store[..|store| - 1]) + {store[|store| - 1].id} == IdSet(store)
  {
    var init := store[..|store| - 1];
    forall x | x in IdSet(store) ensures x in IdSet(init) + {store[|store| - 1].id} {
      var k :| 0 <= k < |store| && x == store[k].id;
      if k < |init| { assert init[k] == store[k]; }
    }
    forall x | x in IdSet(init) ensures x in IdSet(store) {
      var k :| 0 <= k < |init| && x == init[k].id;
      assert init[k] == store[k];
    }
  }

  /** A record with no later namesake before the last element keeps that property when the last element has another id. */
  lemma {:induction false} LastWithIdLater(store: seq<Reminder>, id: string, x: Reminder)
    requires store != [] && store[|store| - 1].id != id
    requires var init := store[..|store| - 1];
      exists k :: 0 <= k < |init| && init[k] == x && forall j :: k < j < |init| ==> init[j].id != id
    ensures exists k :: 0 <= k < |store| && store[k] == x && forall j :: k < j < |store| ==> store[j].id != id
  {
    var init := store[..|store| - 1];
    var k :| 0 <= k < |init| && init[k] == x && forall j :: k < j < |init| ==> init[j].id != id;
    assert store[k] == init[k];
    forall j | k < j < |store| ensures store[j].id != id {
      if j < |init| { assert store[j] == init[j]; }
    }
  }

  /** `reminders.find(item => item.id === id)`: the first record with the id. */
  function FindById(store: seq<Reminder>, id: string): (r: Option<Reminder>)
    ensures r.None? <==> id !in IdSet(store)
    ensures r.Some? ==> r.value.id == id
    ensures r.Some? ==>
      exists k :: 0 <= k < |store| && store[k] == r.value && forall j :: 0 <= j < k ==> store[j].id != id
  {
    if store == [] then None
    else if store[0].id == id then
      assert store[0] == store[0];
      Some(store[0])
    else
      var r := FindById(store[1..], id);
      assert [store[0]] + store[1..] == store;
      IdSetCons(store[0], store[1..]);
      if r.Some? then
        var k :| 0 <= k < |store[1..]| && store[1..][k] == r.value &&
          forall j :: 0 <= j < k ==> store[1..][j].id != id;
        assert store[k + 1] == r.value;
        assert forall j :: 0 <= j < k + 1 ==> store[j].id != id by {
          forall j | 0 <= j < k + 1 ensures store[j].id != id {
            if j > 0 { assert store[j] == store[1..][j - 1]; }
          }
        }
        r
      else r
  }

  /** Completion changes no id, so marking keeps the set of ids and their uniqueness. */
  lemma {:induction false} MarkCompletionKeepsIds(store: seq<Reminder>, id: string, completed: bool, nowIso: string)
    ensures var s := MarkCompletion(store, id, completed, nowIso);
      (forall k :: 0 <= k < |s| ==> s[k].id == store[k].id) && IdSet(s) == IdSet(store) &&
      (UniqueIds(store) ==> UniqueIds(s))
  {
    var s := MarkCompletion(store, id, completed, nowIso);
    assert forall k :: 0 <= k < |s| ==> s[k].id == store[k].id;
    assert IdSet(s) == IdSet(store) by {
      forall x | x in IdSet(store) ensures x in IdSet(s) {
        var k :| 0 <= k < |store| && x == store[k].id;
        assert s[k].id == x;
      }
    }
  }

  /** The updated record of a completion is never schedulable; an uncompleted one follows the rule. */
  lemma {:induction false} CompletedNotScheduled(env: DateEnv, r: Reminder, nowIso: string, now: int)
    ensures AlarmTime(env, r.(completed := true, completedAt := Some(nowIso), updatedAt := nowIso), now) == None
  {
  }

  /** The record the alarm handler notifies for, if any. */
  function FireTarget(store: seq<Reminder>, name: string): (r: Option<Reminder>)
    ensures r.Some? ==> (IsReminderAlarm(name) && !r.value.completed && !r.value.notified &&
      r.value.id == name[|AlarmPrefix|..] && r.value in store)
    ensures !IsReminderAlarm(name) ==> r == None
  {
    if !IsReminderAlarm(name) then None
    else
      match FindById(store, name[|AlarmPrefix|..])
      case None => None
      case Some(v) => if v.completed || v.notified then None else Some(v)
  }

  /** After the handler marks the record, the first record with that id is notified. */
  lemma {:induction false} FindAfterMark(store: seq<Reminder>, id: string, nowIso: string)
    requires id in IdSet(store)
    ensures FindById(MarkNotifiedAll(store, id, nowIso), id).Some?
    ensures FindById(MarkNotifiedAll(store, id, nowIso), id).value.notified
  {
    var s := MarkNotifiedAll(store, id, nowIso);
    var k :| 0 <= k < |store| && store[k].id == id;
    assert s[k].id == id;
    assert id in IdSet(s);
    var r := FindById(s, id);
    var j :| 0 <= j < |s| && s[j] == r.value;
    assert s[j].id == id;
  }

  /** A second firing of the same alarm after a notification notifies nothing. */
  lemma {:induction false} SecondFireIsNoop(store: seq<Reminder>, name: string, nowIso: string)
    requires FireTarget(store, name).Some?
    requires name != AlarmPrefix
    ensures FireTarget(MarkNotifiedAll(store, name[|AlarmPrefix|..], nowIso), name) == None
  {
    var id := name[|AlarmPrefix|..];
    var r := FireTarget(store, name).value;
    assert id in IdSet(store);
    FindAfterMark(store, id, nowIso);
  }

  /** A notification as `showReminderNotification` creates it. */
  datatype Notification = Notification(id: string, title: string, message: string)

  function NotificationFor(env: DateEnv, r: Reminder): (n: Notification)
    ensures n.id == AlarmName(r.id) && n.title == NotificationTitle
  {
    var dueText := FormatDateText(env, r.startAt, r.hasTime);
    var titleText := if r.title == [] then DefaultTitle else r.title;
    var message :=
      if dueText != [] then "「" + titleText + "」の期限が3日前です (" + dueText + ")"
      else "「" + titleText + "」の期限が3日前です";
    Notification(AlarmName(r.id), NotificationTitle, message)
  }

  /** The message names the title and, when the start parses, ends with the due text in parentheses. */
  lemma {:induction false} NotificationMessage(env: DateEnv, r: Reminder)
    ensures var m := NotificationFor(env, r).message;
      var titleText := if r.title == [] then DefaultTitle else r.title;
      StartsWith(m, "「" + titleText + "」") &&
      (ParseDate(env, r.startAt).Some? <==> EndsWith(m, ")")) &&
      (ParseDate(env, r.startAt).Some? ==> EndsWith(m, " (" + FormatDateText(env, r.startAt, r.hasTime) + ")"))
  {
    var titleText := if r.title == [] then DefaultTitle else r.title;
    var dueText := FormatDateText(env, r.startAt, r.hasTime);
    if dueText != [] {
      MessageWithDue(titleText, dueText);
    } else {
      MessageWithoutDue(titleText);
    }
  }

  lemma {:induction false} MessageWithDue(titleText: string, dueText: string)
    ensures var m := "「" + titleText + "」の期限が3日前です (" + dueText + ")";
      StartsWith(m, "「" + titleText + "」") && EndsWith(m, ")") && EndsWith(m, " (" + dueText + ")")
  {
    var m := "「" + titleText + "」の期限が3日前です (" + dueText + ")";
    var p := "「" + titleText + "」";
    var q := " (" + dueText + ")";
    assert "」の期限が3日前です (" == "」の期限が3日前です" + " (";
    assert m == "「" + titleText + "」の期限が3日前です" + q;
    assert m[..|p|] == p;
    assert m[|m| - |q|..] == q;
    assert m[|m| - 1] == ')';
  }

  lemma {:induction false} MessageWithoutDue(titleText: string)
    ensures var m := "「" + titleText + "」の期限が3日前です";
      StartsWith(m, "「" + titleText + "」") && !EndsWith(m, ")")
  {
    var m := "「" + titleText + "」の期限が3日前です";
    var p := "「" + titleText + "」";
    assert m[..|p|] == p;
    assert m[|m| - 1] == 'す';
  }

  // ---------------------------------------------------------------------------
  // Messages

  /**
   * A runtime message: `kind` is `None` when the message is missing or its
   * `type` is not a string; `events` is `None` when `message.events` is not an
   * array; `id` is `None` when `message.id` is missing or not a string.
   */
  datatype Message = Message(kind: Option<string>, events: Option<seq<EventInput>>, id: Option<string>, completed: bool)

  datatype Response = NoResponse | Added(result: AddResult) | Completed(ok: bool)

  /** The state the background worker owns: the stored list, the alarm registry and the shown notifications. */
  class ReminderService {
    var store: seq<Reminder>
    var alarms: map<string, int>
    var notifications: seq<Notification>
    /** How many times the stored list was written. */
    var writes: nat
    const env: DateEnv

    constructor (env: DateEnv, store: seq<Reminder>, alarms: map<string, int>)
      ensures this.env == env && this.store == store && this.alarms == alarms
      ensures notifications == [] && writes == 0
    {
      this.env := env;
      this.store := store;
      this.alarms := alarms;
      notifications := [];
      writes := 0;
    }

    /** `scheduleAlarmForReminder`. */
    method ScheduleAlarm(r: Reminder, now: int)
      modifies this`alarms
      ensures alarms == ScheduleOn(env, old(alarms), r, now)
    {
      var when := ParseDateField(env, r.reminderAt);
      if r.completed || r.notified {
        return;
      }
      if when.None? || when.value == 0 || when.value <= now {
        return;
      }
      alarms := alarms[AlarmName(r.id) := when.value];
    }

    /** `clearAlarmForReminder`. */
    method ClearAlarm(id: string)
      modifies this`alarms
      ensures alarms == old(alarms) - {AlarmName(id)}
    {
      alarms := alarms - {AlarmName(id)};
    }

    /** The second loop of the re-sync and of a batch add: schedule each record in order. */
    method ScheduleEach(rs: seq<Reminder>, now: int)
      modifies this`alarms
      ensures alarms == ScheduleAll(env, old(alarms), rs, now)
    {
      var i := 0;
      while i < |rs|
        invariant 0 <= i <= |rs|
        invariant alarms == ScheduleAll(env, old(alarms), rs[..i], now)
      {
        assert rs[..i + 1][..i] == rs[..i];
        ScheduleAlarm(rs[i], now);
        i := i + 1;
      }
      assert rs[..i] == rs;
    }

    /** `syncAlarmsWithReminders(rs)`. */
    method SyncAlarms(rs: seq<Reminder>, now: int)
      modifies this`alarms
      ensures alarms == Synced(env, old(alarms), rs, now)
    {
      var keep := NameSet(rs);
      var todo := alarms.Keys;
      ghost var start := alarms;
      while todo != {}
        invariant todo <= start.Keys
        invariant forall n :: n in alarms <==> n in start && (n in todo || !IsReminderAlarm(n) || n in keep)
        invariant forall n :: n in alarms ==> alarms[n] == start[n]
        decreases |todo|
      {
        var name :| name in todo;
        if IsReminderAlarm(name) && name !in keep {
          alarms := alarms - {name};
        }
        todo := todo - {name};
      }
      assert alarms == Prune(start, keep);
      ScheduleEach(rs, now);
    }

    /** `resyncAllReminders`. */
    method ResyncAll(now: int)
      modifies this`alarms
      ensures alarms == Synced(env, old(alarms), store, now)
    {
      SyncAlarms(store, now);
    }

    /** The loop of `addReminders`: build each event and keep those whose id is not yet in `seen`. */
    method CollectAdditions(evs: seq<EventInput>, nowIso: string, seen: set<string>) returns (additions: seq<Reminder>)
      ensures additions == Additions(env, nowIso, evs, seen)
    {
      var existingIds := seen;
      additions := [];
      var i := 0;
      while i < |evs|
        invariant 0 <= i <= |evs|
        invariant additions + Additions(env, nowIso, evs[i..], existingIds) == Additions(env, nowIso, evs, seen)
      {
        var reminder := BuildReminderFromEvent(env, nowIso, evs[i]);
        AdditionsStep(env, nowIso, evs, i, existingIds);
        if reminder.Some? && reminder.value.id !in existingIds {
          existingIds := existingIds + {reminder.value.id};
          additions := additions + [reminder.value];
        }
        i := i + 1;
      }
    }

    /** `addReminders(events)`. */
    method AddReminders(events: Option<seq<EventInput>>, nowIso: string, now: int) returns (res: AddResult)
      modifies this`store, this`alarms, this`writes
      ensures var evs := events.GetOr([]);
        if evs == [] then
          res == AddResult(false, 0, 0) && store == old(store) && alarms == old(alarms) && writes == old(writes)
        else
          var adds := Additions(env, nowIso, evs, IdSet(old(store)));
          res == AddResult(true, |adds|, |evs| - |adds|) &&
          store == old(store) + adds &&
          writes == old(writes) + (if adds == [] then 0 else 1) &&
          alarms == ScheduleAll(env, old(alarms), adds, now)
    {
      var evs := events.GetOr([]);
      if evs == [] {
        return AddResult(false, 0, 0);
      }
      var additions := CollectAdditions(evs, nowIso, IdSet(store));
      if |additions| > 0 {
        store := store + additions;
        writes := writes + 1;
        ScheduleEach(additions, now);
      }
      res := AddResult(true, |additions|, |evs| - |additions|);
    }

    /** `updateReminderCompletion(id, completed)`; `id` is `None` when it is not a string. */
    method UpdateCompletion(id: Option<string>, completed: bool, nowIso: string, now: int) returns (ok: bool)
      modifies this`store, this`alarms, this`writes
      ensures ok <==> id.Some? && id.value != [] && id.value in IdSet(old(store))
      ensures !ok ==> store == old(store) && alarms == old(alarms) && writes == old(writes)
      ensures ok ==>
        store == MarkCompletion(old(store), id.value, completed, nowIso) &&
        writes == old(writes) + 1 &&
        var u := LastWithId(store, id.value);
        u.Some? &&
        alarms == if completed then old(alarms) - {AlarmName(id.value)}
                  else ScheduleOn(env, old(alarms), u.value, now)
    {
      if id.None? || id.value == [] {
        return false;
      }
      var updated := MarkCompletion(store, id.value, completed, nowIso);
      var updatedReminder := LastWithId(updated, id.value);
      MarkCompletionKeepsIds(store, id.value, completed, nowIso);
      if updatedReminder.None? {
        return false;
      }
      store := updated;
      writes := writes + 1;
      if updatedReminder.value.completed {
        ClearAlarm(id.value);
      } else {
        ScheduleAlarm(updatedReminder.value, now);
      }
      ok := true;
    }

    /** `markReminderNotified(id)`: writes the list back whenever the id is non-empty, found or not. */
    method MarkNotified(id: string, nowIso: string)
      modifies this`store, this`writes
      ensures id == [] ==> store == old(store) && writes == old(writes)
      ensures id != [] ==> store == MarkNotifiedAll(old(store), id, nowIso) && writes == old(writes) + 1
    {
      if id == [] {
        return;
      }
      store := MarkNotifiedAll(store, id, nowIso);
      writes := writes + 1;
    }

    /** The alarm handler: notify for a pending record, then mark it notified. */
    method OnAlarm(name: string, nowIso: string)
      modifies this`store, this`writes, this`notifications
      ensures FireTarget(old(store), name).None? ==>
        store == old(store) && writes == old(writes) && notifications == old(notifications)
      ensures FireTarget(old(store), name).Some? ==>
        var id := name[|AlarmPrefix|..];
        notifications == old(notifications) + [NotificationFor(env, FireTarget(old(store), name).value)] &&
        (id == [] ==> store == old(store) && writes == old(writes)) &&
        (id != [] ==> store == MarkNotifiedAll(old(store), id, nowIso) && writes == old(writes) + 1)
    {
      if !IsReminderAlarm(name) {
        return;
      }
      var id := name[|AlarmPrefix|..];
      var reminder := FindById(store, id);
      if reminder.None? || reminder.value.completed || reminder.value.notified {
        return;
      }
      notifications := notifications + [NotificationFor(env, reminder.value)];
      MarkNotified(id, nowIso);
    }

    /** The runtime message listener: only the add and complete messages get a reply. */
    method OnMessage(msg: Message, nowIso: string, now: int) returns (resp: Response)
      modifies this`store, this`alarms, this`writes
      ensures msg.kind != Some("ZEN_REMINDER_ADD") && msg.kind != Some("ZEN_REMINDER_COMPLETE") ==>
        resp == NoResponse && store == old(store) && alarms == old(alarms) && writes == old(writes)
      ensures msg.kind == Some("ZEN_REMINDER_ADD") ==>
        var evs := msg.events.GetOr([]);
        resp.Added? &&
        if evs == [] then
          resp.result == AddResult(false, 0, 0) && store == old(store) && alarms == old(alarms) && writes == old(writes)
        else
          var adds := Additions(env, nowIso, evs, IdSet(old(store)));
          resp.result == AddResult(true, |adds|, |evs| - |adds|) &&
          store == old(store) + adds &&
          writes == old(writes) + (if adds == [] then 0 else 1) &&
          alarms == ScheduleAll(env, old(alarms), adds, now)
      ensures msg.kind == Some("ZEN_REMINDER_COMPLETE") ==>
        resp.Completed? && (resp.ok <==> msg.id.Some? && msg.id.value != [] && msg.id.value in IdSet(old(store)))
      ensures msg.kind == Some("ZEN_REMINDER_COMPLETE") && !resp.ok ==>
        store == old(store) && alarms == old(alarms) && writes == old(writes)
      ensures msg.kind == Some("ZEN_REMINDER_COMPLETE") && resp.ok ==>
        store == MarkCompletion(old(store), msg.id.value, msg.completed, nowIso) &&
        writes == old(writes) + 1 &&
        var u := LastWithId(store, msg.id.value);
        u.Some? &&
        alarms == if msg.completed then old(alarms) - {AlarmName(msg.id.value)}
                  else ScheduleOn(env, old(alarms), u.value, now)
    {
      if msg.kind == Some("ZEN_REMINDER_ADD") {
        var r := AddReminders(msg.events, nowIso, now);
        return Added(r);
      }
      if msg.kind == Some("ZEN_REMINDER_COMPLETE") {
        var ok := UpdateCompletion(msg.id, msg.completed, nowIso, now);
        return Completed(ok);
      }
      return NoResponse;
    }
  }
}
