/**
 * The popup's reminder list: the date/time and meta text of a row, the list of
 * pending reminders sorted by start, the summary count, and the completion
 * toggle a row's button requests from the background service.
 */
module PopupReminders {
  import opened Wrappers
  import opened Text
  import Calendar
  import Format
  import Reminders

  // ---------------------------------------------------------------------------
  // Row text

  /** `HH:MM`, zero-padded. */
  function ClockText(h: nat, m: nat): string {
    Format.Padded2(h) + ":" + Format.Padded2(m)
  }

  /** `M/D`, or `M/D HH:MM` with a time. */
  function DateTimeText(month: nat, date: nat, h: nat, m: nat, hasTime: bool): string {
    var md := Format.MonthDayText(month, date);
    if hasTime then md + " " + ClockText(h, m) else md
  }

  /** `formatReminderDateTime(value, hasTime)`: `--/--`, `M/D` or `M/D HH:MM`. */
  function FormatReminderDateTime(env: Reminders.DateEnv, value: string, hasTime: bool): string {
    match env.parse(value)
    case None => Format.NoDateText
    case Some(t) =>
      DateTimeText(Calendar.MonthOf(t) + 1, Calendar.DateOf(t), Calendar.HourOf(t), Calendar.MinuteOf(t), hasTime)
  }

  /** A clock text is two hour digits, `:` and two minute digits. */
  lemma {:induction false} ClockTextSpec(h: nat, m: nat)
    requires h < 24 && m < 60
    ensures var c := ClockText(h, m);
      |c| == 5 && c[2] == ':' &&
      AllDigits(c[..2]) && DigitsValue(c[..2]) == h && AllDigits(c[3..]) && DigitsValue(c[3..]) == m
  {
    var hh, mm := Format.Padded2(h), Format.Padded2(m);
    PaddedWidth2(h);
    PaddedWidth2(m);
    PaddedRoundTrip(h, 2);
    PaddedRoundTrip(m, 2);
    assert ClockText(h, m) == hh + ":" + mm;
    ColonSlices(hh, mm);
  }

  lemma {:induction false} ColonSlices(hh: string, mm: string)
    requires |hh| == 2 && |mm| == 2
    ensures var c := hh + ":" + mm; |c| == 5 && c[2] == ':' && c[..2] == hh && c[3..] == mm
  {
    var c := hh + ":" + mm;
    assert c[..2] == hh;
    assert c[3..] == mm;
  }

  /** With a time, the text is the compact date, a space and the clock. */
  lemma {:induction false} DateTimeTextSpec(month: nat, date: nat, h: nat, m: nat, hasTime: bool)
    requires h < 24 && m < 60
    ensures var r := DateTimeText(month, date, h, m, hasTime);
      (!hasTime ==> r == Format.MonthDayText(month, date)) &&
      (hasTime ==>
        |r| >= 6 && r[..|r| - 6] == Format.MonthDayText(month, date) && r[|r| - 6] == ' ' &&
        r[|r| - 5..] == ClockText(h, m))
  {
    if hasTime {
      ClockTextSpec(h, m);
      var r := DateTimeText(month, date, h, m, hasTime);
      assert r[..|r| - 6] == Format.MonthDayText(month, date);
      assert r[|r| - 5..] == ClockText(h, m);
    }
  }

  /** An invalid date gives the placeholder whatever `hasTime` says; without a time the text is the compact date. */
  lemma {:induction false} ReminderDateTimeSpec(env: Reminders.DateEnv, value: string, hasTime: bool)
    ensures env.parse(value).None? ==> FormatReminderDateTime(env, value, hasTime) == Format.NoDateText
    ensures !hasTime ==> FormatReminderDateTime(env, value, hasTime) == Format.FormatCompactDateText(env.parse(value))
  {
    if env.parse(value).Some? {
      var t := env.parse(value).value;
      DateTimeTextSpec(Calendar.MonthOf(t) + 1, Calendar.DateOf(t), Calendar.HourOf(t), Calendar.MinuteOf(t), hasTime);
    }
  }

  /** With a time, a valid date gives the compact date, a space and the clock of the date. */
  lemma {:induction false} ReminderDateTimeClock(env: Reminders.DateEnv, value: string)
    requires env.parse(value).Some?
    ensures var r := FormatReminderDateTime(env, value, true);
      var t := env.parse(value).value;
      |r| >= 6 && r[..|r| - 6] == Format.FormatCompactDateText(Some(t)) && r[|r| - 6] == ' ' &&
      r[|r| - 5..] == ClockText(Calendar.HourOf(t), Calendar.MinuteOf(t))
  {
    var t := env.parse(value).value;
    var mo, d, h, mi := Calendar.MonthOf(t) + 1, Calendar.DateOf(t), Calendar.HourOf(t), Calendar.MinuteOf(t);
    ParsedDateTime(env, value, t);
    Format.CompactDateOf(t);
    ClockAfterDate(FormatReminderDateTime(env, value, true), Format.FormatCompactDateText(Some(t)), mo, d, h, mi);
  }

  lemma {:induction false} ParsedDateTime(env: Reminders.DateEnv, value: string, t: int)
    requires env.parse(value) == Some(t)
    ensures FormatReminderDateTime(env, value, true) ==
      DateTimeText(Calendar.MonthOf(t) + 1, Calendar.DateOf(t), Calendar.HourOf(t), Calendar.MinuteOf(t), true)
  {
  }

  /**
   * The background's due text (`formatDateText`) and the popup's date text
   * (`formatReminderDateTime`) are the same text whenever the start parses.
   */
  lemma {:induction false} FormatDateTextAgrees(env: Reminders.DateEnv, value: string, hasTime: bool)
    requires Reminders.ParseDate(env, value).Some?
    ensures var t := Reminders.ParseDate(env, value).value;
      var r := Reminders.FormatDateText(env, value, hasTime);
      r == DateTimeText(Calendar.MonthOf(t) + 1, Calendar.DateOf(t), Calendar.HourOf(t), Calendar.MinuteOf(t), hasTime) &&
      r == FormatReminderDateTime(env, value, hasTime)
  {
    var t := Reminders.ParseDate(env, value).value;
    DueTextIsDateTimeText(Reminders.FormatDateText(env, value, hasTime), hasTime,
      Calendar.MonthOf(t) + 1, Calendar.DateOf(t), Calendar.HourOf(t), Calendar.MinuteOf(t));
  }

  lemma {:induction false} DueTextIsDateTimeText(r: string, hasTime: bool, month: nat, date: nat, h: nat, m: nat)
    requires r == var md := NatToString(month) + "/" + NatToString(date);
      if hasTime then md + " " + PadStart(NatToString(h), 2, '0') + ":" + PadStart(NatToString(m), 2, '0') else md
    ensures r == DateTimeText(month, date, h, m, hasTime)
  {
  }

  lemma {:induction false} ClockAfterDate(r: string, compact: string, mo: nat, d: nat, h: nat, mi: nat)
    requires h < 24 && mi < 60
    requires r == DateTimeText(mo, d, h, mi, true) && compact == Format.MonthDayText(mo, d)
    ensures |r| >= 6 && r[..|r| - 6] == compact && r[|r| - 6] == ' ' && r[|r| - 5..] == ClockText(h, mi)
  {
    DateTimeTextSpec(mo, d, h, mi, true);
  }

  /** The characters a date/time text is made of. */
  predicate DateTextChar(c: char) {
    IsDigit(c) || c == '/' || c == '-' || c == ':' || c == ' '
  }

  predicate DateTextChars(s: string) {
    forall i :: 0 <= i < |s| ==> DateTextChar(s[i])
  }

  lemma {:induction false} DateTextCharsOfText(env: Reminders.DateEnv, value: string, hasTime: bool)
    ensures DateTextChars(FormatReminderDateTime(env, value, hasTime))
  {
    if env.parse(value).Some? {
      var t := env.parse(value).value;
      DateTimeTextChars(Calendar.MonthOf(t) + 1, Calendar.DateOf(t), Calendar.HourOf(t), Calendar.MinuteOf(t), hasTime);
    }
  }

  lemma {:induction false} DateTimeTextChars(month: nat, date: nat, h: nat, m: nat, hasTime: bool)
    ensures DateTextChars(DateTimeText(month, date, h, m, hasTime))
  {
    var ms, ds := NatToString(month), NatToString(date);
    var md := Format.MonthDayText(month, date);
    assert md == ms + "/" + ds;
    MonthDayChars(ms, ds);
    if hasTime {
      PaddedRoundTrip(h, 2);
      PaddedRoundTrip(m, 2);
      var hh, mm := Format.Padded2(h), Format.Padded2(m);
      assert DateTimeText(month, date, h, m, hasTime) == md + " " + (hh + ":" + mm);
      WithClockChars(md, hh, mm);
    }
  }

  lemma {:induction false} MonthDayChars(ms: string, ds: string)
    requires AllDigits(ms) && AllDigits(ds)
    ensures DateTextChars(ms + "/" + ds)
  {
    DateTextCharsJoin("/", ds);
    DateTextCharsJoin(ms, "/" + ds);
    assert ms + "/" + ds == ms + ("/" + ds);
  }

  lemma {:induction false} WithClockChars(md: string, hh: string, mm: string)
    requires DateTextChars(md) && AllDigits(hh) && AllDigits(mm)
    ensures DateTextChars(md + " " + (hh + ":" + mm))
  {
    DateTextCharsJoin(":", mm);
    DateTextCharsJoin(hh, ":" + mm);
    DateTextCharsJoin(" ", hh + ":" + mm);
    DateTextCharsJoin(md, " " + (hh + ":" + mm));
    assert md + " " + (hh + ":" + mm) == md + (" " + (hh + ":" + mm));
  }

  lemma {:induction false} DateTextCharsJoin(a: string, b: string)
    requires DateTextChars(a) || AllDigits(a)
    requires DateTextChars(b) || AllDigits(b)
    ensures DateTextChars(a + b)
  {
    forall i | 0 <= i < |a + b|
      ensures DateTextChar((a + b)[i])
    {
      if i < |a| {
        assert (a + b)[i] == a[i];
      } else {
        assert (a + b)[i] == b[i - |a|];
      }
    }
  }

  /** `if (reminder.reminderAt)`: a non-empty string. */
  predicate HasReminderAt(r: Reminders.Reminder) {
    r.reminderAt.Some? && r.reminderAt.value != []
  }

  const NotifySeparator: string := " | 通知 "

  /** `formatReminderMeta(reminder)`: the due text, then ` | 通知 <reminder time>` when there is one. */
  function FormatReminderMeta(env: Reminders.DateEnv, r: Reminders.Reminder): string {
    var due := FormatReminderDateTime(env, r.startAt, r.hasTime);
    if HasReminderAt(r) then due + NotifySeparator + FormatReminderDateTime(env, r.reminderAt.value, r.hasTime)
    else due
  }

  /** The meta text starts with the due text, and holds a `|` exactly when the reminder has a reminder time. */
  lemma {:induction false} ReminderMetaSpec(env: Reminders.DateEnv, r: Reminders.Reminder)
    ensures var due := FormatReminderDateTime(env, r.startAt, r.hasTime);
      var meta := FormatReminderMeta(env, r);
      |due| <= |meta| && meta[..|due|] == due &&
      ('|' in meta <==> HasReminderAt(r))
  {
    var due := FormatReminderDateTime(env, r.startAt, r.hasTime);
    DateTextCharsOfText(env, r.startAt, r.hasTime);
    NoBar(due);
    if HasReminderAt(r) {
      var meta := FormatReminderMeta(env, r);
      assert meta[|due| + 1] == '|';
      assert meta[..|due|] == due;
    }
  }

  lemma {:induction false} NoBar(s: string)
    requires DateTextChars(s)
    ensures '|' !in s
  {
    forall i | 0 <= i < |s|
      ensures s[i] != '|'
    {
      assert DateTextChar(s[i]);
    }
  }

  // ---------------------------------------------------------------------------
  // The pending list

  /** `reminders.filter((item) => !item.completed)`. */
  function Pending(rs: seq<Reminders.Reminder>): (p: seq<Reminders.Reminder>)
    ensures |p| <= |rs|
    decreases |rs|
  {
    if rs == [] then []
    else
      var last := rs[|rs| - 1];
      Pending(rs[..|rs| - 1]) + if last.completed then [] else [last]
  }

  /** The pending list holds exactly the non-completed reminders, in their order, each as often as in the input. */
  lemma {:induction false} PendingSpec(rs: seq<Reminders.Reminder>)
    ensures forall i :: 0 <= i < |Pending(rs)| ==> !Pending(rs)[i].completed
    ensures forall r :: r in Pending(rs) <==> r in rs && !r.completed
    ensures multiset(Pending(rs)) == multiset(rs) - multiset(Completed(rs))
    decreases |rs|
  {
    PendingAllPending(rs);
    PendingMembers(rs);
    PendingMultiset(rs);
  }

  lemma {:induction false} PendingAllPending(rs: seq<Reminders.Reminder>)
    ensures forall i :: 0 <= i < |Pending(rs)| ==> !Pending(rs)[i].completed
    decreases |rs|
  {
    if rs != [] {
      PendingAllPending(rs[..|rs| - 1]);
    }
  }

  lemma {:induction false} PendingMembers(rs: seq<Reminders.Reminder>)
    ensures forall r :: r in Pending(rs) <==> r in rs && !r.completed
    decreases |rs|
  {
    if rs != [] {
      var n := |rs| - 1;
      PendingMembers(rs[..n]);
      assert rs == rs[..n] + [rs[n]];
    }
  }

  lemma {:induction false} PendingMultiset(rs: seq<Reminders.Reminder>)
    ensures multiset(Pending(rs)) + multiset(Completed(rs)) == multiset(rs)
    decreases |rs|
  {
    if rs != [] {
      var n := |rs| - 1;
      PendingMultiset(rs[..n]);
      assert rs == rs[..n] + [rs[n]];
    }
  }

  /** The completed reminders, the complement of `Pending`. */
  function Completed(rs: seq<Reminders.Reminder>): seq<Reminders.Reminder>
    decreases |rs|
  {
    if rs == [] then []
    else
      var last := rs[|rs| - 1];
      Completed(rs[..|rs| - 1]) + if last.completed then [last] else []
  }

  /** Stable insertion: `x` goes after every element whose key is not greater. */
  function Insert(key: Reminders.Reminder -> int, x: Reminders.Reminder, s: seq<Reminders.Reminder>): (r: seq<Reminders.Reminder>)
    ensures multiset(r) == multiset(s) + multiset{x}
    decreases |s|
  {
    if s == [] then [x]
    else if key(x) < key(s[0]) then [x] + s
    else
      assert s == [s[0]] + s[1..];
      [s[0]] + Insert(key, x, s[1..])
  }

  /** `[...items].sort((a, b) => key(a) - key(b))`, as a stable insertion sort on a copy. */
  function SortBy(key: Reminders.Reminder -> int, s: seq<Reminders.Reminder>): seq<Reminders.Reminder>
    decreases |s|
  {
    if s == [] then [] else Insert(key, s[|s| - 1], SortBy(key, s[..|s| - 1]))
  }

  predicate SortedBy(key: Reminders.Reminder -> int, s: seq<Reminders.Reminder>) {
    forall i, j :: 0 <= i < j < |s| ==> key(s[i]) <= key(s[j])
  }

  lemma {:induction false} InsertSorted(key: Reminders.Reminder -> int, x: Reminders.Reminder, s: seq<Reminders.Reminder>)
    requires SortedBy(key, s)
    ensures SortedBy(key, Insert(key, x, s))
    decreases |s|
  {
    if s == [] {
    } else if key(x) < key(s[0]) {
      SortedAtLeast(key, s);
      SortedCons(key, x, s);
    } else {
      InsertSorted(key, x, s[1..]);
      SortedAtLeast(key, s);
      InsertAtLeast(key, key(s[0]), x, s[1..]);
      SortedCons(key, s[0], Insert(key, x, s[1..]));
    }
  }

  /** Every key of `s` is at least `v`. */
  predicate AllAtLeast(key: Reminders.Reminder -> int, v: int, s: seq<Reminders.Reminder>) {
    forall i :: 0 <= i < |s| ==> v <= key(s[i])
  }

  /** A sorted list is at least its head after its head, and at least their key before any element. */
  lemma {:induction false} SortedAtLeast(key: Reminders.Reminder -> int, s: seq<Reminders.Reminder>)
    requires SortedBy(key, s) && s != []
    ensures AllAtLeast(key, key(s[0]), s) && AllAtLeast(key, key(s[0]), s[1..]) && SortedBy(key, s[1..])
  {
    assert forall i :: 0 <= i < |s[1..]| ==> s[1..][i] == s[i + 1];
  }

  lemma {:induction false} SortedCons(key: Reminders.Reminder -> int, a: Reminders.Reminder, rest: seq<Reminders.Reminder>)
    requires SortedBy(key, rest) && AllAtLeast(key, key(a), rest)
    ensures SortedBy(key, [a] + rest)
  {
    var r := [a] + rest;
    forall i, j | 0 <= i < j < |r|
      ensures key(r[i]) <= key(r[j])
    {
      assert r[j] == rest[j - 1];
      if i > 0 {
        assert r[i] == rest[i - 1];
      }
    }
  }

  /** Inserting an element whose key is at least `v` keeps every key at least `v`. */
  lemma {:induction false} InsertAtLeast(key: Reminders.Reminder -> int, v: int, x: Reminders.Reminder, s: seq<Reminders.Reminder>)
    requires AllAtLeast(key, v, s) && v <= key(x)
    ensures AllAtLeast(key, v, Insert(key, x, s))
    decreases |s|
  {
    if s == [] {
    } else if key(x) < key(s[0]) {
      ConsAtLeast(key, v, x, s);
    } else {
      assert AllAtLeast(key, v, s[1..]) by {
        assert forall i :: 0 <= i < |s[1..]| ==> s[1..][i] == s[i + 1];
      }
      InsertAtLeast(key, v, x, s[1..]);
      ConsAtLeast(key, v, s[0], Insert(key, x, s[1..]));
    }
  }

  lemma {:induction false} ConsAtLeast(key: Reminders.Reminder -> int, v: int, a: Reminders.Reminder, rest: seq<Reminders.Reminder>)
    requires v <= key(a) && AllAtLeast(key, v, rest)
    ensures AllAtLeast(key, v, [a] + rest)
  {
    var r := [a] + rest;
    forall i | 0 < i < |r|
      ensures v <= key(r[i])
    {
      assert r[i] == rest[i - 1];
    }
  }

  /** The sort orders by key and is a permutation of its input. */
  lemma {:induction false} SortBySpec(key: Reminders.Reminder -> int, s: seq<Reminders.Reminder>)
    ensures SortedBy(key, SortBy(key, s))
    ensures multiset(SortBy(key, s)) == multiset(s)
  {
    SortBySorted(key, s);
    SortByPermutation(key, s);
  }

  lemma {:induction false} SortBySorted(key: Reminders.Reminder -> int, s: seq<Reminders.Reminder>)
    ensures SortedBy(key, SortBy(key, s))
    decreases |s|
  {
    if s != [] {
      var n := |s| - 1;
      SortBySorted(key, s[..n]);
      InsertSorted(key, s[n], SortBy(key, s[..n]));
    }
  }

  lemma {:induction false} SortByPermutation(key: Reminders.Reminder -> int, s: seq<Reminders.Reminder>)
    ensures multiset(SortBy(key, s)) == multiset(s)
    decreases |s|
  {
    if s != [] {
      var n := |s| - 1;
      SortByPermutation(key, s[..n]);
      assert s == s[..n] + [s[n]];
    }
  }
  /** The elements whose key is `k`, in their order. */
  function WithKey(key: Reminders.Reminder -> int, s: seq<Reminders.Reminder>, k: int): seq<Reminders.Reminder>
    decreases |s|
  {
    if s == [] then []
    else (if key(s[0]) == k then [s[0]] else []) + WithKey(key, s[1..], k)
  }

  lemma {:induction false} WithKeyAppend(key: Reminders.Reminder -> int, a: seq<Reminders.Reminder>, b: seq<Reminders.Reminder>, k: int)
    ensures WithKey(key, a + b, k) == WithKey(key, a, k) + WithKey(key, b, k)
    decreases |a|
  {
    if a == [] {
      assert a + b == b;
    } else {
      assert a == [a[0]] + a[1..];
      assert a + b == [a[0]] + (a[1..] + b);
      WithKeyCons(key, a + b, a[0], a[1..] + b, k);
      WithKeyCons(key, a, a[0], a[1..], k);
      WithKeyAppend(key, a[1..], b, k);
    }
  }

  lemma {:induction false} WithKeySnoc(key: Reminders.Reminder -> int, r: seq<Reminders.Reminder>, a: seq<Reminders.Reminder>,
                                       y: Reminders.Reminder, k: int)
    requires r == a + [y]
    ensures WithKey(key, r, k) == WithKey(key, a, k) + (if key(y) == k then [y] else [])
  {
    WithKeyAppend(key, a, [y], k);
    WithKeyCons(key, [y], y, [], k);
  }

  /** No element has key `k` when every key is above it. */
  lemma {:induction false} WithKeyAbove(key: Reminders.Reminder -> int, s: seq<Reminders.Reminder>, k: int)
    requires forall i :: 0 <= i < |s| ==> k < key(s[i])
    ensures WithKey(key, s, k) == []
    decreases |s|
  {
    if s != [] {
      WithKeyAbove(key, s[1..], k);
    }
  }

  /** Inserting goes past every element with the same key, so it lands after them. */
  lemma {:induction false} InsertWithKey(key: Reminders.Reminder -> int, x: Reminders.Reminder, s: seq<Reminders.Reminder>, k: int)
    requires SortedBy(key, s)
    ensures WithKey(key, Insert(key, x, s), k) == WithKey(key, s, k) + (if key(x) == k then [x] else [])
    decreases |s|
  {
    if s == [] || key(x) < key(s[0]) {
      assert Insert(key, x, s) == [x] + s;
      InsertFront(key, x, s, Insert(key, x, s), k);
    } else {
      SortedTail(key, s);
      InsertWithKey(key, x, s[1..], k);
      assert Insert(key, x, s) == [s[0]] + Insert(key, x, s[1..]);
      InsertPast(key, x, s, Insert(key, x, s[1..]), Insert(key, x, s), k);
    }
  }

  lemma {:induction false} InsertFront(key: Reminders.Reminder -> int, x: Reminders.Reminder, s: seq<Reminders.Reminder>,
                                       r: seq<Reminders.Reminder>, k: int)
    requires SortedBy(key, s) && (s == [] || key(x) < key(s[0])) && r == [x] + s
    ensures WithKey(key, r, k) == WithKey(key, s, k) + (if key(x) == k then [x] else [])
  {
    WithKeyCons(key, r, x, s, k);
    if key(x) == k && s != [] {
      SortedAbove(key, s, k);
      WithKeyAbove(key, s, k);
    }
  }

  lemma {:induction false} InsertPast(key: Reminders.Reminder -> int, x: Reminders.Reminder, s: seq<Reminders.Reminder>,
                                      t: seq<Reminders.Reminder>, r: seq<Reminders.Reminder>, k: int)
    requires s != [] && r == [s[0]] + t
    requires WithKey(key, t, k) == WithKey(key, s[1..], k) + (if key(x) == k then [x] else [])
    ensures WithKey(key, r, k) == WithKey(key, s, k) + (if key(x) == k then [x] else [])
  {
    WithKeyCons(key, r, s[0], t, k);
    WithKeyCons(key, s, s[0], s[1..], k);
  }

  lemma {:induction false} WithKeyCons(key: Reminders.Reminder -> int, r: seq<Reminders.Reminder>, y: Reminders.Reminder,
                                       t: seq<Reminders.Reminder>, k: int)
    requires r == [y] + t
    ensures WithKey(key, r, k) == (if key(y) == k then [y] else []) + WithKey(key, t, k)
  {
    assert r[0] == y && r[1..] == t;
  }

  lemma {:induction false} SortedAbove(key: Reminders.Reminder -> int, s: seq<Reminders.Reminder>, k: int)
    requires SortedBy(key, s) && s != [] && k < key(s[0])
    ensures forall i :: 0 <= i < |s| ==> k < key(s[i])
  {
    forall i | 0 <= i < |s| ensures k < key(s[i]) {
      if i > 0 { assert key(s[0]) <= key(s[i]); }
    }
  }

  lemma {:induction false} SortedTail(key: Reminders.Reminder -> int, s: seq<Reminders.Reminder>)
    requires SortedBy(key, s) && s != []
    ensures SortedBy(key, s[1..])
  {
    forall i, j | 0 <= i < j < |s[1..]| ensures key(s[1..][i]) <= key(s[1..][j]) {
      assert s[1..][i] == s[i + 1] && s[1..][j] == s[j + 1];
    }
  }

  /** The sort is stable: the reminders with any one key keep their input order. */
  lemma {:induction false} SortByStable(key: Reminders.Reminder -> int, s: seq<Reminders.Reminder>, k: int)
    ensures WithKey(key, SortBy(key, s), k) == WithKey(key, s, k)
    decreases |s|
  {
    if s != [] {
      var n := |s| - 1;
      var prefix, last := s[..n], s[n];
      var sortedPrefix := SortBy(key, prefix);
      assert SortBy(key, s) == Insert(key, last, sortedPrefix);
      SortByStable(key, prefix, k);
      SortBySorted(key, prefix);
      InsertWithKey(key, last, sortedPrefix, k);
      assert s == prefix + [last];
      WithKeySnoc(key, s, prefix, last, k);
    }
  }


  /** What `renderReminderList` shows: the placeholder or the rows, and the summary text. */
  datatype ListView = ListView(placeholder: bool, rows: seq<Reminders.Reminder>, summary: string)

  const NoPendingSummary: string := "未完了 0件"

  function PendingSummary(count: nat): string {
    "未完了 " + NatToString(count) + "件"
  }

  /** `renderReminderList(list, summary, reminders)`, with the start time as the sort key. */
  function RenderReminderList(key: Reminders.Reminder -> int, rs: seq<Reminders.Reminder>): ListView {
    var pending := Pending(rs);
    if |pending| == 0 then ListView(true, [], NoPendingSummary)
    else ListView(false, SortBy(key, pending), PendingSummary(|pending|))
  }

  /** The placeholder, with `未完了 0件`, shows exactly when nothing is pending. */
  lemma {:induction false} RenderPlaceholderSpec(key: Reminders.Reminder -> int, rs: seq<Reminders.Reminder>)
    ensures var v := RenderReminderList(key, rs);
      (v.placeholder <==> forall r :: r in rs ==> r.completed) &&
      (v.placeholder ==> v.rows == [] && v.summary == NoPendingSummary)
  {
    PendingSpec(rs);
    if |Pending(rs)| > 0 {
      assert Pending(rs)[0] in Pending(rs);
    }
  }

  /**
   * The rows are the pending reminders sorted by key, each as often as it is
   * pending, and the summary counts them (`未完了 0件` included).
   */
  lemma {:induction false} RenderRowsSpec(key: Reminders.Reminder -> int, rs: seq<Reminders.Reminder>)
    ensures var v := RenderReminderList(key, rs);
      SortedBy(key, v.rows) && multiset(v.rows) == multiset(Pending(rs)) &&
      v.summary == PendingSummary(|Pending(rs)|)
  {
    var pending := Pending(rs);
    if |pending| == 0 {
      ZeroPendingSummary();
    } else {
      SortBySpec(key, pending);
    }
  }

  lemma {:induction false} ZeroPendingSummary()
    ensures PendingSummary(0) == NoPendingSummary
  {
    var z := NatToString(0);
    assert z == "0";
    ZeroSummaryParts(z);
  }

  lemma {:induction false} ZeroSummaryParts(z: string)
    requires z == "0"
    ensures "未完了 " + z + "件" == NoPendingSummary
  {
  }

  // ---------------------------------------------------------------------------
  // The completion toggle

  /** `data-reminder-completed`. */
  function CompletedAttr(completed: bool): string {
    if completed then "true" else "false"
  }

  /** `button.dataset.reminderCompleted !== 'true'`. */
  function RequestedCompletion(attr: string): bool {
    attr != "true"
  }

  /** The `ZEN_REMINDER_COMPLETE` message a row's button sends: the opposite of the row's flag, for its id. */
  function ToggleMessage(r: Reminders.Reminder): (m: Reminders.Message)
    ensures m.completed == !r.completed
    ensures m.id == Some(r.id)
  {
    Reminders.Message(Some("ZEN_REMINDER_COMPLETE"), None, Some(r.id), RequestedCompletion(CompletedAttr(r.completed)))
  }
}
