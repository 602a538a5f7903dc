/**
 * Local-calendar arithmetic of JavaScript `Date` objects, after section 21.4.1 of
 * ECMA-262 ("Time Values and Time Range", "Day Number and Time within Day",
 * "Year Number", "Month Number", "Date Number", "Hours, Minutes, Second, and
 * Milliseconds", "MakeTime", "MakeDay", "MakeDate").
 *
 * A time value is an integer number of milliseconds since 1970-01-01T00:00.
 * The local time zone is taken to be UTC (no offset, no daylight saving), so
 * local time and time value coincide.
 */
module Calendar {

  const MsPerSecond: int := 1000
  const MsPerMinute: int := 60000
  const MsPerHour: int := 3600000
  const MsPerDay: int := 86400000

  /** Day(t): the day number, floor(t / msPerDay). */
  function Day(t: int): int {
    t / MsPerDay
  }

  /** TimeWithinDay(t): t modulo msPerDay. */
  function TimeWithinDay(t: int): (r: int)
    ensures 0 <= r < MsPerDay
    ensures Day(t) * MsPerDay + r == t
  {
    t % MsPerDay
  }

  /** MakeDate(day, time). */
  function MakeDate(day: int, time: int): int {
    day * MsPerDay + time
  }

  lemma {:induction false} MakeDateSplit(day: int, time: int)
    requires 0 <= time < MsPerDay
    ensures Day(MakeDate(day, time)) == day
    ensures TimeWithinDay(MakeDate(day, time)) == time
  {
    var t := MakeDate(day, time);
    assert t == day * MsPerDay + time;
    assert t / MsPerDay == day;
  }

  /** MakeTime(hour, min, sec, ms) on integer arguments. */
  function MakeTime(h: int, m: int, s: int, ms: int): int {
    h * MsPerHour + m * MsPerMinute + s * MsPerSecond + ms
  }

  predicate IsLeap(y: int) {
    y % 4 == 0 && (y % 100 != 0 || y % 400 == 0)
  }

  function DaysInYear(y: int): (n: int)
    ensures n == 365 || n == 366
  {
    if IsLeap(y) then 366 else 365
  }

  /** DayFromYear(y): the day number of the first day of year y, counted year by year from 1970. */
  function DayFromYear(y: int): int
    decreases if y >= 1970 then y - 1970 else 1970 - y
  {
    if y == 1970 then 0
    else if y > 1970 then DayFromYear(y - 1) + DaysInYear(y - 1)
    else DayFromYear(y + 1) - DaysInYear(y)
  }

  /** Consecutive years are exactly DaysInYear apart. */
  lemma {:induction false} DayFromYearStep(y: int)
    ensures DayFromYear(y + 1) == DayFromYear(y) + DaysInYear(y)
  {
    if y >= 1970 {
      assert DayFromYear(y + 1) == DayFromYear(y) + DaysInYear(y);
    } else {
      assert DayFromYear(y) == DayFromYear(y + 1) - DaysInYear(y);
    }
  }

  lemma {:induction false} Floor4Step(y: int)
    ensures (y + 1 - 1969) / 4 - (y - 1969) / 4 == (if y % 4 == 0 then 1 else 0)
  {
  }

  lemma {:induction false} Floor100Step(y: int)
    ensures (y + 1 - 1901) / 100 - (y - 1901) / 100 == (if y % 100 == 0 then 1 else 0)
  {
  }

  lemma {:induction false} Floor400Step(y: int)
    ensures (y + 1 - 1601) / 400 - (y - 1601) / 400 == (if y % 400 == 0 then 1 else 0)
  {
  }

  /** The closed form given for DayFromYear in section 21.4.1.3 of ECMA-262. */
  function DayFromYearFormula(y: int): int {
    365 * (y - 1970) + (y - 1969) / 4 - (y - 1901) / 100 + (y - 1601) / 400
  }

  lemma {:induction false} DivisibleSteps(y: int)
    ensures y % 400 == 0 ==> y % 100 == 0
    ensures y % 100 == 0 ==> y % 4 == 0
  {
    if y % 400 == 0 {
      var q := y / 400;
      assert y == 400 * q;
      MultipleMod(4 * q, 100);
    }
    if y % 100 == 0 {
      var q := y / 100;
      assert y == 100 * q;
      MultipleMod(25 * q, 4);
    }
  }

  lemma {:induction false} MultipleMod(a: int, n: int)
    requires n == 4 || n == 100
    ensures (n * a) % n == 0
  {
    var x := n * a;
    assert x == n * (x / n) + x % n;
    assert n * (a - x / n) == x % n;
  }

  lemma {:induction false} FormulaStep(y: int)
    ensures DayFromYearFormula(y + 1) == DayFromYearFormula(y) + DaysInYear(y)
  {
    var d4 := (y + 1 - 1969) / 4 - (y - 1969) / 4;
    var d100 := (y + 1 - 1901) / 100 - (y - 1901) / 100;
    var d400 := (y + 1 - 1601) / 400 - (y - 1601) / 400;
    assert DayFromYearFormula(y + 1) - DayFromYearFormula(y) == 365 + d4 - d100 + d400;
    Floor4Step(y);
    Floor100Step(y);
    Floor400Step(y);
    DivisibleSteps(y);
  }

  /** Counting year by year agrees with the closed form. */
  lemma {:induction false} DayFromYearClosedForm(y: int)
    ensures DayFromYear(y) == DayFromYearFormula(y)
    decreases if y >= 1970 then y - 1970 else 1970 - y
  {
    if y > 1970 {
      DayFromYearClosedForm(y - 1);
      FormulaStep(y - 1);
    } else if y < 1970 {
      DayFromYearClosedForm(y + 1);
      FormulaStep(y);
    }
  }

  lemma {:induction false} DayFromYearMonotone(a: int, b: int)
    requires a <= b
    ensures DayFromYear(a) + 365 * (b - a) <= DayFromYear(b)
    decreases b - a
  {
    if a < b {
      DayFromYearMonotone(a, b - 1);
      DayFromYearStep(b - 1);
    }
  }

  function YearUp(z: int, y: int): (r: int)
    requires DayFromYear(y) <= z
    ensures DayFromYear(r) <= z < DayFromYear(r + 1)
    decreases z - DayFromYear(y)
  {
    DayFromYearStep(y);
    if z < DayFromYear(y + 1) then y else YearUp(z, y + 1)
  }

  function YearDown(z: int, y: int): (r: int)
    requires z < DayFromYear(y + 1)
    ensures DayFromYear(r) <= z < DayFromYear(r + 1)
    decreases DayFromYear(y + 1) - z
  {
    DayFromYearStep(y - 1);
    if DayFromYear(y) <= z then y else YearDown(z, y - 1)
  }

  /** The year containing day number z (YearFromTime, on day numbers). */
  function YearFromDay(z: int): (r: int)
    ensures DayFromYear(r) <= z < DayFromYear(r + 1)
  {
    if DayFromYear(1970) <= z then YearUp(z, 1970) else YearDown(z, 1969)
  }

  /** Only one year contains a given day. */
  lemma {:induction false} YearUnique(z: int, y: int)
    requires DayFromYear(y) <= z < DayFromYear(y + 1)
    ensures YearFromDay(z) == y
  {
    var r := YearFromDay(z);
    if r < y {
      DayFromYearMonotone(r + 1, y);
      assert false;
    } else if r > y {
      DayFromYearMonotone(y + 1, r);
      assert false;
    }
  }

  /** Number of days of month m (0-based: January is 0) in a leap or common year. */
  function MonthLength(m: int, leap: bool): (n: int)
    ensures 28 <= n <= 31
  {
    if m == 1 then (if leap then 29 else 28)
    else if m == 3 || m == 5 || m == 8 || m == 10 then 30
    else 31
  }

  /** Days before month m (0..12) of a year. */
  function MonthStart(m: int, leap: bool): (r: int)
    requires 0 <= m <= 12
    ensures r >= 0
  {
    if m == 0 then 0 else MonthStart(m - 1, leap) + MonthLength(m - 1, leap)
  }

  /** The months add up to the year: 365 days, or 366 in a leap year. */
  lemma {:induction false} MonthStartEnd(y: int)
    ensures MonthStart(12, IsLeap(y)) == DaysInYear(y)
  {
    var leap := IsLeap(y);
    var feb := MonthLength(1, leap);
    assert MonthStart(1, leap) == 31;
    assert MonthStart(2, leap) == 31 + feb;
    assert MonthStart(3, leap) == 62 + feb;
    assert MonthStart(4, leap) == 92 + feb;
    assert MonthStart(5, leap) == 123 + feb;
    assert MonthStart(6, leap) == 153 + feb;
    assert MonthStart(7, leap) == 184 + feb;
    assert MonthStart(8, leap) == 215 + feb;
    assert MonthStart(9, leap) == 245 + feb;
    assert MonthStart(10, leap) == 276 + feb;
    assert MonthStart(11, leap) == 306 + feb;
    assert MonthStart(12, leap) == 337 + feb;
  }

  /** Number of days of month m (0-based) in year y. */
  function DaysInMonth(y: int, m: int): (n: int)
    requires 0 <= m < 12
    ensures 28 <= n <= 31
  {
    MonthLength(m, IsLeap(y))
  }

  lemma {:induction false} MonthStartUpTo(m: int, leap: bool)
    requires 0 <= m < 12
    ensures MonthStart(m + 1, leap) <= MonthStart(12, leap)
    decreases 12 - m
  {
    if m < 11 {
      MonthStartUpTo(m + 1, leap);
    }
  }

  lemma {:induction false} MonthStartBelow(a: int, b: int, leap: bool)
    requires 0 <= a < b < 12
    ensures MonthStart(a + 1, leap) <= MonthStart(b, leap)
    decreases b - a
  {
    if a + 1 < b {
      MonthStartBelow(a + 1, b, leap);
    }
  }

  /** The month (0..11) containing day-in-year d, searching from month m. */
  function FindMonth(d: int, leap: bool, m: int): (r: int)
    requires 0 <= m < 12 && MonthStart(m, leap) <= d < MonthStart(12, leap)
    ensures m <= r < 12 && MonthStart(r, leap) <= d < MonthStart(r + 1, leap)
    decreases 12 - m
  {
    if d < MonthStart(m + 1, leap) then m else FindMonth(d, leap, m + 1)
  }

  /** The civil date of a day number. */
  datatype Civil = Civil(year: int, month: int, date: int)

  predicate ValidCivil(c: Civil) {
    0 <= c.month < 12 && 1 <= c.date <= DaysInMonth(c.year, c.month)
  }

  /** The day number of a civil date whose month is in range. */
  function DayNumber(c: Civil): int
    requires 0 <= c.month < 12
  {
    DayFromYear(c.year) + MonthStart(c.month, IsLeap(c.year)) + c.date - 1
  }

  /** Splitting a day number into year, month and date inverts DayNumber. */
  function CivilOfDay(z: int): (c: Civil)
    ensures ValidCivil(c) && DayNumber(c) == z
  {
    var y := YearFromDay(z);
    DayFromYearStep(y);
    MonthStartEnd(y);
    var d := z - DayFromYear(y);
    var m := FindMonth(d, IsLeap(y), 0);
    Civil(y, m, d - MonthStart(m, IsLeap(y)) + 1)
  }

  /** A valid civil date lies inside its year and inside its month. */
  lemma {:induction false} DayNumberBounds(c: Civil)
    requires ValidCivil(c)
    ensures DayFromYear(c.year) <= DayNumber(c) < DayFromYear(c.year + 1)
    ensures var d := DayNumber(c) - DayFromYear(c.year);
      MonthStart(c.month, IsLeap(c.year)) <= d < MonthStart(c.month + 1, IsLeap(c.year))
  {
    DayFromYearStep(c.year);
    MonthStartEnd(c.year);
    MonthStartUpTo(c.month, IsLeap(c.year));
  }

  /** Valid civil dates with the same day number are in the same year. */
  lemma {:induction false} SameDaySameYear(c1: Civil, c2: Civil)
    requires ValidCivil(c1) && ValidCivil(c2) && DayNumber(c1) == DayNumber(c2)
    ensures c1.year == c2.year
  {
    DayNumberBounds(c1);
    DayNumberBounds(c2);
    if c1.year < c2.year {
      DayFromYearMonotone(c1.year + 1, c2.year);
      assert false;
    } else if c2.year < c1.year {
      DayFromYearMonotone(c2.year + 1, c1.year);
      assert false;
    }
  }

  /** Distinct valid civil dates have distinct day numbers. */
  lemma {:induction false} DayNumberInjective(c1: Civil, c2: Civil)
    requires ValidCivil(c1) && ValidCivil(c2) && DayNumber(c1) == DayNumber(c2)
    ensures c1 == c2
  {
    SameDaySameYear(c1, c2);
    DayNumberBounds(c1);
    DayNumberBounds(c2);
    var leap := IsLeap(c1.year);
    var m1, m2 := c1.month, c2.month;
    if m1 < m2 {
      MonthStartBelow(m1, m2, leap);
      assert false;
    } else if m2 < m1 {
      MonthStartBelow(m2, m1, leap);
      assert false;
    }
  }

  /** YearFromTime, MonthFromTime (0-based) and DateFromTime. */
  function YearOf(t: int): int {
    CivilOfDay(Day(t)).year
  }

  function MonthOf(t: int): (m: int)
    ensures 0 <= m < 12
  {
    CivilOfDay(Day(t)).month
  }

  function DateOf(t: int): (d: int)
    ensures 1 <= d <= 31
  {
    CivilOfDay(Day(t)).date
  }

  /** HourFromTime, MinFromTime, SecFromTime, msFromTime. */
  function HourOf(t: int): (h: int)
    ensures 0 <= h < 24
  {
    TimeWithinDay(t) / MsPerHour
  }

  function MinuteOf(t: int): (m: int)
    ensures 0 <= m < 60
  {
    TimeWithinDay(t) / MsPerMinute % 60
  }

  function SecondOf(t: int): (s: int)
    ensures 0 <= s < 60
  {
    TimeWithinDay(t) / MsPerSecond % 60
  }

  function MsOf(t: int): (ms: int)
    ensures 0 <= ms < 1000
  {
    TimeWithinDay(t) % MsPerSecond
  }

  /**
   * MakeDay(year, month, date): months outside 0..11 carry into the year and
   * dates outside the month carry into neighbouring months.
   */
  function MakeDay(year: int, month: int, date: int): int {
    var ym := year + month / 12;
    var mn := month % 12;
    DayFromYear(ym) + MonthStart(mn, IsLeap(ym)) + date - 1
  }

  /** For a month already in 0..11, MakeDay does no carrying. */
  lemma {:induction false} MakeDayInYear(y: int, m: int, d: int)
    requires 0 <= m < 12
    ensures MakeDay(y, m, d) == DayNumber(Civil(y, m, d))
  {
    assert m / 12 == 0 && m % 12 == m;
  }

  /** The day number of a day's civil date is that day. */
  lemma {:induction false} CivilRoundTrip(z: int)
    ensures var c := CivilOfDay(z); MakeDay(c.year, c.month, c.date) == z
  {
    var c := CivilOfDay(z);
    MakeDayInYear(c.year, c.month, c.date);
  }

  /** The civil date of a valid civil date's day number is that date. */
  lemma {:induction false} MakeDayOfValid(c: Civil)
    requires ValidCivil(c)
    ensures CivilOfDay(MakeDay(c.year, c.month, c.date)) == c
  {
    MakeDayInYear(c.year, c.month, c.date);
    DayNumberInjective(CivilOfDay(DayNumber(c)), c);
  }

  /** `date.setDate(d)`: same year, month and time of day, date replaced (and normalised). */
  function SetDate(t: int, d: int): int {
    MakeDate(MakeDay(YearOf(t), MonthOf(t), d), TimeWithinDay(t))
  }

  /** `date.setHours(h, m, s, ms)`: same day, time of day replaced (and normalised). */
  function SetHours(t: int, h: int, m: int, s: int, ms: int): int {
    MakeDate(Day(t), MakeTime(h, m, s, ms))
  }

  /** Shifting the date field by k moves the time value by exactly k days. */
  lemma {:induction false} SetDateShift(t: int, k: int)
    ensures SetDate(t, DateOf(t) + k) == t + k * MsPerDay
  {
    var z := Day(t);
    var r := TimeWithinDay(t);
    DateShiftDay(z, k);
    assert SetDate(t, DateOf(t) + k) == MakeDate(z + k, r);
    assert MakeDate(z + k, r) == z * MsPerDay + r + k * MsPerDay;
  }

  /** Moving the date of a day's civil date by k moves the day number by k. */
  lemma {:induction false} DateShiftDay(z: int, k: int)
    ensures var c := CivilOfDay(z); MakeDay(c.year, c.month, c.date + k) == z + k
  {
    var c := CivilOfDay(z);
    MakeDayInYear(c.year, c.month, c.date + k);
    assert DayNumber(Civil(c.year, c.month, c.date + k)) == DayNumber(c) + k;
  }

  lemma {:induction false} DayShift(t: int, k: int)
    ensures Day(t + k * MsPerDay) == Day(t) + k
  {
    var r := TimeWithinDay(t);
    assert t + k * MsPerDay == (Day(t) + k) * MsPerDay + r;
    MakeDateSplit(Day(t) + k, r);
  }

  /** setHours keeps the day and sets exactly the requested time of day. */
  lemma {:induction false} SetHoursFields(t: int, h: int)
    requires 0 <= h < 24
    ensures var u := SetHours(t, h, 0, 0, 0);
      Day(u) == Day(t) && HourOf(u) == h && MinuteOf(u) == 0 && SecondOf(u) == 0 && MsOf(u) == 0
  {
    TimeFields(h, 0, 0);
    MakeDateSplit(Day(t), MakeTime(h, 0, 0, 0));
  }

  lemma {:induction false} TimeFields(h: int, min: int, s: int)
    requires 0 <= h < 24 && 0 <= min < 60 && 0 <= s < 60
    ensures var time := MakeTime(h, min, s, 0);
      time / MsPerHour == h && time / MsPerMinute % 60 == min &&
      time / MsPerSecond % 60 == s && time % MsPerSecond == 0
  {
    var time := MakeTime(h, min, s, 0);
    assert time == (h * 60 + min) * MsPerMinute + s * MsPerSecond;
    assert time / MsPerSecond == (h * 60 + min) * 60 + s;
    assert time / MsPerMinute == h * 60 + min;
  }

  /** The fields of the time of day, put back together, are the time of day. */
  lemma {:induction false} TimeDecomposition(t: int)
    ensures MakeTime(HourOf(t), MinuteOf(t), SecondOf(t), MsOf(t)) == TimeWithinDay(t)
  {
    var r := TimeWithinDay(t);
    var secs := r / MsPerSecond;
    var mins := r / MsPerMinute;
    assert r == secs * 1000 + r % 1000;
    assert mins == secs / 60;
    assert secs == mins * 60 + secs % 60;
    assert HourOf(t) == mins / 60;
    assert mins == HourOf(t) * 60 + mins % 60;
  }

  /** `setHours(getHours() + 1)` moves the time value by exactly one hour. */
  lemma {:induction false} AddHour(t: int)
    ensures SetHours(t, HourOf(t) + 1, MinuteOf(t), SecondOf(t), MsOf(t)) == t + MsPerHour
  {
    TimeDecomposition(t);
    assert MakeTime(HourOf(t) + 1, MinuteOf(t), SecondOf(t), MsOf(t)) == TimeWithinDay(t) + MsPerHour;
  }

  /** `new Date(y, m, d, h, min, s)` on integers: a year 0..99 means 1900 + year. */
  function JsYear(y: int): (r: int)
    ensures 0 <= y <= 99 ==> r == 1900 + y
    ensures !(0 <= y <= 99) ==> r == y
  {
    if 0 <= y <= 99 then 1900 + y else y
  }

  function NewDate(y: int, m: int, d: int, h: int, min: int, s: int): int {
    MakeDate(MakeDay(JsYear(y), m, d), MakeTime(h, min, s, 0))
  }

  /** The constructor on in-range fields reproduces those fields. */
  lemma {:induction false} NewDateFields(y: int, m: int, d: int, h: int, min: int, s: int)
    requires !(0 <= y <= 99)
    requires 0 <= m < 12 && 1 <= d <= DaysInMonth(y, m)
    requires 0 <= h < 24 && 0 <= min < 60 && 0 <= s < 60
    ensures var t := NewDate(y, m, d, h, min, s);
      YearOf(t) == y && MonthOf(t) == m && DateOf(t) == d &&
      HourOf(t) == h && MinuteOf(t) == min && SecondOf(t) == s && MsOf(t) == 0
  {
    var time := MakeTime(h, min, s, 0);
    assert 0 <= time < MsPerDay;
    assert JsYear(y) == y;
    var z := MakeDay(y, m, d);
    MakeDateSplit(z, time);
    MakeDayOfValid(Civil(y, m, d));
    TimeFields(h, min, s);
  }
}
