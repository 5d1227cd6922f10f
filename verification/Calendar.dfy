/**
 The proleptic Gregorian calendar that Go's time package uses, over day numbers.

 Day 0 is Monday 1 January of year 1, and every integer is a day number. A clock
 with a fixed offset from UTC is assumed throughout, so local time is a count of
 minutes and a day always has 1440 of them.
 */
module Calendar {

  datatype Civil = Civil(year: int, month: int, day: int) {
    predicate Valid() {
      1 <= month <= 12 && 1 <= day <= DaysInMonth(year, month)
    }
  }

  predicate IsLeap(y: int) {
    y % 4 == 0 && (y % 100 != 0 || y % 400 == 0)
  }

  function YearLength(y: int): int {
    if IsLeap(y) then 366 else 365
  }

  function DaysInMonth(y: int, m: int): (d: int)
    ensures 28 <= d <= 31
  {
    if m == 2 then (if IsLeap(y) then 29 else 28)
    else if m == 4 || m == 6 || m == 9 || m == 11 then 30
    else 31
  }

  /** The day number of 1 January of year y: year 1 starts at day 0. */
  function DaysBeforeYear(y: int): int
    decreases if y >= 1 then y else 2 - y
  {
    if y == 1 then 0
    else if y > 1 then DaysBeforeYear(y - 1) + YearLength(y - 1)
    else DaysBeforeYear(y + 1) - YearLength(y)
  }

  /** The number of days of year y before the first of month m. */
  function DaysBeforeMonth(y: int, m: int): (d: int)
    requires 1 <= m <= 13
    ensures 28 * (m - 1) <= d <= 31 * (m - 1)
    decreases m
  {
    if m == 1 then 0 else DaysBeforeMonth(y, m - 1) + DaysInMonth(y, m - 1)
  }

  lemma YearStep(y: int)
    ensures DaysBeforeYear(y + 1) == DaysBeforeYear(y) + YearLength(y)
  {
  }

  lemma MonthsFillYear(y: int)
    ensures DaysBeforeMonth(y, 13) == YearLength(y)
  {
    assert DaysBeforeMonth(y, 2) == 31;
    assert DaysBeforeMonth(y, 4) == DaysBeforeMonth(y, 3) + 31;
    assert DaysBeforeMonth(y, 6) == DaysBeforeMonth(y, 4) + 61;
    assert DaysBeforeMonth(y, 8) == DaysBeforeMonth(y, 6) + 61;
    assert DaysBeforeMonth(y, 10) == DaysBeforeMonth(y, 8) + 61;
    assert DaysBeforeMonth(y, 12) == DaysBeforeMonth(y, 10) + 61;
  }

  lemma {:induction false} YearsIncrease(a: int, b: int)
    requires a < b
    ensures DaysBeforeYear(a) + 365 * (b - a) <= DaysBeforeYear(b) <= DaysBeforeYear(a) + 366 * (b - a)
    decreases b - a
  {
    YearStep(b - 1);
    if a < b - 1 {
      YearsIncrease(a, b - 1);
    }
  }

  // --- From a day number back to the date ---

  function YearAtOrAfter(y: int, n: int): (r: int)
    requires DaysBeforeYear(y) <= n
    ensures DaysBeforeYear(r) <= n < DaysBeforeYear(r + 1)
    decreases n - DaysBeforeYear(y)
  {
    YearStep(y);
    if n < DaysBeforeYear(y + 1) then y else YearAtOrAfter(y + 1, n)
  }

  function YearBefore(y: int, n: int): (r: int)
    requires n < DaysBeforeYear(y)
    ensures DaysBeforeYear(r) <= n < DaysBeforeYear(r + 1)
    decreases DaysBeforeYear(y) - n
  {
    YearStep(y - 1);
    if DaysBeforeYear(y - 1) <= n then y - 1 else YearBefore(y - 1, n)
  }

  /** The year that contains day n, searched from year 1. */
  function YearOf(n: int): (y: int)
    ensures DaysBeforeYear(y) <= n < DaysBeforeYear(y + 1)
  {
    if 0 <= n then YearAtOrAfter(1, n) else YearBefore(1, n)
  }

  function MonthFrom(y: int, m: int, rest: int): (r: int)
    requires 1 <= m <= 12 && DaysBeforeMonth(y, m) <= rest < YearLength(y)
    ensures m <= r <= 12 && DaysBeforeMonth(y, r) <= rest < DaysBeforeMonth(y, r + 1)
    decreases 12 - m
  {
    MonthsFillYear(y);
    if rest < DaysBeforeMonth(y, m + 1) then m else MonthFrom(y, m + 1, rest)
  }

  /** The calendar date of day n. */
  function CivilOf(n: int): (c: Civil)
    ensures c.Valid() && DayNumber(c.year, c.month, c.day) == n
    ensures c.year == YearOf(n)
  {
    var y := YearOf(n);
    YearStep(y);
    var rest := n - DaysBeforeYear(y);
    var m := MonthFrom(y, 1, rest);
    Civil(y, m, rest - DaysBeforeMonth(y, m) + 1)
  }

  /** Go's time.Date for the day: a day past the end of the month rolls over. */
  function DayNumber(y: int, m: int, d: int): int
    requires 1 <= m <= 13
  {
    DaysBeforeYear(y) + DaysBeforeMonth(y, m) + d - 1
  }

  lemma {:induction false} MonthsIncrease(y: int, a: int, b: int)
    requires 1 <= a < b <= 13
    ensures DaysBeforeMonth(y, a) + DaysInMonth(y, a) <= DaysBeforeMonth(y, b)
    decreases b
  {
    if a < b - 1 {
      MonthsIncrease(y, a, b - 1);
    }
  }

  lemma YearUnique(n: int, a: int, b: int)
    requires DaysBeforeYear(a) <= n < DaysBeforeYear(a + 1)
    requires DaysBeforeYear(b) <= n < DaysBeforeYear(b + 1)
    ensures a == b
  {
    if a < b && a + 1 < b { YearsIncrease(a + 1, b); }
    if b < a && b + 1 < a { YearsIncrease(b + 1, a); }
  }

  lemma DateInYear(c: Civil)
    requires c.Valid()
    ensures DaysBeforeYear(c.year) <= DayNumber(c.year, c.month, c.day) < DaysBeforeYear(c.year + 1)
  {
    YearStep(c.year);
    MonthsFillYear(c.year);
    MonthsIncrease(c.year, c.month, 13);
  }

  lemma DateUnique(c: Civil, e: Civil)
    requires c.Valid() && e.Valid()
    requires DayNumber(c.year, c.month, c.day) == DayNumber(e.year, e.month, e.day)
    ensures c == e
  {
    DateInYear(c);
    DateInYear(e);
    YearUnique(DayNumber(c.year, c.month, c.day), c.year, e.year);
    if e.month < c.month { MonthsIncrease(c.year, e.month, c.month); }
    if c.month < e.month { MonthsIncrease(c.year, c.month, e.month); }
  }

  /** Every valid date is the date of its own day number: the two maps are inverse. */
  lemma CivilRoundTrip(c: Civil)
    requires c.Valid()
    ensures CivilOf(DayNumber(c.year, c.month, c.day)) == c
  {
    DateUnique(c, CivilOf(DayNumber(c.year, c.month, c.day)));
  }

  /** 0 is Sunday, as in Go. */
  function Weekday(n: int): (w: int)
    ensures 0 <= w <= 6
  {
    (n + 1) % 7
  }

  // --- Months counted continuously ---

  function MonthIndex(n: int): int {
    CivilOf(n).year * 12 + CivilOf(n).month - 1
  }

  function MonthStart(i: int): int {
    DayNumber(i / 12, i % 12 + 1, 1)
  }

  lemma MonthStartStep(i: int)
    ensures MonthStart(i + 1) == MonthStart(i) + DaysInMonth(i / 12, i % 12 + 1)
  {
    var y, m := i / 12, i % 12 + 1;
    assert i == 12 * y + m - 1;
    if m == 12 {
      assert (i + 1) / 12 == y + 1 && (i + 1) % 12 == 0;
      YearStep(y);
      MonthsFillYear(y);
    } else {
      assert (i + 1) / 12 == y && (i + 1) % 12 == m;
    }
  }

  lemma {:induction false} MonthStartsIncrease(a: int, b: int)
    requires a < b
    ensures MonthStart(a) + 28 * (b - a) <= MonthStart(b) <= MonthStart(a) + 31 * (b - a)
    decreases b - a
  {
    MonthStartStep(b - 1);
    if a < b - 1 {
      MonthStartsIncrease(a, b - 1);
    }
  }

  lemma MonthIndexBounds(n: int)
    ensures MonthStart(MonthIndex(n)) <= n < MonthStart(MonthIndex(n) + 1)
  {
    hide YearOf, CivilOf, DaysBeforeYear, DaysBeforeMonth;
    var k, c := MonthIndex(n), CivilOf(n);
    assert k / 12 == c.year && k % 12 == c.month - 1;
    MonthStartStep(k);
  }

  lemma MonthUnique(n: int, a: int, b: int)
    requires MonthStart(a) <= n < MonthStart(a + 1)
    requires MonthStart(b) <= n < MonthStart(b + 1)
    ensures a == b
  {
    if a < b && a + 1 < b { MonthStartsIncrease(a + 1, b); }
    if b < a && b + 1 < a { MonthStartsIncrease(b + 1, a); }
  }

  /** Day n lies in month i exactly when it lies between the starts of months i and i + 1. */
  lemma MonthIndexSandwich(n: int, i: int)
    ensures MonthIndex(n) == i <==> MonthStart(i) <= n < MonthStart(i + 1)
  {
    hide MonthIndex, MonthStart;
    MonthIndexBounds(n);
    if MonthStart(i) <= n < MonthStart(i + 1) {
      MonthUnique(n, MonthIndex(n), i);
    }
  }

  /** Months are read off in order: a later day never lies in an earlier month. */
  lemma MonthIndexMonotone(a: int, b: int)
    requires a <= b
    ensures MonthIndex(a) <= MonthIndex(b)
  {
    MonthIndexBounds(a);
    MonthIndexBounds(b);
    MonthOrder(MonthIndex(b), MonthIndex(a));
  }

  lemma MonthOrder(i: int, j: int)
    ensures i < j ==> MonthStart(i + 1) <= MonthStart(j)
  {
    if i + 1 < j { MonthStartsIncrease(i + 1, j); }
  }

  // --- Minutes of a fixed-offset clock ---

  function DayOfMinute(t: int): int { t / 1440 }

  function HourOfMinute(t: int): (h: int)
    ensures 0 <= h <= 23
  {
    t % 1440 / 60
  }

  function MinuteOfHour(t: int): (m: int)
    ensures 0 <= m <= 59
  {
    t % 60
  }

  function MonthOfMinute(t: int): (m: int)
    ensures 1 <= m <= 12
  {
    CivilOf(DayOfMinute(t)).month
  }

  function AtTime(day: int, hour: int, minute: int): int {
    day * 1440 + hour * 60 + minute
  }

  lemma AtTimeParts(day: int, hour: int, minute: int)
    requires 0 <= hour <= 23 && 0 <= minute <= 59
    ensures DayOfMinute(AtTime(day, hour, minute)) == day
    ensures HourOfMinute(AtTime(day, hour, minute)) == hour
    ensures MinuteOfHour(AtTime(day, hour, minute)) == minute
  {
    var t := AtTime(day, hour, minute);
    var rest := hour * 60 + minute;
    assert t == day * 1440 + rest && 0 <= rest < 1440;
    assert t / 1440 == day;
    assert t % 1440 == rest;
    assert rest / 60 == hour;
    assert t == (day * 24 + hour) * 60 + minute;
    assert t % 60 == minute;
  }

  // --- The calendar, day after day ---

  /** Thirty days have September, April, June and November; February has 29 in a year divisible by 4 but not by 100, or by 400. */
  lemma MonthLengths(y: int)
    ensures DaysInMonth(y, 1) == DaysInMonth(y, 3) == DaysInMonth(y, 5) == DaysInMonth(y, 7) == DaysInMonth(y, 8) == 31
    ensures DaysInMonth(y, 10) == DaysInMonth(y, 12) == 31
    ensures DaysInMonth(y, 4) == DaysInMonth(y, 6) == DaysInMonth(y, 9) == DaysInMonth(y, 11) == 30
    ensures DaysInMonth(y, 2) == 29 <==> y % 4 == 0 && (y % 100 != 0 || y % 400 == 0)
    ensures DaysInMonth(y, 2) == 28 || DaysInMonth(y, 2) == 29
  {
  }

  /** Day 0 is 1 January of year 1, and each day has the date after the day before. */
  lemma DatesAdvance(n: int)
    ensures CivilOf(0) == Civil(1, 1, 1)
    ensures var c, next := CivilOf(n), CivilOf(n + 1);
            next == if c.day < DaysInMonth(c.year, c.month) then Civil(c.year, c.month, c.day + 1)
                    else if c.month < 12 then Civil(c.year, c.month + 1, 1)
                    else Civil(c.year + 1, 1, 1)
  {
    hide CivilOf, DaysBeforeYear, DaysInMonth;
    CivilRoundTrip(Civil(1, 1, 1));
    assert DayNumber(1, 1, 1) == 0 by { FirstDay(); }
    var c := CivilOf(n);
    if c.day < DaysInMonth(c.year, c.month) {
      CivilRoundTrip(Civil(c.year, c.month, c.day + 1));
    } else if c.month < 12 {
      CivilRoundTrip(Civil(c.year, c.month + 1, 1));
    } else {
      MonthsFillYear(c.year);
      YearStep(c.year);
      CivilRoundTrip(Civil(c.year + 1, 1, 1));
    }
  }

  lemma FirstDay()
    ensures DayNumber(1, 1, 1) == 0
  {
  }

  /** Day 0 is a Monday, and the seven weekdays follow each other, Sunday being 0. */
  lemma WeekdaysAdvance(n: int)
    ensures Weekday(0) == 1
    ensures Weekday(n + 1) == if Weekday(n) == 6 then 0 else Weekday(n) + 1
  {
  }

  /** 24 hours of 60 minutes make a day. */
  lemma MinutesMakeDays(t: int)
    ensures t == DayOfMinute(t) * 1440 + HourOfMinute(t) * 60 + MinuteOfHour(t)
    ensures 0 <= HourOfMinute(t) < 24 && 0 <= MinuteOfHour(t) < 60
    ensures MonthOfMinute(t) == CivilOf(DayOfMinute(t)).month
  {
    hide CivilOf;
    var r := t % 1440;
    assert t == t / 1440 * 1440 + r;
    assert r % 60 == t % 60 by { assert t == (t / 1440 * 24) * 60 + r; }
  }
}
