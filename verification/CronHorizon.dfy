/**
 When does the search come back empty? The loop gives up 4 * 365 days after it starts,
 and the comment on that exit says it should never happen. It happens exactly for
 expressions whose only days are 29 February, or no day at all.
 */
module CronHorizon {
  import opened Options
  import opened Calendar
  import opened Cron

  /** What parsing guarantees of a field: some value is allowed and none lies outside [lo, hi]. */
  ghost predicate FieldOk(f: FieldSet, lo: int, hi: int) {
    && |f.bits| == 64
    && (exists v :: lo <= v <= hi && f.Contains(v))
    && (forall v :: 0 <= v < 64 && f.bits[v] ==> lo <= v <= hi)
  }

  ghost predicate ExprOk(c: CronExpr) {
    && FieldOk(c.minute, 0, 59)
    && FieldOk(c.hour, 0, 23)
    && FieldOk(c.dom, 1, 31)
    && FieldOk(c.month, 1, 12)
    && FieldOk(c.dow, 0, 6)
  }

  /** Month m of a common year has a day the day fields admit. */
  ghost predicate CommonDay(c: CronExpr, m: int)
    requires 1 <= m <= 12
  {
    !c.dow.star || exists d :: 1 <= d <= DaysInMonth(1, m) && c.dom.Contains(d)
  }

  /** Some allowed month has such a day, so every year has an activation. */
  ghost predicate EveryYear(c: CronExpr) {
    exists m :: 1 <= m <= 12 && c.month.Contains(m) && CommonDay(c, m)
  }

  lemma CommonMonthIsShortest(y: int, m: int)
    requires 1 <= m <= 12
    ensures DaysInMonth(1, m) <= DaysInMonth(y, m)
    ensures DaysInMonth(1, m) < DaysInMonth(y, m) ==> m == 2 && DaysInMonth(y, m) == 29 && IsLeap(y)
  {
  }

  lemma WeekdayInFirstWeek(n: int, w: int) returns (k: int)
    requires 0 <= w <= 6
    ensures 0 <= k < 7 && Weekday(n + k) == w
  {
    k := (w - Weekday(n)) % 7;
    assert (n + 1 + k) % 7 == ((n + 1) % 7 + k) % 7;
    assert Weekday(n) + k == w || Weekday(n) + k == w + 7;
  }

  /** In any year y, an allowed month with a common day has a day on which the day rule holds. */
  lemma MatchingDay(c: CronExpr, y: int, m: int) returns (d: int)
    requires ExprOk(c) && 1 <= m <= 12 && CommonDay(c, m)
    ensures 1 <= d <= DaysInMonth(y, m) && c.DayMatches(DayNumber(y, m, d))
  {
    hide DaysBeforeYear, DaysBeforeMonth, CivilOf, FieldSet.Contains;
    if !c.dow.star {
      var w :| 0 <= w <= 6 && c.dow.Contains(w);
      var k := WeekdayInFirstWeek(DayNumber(y, m, 1), w);
      d := 1 + k;
      assert DayNumber(y, m, d) == DayNumber(y, m, 1) + k;
    } else {
      d :| 1 <= d <= DaysInMonth(1, m) && c.dom.Contains(d);
      CommonMonthIsShortest(y, m);
      CivilRoundTrip(Civil(y, m, d));
    }
  }

  lemma DateMatches(c: CronExpr, y: int, m: int, d: int, h: int, i: int)
    requires 1 <= m <= 12 && 1 <= d <= DaysInMonth(y, m) && c.DayMatches(DayNumber(y, m, d))
    requires 0 <= h <= 23 && 0 <= i <= 59
    requires c.month.Contains(m) && c.hour.Contains(h) && c.minute.Contains(i)
    ensures c.Matches(AtTime(DayNumber(y, m, d), h, i))
  {
    hide DayNumber, CivilOf, CronExpr.DayMatches, FieldSet.Contains, HourOfMinute, MinuteOfHour, DayOfMinute, AtTime;
    AtTimeParts(DayNumber(y, m, d), h, i);
    CivilRoundTrip(Civil(y, m, d));
  }

  /** Next year always has an activation, and it lies inside the horizon. */
  lemma ActivationNextYear(c: CronExpr, s: int) returns (a: int)
    requires ExprOk(c) && EveryYear(c)
    ensures s <= a < s + HORIZON && c.Matches(a)
  {
    hide DaysBeforeYear, CivilOf, FieldSet.Contains, CronExpr.Matches, CronExpr.DayMatches, YearOf, DayNumber, CommonDay;
    var m :| 1 <= m <= 12 && c.month.Contains(m) && CommonDay(c, m);
    var h :| 0 <= h <= 23 && c.hour.Contains(h);
    var i :| 0 <= i <= 59 && c.minute.Contains(i);
    var day := DayOfMinute(s);
    var y := YearOf(day);
    var d := MatchingDay(c, y + 1, m);
    a := AtTime(DayNumber(y + 1, m, d), h, i);
    DateMatches(c, y + 1, m, d, h, i);
    DateInYear(Civil(y + 1, m, d));
    YearStep(y);
    YearStep(y + 1);
    assert day < DayNumber(y + 1, m, d) < day + 732;
  }

  lemma EveryYearSuffices(c: CronExpr, t: int)
    requires ExprOk(c) && EveryYear(c)
    ensures NextActivation(c, t).Some?
  {
    hide CronExpr.Matches, FirstMatch, ExprOk, EveryYear;
    var a := ActivationNextYear(c, StartMinute(t));
    FirstMatchIsLeast(c, StartMinute(t), StartMinute(t) + HORIZON);
  }

  /** The instant just before 1 March 2020: its horizon ends as 29 February 2024 begins. */
  function LeapGap(): int {
    (DayNumber(2020, 3, 1) * 1440 - 1) * 60_000_000_000
  }

  lemma LeapGapYears()
    ensures DaysBeforeYear(2024) == DaysBeforeYear(2020) + 1461
    ensures DayNumber(2024, 2, 29) == DayNumber(2020, 3, 1) + 1460
  {
    hide DaysBeforeYear;
    YearStep(2020);
    YearStep(2021);
    YearStep(2022);
    YearStep(2023);
    assert DaysBeforeMonth(2020, 3) == 60 && DaysBeforeMonth(2024, 2) == 31;
  }

  lemma NoLeapDayInGap(n: int)
    requires DayNumber(2020, 3, 1) <= n < DayNumber(2020, 3, 1) + 1460
    ensures !(CivilOf(n).month == 2 && CivilOf(n).day == 29)
  {
    hide DaysBeforeYear, CivilOf, YearOf;
    var e := CivilOf(n);
    LeapGapYears();
    assert DaysBeforeMonth(2020, 3) == 60 && DaysBeforeMonth(2024, 2) == 31;
    if e.month == 2 && e.day == 29 {
      assert IsLeap(e.year);
      assert DaysBeforeMonth(e.year, 2) == 31;
      if e.year < 2020 { YearsIncrease(e.year, 2020); }
      if e.year > 2024 { YearsIncrease(2024, e.year); }
    }
  }

  /** Without a yearly activation, a matching day can only be 29 February. */
  lemma OnlyLeapDays(c: CronExpr, x: int)
    requires ExprOk(c) && !EveryYear(c) && c.Matches(x)
    ensures CivilOf(DayOfMinute(x)).month == 2 && CivilOf(DayOfMinute(x)).day == 29
  {
    hide CivilOf, FieldSet.Contains, HourOfMinute, MinuteOfHour;
    var e := CivilOf(DayOfMinute(x));
    CommonMonthIsShortest(e.year, e.month);
    assert !CommonDay(c, e.month);
    assert c.dow.star && !c.dom.Contains(1);
    assert !c.dom.star by { StarContains(c.dom, 1); }
  }

  lemma StarContains(f: FieldSet, v: int)
    ensures f.star ==> f.Contains(v)
  {
  }

  lemma GapIsMissed(c: CronExpr)
    requires ExprOk(c) && !EveryYear(c)
    ensures NextActivation(c, LeapGap()).None?
  {
    hide CronExpr.Matches, FirstMatch, ExprOk, EveryYear, CivilOf, DayNumber;
    var s := StartMinute(LeapGap());
    assert s == DayNumber(2020, 3, 1) * 1440;
    forall x | s <= x < s + HORIZON ensures !c.Matches(x) {
      if c.Matches(x) {
        OnlyLeapDays(c, x);
        NoLeapDayInGap(DayOfMinute(x));
        assert false;
      }
    }
    FirstMatchIsLeast(c, s, s + HORIZON);
  }

  /**
   The exact horizon statement: over all start times, the search never comes back empty
   if and only if some allowed month has an admitted day in a common year.
   */
  lemma NeverZeroIff(c: CronExpr)
    requires ExprOk(c)
    ensures (forall t :: NextActivation(c, t).Some?) <==> EveryYear(c)
  {
    hide NextActivation, ExprOk, EveryYear;
    if EveryYear(c) {
      forall t ensures NextActivation(c, t).Some? {
        EveryYearSuffices(c, t);
      }
    } else {
      GapIsMissed(c);
    }
  }

  /** Day fields that admit a day up to the 28th, any weekday, or every day never miss. */
  lemma OrdinaryDaysNeverMiss(c: CronExpr, t: int)
    requires ExprOk(c)
    requires (c.dom.star && c.dow.star) || !c.dow.star || exists d :: 1 <= d <= 28 && c.dom.Contains(d)
    ensures NextActivation(c, t).Some?
  {
    hide NextActivation, FieldSet.Contains;
    var m :| 1 <= m <= 12 && c.month.Contains(m);
    if c.dom.star && c.dow.star {
      StarContains(c.dom, 1);
    }
    assert CommonDay(c, m);
    EveryYearSuffices(c, t);
  }
}
