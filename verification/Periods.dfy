/**
 Rotation periods: the key of the day, ISO week, month or year an instant falls into, and
 the fact that rotation relies on, that equal keys are exactly shared periods.

 Instants are nanoseconds of a fixed-offset local clock.
 */
module Periods {
  import opened Calendar
  import opened GoText

  datatype Interval = Never | Daily | Weekly | Monthly | Yearly

  datatype Key = NoKey | DayKey(year: int, month: nat, day: nat) | WeekKey(year: int, week: nat) | MonthKey(year: int, month: nat) | YearKey(year: int)

  function DayOf(t: int): int { t / 86_400_000_000_000 }

  /** Go's ISOWeek: the year and week of the Thursday of t's Monday-based week. */
  function IsoWeek(day: int): (int, nat) {
    var thursday := 7 * (day / 7) + 3;
    var year := YearOf(thursday);
    (year, (thursday - DaysBeforeYear(year)) / 7 + 1)
  }

  /** The numbers of a key. */
  function KeyParts(interval: Interval, t: int): Key {
    var day := DayOf(t);
    match interval
    case Never => NoKey
    case Daily => var c := CivilOf(day); DayKey(c.year, c.month, c.day)
    case Weekly => var w := IsoWeek(day); WeekKey(w.0, w.1)
    case Monthly => MonthKey(CivilOf(day).year, CivilOf(day).month)
    case Yearly => YearKey(CivilOf(day).year)
  }

  /** A year with at least this many digits; the sign of one before year 0 counts as a character only for fmt. */
  function YearText(year: int, width: nat): string {
    if year < 0 then "-" + Padded(-year, width) else Padded(year, width)
  }

  /** The layouts 2006-01-02, %04d-W%02d, 2006-01 and 2006. */
  function KeyText(k: Key): string {
    match k
    case NoKey => ""
    case DayKey(year, month, day) => (YearText(year, 4) + "-" + Padded(month, 2)) + "-" + Padded(day, 2)
    case WeekKey(year, week) => (if year < 0 then YearText(year, 3) else YearText(year, 4)) + "-" + ("W" + Padded(week, 2))
    case MonthKey(year, month) => YearText(year, 4) + "-" + Padded(month, 2)
    case YearKey(year) => YearText(year, 4)
  }

  /** periodKey: the text that rotation compares. */
  function PeriodKey(interval: Interval, t: int): string {
    KeyText(KeyParts(interval, t))
  }

  /** Periods counted off: days, weeks from Monday, months, years. */
  function PeriodIndex(interval: Interval, t: int): int {
    match interval
    case Never => 0
    case Daily => DayOf(t)
    case Weekly => DayOf(t) / 7
    case Monthly => MonthIndex(DayOf(t))
    case Yearly => YearOf(DayOf(t))
  }

  lemma WeekKeysAgree(a: int, b: int)
    ensures IsoWeek(a) == IsoWeek(b) <==> a / 7 == b / 7
  {
    hide YearOf, DaysBeforeYear;
    var s, t := 7 * (a / 7) + 3, 7 * (b / 7) + 3;
    if IsoWeek(a) == IsoWeek(b) {
      var base := DaysBeforeYear(YearOf(s));
      assert (s - base) / 7 == (t - base) / 7;
      assert -7 < s - t < 7;
    }
  }

  lemma YearMonotone(a: int, b: int)
    requires a <= b
    ensures YearOf(a) <= YearOf(b)
  {
    hide YearOf, DaysBeforeYear;
    if YearOf(b) + 1 < YearOf(a) { YearsIncrease(YearOf(b) + 1, YearOf(a)); }
  }

  lemma YearTextInjective(a: int, b: int, width: nat)
    ensures YearText(a, width) == YearText(b, width) ==> a == b
  {
    hide Padded;
    if a < 0 && b < 0 {
      PaddedInjective(-a, -b, width);
      assert ("-" + Padded(-a, width))[1..] == Padded(-a, width) && ("-" + Padded(-b, width))[1..] == Padded(-b, width);
    } else if a >= 0 && b >= 0 {
      PaddedInjective(a, b, width);
    } else {
      SignTells(a, b, width);
    }
  }

  lemma SignTells(a: int, b: int, width: nat)
    requires (a < 0) != (b < 0)
    ensures forall w: nat, v: nat :: YearText(a, w) != YearText(b, v)
  {
    hide Padded;
    forall w: nat, v: nat ensures YearText(a, w) != YearText(b, v) {
      assert YearText(if a < 0 then a else b, if a < 0 then w else v)[0] == '-';
      assert IsDigit(YearText(if a < 0 then b else a, if a < 0 then v else w)[0]);
    }
  }

  lemma NoDash(n: nat)
    ensures '-' !in Padded(n, 2) && '-' !in "W" + Padded(n, 2)
  {
    hide Padded;
    assert forall i :: 0 <= i < |Padded(n, 2)| ==> IsDigit(Padded(n, 2)[i]);
  }

  lemma WeekYearInjective(a: int, b: int)
    ensures (if a < 0 then YearText(a, 3) else YearText(a, 4)) == (if b < 0 then YearText(b, 3) else YearText(b, 4)) ==> a == b
  {
    hide YearText;
    YearTextInjective(a, b, 3);
    YearTextInjective(a, b, 4);
    if (a < 0) != (b < 0) { SignTells(a, b, 3); }
  }

  lemma MonthTextInjective(y: int, m: nat, z: int, n: nat)
    ensures YearText(y, 4) + "-" + Padded(m, 2) == YearText(z, 4) + "-" + Padded(n, 2) ==> y == z && m == n
  {
    hide YearText, Padded;
    NoDash(m);
    NoDash(n);
    if YearText(y, 4) + "-" + Padded(m, 2) == YearText(z, 4) + "-" + Padded(n, 2) {
      LastSeparator(YearText(y, 4), Padded(m, 2), YearText(z, 4), Padded(n, 2), '-');
      YearTextInjective(y, z, 4);
      PaddedInjective(m, n, 2);
    }
  }

  /** Keys of one kind have equal texts only if they are equal. */
  lemma TextInjective(interval: Interval, a: int, b: int)
    ensures PeriodKey(interval, a) == PeriodKey(interval, b) <==> KeyParts(interval, a) == KeyParts(interval, b)
  {
    hide YearText, Padded, CivilOf, IsoWeek, YearOf, DayOf;
    var k, l := KeyParts(interval, a), KeyParts(interval, b);
    if KeyText(k) == KeyText(l) {
      match interval
      case Never =>
      case Daily =>
        var ym, zn := YearText(k.year, 4) + "-" + Padded(k.month, 2), YearText(l.year, 4) + "-" + Padded(l.month, 2);
        NoDash(k.day);
        NoDash(l.day);
        LastSeparator(ym, Padded(k.day, 2), zn, Padded(l.day, 2), '-');
        MonthTextInjective(k.year, k.month, l.year, l.month);
        PaddedInjective(k.day, l.day, 2);
      case Weekly =>
        var y, z := if k.year < 0 then YearText(k.year, 3) else YearText(k.year, 4), if l.year < 0 then YearText(l.year, 3) else YearText(l.year, 4);
        NoDash(k.week);
        NoDash(l.week);
        LastSeparator(y, "W" + Padded(k.week, 2), z, "W" + Padded(l.week, 2), '-');
        WeekYearInjective(k.year, l.year);
        assert ("W" + Padded(k.week, 2))[1..] == Padded(k.week, 2) && ("W" + Padded(l.week, 2))[1..] == Padded(l.week, 2);
        PaddedInjective(k.week, l.week, 2);
      case Monthly => MonthTextInjective(k.year, k.month, l.year, l.month);
      case Yearly => YearTextInjective(k.year, l.year, 4);
    }
  }

  lemma PartsAreShared(interval: Interval, a: int, b: int)
    ensures KeyParts(interval, a) == KeyParts(interval, b) <==> PeriodIndex(interval, a) == PeriodIndex(interval, b)
  {
    hide YearOf, DaysBeforeYear, CivilOf, DaysBeforeMonth, IsoWeek, DayOf;
    WeekKeysAgree(DayOf(a), DayOf(b));
    MonthParts(DayOf(a));
    MonthParts(DayOf(b));
  }

  /** Two instants share a period if and only if the texts of their keys are equal. */
  lemma KeysAreShared(interval: Interval, a: int, b: int)
    ensures PeriodKey(interval, a) == PeriodKey(interval, b) <==> PeriodIndex(interval, a) == PeriodIndex(interval, b)
  {
    hide PeriodKey, KeyParts, PeriodIndex;
    TextInjective(interval, a, b);
    PartsAreShared(interval, a, b);
  }

  lemma MonthParts(n: int)
    ensures CivilOf(n).year == MonthIndex(n) / 12 && CivilOf(n).month == MonthIndex(n) % 12 + 1
  {
    hide YearOf, DaysBeforeYear, CivilOf;
  }

  lemma PeriodsAdvance(interval: Interval, a: int, b: int)
    requires a <= b
    ensures PeriodIndex(interval, a) <= PeriodIndex(interval, b)
  {
    hide YearOf, MonthIndex;
    assert DayOf(a) <= DayOf(b);
    YearMonotone(DayOf(a), DayOf(b));
    MonthIndexMonotone(DayOf(a), DayOf(b));
  }

  /** A period has no holes: what lies between two of its instants belongs to it. */
  lemma PeriodIsConvex(interval: Interval, a: int, b: int, c: int)
    requires a <= b <= c && PeriodKey(interval, a) == PeriodKey(interval, c)
    ensures PeriodKey(interval, b) == PeriodKey(interval, a)
  {
    hide PeriodKey, PeriodIndex;
    KeysAreShared(interval, a, c);
    KeysAreShared(interval, a, b);
    PeriodsAdvance(interval, a, b);
    PeriodsAdvance(interval, b, c);
  }

  /**
   What the periods are, in nanoseconds since the first day of year 1, a Monday: days of 24
   hours, seven of them from a Monday, the months and the years of the calendar.
   */
  lemma PeriodsAre(a: int, b: int)
    ensures PeriodKey(Daily, a) == PeriodKey(Daily, b) <==> a / 86_400_000_000_000 == b / 86_400_000_000_000
    ensures PeriodKey(Weekly, a) == PeriodKey(Weekly, b) <==> a / 86_400_000_000_000 / 7 == b / 86_400_000_000_000 / 7
    ensures var c, d := CivilOf(a / 86_400_000_000_000), CivilOf(b / 86_400_000_000_000);
            && (PeriodKey(Monthly, a) == PeriodKey(Monthly, b) <==> c.year == d.year && c.month == d.month)
            && (PeriodKey(Yearly, a) == PeriodKey(Yearly, b) <==> c.year == d.year)
  {
    hide PeriodKey, CivilOf, YearOf, DaysBeforeYear, DaysBeforeMonth;
    KeysAreShared(Daily, a, b);
    KeysAreShared(Weekly, a, b);
    KeysAreShared(Monthly, a, b);
    KeysAreShared(Yearly, a, b);
    MonthParts(DayOf(a));
    MonthParts(DayOf(b));
  }

  /** The day number of 4 January, which is always in week 1. */
  function FourthOfJanuary(year: int): int {
    DayNumber(year, 1, 4)
  }

  /**
   The weeks of ISO 8601: week 1 of a year is the week, from Monday, with its 4 January, and
   the weeks are counted from there up to week 1 of the next year.
   */
  lemma IsoWeekIs(day: int)
    ensures var w := IsoWeek(day);
            && FourthOfJanuary(w.0) / 7 <= day / 7 < FourthOfJanuary(w.0 + 1) / 7
            && w.1 == day / 7 - FourthOfJanuary(w.0) / 7 + 1
  {
    hide YearOf, DaysBeforeYear;
    var year := IsoWeek(day).0;
    YearStep(year);
    var d := DaysBeforeYear(year);
    assert FourthOfJanuary(year) == d + 3 && FourthOfJanuary(year + 1) == DaysBeforeYear(year + 1) + 3;
    WeeksBetween(day / 7, d);
  }

  lemma WeeksBetween(k: int, d: int)
    ensures (7 * k + 3 - d) / 7 == k - (d + 3) / 7
  {
    var q, r := d / 7, d % 7;
    assert d == 7 * q + r;
    if r <= 3 {
      assert (d + 3) / 7 == q && (7 * k + 3 - d) / 7 == k - q;
    } else {
      assert (d + 3) / 7 == q + 1 && (7 * k + 3 - d) / 7 == k - q - 1;
    }
  }

  /** The texts of 2024-02-05, a Monday in week 6: the layouts of the four intervals. */
  lemma KeyTextsOfOneDay()
    ensures KeyText(DayKey(2024, 2, 5)) == "2024-02-05" && KeyText(WeekKey(2024, 6)) == "2024-W06"
    ensures KeyText(MonthKey(2024, 2)) == "2024-02" && KeyText(YearKey(2024)) == "2024"
    ensures KeyText(YearKey(33)) == "0033"
  {
    TwoDigits(2);
    TwoDigits(5);
    TwoDigits(6);
    FourDigits(2024, 2, 0, 2, 4);
    assert Decimal(33) == "33" by { assert Decimal(3) == "3"; }
    assert Zeros(2) == "00" by { assert Zeros(1) == "0"; }
  }

  lemma TwoDigits(n: nat)
    requires n < 10
    ensures Padded(n, 2) == ['0', DigitChar(n)]
  {
    assert Decimal(n) == [DigitChar(n)];
    assert Zeros(1) == "0" by { assert Zeros(0) == ""; }
  }

  lemma FourDigits(n: nat, a: nat, b: nat, c: nat, d: nat)
    requires 0 < a < 10 && b < 10 && c < 10 && d < 10 && n == 1000 * a + 100 * b + 10 * c + d
    ensures Padded(n, 4) == [DigitChar(a), DigitChar(b), DigitChar(c), DigitChar(d)]
  {
    assert Decimal(n / 1000) == [DigitChar(a)];
    assert Decimal(n / 100) == [DigitChar(a), DigitChar(b)];
    assert Decimal(n / 10) == [DigitChar(a), DigitChar(b), DigitChar(c)];
    assert Decimal(n) == [DigitChar(a), DigitChar(b), DigitChar(c), DigitChar(d)];
    assert Zeros(0) == "";
  }
}
