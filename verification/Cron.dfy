/**
 The cron engine: field sets, the day rule, and the skip-ahead search for the next
 activation, proved equal to the scan of every minute.

 Instants given to Next are nanoseconds, activation times are whole minutes, both of
 one fixed-offset local clock whose offset is a whole number of minutes.
 */
module Cron {
  import opened Options
  import opened Calendar

  // 4 * 365 days in minutes.
  const HORIZON: int := 2_102_400

  /** n cleared bits; a field holds 64 of them before parsing. */
  function NoBits(n: nat): (b: seq<bool>)
    ensures |b| == n && forall i :: 0 <= i < n ==> !b[i]
  {
    if n == 0 then [] else [false] + NoBits(n - 1)
  }

  /** The allowed values of one cron field. */
  datatype FieldSet = FieldSet(bits: seq<bool>, star: bool) {
    predicate Contains(v: int) {
      star || (0 <= v < |bits| && bits[v])
    }
  }

  function Star(): FieldSet { FieldSet(NoBits(64), true) }

  function Single(v: int): FieldSet
    requires 0 <= v < 64
  {
    FieldSet(NoBits(64)[v := true], false)
  }

  datatype CronExpr = CronExpr(raw: string, minute: FieldSet, hour: FieldSet, dom: FieldSet, month: FieldSet, dow: FieldSet) {

    /** The vixie rule: two restricted day fields are alternatives, a star defers to the other. */
    predicate DayMatches(day: int) {
      var domOk := dom.Contains(CivilOf(day).day);
      var dowOk := dow.Contains(Weekday(day));
      if dom.star && dow.star then true
      else if dom.star then dowOk
      else if dow.star then domOk
      else domOk || dowOk
    }

    /** The expression fires at minute m. */
    predicate Matches(m: int) {
      && month.Contains(MonthOfMinute(m))
      && DayMatches(DayOfMinute(m))
      && hour.Contains(HourOfMinute(m))
      && minute.Contains(MinuteOfHour(m))
    }
  }

  /** The first whole minute strictly after instant t; a minute has 6 * 10^10 nanoseconds. */
  function StartMinute(t: int): int {
    t / 60_000_000_000 + 1
  }

  /** The naive scan: try every minute from lo up to hi. */
  function FirstMatch(c: CronExpr, lo: int, hi: int): (r: Option<int>)
    decreases hi - lo
  {
    if lo >= hi then None
    else if c.Matches(lo) then Some(lo)
    else FirstMatch(c, lo + 1, hi)
  }

  /** What Next must return: the scan over the horizon that starts after t. */
  function NextActivation(c: CronExpr, t: int): Option<int> {
    FirstMatch(c, StartMinute(t), StartMinute(t) + HORIZON)
  }

  ghost predicate NoMatch(c: CronExpr, lo: int, hi: int) {
    forall m :: lo <= m < hi ==> !c.Matches(m)
  }

  /** The scan finds the least matching minute, and finds nothing exactly when there is none. */
  lemma {:induction false} FirstMatchIsLeast(c: CronExpr, lo: int, hi: int)
    ensures FirstMatch(c, lo, hi).None? <==> NoMatch(c, lo, hi)
    ensures FirstMatch(c, lo, hi).Some? ==>
              var m := FirstMatch(c, lo, hi).value;
              lo <= m < hi && c.Matches(m) && NoMatch(c, lo, m)
    decreases hi - lo
  {
    hide CronExpr.Matches;
    if lo < hi && !c.Matches(lo) {
      FirstMatchIsLeast(c, lo + 1, hi);
    }
  }

  lemma {:induction false} ScanSkips(c: CronExpr, lo: int, mid: int, hi: int)
    requires lo <= mid && NoMatch(c, lo, mid)
    ensures FirstMatch(c, lo, hi) == FirstMatch(c, mid, hi)
    decreases mid - lo
  {
    hide CronExpr.Matches;
    if lo < mid {
      if lo < hi { ScanSkips(c, lo + 1, mid, hi); }
    }
  }

  // --- The skip functions ---

  /** Minutes of the same month as t have its number; a later month is a later month index. */
  function MonthIndexOfMinute(t: int): int { MonthIndex(DayOfMinute(t)) }

  lemma MonthNumber(t: int)
    ensures MonthOfMinute(t) == MonthIndexOfMinute(t) % 12 + 1
    ensures CivilOf(DayOfMinute(t)).year == MonthIndexOfMinute(t) / 12
    ensures CivilOf(DayOfMinute(t)).month == MonthOfMinute(t)
  {
    hide CivilOf, YearOf, DaysBeforeYear, DaysBeforeMonth;
  }

  lemma MinutesBeforeMonthStart(t: int, x: int, k: int)
    requires t <= x < MonthStart(k) * 1440
    ensures MonthIndexOfMinute(t) <= MonthIndexOfMinute(x) < k
  {
    MonthIndexMonotone(DayOfMinute(t), DayOfMinute(x));
    MonthIndexBounds(DayOfMinute(x));
    MonthOrder(k - 1, MonthIndexOfMinute(x));
    if k <= MonthIndexOfMinute(x) {
      MonthOrder(k, MonthIndexOfMinute(x));
    }
  }

  /**
   Jumps to the first day of the next month the field allows: every minute it passes is
   in t's own month or in a month the field does not allow.
   */
  method AdvanceToMonth(t: int, f: FieldSet) returns (r: int)
    ensures t < r
    ensures forall x :: t <= x < r && MonthIndexOfMinute(x) != MonthIndexOfMinute(t) ==> !f.Contains(MonthOfMinute(x))
    ensures (exists k :: 1 <= k <= 12 && f.Contains(k)) ==>
              f.Contains(MonthOfMinute(r)) && MonthIndexOfMinute(t) < MonthIndexOfMinute(r) <= MonthIndexOfMinute(t) + 12
              && r == MonthStart(MonthIndexOfMinute(r)) * 1440
    ensures (forall k | 1 <= k <= 12 :: !f.Contains(k)) ==> r == t + 365 * 1440
  {
    hide FieldSet.Contains, MonthIndex, MonthIndexOfMinute, MonthOfMinute, CivilOf, MonthStart, DayNumber;
    var civil := CivilOf(DayOfMinute(t));
    var m := civil.month + 1;
    var year := civil.year;
    ghost var k0 := MonthIndexOfMinute(t);
    MonthNumber(t);
    assert k0 == k0 / 12 * 12 + k0 % 12;
    for i := 0 to 12
      invariant year * 12 + m - 1 == k0 + 1 + i
      invariant 1 <= m <= 13
      invariant forall k :: k0 < k <= k0 + i ==> !f.Contains(k % 12 + 1)
    {
      if m > 12 {
        m := 1;
        year := year + 1;
      }
      ghost var k := k0 + 1 + i;
      assert k == year * 12 + m - 1 && k / 12 == year && k % 12 == m - 1;
      MonthStartIs(k);
      if f.Contains(m) {
        r := DayNumber(year, m, 1) * 1440;
        MonthArrival(t, k, f);
        MonthNumber(r);
        return;
      }
      m := m + 1;
    }
    forall v | 1 <= v <= 12 ensures !f.Contains(v) {
      TwelveMonthsCoverAll(k0, v);
    }
    r := t + 365 * 1440;
  }

  lemma MonthStartIs(k: int)
    ensures MonthStart(k) == DayNumber(k / 12, k % 12 + 1, 1)
  {
  }

  lemma TwelveMonthsCoverAll(k0: int, v: int)
    requires 1 <= v <= 12
    ensures exists k :: k0 < k <= k0 + 12 && k % 12 + 1 == v
  {
    var k := k0 + 1 + (v - 1 - (k0 + 1)) % 12;
    assert k % 12 == (v - 1) % 12;
  }

  lemma MonthsPassed(t: int, x: int, k: int, f: FieldSet)
    requires t <= x < MonthStart(k) * 1440 && MonthIndexOfMinute(x) != MonthIndexOfMinute(t)
    requires forall j :: MonthIndexOfMinute(t) < j < k ==> !f.Contains(j % 12 + 1)
    ensures !f.Contains(MonthOfMinute(x))
  {
    hide MonthOfMinute, MonthIndex, MonthIndexOfMinute, MonthStart, FieldSet.Contains;
    MinutesBeforeMonthStart(t, x, k);
    MonthNumber(x);
  }

  lemma MonthArrival(t: int, k: int, f: FieldSet)
    requires MonthIndexOfMinute(t) < k
    requires forall j :: MonthIndexOfMinute(t) < j < k ==> !f.Contains(j % 12 + 1)
    ensures t < MonthStart(k) * 1440
    ensures MonthIndexOfMinute(MonthStart(k) * 1440) == k
    ensures forall x :: t <= x < MonthStart(k) * 1440 && MonthIndexOfMinute(x) != MonthIndexOfMinute(t) ==> !f.Contains(MonthOfMinute(x))
  {
    hide MonthOfMinute, MonthIndex, MonthStart, FieldSet.Contains;
    MonthIndexBounds(DayOfMinute(t));
    MonthOrder(MonthIndexOfMinute(t), k);
    assert DayOfMinute(MonthStart(k) * 1440) == MonthStart(k);
    MonthStartsIncrease(k, k + 1);
    MonthIndexSandwich(MonthStart(k), k);
    forall x | t <= x < MonthStart(k) * 1440 && MonthIndexOfMinute(x) != MonthIndexOfMinute(t)
      ensures !f.Contains(MonthOfMinute(x))
    {
      MonthsPassed(t, x, k, f);
    }
  }

  /** Jumps to the next hour of t's day that the field allows, or to the next midnight. */
  method AdvanceToHour(t: int, f: FieldSet) returns (r: int)
    ensures t < r <= (DayOfMinute(t) + 1) * 1440
    ensures forall x :: t <= x < r && HourOfMinute(x) != HourOfMinute(t) ==> !f.Contains(HourOfMinute(x))
    ensures r == (DayOfMinute(t) + 1) * 1440 || (DayOfMinute(r) == DayOfMinute(t) && f.Contains(HourOfMinute(r)))
  {
    var h := HourOfMinute(t) + 1;
    var day := DayOfMinute(t) * 1440;
    assert HourOfMinute(t) < 24;
    for i := 0 to 24
      invariant h == HourOfMinute(t) + 1 + i
      invariant h <= 24
      invariant forall v :: HourOfMinute(t) < v < h ==> !f.Contains(v)
    {
      if h >= 24 {
        r := day + 1440;
        HoursPassed(t, r, h, f);
        return;
      }
      if f.Contains(h) {
        r := day + h * 60;
        HoursPassed(t, r, h, f);
        return;
      }
      h := h + 1;
    }
    assert false;
    r := day + 1440;
  }

  lemma HoursPassed(t: int, r: int, h: int, f: FieldSet)
    requires HourOfMinute(t) < h <= 24 && r == DayOfMinute(t) * 1440 + h * 60
    requires forall v :: HourOfMinute(t) < v < h ==> !f.Contains(v)
    ensures t < r
    ensures h < 24 ==> DayOfMinute(r) == DayOfMinute(t) && HourOfMinute(r) == h
    ensures forall x :: t <= x < r && HourOfMinute(x) != HourOfMinute(t) ==> !f.Contains(HourOfMinute(x))
  {
    if h < 24 { AtTimeParts(DayOfMinute(t), h, 0); }
    forall x | t <= x < r && HourOfMinute(x) != HourOfMinute(t) ensures !f.Contains(HourOfMinute(x)) {
      assert DayOfMinute(x) == DayOfMinute(t);
      assert x == DayOfMinute(t) * 1440 + x % 1440 && t == DayOfMinute(t) * 1440 + t % 1440;
      assert HourOfMinute(t) < HourOfMinute(x) < h;
    }
  }

  /** Jumps to the next minute of t's hour that the field allows, or to the next hour. */
  method AdvanceToMinute(t: int, f: FieldSet) returns (r: int)
    ensures t < r <= (t / 60 + 1) * 60
    ensures forall x :: t < x < r ==> !f.Contains(MinuteOfHour(x))
    ensures r == (t / 60 + 1) * 60 || f.Contains(MinuteOfHour(r))
  {
    var m := MinuteOfHour(t) + 1;
    var hour := t / 60 * 60;
    for i := 0 to 60
      invariant m == MinuteOfHour(t) + 1 + i
      invariant forall v :: MinuteOfHour(t) < v < m ==> v < 60 && !f.Contains(v)
    {
      if m >= 60 {
        r := hour + 60;
        return;
      }
      if f.Contains(m) {
        r := hour + m;
        return;
      }
      m := m + 1;
    }
    assert MinuteOfHour(t) < 60 < m;
    r := hour + 60;
  }

  // --- The search ---

  lemma MonthMismatch(c: CronExpr, t: int, r: int)
    requires !c.month.Contains(MonthOfMinute(t))
    requires forall x :: t <= x < r && MonthIndexOfMinute(x) != MonthIndexOfMinute(t) ==> !c.month.Contains(MonthOfMinute(x))
    ensures NoMatch(c, t, r)
  {
    hide FieldSet.Contains, CronExpr.DayMatches, MonthOfMinute, MonthIndexOfMinute;
    forall x | t <= x < r ensures !c.Matches(x) {
      MonthNumber(x);
      MonthNumber(t);
    }
  }

  lemma DayMismatch(c: CronExpr, t: int)
    requires !c.DayMatches(DayOfMinute(t))
    ensures NoMatch(c, t, (DayOfMinute(t) + 1) * 1440)
  {
    hide CronExpr.DayMatches, MonthOfMinute;
    forall x | t <= x < (DayOfMinute(t) + 1) * 1440 ensures !c.Matches(x) {
      assert DayOfMinute(x) == DayOfMinute(t);
    }
  }

  lemma HourMismatch(c: CronExpr, t: int, r: int)
    requires !c.hour.Contains(HourOfMinute(t))
    requires forall x :: t <= x < r && HourOfMinute(x) != HourOfMinute(t) ==> !c.hour.Contains(HourOfMinute(x))
    ensures NoMatch(c, t, r)
  {
    hide FieldSet.Contains, CronExpr.DayMatches, MonthOfMinute, HourOfMinute;
  }

  lemma MinuteMismatch(c: CronExpr, t: int, r: int)
    requires !c.minute.Contains(MinuteOfHour(t))
    requires forall x :: t < x < r ==> !c.minute.Contains(MinuteOfHour(x))
    ensures NoMatch(c, t, r)
  {
    hide FieldSet.Contains, CronExpr.DayMatches, MonthOfMinute, HourOfMinute, MinuteOfHour;
  }

  /**
   The skip-ahead search returns exactly what the minute-by-minute scan returns. Each
   turn of the loop passes only minutes that do not match and moves strictly forward.
   */
  method Next(c: CronExpr, t: int) returns (r: Option<int>)
    ensures r == NextActivation(c, t)
  {
    hide FieldSet.Contains, CronExpr.DayMatches, CivilOf, DaysBeforeYear, DaysBeforeMonth, MonthIndexOfMinute, MonthOfMinute, HourOfMinute, MinuteOfHour, FirstMatch;
    var next := StartMinute(t);
    var limit := next + HORIZON;
    ghost var start := next;
    while next < limit
      invariant start <= next && NoMatch(c, start, next)
      decreases limit - next
    {
      ghost var before := next;
      if !c.month.Contains(MonthOfMinute(next)) {
        next := AdvanceToMonth(next, c.month);
        MonthMismatch(c, before, next);
        continue;
      }
      if !c.DayMatches(DayOfMinute(next)) {
        var civil := CivilOf(DayOfMinute(next));
        next := DayNumber(civil.year, civil.month, civil.day + 1) * 1440;
        DayMismatch(c, before);
        continue;
      }
      if !c.hour.Contains(HourOfMinute(next)) {
        next := AdvanceToHour(next, c.hour);
        HourMismatch(c, before, next);
        continue;
      }
      if !c.minute.Contains(MinuteOfHour(next)) {
        next := AdvanceToMinute(next, c.minute);
        MinuteMismatch(c, before, next);
        continue;
      }
      ScanSkips(c, start, next, limit);
      FirstMatchIsLeast(c, next, limit);
      assert c.Matches(next);
      return Some(next);
    }
    FirstMatchIsLeast(c, start, limit);
    r := None;
  }

  /**
   When an expression fires, said of the date, the weekday and the clock: month, hour and
   minute are allowed, and the day is in whichever of the two day fields is restricted, in
   either of them when both are, and any day when none is.
   */
  ghost predicate FiresAt(c: CronExpr, date: Civil, weekday: int, hour: int, minute: int) {
    && c.month.Contains(date.month) && c.hour.Contains(hour) && c.minute.Contains(minute)
    && ((!c.dom.star && c.dom.Contains(date.day)) || (!c.dow.star && c.dow.Contains(weekday)) || (c.dom.star && c.dow.star))
  }

  /** The expression fires at the m-th minute of the clock. */
  ghost predicate Fires(c: CronExpr, m: int) {
    FiresAt(c, CivilOf(m / 1440), Weekday(m / 1440), m % 1440 / 60, m % 60)
  }

  lemma MatchingIsFiring(c: CronExpr, m: int)
    ensures c.Matches(m) <==> Fires(c, m)
  {
    hide CivilOf, Weekday, FieldSet.Contains;
  }

  /**
   The day rule, field by field: with one field starred the other decides, with both starred
   every day will do, with both restricted either is enough.
   */
  lemma DayRule(c: CronExpr, day: int)
    ensures !c.dom.star && !c.dow.star ==> (c.DayMatches(day) <==> c.dom.Contains(CivilOf(day).day) || c.dow.Contains(Weekday(day)))
    ensures c.dom.star && !c.dow.star ==> (c.DayMatches(day) <==> c.dow.Contains(Weekday(day)))
    ensures !c.dom.star && c.dow.star ==> (c.DayMatches(day) <==> c.dom.Contains(CivilOf(day).day))
    ensures c.dom.star && c.dow.star ==> c.DayMatches(day)
  {
    hide CivilOf, Weekday, FieldSet.Contains;
  }

  /**
   Read in nanoseconds: the activation is a whole minute strictly after t at which the
   expression fires, it fires at no minute between, and there is none exactly when the four
   365-day years that follow the next whole minute hold no minute at which it fires.
   */
  lemma ActivationIsNext(c: CronExpr, t: int)
    ensures NextActivation(c, t).None? <==> forall m :: t < m * 60_000_000_000 && m < t / 60_000_000_000 + 1 + 4 * 365 * 1440 ==> !Fires(c, m)
    ensures NextActivation(c, t).Some? ==>
              var r := NextActivation(c, t).value;
              && t < r * 60_000_000_000 && r < t / 60_000_000_000 + 1 + 4 * 365 * 1440 && Fires(c, r)
              && forall m :: t < m * 60_000_000_000 && m < r ==> !Fires(c, m)
  {
    hide CronExpr.Matches, FirstMatch, Fires;
    var s := StartMinute(t);
    FirstMatchIsLeast(c, s, s + HORIZON);
    forall m: int ensures c.Matches(m) <==> Fires(c, m) { MatchingIsFiring(c, m); }
    forall m: int ensures t < m * 60_000_000_000 <==> s <= m {
      MinuteAfter(t, m);
    }
  }

  lemma MinuteAfter(t: int, m: int)
    ensures t < m * 60_000_000_000 <==> StartMinute(t) <= m
  {
  }
}
