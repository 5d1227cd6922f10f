/**
 What every single log file satisfies in any run: its lines come from one rotation period,
 and it respects the size limit unless it holds a single line. Retention does not matter.
 */
module LogBounds {
  import opened Options
  import opened ByteStrings
  import opened Periods
  import opened LogRotation

  // --- One period per file ---

  ghost predicate OnePeriod(interval: Interval, lines: seq<Line>) {
    forall i, j :: 0 <= i < |lines| && 0 <= j < |lines| ==>
      PeriodKey(interval, lines[i].at) == PeriodKey(interval, lines[j].at)
  }

  /** Every line is from the anchor's period or from after the anchor. */
  ghost predicate Anchored(interval: Interval, anchor: int, lines: seq<Line>) {
    forall i :: 0 <= i < |lines| ==>
      anchor <= lines[i].at || PeriodKey(interval, lines[i].at) == PeriodKey(interval, anchor)
  }

  ghost predicate PastLines(lines: seq<Line>, clock: int) {
    forall i :: 0 <= i < |lines| ==> lines[i].at <= clock
  }

  ghost predicate LiveOk(interval: Interval, s: State) {
    s.live.Some? ==>
      var f := s.live.value;
      && OnePeriod(interval, f.lines) && PastLines(f.lines, s.clock)
      && (f.lines != [] ==> f.mtime == f.lines[|f.lines| - 1].at)
      && (s.open ==> Anchored(interval, s.periodStart, f.lines))
  }

  ghost predicate PeriodsOk(interval: Interval, s: State) {
    && SizeTrue(s) && LiveOk(interval, s)
    && forall n :: n in s.rotated ==> OnePeriod(interval, s.rotated[n].lines)
  }

  lemma OpenedPeriods(interval: Interval, s: State, now: int)
    requires PeriodsOk(interval, s)
    ensures PeriodsOk(interval, Opened(s, now))
  {
    hide PeriodKey, ByteCount, AllTextual;
    OpenedSize(s, now);
    if s.live.Some? { BytesIsZero(s.live.value.lines); }
  }

  lemma BytesIsZero(lines: seq<Line>)
    ensures AllTextual(lines) ==> (ByteCount(lines) == 0 <==> lines == [])
  {
    if AllTextual(lines) { BytesZero(lines); }
  }

  lemma RotatedPeriods(c: Config, s: State, s': State, now: int)
    requires PeriodsOk(c.interval, s) && s.live.Some? && s.live.value.lines != [] && RotatedTo(c, s, s', now)
    ensures PeriodsOk(c.interval, s')
  {
    hide PeriodKey, ByteCount, AllTextual, OnePeriod, Anchored;
    RotatedSize(c, s, s', now);
  }

  /** Writing without rotating: the anchor's period is now's, so every line's is. */
  lemma AppendedPeriods(c: Config, s: State, text: Bytes, now: int)
    requires PeriodsOk(c.interval, s) && s.open && s.clock == now && |text| > 0
    requires s.live.value.lines == [] || PeriodKey(c.interval, s.periodStart) == PeriodKey(c.interval, now)
    requires s.live.value.lines == [] ==> s.periodStart <= now
    ensures PeriodsOk(c.interval, Appended(c, s, text, now))
  {
    hide PeriodKey, ByteCount, AllTextual;
    AppendedSize(c, s, text, now);
    var lines := s.live.value.lines;
    forall i | 0 <= i < |lines| ensures PeriodKey(c.interval, lines[i].at) == PeriodKey(c.interval, now) {
      if s.periodStart <= lines[i].at {
        PeriodIsConvex(c.interval, s.periodStart, lines[i].at, now);
      }
    }
  }

  ghost predicate ClockOk(s: State) {
    s.open ==> s.periodStart <= s.clock
  }

  ghost predicate Mtimes(s: State) {
    s.live.Some? ==> s.live.value.mtime <= s.clock
  }

  lemma PeriodStep(c: Config, s: State, op: Op, now: int, s': State)
    requires c.interval != Never
    requires PeriodsOk(c.interval, s) && ClockOk(s) && Mtimes(s) && s.clock <= now && StepTo(c, s, op, now, s')
    ensures PeriodsOk(c.interval, s') && ClockOk(s') && Mtimes(s')
  {
    hide PeriodKey, ByteCount, AllTextual, OnePeriod, Anchored, PruneResult, SizeTrue;
    var t := s.(clock := now);
    assert PeriodsOk(c.interval, t) by { LaterClock(c.interval, s, now); }
    match op
    case WriteLine(text) =>
      var o, line := Opened(t, now), WithNewline(text);
      OpenedPeriods(c.interval, t, now);
      OpenedSize(t, now);
      RotatingIsNonEmpty(c, o, |line|, now);
      OpenSize(o);
      if WriteRotates(c, t, text, now) {
        var mid := Renamed(o, now).(rotated := s'.rotated);
        RotatedPeriods(c, o, mid, now);
        OpenedPeriods(c.interval, mid, now);
        AppendedPeriods(c, Opened(mid, now), line, now);
      } else {
        AppendedPeriods(c, o, line, now);
      }
    case Reopen =>
      assert PeriodsOk(c.interval, t.(open := false)) by { ClosedPeriods(c.interval, t); }
      OpenedPeriods(c.interval, t.(open := false), now);
    case Close => ClosedPeriods(c.interval, t);
    case RotateCheck =>
      RotatingIsNonEmpty(c, t, 0, now);
      CheckRotatesLive(c, t, now);
      if CheckRotates(c, t, now) { RotatedPeriods(c, t, s', now); } else { PrunedPeriods(c, t, s', now); }
  }

  lemma OpenSize(s: State)
    requires SizeTrue(s) && s.open
    ensures s.live.Some? && (s.size == 0 <==> s.live.value.lines == [])
  {
    BytesZero(s.live.value.lines);
  }

  lemma LaterClock(interval: Interval, s: State, now: int)
    requires PeriodsOk(interval, s) && s.clock <= now
    ensures PeriodsOk(interval, s.(clock := now))
  {
    hide PeriodKey, ByteCount, AllTextual, OnePeriod, Anchored;
  }

  lemma ClosedPeriods(interval: Interval, s: State)
    requires PeriodsOk(interval, s)
    ensures PeriodsOk(interval, s.(open := false))
  {
    hide PeriodKey, ByteCount, AllTextual, OnePeriod, Anchored;
  }

  lemma PrunedPeriods(c: Config, s: State, s': State, now: int)
    requires PeriodsOk(c.interval, s) && PrunedTo(c, s, s', now)
    ensures PeriodsOk(c.interval, s')
  {
    hide PeriodKey, ByteCount, AllTextual, OnePeriod, Anchored;
    PrunedSize(c, s, s', now);
  }

  lemma {:induction false} PeriodRun(c: Config, states: seq<State>, calls: seq<Call>, start: int, i: nat)
    requires c.interval != Never && Run(c, states, calls) && states[0] == Empty(start) && i < |states|
    ensures PeriodsOk(c.interval, states[i]) && ClockOk(states[i]) && Mtimes(states[i])
  {
    hide StepTo, PeriodsOk;
    if i == 0 {
      assert PeriodsOk(c.interval, Empty(start)) by { EmptyOk(c.interval, start); }
    } else {
      PeriodRun(c, states, calls, start, i - 1);
      PeriodStep(c, states[i - 1], calls[i - 1].op, calls[i - 1].now, states[i]);
    }
  }

  lemma EmptyOk(interval: Interval, start: int)
    ensures PeriodsOk(interval, Empty(start))
  {
  }

  /**
   With a time interval and a clock that does not go back, every live or rotated file holds
   lines of a single period, also when an empty file was opened a period before its first line.
   */
  lemma FilesHoldOnePeriod(c: Config, states: seq<State>, calls: seq<Call>, start: int, i: nat)
    requires c.interval != Never && Run(c, states, calls) && states[0] == Empty(start) && i < |states|
    ensures OnePeriod(c.interval, LiveLines(states[i]))
    ensures forall n :: n in states[i].rotated ==> OnePeriod(c.interval, states[i].rotated[n].lines)
  {
    hide StepTo, PeriodKey, SizeTrue;
    PeriodRun(c, states, calls, start, i);
  }

  // --- The size limit ---

  ghost predicate WithinLimit(maxBytes: int, lines: seq<Line>) {
    ByteCount(lines) <= maxBytes || |lines| == 1
  }

  ghost predicate LimitsOk(maxBytes: int, s: State) {
    && SizeTrue(s)
    && (s.live.Some? ==> WithinLimit(maxBytes, s.live.value.lines))
    && forall n :: n in s.rotated ==> WithinLimit(maxBytes, s.rotated[n].lines)
  }

  lemma AppendedLimits(c: Config, s: State, text: Bytes, now: int)
    requires c.maxBytes > 0 && LimitsOk(c.maxBytes, s) && s.open && |text| > 0
    requires s.size == 0 || s.size + |text| <= c.maxBytes
    ensures LimitsOk(c.maxBytes, Appended(c, s, text, now))
  {
    AppendedSize(c, s, text, now);
    OpenSize(s);
    BytesAppend(s.live.value.lines, Line(text, now));
  }

  lemma OpenedLimits(maxBytes: int, s: State, now: int)
    requires maxBytes > 0 && LimitsOk(maxBytes, s)
    ensures LimitsOk(maxBytes, Opened(s, now))
  {
    OpenedSize(s, now);
  }

  lemma RotatedLimits(c: Config, s: State, s': State, now: int)
    requires LimitsOk(c.maxBytes, s) && s.live.Some? && s.live.value.lines != [] && RotatedTo(c, s, s', now)
    ensures LimitsOk(c.maxBytes, s')
  {
    hide ByteCount, AllTextual, WithinLimit;
    RotatedSize(c, s, s', now);
  }

  lemma LimitStep(c: Config, s: State, op: Op, now: int, s': State)
    requires c.maxBytes > 0 && LimitsOk(c.maxBytes, s) && StepTo(c, s, op, now, s')
    ensures LimitsOk(c.maxBytes, s')
  {
    hide PeriodKey, ByteCount, AllTextual, WithinLimit, PruneResult, SizeTrue;
    var t := s.(clock := now);
    assert LimitsOk(c.maxBytes, t) by { SameFilesSameLimits(c.maxBytes, s, t); }
    match op
    case WriteLine(text) =>
      var o, line := Opened(t, now), WithNewline(text);
      OpenedLimits(c.maxBytes, t, now);
      OpenedSize(t, now);
      RotatingIsNonEmpty(c, o, |line|, now);
      if WriteRotates(c, t, text, now) {
        var mid := Renamed(o, now).(rotated := s'.rotated);
        RotatedLimits(c, o, mid, now);
        OpenedLimits(c.maxBytes, mid, now);
        OpenedFresh(mid, now);
        AppendedLimits(c, Opened(mid, now), line, now);
      } else {
        AppendedLimits(c, o, line, now);
      }
    case Reopen =>
      SameFilesSameLimits(c.maxBytes, t, t.(open := false));
      OpenedLimits(c.maxBytes, t.(open := false), now);
    case Close => SameFilesSameLimits(c.maxBytes, t, s');
    case RotateCheck =>
      RotatingIsNonEmpty(c, t, 0, now);
      CheckRotatesLive(c, t, now);
      if CheckRotates(c, t, now) { RotatedLimits(c, t, s', now); } else { PrunedLimits(c, t, s', now); }
  }

  lemma OpenedFresh(s: State, now: int)
    requires s.live.None? && !s.open
    ensures Opened(s, now).size == 0
  {
  }

  lemma SameFilesSameLimits(maxBytes: int, s: State, t: State)
    requires LimitsOk(maxBytes, s) && t.live == s.live && t.rotated == s.rotated && t.size == s.size && (t.open ==> s.open)
    ensures LimitsOk(maxBytes, t)
  {
    hide ByteCount;
  }

  lemma PrunedLimits(c: Config, s: State, s': State, now: int)
    requires LimitsOk(c.maxBytes, s) && PrunedTo(c, s, s', now)
    ensures LimitsOk(c.maxBytes, s')
  {
    hide ByteCount;
    PrunedSize(c, s, s', now);
  }

  lemma {:induction false} LimitRun(c: Config, states: seq<State>, calls: seq<Call>, start: int, i: nat)
    requires c.maxBytes > 0 && Run(c, states, calls) && states[0] == Empty(start) && i < |states|
    ensures LimitsOk(c.maxBytes, states[i])
  {
    hide StepTo;
    if i > 0 {
      hide LimitsOk;
      LimitRun(c, states, calls, start, i - 1);
      LimitStep(c, states[i - 1], calls[i - 1].op, calls[i - 1].now, states[i]);
    }
  }

  /** Starting from no file, each file keeps within the limit or is one long line. */
  lemma FilesWithinLimit(c: Config, states: seq<State>, calls: seq<Call>, start: int, i: nat)
    requires c.maxBytes > 0 && Run(c, states, calls) && states[0] == Empty(start) && i < |states|
    ensures states[i].live.Some? ==> ByteCount(states[i].live.value.lines) <= c.maxBytes || |states[i].live.value.lines| == 1
    ensures forall n :: n in states[i].rotated ==>
              ByteCount(states[i].rotated[n].lines) <= c.maxBytes || |states[i].rotated[n].lines| == 1
  {
    hide StepTo, ByteCount, SizeTrue;
    LimitRun(c, states, calls, start, i);
  }

  // --- Three rotations in one second ---

  /** A limit that every line exceeds. */
  function Tiny(): Config { Config(Never, 1, KeepForever, true) }

  /** Writing to a non-empty file rotates it; the new file holds the new line. */
  lemma OverfullWrite(s: State, text: Bytes, now: int, s': State)
    requires s.open && s.live.Some? && s.size > 0 && StepTo(Tiny(), s, WriteLine(text), now, s')
    ensures var l, n := Line(WithNewline(text), now), RotatedName(s, now);
            && s'.live == Some(File([l], now)) && s'.open && s'.size > 0
            && s'.rotated == s.rotated[n := s.live.value] && s'.order == Without(s.order, n) + [n]
            && s'.written == s.written + [l]
  {
    hide Without, DayOf, SecondOf;
    assert ByteCount([]) == 0;
    assert [] + [Line(WithNewline(text), now)] == [Line(WithNewline(text), now)];
  }

  lemma FirstWrite(text: Bytes, now: int, s': State)
    requires StepTo(Tiny(), Empty(now), WriteLine(text), now, s')
    ensures s'.live == Some(File([Line(WithNewline(text), now)], now)) && s'.open && s'.size > 0
    ensures s'.rotated == map[] && s'.order == [] && s'.written == [Line(WithNewline(text), now)]
  {
    assert [] + [Line(WithNewline(text), now)] == [Line(WithNewline(text), now)];
  }

  lemma WithoutShort(x: Name, y: Name)
    requires x != y
    ensures Without([], x) == [] && Without([x], y) == [x] && Without([x, y], y) == [x]
  {
    assert [x, y][..1] == [x] && [x][..0] == [];
  }

  lemma ContentsOfTwo(x: Name, y: Name, r: map<Name, File>)
    requires x in r && y in r
    ensures Contents([x, y], r) == r[x].lines + r[y].lines
  {
    assert [x, y][..1] == [x] && [x][..0] == [];
    assert Contents([x], r) == r[x].lines;
  }

  /** With a one-byte limit, four lines written in one second leave only three files. */
  lemma RotationsInOneSecondLose(now: int, s1: State, s2: State, s3: State, s4: State)
    requires StepTo(Tiny(), Empty(now), WriteLine([97]), now, s1) && StepTo(Tiny(), s1, WriteLine([98]), now, s2)
    requires StepTo(Tiny(), s2, WriteLine([99]), now, s3) && StepTo(Tiny(), s3, WriteLine([100]), now, s4)
    ensures |s4.written| == 4 && |Contents(s4.order, s4.rotated)| + |LiveLines(s4)| == 3
  {
    hide StepTo, Without, DayOf, SecondOf, Contents, WithNewline;
    var x, y := Dated(DayOf(now)), Stamped(SecondOf(now));
    FirstWrite([97], now, s1);
    OverfullWrite(s1, [98], now, s2);
    OverfullWrite(s2, [99], now, s3);
    OverfullWrite(s3, [100], now, s4);
    WithoutShort(x, y);
    assert s2.order == [x];
    assert s3.order == [x, y];
    assert s4.order == [x, y];
    ContentsOfTwo(x, y, s4.rotated);
  }
}
