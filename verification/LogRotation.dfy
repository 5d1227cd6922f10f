/**
 The rotating log writer over a small file system: the live file, the rotated files, and
 the writer's own record of handle, size and period start.

 Each call reads one clock. Pruning sorts by modification time with an unstable sort, so
 its outcome is a relation. Nothing else touches the files, no file operation fails, and
 rotated files are not compressed.
 */
module LogRotation {
  import opened Options
  import opened ByteStrings
  import opened Periods

  /** A written line, newline included, and when it was written. */
  datatype Line = Line(text: Bytes, at: int)

  datatype File = File(lines: seq<Line>, mtime: int)

  /** The two name forms a rotated file can get. */
  datatype Name = Dated(day: int) | Stamped(second: int)

  datatype Keep = KeepNone | KeepCount(count: nat) | KeepAge(age: int) | KeepForever

  datatype Config = Config(interval: Interval, maxBytes: int, keep: Keep, holdOpen: bool)

  /** order, written, rotations and clock are history: they are never consulted. */
  datatype State = State(
    live: Option<File>, rotated: map<Name, File>,
    open: bool, size: int, periodStart: int,
    order: seq<Name>, written: seq<Line>, rotations: seq<int>, clock: int)

  function ByteCount(lines: seq<Line>): nat {
    if lines == [] then 0 else ByteCount(lines[..|lines| - 1]) + |lines[|lines| - 1].text|
  }

  function SecondOf(t: int): int { t / 1_000_000_000 }

  /** The byte 10 is '\n'. */
  function WithNewline(text: Bytes): Bytes {
    if text != [] && text[|text| - 1] == 10 then text else text + [10]
  }

  /**
   The line that is stored for a text: the text itself when it ends in a newline, and the
   text with a newline behind it when it does not.
   */
  ghost predicate LineFor(text: Bytes, line: Bytes) {
    && text <= line && |line| <= |text| + 1 && line != [] && line[|line| - 1] == 10
    && (text != [] && text[|text| - 1] == 10 ==> line == text)
  }

  lemma WithNewlineIs(text: Bytes)
    ensures LineFor(text, WithNewline(text))
  {
  }

  // --- The building blocks ---

  function Opened(s: State, now: int): State {
    if s.open then s
    else
      var f := if s.live.Some? then s.live.value else File([], now);
      var size := ByteCount(f.lines);
      s.(live := Some(f), open := true, size := size, periodStart := if size > 0 then f.mtime else now)
  }

  predicate NeedsRotate(c: Config, s: State, n: int, now: int) {
    s.size != 0 && (
      || (c.maxBytes > 0 && s.size + n > c.maxBytes)
      || (c.interval != Never && PeriodKey(c.interval, s.periodStart) != PeriodKey(c.interval, now)))
  }

  /** The date, or the date and time when the date is taken. */
  function RotatedName(s: State, now: int): Name {
    if Dated(DayOf(now)) in s.rotated then Stamped(SecondOf(now)) else Dated(DayOf(now))
  }

  function Without(order: seq<Name>, n: Name): seq<Name> {
    if order == [] then []
    else if order[|order| - 1] == n then Without(order[..|order| - 1], n)
    else Without(order[..|order| - 1], n) + [order[|order| - 1]]
  }

  /** Closing and renaming: a file that already has the name is replaced. */
  function Renamed(s: State, now: int): State
    requires s.live.Some?
  {
    var name := RotatedName(s, now);
    s.(live := None, rotated := s.rotated[name := s.live.value],
       open := false, size := 0, periodStart := now,
       order := Without(s.order, name) + [name], rotations := s.rotations + [SecondOf(now)])
  }

  /** What pruning may leave behind. */
  ghost predicate PruneResult(keep: Keep, before: map<Name, File>, after: map<Name, File>, now: int) {
    && after.Keys <= before.Keys
    && (forall n :: n in after ==> after[n] == before[n])
    && match keep
       case KeepForever => after == before
       case KeepNone => after == map[]
       case KeepAge(age) => forall n :: n in before ==> (n in after <==> now - before[n].mtime <= age)
       case KeepCount(count) =>
         && |after| == (if |before| <= count then |before| else count)
         && forall n, m :: n in after && m in before && m !in after ==> before[m].mtime <= before[n].mtime
  }

  ghost predicate PrunedTo(c: Config, s: State, s': State, now: int) {
    s' == s.(rotated := s'.rotated) && PruneResult(c.keep, s.rotated, s'.rotated, now)
  }

  ghost predicate RotatedTo(c: Config, s: State, s': State, now: int)
    requires s.live.Some?
  {
    if c.keep.KeepNone? then s' == Renamed(s, now).(rotated := Renamed(s, now).rotated - {RotatedName(s, now)})
    else PrunedTo(c, Renamed(s, now), s', now)
  }

  function Appended(c: Config, s: State, text: Bytes, now: int): State
    requires s.live.Some?
  {
    var l := Line(text, now);
    s.(live := Some(File(s.live.value.lines + [l], now)), size := s.size + |text|,
       open := c.holdOpen, written := s.written + [l])
  }

  // --- The operations ---

  datatype Op = WriteLine(text: Bytes) | Reopen | RotateCheck | Close

  /** writeLine rotates first when the policy demands it. */
  predicate WriteRotates(c: Config, s: State, text: Bytes, now: int) {
    NeedsRotate(c, Opened(s, now), |WithNewline(text)|, now)
  }

  predicate CheckRotates(c: Config, s: State, now: int) {
    s.live.Some? && ByteCount(s.live.value.lines) > 0 && (
      || (c.maxBytes > 0 && ByteCount(s.live.value.lines) >= c.maxBytes)
      || (c.interval != Never
          && PeriodKey(c.interval, if s.open then s.periodStart else s.live.value.mtime) != PeriodKey(c.interval, now)))
  }

  predicate Rotates(c: Config, s: State, op: Op, now: int) {
    match op
    case WriteLine(text) => WriteRotates(c, s, text, now)
    case RotateCheck => CheckRotates(c, s, now)
    case Reopen => false
    case Close => false
  }

  ghost predicate WroteTo(c: Config, s: State, text: Bytes, now: int, s': State) {
    var line := WithNewline(text);
    var o := Opened(s, now);
    o.live.Some? &&
    if !WriteRotates(c, s, text, now) then s' == Appended(c, o, line, now)
    else
      var mid := Renamed(o, now).(rotated := s'.rotated);
      RotatedTo(c, o, mid, now) && s' == Appended(c, Opened(mid, now), line, now)
  }

  ghost predicate StepTo(c: Config, s: State, op: Op, now: int, s': State) {
    var t := s.(clock := now);
    match op
    case WriteLine(text) => WroteTo(c, t, text, now, s')
    case Reopen => s' == if c.holdOpen then Opened(t.(open := false), now) else t.(open := false)
    case Close => s' == t.(open := false)
    case RotateCheck => if CheckRotates(c, t, now) then RotatedTo(c, t, s', now) else PrunedTo(c, t, s', now)
  }

  /** Runs with a clock that does not go back. */
  datatype Call = Call(op: Op, now: int)

  ghost predicate Run(c: Config, states: seq<State>, calls: seq<Call>) {
    && |states| == |calls| + 1
    && forall i :: 0 <= i < |calls| ==>
         states[i].clock <= calls[i].now && StepTo(c, states[i], calls[i].op, calls[i].now, states[i + 1])
  }

  /** No file yet. */
  function Empty(now: int): State {
    State(None, map[], false, 0, 0, [], [], [], now)
  }

  // --- What every run keeps: the size, the handle, non-empty rotated files ---

  ghost predicate SizeTrue(s: State) {
    && (s.open ==> s.live.Some? && s.size == ByteCount(s.live.value.lines))
    && (s.live.Some? ==> AllTextual(s.live.value.lines))
    && (forall n :: n in s.rotated ==> s.rotated[n].lines != [] && AllTextual(s.rotated[n].lines))
  }

  ghost predicate AllTextual(lines: seq<Line>) {
    forall i :: 0 <= i < |lines| ==> |lines[i].text| > 0
  }

  lemma BytesAppend(lines: seq<Line>, l: Line)
    ensures ByteCount(lines + [l]) == ByteCount(lines) + |l.text|
  {
    assert (lines + [l])[..|lines|] == lines;
  }

  lemma BytesZero(lines: seq<Line>)
    requires AllTextual(lines)
    ensures ByteCount(lines) == 0 <==> lines == []
  {
  }

  lemma OpenedSize(s: State, now: int)
    requires SizeTrue(s)
    ensures SizeTrue(Opened(s, now)) && Opened(s, now).live.Some? && Opened(s, now).open
  {
  }

  lemma RotatedSize(c: Config, s: State, s': State, now: int)
    requires SizeTrue(s) && s.live.Some? && s.live.value.lines != [] && RotatedTo(c, s, s', now)
    ensures SizeTrue(s') && s'.live.None? && !s'.open
  {
    hide ByteCount, PeriodKey;
  }

  lemma AppendedSize(c: Config, s: State, text: Bytes, now: int)
    requires SizeTrue(s) && s.open && |text| > 0
    ensures SizeTrue(Appended(c, s, text, now))
  {
    BytesAppend(s.live.value.lines, Line(text, now));
  }

  /** A rotation happens only to a file that holds something. */
  lemma RotatingIsNonEmpty(c: Config, s: State, n: int, now: int)
    requires SizeTrue(s)
    ensures s.open && NeedsRotate(c, s, n, now) ==> s.live.value.lines != []
    ensures CheckRotates(c, s, now) ==> s.live.value.lines != []
  {
    hide PeriodKey;
    if s.live.Some? { BytesZero(s.live.value.lines); }
  }

  lemma CheckRotatesLive(c: Config, s: State, now: int)
    ensures CheckRotates(c, s, now) ==> s.live.Some?
  {
    hide PeriodKey, ByteCount;
  }

  lemma SizeStep(c: Config, s: State, op: Op, now: int, s': State)
    requires SizeTrue(s) && StepTo(c, s, op, now, s')
    ensures SizeTrue(s')
  {
    hide ByteCount, PeriodKey, Opened, Renamed, Appended, NeedsRotate, PruneResult, CheckRotates, AllTextual;
    var t := s.(clock := now);
    match op
    case WriteLine(text) =>
      var o := Opened(t, now);
      OpenedSize(t, now);
      RotatingIsNonEmpty(c, o, |WithNewline(text)|, now);
      if WriteRotates(c, t, text, now) {
        var mid := Renamed(o, now).(rotated := s'.rotated);
        RotatedSize(c, o, mid, now);
        OpenedSize(mid, now);
        AppendedSize(c, Opened(mid, now), WithNewline(text), now);
      } else {
        AppendedSize(c, o, WithNewline(text), now);
      }
    case Reopen => OpenedSize(t.(open := false), now);
    case Close =>
    case RotateCheck =>
      RotatingIsNonEmpty(c, t, 0, now);
      CheckRotatesLive(c, t, now);
      if CheckRotates(c, t, now) { RotatedSize(c, t, s', now); } else { PrunedSize(c, t, s', now); }
  }

  lemma PrunedSize(c: Config, s: State, s': State, now: int)
    requires SizeTrue(s) && PrunedTo(c, s, s', now)
    ensures SizeTrue(s')
  {
    hide ByteCount;
  }

  // --- Conservation ---

  /** The rotated files in rotation order, then the live file. */
  function Contents(order: seq<Name>, rotated: map<Name, File>): seq<Line> {
    if order == [] then []
    else
      var n := order[|order| - 1];
      Contents(order[..|order| - 1], rotated) + if n in rotated then rotated[n].lines else []
  }

  function LiveLines(s: State): seq<Line> {
    if s.live.Some? then s.live.value.lines else []
  }

  ghost predicate Conserved(s: State) {
    Contents(s.order, s.rotated) + LiveLines(s) == s.written
  }

  ghost predicate Distinct(order: seq<Name>) {
    forall i, j :: 0 <= i < j < |order| ==> order[i] != order[j]
  }

  /** Every rotated file is listed once, and stamped names carry the second of a rotation. */
  ghost predicate Listed(s: State) {
    && Distinct(s.order)
    && (forall n :: n in s.order <==> n in s.rotated)
    && (forall n :: n in s.rotated && n.Stamped? ==> n.second in s.rotations)
  }

  lemma {:induction false} ContentsUnchanged(order: seq<Name>, a: map<Name, File>, n: Name, f: File)
    requires n !in order
    ensures Contents(order, a[n := f]) == Contents(order, a)
  {
    if order != [] { ContentsUnchanged(order[..|order| - 1], a, n, f); }
  }

  lemma {:induction false} WithoutAbsent(order: seq<Name>, n: Name)
    requires n !in order
    ensures Without(order, n) == order
  {
    if order != [] { WithoutAbsent(order[..|order| - 1], n); }
  }

  lemma RenamedConserves(s: State, now: int)
    requires s.live.Some? && Listed(s) && Conserved(s) && RotatedName(s, now) !in s.rotated
    ensures Listed(Renamed(s, now)) && Conserved(Renamed(s, now))
  {
    var name := RotatedName(s, now);
    WithoutAbsent(s.order, name);
    ContentsUnchanged(s.order, s.rotated, name, s.live.value);
    assert (s.order + [name])[..|s.order|] == s.order;
    var t := Renamed(s, now);
    forall n | n in t.rotated && n.Stamped? ensures n.second in t.rotations {
      if n == name { assert t.rotations[|s.rotations|] == SecondOf(now); }
    }
  }

  /** One of the two names that a rotation tries is not taken. */
  predicate FreeName(s: State, now: int) {
    !(Dated(DayOf(now)) in s.rotated && Stamped(SecondOf(now)) in s.rotated)
  }

  /** Distinct rotation seconds leave a free name. */
  lemma FreshSecondFreesName(s: State, now: int)
    requires Listed(s) && SecondOf(now) !in s.rotations
    ensures FreeName(s, now)
  {
  }

  ghost predicate Kept(s: State) {
    SizeTrue(s) && Listed(s) && Conserved(s)
  }

  lemma ConservedStep(c: Config, s: State, op: Op, now: int, s': State)
    requires c.keep.KeepForever? && Kept(s) && StepTo(c, s, op, now, s')
    requires Rotates(c, s.(clock := now), op, now) ==> FreeName(s, now)
    ensures Kept(s')
  {
    hide ByteCount, PeriodKey, Renamed, NeedsRotate, CheckRotates, AllTextual, Contents, Listed, SizeTrue;
    SizeStep(c, s, op, now, s');
    var t := s.(clock := now);
    assert Listed(t) by { ListedFrame(s, t); }
    match op
    case WriteLine(text) =>
      var o, line := Opened(t, now), WithNewline(text);
      assert Listed(o) by { ListedFrame(t, o); }
      if WriteRotates(c, t, text, now) {
        RenamedConserves(o, now);
        RenamedIs(o, now);
        ListedFrame(Renamed(o, now), s');
        AppendedConserves(c, Opened(Renamed(o, now), now), line, now);
      } else {
        ListedFrame(o, s');
        AppendedConserves(c, o, line, now);
      }
    case Reopen => ListedFrame(t, s');
    case Close => ListedFrame(t, s');
    case RotateCheck =>
      if CheckRotates(c, t, now) {
        CheckRotatesLive(c, t, now);
        RenamedConserves(t, now);
      }
  }

  lemma AppendedConserves(c: Config, s: State, text: Bytes, now: int)
    requires s.live.Some? && Conserved(s)
    ensures Conserved(Appended(c, s, text, now))
  {
    hide Contents;
    var before, l := Contents(s.order, s.rotated), Line(text, now);
    assert before + (s.live.value.lines + [l]) == (before + s.live.value.lines) + [l];
  }

  lemma AppendedStaysLost(c: Config, s: State, text: Bytes, now: int)
    requires s.live.Some? && !Conserved(s)
    ensures !Conserved(Appended(c, s, text, now))
  {
    hide Contents;
    var before, l := Contents(s.order, s.rotated), Line(text, now);
    assert before + (s.live.value.lines + [l]) == (before + s.live.value.lines) + [l];
    LastDropped(before + s.live.value.lines, s.written, l);
  }

  lemma LastDropped(a: seq<Line>, b: seq<Line>, l: Line)
    ensures a + [l] == b + [l] ==> a == b
  {
    assert a == (a + [l])[..|a|] && b == (b + [l])[..|b|];
  }

  lemma RenamedIs(s: State, now: int)
    requires s.live.Some?
    ensures Renamed(s, now).live.None? && !Renamed(s, now).open && Renamed(s, now).written == s.written
  {
  }

  lemma ListedFrame(s: State, t: State)
    requires Listed(s) && t.order == s.order && t.rotated == s.rotated && t.rotations == s.rotations
    ensures Listed(t)
  {
  }

  // --- Exactly when a rotation loses lines ---

  lemma {:induction false} WithoutShorter(order: seq<Name>, rotated: map<Name, File>, n: Name, f: File)
    requires Distinct(order) && n in order && n in rotated
    ensures |Contents(Without(order, n), rotated[n := f])| + |rotated[n].lines| == |Contents(order, rotated)|
  {
    var last, front := order[|order| - 1], order[..|order| - 1];
    if last == n {
      assert n !in front;
      WithoutAbsent(front, n);
      ContentsUnchanged(front, rotated, n, f);
    } else {
      WithoutShorter(front, rotated, n, f);
      var w := Without(front, n) + [last];
      assert w[..|w| - 1] == Without(front, n);
    }
  }

  /** A rotation conserves the lines if and only if one of its two names is free. */
  lemma RotationConservesIff(s: State, now: int)
    requires s.live.Some? && SizeTrue(s) && Listed(s) && Conserved(s)
    ensures Conserved(Renamed(s, now)) <==> FreeName(s, now)
  {
    hide ByteCount, AllTextual;
    var name := RotatedName(s, now);
    if name in s.rotated {
      WithoutShorter(s.order, s.rotated, name, s.live.value);
      var w := Without(s.order, name) + [name];
      assert w[..|w| - 1] == Without(s.order, name);
      var t := Renamed(s, now);
      assert |Contents(t.order, t.rotated)| + |s.rotated[name].lines| == |Contents(s.order, s.rotated)| + |s.live.value.lines|;
    } else {
      RenamedConserves(s, now);
    }
  }

  /** An operation whose rotation finds both names taken loses lines for good. */
  lemma TakenNameLoses(c: Config, s: State, op: Op, now: int, s': State)
    requires c.keep.KeepForever? && Kept(s) && StepTo(c, s, op, now, s')
    requires Rotates(c, s.(clock := now), op, now) && !FreeName(s, now)
    ensures !Conserved(s')
  {
    hide ByteCount, PeriodKey, Renamed, NeedsRotate, CheckRotates, AllTextual, Contents, Listed, SizeTrue;
    var t := s.(clock := now);
    assert Listed(t) && SizeTrue(t) by { ListedFrame(s, t); SizeFrame(s, t); }
    match op
    case WriteLine(text) =>
      var o := Opened(t, now);
      OpenedSize(t, now);
      assert Listed(o) by { ListedFrame(t, o); }
      RotationConservesIff(o, now);
      RenamedIs(o, now);
      AppendedStaysLost(c, Opened(Renamed(o, now), now), WithNewline(text), now);
    case RotateCheck =>
      CheckRotatesLive(c, t, now);
      RotationConservesIff(t, now);
  }

  lemma SizeFrame(s: State, t: State)
    requires SizeTrue(s) && t == s.(clock := t.clock)
    ensures SizeTrue(t)
  {
    hide ByteCount;
  }

  // --- Whole runs ---

  /** The first i calls rotate, if they do, to a free name. */
  ghost predicate NamesFree(c: Config, states: seq<State>, calls: seq<Call>, i: nat) {
    |states| == |calls| + 1 && i <= |calls| &&
    forall j :: 0 <= j < i && Rotates(c, states[j].(clock := calls[j].now), calls[j].op, calls[j].now) ==>
      FreeName(states[j], calls[j].now)
  }

  lemma {:induction false} KeptThroughout(c: Config, states: seq<State>, calls: seq<Call>, start: int, i: nat)
    requires c.keep.KeepForever? && Run(c, states, calls) && states[0] == Empty(start)
    requires i < |states| && NamesFree(c, states, calls, i)
    ensures Kept(states[i])
  {
    hide Rotates, StepTo, FreeName;
    if i > 0 {
      KeptThroughout(c, states, calls, start, i - 1);
      ConservedStep(c, states[i - 1], calls[i - 1].op, calls[i - 1].now, states[i]);
    }
  }

  lemma {:induction false} ConservedFreesNames(c: Config, states: seq<State>, calls: seq<Call>, start: int, i: nat)
    requires c.keep.KeepForever? && Run(c, states, calls) && states[0] == Empty(start)
    requires i < |states| && forall j :: 0 <= j <= i ==> Conserved(states[j])
    ensures NamesFree(c, states, calls, i)
  {
    hide Rotates, StepTo, FreeName, Conserved, Kept;
    if i > 0 {
      ConservedFreesNames(c, states, calls, start, i - 1);
      KeptThroughout(c, states, calls, start, i - 1);
      var call := calls[i - 1];
      if Rotates(c, states[i - 1].(clock := call.now), call.op, call.now) && !FreeName(states[i - 1], call.now) {
        TakenNameLoses(c, states[i - 1], call.op, call.now, states[i]);
      }
    }
  }

  /** The texts of the first i calls that write, and when they were written. */
  function WrittenTexts(calls: seq<Call>, i: nat): seq<(Bytes, int)>
    requires i <= |calls|
  {
    if i == 0 then []
    else if calls[i - 1].op.WriteLine? then WrittenTexts(calls, i - 1) + [(calls[i - 1].op.text, calls[i - 1].now)]
    else WrittenTexts(calls, i - 1)
  }

  /** One line for each text, in order, written when the call was made. */
  ghost predicate LinesFor(texts: seq<(Bytes, int)>, lines: seq<Line>) {
    |lines| == |texts| && forall j :: 0 <= j < |texts| ==> LineFor(texts[j].0, lines[j].text) && lines[j].at == texts[j].1
  }

  lemma WritesAppend(c: Config, s: State, op: Op, now: int, s': State)
    requires StepTo(c, s, op, now, s')
    ensures s'.written == s.written + if op.WriteLine? then [Line(WithNewline(op.text), now)] else []
  {
    hide PeriodKey, ByteCount, WithNewline, Without, NeedsRotate, PruneResult;
    assert s.written + [] == s.written;
  }

  /** What has been written is a line for each text of the calls that write. */
  lemma {:induction false} WrittenIsTexts(c: Config, states: seq<State>, calls: seq<Call>, start: int, i: nat)
    requires Run(c, states, calls) && states[0] == Empty(start) && i < |states|
    ensures LinesFor(WrittenTexts(calls, i), states[i].written)
  {
    hide StepTo, LineFor, WithNewline;
    if i > 0 {
      WrittenIsTexts(c, states, calls, start, i - 1);
      var call := calls[i - 1];
      WritesAppend(c, states[i - 1], call.op, call.now, states[i]);
      if call.op.WriteLine? { WithNewlineIs(call.op.text); }
    }
  }

  lemma LineUnique(text: Bytes, a: Bytes, b: Bytes)
    requires LineFor(text, a) && LineFor(text, b)
    ensures a == b
  {
    assert a[..|text|] == text == b[..|text|];
    if |a| == |text| { assert a == text; }
    if |b| == |text| { assert b == text; }
    assert |a| == |b|;
  }

  lemma LinesUnique(texts: seq<(Bytes, int)>, a: seq<Line>, b: seq<Line>)
    requires LinesFor(texts, a) && LinesFor(texts, b)
    ensures a == b
  {
    hide LineFor;
    forall j | 0 <= j < |texts| ensures a[j] == b[j] {
      LineUnique(texts[j].0, a[j].text, b[j].text);
    }
  }

  /** What the files hold, rotated ones first. */
  function Held(s: State): seq<Line> {
    Contents(s.order, s.rotated) + LiveLines(s)
  }

  /**
   Keeping files for ever, no line is ever lost, duplicated or reordered - after every call
   the rotated files in rotation order and then the live file hold exactly one line for each
   text that was given to a write, in order - if and only if every rotation of the run finds
   one of its two names free.
   */
  lemma ConservedIff(c: Config, states: seq<State>, calls: seq<Call>, start: int)
    requires c.keep.KeepForever? && Run(c, states, calls) && states[0] == Empty(start)
    ensures (forall i :: 0 <= i < |states| ==> LinesFor(WrittenTexts(calls, i), Held(states[i])))
            <==> NamesFree(c, states, calls, |calls|)
  {
    hide Contents, StepTo, Rotates, FreeName, SizeTrue, Listed, LiveLines, LineFor;
    forall i | 0 <= i < |states| ensures LinesFor(WrittenTexts(calls, i), Held(states[i])) <==> Conserved(states[i]) {
      WrittenIsTexts(c, states, calls, start, i);
      if LinesFor(WrittenTexts(calls, i), Held(states[i])) {
        LinesUnique(WrittenTexts(calls, i), Held(states[i]), states[i].written);
      }
    }
    if forall i :: 0 <= i < |states| ==> LinesFor(WrittenTexts(calls, i), Held(states[i])) {
      forall j | 0 <= j <= |calls| ensures Conserved(states[j]) {
        assert LinesFor(WrittenTexts(calls, j), Held(states[j]));
      }
      ConservedFreesNames(c, states, calls, start, |calls|);
    }
    if NamesFree(c, states, calls, |calls|) {
      forall i | 0 <= i < |states| ensures Conserved(states[i]) {
        KeptThroughout(c, states, calls, start, i);
      }
    }
  }

  /** Every rotation of the run falls in a second of its own. */
  ghost predicate DistinctSeconds(c: Config, states: seq<State>, calls: seq<Call>) {
    |states| == |calls| + 1 &&
    forall i :: 0 <= i < |calls| && Rotates(c, states[i].(clock := calls[i].now), calls[i].op, calls[i].now) ==>
      SecondOf(calls[i].now) !in states[i].rotations
  }

  lemma {:induction false} DistinctSecondsFreeNames(c: Config, states: seq<State>, calls: seq<Call>, start: int, i: nat)
    requires c.keep.KeepForever? && Run(c, states, calls) && states[0] == Empty(start)
    requires DistinctSeconds(c, states, calls) && i < |states|
    ensures NamesFree(c, states, calls, i)
  {
    hide Rotates, StepTo, FreeName, SizeTrue, Listed, Conserved;
    if i > 0 {
      DistinctSecondsFreeNames(c, states, calls, start, i - 1);
      KeptThroughout(c, states, calls, start, i - 1);
      if SecondOf(calls[i - 1].now) !in states[i - 1].rotations {
        FreshSecondFreesName(states[i - 1], calls[i - 1].now);
      }
    }
  }

  /**
   So with each rotation in a second of its own nothing is lost, and an open writer's size
   is the length of the live file.
   */
  lemma NothingLost(c: Config, states: seq<State>, calls: seq<Call>, start: int, i: nat)
    requires c.keep.KeepForever? && Run(c, states, calls) && states[0] == Empty(start)
    requires DistinctSeconds(c, states, calls) && i < |states|
    ensures LinesFor(WrittenTexts(calls, i), Held(states[i]))
    ensures states[i].open ==> states[i].live.Some? && states[i].size == ByteCount(states[i].live.value.lines)
  {
    hide Contents, ByteCount, Rotates, StepTo, LinesFor;
    DistinctSecondsFreeNames(c, states, calls, start, i);
    KeptThroughout(c, states, calls, start, i);
    WrittenIsTexts(c, states, calls, start, i);
  }

  // --- When a rotation happens ---

  /** The instant whose period counts for the live file: the writer's own when it is open, else the last change. */
  function Anchor(s: State, now: int): int {
    if s.open then s.periodStart
    else if s.live.Some? && s.live.value.lines != [] then s.live.value.mtime
    else now
  }

  /**
   A write rotates exactly when the live file holds something and the line would take it over
   the limit, or its period is not that of the write.
   */
  lemma WriteRotatesIff(c: Config, s: State, text: Bytes, now: int)
    requires SizeTrue(s)
    ensures WriteRotates(c, s, text, now) <==>
            && LiveLines(s) != []
            && ((c.maxBytes > 0 && ByteCount(LiveLines(s)) + |WithNewline(text)| > c.maxBytes)
                || (c.interval != Never && PeriodIndex(c.interval, Anchor(s, now)) != PeriodIndex(c.interval, now)))
  {
    hide PeriodKey, PeriodIndex, ByteCount, AllTextual;
    if s.live.Some? { BytesZero(s.live.value.lines); }
    assert ByteCount([]) == 0 by { NoBytes(); }
    KeysAreShared(c.interval, Anchor(s, now), now);
  }

  lemma NoBytes()
    ensures ByteCount([]) == 0
  {
  }

  /** The scheduled check rotates exactly when the live file has reached the limit or its period is over. */
  lemma CheckRotatesIff(c: Config, s: State, now: int)
    requires SizeTrue(s)
    ensures CheckRotates(c, s, now) <==>
            && LiveLines(s) != []
            && ((c.maxBytes > 0 && ByteCount(LiveLines(s)) >= c.maxBytes)
                || (c.interval != Never && PeriodIndex(c.interval, Anchor(s, now)) != PeriodIndex(c.interval, now)))
  {
    hide PeriodKey, PeriodIndex, ByteCount, AllTextual;
    if s.live.Some? { BytesZero(s.live.value.lines); }
    KeysAreShared(c.interval, Anchor(s, now), now);
  }

  /** Every operation rotates once when it should, and not otherwise. */
  lemma RotatesOnlyThen(c: Config, s: State, op: Op, now: int, s': State)
    requires StepTo(c, s, op, now, s')
    ensures s'.rotations == s.rotations + if Rotates(c, s.(clock := now), op, now) then [SecondOf(now)] else []
  {
    hide PeriodKey, ByteCount, WithNewline, Without, NeedsRotate, PruneResult, CheckRotates;
    CheckRotatesLive(c, s.(clock := now), now);
    assert s.rotations + [] == s.rotations;
  }

  /** A rotated file is named after its day, or after its second when the day's name is taken. */
  lemma NamesTell(s: State, now: int)
    ensures RotatedName(s, now) == if Dated(now / 86_400_000_000_000) in s.rotated then Stamped(now / 1_000_000_000) else Dated(now / 86_400_000_000_000)
  {
  }
}
