/**
 The fileWriter object: each method keeps the source's order of file operations and field
 updates, and its contract is the step relation of the rotation model.
 */
module LogWriter {
  import opened Options
  import opened Lists
  import opened ByteStrings
  import opened Periods
  import opened LogRotation

  /** The log directory: the live file and everything the rotated-name pattern matches. */
  class Directory {
    var live: Option<File>
    var rotated: map<Name, File>

    constructor ()
      ensures live == None && rotated == map[]
    {
      live := None;
      rotated := map[];
    }
  }

  /** What sort.Slice orders rotated files by, newest first. */
  function Mtimes(files: map<Name, File>): map<Name, int> {
    map n | n in files :: files[n].mtime
  }

  lemma PrefixMembers(sorted: seq<Name>, k: nat)
    requires k <= |sorted|
    ensures forall n :: n in sorted[..k] <==> exists i :: 0 <= i < k && sorted[i] == n
  {
    forall i | 0 <= i < k ensures sorted[i] in sorted[..k] {
      assert sorted[..k][i] == sorted[i];
    }
  }

  /** A map whose keys are the first k of a list without repetitions has k entries. */
  lemma PrefixCount(sorted: seq<Name>, k: nat, files: map<Name, File>)
    requires NoRepeats(sorted) && k <= |sorted|
    requires forall n :: n in files <==> n in sorted[..k]
    ensures |files| == k
  {
    DistinctCount(sorted[..k]);
    assert Elements(sorted[..k]) == files.Keys;
  }

  lemma KeptPrefix(count: nat, before: map<Name, File>, after: map<Name, File>, sorted: seq<Name>)
    requires forall n :: n in sorted <==> n in before
    requires after.Keys <= before.Keys
    requires forall j :: 0 <= j < |sorted| ==> (sorted[j] in after <==> j < count)
    ensures var k := if |sorted| <= count then |sorted| else count;
            forall n :: n in after <==> n in sorted[..k]
  {
    var k := if |sorted| <= count then |sorted| else count;
    PrefixMembers(sorted, k);
    forall n | n in after ensures n in sorted[..k] {
      assert n in sorted;
      var i :| 0 <= i < |sorted| && sorted[i] == n;
    }
  }

  lemma KeptAreNewer(count: nat, before: map<Name, File>, after: map<Name, File>, sorted: seq<Name>, n: Name, m: Name)
    requires forall x :: x in sorted <==> x in before
    requires Descending(sorted, Mtimes(before))
    requires forall j :: 0 <= j < |sorted| ==> (sorted[j] in after <==> j < count)
    requires n in before && n in after && m in before && m !in after
    ensures before[m].mtime <= before[n].mtime
  {
    assert n in sorted && m in sorted;
    var i :| 0 <= i < |sorted| && sorted[i] == n;
    var j :| 0 <= j < |sorted| && sorted[j] == m;
  }

  /** The first count names of the sorted list are kept: how many, and which. */
  lemma CountPrune(count: nat, before: map<Name, File>, after: map<Name, File>, sorted: seq<Name>, now: int)
    requires forall n :: n in sorted <==> n in before
    requires NoRepeats(sorted) && Descending(sorted, Mtimes(before))
    requires after.Keys <= before.Keys && forall n :: n in after ==> after[n] == before[n]
    requires forall j :: 0 <= j < |sorted| ==> (sorted[j] in after <==> j < count)
    ensures PruneResult(KeepCount(count), before, after, now)
  {
    hide NoRepeats, Descending;
    var k := if |sorted| <= count then |sorted| else count;
    assert |before| == |sorted| by {
      assert sorted[..|sorted|] == sorted;
      PrefixCount(sorted, |sorted|, before);
    }
    assert |after| == k by {
      KeptPrefix(count, before, after, sorted);
      PrefixCount(sorted, k, after);
    }
    forall n, m | n in after && m in before && m !in after ensures before[m].mtime <= before[n].mtime {
      KeptAreNewer(count, before, after, sorted, n, m);
    }
  }

  class FileWriter {
    const config: Config
    const dir: Directory
    var isOpen: bool
    var size: int
    var periodStart: int

    ghost var order: seq<Name>
    ghost var written: seq<Line>
    ghost var rotations: seq<int>
    ghost var clock: int

    ghost function Abs(): State
      reads this, dir
    {
      State(dir.live, dir.rotated, isOpen, size, periodStart, order, written, rotations, clock)
    }

    constructor (config: Config, dir: Directory, now: int)
      ensures this.config == config && this.dir == dir
      ensures Abs() == Empty(now).(live := dir.live, rotated := dir.rotated)
    {
      this.config := config;
      this.dir := dir;
      isOpen := false;
      size := 0;
      periodStart := 0;
      order := [];
      written := [];
      rotations := [];
      clock := now;
    }

    method Open(now: int)
      modifies this`isOpen, this`size, this`periodStart, dir`live
      ensures Abs() == Opened(old(Abs()), now)
    {
      if isOpen {
        return;
      }
      if dir.live.None? {
        dir.live := Some(File([], now));
      }
      isOpen := true;
      size := 0;
      periodStart := now;
      size := ByteCount(dir.live.value.lines);
      if size > 0 {
        periodStart := dir.live.value.mtime;
      }
    }

    /** Removes what the keep policy no longer wants among the rotated files. */
    method Prune(now: int)
      modifies dir`rotated
      ensures PrunedTo(config, old(Abs()), Abs(), now)
    {
      if config.keep.KeepForever? {
        return;
      }
      hide Descending, NoRepeats;
      var files := dir.rotated;
      var sorted := SortDescending(Mtimes(files));
      assert forall j :: 0 <= j < |sorted| ==> sorted[j] in files;
      for i := 0 to |sorted|
        invariant dir.rotated.Keys <= files.Keys
        invariant forall n :: n in dir.rotated ==> dir.rotated[n] == files[n]
        invariant forall j :: 0 <= j < i ==> (sorted[j] in dir.rotated <==> !Unwanted(config.keep, files[sorted[j]].mtime, j, now))
        invariant forall j :: i <= j < |sorted| ==> sorted[j] in dir.rotated
      {
        if Unwanted(config.keep, files[sorted[i]].mtime, i, now) {
          NoLaterRepeat(sorted, i);
          dir.rotated := dir.rotated - {sorted[i]};
        }
      }
      PruneDone(config.keep, files, dir.rotated, sorted, now);
    }

    static predicate Unwanted(keep: Keep, mtime: int, i: int, now: int) {
      match keep
      case KeepNone => true
      case KeepCount(count) => i >= count
      case KeepAge(age) => now - mtime > age
      case KeepForever => false
    }

    static lemma NoLaterRepeat(names: seq<Name>, i: nat)
      requires NoRepeats(names) && i < |names|
      ensures forall j :: 0 <= j < |names| && j != i ==> names[j] != names[i]
    {
    }

    static lemma PruneDone(keep: Keep, before: map<Name, File>, after: map<Name, File>, sorted: seq<Name>, now: int)
      requires !keep.KeepForever?
      requires forall n :: n in sorted <==> n in before
      requires NoRepeats(sorted) && Descending(sorted, Mtimes(before))
      requires after.Keys <= before.Keys && forall n :: n in after ==> after[n] == before[n]
      requires forall j :: 0 <= j < |sorted| ==> (sorted[j] in after <==> !Unwanted(keep, before[sorted[j]].mtime, j, now))
      ensures PruneResult(keep, before, after, now)
    {
      hide Descending, NoRepeats;
      if keep.KeepCount? {
        CountPrune(keep.count, before, after, sorted, now);
      }
      if keep.KeepNone? {
        forall n | n in before ensures n !in after {
          var j :| 0 <= j < |sorted| && sorted[j] == n;
        }
      }
      if keep.KeepAge? {
        forall n | n in before ensures n in after <==> now - before[n].mtime <= keep.age {
          var j :| 0 <= j < |sorted| && sorted[j] == n;
        }
      }
    }

    method Rename(now: int)
      requires dir.live.Some?
      modifies this`isOpen, this`size, this`periodStart, this`order, this`rotations, dir
      ensures Abs() == Renamed(old(Abs()), now)
      ensures !isOpen && size == 0 && periodStart == now && dir.live.None?
    {
      hide Without;
      isOpen := false;
      var rotated := Dated(DayOf(now));
      if rotated in dir.rotated {
        rotated := Stamped(SecondOf(now));
      }
      dir.rotated := dir.rotated[rotated := dir.live.value];
      dir.live := None;
      order := Without(order, rotated) + [rotated];
      rotations := rotations + [SecondOf(now)];
      size := 0;
      periodStart := now;
    }

    method DoRotate(now: int)
      requires dir.live.Some?
      modifies this`isOpen, this`size, this`periodStart, this`order, this`rotations, dir
      ensures RotatedTo(config, old(Abs()), Abs(), now)
    {
      hide Renamed, RotatedName, PruneResult;
      ghost var before := Abs();
      var name := if Dated(DayOf(now)) in dir.rotated then Stamped(SecondOf(now)) else Dated(DayOf(now));
      assert name == RotatedName(before, now) by { NameIs(before, now); }
      Rename(now);
      if config.keep.KeepNone? {
        dir.rotated := dir.rotated - {name};
        return;
      }
      Prune(now);
    }

    static lemma NameIs(s: State, now: int)
      ensures RotatedName(s, now) == if Dated(DayOf(now)) in s.rotated then Stamped(SecondOf(now)) else Dated(DayOf(now))
    {
    }

    method WriteLine(text: Bytes, now: int)
      requires clock <= now && (isOpen ==> dir.live.Some?)
      modifies this, dir
      ensures StepTo(config, old(Abs()), Op.WriteLine(text), now, Abs())
      ensures EndsWith(dir.live, text, now) && isOpen == config.holdOpen
    {
      hide PeriodKey, ByteCount, Renamed, RotatedTo, WithNewline, LineFor, EndsWith, Appended;
      WithNewlineIs(text);
      clock := now;
      var line := WithNewline(text);
      ghost var start := Abs();
      Open(now);
      OpenedLive(start, now);
      ghost var ready := Abs();
      if NeedsRotateNow(|line|, now) {
        DoRotate(now);
        RotatedIs(config, ready, Abs(), now);
        Open(now);
      }
      AppendAndClose(line, now);
      LastIs(dir.live, text, line, now);
    }

    /** The end of writeLine. */
    method AppendAndClose(line: Bytes, now: int)
      requires dir.live.Some? && isOpen
      modifies this`size, this`written, this`isOpen, dir`live
      ensures Abs() == Appended(config, old(Abs()), line, now) && isOpen == config.holdOpen
      ensures dir.live.Some? && dir.live.value.lines != [] && dir.live.value.lines[|dir.live.value.lines| - 1] == Line(line, now)
    {
      Append(line, now);
      if !config.holdOpen {
        isOpen := false;
      }
    }

    /** The last line of the file is the one for this text. */
    static ghost predicate EndsWith(live: Option<File>, text: Bytes, now: int) {
      && live.Some? && live.value.lines != []
      && var l := live.value.lines[|live.value.lines| - 1]; LineFor(text, l.text) && l.at == now
    }

    static lemma LastIs(live: Option<File>, text: Bytes, line: Bytes, now: int)
      requires live.Some? && live.value.lines != [] && live.value.lines[|live.value.lines| - 1] == Line(line, now) && LineFor(text, line)
      ensures EndsWith(live, text, now)
    {
    }

    predicate NeedsRotateNow(n: int, now: int)
      reads this
    {
      if size == 0 then false
      else if config.maxBytes > 0 && size + n > config.maxBytes then true
      else config.interval != Never && PeriodKey(config.interval, periodStart) != PeriodKey(config.interval, now)
    }

    static lemma OpenedLive(s: State, now: int)
      requires s.open ==> s.live.Some?
      ensures Opened(s, now).live.Some?
    {
    }

    static lemma RotatedIs(c: Config, s: State, s': State, now: int)
      requires s.live.Some? && RotatedTo(c, s, s', now)
      ensures s' == Renamed(s, now).(rotated := s'.rotated) && Opened(s', now).live.Some?
    {
      hide ByteCount;
    }

    method Append(line: Bytes, now: int)
      requires dir.live.Some?
      modifies this`size, this`written, dir`live
      ensures Abs().(open := config.holdOpen) == Appended(config, old(Abs()), line, now)
      ensures isOpen == old(isOpen)
      ensures dir.live.Some? && dir.live.value.lines != [] && dir.live.value.lines[|dir.live.value.lines| - 1] == Line(line, now)
    {
      dir.live := Some(File(dir.live.value.lines + [Line(line, now)], now));
      size := size + |line|;
      written := written + [Line(line, now)];
    }

    method RotateCheck(now: int)
      requires clock <= now
      modifies this, dir
      ensures StepTo(config, old(Abs()), Op.RotateCheck, now, Abs())
    {
      hide PeriodKey, ByteCount, PruneResult, Renamed;
      clock := now;
      if dir.live.None? {
        Prune(now);
        return;
      }
      var st := dir.live.value;
      if ByteCount(st.lines) > 0 {
        var start := periodStart;
        if !isOpen {
          start := st.mtime;
        }
        var sizeHit := config.maxBytes > 0 && ByteCount(st.lines) >= config.maxBytes;
        var timeHit := config.interval != Never && PeriodKey(config.interval, start) != PeriodKey(config.interval, now);
        if sizeHit || timeHit {
          DoRotate(now);
          return;
        }
      }
      Prune(now);
    }

    method Reopen(now: int)
      requires clock <= now
      modifies this, dir`live
      ensures StepTo(config, old(Abs()), Op.Reopen, now, Abs())
    {
      hide ByteCount;
      clock := now;
      isOpen := false;
      if !config.holdOpen {
        return;
      }
      Open(now);
    }

    method Close(now: int)
      requires clock <= now
      modifies this
      ensures StepTo(config, old(Abs()), Op.Close, now, Abs())
    {
      clock := now;
      isOpen := false;
    }
  }
}
