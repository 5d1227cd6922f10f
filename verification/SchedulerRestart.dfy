/**
 What survives a shutdown and a restart: the mark on interrupted tasks, the enabled flag,
 and which tasks the catch-up of the next Start runs.
 */
module SchedulerRestart {
  import opened Options
  import opened Schedules
  import opened TaskState
  import opened SchedulerMachine

  // --- Row and entry in every run ---

  /** The row carries the entry's definition, and an error or last run whenever the entry does. */
  ghost predicate RowMatches(s: State, id: TaskId) {
    id in s.tasks && id in s.table && (s.looping || s.phase.CatchUp?) ==>
      var t, row := s.tasks[id], s.table[id];
      && row.name == t.name && row.schedule == ScheduleText(t.schedule) && row.enabled == t.enabled
      && (row.lastError != "" || t.lastError == "")
      && (row.lastRun.Some? || t.lastRun.None?)
  }

  lemma StartMatches(s: State, e: Event, id: TaskId)
    requires Phased(s) && RowMatches(s, id) && CanHappen(s, e)
    requires e.Register? || e.SetRetry? || e.StartList? || e.StartMerge? || e.RunMissed? || Dies(e)
    ensures RowMatches(Step(s, e), id)
  {
    hide NextRun, Idle, MissedIds, AddFlights;
  }

  lemma CommitMatches(s: State, e: Event, id: TaskId)
    requires Phased(s) && RowMatches(s, id) && CanHappen(s, e) && e.Commit?
    ensures RowMatches(Step(s, e), id)
  {
    hide NextRun, CommitTask, SetFlight;
    assert FlightsOf(s, e.id) != [];
    CommitFrame(s.tasks[e.id], FlightsOf(s, e.id)[e.i].stage.start, e.finished, e.error);
  }

  lemma FlagMatches(s: State, e: Event, id: TaskId)
    requires Phased(s) && RowMatches(s, id) && CanHappen(s, e) && (e.Enable? || e.Disable? || e.MarkInterrupted?)
    ensures RowMatches(Step(s, e), id)
  {
    hide NextRun, Idle, Phased, RestoreAll, UpsertAll, DueIds, MissedIds, AddFlights, SetFlight, CommitTask, MarkRunning;
  }

  lemma OtherMatches(s: State, e: Event, id: TaskId)
    requires Phased(s) && RowMatches(s, id) && CanHappen(s, e)
    requires e.Tick? || e.RunNow? || e.Begin? || e.Release? || e.RecordHistory? || e.Stop? || e.Advance?
    ensures RowMatches(Step(s, e), id)
  {
    hide NextRun, Idle, DueIds, AddFlights, SetFlight, RowOf;
  }

  lemma {:induction false} MatchesRun(s: State, es: seq<Event>, id: TaskId)
    requires Phased(s) && RowMatches(s, id) && Possible(s, es)
    ensures Phased(After(s, es)) && RowMatches(After(s, es), id)
    decreases |es|
  {
    hide Phased, RowMatches, CanHappen, Step;
    if es != [] {
      var e := es[0];
      PhasedStep(s, e);
      if e.Register? || e.SetRetry? || e.StartList? || e.StartMerge? || e.RunMissed? || Dies(e) { StartMatches(s, e, id); }
      else if e.Commit? { CommitMatches(s, e, id); }
      else if e.Enable? || e.Disable? || e.MarkInterrupted? { FlagMatches(s, e, id); }
      else { OtherMatches(s, e, id); }
      MatchesRun(Step(s, e), es[1..], id);
    }
  }

  // --- The interrupted mark ---

  /** The upsert of a marked entry over a matching row changes at most a missing next run. */
  lemma MarkedMerge(t: Task, row: Row, markedAt: int)
    requires row.name == t.name && row.schedule == ScheduleText(t.schedule) && row.enabled == t.enabled
    requires (row.lastError != "" || t.lastError == "") && (row.lastRun.Some? || t.lastRun.None?)
    ensures Merge(Some(row), RowOf(InterruptedTask(t, markedAt)))
            == if row.nextRun.Some? then row else row.(nextRun := Some(markedAt))
  {
  }

  /**
   In every reachable state after Stop, marking the running tasks interrupted writes nothing
   to the row of any task, but for a next run where the row has none.
   */
  lemma MarkDoesNotReachRow(window: int, now: int, es: seq<Event>, id: TaskId)
    requires Possible(Initial(window, now), es)
    requires CanHappen(After(Initial(window, now), es), MarkInterrupted) && id in After(Initial(window, now), es).tasks
    ensures var s := After(Initial(window, now), es);
            && id in s.table && id in Step(s, MarkInterrupted).table
            && Step(s, MarkInterrupted).table[id]
               == if s.tasks[id].running && s.table[id].nextRun.None? then s.table[id].(nextRun := Some(s.now)) else s.table[id]
  {
    hide Possible, After, Merge, RowOf;
    var s := After(Initial(window, now), es);
    InitialPhased(window, now);
    MatchesRun(Initial(window, now), es, id);
    if s.tasks[id].running { MarkedMerge(s.tasks[id], s.table[id], s.now); }
  }

  // --- Starting again ---

  /** The stored last run, or the time of the merge, is where the next run is counted from. */
  function CountedFrom(table: map<TaskId, Row>, id: TaskId, mergedAt: int): int {
    if id in table && table[id].lastRun.Some? then table[id].lastRun.value else mergedAt
  }

  /** Enabled, and due within the catch-up window before b. */
  predicate CaughtUp(t: Task, from: int, b: int, window: int) {
    var next := NextRun(t.schedule, from);
    t.enabled && next.Some? && b - window < next.value < b
  }

  function Starting(a: int, b: int): seq<Event> { [StartList, StartMerge(a), RunMissed(b)] }

  lemma StartsInSteps(s: State, a: int, b: int)
    requires Possible(s, Starting(a, b))
    ensures CanHappen(s, StartList) && CanHappen(Step(s, StartList), StartMerge(a))
    ensures CanHappen(Step(Step(s, StartList), StartMerge(a)), RunMissed(b))
    ensures After(s, Starting(a, b)) == Step(Step(Step(s, StartList), StartMerge(a)), RunMissed(b))
  {
    hide Step, CanHappen;
    var es := Starting(a, b);
    assert es[1..] == [StartMerge(a), RunMissed(b)] && es[1..][1..] == [RunMissed(b)] && es[1..][1..][1..] == [];
    var s1 := Step(s, StartList);
    assert Possible(s1, es[1..]) && After(s, es) == After(s1, es[1..]);
    var s2 := Step(s1, StartMerge(a));
    assert Possible(s2, es[1..][1..]) && After(s1, es[1..]) == After(s2, es[1..][1..]);
  }

  lemma MergeRestores(s: State, a: int, id: TaskId)
    requires CanHappen(s, StartMerge(a)) && id in s.tasks
    ensures var t := Step(s, StartMerge(a));
            && t.flights == s.flights && t.window == s.window && id in t.tasks && id in t.table
            && t.tasks[id].enabled == t.table[id].enabled == s.tasks[id].enabled
            && t.tasks[id].nextRun == NextRun(s.tasks[id].schedule, CountedFrom(s.phase.snapshot, id, a))
  {
    hide NextRun;
  }

  lemma MissedReserves(s: State, b: int, id: TaskId)
    requires CanHappen(s, RunMissed(b)) && id in s.tasks
    ensures var t := Step(s, RunMissed(b));
            && FlightsOf(t, id) == FlightsOf(s, id) + (if Missed(s.tasks[id], b, s.window) then [Flight(false, Reserved)] else [])
            && id in t.tasks && t.tasks[id].enabled == s.tasks[id].enabled && t.table == s.table
  {
    hide Missed;
  }

  lemma ListFrame(s: State)
    requires CanHappen(s, StartList)
    ensures var t := Step(s, StartList); t == s.(phase := Loading(s.table))
  {
  }

  /** A Start reserves a task if and only if it is enabled and its next run, counted from the stored last run, was missed. */
  lemma StartReservesIff(s: State, a: int, b: int, id: TaskId)
    requires Possible(s, Starting(a, b)) && id in s.tasks
    ensures var t := After(s, Starting(a, b));
            && FlightsOf(t, id) == FlightsOf(s, id)
                 + (if CaughtUp(s.tasks[id], CountedFrom(s.table, id, a), b, s.window) then [Flight(false, Reserved)] else [])
            && id in t.tasks && t.tasks[id].enabled == s.tasks[id].enabled
            && id in t.table && t.table[id].enabled == s.tasks[id].enabled
  {
    hide Possible, After, NextRun, Step, CanHappen, Starting;
    StartsInSteps(s, a, b);
    ListFrame(s);
    var listed := Step(s, StartList);
    MergeRestores(listed, a, id);
    MissedReserves(Step(listed, StartMerge(a)), b, id);
  }

  /** Events before the first Start of a process. */
  predicate Setup(es: seq<Event>) {
    forall i :: 0 <= i < |es| ==> es[i].Register? || es[i].SetRetry? || es[i].Advance?
  }

  lemma SetupStep(s: State, e: Event)
    requires CanHappen(s, e) && s.phase.Fresh? && (e.Register? || e.SetRetry? || e.Advance?)
    ensures var t := Step(s, e); t.phase.Fresh? && t.table == s.table && t.flights == s.flights && t.window == s.window
  {
  }

  lemma {:induction false} SetupRun(s: State, es: seq<Event>)
    requires Possible(s, es) && s.phase.Fresh? && Setup(es)
    ensures var t := After(s, es); t.phase.Fresh? && t.table == s.table && t.flights == s.flights && t.window == s.window
    decreases |es|
  {
    hide Step, CanHappen;
    if es != [] {
      SetupStep(s, es[0]);
      SetupRun(Step(s, es[0]), es[1..]);
    }
  }

  /** How a process ends: by itself, after marking, or while marking these tasks. */
  datatype Shutdown = Killed | Marked | KilledMarking(ids: set<TaskId>)

  function Ending(down: Shutdown): seq<Event> {
    match down
    case Killed => [Reboot]
    case Marked => [MarkInterrupted, Reboot]
    case KilledMarking(ids) => [DieMarking(ids)]
  }

  /** The shutdown, and the next process up to its Start. */
  function Booting(down: Shutdown, boot: seq<Event>): seq<Event> {
    Ending(down) + boot
  }

  function Restarting(down: Shutdown, boot: seq<Event>, a: int, b: int): seq<Event> {
    Booting(down, boot) + Starting(a, b)
  }

  /** The table at the end of the process. */
  ghost function LeftTable(s: State, down: Shutdown): map<TaskId, Row>
    requires Possible(s, Ending(down))
  {
    After(s, Ending(down)).table
  }

  lemma EndingLeaves(s: State, down: Shutdown)
    requires Possible(s, Ending(down))
    ensures After(s, Ending(down)).phase.Fresh? && After(s, Ending(down)).flights == map[] && After(s, Ending(down)).window == s.window
    ensures down.Killed? ==> LeftTable(s, down) == s.table
    ensures down.Marked? ==> CanHappen(s, MarkInterrupted) && LeftTable(s, down) == Step(s, MarkInterrupted).table
    ensures down.KilledMarking? ==> CanHappen(s, DieMarking(down.ids)) && LeftTable(s, down) == Step(s, DieMarking(down.ids)).table
  {
    hide UpsertSome, UpsertRunning, InterruptAll;
    assert [MarkInterrupted, Reboot][1..] == [Reboot] && [Reboot][1..] == [];
    if down.Marked? {
      var t := Step(s, MarkInterrupted);
      assert Possible(t, [Reboot]) && After(s, [MarkInterrupted, Reboot]) == After(t, [Reboot]) && After(t, [Reboot]) == Step(t, Reboot);
    }
    if down.KilledMarking? {
      assert [DieMarking(down.ids)][1..] == [];
    }
  }

  /** The state at the Start of the next process: the tables as they were left, nothing in flight. */
  lemma RestartRun(s: State, down: Shutdown, boot: seq<Event>, a: int, b: int)
    requires Setup(boot) && Possible(s, Restarting(down, boot, a, b))
    ensures Possible(s, Ending(down)) && Possible(s, Booting(down, boot))
    ensures var r := After(s, Booting(down, boot));
            && Possible(r, Starting(a, b)) && After(s, Restarting(down, boot, a, b)) == After(r, Starting(a, b))
            && r.flights == map[] && r.window == s.window && r.table == LeftTable(s, down)
  {
    hide Possible, After, CanHappen, Step, Starting, Setup, Ending;
    RunConcat(s, Booting(down, boot), Starting(a, b));
    RunConcat(s, Ending(down), boot);
    EndingLeaves(s, down);
    SetupRun(After(s, Ending(down)), boot);
  }

  /** However far the marking got, it changed no row but for a missing next run. */
  lemma CutMarkDoesNotReachRow(window: int, now: int, es: seq<Event>, id: TaskId, ids: set<TaskId>)
    requires Possible(Initial(window, now), es)
    requires CanHappen(After(Initial(window, now), es), DieMarking(ids)) && id in After(Initial(window, now), es).tasks
    ensures var s := After(Initial(window, now), es);
            && id in s.table && id in Step(s, DieMarking(ids)).table
            && Step(s, DieMarking(ids)).table[id]
               == if id in ids && s.table[id].nextRun.None? then s.table[id].(nextRun := Some(s.now)) else s.table[id]
  {
    hide Possible, After, Merge, RowOf;
    var s := After(Initial(window, now), es);
    InitialPhased(window, now);
    MatchesRun(Initial(window, now), es, id);
    if id in ids { MarkedMerge(s.tasks[id], s.table[id], s.now); }
  }

  lemma SameCountedFrom(a: map<TaskId, Row>, b: map<TaskId, Row>, id: TaskId, mergedAt: int)
    requires id in a && id in b && a[id].lastRun == b[id].lastRun
    ensures CountedFrom(a, id, mergedAt) == CountedFrom(b, id, mergedAt)
  {
  }

  /**
   When an interrupted task is run again. In every reachable state after Stop, whether the
   running tasks are then marked, not marked, or the process dies while it marks them, the
   next process reserves a known task if and only if it is registered enabled and its next
   run, counted from the last run stored before the shutdown, falls into the catch-up window.
   The mark plays no part.
   */
  lemma InterruptedRunsAgainIff(window: int, now: int, es: seq<Event>, id: TaskId, down: Shutdown, boot: seq<Event>, a: int, b: int)
    requires Possible(Initial(window, now), es)
    requires var s := After(Initial(window, now), es);
             && s.phase.Halted? && id in s.tasks
             && Setup(boot) && Possible(s, Restarting(down, boot, a, b))
    requires Possible(After(Initial(window, now), es), Booting(down, boot))
    requires id in After(After(Initial(window, now), es), Booting(down, boot)).tasks
    ensures var s := After(Initial(window, now), es);
            var t := After(s, Booting(down, boot)).tasks[id];
            FlightsOf(After(s, Restarting(down, boot, a, b)), id)
            == if CaughtUp(t, CountedFrom(s.table, id, a), b, s.window) then [Flight(false, Reserved)] else []
  {
    hide Possible, After, CanHappen, Step, CaughtUp, Restarting, Booting, Starting, Setup, Ending, CountedFrom, RowMatches;
    var s := After(Initial(window, now), es);
    RestartRun(s, down, boot, a, b);
    EndingLeaves(s, down);
    InitialPhased(window, now);
    PhasedRun(Initial(window, now), es);
    TaskHasRow(s, id);
    if down.Marked? { MarkDoesNotReachRow(window, now, es, id); }
    if down.KilledMarking? { CutMarkDoesNotReachRow(window, now, es, id, down.ids); }
    SameCountedFrom(LeftTable(s, down), s.table, id, a);
    StartReservesIff(After(s, Booting(down, boot)), a, b, id);
  }

  lemma TaskHasRow(s: State, id: TaskId)
    requires Phased(s) && s.phase.Halted? && id in s.tasks
    ensures id in s.table
  {
  }

  /**
   The flag that counts after a restart is the registered one, in memory and in the row:
   a task that was disabled stays so if and only if it is registered disabled.
   */
  lemma RestartUsesRegisteredFlag(s: State, id: TaskId, down: Shutdown, boot: seq<Event>, a: int, b: int)
    requires Setup(boot) && Possible(s, Restarting(down, boot, a, b))
    requires Possible(s, Booting(down, boot)) && id in After(s, Booting(down, boot)).tasks
    ensures var r, t := After(s, Booting(down, boot)), After(s, Restarting(down, boot, a, b));
            && id in t.tasks && t.tasks[id].enabled == r.tasks[id].enabled
            && id in t.table && t.table[id].enabled == r.tasks[id].enabled
  {
    hide Possible, After, CanHappen, Step, CaughtUp, Restarting, Booting, Starting, Setup, Ending;
    RestartRun(s, down, boot, a, b);
    StartReservesIff(After(s, Booting(down, boot)), a, b, id);
  }
}
