/**
 Runs that show where the scheduler falls short: what each premise of the other theorems
 keeps out does happen. One enabled task "@every d" without retry, from time 0.
 */
module SchedulerFailures {
  import opened Options
  import opened Schedules
  import opened TaskState
  import opened SchedulerMachine
  import opened SchedulerCounts
  import opened SchedulerSpacing

  lemma Then(s: State, es: seq<Event>, e: Event)
    requires Possible(s, es) && CanHappen(After(s, es), e)
    ensures Possible(s, es + [e]) && After(s, es + [e]) == Step(After(s, es), e)
  {
    hide CanHappen, Step;
    RunConcat(s, es, [e]);
    assert [e][1..] == [];
    assert Possible(After(s, es), [e]);
  }

  // --- The events on a state with one task ---

  lemma StopIs(s: State)
    requires s.phase.Live? && Unlocked(s)
    ensures CanHappen(s, Stop) && Step(s, Stop) == s.(phase := Halted)
  {
  }

  lemma ListIs(s: State)
    requires s.phase.Fresh? || s.phase.Halted?
    ensures CanHappen(s, StartList) && Step(s, StartList) == s.(phase := Loading(s.table))
  {
  }

  lemma RecordIs(s: State)
    requires s.pending.Some?
    ensures CanHappen(s, RecordHistory)
    ensures Step(s, RecordHistory) == s.(history := s.history + [s.pending.value], pending := None)
  {
  }

  lemma RegisterIs(s: State, id: TaskId, d: int)
    requires s.phase.Fresh? && s.tasks == map[]
    ensures CanHappen(s, NewJob(id, d)) && Step(s, NewJob(id, d)) == s.(tasks := map[id := NewTask("job", Every(d), true)])
  {
  }

  lemma RebootIs(s: State)
    ensures CanHappen(s, Reboot)
    ensures var t := Step(s, Reboot);
            && t.tasks == map[] && t.flights == map[] && t.pending == None && t.phase == Fresh && !t.looping
            && t.table == s.table && t.history == s.history && t.window == s.window && t.now == s.now
  {
  }

  lemma MergeIs(s: State, id: TaskId, t: Task, readAt: int)
    requires s.phase.Loading? && Unlocked(s) && readAt <= s.now && s.tasks == map[id := t]
    ensures CanHappen(s, StartMerge(readAt))
    ensures var r := Restore(t, Stored(s.phase.snapshot, id), readAt);
            Step(s, StartMerge(readAt))
            == s.(tasks := map[id := r], table := s.table[id := Merge(Stored(s.table, id), RowOf(r))], phase := CatchUp)
  {
    hide Restore, Merge, RowOf;
  }

  lemma MissedIs(s: State, id: TaskId, t: Task, readAt: int)
    requires s.phase.CatchUp? && Unlocked(s) && readAt <= s.now && s.tasks == map[id := t]
    ensures CanHappen(s, RunMissed(readAt))
    ensures var u := Step(s, RunMissed(readAt));
            && (!Missed(t, readAt, s.window) && (s.flights == map[] || s.flights == map[id := []]) ==> u == s.(phase := Live, looping := true))
            && FlightsOf(u, id) == FlightsOf(s, id) + (if Missed(t, readAt, s.window) then [Flight(false, Reserved)] else [])
            && id in u.tasks && u.tasks[id] == (if Missed(t, readAt, s.window) then t.(running := true) else t)
  {
    hide Missed;
    if !Missed(t, readAt, s.window) {
      assert MissedIds(s.tasks, readAt, s.window) == {};
    }
  }

  lemma ReservedMaps(s: State, id: TaskId, t: Task, byTick: bool)
    requires s.tasks == map[id := t] && (s.flights == map[] || s.flights == map[id := []])
    ensures Reserve(s, {id}, byTick) == s.(tasks := map[id := t.(running := true)], flights := map[id := [Flight(byTick, Reserved)]])
  {
    assert [] + [Flight(byTick, Reserved)] == [Flight(byTick, Reserved)];
  }

  lemma RunNowIs(s: State, id: TaskId, t: Task)
    requires s.phase.Live? && Unlocked(s) && s.tasks == map[id := t] && !t.running && (s.flights == map[] || s.flights == map[id := []])
    ensures CanHappen(s, RunNow(id))
    ensures Step(s, RunNow(id)) == s.(tasks := map[id := t.(running := true)], flights := map[id := [Flight(false, Reserved)]])
  {
    ReservedMaps(s, id, t, false);
  }

  lemma TickIs(s: State, id: TaskId, t: Task, readAt: int)
    requires s.looping && Unlocked(s) && readAt <= s.now && s.tasks == map[id := t] && Due(t, readAt)
    requires s.flights == map[id := []]
    ensures CanHappen(s, Tick(readAt))
    ensures Step(s, Tick(readAt)) == s.(tasks := map[id := t.(running := true)], flights := map[id := [Flight(true, Reserved)]])
  {
    hide Due;
    assert DueIds(s.tasks, readAt) == {id};
    ReservedMaps(s, id, t, true);
  }

  lemma Staged(s: State, id: TaskId, f: Flight, stage: Stage)
    requires s.flights == map[id := [f]]
    ensures FlightsOf(s, id) == [f] && SetFlight(s, id, 0, stage) == map[id := [f.(stage := stage)]]
  {
    assert [f][0 := f.(stage := stage)] == [f.(stage := stage)];
  }

  lemma BeginIs(s: State, id: TaskId, byTick: bool)
    requires s.flights == map[id := [Flight(byTick, Reserved)]]
    ensures CanHappen(s, Begin(id, 0))
    ensures Step(s, Begin(id, 0)) == s.(flights := map[id := [Flight(byTick, Executing(s.now))]],
                                        launches := s.launches[id := LaunchesOf(s, id) + [Launch(s.now, byTick)]])
  {
    Staged(s, id, Flight(byTick, Reserved), Executing(s.now));
  }

  lemma CommitIs(s: State, id: TaskId, t: Task)
    requires s.flights == map[id := [Flight(false, Executing(s.now))]] && Unlocked(s)
    requires s.tasks == map[id := t] && id in s.table
    ensures CanHappen(s, Commit(id, 0, s.now, None))
    ensures var c := CommitTask(t, s.now, s.now, None);
            Step(s, Commit(id, 0, s.now, None))
            == s.(tasks := map[id := c], table := s.table[id := UpdateRow(s.table[id], c)],
                  pending := Some(EntryAt(id, s.now)), flights := map[id := [Flight(false, Committed)]])
  {
    hide CommitTask, UpdateRow;
    Staged(s, id, Flight(false, Executing(s.now)), Committed);
  }

  lemma ReleaseIs(s: State, id: TaskId, t: Task)
    requires s.flights == map[id := [Flight(false, Committed)]] && s.tasks == map[id := t] && Unlocked(s)
    ensures CanHappen(s, Release(id, 0))
    ensures Step(s, Release(id, 0)) == s.(tasks := map[id := t.(running := false)], flights := map[id := []])
  {
    var f := Flight(false, Committed);
    assert FlightsOf(s, id) == [f] && [f][..0] + [f][1..] == [];
  }

  lemma MarkIs(s: State, id: TaskId, t: Task)
    requires s.phase.Halted? && Unlocked(s) && s.tasks == map[id := t] && t.running && id in s.table
    ensures CanHappen(s, MarkInterrupted)
    ensures var m := InterruptedTask(t, s.now);
            Step(s, MarkInterrupted) == s.(tasks := map[id := m], table := s.table[id := Merge(Some(s.table[id]), RowOf(m))])
  {
    hide Merge, RowOf, RestoreAll, UpsertAll, DueIds, MissedIds, AddFlights, MarkRunning, SetFlight, CommitTask, NextRun;
    var m := InterruptedTask(t, s.now);
    assert InterruptAll(s.tasks, s.now) == map[id := m];
    assert RunningIds(map[id := m]) == {id};
    assert UpsertRunning(s.table, map[id := m]) == s.table[id := Merge(Some(s.table[id]), RowOf(m))];
  }

  lemma AdvanceIs(s: State, to: int)
    requires s.now <= to
    ensures CanHappen(s, Advance(to)) && Step(s, Advance(to)) == s.(now := to)
  {
  }

  // --- The task and the states the runs pass through ---

  function Every(d: int): Schedule { Interval("@every", d) }

  function NewJob(id: TaskId, d: int): Event { Register(id, "job", Every(d), true) }

  /** The entry after Start at time 0. */
  function Waiting(d: int): Task { NewTask("job", Every(d), true).(nextRun := Some(d)) }

  /** The entry after a successful run at time 0. */
  function RunOnce(d: int): Task {
    Waiting(d).(lastRun := Some(0), lastStatus := Success, runCount := 1)
  }

  function EntryAt(id: TaskId, at: int): Run { Run(id, at, at, true, "") }

  function Entry(id: TaskId): Run { EntryAt(id, 0) }

  /** Started at time 0. */
  function Up(id: TaskId, d: int, w: int): State {
    State(map[id := Waiting(d)], map[id := RowOf(Waiting(d))], [], None, map[], Live, true, w, 0, map[], [])
  }

  function Booted(id: TaskId, d: int): seq<Event> { [NewJob(id, d)] + [StartList] + [StartMerge(0)] + [RunMissed(0)] }

  /** Registering and starting a process at time 0 over an empty table or the row of a task that has not run. */
  lemma BootedFrom(s: State, id: TaskId, d: int)
    requires d > 0 && s.phase == Fresh && s.tasks == map[] && s.flights == map[] && s.now == 0 && Unlocked(s)
    requires s.table == map[] || s.table == map[id := RowOf(Waiting(d))]
    ensures Possible(s, Booted(id, d))
    ensures After(s, Booted(id, d))
            == s.(tasks := map[id := Waiting(d)], table := map[id := RowOf(Waiting(d))], phase := Live, looping := true)
  {
    var s1 := s.(tasks := map[id := NewTask("job", Every(d), true)]);
    var s2 := s1.(phase := Loading(s.table));
    var s3 := s.(tasks := map[id := Waiting(d)], table := map[id := RowOf(Waiting(d))], phase := CatchUp);
    RegisterIs(s, id, d);
    ListIs(s1);
    MergeIs(s2, id, NewTask("job", Every(d), true), 0);
    assert Step(s2, StartMerge(0)) == s3;
    MissedIs(s3, id, Waiting(d), 0);
    var es := [NewJob(id, d)];
    hide CanHappen, Step;
    Then(s, [], NewJob(id, d));
    assert [] + es == es;
    hide Possible, After;
    Then(s, es, StartList);
    Then(s, es + [StartList], StartMerge(0));
    Then(s, es + [StartList] + [StartMerge(0)], RunMissed(0));
  }

  lemma BootedRun(id: TaskId, d: int, w: int)
    requires d > 0
    ensures Possible(Initial(w, 0), Booted(id, d)) && After(Initial(w, 0), Booted(id, d)) == Up(id, d, w)
  {
    BootedFrom(Initial(w, 0), id, d);
  }

  /** Reserved by hand and begun at time 0. */
  function Executing0(id: TaskId, d: int, w: int): State {
    Up(id, d, w).(
      tasks := map[id := Waiting(d).(running := true)],
      flights := map[id := [Flight(false, Executing(0))]],
      launches := map[id := [Launch(0, false)]])
  }

  function Begun(id: TaskId, d: int): seq<Event> { Booted(id, d) + [RunNow(id)] + [Begin(id, 0)] }

  lemma BegunRun(id: TaskId, d: int, w: int)
    requires d > 0
    ensures Possible(Initial(w, 0), Begun(id, d)) && After(Initial(w, 0), Begun(id, d)) == Executing0(id, d, w)
  {
    hide Possible, After, CanHappen, Step, RowOf, Booted;
    BootedRun(id, d, w);
    var s0, es, s := Initial(w, 0), Booted(id, d), Up(id, d, w);
    RunNowIs(s, id, Waiting(d));
    Then(s0, es, RunNow(id));
    BeginIs(Step(s, RunNow(id)), id, false);
    assert [] + [Launch(0, false)] == [Launch(0, false)];
    Then(s0, es + [RunNow(id)], Begin(id, 0));
  }

  /** The row is written, the history entry is not. */
  function HalfCommitted(id: TaskId, d: int, w: int): State {
    Executing0(id, d, w).(
      tasks := map[id := RunOnce(d).(running := true)], table := map[id := RowOf(RunOnce(d))],
      pending := Some(Entry(id)), flights := map[id := [Flight(false, Committed)]])
  }

  function Half(id: TaskId, d: int): seq<Event> { Begun(id, d) + [Commit(id, 0, 0, None)] }

  lemma HalfRun(id: TaskId, d: int, w: int)
    requires d > 0
    ensures Possible(Initial(w, 0), Half(id, d)) && After(Initial(w, 0), Half(id, d)) == HalfCommitted(id, d, w)
  {
    hide Possible, After, CanHappen, Step, Begun;
    BegunRun(id, d, w);
    CommitIs(Executing0(id, d, w), id, Waiting(d).(running := true));
    Then(Initial(w, 0), Begun(id, d), Commit(id, 0, 0, None));
  }

  // --- A reboot inside a commit ---

  /** The next process after a reboot between the two writes. */
  function CutRun(id: TaskId, d: int): seq<Event> {
    Half(id, d) + [Reboot] + [NewJob(id, d)] + [StartList] + [StartMerge(0)]
  }

  /** The run count of the next process, and of the row, is one ahead of the history, which is empty. */
  lemma RebootInsideCommit(id: TaskId, d: int, w: int)
    requires d > 0
    ensures Possible(Initial(w, 0), CutRun(id, d))
    ensures var s := After(Initial(w, 0), CutRun(id, d));
            && Started(s, id) && s.history == [] && s.tasks[id].runCount == 1
            && id in s.table && s.table[id].runCount == 1
  {
    hide Possible, After, CanHappen, Step, Half;
    HalfRun(id, d, w);
    var s0, es, s := Initial(w, 0), Half(id, d), HalfCommitted(id, d, w);
    RebootIs(s);
    Then(s0, es, Reboot);
    var s1 := Step(s, Reboot);
    RegisterIs(s1, id, d);
    Then(s0, es + [Reboot], NewJob(id, d));
    var s2 := Step(s1, NewJob(id, d));
    ListIs(s2);
    Then(s0, es + [Reboot] + [NewJob(id, d)], StartList);
    MergeIs(Step(s2, StartList), id, NewTask("job", Every(d), true), 0);
    Then(s0, es + [Reboot] + [NewJob(id, d)] + [StartList], StartMerge(0));
  }

  // --- A Start over an execution in flight ---

  function StaleRun(id: TaskId, d: int): seq<Event> {
    Begun(id, d) + [Stop] + [StartList] + [Commit(id, 0, 0, None)] + [RecordHistory] + [StartMerge(0)]
  }

  /** An execution commits after Start has listed its row: memory falls behind row and history. */
  lemma StartMergesOvertakenRow(id: TaskId, d: int, w: int)
    requires d > 0
    ensures Possible(Initial(w, 0), StaleRun(id, d))
    ensures var s := After(Initial(w, 0), StaleRun(id, d));
            && Started(s, id) && s.history == [Entry(id)] && s.tasks[id].runCount == 0
            && id in s.table && s.table[id].runCount == 1
  {
    hide Possible, After, CanHappen, Step, Begun;
    BegunRun(id, d, w);
    var s0, es, s := Initial(w, 0), Begun(id, d), Executing0(id, d, w);
    StopIs(s);
    Then(s0, es, Stop);
    ListIs(Step(s, Stop));
    Then(s0, es + [Stop], StartList);
    var s2, commit := s.(phase := Loading(s.table)), Commit(id, 0, 0, None);
    CommitIs(s2, id, Waiting(d).(running := true));
    Then(s0, es + [Stop] + [StartList], commit);
    var s3 := Step(s2, commit);
    RecordIs(s3);
    Then(s0, es + [Stop] + [StartList] + [commit], RecordHistory);
    MergeIs(Step(s3, RecordHistory), id, RunOnce(d).(running := true), 0);
    Then(s0, es + [Stop] + [StartList] + [commit] + [RecordHistory], StartMerge(0));
  }

  /** Between two runs: recorded and released. */
  function Rested(id: TaskId, d: int, w: int): State {
    HalfCommitted(id, d, w).(
      tasks := map[id := RunOnce(d)], history := [Entry(id)], pending := None, flights := map[id := []])
  }

  function Resting(id: TaskId, d: int): seq<Event> { Half(id, d) + [RecordHistory] + [Release(id, 0)] }

  lemma RestingRun(id: TaskId, d: int, w: int)
    requires d > 0
    ensures Possible(Initial(w, 0), Resting(id, d)) && After(Initial(w, 0), Resting(id, d)) == Rested(id, d, w)
  {
    hide Possible, After, CanHappen, Step, Half, RowOf;
    HalfRun(id, d, w);
    var s0, es, s := Initial(w, 0), Half(id, d), HalfCommitted(id, d, w);
    RecordIs(s);
    Then(s0, es, RecordHistory);
    ReleaseIs(Step(s, RecordHistory), id, RunOnce(d).(running := true));
    Then(s0, es + [RecordHistory], Release(id, 0));
  }

  /** The loop takes the task up at d + 1, and it is executing. */
  function Overdue(id: TaskId, d: int, w: int): State {
    Rested(id, d, w).(
      tasks := map[id := RunOnce(d).(running := true)], flights := map[id := [Flight(true, Executing(d + 1))]],
      now := d + 1, launches := map[id := [Launch(0, false), Launch(d + 1, true)]])
  }

  function Again(id: TaskId, d: int): seq<Event> {
    Resting(id, d) + [Advance(d + 1)] + [Tick(d + 1)] + [Begin(id, 0)]
  }

  lemma AgainRun(id: TaskId, d: int, w: int)
    requires d > 0
    ensures Possible(Initial(w, 0), Again(id, d)) && After(Initial(w, 0), Again(id, d)) == Overdue(id, d, w)
  {
    hide Possible, After, CanHappen, Step, Resting, RowOf;
    RestingRun(id, d, w);
    var s0, es, s := Initial(w, 0), Resting(id, d), Rested(id, d, w);
    AdvanceIs(s, d + 1);
    Then(s0, es, Advance(d + 1));
    TickIs(s.(now := d + 1), id, RunOnce(d), d + 1);
    Then(s0, es + [Advance(d + 1)], Tick(d + 1));
    BeginIs(Step(s.(now := d + 1), Tick(d + 1)), id, true);
    assert [Launch(0, false)] + [Launch(d + 1, true)] == [Launch(0, false), Launch(d + 1, true)];
    Then(s0, es + [Advance(d + 1)] + [Tick(d + 1)], Begin(id, 0));
  }

  function DoubleRun(id: TaskId, d: int): seq<Event> {
    Again(id, d) + [Stop] + [StartList] + [StartMerge(d + 1)] + [RunMissed(d + 1)]
  }

  /** Stop gives up on a long execution; the Start after it catches the same task up: two in flight. */
  lemma RestartDoubles(id: TaskId, d: int, w: int)
    requires d > 0 && w > 1
    ensures Possible(Initial(w, 0), DoubleRun(id, d))
    ensures FlightsOf(After(Initial(w, 0), DoubleRun(id, d)), id) == [Flight(true, Executing(d + 1)), Flight(false, Reserved)]
  {
    hide Possible, After, CanHappen, Step, Again;
    AgainRun(id, d, w);
    var s0, es, s := Initial(w, 0), Again(id, d), Overdue(id, d, w);
    StopIs(s);
    Then(s0, es, Stop);
    ListIs(Step(s, Stop));
    Then(s0, es + [Stop], StartList);
    var t := RunOnce(d).(running := true);
    MergeIs(s.(phase := Loading(s.table)), id, t, d + 1);
    Then(s0, es + [Stop] + [StartList], StartMerge(d + 1));
    var s3 := Step(s.(phase := Loading(s.table)), StartMerge(d + 1));
    MissedIs(s3, id, t, d + 1);
    Then(s0, es + [Stop] + [StartList] + [StartMerge(d + 1)], RunMissed(d + 1));
  }

  // --- The mark of an interrupted task ---

  function InterruptedRun(id: TaskId, d: int): seq<Event> {
    Begun(id, d) + [Stop] + [MarkInterrupted] + [Reboot] + Booted(id, d)
  }

  /** A task is interrupted by the shutdown and marked; the next Start does not run it. */
  lemma InterruptedIsNotRunAgain(id: TaskId, d: int, w: int)
    requires d > 0
    ensures Possible(Initial(w, 0), InterruptedRun(id, d))
    ensures var s := After(Initial(w, 0), InterruptedRun(id, d));
            && id in s.tasks && s.tasks[id].enabled && s.tasks[id].lastStatus == Pending && FlightsOf(s, id) == []
  {
    hide Possible, After, CanHappen, Step, Begun, Booted;
    BegunRun(id, d, w);
    var s0, es, s := Initial(w, 0), Begun(id, d), Executing0(id, d, w);
    StopIs(s);
    Then(s0, es, Stop);
    var s1 := Step(s, Stop);
    MarkIs(s1, id, Waiting(d).(running := true));
    Then(s0, es + [Stop], MarkInterrupted);
    var s2 := Step(s1, MarkInterrupted);
    assert s2.table == map[id := RowOf(Waiting(d))];
    RebootIs(s2);
    Then(s0, es + [Stop] + [MarkInterrupted], Reboot);
    BootedFrom(Step(s2, Reboot), id, d);
    RunConcat(s0, es + [Stop] + [MarkInterrupted] + [Reboot], Booted(id, d));
  }

  // --- The enabled flag ---

  function RestartedRun(id: TaskId, d: int): seq<Event> {
    Booted(id, d) + [Disable(id)] + [Reboot] + [NewJob(id, d)] + [StartList] + [StartMerge(0)]
  }

  lemma DisableIs(s: State, id: TaskId, t: Task)
    requires s.tasks == map[id := t] && Unlocked(s)
    ensures CanHappen(s, Disable(id))
    ensures var u := t.(enabled := false);
            Step(s, Disable(id)) == s.(tasks := map[id := u], table := s.table[id := Merge(Stored(s.table, id), RowOf(u))])
  {
    hide Merge, RowOf;
  }

  /** A task is disabled, and a restart enables it again, in memory and in its row. */
  lemma DisabledIsEnabledAgain(id: TaskId, d: int, w: int)
    requires d > 0
    ensures var es := Booted(id, d) + [Disable(id)];
            && Possible(Initial(w, 0), es)
            && var s := After(Initial(w, 0), es);
               id in s.tasks && !s.tasks[id].enabled && id in s.table && !s.table[id].enabled
    ensures Possible(Initial(w, 0), RestartedRun(id, d))
    ensures var s := After(Initial(w, 0), RestartedRun(id, d));
            Started(s, id) && s.tasks[id].enabled && id in s.table && s.table[id].enabled
  {
    hide Possible, After, CanHappen, Step, Booted;
    BootedRun(id, d, w);
    var s0, es, s := Initial(w, 0), Booted(id, d), Up(id, d, w);
    DisableIs(s, id, Waiting(d));
    Then(s0, es, Disable(id));
    RebootIs(Step(s, Disable(id)));
    Then(s0, es + [Disable(id)], Reboot);
    var s2 := Step(Step(s, Disable(id)), Reboot);
    RegisterIs(s2, id, d);
    Then(s0, es + [Disable(id)] + [Reboot], NewJob(id, d));
    var s3 := Step(s2, NewJob(id, d));
    ListIs(s3);
    Then(s0, es + [Disable(id)] + [Reboot] + [NewJob(id, d)], StartList);
    MergeIs(Step(s3, StartList), id, NewTask("job", Every(d), true), 0);
    Then(s0, es + [Disable(id)] + [Reboot] + [NewJob(id, d)] + [StartList], StartMerge(0));
  }

  // --- A tick after the mark ---

  function MarkedHalf(id: TaskId, d: int): seq<Event> {
    Half(id, d) + [RecordHistory] + [Stop] + [MarkInterrupted] + [Release(id, 0)]
  }

  function Marked(d: int): Task { RunOnce(d).(lastStatus := Interrupted, nextRun := Some(0)) }

  lemma MarkedRun(id: TaskId, d: int, w: int)
    requires d > 0
    ensures Possible(Initial(w, 0), MarkedHalf(id, d))
    ensures After(Initial(w, 0), MarkedHalf(id, d)) == Rested(id, d, w).(tasks := map[id := Marked(d)], phase := Halted)
  {
    hide Possible, After, CanHappen, Step, Half;
    HalfRun(id, d, w);
    var s0, es, s := Initial(w, 0), Half(id, d), HalfCommitted(id, d, w);
    RecordIs(s);
    Then(s0, es, RecordHistory);
    var s1 := Step(s, RecordHistory);
    StopIs(s1);
    Then(s0, es + [RecordHistory], Stop);
    MarkIs(Step(s1, Stop), id, RunOnce(d).(running := true));
    Then(s0, es + [RecordHistory] + [Stop], MarkInterrupted);
    var s3 := Step(Step(s1, Stop), MarkInterrupted);
    assert s3.table == map[id := RowOf(RunOnce(d))];
    ReleaseIs(s3, id, Marked(d).(running := true));
    Then(s0, es + [RecordHistory] + [Stop] + [MarkInterrupted], Release(id, 0));
  }

  function EarlyRun(id: TaskId, d: int): seq<Event> { MarkedHalf(id, d) + [Advance(1)] + [Tick(1)] + [Begin(id, 0)] }

  /**
   Stop marks an execution that has committed but is not yet released, and a tick that was
   already under way takes it up again: two starts one nanosecond apart, whatever d is.
   */
  lemma TickAfterMarkIsEarly(id: TaskId, d: int, w: int)
    requires d > 0
    ensures Possible(Initial(w, 0), EarlyRun(id, d))
    ensures var s := After(Initial(w, 0), EarlyRun(id, d));
            && id in s.tasks && PlainInterval(s.tasks[id]) && s.tasks[id].schedule.d == d
            && LaunchesOf(s, id) == [Launch(0, false), Launch(1, true)]
  {
    hide Possible, After, CanHappen, Step, MarkedHalf, RowOf;
    MarkedRun(id, d, w);
    var s0, es := Initial(w, 0), MarkedHalf(id, d);
    var s := Rested(id, d, w).(tasks := map[id := Marked(d)], phase := Halted);
    AdvanceIs(s, 1);
    Then(s0, es, Advance(1));
    TickIs(s.(now := 1), id, Marked(d), 1);
    Then(s0, es + [Advance(1)], Tick(1));
    BeginIs(Step(s.(now := 1), Tick(1)), id, true);
    assert [Launch(0, false)] + [Launch(1, true)] == [Launch(0, false), Launch(1, true)];
    Then(s0, es + [Advance(1)] + [Tick(1)], Begin(id, 0));
  }

  // --- A tick after a Start over an execution in flight ---

  /** A run of the task much later: it starts by hand at d + w, longer ago than any catch-up reaches. */
  function Late(id: TaskId, d: int, w: int): seq<Event> {
    Resting(id, d) + [Advance(d + w)] + [RunNow(id)] + [Begin(id, 0)]
  }

  function LateState(id: TaskId, d: int, w: int): State {
    Rested(id, d, w).(
      tasks := map[id := RunOnce(d).(running := true)], flights := map[id := [Flight(false, Executing(d + w))]],
      now := d + w, launches := map[id := [Launch(0, false), Launch(d + w, false)]])
  }

  lemma LateRun(id: TaskId, d: int, w: int)
    requires d > 0 && w >= 0
    ensures Possible(Initial(w, 0), Late(id, d, w)) && After(Initial(w, 0), Late(id, d, w)) == LateState(id, d, w)
  {
    hide Possible, After, CanHappen, Step, Resting, RowOf;
    RestingRun(id, d, w);
    var s0, es, s := Initial(w, 0), Resting(id, d), Rested(id, d, w);
    AdvanceIs(s, d + w);
    Then(s0, es, Advance(d + w));
    RunNowIs(s.(now := d + w), id, RunOnce(d));
    Then(s0, es + [Advance(d + w)], RunNow(id));
    BeginIs(Step(s.(now := d + w), RunNow(id)), id, false);
    assert [Launch(0, false)] + [Launch(d + w, false)] == [Launch(0, false), Launch(d + w, false)];
    Then(s0, es + [Advance(d + w)] + [RunNow(id)], Begin(id, 0));
  }

  /** Stop and Start while it runs; it commits and is released after Start has listed its row. */
  function Overtaken(id: TaskId, d: int, w: int): seq<Event> {
    Late(id, d, w) + [Stop] + [StartList] + [Commit(id, 0, d + w, None)] + [RecordHistory] + [Release(id, 0)]
  }

  lemma OvertakenRun(id: TaskId, d: int, w: int)
    requires d > 0 && w >= 0
    ensures Possible(Initial(w, 0), Overtaken(id, d, w))
    ensures var s := After(Initial(w, 0), Overtaken(id, d, w));
            && s.tasks == map[id := CommitTask(RunOnce(d), d + w, d + w, None)] && s.flights == map[id := []]
            && s.phase == Loading(map[id := RowOf(RunOnce(d))]) && s.looping && Unlocked(s) && s.now == d + w && s.window == w
            && LaunchesOf(s, id) == [Launch(0, false), Launch(d + w, false)]
  {
    hide Possible, After, CanHappen, Step, Late, RowOf, UpdateRow;
    LateRun(id, d, w);
    var s0, es, s := Initial(w, 0), Late(id, d, w), LateState(id, d, w);
    StopIs(s);
    Then(s0, es, Stop);
    ListIs(s.(phase := Halted));
    Then(s0, es + [Stop], StartList);
    var s2, commit, t := s.(phase := Loading(s.table)), Commit(id, 0, d + w, None), RunOnce(d).(running := true);
    CommitIs(s2, id, t);
    Then(s0, es + [Stop] + [StartList], commit);
    RecordIs(Step(s2, commit));
    Then(s0, es + [Stop] + [StartList] + [commit], RecordHistory);
    ReleaseIs(Step(Step(s2, commit), RecordHistory), id, CommitTask(t, d + w, d + w, None));
    Then(s0, es + [Stop] + [StartList] + [commit] + [RecordHistory], Release(id, 0));
  }

  function StaleStartRun(id: TaskId, d: int, w: int): seq<Event> {
    Overtaken(id, d, w) + [StartMerge(d + w)] + [RunMissed(d + w)] + [Advance(d + w + 1)] + [Tick(d + w + 1)] + [Begin(id, 0)]
  }

  /**
   The Start restores the last run it has listed, so the next run lies in the past, too far
   back to be caught up, and the first tick starts the task a nanosecond after its last start.
   Nothing is marked, and there is never more than one execution: when the catch-up comes,
   the task is not running.
   */
  lemma StaleStartIsEarly(id: TaskId, d: int, w: int)
    requires d > 0 && w >= 0
    ensures Possible(Initial(w, 0), StaleStartRun(id, d, w))
    ensures var s := After(Initial(w, 0), StaleStartRun(id, d, w));
            && id in s.tasks && PlainInterval(s.tasks[id]) && s.tasks[id].schedule.d == d
            && LaunchesOf(s, id) == [Launch(0, false), Launch(d + w, false), Launch(d + w + 1, true)]
    ensures Possible(Initial(w, 0), Overtaken(id, d, w))
    ensures var s := After(Initial(w, 0), Overtaken(id, d, w));
            id in s.tasks && !s.tasks[id].running && FlightsOf(s, id) == []
  {
    hide Possible, After, CanHappen, Step, Overtaken, RowOf;
    OvertakenRun(id, d, w);
    var s0, es, at := Initial(w, 0), Overtaken(id, d, w), d + w;
    var s := After(s0, es);
    MergeIs(s, id, CommitTask(RunOnce(d), at, at, None), at);
    Then(s0, es, StartMerge(at));
    var s1 := Step(s, StartMerge(at));
    var t := Restore(CommitTask(RunOnce(d), at, at, None), Some(RowOf(RunOnce(d))), at);
    RestoredIsDue(d, at);
    MissedIs(s1, id, t, at);
    Then(s0, es + [StartMerge(at)], RunMissed(at));
    var s2 := s1.(phase := Live, looping := true);
    AdvanceIs(s2, at + 1);
    Then(s0, es + [StartMerge(at)] + [RunMissed(at)], Advance(at + 1));
    var s3 := s2.(now := at + 1);
    TickIs(s3, id, t, at + 1);
    Then(s0, es + [StartMerge(at)] + [RunMissed(at)] + [Advance(at + 1)], Tick(at + 1));
    BeginIs(Step(s3, Tick(at + 1)), id, true);
    assert [Launch(0, false), Launch(at, false)] + [Launch(at + 1, true)] == [Launch(0, false), Launch(at, false), Launch(at + 1, true)];
    Then(s0, es + [StartMerge(at)] + [RunMissed(at)] + [Advance(at + 1)] + [Tick(at + 1)], Begin(id, 0));
  }

  lemma RestoredIsDue(d: int, at: int)
    ensures var t := Restore(CommitTask(RunOnce(d), at, at, None), Some(RowOf(RunOnce(d))), at);
            t.nextRun == Some(d) && t.enabled && !t.running && PlainInterval(t) && t.schedule.d == d
  {
  }
}
