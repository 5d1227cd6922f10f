/**
 The scheduler as a state machine: every critical section of Scheduler is one event, and
 events of different goroutines interleave freely.

 An execution is reserved, begins, commits and is released. A commit is two events under
 the mutex, the row and then the history entry; until the second one no other critical
 section can run, but the process can die. RunNow and Stop are used only after Start has
 returned; tasks are registered and retry is configured before Start. Start may begin with
 executions still in flight, and a loop that Stop has closed may still tick.
 Rebooting may happen at any moment and loses the process, not the tables; where a critical
 section upserts one task after another, also between two of them.
 */
module SchedulerMachine {
  import opened Options
  import opened Schedules
  import opened TaskState

  datatype Stage = Reserved | Executing(start: int) | Committed

  datatype Flight = Flight(byTick: bool, stage: Stage)

  /** The start of an execution, in the order of starts. */
  datatype Launch = Launch(time: int, byTick: bool)

  datatype Phase = Fresh | Loading(snapshot: map<TaskId, Row>) | CatchUp | Live | Halted

  /**
   pending is the history entry that the holder of the mutex has still to write; looping
   says that some Start has launched its loop. launches and lost are history: the starts of
   this process, and the entries that a reboot kept from being written.
   */
  datatype State = State(
    tasks: map<TaskId, Task>,
    table: map<TaskId, Row>,
    history: seq<Run>,
    pending: Option<Run>,
    flights: map<TaskId, seq<Flight>>,
    phase: Phase,
    looping: bool,
    window: int,
    now: int,
    launches: map<TaskId, seq<Launch>>,
    lost: seq<Run>)

  datatype Event =
    | Register(id: TaskId, name: string, schedule: Schedule, enabled: bool)
    | SetRetry(id: TaskId, enabled: bool, base: int, maxRetries: int)
    | StartList
    | StartMerge(readAt: int)
    | RunMissed(readAt: int)
    | Tick(readAt: int)
    | RunNow(id: TaskId)
    | Begin(id: TaskId, i: nat)
    | Commit(id: TaskId, i: nat, finished: int, error: Option<string>)
    | RecordHistory
    | Release(id: TaskId, i: nat)
    | Enable(id: TaskId)
    | Disable(id: TaskId)
    | Stop
    | MarkInterrupted
    | Advance(to: int)
    | Reboot
    | DieMerging(readAt: int, ids: set<TaskId>)
    | DieMarking(ids: set<TaskId>)

  function FlightsOf(s: State, id: TaskId): seq<Flight> {
    if id in s.flights then s.flights[id] else []
  }

  function LaunchesOf(s: State, id: TaskId): seq<Launch> {
    if id in s.launches then s.launches[id] else []
  }

  function Stored(table: map<TaskId, Row>, id: TaskId): Option<Row> {
    if id in table then Some(table[id]) else None
  }

  ghost predicate Idle(s: State) {
    forall id :: FlightsOf(s, id) == []
  }

  predicate AtStage(s: State, id: TaskId, i: nat, stage: Stage) {
    i < |FlightsOf(s, id)| && FlightsOf(s, id)[i].stage == stage
  }

  /** Nobody holds the mutex between the two writes of a commit. */
  predicate Unlocked(s: State) {
    s.pending.None?
  }

  /** When an event can happen. */
  predicate CanHappen(s: State, e: Event) {
    match e
    case Register(id, _, _, _) => s.phase.Fresh?
    case SetRetry(_, _, _, _) => s.phase.Fresh?
    case StartList => s.phase.Fresh? || s.phase.Halted?
    case StartMerge(readAt) => s.phase.Loading? && readAt <= s.now && Unlocked(s)
    case RunMissed(readAt) => s.phase.CatchUp? && readAt <= s.now && Unlocked(s)
    case Tick(readAt) => s.looping && readAt <= s.now && Unlocked(s)
    case RunNow(id) => (s.phase.Live? || s.phase.Halted?) && id in s.tasks && !s.tasks[id].running && Unlocked(s)
    case Begin(id, i) => AtStage(s, id, i, Reserved)
    case Commit(id, i, finished, _) =>
      && i < |FlightsOf(s, id)| && FlightsOf(s, id)[i].stage.Executing?
      && FlightsOf(s, id)[i].stage.start <= finished <= s.now && id in s.tasks && Unlocked(s)
    case RecordHistory => s.pending.Some?
    case Release(id, i) => AtStage(s, id, i, Committed) && id in s.tasks && Unlocked(s)
    case Enable(id) => id in s.tasks && Unlocked(s)
    case Disable(id) => id in s.tasks && Unlocked(s)
    case Stop => s.phase.Live? && Unlocked(s)
    case MarkInterrupted => s.phase.Halted? && Unlocked(s)
    case Advance(to) => s.now <= to
    case Reboot => true
    case DieMerging(readAt, ids) => s.phase.Loading? && readAt <= s.now && Unlocked(s) && ids <= s.tasks.Keys
    case DieMarking(ids) => s.phase.Halted? && Unlocked(s) && ids <= RunningIds(s.tasks)
  }

  // --- Reservation ---

  function DueIds(tasks: map<TaskId, Task>, now: int): set<TaskId> {
    set id | id in tasks && Due(tasks[id], now)
  }

  function MissedIds(tasks: map<TaskId, Task>, now: int, window: int): set<TaskId> {
    set id | id in tasks && Missed(tasks[id], now, window)
  }

  function MarkRunning(tasks: map<TaskId, Task>, ids: set<TaskId>): map<TaskId, Task> {
    map id | id in tasks :: if id in ids then tasks[id].(running := true) else tasks[id]
  }

  function AddFlights(s: State, ids: set<TaskId>, byTick: bool): map<TaskId, seq<Flight>> {
    map id | id in s.flights.Keys + ids ::
      FlightsOf(s, id) + if id in ids then [Flight(byTick, Reserved)] else []
  }

  function Reserve(s: State, ids: set<TaskId>, byTick: bool): State {
    s.(tasks := MarkRunning(s.tasks, ids), flights := AddFlights(s, ids, byTick))
  }

  // --- Start ---

  function RestoreAll(tasks: map<TaskId, Task>, snapshot: map<TaskId, Row>, now: int): map<TaskId, Task> {
    map id | id in tasks :: Restore(tasks[id], Stored(snapshot, id), now)
  }

  /** The upserts of these tasks, one each. */
  function UpsertSome(table: map<TaskId, Row>, tasks: map<TaskId, Task>, ids: set<TaskId>): map<TaskId, Row> {
    map id | id in table.Keys + ids && (id in table || id in tasks) ::
      if id in ids && id in tasks then Merge(Stored(table, id), RowOf(tasks[id])) else table[id]
  }

  function UpsertAll(table: map<TaskId, Row>, tasks: map<TaskId, Task>): map<TaskId, Row> {
    UpsertSome(table, tasks, tasks.Keys)
  }

  function InterruptAll(tasks: map<TaskId, Task>, now: int): map<TaskId, Task> {
    map id | id in tasks :: if tasks[id].running then InterruptedTask(tasks[id], now) else tasks[id]
  }

  function RunningIds(tasks: map<TaskId, Task>): set<TaskId> {
    set id | id in tasks && tasks[id].running
  }

  function UpsertRunning(table: map<TaskId, Row>, tasks: map<TaskId, Task>): map<TaskId, Row> {
    UpsertSome(table, tasks, RunningIds(tasks))
  }

  // --- The step ---

  function SetFlight(s: State, id: TaskId, i: nat, stage: Stage): map<TaskId, seq<Flight>>
    requires i < |FlightsOf(s, id)|
  {
    s.flights[id := FlightsOf(s, id)[i := FlightsOf(s, id)[i].(stage := stage)]]
  }

  function Upserted(s: State, id: TaskId, t: Task): State {
    s.(tasks := s.tasks[id := t], table := s.table[id := Merge(Stored(s.table, id), RowOf(t))])
  }

  /** The process is gone after a last write to the table. */
  function Died(s: State, table: map<TaskId, Row>): State {
    s.(tasks := map[], table := table, flights := map[], phase := Fresh, looping := false, launches := map[])
  }

  function Step(s: State, e: Event): State
    requires CanHappen(s, e)
  {
    match e
    case Register(id, name, schedule, enabled) => s.(tasks := s.tasks[id := NewTask(name, schedule, enabled)])
    case SetRetry(id, enabled, base, maxRetries) =>
      if id in s.tasks then s.(tasks := s.tasks[id := WithRetry(s.tasks[id], enabled, base, maxRetries)]) else s
    case StartList => s.(phase := Loading(s.table))
    case StartMerge(readAt) =>
      var tasks := RestoreAll(s.tasks, s.phase.snapshot, readAt);
      s.(tasks := tasks, table := UpsertAll(s.table, tasks), phase := CatchUp)
    case RunMissed(readAt) => Reserve(s, MissedIds(s.tasks, readAt, s.window), false).(phase := Live, looping := true)
    case Tick(readAt) => Reserve(s, DueIds(s.tasks, readAt), true)
    case RunNow(id) => Reserve(s, {id}, false)
    case Begin(id, i) =>
      s.(flights := SetFlight(s, id, i, Executing(s.now)),
         launches := s.launches[id := LaunchesOf(s, id) + [Launch(s.now, FlightsOf(s, id)[i].byTick)]])
    case Commit(id, i, finished, error) =>
      var start := FlightsOf(s, id)[i].stage.start;
      var t := CommitTask(s.tasks[id], start, finished, error);
      s.(tasks := s.tasks[id := t],
         table := if id in s.table then s.table[id := UpdateRow(s.table[id], t)] else s.table,
         pending := Some(Run(id, start, finished, error.None?, if error.Some? then error.value else "")),
         flights := SetFlight(s, id, i, Committed))
    case RecordHistory => s.(history := s.history + [s.pending.value], pending := None)
    case Release(id, i) =>
      s.(tasks := s.tasks[id := s.tasks[id].(running := false)],
         flights := s.flights[id := FlightsOf(s, id)[..i] + FlightsOf(s, id)[i + 1..]])
    case Enable(id) => Upserted(s, id, EnabledTask(s.tasks[id], s.now))
    case Disable(id) => Upserted(s, id, s.tasks[id].(enabled := false))
    case Stop => s.(phase := Halted)
    case MarkInterrupted =>
      var tasks := InterruptAll(s.tasks, s.now);
      s.(tasks := tasks, table := UpsertRunning(s.table, tasks))
    case Advance(to) => s.(now := to)
    case Reboot =>
      Died(s, s.table).(pending := None, lost := s.lost + if s.pending.Some? then [s.pending.value] else [])
    case DieMerging(readAt, ids) => Died(s, UpsertSome(s.table, RestoreAll(s.tasks, s.phase.snapshot, readAt), ids))
    case DieMarking(ids) => Died(s, UpsertSome(s.table, InterruptAll(s.tasks, s.now), ids))
  }

  /** The process ends. */
  predicate Dies(e: Event) {
    e.Reboot? || e.DieMerging? || e.DieMarking?
  }

  /** A run is a sequence of events each of which can happen when it does. */
  ghost predicate Possible(s: State, es: seq<Event>)
    decreases |es|
  {
    es == [] || (CanHappen(s, es[0]) && Possible(Step(s, es[0]), es[1..]))
  }

  ghost function After(s: State, es: seq<Event>): State
    requires Possible(s, es)
    decreases |es|
  {
    if es == [] then s else After(Step(s, es[0]), es[1..])
  }

  /** An empty process on an empty database. */
  function Initial(window: int, now: int): State {
    State(map[], map[], [], None, map[], Fresh, false, window, now, map[], [])
  }

  // --- What every run keeps ---

  /** Executions and loops exist only after a Start, and by then every task has a row. */
  ghost predicate Phased(s: State) {
    && (s.phase.Fresh? ==> !s.looping)
    && (s.phase.Live? || s.phase.Halted? ==> s.looping)
    && (!s.looping ==> Idle(s))
    && (s.looping || s.phase.CatchUp? ==> s.tasks.Keys <= s.table.Keys)
    && (s.pending.Some? ==> s.pending.value.id in s.table && FlightsOf(s, s.pending.value.id) != [])
  }

  lemma ReservationPhased(s: State, e: Event)
    requires Phased(s) && CanHappen(s, e) && (e.RunMissed? || e.Tick? || e.RunNow?)
    ensures Phased(Step(s, e))
  {
    hide DueIds, MissedIds, AddFlights;
  }

  lemma FlightPhased(s: State, e: Event)
    requires Phased(s) && CanHappen(s, e) && (e.Begin? || e.Commit? || e.Release?)
    ensures Phased(Step(s, e))
  {
    hide CommitTask, UpdateRow;
    assert FlightsOf(s, e.id) != [];
  }

  lemma StartPhased(s: State, e: Event)
    requires Phased(s) && CanHappen(s, e) && (e.Register? || e.SetRetry? || e.StartList? || e.StartMerge?)
    ensures Phased(Step(s, e))
  {
    hide Merge, RowOf, Restore, NewTask, WithRetry;
    IdleSame(s, Step(s, e));
  }

  lemma OtherPhased(s: State, e: Event)
    requires Phased(s) && CanHappen(s, e)
    requires e.RecordHistory? || e.Enable? || e.Disable? || e.Stop? || e.MarkInterrupted? || e.Advance?
    ensures Phased(Step(s, e))
  {
    hide Merge, RowOf, EnabledTask, InterruptedTask;
    IdleSame(s, Step(s, e));
  }

  lemma DeathPhased(s: State, e: Event)
    requires Phased(s) && CanHappen(s, e) && Dies(e)
    ensures Phased(Step(s, e))
  {
    hide UpsertSome, RestoreAll, InterruptAll, RunningIds;
  }

  lemma IdleSame(s: State, t: State)
    ensures s.flights == t.flights ==> (Idle(s) <==> Idle(t))
  {
    if s.flights == t.flights {
      assert forall id :: FlightsOf(t, id) == FlightsOf(s, id);
    }
  }

  lemma PhasedStep(s: State, e: Event)
    requires Phased(s) && CanHappen(s, e)
    ensures Phased(Step(s, e))
  {
    hide Phased, CanHappen, Step;
    if e.RunMissed? || e.Tick? || e.RunNow? { ReservationPhased(s, e); }
    else if e.Begin? || e.Commit? || e.Release? { FlightPhased(s, e); }
    else if e.Register? || e.SetRetry? || e.StartList? || e.StartMerge? { StartPhased(s, e); }
    else if Dies(e) { DeathPhased(s, e); }
    else { OtherPhased(s, e); }
  }

  lemma {:induction false} PhasedRun(s: State, es: seq<Event>)
    requires Phased(s) && Possible(s, es)
    ensures Phased(After(s, es))
    decreases |es|
  {
    hide Phased, CanHappen, Step;
    if es != [] {
      PhasedStep(s, es[0]);
      PhasedRun(Step(s, es[0]), es[1..]);
    }
  }

  /** A run of two parts is a run of the first and then of the second. */
  lemma {:induction false} RunConcat(s: State, a: seq<Event>, b: seq<Event>)
    ensures Possible(s, a + b) <==> Possible(s, a) && Possible(After(s, a), b)
    ensures Possible(s, a + b) ==> After(s, a + b) == After(After(s, a), b)
    decreases |a|
  {
    hide CanHappen, Step;
    if a == [] {
      assert a + b == b;
    } else {
      assert (a + b)[0] == a[0] && (a + b)[1..] == a[1..] + b;
      if CanHappen(s, a[0]) { RunConcat(Step(s, a[0]), a[1..], b); }
    }
  }

  // --- Mutual exclusion ---

  /** In flight: one execution of a running task, none of any other. */
  ghost predicate ExclusiveAt(s: State, id: TaskId) {
    |FlightsOf(s, id)| == if id in s.tasks && s.tasks[id].running then 1 else 0
  }

  ghost predicate Exclusive(s: State) {
    forall id :: ExclusiveAt(s, id)
  }

  /** A catch-up that finds a missed task running. */
  ghost predicate Doubles(s: State, e: Event) {
    exists id :: DoublesAt(s, e, id)
  }

  predicate DoublesAt(s: State, e: Event, id: TaskId) {
    e.RunMissed? && id in s.tasks && Missed(s.tasks[id], e.readAt, s.window) && s.tasks[id].running
  }

  lemma ReserveExclusive(s: State, ids: set<TaskId>, byTick: bool, id: TaskId)
    requires ExclusiveAt(s, id) && ids <= s.tasks.Keys
    ensures ExclusiveAt(Reserve(s, ids, byTick), id) <==> !(id in ids && s.tasks[id].running)
  {
  }

  /** The reservations: what they reserve must not be running. */
  lemma ReservationExclusive(s: State, e: Event, id: TaskId)
    requires ExclusiveAt(s, id) && CanHappen(s, e) && (e.RunMissed? || e.Tick? || e.RunNow?)
    ensures ExclusiveAt(Step(s, e), id) <==> !DoublesAt(s, e, id)
  {
    hide Due, Missed, Reserve, ExclusiveAt;
    if e.RunMissed? {
      ReserveExclusive(s, MissedIds(s.tasks, e.readAt, s.window), false, id);
      SameExclusive(Reserve(s, MissedIds(s.tasks, e.readAt, s.window), false), Step(s, e), id);
    } else if e.Tick? {
      DueNotRunning(s.tasks, e.readAt, id);
      ReserveExclusive(s, DueIds(s.tasks, e.readAt), true, id);
    } else {
      ReserveExclusive(s, {e.id}, false, id);
    }
  }

  lemma SameExclusive(s: State, t: State, id: TaskId)
    requires t.tasks == s.tasks && t.flights == s.flights
    ensures ExclusiveAt(s, id) <==> ExclusiveAt(t, id)
  {
  }

  /** The steps of one execution. */
  lemma FlightExclusive(s: State, e: Event, id: TaskId)
    requires ExclusiveAt(s, id) && CanHappen(s, e) && (e.Begin? || e.Commit? || e.Release?)
    ensures ExclusiveAt(Step(s, e), id)
  {
    hide CommitTask;
    if e.Commit? {
      CommitFrame(s.tasks[e.id], FlightsOf(s, e.id)[e.i].stage.start, e.finished, e.error);
    }
  }

  /** The steps that leave reservations alone. */
  lemma OtherExclusive(s: State, e: Event, id: TaskId)
    requires Phased(s) && ExclusiveAt(s, id) && CanHappen(s, e)
    requires !(e.RunMissed? || e.Tick? || e.RunNow? || e.Begin? || e.Commit? || e.Release?)
    ensures ExclusiveAt(Step(s, e), id)
  {
    hide NextRun, Merge, RowOf, UpsertSome, RunningIds;
    assert s.phase.Fresh? ==> FlightsOf(s, id) == [];
  }

  /** For one task, a step keeps exclusion if and only if it is no catch-up that finds it missed and running. */
  lemma ExclusiveAtStepIff(s: State, e: Event, id: TaskId)
    requires Phased(s) && ExclusiveAt(s, id) && CanHappen(s, e)
    ensures ExclusiveAt(Step(s, e), id) <==> !DoublesAt(s, e, id)
  {
    hide Step, CanHappen, ExclusiveAt, Phased, Missed;
    if e.RunMissed? || e.Tick? || e.RunNow? { ReservationExclusive(s, e, id); }
    else if e.Begin? || e.Commit? || e.Release? { FlightExclusive(s, e, id); }
    else { OtherExclusive(s, e, id); }
  }

  /** One step keeps exclusion if and only if it is no catch-up that finds a missed task running. */
  lemma ExclusiveStepIff(s: State, e: Event)
    requires Phased(s) && Exclusive(s) && CanHappen(s, e)
    ensures Exclusive(Step(s, e)) <==> !Doubles(s, e)
  {
    hide Step, CanHappen, ExclusiveAt, Phased, MissedIds, Missed;
    forall id ensures ExclusiveAt(Step(s, e), id) <==> !DoublesAt(s, e, id) {
      assert ExclusiveAt(s, id);
      ExclusiveAtStepIff(s, e, id);
    }
  }

  lemma DueNotRunning(tasks: map<TaskId, Task>, now: int, id: TaskId)
    ensures id in DueIds(tasks, now) ==> id in tasks && !tasks[id].running
  {
  }

  ghost predicate AlwaysExclusive(s: State, es: seq<Event>)
    requires Possible(s, es)
    decreases |es|
  {
    Exclusive(s) && (es != [] ==> AlwaysExclusive(Step(s, es[0]), es[1..]))
  }

  /** No catch-up of the run finds a missed task running. */
  ghost predicate NeverDoubles(s: State, es: seq<Event>)
    requires Possible(s, es)
    decreases |es|
  {
    es != [] ==> !Doubles(s, es[0]) && NeverDoubles(Step(s, es[0]), es[1..])
  }

  lemma {:induction false} ExclusiveRunIff(s: State, es: seq<Event>)
    requires Phased(s) && Exclusive(s) && Possible(s, es)
    ensures AlwaysExclusive(s, es) <==> NeverDoubles(s, es)
    ensures NeverDoubles(s, es) ==> Exclusive(After(s, es))
    decreases |es|
  {
    hide Phased, Exclusive, Doubles, CanHappen, Step;
    if es != [] {
      PhasedStep(s, es[0]);
      ExclusiveStepIff(s, es[0]);
      if !Doubles(s, es[0]) {
        ExclusiveRunIff(Step(s, es[0]), es[1..]);
      }
    }
  }

  lemma InitialPhased(window: int, now: int)
    ensures Phased(Initial(window, now)) && Exclusive(Initial(window, now))
  {
  }

  /**
   The exact guard, over whole runs: each task has one execution in flight while it is
   marked running and none otherwise, at every moment, if and only if no catch-up finds a
   missed task still running.
   */
  lemma ExclusiveIff(window: int, now: int, es: seq<Event>)
    requires Possible(Initial(window, now), es)
    ensures AlwaysExclusive(Initial(window, now), es) <==> NeverDoubles(Initial(window, now), es)
  {
    hide Possible, Phased, Exclusive, AlwaysExclusive, NeverDoubles;
    InitialPhased(window, now);
    ExclusiveRunIff(Initial(window, now), es);
  }

  // --- Orderly runs ---

  /** Start begins with nothing in flight, and no loop of an earlier Start ticks while it runs. */
  ghost predicate OrderlyEvent(s: State, e: Event) {
    && (e.StartList? ==> Idle(s))
    && (e.Tick? ==> s.phase.Live? || s.phase.Halted?)
  }

  ghost predicate Orderly(s: State, es: seq<Event>)
    requires Possible(s, es)
    decreases |es|
  {
    es != [] ==> OrderlyEvent(s, es[0]) && Orderly(Step(s, es[0]), es[1..])
  }

  ghost predicate Quiet(s: State) {
    && Phased(s) && Exclusive(s)
    && (s.phase.Loading? || s.phase.CatchUp? ==> Idle(s))
  }

  lemma IdleNotRunning(s: State, id: TaskId)
    requires Idle(s) && Exclusive(s)
    ensures id in s.tasks ==> !s.tasks[id].running
  {
    assert FlightsOf(s, id) == [] && ExclusiveAt(s, id);
  }

  lemma QuietNotDouble(s: State, e: Event)
    requires Quiet(s) && CanHappen(s, e)
    ensures !Doubles(s, e)
  {
    hide Missed, Phased;
    forall id ensures !DoublesAt(s, e, id) {
      if s.phase.CatchUp? { IdleNotRunning(s, id); }
    }
  }

  lemma StaysIdle(s: State, e: Event)
    requires Quiet(s) && CanHappen(s, e) && OrderlyEvent(s, e)
    ensures var s' := Step(s, e); s'.phase.Loading? || s'.phase.CatchUp? ==> Idle(s')
  {
    hide Exclusive, NextRun, Merge, RowOf, UpsertSome, RunningIds, CommitTask, RestoreAll, InterruptAll;
    var s' := Step(s, e);
    if s'.phase.Loading? || s'.phase.CatchUp? {
      IdleSame(s, s');
    }
  }

  lemma QuietStep(s: State, e: Event)
    requires Quiet(s) && CanHappen(s, e) && OrderlyEvent(s, e)
    ensures Quiet(Step(s, e))
  {
    hide Step, CanHappen, Exclusive, Phased, Doubles, OrderlyEvent, Idle;
    PhasedStep(s, e);
    QuietNotDouble(s, e);
    ExclusiveStepIff(s, e);
    StaysIdle(s, e);
  }

  lemma {:induction false} QuietRun(s: State, es: seq<Event>)
    requires Quiet(s) && Possible(s, es) && Orderly(s, es)
    ensures Quiet(After(s, es)) && NeverDoubles(s, es)
    decreases |es|
  {
    hide Quiet, Doubles, CanHappen, Step, OrderlyEvent;
    if es != [] {
      QuietNotDouble(s, es[0]);
      QuietStep(s, es[0]);
      QuietRun(Step(s, es[0]), es[1..]);
    }
  }

  lemma InitialQuiet(window: int, now: int)
    ensures Quiet(Initial(window, now))
  {
  }

  /**
   In every interleaving whose Starts begin idle each task has at most one execution in
   flight, and is marked running exactly while it has one.
   */
  lemma AtMostOneInFlight(window: int, now: int, es: seq<Event>, id: TaskId)
    requires Possible(Initial(window, now), es) && Orderly(Initial(window, now), es)
    ensures var s := After(Initial(window, now), es);
            && |FlightsOf(s, id)| <= 1
            && (|FlightsOf(s, id)| == 1 <==> id in s.tasks && s.tasks[id].running)
  {
    hide Possible, Orderly, After, Phased;
    assert Quiet(Initial(window, now)) by { InitialQuiet(window, now); }
    QuietRun(Initial(window, now), es);
    assert ExclusiveAt(After(Initial(window, now), es), id);
  }
}
