/**
 The Scheduler and its tables as objects. Each method is one critical section of the
 source; its contract is the step of the state machine for that section.

 The flights, launches and phase of the machine are ghost: they stand for the goroutines
 that hold a reservation, and pending for the one that holds the mutex inside a commit.
 */
module SchedulerObject {
  import opened Options
  import opened Lists
  import opened Arithmetic
  import opened GoText
  import opened Schedules
  import opened TaskState
  import opened SchedulerMachine

  /** The scheduler_tasks and scheduler_history tables. */
  class Database {
    var table: map<TaskId, Row>
    var history: seq<Run>

    /** The table after each upsert so far: what a process that dies then leaves. */
    ghost var upserts: seq<map<TaskId, Row>>

    constructor ()
      ensures table == map[] && history == [] && upserts == []
    {
      table := map[];
      history := [];
      upserts := [];
    }

    method UpsertSchedulerTask(id: TaskId, entry: Row)
      modifies this`table, this`upserts
      ensures table == old(table)[id := Merge(Stored(old(table), id), entry)]
      ensures id !in old(table) ==> table[id] == entry
      ensures id in old(table) ==>
                var row, r := old(table)[id], table[id];
                && r.name == entry.name && r.schedule == entry.schedule && r.enabled == entry.enabled
                && r.runCount == row.runCount && r.failCount == row.failCount && r.lastStatus == row.lastStatus
                && r.lastRun == (if row.lastRun.Some? then row.lastRun else entry.lastRun)
                && r.nextRun == (if row.nextRun.Some? then row.nextRun else entry.nextRun)
                && r.lastError == (if row.lastError != "" then row.lastError else entry.lastError)
      ensures upserts == old(upserts) + [table]
    {
      if id !in table {
        table := table[id := entry];
      } else {
        var row := table[id];
        table := table[id := Row(entry.name, entry.schedule,
          if row.lastRun.Some? then row.lastRun else entry.lastRun,
          row.lastStatus,
          if row.lastError != "" then row.lastError else entry.lastError,
          if row.nextRun.Some? then row.nextRun else entry.nextRun,
          row.runCount, row.failCount, entry.enabled)];
      }
      upserts := upserts + [table];
    }

    method UpdateTaskRun(id: TaskId, t: Task)
      modifies this`table
      ensures table == if id in old(table) then old(table)[id := UpdateRow(old(table)[id], t)] else old(table)
      ensures id in old(table) ==>
                var row, r := old(table)[id], table[id];
                && r.name == row.name && r.schedule == row.schedule && r.enabled == row.enabled
                && r.lastRun == t.lastRun && r.lastStatus == t.lastStatus && r.lastError == t.lastError
                && r.runCount == t.runCount && r.failCount == t.failCount && r.nextRun == t.nextRun
    {
      if id in table {
        table := table[id := UpdateRow(table[id], t)];
      }
    }

    method RecordTaskHistory(r: Run)
      modifies this`history
      ensures history == old(history) + [r]
    {
      history := history + [r];
    }

    method ListSchedulerTasks() returns (rows: map<TaskId, Row>)
      ensures rows == table
    {
      rows := table;
    }
  }

  datatype RunNowError = NotFound | AlreadyRunning

  class Scheduler {
    const db: Database
    const catchUpWindow: int
    var tasks: map<TaskId, Task>
    var clock: int

    ghost var flights: map<TaskId, seq<Flight>>
    ghost var launches: map<TaskId, seq<Launch>>
    ghost var phase: Phase
    ghost var looping: bool
    ghost var pending: Option<Run>
    ghost var lost: seq<Run>

    ghost function Abs(): State
      reads this, db
    {
      State(tasks, db.table, db.history, pending, flights, phase, looping, catchUpWindow, clock, launches, lost)
    }

    constructor (db: Database, catchUpWindow: int, now: int)
      ensures this.db == db
      ensures Abs() == State(map[], db.table, db.history, None, map[], Fresh, false, catchUpWindow, now, map[], [])
    {
      this.db := db;
      this.catchUpWindow := catchUpWindow;
      tasks := map[];
      clock := now;
      flights := map[];
      launches := map[];
      phase := Fresh;
      looping := false;
      pending := None;
      lost := [];
    }

    method Register(id: TaskId, name: string, schedule: Schedule, enabled: bool)
      requires CanHappen(Abs(), Event.Register(id, name, schedule, enabled))
      modifies this`tasks
      ensures Abs() == Step(old(Abs()), Event.Register(id, name, schedule, enabled))
      ensures var t := tasks[id];
              && t.name == name && t.schedule == schedule && t.enabled == enabled && !t.running
              && t.lastRun == None && t.nextRun == None && t.lastStatus == Pending && t.lastError == ""
              && t.runCount == 0 && t.failCount == 0 && t.retryAttempt == 0 && !t.retryOnFail && t.retryMax == 0 && t.retryBase == 0
    {
      tasks := tasks[id := NewTask(name, schedule, enabled)];
    }

    method SetRetry(id: TaskId, enabled: bool, base: int, maxRetries: int)
      requires CanHappen(Abs(), Event.SetRetry(id, enabled, base, maxRetries))
      modifies this`tasks
      ensures Abs() == Step(old(Abs()), Event.SetRetry(id, enabled, base, maxRetries))
      ensures id in old(tasks) ==>
                && id in tasks && tasks[id].retryOnFail == enabled
                && tasks[id].retryBase == (if base > 0 then base else 300_000_000_000)
                && tasks[id].retryMax == (if maxRetries > 0 then maxRetries else 3)
    {
      if id !in tasks {
        return;
      }
      var e := tasks[id].(retryOnFail := enabled);
      e := e.(retryBase := if base <= 0 then DEFAULT_RETRY_DELAY else base);
      e := e.(retryMax := if maxRetries <= 0 then DEFAULT_MAX_RETRIES else maxRetries);
      tasks := tasks[id := e];
    }

    /** Every entry outside left has been replaced by its target, the others are as they were. */
    static ghost predicate Mixed(all: map<TaskId, Task>, target: map<TaskId, Task>, current: map<TaskId, Task>, left: set<TaskId>) {
      && left <= all.Keys == target.Keys == current.Keys
      && forall id :: id in all ==> current[id] == if id in left then all[id] else target[id]
    }

    static lemma MixedStart(all: map<TaskId, Task>, target: map<TaskId, Task>)
      requires target.Keys == all.Keys
      ensures Mixed(all, target, all, all.Keys)
    {
    }

    static lemma MixedNext(all: map<TaskId, Task>, target: map<TaskId, Task>, current: map<TaskId, Task>, left: set<TaskId>, id: TaskId)
      requires Mixed(all, target, current, left) && id in left
      ensures id in all && id in target && id in current && current[id] == all[id]
      ensures Mixed(all, target, current[id := target[id]], left - {id})
      ensures target[id] == all[id] ==> Mixed(all, target, current, left - {id})
    {
    }

    static lemma MixedEnd(all: map<TaskId, Task>, target: map<TaskId, Task>, current: map<TaskId, Task>)
      requires Mixed(all, target, current, {})
      ensures current == target
    {
    }

    static lemma MarkTarget(all: map<TaskId, Task>, ids: set<TaskId>)
      ensures MarkRunning(all, ids).Keys == all.Keys
      ensures forall id :: id in all ==> MarkRunning(all, ids)[id] == if id in ids then all[id].(running := true) else all[id]
    {
    }

    static lemma NoneRepeated(ids: seq<TaskId>)
      ensures ids == [] ==> NoRepeats(ids)
    {
    }

    /** The scan of tick: every due task is listed once and marked. */
    method MarkDue(readAt: int) returns (due: seq<TaskId>)
      modifies this`tasks
      ensures NoRepeats(due) && forall id :: id in due <==> id in DueIds(old(tasks), readAt)
      ensures tasks == MarkRunning(old(tasks), DueIds(old(tasks), readAt))
    {
      hide Due, MarkRunning, Mixed, NoRepeats;
      var all := tasks;
      var left := tasks.Keys;
      ghost var target := MarkRunning(all, DueIds(all, readAt));
      MarkTarget(all, DueIds(all, readAt));
      MixedStart(all, target);
      due := [];
      assert NoRepeats(due) by { NoneRepeated(due); }
      while left != {}
        invariant left <= all.Keys
        invariant forall id :: id in due <==> id in all && id !in left && Due(all[id], readAt)
        invariant NoRepeats(due)
        invariant Mixed(all, target, tasks, left)
        decreases |left|
      {
        var id :| id in left;
        MixedNext(all, target, tasks, left, id);
        left := left - {id};
        if Due(tasks[id], readAt) {
          AppendedNoRepeats(due, id);
          due := due + [id];
          tasks := tasks[id := tasks[id].(running := true)];
        }
      }
      MixedEnd(all, target, tasks);
    }

    /** Reserves every due task under the lock. */
    method Tick(readAt: int) returns (due: seq<TaskId>)
      requires CanHappen(Abs(), Event.Tick(readAt))
      modifies this`tasks, this`flights
      ensures Abs() == Step(old(Abs()), Event.Tick(readAt))
      ensures NoRepeats(due)
      ensures forall id :: id in due <==>
                id in old(tasks) && old(tasks)[id].enabled && !old(tasks)[id].running
                && old(tasks)[id].nextRun.Some? && old(tasks)[id].nextRun.value < readAt
      ensures forall id :: id in due ==> id in tasks && tasks[id] == old(tasks)[id].(running := true)
    {
      hide MarkRunning, AddFlights;
      MarkTarget(tasks, DueIds(tasks, readAt));
      ghost var before := Abs();
      due := MarkDue(readAt);
      flights := AddFlights(before, DueIds(before.tasks, readAt), true);
    }

    /** The scan of runMissed, which does not look at running. */
    method MarkMissed(readAt: int) returns (missed: seq<TaskId>)
      modifies this`tasks
      ensures NoRepeats(missed) && forall id :: id in missed <==> id in MissedIds(old(tasks), readAt, catchUpWindow)
      ensures tasks == MarkRunning(old(tasks), MissedIds(old(tasks), readAt, catchUpWindow))
    {
      hide Missed, MarkRunning, Mixed, NoRepeats;
      var all := tasks;
      var left := tasks.Keys;
      ghost var target := MarkRunning(all, MissedIds(all, readAt, catchUpWindow));
      MarkTarget(all, MissedIds(all, readAt, catchUpWindow));
      MixedStart(all, target);
      missed := [];
      assert NoRepeats(missed) by { NoneRepeated(missed); }
      while left != {}
        invariant left <= all.Keys
        invariant forall id :: id in missed <==> id in all && id !in left && Missed(all[id], readAt, catchUpWindow)
        invariant NoRepeats(missed)
        invariant Mixed(all, target, tasks, left)
        decreases |left|
      {
        var id :| id in left;
        MixedNext(all, target, tasks, left, id);
        left := left - {id};
        if Missed(tasks[id], readAt, catchUpWindow) {
          AppendedNoRepeats(missed, id);
          missed := missed + [id];
          tasks := tasks[id := tasks[id].(running := true)];
        }
      }
      MixedEnd(all, target, tasks);
    }

    /** The catch-up reservation of Start. */
    method RunMissed(readAt: int) returns (missed: seq<TaskId>)
      requires CanHappen(Abs(), Event.RunMissed(readAt))
      modifies this`tasks, this`flights, this`phase, this`looping
      ensures Abs() == Step(old(Abs()), Event.RunMissed(readAt))
      ensures NoRepeats(missed)
      ensures forall id :: id in missed <==>
                id in old(tasks) && old(tasks)[id].enabled && old(tasks)[id].nextRun.Some?
                && readAt - catchUpWindow < old(tasks)[id].nextRun.value < readAt
      ensures forall id :: id in missed ==> id in tasks && tasks[id] == old(tasks)[id].(running := true)
    {
      hide MarkRunning, AddFlights;
      MarkTarget(tasks, MissedIds(tasks, readAt, catchUpWindow));
      ghost var before := Abs();
      missed := MarkMissed(readAt);
      flights := AddFlights(before, MissedIds(before.tasks, readAt, catchUpWindow), false);
      phase := Live;
      looping := true;
    }

    /** The first critical section of RunNow: refuse, or reserve. */
    method ReserveNow(id: TaskId) returns (error: Option<RunNowError>)
      requires (phase.Live? || phase.Halted?) && pending.None?
      modifies this`tasks, this`flights
      ensures error == if id !in old(tasks) then Some(NotFound) else if old(tasks)[id].running then Some(AlreadyRunning) else None
      ensures error.Some? ==> Abs() == old(Abs())
      ensures error.None? ==> CanHappen(old(Abs()), Event.RunNow(id)) && Abs() == Step(old(Abs()), Event.RunNow(id))
    {
      if id !in tasks {
        return Some(NotFound);
      }
      if tasks[id].running {
        return Some(AlreadyRunning);
      }
      ghost var before := Abs();
      tasks := tasks[id := tasks[id].(running := true)];
      assert tasks == MarkRunning(before.tasks, {id});
      flights := AddFlights(before, {id}, false);
      error := None;
    }

    /** What execute does to the entry. */
    method CompleteEntry(entry: Task, start: int, finished: int, error: Option<string>) returns (e: Task)
      ensures e == CommitTask(entry, start, finished, error)
    {
      hide NextRun, Backoff;
      e := entry.(lastRun := Some(start),
                  lastStatus := if error.None? then Success else Failed,
                  lastError := if error.None? then "" else error.value);
      var next;
      if error.Some? {
        e := e.(failCount := e.failCount + 1);
        if e.retryOnFail && e.retryAttempt < e.retryMax {
          var delay := Backoff(e.retryBase, e.retryAttempt);
          next := Some(finished + delay);
          e := e.(retryAttempt := e.retryAttempt + 1);
        } else {
          next := NextRun(e.schedule, finished);
          e := e.(retryAttempt := 0);
        }
      } else {
        e := e.(runCount := e.runCount + 1);
        e := e.(retryAttempt := 0);
        next := NextRun(e.schedule, finished);
      }
      e := e.(nextRun := next);
    }

    /** What an execution from start to finished leaves in the entry. */
    static ghost predicate OutcomeIs(t: Task, t': Task, start: int, finished: int, error: Option<string>) {
      && t'.lastRun == Some(start)
      && (error.None? ==>
            && t'.lastStatus == Success && t'.lastError == "" && t'.retryAttempt == 0
            && t'.runCount == t.runCount + 1 && t'.failCount == t.failCount && IsNextRun(t.schedule, finished, t'.nextRun))
      && (error.Some? ==>
            && t'.lastStatus == Failed && t'.lastError == error.value
            && t'.runCount == t.runCount && t'.failCount == t.failCount + 1
            && if t.retryOnFail && t.retryAttempt < t.retryMax
               then t'.nextRun == Some(finished + Wrap64(t.retryBase * Pow2(t.retryAttempt))) && t'.retryAttempt == t.retryAttempt + 1
               else IsNextRun(t.schedule, finished, t'.nextRun) && t'.retryAttempt == 0)
    }

    static lemma CommitOutcome(t: Task, start: int, finished: int, error: Option<string>)
      ensures OutcomeIs(t, CommitTask(t, start, finished, error), start, finished, error)
    {
      hide NextRun, IsNextRun, Backoff;
      NextAfterCommit(t, start, finished, error);
    }

    /** The first half of the locked part of execute: the entry and its row. */
    method SaveOutcome(id: TaskId, start: int, finished: int, error: Option<string>, ghost i: nat)
      requires CanHappen(Abs(), Event.Commit(id, i, finished, error)) && flights[id][i].stage == Executing(start)
      modifies this`tasks, this`flights, this`pending, db`table
      ensures Abs() == Step(old(Abs()), Event.Commit(id, i, finished, error))
      ensures OutcomeIs(old(tasks)[id], tasks[id], start, finished, error)
      ensures id in db.table ==>
                var row, t := db.table[id], tasks[id];
                && row.lastRun == t.lastRun && row.lastStatus == t.lastStatus && row.lastError == t.lastError
                && row.runCount == t.runCount && row.failCount == t.failCount && row.nextRun == t.nextRun
    {
      hide CommitTask, UpdateRow, MarkRunning, AddFlights, RestoreAll, UpsertAll, InterruptAll, UpsertRunning, DueIds, MissedIds, SetFlight, OutcomeIs;
      ghost var before := Abs();
      CommitOutcome(tasks[id], start, finished, error);
      var e := CompleteEntry(tasks[id], start, finished, error);
      tasks := tasks[id := e];
      db.UpdateTaskRun(id, e);
      pending := Some(Run(id, start, finished, error.None?, if error.Some? then error.value else ""));
      flights := SetFlight(before, id, i, Committed);
    }

    /** The second half, still under the mutex: the history entry. */
    method RecordOutcome(id: TaskId, start: int, finished: int, error: Option<string>)
      requires pending == Some(Run(id, start, finished, error.None?, if error.Some? then error.value else ""))
      modifies this`pending, db`history
      ensures CanHappen(old(Abs()), RecordHistory) && Abs() == Step(old(Abs()), RecordHistory)
      ensures db.history == old(db.history) + [Run(id, start, finished, error.None?, if error.Some? then error.value else "")]
    {
      db.RecordTaskHistory(Run(id, start, finished, error.None?, if error.Some? then error.value else ""));
      pending := None;
    }

    /** The locked part of execute: two writes, between which only the process can die. */
    method CommitExecution(id: TaskId, start: int, finished: int, error: Option<string>, ghost i: nat)
      requires CanHappen(Abs(), Event.Commit(id, i, finished, error)) && flights[id][i].stage == Executing(start)
      modifies this`tasks, this`flights, this`pending, db
      ensures var half := Step(old(Abs()), Event.Commit(id, i, finished, error));
              CanHappen(half, RecordHistory) && Abs() == Step(half, RecordHistory)
      ensures OutcomeIs(old(tasks)[id], tasks[id], start, finished, error)
      ensures db.history == old(db.history) + [Run(id, start, finished, error.None?, if error.Some? then error.value else "")]
    {
      SaveOutcome(id, start, finished, error, i);
      PendingEntry(old(Abs()), id, start, finished, error, i);
      RecordOutcome(id, start, finished, error);
    }

    static lemma PendingEntry(s: State, id: TaskId, start: int, finished: int, error: Option<string>, i: nat)
      requires CanHappen(s, Event.Commit(id, i, finished, error)) && FlightsOf(s, id)[i].stage == Executing(start)
      ensures Step(s, Event.Commit(id, i, finished, error)).pending
              == Some(Run(id, start, finished, error.None?, if error.Some? then error.value else ""))
    {
      hide CommitTask, UpdateRow, SetFlight;
    }

    method Release(id: TaskId, ghost i: nat)
      requires CanHappen(Abs(), Event.Release(id, i))
      modifies this`tasks, this`flights
      ensures Abs() == Step(old(Abs()), Event.Release(id, i))
    {
      tasks := tasks[id := tasks[id].(running := false)];
      flights := flights[id := FlightsOf(Abs(), id)[..i] + FlightsOf(Abs(), id)[i + 1..]];
    }

    method PersistState(id: TaskId)
      requires id in tasks
      modifies db`table, db`upserts
      ensures db.upserts == old(db.upserts) + [db.table]
      ensures db.table == old(db.table)[id := Merge(Stored(old(db.table), id), RowOf(tasks[id]))]
    {
      db.UpsertSchedulerTask(id, RowOf(tasks[id]));
    }

    method EnableTask(id: TaskId)
      requires pending.None?
      modifies this`tasks, db`table, db`upserts
      ensures id in old(tasks) ==> Abs() == Step(old(Abs()), Event.Enable(id))
      ensures id in old(tasks) ==>
                && tasks[id].enabled && IsNextRun(tasks[id].schedule, clock, tasks[id].nextRun)
                && id in db.table && db.table[id].enabled
      ensures id !in old(tasks) ==> Abs() == old(Abs())
    {
      hide NextRun, IsNextRun;
      if id in tasks {
        NextAfterEnable(tasks[id], clock);
        tasks := tasks[id := tasks[id].(enabled := true, nextRun := NextRun(tasks[id].schedule, clock))];
        PersistState(id);
      }
    }

    method DisableTask(id: TaskId)
      requires pending.None?
      modifies this`tasks, db`table, db`upserts
      ensures id in old(tasks) ==> Abs() == Step(old(Abs()), Event.Disable(id))
      ensures id in old(tasks) ==>
                && !tasks[id].enabled && tasks[id].nextRun == old(tasks)[id].nextRun
                && id in db.table && !db.table[id].enabled
      ensures id !in old(tasks) ==> Abs() == old(Abs())
    {
      if id in tasks {
        tasks := tasks[id := tasks[id].(enabled := false)];
        PersistState(id);
      }
    }

    /** Start reads the stored rows before it takes the lock. */
    method ListState() returns (stateById: map<TaskId, Row>)
      requires CanHappen(Abs(), Event.StartList)
      modifies this`phase
      ensures Abs() == Step(old(Abs()), Event.StartList) && phase == Loading(stateById)
    {
      stateById := db.ListSchedulerTasks();
      phase := Loading(stateById);
    }

    /**
     The locked part of loadState, over the rows that were listed before the lock. A process
     that dies after any of its upserts leaves what the machine's death while merging leaves.
     */
    method LoadState(stateById: map<TaskId, Row>, readAt: int)
      requires phase == Loading(stateById) && CanHappen(Abs(), Event.StartMerge(readAt))
      modifies this`tasks, this`phase, db`table, db`upserts
      ensures Abs() == Step(old(Abs()), Event.StartMerge(readAt))
      ensures old(db.upserts) <= db.upserts
      ensures forall k :: |old(db.upserts)| <= k < |db.upserts| ==> DiesMergingAs(old(Abs()), readAt, db.upserts[k])
      ensures tasks.Keys == old(tasks).Keys
      ensures forall id :: id in tasks ==> RestoredIs(old(tasks)[id], tasks[id], Stored(stateById, id), readAt)
    {
      hide RestoreAll, UpsertAll, UpsertSome, Restore, Merge, RowOf, RestoredIs;
      ghost var before := Abs();
      RestoredEntries(tasks, stateById, readAt);
      MergeEntries(stateById, readAt);
      phase := CatchUp;
      forall k | |old(db.upserts)| <= k < |db.upserts| ensures DiesMergingAs(before, readAt, db.upserts[k]) {
        assert PartOf(db.upserts[k], before.table, tasks, tasks.Keys);
        var ids :| ids <= tasks.Keys && db.upserts[k] == UpsertSome(before.table, tasks, ids);
        DeathWhileMerging(before, readAt, ids, tasks);
      }
    }

    /** What loadState leaves in an entry. */
    static ghost predicate RestoredIs(t: Task, t': Task, stored: Option<Row>, now: int) {
      && t'.name == t.name && t'.schedule == t.schedule && t'.enabled == t.enabled && t'.running == t.running
      && (stored.Some? ==>
            var row := stored.value;
            && t'.lastRun == row.lastRun && t'.lastStatus == row.lastStatus && t'.lastError == row.lastError
            && t'.runCount == row.runCount && t'.failCount == row.failCount
            && IsNextRun(t.schedule, if row.lastRun.Some? then row.lastRun.value else now, t'.nextRun))
      && (stored.None? ==>
            && t'.lastRun == t.lastRun && t'.runCount == t.runCount && t'.failCount == t.failCount
            && IsNextRun(t.schedule, now, t'.nextRun))
    }

    static lemma RestoredEntry(t: Task, stored: Option<Row>, now: int)
      ensures RestoredIs(t, Restore(t, stored, now), stored, now)
    {
      hide NextRun, IsNextRun;
      NextAfterRestore(t, stored, now);
    }

    static lemma RestoredEntries(tasks: map<TaskId, Task>, snapshot: map<TaskId, Row>, now: int)
      ensures var r := RestoreAll(tasks, snapshot, now);
              r.Keys == tasks.Keys && forall id :: id in r ==> RestoredIs(tasks[id], r[id], Stored(snapshot, id), now)
    {
      hide Restore, RestoredIs;
      forall id | id in tasks ensures RestoredIs(tasks[id], Restore(tasks[id], Stored(snapshot, id), now), Stored(snapshot, id), now) {
        RestoredEntry(tasks[id], Stored(snapshot, id), now);
      }
    }

    static ghost predicate DiesMergingAs(s: State, readAt: int, table: map<TaskId, Row>) {
      exists ids :: CanHappen(s, DieMerging(readAt, ids)) && Step(s, DieMerging(readAt, ids)).table == table
    }

    static ghost predicate DiesMarkingAs(s: State, table: map<TaskId, Row>) {
      exists ids :: CanHappen(s, DieMarking(ids)) && Step(s, DieMarking(ids)).table == table
    }

    static lemma DeathWhileMerging(s: State, readAt: int, ids: set<TaskId>, tasks: map<TaskId, Task>)
      requires CanHappen(s, Event.StartMerge(readAt)) && ids <= tasks.Keys && tasks == RestoreAll(s.tasks, s.phase.snapshot, readAt)
      ensures CanHappen(s, DieMerging(readAt, ids)) && Step(s, DieMerging(readAt, ids)).table == UpsertSome(s.table, tasks, ids)
    {
      hide UpsertSome, Restore;
    }

    static lemma DeathWhileMarking(s: State, ids: set<TaskId>, tasks: map<TaskId, Task>)
      requires CanHappen(s, Event.MarkInterrupted) && ids <= RunningIds(tasks) && tasks == InterruptAll(s.tasks, s.now)
      ensures CanHappen(s, DieMarking(ids)) && Step(s, DieMarking(ids)).table == UpsertSome(s.table, tasks, ids)
    {
      hide UpsertSome;
      assert RunningIds(tasks) == RunningIds(s.tasks);
    }

    /** Restores each entry and upserts it. */
    method MergeEntries(stateById: map<TaskId, Row>, readAt: int)
      modifies this`tasks, db`table, db`upserts
      ensures tasks == RestoreAll(old(tasks), stateById, readAt)
      ensures db.table == UpsertAll(old(db.table), tasks)
      ensures old(db.upserts) <= db.upserts
      ensures forall k :: |old(db.upserts)| <= k < |db.upserts| ==> PartOf(db.upserts[k], old(db.table), tasks, tasks.Keys)
    {
      hide Restore, Merge, RowOf, UpsertSome, Mixed, PartOf;
      var all := tasks;
      var left := tasks.Keys;
      ghost var done: set<TaskId> := {};
      ghost var table := db.table;
      ghost var restored := RestoreAll(all, stateById, readAt);
      NothingUpserted(table, restored);
      MixedStart(all, restored);
      while left != {}
        invariant left <= all.Keys == restored.Keys
        invariant forall id :: id in done <==> id in all && id !in left
        invariant Mixed(all, restored, tasks, left)
        invariant db.table == UpsertSome(table, restored, done)
        invariant old(db.upserts) <= db.upserts
        invariant forall k :: |old(db.upserts)| <= k < |db.upserts| ==> PartOf(db.upserts[k], table, restored, restored.Keys)
        decreases |left|
      {
        var id :| id in left;
        MixedNext(all, restored, tasks, left, id);
        RestoreEntry(stateById, id, readAt);
        PersistState(id);
        UpsertOneMore(table, restored, done, id);
        done := done + {id};
        IsPart(db.table, table, restored, done, restored.Keys);
        left := left - {id};
      }
      MixedEnd(all, restored, tasks);
      assert done == restored.Keys;
    }

    /** The table after the upserts of some of these tasks. */
    static ghost predicate PartOf(version: map<TaskId, Row>, table: map<TaskId, Row>, tasks: map<TaskId, Task>, all: set<TaskId>) {
      exists ids :: ids <= all && version == UpsertSome(table, tasks, ids)
    }

    static lemma IsPart(version: map<TaskId, Row>, table: map<TaskId, Row>, tasks: map<TaskId, Task>, ids: set<TaskId>, all: set<TaskId>)
      requires ids <= all && version == UpsertSome(table, tasks, ids)
      ensures PartOf(version, table, tasks, all)
    {
    }

    static lemma NothingUpserted(table: map<TaskId, Row>, tasks: map<TaskId, Task>)
      ensures UpsertSome(table, tasks, {}) == table
    {
    }

    static lemma UpsertOneMore(table: map<TaskId, Row>, tasks: map<TaskId, Task>, done: set<TaskId>, id: TaskId)
      requires id in tasks && id !in done
      ensures var current := UpsertSome(table, tasks, done);
              current[id := Merge(Stored(current, id), RowOf(tasks[id]))] == UpsertSome(table, tasks, done + {id})
    {
      hide Merge, RowOf;
    }

    method RestoreEntry(stateById: map<TaskId, Row>, id: TaskId, now: int)
      requires id in tasks
      modifies this`tasks
      ensures tasks == old(tasks)[id := Restore(old(tasks)[id], Stored(stateById, id), now)]
    {
      hide NextRun;
      var e := tasks[id];
      if id in stateById {
        var row := stateById[id];
        e := e.(lastRun := row.lastRun, lastStatus := row.lastStatus, lastError := row.lastError,
                runCount := row.runCount, failCount := row.failCount);
        if e.lastRun.Some? {
          e := e.(nextRun := NextRun(e.schedule, e.lastRun.value));
        } else {
          e := e.(nextRun := NextRun(e.schedule, now));
        }
      } else {
        e := e.(nextRun := NextRun(e.schedule, now));
      }
      tasks := tasks[id := e];
    }

    /** After the drain timeout: flags what is still running. */
    method MarkInterrupted()
      requires CanHappen(Abs(), Event.MarkInterrupted)
      modifies this`tasks, db`table, db`upserts
      ensures Abs() == Step(old(Abs()), Event.MarkInterrupted)
      ensures old(db.upserts) <= db.upserts
      ensures forall k :: |old(db.upserts)| <= k < |db.upserts| ==> DiesMarkingAs(old(Abs()), db.upserts[k])
      ensures tasks.Keys == old(tasks).Keys
      ensures forall id :: id in tasks ==>
                tasks[id] == if old(tasks)[id].running then old(tasks)[id].(lastStatus := Interrupted, nextRun := Some(clock))
                             else old(tasks)[id]
    {
      hide InterruptAll, UpsertRunning, UpsertSome, RunningIds;
      ghost var before := Abs();
      InterruptedEntries(tasks, clock);
      InterruptEntries();
      forall k | |old(db.upserts)| <= k < |db.upserts| ensures DiesMarkingAs(before, db.upserts[k]) {
        assert PartOf(db.upserts[k], before.table, tasks, RunningIds(tasks));
        var ids :| ids <= RunningIds(tasks) && db.upserts[k] == UpsertSome(before.table, tasks, ids);
        DeathWhileMarking(before, ids, tasks);
      }
    }

    static lemma InterruptedEntries(tasks: map<TaskId, Task>, now: int)
      ensures var r := InterruptAll(tasks, now);
              && r.Keys == tasks.Keys
              && forall id :: id in tasks ==>
                   r[id] == if tasks[id].running then tasks[id].(lastStatus := Interrupted, nextRun := Some(now)) else tasks[id]
    {
    }

    method InterruptEntries()
      modifies this`tasks, db`table, db`upserts
      ensures tasks == InterruptAll(old(tasks), clock)
      ensures db.table == UpsertRunning(old(db.table), tasks)
      ensures old(db.upserts) <= db.upserts
      ensures forall k :: |old(db.upserts)| <= k < |db.upserts| ==> PartOf(db.upserts[k], old(db.table), tasks, RunningIds(tasks))
    {
      hide Merge, RowOf, UpsertSome, Mixed, PartOf;
      var all := tasks;
      var left := tasks.Keys;
      ghost var done: set<TaskId> := {};
      ghost var table := db.table;
      ghost var marked := InterruptAll(all, clock);
      NothingUpserted(table, marked);
      MixedStart(all, marked);
      while left != {}
        invariant left <= all.Keys == marked.Keys
        invariant forall id :: id in done <==> id in all && id !in left && all[id].running
        invariant Mixed(all, marked, tasks, left)
        invariant db.table == UpsertSome(table, marked, done)
        invariant old(db.upserts) <= db.upserts
        invariant forall k :: |old(db.upserts)| <= k < |db.upserts| ==> PartOf(db.upserts[k], table, marked, RunningIds(marked))
        decreases |left|
      {
        var id :| id in left;
        MixedNext(all, marked, tasks, left, id);
        left := left - {id};
        if !tasks[id].running {
          continue;
        }
        tasks := tasks[id := tasks[id].(lastStatus := Interrupted, nextRun := Some(clock))];
        PersistState(id);
        UpsertOneMore(table, marked, done, id);
        done := done + {id};
        IsPart(db.table, table, marked, done, RunningIds(marked));
      }
      MixedEnd(all, marked, tasks);
      assert done == RunningIds(marked);
    }
  }
}
