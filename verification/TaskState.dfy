/**
 One scheduled task: its in-memory entry, its row in scheduler_tasks, and what an
 execution, a restart and an upsert do to them.

 Times are nanoseconds; None is Go's zero time, stored as NULL.
 */
module TaskState {
  import opened Options
  import opened Arithmetic
  import opened GoText
  import opened Schedules

  datatype TaskId = TaskId(text: string)

  datatype Status = Pending | Success | Failed | Interrupted

  datatype Task = Task(
    name: string, schedule: Schedule, enabled: bool,
    retryOnFail: bool, retryMax: int, retryBase: int,
    lastRun: Option<int>, lastStatus: Status, lastError: string, nextRun: Option<int>,
    runCount: int, failCount: int, running: bool, retryAttempt: nat)

  datatype Row = Row(
    name: string, schedule: string,
    lastRun: Option<int>, lastStatus: Status, lastError: string, nextRun: Option<int>,
    runCount: int, failCount: int, enabled: bool)

  /** One row of scheduler_history. */
  datatype Run = Run(id: TaskId, started: int, finished: int, ok: bool, error: string)

  const DEFAULT_RETRY_DELAY: int := 300_000_000_000
  const DEFAULT_MAX_RETRIES: int := 3

  function NewTask(name: string, schedule: Schedule, enabled: bool): Task {
    Task(name, schedule, enabled, false, 0, 0, None, Pending, "", None, 0, 0, false, 0)
  }

  function WithRetry(t: Task, enabled: bool, base: int, maxRetries: int): Task {
    t.(retryOnFail := enabled,
       retryBase := if base <= 0 then DEFAULT_RETRY_DELAY else base,
       retryMax := if maxRetries <= 0 then DEFAULT_MAX_RETRIES else maxRetries)
  }

  predicate Due(t: Task, now: int) {
    t.enabled && !t.running && t.nextRun.Some? && now > t.nextRun.value
  }

  /** runMissed looks at the window only, not at running. */
  predicate Missed(t: Task, now: int, window: int) {
    t.enabled && t.nextRun.Some? && now - window < t.nextRun.value < now
  }

  /** base << attempt on an int64. */
  function Backoff(base: int, attempt: nat): int {
    Wrap64(base * Pow2(attempt))
  }

  /** The locked part of execute: the entry after a run that began at start. */
  function CommitTask(t: Task, start: int, finished: int, error: Option<string>): Task {
    if error.None? then
      t.(lastRun := Some(start), lastStatus := Success, lastError := "",
         runCount := t.runCount + 1, retryAttempt := 0, nextRun := NextRun(t.schedule, finished))
    else
      var failed := t.(lastRun := Some(start), lastStatus := Failed, lastError := error.value, failCount := t.failCount + 1);
      if t.retryOnFail && t.retryAttempt < t.retryMax then
        failed.(nextRun := Some(finished + Backoff(t.retryBase, t.retryAttempt)), retryAttempt := t.retryAttempt + 1)
      else
        failed.(nextRun := NextRun(t.schedule, finished), retryAttempt := 0)
  }

  /** A commit changes the outcome, the counters, the next run and the ladder; nothing else. */
  lemma CommitFrame(t: Task, start: int, finished: int, error: Option<string>)
    ensures var c := CommitTask(t, start, finished, error);
            && c.running == t.running && c.schedule == t.schedule && c.enabled == t.enabled && c.name == t.name
            && c.retryOnFail == t.retryOnFail && c.retryMax == t.retryMax && c.retryBase == t.retryBase
            && c.lastRun == Some(start)
            && c.runCount == t.runCount + (if error.None? then 1 else 0)
            && c.failCount == t.failCount + (if error.None? then 0 else 1)
  {
    hide NextRun, Backoff;
  }

  function ScheduleText(s: Schedule): string {
    match s
    case CronSchedule(c) => c.raw
    case Interval(raw, _) => raw
  }

  function RowOf(t: Task): Row {
    Row(t.name, ScheduleText(t.schedule), t.lastRun, t.lastStatus, t.lastError, t.nextRun, t.runCount, t.failCount, t.enabled)
  }

  function Coalesce(a: Option<int>, b: Option<int>): Option<int> {
    if a.Some? then a else b
  }

  /** The upsert: what is stored about past and next runs wins, names and the flag are replaced. */
  function Merge(stored: Option<Row>, entry: Row): Row {
    match stored
    case None => entry
    case Some(row) =>
      Row(entry.name, entry.schedule,
          Coalesce(row.lastRun, entry.lastRun), row.lastStatus,
          if row.lastError != "" then row.lastError else entry.lastError,
          Coalesce(row.nextRun, entry.nextRun),
          row.runCount, row.failCount, entry.enabled)
  }

  /** UpdateTaskRun on an existing row. */
  function UpdateRow(row: Row, t: Task): Row {
    row.(lastRun := t.lastRun, lastStatus := t.lastStatus, lastError := t.lastError,
         runCount := t.runCount, failCount := t.failCount, nextRun := t.nextRun)
  }

  /** loadState: counters and timestamps come from the row, the next run is recomputed. */
  function Restore(t: Task, stored: Option<Row>, now: int): Task {
    match stored
    case None => t.(nextRun := NextRun(t.schedule, now))
    case Some(row) =>
      var r := t.(lastRun := row.lastRun, lastStatus := row.lastStatus, lastError := row.lastError,
                  runCount := row.runCount, failCount := row.failCount);
      r.(nextRun := NextRun(t.schedule, if row.lastRun.Some? then row.lastRun.value else now))
  }

  function EnabledTask(t: Task, now: int): Task {
    t.(enabled := true, nextRun := NextRun(t.schedule, now))
  }

  function InterruptedTask(t: Task, now: int): Task {
    t.(lastStatus := Interrupted, nextRun := Some(now))
  }

  /** The row of a task holds its schedule as it was written, trimmed, and its columns from the entry. */
  lemma RowHolds(t: Task, text: string, goDuration: string -> Option<int>)
    requires ScheduleOf(text, goDuration) == Ok(t.schedule)
    ensures var row := RowOf(t);
            && row.schedule == TrimSpace(text) && row.name == t.name && row.enabled == t.enabled
            && row.lastRun == t.lastRun && row.lastStatus == t.lastStatus && row.lastError == t.lastError
            && row.nextRun == t.nextRun && row.runCount == t.runCount && row.failCount == t.failCount
  {
    hide ScheduleOf, TrimSpace;
    TextIsKept(text, goDuration);
  }

  // --- When a task runs next ---

  /**
   After a run that ended at finished: the first time its schedule gives after that, unless
   it failed with a retry left, which comes the doubled delay after the end.
   */
  lemma NextAfterCommit(t: Task, start: int, finished: int, error: Option<string>)
    ensures var next, retry := CommitTask(t, start, finished, error).nextRun, error.Some? && t.retryOnFail && t.retryAttempt < t.retryMax;
            && (!retry ==> IsNextRun(t.schedule, finished, next))
            && (retry ==> next == Some(finished + Wrap64(t.retryBase * Pow2(t.retryAttempt))))
  {
    hide NextRun, IsNextRun;
    NextRunIs(t.schedule, finished);
  }

  lemma NextAfterEnable(t: Task, now: int)
    ensures IsNextRun(t.schedule, now, EnabledTask(t, now).nextRun)
  {
    hide NextRun, IsNextRun;
    NextRunIs(t.schedule, now);
  }

  /** A restored task counts from its stored last run, a new one from now. */
  lemma NextAfterRestore(t: Task, stored: Option<Row>, now: int)
    ensures var from := if stored.Some? && stored.value.lastRun.Some? then stored.value.lastRun.value else now;
            IsNextRun(t.schedule, from, Restore(t, stored, now).nextRun)
  {
    hide NextRun, IsNextRun;
    NextRunIs(t.schedule, if stored.Some? && stored.value.lastRun.Some? then stored.value.lastRun.value else now);
  }

  // --- The retry ladder ---

  /** The doubled delay is the exact one only while it fits an int64. */
  lemma BackoffExactIff(base: nat, attempt: nat)
    ensures Backoff(base, attempt) == base * Pow2(attempt) <==> base * Pow2(attempt) <= MAX_INT64
  {
    hide Pow2;
  }

  /** The counter stays within the allowed retries whatever the outcome. */
  lemma CounterBounded(t: Task, start: int, finished: int, error: Option<string>)
    requires t.retryAttempt <= t.retryMax
    ensures CommitTask(t, start, finished, error).retryAttempt <= t.retryMax
  {
    hide NextRun, Backoff;
  }
}
