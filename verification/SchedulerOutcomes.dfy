/**
 What the table tells of a task: while no Start merges an overtaken row and no reboot falls
 inside a commit, a row shows exactly the latest execution of its task - when it started,
 how it ended and with which error - and every entry of the history is one that ran its
 course: it started before it finished, and has an error only if it failed.
 */
module SchedulerOutcomes {
  import opened Options
  import opened Schedules
  import opened TaskState
  import opened SchedulerMachine
  import opened SchedulerCounts

  /** The latest entry of the task. */
  function LastOf(history: seq<Run>, id: TaskId): Option<Run> {
    if history == [] then None
    else if history[|history| - 1].id == id then Some(history[|history| - 1])
    else LastOf(history[..|history| - 1], id)
  }

  lemma LastAppend(history: seq<Run>, r: Run, id: TaskId)
    ensures LastOf(history + [r], id) == if r.id == id then Some(r) else LastOf(history, id)
  {
    assert (history + [r])[..|history|] == history;
  }

  /** Written, or being written by the holder of the mutex. */
  function Latest(s: State, id: TaskId): Option<Run> {
    if s.pending.Some? && s.pending.value.id == id then s.pending else LastOf(s.history, id)
  }

  /** Start, outcome and error of the run; or that there was none. */
  predicate Shows(row: Row, last: Option<Run>) {
    match last
    case None => row.lastRun == None && row.lastStatus == Pending && row.lastError == ""
    case Some(r) => row.lastRun == Some(r.started) && row.lastStatus == (if r.ok then Success else Failed) && row.lastError == r.error
  }

  /** What Start has listed is not ahead of the table, and the same where the counts are. */
  ghost predicate ListedBehind(s: State, id: TaskId) {
    s.phase.Loading? && id in s.phase.snapshot ==>
      && id in s.table
      && s.phase.snapshot[id].runCount <= s.table[id].runCount && s.phase.snapshot[id].failCount <= s.table[id].failCount
      && (s.phase.snapshot[id].runCount == s.table[id].runCount && s.phase.snapshot[id].failCount == s.table[id].failCount ==>
            s.phase.snapshot[id].lastError == s.table[id].lastError && s.phase.snapshot[id].lastRun == s.table[id].lastRun)
  }

  ghost predicate ShowsAt(s: State, id: TaskId) {
    && (NothingLost(s, id) ==> if id in s.table then Shows(s.table[id], Latest(s, id)) else Latest(s, id).None?)
    && (id in s.tasks && !s.looping && !s.phase.CatchUp? ==>
          s.tasks[id].lastRun == None && s.tasks[id].lastStatus == Pending && s.tasks[id].lastError == "")
    && (id in s.tasks && id !in s.table ==>
          s.tasks[id].lastRun == None && s.tasks[id].lastStatus == Pending && s.tasks[id].lastError == "")
    && (id in s.tasks && id in s.table ==>
          && (s.table[id].lastError != "" || s.tasks[id].lastError == "")
          && (s.table[id].lastRun.Some? || s.tasks[id].lastRun.None?))
    && ListedBehind(s, id)
  }

  /** Upserts from an overtaken row, by a Start or by one that dies in the middle. */
  predicate WritesStale(s: State, e: Event, id: TaskId) {
    (e.StartMerge? || e.DieMerging?) && Overtaken(s, id)
  }

  ghost predicate FreshWrites(s: State, es: seq<Event>, id: TaskId)
    requires Possible(s, es)
    decreases |es|
  {
    es != [] ==> !WritesStale(s, es[0], id) && FreshWrites(Step(s, es[0]), es[1..], id)
  }

  lemma {:induction false} FreshWritesMerge(s: State, es: seq<Event>, id: TaskId)
    requires Possible(s, es) && FreshWrites(s, es, id)
    ensures FreshMerges(s, es, id)
    decreases |es|
  {
    hide CanHappen, Step, Overtaken;
    if es != [] { FreshWritesMerge(Step(s, es[0]), es[1..], id); }
  }

  /** The lemmas below go through the events. */
  lemma SetupShows(s: State, e: Event, id: TaskId)
    requires Phased(s) && CountsAt(s, id) && ShowsAt(s, id) && CanHappen(s, e)
    requires e.Register? || e.SetRetry? || e.StartList? || e.RunMissed?
    ensures ShowsAt(Step(s, e), id)
  {
    hide NextRun, Idle, CountRuns, LastOf, MissedIds, AddFlights;
  }

  lemma MergeShows(s: State, e: Event, id: TaskId)
    requires Phased(s) && CountsAt(s, id) && ShowsAt(s, id) && CanHappen(s, e) && e.StartMerge? && !MergesStale(s, e, id)
    ensures ShowsAt(Step(s, e), id)
  {
    hide NextRun, Idle, CountRuns, LastOf;
  }

  lemma LiveShows(s: State, e: Event, id: TaskId)
    requires Phased(s) && ShowsAt(s, id) && CanHappen(s, e)
    requires e.Tick? || e.RunNow? || e.Begin? || e.Release? || e.Stop? || e.Advance?
    ensures ShowsAt(Step(s, e), id)
  {
    hide NextRun, Idle, CountRuns, LastOf, DueIds, MissedIds, AddFlights, SetFlight, RestoreAll, UpsertAll, CommitTask;
  }

  lemma FlagShows(s: State, e: Event, id: TaskId)
    requires Phased(s) && ShowsAt(s, id) && CanHappen(s, e) && (e.Enable? || e.Disable?)
    ensures ShowsAt(Step(s, e), id)
  {
    hide NextRun, Idle, CountRuns, LastOf, DueIds, MissedIds, AddFlights, SetFlight, RestoreAll, UpsertAll, CommitTask, UpsertRunning, InterruptAll, MarkRunning;
  }

  lemma MarkShows(s: State, e: Event, id: TaskId)
    requires Phased(s) && ShowsAt(s, id) && CanHappen(s, e) && e.MarkInterrupted?
    ensures ShowsAt(Step(s, e), id)
  {
    hide NextRun, Idle, CountRuns, LastOf, DueIds, MissedIds, AddFlights, SetFlight, RestoreAll, UpsertAll, CommitTask, MarkRunning;
  }

  lemma CommitShows(s: State, e: Event, id: TaskId)
    requires Phased(s) && CountsAt(s, id) && ShowsAt(s, id) && CanHappen(s, e) && e.Commit?
    ensures ShowsAt(Step(s, e), id)
  {
    hide NextRun, Backoff, CountRuns, LastOf, SetFlight;
    assert FlightsOf(s, e.id) != [];
  }

  lemma EntryShows(s: State, e: Event, id: TaskId)
    requires Phased(s) && ShowsAt(s, id) && CanHappen(s, e) && e.RecordHistory?
    ensures ShowsAt(Step(s, e), id)
  {
    hide NextRun, Idle, CountRuns, LastOf;
    LastAppend(s.history, s.pending.value, id);
  }

  lemma DeathShows(s: State, e: Event, id: TaskId)
    requires Phased(s) && CountsAt(s, id) && ShowsAt(s, id) && CanHappen(s, e) && Dies(e) && !WritesStale(s, e, id)
    ensures ShowsAt(Step(s, e), id)
  {
    hide NextRun, Idle, CountRuns, LastOf, RunningIds;
    if s.pending.Some? {
      CountAppend(s.lost, s.pending.value, id, true);
      CountAppend(s.lost, s.pending.value, id, false);
    }
    assert s.lost + [] == s.lost;
  }

  lemma ShowsStep(s: State, e: Event, id: TaskId)
    requires Phased(s) && CountsAt(s, id) && ShowsAt(s, id) && CanHappen(s, e) && !WritesStale(s, e, id)
    ensures ShowsAt(Step(s, e), id)
  {
    hide Phased, CountsAt, ShowsAt, Step, CanHappen, Overtaken;
    if e.Register? || e.SetRetry? || e.StartList? || e.RunMissed? { SetupShows(s, e, id); }
    else if e.StartMerge? { MergeShows(s, e, id); }
    else if e.Commit? { CommitShows(s, e, id); }
    else if e.RecordHistory? { EntryShows(s, e, id); }
    else if e.Enable? || e.Disable? { FlagShows(s, e, id); }
    else if e.MarkInterrupted? { MarkShows(s, e, id); }
    else if Dies(e) { DeathShows(s, e, id); }
    else { LiveShows(s, e, id); }
  }

  lemma {:induction false} ShowsRun(s: State, es: seq<Event>, id: TaskId)
    requires Phased(s) && CountsAt(s, id) && ShowsAt(s, id) && Possible(s, es) && FreshWrites(s, es, id)
    ensures ShowsAt(After(s, es), id)
    decreases |es|
  {
    hide Phased, CountsAt, ShowsAt, CanHappen, Step, Overtaken, CountRuns;
    if es != [] {
      PhasedStep(s, es[0]);
      CountsStep(s, es[0], id);
      ShowsStep(s, es[0], id);
      ShowsRun(Step(s, es[0]), es[1..], id);
    }
  }

  lemma InitialShows(window: int, now: int, id: TaskId)
    ensures ShowsAt(Initial(window, now), id)
  {
  }

  /**
   In every run whose Starts write from no overtaken row of the task, and in which no reboot falls
   inside a commit of it, its row shows its latest execution: when it started, whether it
   succeeded, and the error it failed with; or that it never ran.
   */
  lemma RowShowsLastRun(window: int, now: int, es: seq<Event>, id: TaskId)
    requires Possible(Initial(window, now), es) && FreshWrites(Initial(window, now), es, id)
    requires CutCommits(Initial(window, now), es, id, true) == 0 && CutCommits(Initial(window, now), es, id, false) == 0
    ensures var s := After(Initial(window, now), es);
            && (id !in s.table ==> Latest(s, id).None?)
            && (id in s.table ==>
                  var row := s.table[id];
                  match Latest(s, id)
                  case None => row.lastRun == None && row.lastStatus == Pending && row.lastError == ""
                  case Some(r) =>
                    && row.lastRun == Some(r.started) && row.lastError == r.error
                    && row.lastStatus == (if r.ok then Success else Failed))
  {
    hide Possible, After, CountRuns, FreshMerges, FreshWrites, CutCommits, Latest;
    FreshWritesMerge(Initial(window, now), es, id);
    InitialCounts(window, now, id);
    InitialShows(window, now, id);
    NoRuns(id);
    CountsRun(Initial(window, now), es, id);
    ShowsRun(Initial(window, now), es, id);
  }

  // --- Entries are executions that ran their course ---

  predicate SoundEntry(r: Run) {
    r.started <= r.finished && (r.ok ==> r.error == "")
  }

  ghost predicate SoundEntries(s: State) {
    (forall i :: 0 <= i < |s.history| ==> SoundEntry(s.history[i])) && (s.pending.Some? ==> SoundEntry(s.pending.value))
  }

  lemma SoundStep(s: State, e: Event)
    requires SoundEntries(s) && CanHappen(s, e)
    ensures SoundEntries(Step(s, e))
  {
    hide NextRun, CommitTask, UpdateRow, AddFlights, SetFlight, UpsertSome, RestoreAll, InterruptAll, Merge, RowOf, DueIds, MissedIds, MarkRunning;
  }

  lemma {:induction false} SoundRun(s: State, es: seq<Event>)
    requires SoundEntries(s) && Possible(s, es)
    ensures SoundEntries(After(s, es))
    decreases |es|
  {
    hide SoundEntries, CanHappen, Step;
    if es != [] {
      SoundStep(s, es[0]);
      SoundRun(Step(s, es[0]), es[1..]);
    }
  }

  /** In every run, each entry of the history started before it finished, and has an error only if it failed. */
  lemma EntriesAreSound(window: int, now: int, es: seq<Event>, i: nat)
    requires Possible(Initial(window, now), es) && i < |After(Initial(window, now), es).history|
    ensures var r := After(Initial(window, now), es).history[i];
            r.started <= r.finished && (r.ok ==> r.error == "")
  {
    hide Possible, After;
    SoundRun(Initial(window, now), es);
  }

  /** And a commit is where they come from: the start of its execution, the end and the error it is given. */
  lemma CommitEntry(s: State, id: TaskId, i: nat, finished: int, error: Option<string>)
    requires CanHappen(s, Commit(id, i, finished, error))
    ensures var half := Step(s, Commit(id, i, finished, error));
            && CanHappen(half, RecordHistory)
            && Step(half, RecordHistory).history
               == s.history + [Run(id, FlightsOf(s, id)[i].stage.start, finished, error.None?, if error.Some? then error.value else "")]
  {
    hide CommitTask, UpdateRow, SetFlight;
  }
}
