/**
 Counters and history. A commit writes the row and then the history entry, and a reboot may
 fall between the two; and Start may merge rows it listed before an execution committed.
 Apart from these two, the counters of a started task, in memory and in its row, are the
 numbers of its successful and failed history entries in every state of every run.
 */
module SchedulerCounts {
  import opened Options
  import opened Schedules
  import opened TaskState
  import opened SchedulerMachine

  function CountRuns(history: seq<Run>, id: TaskId, ok: bool): nat {
    if history == [] then 0
    else
      var last := history[|history| - 1];
      CountRuns(history[..|history| - 1], id, ok) + if last.id == id && last.ok == ok then 1 else 0
  }

  lemma CountAppend(history: seq<Run>, r: Run, id: TaskId, ok: bool)
    ensures CountRuns(history + [r], id, ok) == CountRuns(history, id, ok) + if r.id == id && r.ok == ok then 1 else 0
  {
    assert (history + [r])[..|history|] == history;
  }

  /** The entry that is being written, if it is one of these. */
  function PendingRuns(s: State, id: TaskId, ok: bool): nat {
    if s.pending.Some? && s.pending.value.id == id && s.pending.value.ok == ok then 1 else 0
  }

  /** What the counters of a task should say: its entries, written or about to be. */
  function Entries(s: State, id: TaskId, ok: bool): nat {
    CountRuns(s.history, id, ok) + PendingRuns(s, id, ok)
  }

  /** All commits there have been: entries, and those that a reboot cut short. */
  function Commits(s: State, id: TaskId, ok: bool): nat {
    Entries(s, id, ok) + CountRuns(s.lost, id, ok)
  }

  /** A reboot between the two writes of a commit. */
  predicate Cuts(s: State, e: Event, id: TaskId, ok: bool) {
    e.Reboot? && PendingRuns(s, id, ok) == 1
  }

  /** The reboots of the run that fell between the two writes of such a commit. */
  ghost function CutCommits(s: State, es: seq<Event>, id: TaskId, ok: bool): nat
    requires Possible(s, es)
    decreases |es|
  {
    if es == [] then 0 else (if Cuts(s, es[0], id, ok) then 1 else 0) + CutCommits(Step(s, es[0]), es[1..], id, ok)
  }

  /** Start merges a row that has been overtaken since it was listed. */
  predicate MergesStale(s: State, e: Event, id: TaskId) {
    e.StartMerge? && Overtaken(s, id)
  }

  /** The listed row of the task is older than the stored one. */
  predicate Overtaken(s: State, id: TaskId) {
    s.phase.Loading? && id in s.tasks && id in s.phase.snapshot && id in s.table
    && (s.phase.snapshot[id].runCount != s.table[id].runCount || s.phase.snapshot[id].failCount != s.table[id].failCount)
  }

  /** No Start of the run merges an overtaken row of the task. */
  ghost predicate FreshMerges(s: State, es: seq<Event>, id: TaskId)
    requires Possible(s, es)
    decreases |es|
  {
    es != [] ==> !MergesStale(s, es[0], id) && FreshMerges(Step(s, es[0]), es[1..], id)
  }

  /** Registered, and Start has merged the stored state. */
  predicate Started(s: State, id: TaskId) {
    id in s.tasks && (s.phase.CatchUp? || s.phase.Live? || s.phase.Halted?)
  }

  predicate RowIs(row: Row, runs: int, fails: int) {
    row.runCount == runs && row.failCount == fails
  }

  predicate TaskIs(t: Task, runs: int, fails: int) {
    t.runCount == runs && t.failCount == fails
  }

  /** Every run keeps this until Start merges an overtaken row. */
  ghost predicate CountsAt(s: State, id: TaskId) {
    var runs, fails := Commits(s, id, true), Commits(s, id, false);
    && (if id in s.table then RowIs(s.table[id], runs, fails) else runs == 0 && fails == 0)
    && (id in s.tasks && (s.looping || s.phase.CatchUp?) ==> TaskIs(s.tasks[id], runs, fails))
    && (id in s.tasks && !s.looping && !s.phase.CatchUp? ==> TaskIs(s.tasks[id], 0, 0))
    && (s.phase.Loading? ==>
          && (id in s.phase.snapshot ==> id in s.table)
          && (id !in s.phase.snapshot && id in s.tasks ==> TaskIs(s.tasks[id], runs, fails)))
  }

  /** The next lemmas go through the events. */
  lemma SetupCounts(s: State, e: Event, id: TaskId)
    requires Phased(s) && CountsAt(s, id) && CanHappen(s, e) && (e.Register? || e.SetRetry? || e.StartList? || e.RunMissed?)
    ensures CountsAt(Step(s, e), id)
  {
    hide NextRun, Idle, CountRuns, DueIds, MissedIds, AddFlights;
  }

  lemma MergeCounts(s: State, e: Event, id: TaskId)
    requires Phased(s) && CountsAt(s, id) && CanHappen(s, e) && e.StartMerge? && !MergesStale(s, e, id)
    ensures CountsAt(Step(s, e), id)
  {
    hide NextRun, Idle, CountRuns;
  }

  lemma LiveCounts(s: State, e: Event, id: TaskId)
    requires Phased(s) && CountsAt(s, id) && CanHappen(s, e)
    requires e.Tick? || e.RunNow? || e.Begin? || e.Release? || e.Stop? || e.Advance?
    ensures CountsAt(Step(s, e), id)
  {
    hide NextRun, Idle, CountRuns, DueIds, MissedIds, AddFlights, SetFlight, RestoreAll, UpsertAll, CommitTask;
  }

  /** What is written here goes through the merging upsert, which keeps stored counters. */
  lemma FlagCounts(s: State, e: Event, id: TaskId)
    requires Phased(s) && CountsAt(s, id) && CanHappen(s, e) && (e.Enable? || e.Disable?)
    ensures CountsAt(Step(s, e), id)
  {
    hide NextRun, Idle, CountRuns, DueIds, MissedIds, AddFlights, SetFlight, RestoreAll, UpsertAll, CommitTask, UpsertRunning, InterruptAll, MarkRunning;
  }

  lemma MarkCounts(s: State, e: Event, id: TaskId)
    requires Phased(s) && CountsAt(s, id) && CanHappen(s, e) && e.MarkInterrupted?
    ensures CountsAt(Step(s, e), id)
  {
    hide NextRun, Idle, CountRuns, DueIds, MissedIds, AddFlights, SetFlight, RestoreAll, UpsertAll, CommitTask, MarkRunning;
  }

  lemma CommitCounts(s: State, e: Event, id: TaskId)
    requires Phased(s) && CountsAt(s, id) && CanHappen(s, e) && e.Commit?
    ensures CountsAt(Step(s, e), id)
  {
    hide NextRun, CountRuns, CommitTask, SetFlight;
    assert FlightsOf(s, e.id) != [];
    CommitFrame(s.tasks[e.id], FlightsOf(s, e.id)[e.i].stage.start, e.finished, e.error);
  }

  /** The second write moves a pending entry to the history, a reboot to the lost ones. */
  lemma EntryCounts(s: State, e: Event, id: TaskId)
    requires Phased(s) && CountsAt(s, id) && CanHappen(s, e) && (e.RecordHistory? || e.Reboot?)
    ensures CountsAt(Step(s, e), id)
    ensures CountRuns(Step(s, e).lost, id, true) == CountRuns(s.lost, id, true) + if Cuts(s, e, id, true) then 1 else 0
    ensures CountRuns(Step(s, e).lost, id, false) == CountRuns(s.lost, id, false) + if Cuts(s, e, id, false) then 1 else 0
  {
    hide NextRun, Idle, CountRuns;
    if s.pending.Some? {
      forall ok ensures CountRuns(s.history + [s.pending.value], id, ok) == CountRuns(s.history, id, ok) + PendingRuns(s, id, ok)
                ensures CountRuns(s.lost + [s.pending.value], id, ok) == CountRuns(s.lost, id, ok) + PendingRuns(s, id, ok) {
        CountAppend(s.history, s.pending.value, id, ok);
        CountAppend(s.lost, s.pending.value, id, ok);
      }
    }
    assert s.lost + [] == s.lost;
  }

  /** A death between two upserts leaves rows that hold what they held, or what was restored. */
  lemma DeathCounts(s: State, e: Event, id: TaskId)
    requires Phased(s) && CountsAt(s, id) && CanHappen(s, e) && (e.DieMerging? || e.DieMarking?)
    ensures CountsAt(Step(s, e), id)
  {
    hide NextRun, Idle, CountRuns, RunningIds;
  }

  lemma LostSame(s: State, e: Event)
    requires CanHappen(s, e) && !e.Reboot?
    ensures Step(s, e).lost == s.lost
  {
    hide NextRun, CommitTask, UpdateRow, AddFlights, SetFlight, UpsertSome, UpsertAll, UpsertRunning, RestoreAll, InterruptAll, Merge, RowOf, DueIds, MissedIds;
  }

  lemma CountsStep(s: State, e: Event, id: TaskId)
    requires Phased(s) && CountsAt(s, id) && CanHappen(s, e) && !MergesStale(s, e, id)
    ensures CountsAt(Step(s, e), id)
    ensures CountRuns(Step(s, e).lost, id, true) == CountRuns(s.lost, id, true) + if Cuts(s, e, id, true) then 1 else 0
    ensures CountRuns(Step(s, e).lost, id, false) == CountRuns(s.lost, id, false) + if Cuts(s, e, id, false) then 1 else 0
  {
    hide Phased, CountsAt, Step, CanHappen, MergesStale, CountRuns, PendingRuns;
    if !e.Reboot? { LostSame(s, e); }
    if e.Register? || e.SetRetry? || e.StartList? || e.RunMissed? { SetupCounts(s, e, id); }
    else if e.StartMerge? { MergeCounts(s, e, id); }
    else if e.Commit? { CommitCounts(s, e, id); }
    else if e.RecordHistory? || e.Reboot? { EntryCounts(s, e, id); }
    else if e.DieMerging? || e.DieMarking? { DeathCounts(s, e, id); }
    else if e.Enable? || e.Disable? { FlagCounts(s, e, id); }
    else if e.MarkInterrupted? { MarkCounts(s, e, id); }
    else { LiveCounts(s, e, id); }
  }

  lemma {:induction false} CountsRun(s: State, es: seq<Event>, id: TaskId)
    requires Phased(s) && CountsAt(s, id) && Possible(s, es) && FreshMerges(s, es, id)
    ensures Phased(After(s, es)) && CountsAt(After(s, es), id)
    ensures CountRuns(After(s, es).lost, id, true) == CountRuns(s.lost, id, true) + CutCommits(s, es, id, true)
    ensures CountRuns(After(s, es).lost, id, false) == CountRuns(s.lost, id, false) + CutCommits(s, es, id, false)
    decreases |es|
  {
    hide Phased, CountsAt, CanHappen, Step, MergesStale, CountRuns, Cuts;
    if es != [] {
      PhasedStep(s, es[0]);
      CountsStep(s, es[0], id);
      CountsRun(Step(s, es[0]), es[1..], id);
    }
  }

  lemma InitialCounts(window: int, now: int, id: TaskId)
    ensures Phased(Initial(window, now)) && CountsAt(Initial(window, now), id)
  {
  }

  /**
   Over every run whose Starts merge no overtaken row: each counter, in memory and in the
   row, is the number of the task's entries with that outcome, written or being written,
   plus the reboots that fell between the two writes of such a commit.
   */
  lemma CountersEqualHistory(window: int, now: int, es: seq<Event>, id: TaskId)
    requires Possible(Initial(window, now), es) && FreshMerges(Initial(window, now), es, id)
    ensures var s := After(Initial(window, now), es);
            var runs := Entries(s, id, true) + CutCommits(Initial(window, now), es, id, true);
            var fails := Entries(s, id, false) + CutCommits(Initial(window, now), es, id, false);
            && (id in s.table ==> s.table[id].runCount == runs && s.table[id].failCount == fails)
            && (Started(s, id) ==> id in s.table && s.tasks[id].runCount == runs && s.tasks[id].failCount == fails)
  {
    hide Possible, After, CountRuns, FreshMerges, CutCommits;
    InitialCounts(window, now, id);
    CountsRun(Initial(window, now), es, id);
    assert CountRuns(Initial(window, now).lost, id, true) == 0 && CountRuns(Initial(window, now).lost, id, false) == 0 by { NoRuns(id); }
  }

  lemma NoRuns(id: TaskId)
    ensures CountRuns([], id, true) == 0 && CountRuns([], id, false) == 0
  {
  }

  // --- Exactly when counters and history agree ---

  predicate Agree(s: State, id: TaskId) {
    var runs, fails := Entries(s, id, true), Entries(s, id, false);
    && (id in s.table ==> RowIs(s.table[id], runs, fails))
    && (Started(s, id) ==> id in s.table && TaskIs(s.tasks[id], runs, fails))
  }

  /** In the first state and after every event. */
  ghost predicate AlwaysAgree(s: State, es: seq<Event>, id: TaskId)
    requires Possible(s, es)
    decreases |es|
  {
    Agree(s, id) && (es != [] ==> AlwaysAgree(Step(s, es[0]), es[1..], id))
  }

  predicate NothingLost(s: State, id: TaskId) {
    CountRuns(s.lost, id, true) == 0 && CountRuns(s.lost, id, false) == 0
  }

  lemma CountedAgree(s: State, id: TaskId)
    requires Phased(s) && CountsAt(s, id)
    ensures NothingLost(s, id) ==> Agree(s, id)
    ensures !NothingLost(s, id) ==> !Agree(s, id)
  {
    hide CountRuns;
  }

  /** Merging an overtaken row leaves memory and row apart. */
  lemma StaleDisagrees(s: State, e: Event, id: TaskId)
    requires CanHappen(s, e) && MergesStale(s, e, id)
    ensures !Agree(Step(s, e), id)
  {
    hide NextRun, CountRuns;
  }

  lemma {:induction false} AgreeRunIff(s: State, es: seq<Event>, id: TaskId)
    requires Phased(s) && CountsAt(s, id) && NothingLost(s, id) && Possible(s, es)
    ensures AlwaysAgree(s, es, id) <==>
            FreshMerges(s, es, id) && CutCommits(s, es, id, true) == 0 && CutCommits(s, es, id, false) == 0
    decreases |es|
  {
    hide Phased, CountsAt, CanHappen, Step, MergesStale, CountRuns, Cuts, Agree;
    CountedAgree(s, id);
    if es != [] {
      var t, rest := Step(s, es[0]), es[1..];
      PhasedStep(s, es[0]);
      if MergesStale(s, es[0], id) {
        StaleDisagrees(s, es[0], id);
      } else {
        CountsStep(s, es[0], id);
        CountedAgree(t, id);
        if NothingLost(t, id) { AgreeRunIff(t, rest, id); }
      }
    }
  }

  /**
   Counters and history agree at every moment of a run if and only if no Start merges an
   overtaken row and no reboot falls between the two writes of a commit.
   */
  lemma CountersAgreeIff(window: int, now: int, es: seq<Event>, id: TaskId)
    requires Possible(Initial(window, now), es)
    ensures var s := Initial(window, now);
            AlwaysAgree(s, es, id) <==>
            FreshMerges(s, es, id) && CutCommits(s, es, id, true) == 0 && CutCommits(s, es, id, false) == 0
  {
    hide Possible, CountRuns, AlwaysAgree, FreshMerges, CutCommits;
    InitialCounts(window, now, id);
    NoRuns(id);
    AgreeRunIff(Initial(window, now), es, id);
  }

  // --- A Start that begins idle merges nothing overtaken ---

  /** What Start has listed is still what is stored. */
  ghost predicate SnapshotCurrent(s: State, id: TaskId) {
    s.phase.Loading? && id in s.phase.snapshot ==>
      id in s.table && RowIs(s.table[id], s.phase.snapshot[id].runCount, s.phase.snapshot[id].failCount)
  }

  lemma SnapshotStep(s: State, e: Event, id: TaskId)
    requires Quiet(s) && SnapshotCurrent(s, id) && CanHappen(s, e)
    ensures SnapshotCurrent(Step(s, e), id) && !MergesStale(s, e, id)
  {
    hide NextRun, Phased, Exclusive, DueIds, MissedIds, AddFlights, SetFlight, RestoreAll, UpsertAll, CommitTask;
  }

  lemma {:induction false} OrderlyMergesFresh(s: State, es: seq<Event>, id: TaskId)
    requires Quiet(s) && SnapshotCurrent(s, id) && Possible(s, es) && Orderly(s, es)
    ensures FreshMerges(s, es, id)
    decreases |es|
  {
    hide Quiet, SnapshotCurrent, CanHappen, Step, MergesStale, OrderlyEvent;
    if es != [] {
      QuietStep(s, es[0]);
      SnapshotStep(s, es[0], id);
      OrderlyMergesFresh(Step(s, es[0]), es[1..], id);
    }
  }

  /** So when every Start begins idle, the reboots inside a commit are the only difference. */
  lemma OrderlyCountersAgreeIff(window: int, now: int, es: seq<Event>, id: TaskId)
    requires Possible(Initial(window, now), es) && Orderly(Initial(window, now), es)
    ensures FreshMerges(Initial(window, now), es, id)
    ensures AlwaysAgree(Initial(window, now), es, id) <==>
            CutCommits(Initial(window, now), es, id, true) == 0 && CutCommits(Initial(window, now), es, id, false) == 0
  {
    hide Possible, Orderly, CountRuns, AlwaysAgree, FreshMerges, CutCommits, Quiet;
    InitialQuiet(window, now);
    OrderlyMergesFresh(Initial(window, now), es, id);
    CountersAgreeIff(window, now, es, id);
  }
}
