/**
 Without retry, a start that the loop launches for an "@every d" task comes more than d
 after every earlier start of that task in the same process: through manual runs,
 re-enabling, Stop, late ticks and further Starts. Three events can break it, each only in
 a state that is described exactly: a Stop that marks a committed execution too soon, a
 Start that merges an overtaken last run, and a catch-up of a task that is running.
 */
module SchedulerSpacing {
  import opened Options
  import opened Cron
  import opened Schedules
  import opened TaskState
  import opened SchedulerMachine

  ghost predicate Ordered(l: seq<Launch>, now: int) {
    && (forall i, j :: 0 <= i <= j < |l| ==> l[i].time <= l[j].time)
    && (l != [] ==> l[|l| - 1].time <= now)
  }

  ghost predicate Spread(l: seq<Launch>, d: int) {
    forall i, j :: 0 <= i < j < |l| && l[j].byTick ==> l[j].time > l[i].time + d
  }

  predicate PlainInterval(t: Task) {
    t.schedule.Interval? && !t.retryOnFail
  }

  /** An interval task without retry whose interval has not wrapped to a negative number. */
  predicate Paced(s: State, id: TaskId) {
    id in s.tasks && PlainInterval(s.tasks[id]) && s.tasks[id].schedule.d >= 0
  }

  function LastTime(l: seq<Launch>): int
    requires l != []
  {
    l[|l| - 1].time
  }

  /** No execution is between its reservation and its commit. */
  predicate Settled(s: State, id: TaskId) {
    FlightsOf(s, id) == [] || FlightsOf(s, id)[0].stage.Committed?
  }

  // --- What breaks the distance ---

  /** The last run on record, its row's, began less than d ago. */
  predicate Recent(s: State, id: TaskId, d: int) {
    id in s.table && s.table[id].lastRun.Some? && s.now < s.table[id].lastRun.value + d
  }

  /** Stop marks it: its execution has committed and is not yet released, less than d after it started. */
  predicate EarlyMark(s: State, id: TaskId) {
    && Paced(s, id) && s.tasks[id].enabled
    && FlightsOf(s, id) != [] && FlightsOf(s, id)[0].stage.Committed?
    && Recent(s, id, s.tasks[id].schedule.d)
  }

  /** Start merges a listed row of it from before its last run, which began at most d ago. */
  predicate EarlyMerge(s: State, id: TaskId, readAt: int) {
    && s.phase.Loading? && Paced(s, id) && s.tasks[id].enabled && LaunchesOf(s, id) != [] && Settled(s, id)
    && Recent(s, id, s.tasks[id].schedule.d + 1)
    && Restore(s.tasks[id], Stored(s.phase.snapshot, id), readAt).nextRun.Some?
    && Restore(s.tasks[id], Stored(s.phase.snapshot, id), readAt).nextRun.value < s.table[id].lastRun.value + s.tasks[id].schedule.d
  }

  predicate Disturbs(s: State, e: Event, id: TaskId) {
    || (e.MarkInterrupted? && EarlyMark(s, id))
    || (e.StartMerge? && EarlyMerge(s, id, e.readAt))
    || (Paced(s, id) && DoublesAt(s, e, id))
  }

  ghost predicate NeverDisturbed(s: State, es: seq<Event>, id: TaskId)
    requires Possible(s, es)
    decreases |es|
  {
    es != [] ==> !Disturbs(s, es[0], id) && NeverDisturbed(Step(s, es[0]), es[1..], id)
  }

  // --- What keeps it ---

  ghost predicate LaunchedAt(s: State, id: TaskId) {
    var l := LaunchesOf(s, id);
    && Ordered(l, s.now)
    && (l != [] || FlightsOf(s, id) != [] ==> s.looping && id in s.tasks && id in s.table)
    && (id in s.tasks && s.tasks[id].running ==> s.looping)
  }

  /** Starts are spread, the last is executing or on record, and what can be launched next keeps the distance. */
  ghost predicate TrackedAt(s: State, id: TaskId, d: int)
    requires id in s.tasks
  {
    var l, fs := LaunchesOf(s, id), FlightsOf(s, id);
    && ExclusiveAt(s, id) && Spread(l, d)
    && (fs != [] ==>
          && (fs[0].stage.Executing? ==> l != [] && fs[0].stage.start == LastTime(l))
          && (fs[0].stage.Committed? ==> l != []))
    && (l != [] && Settled(s, id) ==> id in s.table && s.table[id].lastRun == Some(LastTime(l)))
    && (l != [] && Settled(s, id) && s.tasks[id].enabled && s.tasks[id].nextRun.Some? ==>
          s.tasks[id].nextRun.value >= LastTime(l) + d || s.now > LastTime(l) + d)
    && (l != [] && fs != [] && fs[0] == Flight(true, Reserved) ==> s.now > LastTime(l) + d)
  }

  ghost predicate SpacedAt(s: State, id: TaskId) {
    Phased(s) && LaunchedAt(s, id) && (Paced(s, id) ==> TrackedAt(s, id, s.tasks[id].schedule.d))
  }

  lemma AppendLaunch(l: seq<Launch>, x: Launch, now: int, d: int)
    requires Ordered(l, now) && x.time == now
    ensures Ordered(l + [x], now)
    ensures Spread(l, d) && (x.byTick && l != [] ==> now > LastTime(l) + d) ==> Spread(l + [x], d)
  {
    var m := l + [x];
    if Spread(l, d) && (x.byTick && l != [] ==> now > LastTime(l) + d) {
      forall i, j | 0 <= i < j < |m| && m[j].byTick ensures m[j].time > m[i].time + d {
        if j == |l| { assert l[i].time <= LastTime(l); }
      }
    }
  }

  /** A task that is reserved has been stored by Start. */
  lemma FlightIsStored(s: State, id: TaskId)
    requires SpacedAt(s, id)
    ensures FlightsOf(s, id) != [] || LaunchesOf(s, id) != [] ==> s.looping && id in s.tasks && id in s.table
    ensures s.looping || s.phase.CatchUp? ==> s.tasks.Keys <= s.table.Keys
    ensures s.phase.Live? || s.phase.Halted? ==> s.looping
    ensures !s.looping ==> FlightsOf(s, id) == [] && LaunchesOf(s, id) == []
    ensures s.phase.Fresh? ==> !s.looping
    ensures id in s.tasks && s.tasks[id].running ==> s.looping
    ensures Paced(s, id) ==> ExclusiveAt(s, id)
  {
  }

  lemma BeginSpaced(s: State, e: Event, id: TaskId)
    requires SpacedAt(s, id) && CanHappen(s, e) && e.Begin?
    ensures LaunchedAt(Step(s, e), id) && (Paced(Step(s, e), id) && ExclusiveAt(Step(s, e), id) ==> TrackedAt(Step(s, e), id, s.tasks[id].schedule.d))
  {
    hide NextRun, Phased;
    FlightIsStored(s, id);
    if id == e.id {
      var l, x := LaunchesOf(s, id), Launch(s.now, FlightsOf(s, id)[e.i].byTick);
      assert LaunchesOf(Step(s, e), id) == l + [x];
      assert FlightsOf(Step(s, e), id)[e.i].stage == Executing(s.now);
      AppendLaunch(l, x, s.now, if Paced(s, id) then s.tasks[id].schedule.d else 0);
    }
  }

  lemma CommitSpaced(s: State, e: Event, id: TaskId)
    requires SpacedAt(s, id) && CanHappen(s, e) && e.Commit?
    ensures LaunchedAt(Step(s, e), id) && (Paced(Step(s, e), id) && ExclusiveAt(Step(s, e), id) ==> TrackedAt(Step(s, e), id, s.tasks[id].schedule.d))
  {
    hide NextActivation, CommitTask, Spread, Ordered, Phased;
    FlightIsStored(s, id);
    if id == e.id {
      var start := FlightsOf(s, id)[e.i].stage.start;
      CommitFrame(s.tasks[id], start, e.finished, e.error);
      PlainCommitNext(s.tasks[id], start, e.finished, e.error);
    }
  }

  lemma PlainCommitNext(t: Task, start: int, finished: int, error: Option<string>)
    ensures PlainInterval(t) ==> CommitTask(t, start, finished, error).nextRun == Some(finished + t.schedule.d)
  {
    hide NextActivation;
  }

  lemma TickSpaced(s: State, e: Event, id: TaskId)
    requires SpacedAt(s, id) && CanHappen(s, e) && e.Tick?
    ensures LaunchedAt(Step(s, e), id) && (Paced(Step(s, e), id) && ExclusiveAt(Step(s, e), id) ==> TrackedAt(Step(s, e), id, s.tasks[id].schedule.d))
  {
    hide NextRun, Spread, Ordered, Phased;
    FlightIsStored(s, id);
    DueNotRunning(s.tasks, e.readAt, id);
  }

  lemma ManualSpaced(s: State, e: Event, id: TaskId)
    requires SpacedAt(s, id) && CanHappen(s, e) && (e.RunMissed? || e.RunNow?)
    ensures LaunchedAt(Step(s, e), id) && (Paced(Step(s, e), id) && ExclusiveAt(Step(s, e), id) ==> TrackedAt(Step(s, e), id, s.tasks[id].schedule.d))
  {
    hide NextRun, Spread, Ordered, Phased;
    FlightIsStored(s, id);
  }

  lemma ConfigureSpaced(s: State, e: Event, id: TaskId)
    requires SpacedAt(s, id) && CanHappen(s, e) && (e.Register? || e.SetRetry? || Dies(e))
    ensures LaunchedAt(Step(s, e), id) && (Paced(Step(s, e), id) && ExclusiveAt(Step(s, e), id) ==> TrackedAt(Step(s, e), id, Step(s, e).tasks[id].schedule.d))
  {
    hide NextRun, Spread, Phased, UpsertSome, RestoreAll, InterruptAll;
    FlightIsStored(s, id);
    NothingSpread();
  }

  lemma NothingSpread()
    ensures forall d :: Spread([], d)
  {
  }

  lemma MergeSpaced(s: State, e: Event, id: TaskId)
    requires SpacedAt(s, id) && CanHappen(s, e) && e.StartMerge? && !Disturbs(s, e, id)
    ensures LaunchedAt(Step(s, e), id) && (Paced(Step(s, e), id) && ExclusiveAt(Step(s, e), id) ==> TrackedAt(Step(s, e), id, s.tasks[id].schedule.d))
  {
    hide NextRun, Spread, Ordered, Phased;
    FlightIsStored(s, id);
  }

  lemma MarkSpaced(s: State, e: Event, id: TaskId)
    requires SpacedAt(s, id) && CanHappen(s, e) && e.MarkInterrupted? && !Disturbs(s, e, id)
    ensures LaunchedAt(Step(s, e), id) && (Paced(Step(s, e), id) && ExclusiveAt(Step(s, e), id) ==> TrackedAt(Step(s, e), id, s.tasks[id].schedule.d))
  {
    hide NextRun, Spread, Ordered, RestoreAll, UpsertAll, DueIds, MissedIds, SetFlight, AddFlights, MarkRunning, Phased;
    FlightIsStored(s, id);
  }

  lemma EnableSpaced(s: State, e: Event, id: TaskId)
    requires SpacedAt(s, id) && CanHappen(s, e) && (e.Enable? || e.Disable?)
    ensures LaunchedAt(Step(s, e), id) && (Paced(Step(s, e), id) && ExclusiveAt(Step(s, e), id) ==> TrackedAt(Step(s, e), id, s.tasks[id].schedule.d))
  {
    hide NextActivation, Spread, Phased, RestoreAll, UpsertAll, DueIds, MissedIds, SetFlight, InterruptAll, UpsertRunning, AddFlights, MarkRunning;
    FlightIsStored(s, id);
  }

  lemma OtherSpaced(s: State, e: Event, id: TaskId)
    requires SpacedAt(s, id) && CanHappen(s, e)
    requires e.StartList? || e.RecordHistory? || e.Stop? || e.Advance?
    ensures LaunchedAt(Step(s, e), id) && (Paced(Step(s, e), id) && ExclusiveAt(Step(s, e), id) ==> TrackedAt(Step(s, e), id, s.tasks[id].schedule.d))
  {
    hide NextRun, Spread, Phased, RestoreAll, UpsertAll, DueIds, MissedIds, SetFlight, InterruptAll, UpsertRunning, AddFlights, MarkRunning;
    FlightIsStored(s, id);
  }

  lemma ReleaseSpaced(s: State, e: Event, id: TaskId)
    requires SpacedAt(s, id) && CanHappen(s, e) && e.Release?
    ensures LaunchedAt(Step(s, e), id) && (Paced(Step(s, e), id) && ExclusiveAt(Step(s, e), id) ==> TrackedAt(Step(s, e), id, s.tasks[id].schedule.d))
  {
    hide NextRun, Spread, Ordered, Phased, RestoreAll, UpsertAll, DueIds, MissedIds, SetFlight, InterruptAll, UpsertRunning, AddFlights, MarkRunning;
    FlightIsStored(s, id);
  }

  lemma SameSchedule(s: State, e: Event, id: TaskId)
    requires CanHappen(s, e) && !e.Register? && !e.SetRetry? && !Dies(e)
    ensures Paced(Step(s, e), id) <==> Paced(s, id)
    ensures Paced(s, id) ==> Step(s, e).tasks[id].schedule == s.tasks[id].schedule
  {
    hide NextRun, Backoff, AddFlights, SetFlight, UpsertSome, Merge, RowOf, DueIds, MissedIds, UpdateRow, RunningIds;
  }

  lemma SpacedStep(s: State, e: Event, id: TaskId)
    requires SpacedAt(s, id) && CanHappen(s, e) && !Disturbs(s, e, id)
    ensures SpacedAt(Step(s, e), id)
  {
    PhasedStep(s, e);
    if Paced(s, id) { ExclusiveAtStepIff(s, e, id); }
    hide LaunchedAt, Step, CanHappen, Phased, ExclusiveAt, Paced, TrackedAt;
    if e.Register? || e.SetRetry? || Dies(e) {
      ConfigureSpaced(s, e, id);
      ConfiguredExclusive(s, e, id);
    } else {
      SameSchedule(s, e, id);
      if e.Begin? { BeginSpaced(s, e, id); }
      else if e.Commit? { CommitSpaced(s, e, id); }
      else if e.Tick? { TickSpaced(s, e, id); }
      else if e.RunMissed? || e.RunNow? { ManualSpaced(s, e, id); }
      else if e.StartMerge? { MergeSpaced(s, e, id); }
      else if e.MarkInterrupted? { MarkSpaced(s, e, id); }
      else if e.Enable? || e.Disable? { EnableSpaced(s, e, id); }
      else if e.Release? { ReleaseSpaced(s, e, id); }
      else { OtherSpaced(s, e, id); }
    }
  }

  /** Before the first Start and after a death nothing is running. */
  lemma ConfiguredExclusive(s: State, e: Event, id: TaskId)
    requires SpacedAt(s, id) && CanHappen(s, e) && (e.Register? || e.SetRetry? || Dies(e))
    ensures Paced(Step(s, e), id) ==> ExclusiveAt(Step(s, e), id)
  {
    hide UpsertSome, RestoreAll, InterruptAll, Phased, TrackedAt, Ordered, Spread, RunningIds;
    FlightIsStored(s, id);
  }

  lemma {:induction false} SpacedRun(s: State, es: seq<Event>, id: TaskId)
    requires SpacedAt(s, id) && Possible(s, es) && NeverDisturbed(s, es, id)
    ensures SpacedAt(After(s, es), id)
    decreases |es|
  {
    hide SpacedAt, CanHappen, Step, Disturbs;
    if es != [] {
      SpacedStep(s, es[0], id);
      SpacedRun(Step(s, es[0]), es[1..], id);
    }
  }

  lemma InitialSpaced(window: int, now: int, id: TaskId)
    ensures SpacedAt(Initial(window, now), id)
  {
  }

  lemma NegativeSpread(l: seq<Launch>, now: int, d: int)
    requires Ordered(l, now) && d < 0
    ensures Spread(l, d)
  {
  }

  /** Every loop-launched start of the task so far keeps the distance. */
  ghost predicate SpreadAt(s: State, id: TaskId) {
    id in s.tasks && PlainInterval(s.tasks[id]) ==> Spread(LaunchesOf(s, id), s.tasks[id].schedule.d)
  }

  lemma SpacedIsSpread(s: State, id: TaskId)
    requires SpacedAt(s, id)
    ensures SpreadAt(s, id)
  {
    hide Spread, Phased;
    if id in s.tasks && PlainInterval(s.tasks[id]) && s.tasks[id].schedule.d < 0 {
      NegativeSpread(LaunchesOf(s, id), s.now, s.tasks[id].schedule.d);
    }
  }

  /**
   In every run in which nothing disturbs it, a loop-launched start of a plain "@every d"
   task follows each earlier start in the process by more than d.
   */
  lemma TickStartsSpaced(window: int, now: int, es: seq<Event>, id: TaskId, i: nat, j: nat)
    requires Possible(Initial(window, now), es) && NeverDisturbed(Initial(window, now), es, id)
    requires var s := After(Initial(window, now), es);
             && id in s.tasks && PlainInterval(s.tasks[id])
             && i < j < |LaunchesOf(s, id)| && LaunchesOf(s, id)[j].byTick
    ensures var s := After(Initial(window, now), es);
            LaunchesOf(s, id)[j].time > LaunchesOf(s, id)[i].time + s.tasks[id].schedule.d
  {
    hide Possible, NeverDisturbed, After, SpacedAt;
    InitialSpaced(window, now, id);
    SpacedRun(Initial(window, now), es, id);
    SpacedIsSpread(After(Initial(window, now), es), id);
  }

  // --- Exactly when the distance is kept ---

  /** The distance is kept if the run goes on like this, unless that disturbs it again. */
  ghost predicate FutureSpread(s: State, es: seq<Event>, id: TaskId) {
    Possible(s, es) && NeverDisturbed(s, es, id) ==> SpreadAt(After(s, es), id)
  }

  /** However the run goes on, from each of its states. */
  ghost predicate AlwaysFutureSpread(s: State, es: seq<Event>, id: TaskId)
    requires Possible(s, es)
    decreases |es|
  {
    (forall more :: FutureSpread(s, more, id)) && (es != [] ==> AlwaysFutureSpread(Step(s, es[0]), es[1..], id))
  }

  lemma SpacedFuture(s: State, more: seq<Event>, id: TaskId)
    requires SpacedAt(s, id)
    ensures FutureSpread(s, more, id)
  {
    hide Possible, NeverDisturbed, After, SpacedAt, SpreadAt;
    if Possible(s, more) && NeverDisturbed(s, more, id) {
      SpacedRun(s, more, id);
      SpacedIsSpread(After(s, more), id);
    }
  }

  // --- How a disturbed task is taken up too early ---

  /** What matters of a task on the way there. */
  ghost predicate At(s: State, id: TaskId, running: bool, flights: seq<Flight>, launches: seq<Launch>, nextRun: int, d: int) {
    && s.looping && Unlocked(s) && id in s.tasks
    && s.tasks[id].enabled && s.tasks[id].running == running && s.tasks[id].nextRun == Some(nextRun)
    && PlainInterval(s.tasks[id]) && s.tasks[id].schedule.d == d
    && FlightsOf(s, id) == flights && LaunchesOf(s, id) == launches
  }

  lemma ReleaseAt(s: State, id: TaskId, fs: seq<Flight>, l: seq<Launch>, next: int, d: int)
    requires At(s, id, true, fs, l, next, d) && fs != [] && fs[0].stage.Committed?
    ensures CanHappen(s, Release(id, 0)) && At(Step(s, Release(id, 0)), id, false, fs[1..], l, next, d)
    ensures Step(s, Release(id, 0)).now == s.now
  {
    assert fs[..0] + fs[1..] == fs[1..];
  }

  lemma AdvanceAt(s: State, id: TaskId, running: bool, fs: seq<Flight>, l: seq<Launch>, next: int, d: int, to: int)
    requires At(s, id, running, fs, l, next, d) && s.now <= to
    ensures CanHappen(s, Advance(to)) && At(Step(s, Advance(to)), id, running, fs, l, next, d)
    ensures Step(s, Advance(to)).now == to
  {
  }

  lemma TickAt(s: State, id: TaskId, fs: seq<Flight>, l: seq<Launch>, next: int, d: int)
    requires At(s, id, false, fs, l, next, d) && next < s.now
    ensures CanHappen(s, Tick(s.now)) && At(Step(s, Tick(s.now)), id, true, fs + [Flight(true, Reserved)], l, next, d)
    ensures Step(s, Tick(s.now)).now == s.now
  {
    assert id in DueIds(s.tasks, s.now);
  }

  lemma BeginAt(s: State, id: TaskId, i: nat, running: bool, fs: seq<Flight>, l: seq<Launch>, next: int, d: int)
    requires At(s, id, running, fs, l, next, d) && i < |fs| && fs[i].stage.Reserved?
    ensures CanHappen(s, Begin(id, i))
    ensures At(Step(s, Begin(id, i)), id, running, fs[i := fs[i].(stage := Executing(s.now))], l + [Launch(s.now, fs[i].byTick)], next, d)
    ensures Step(s, Begin(id, i)).now == s.now
  {
  }

  lemma CommitAt(s: State, id: TaskId, fs: seq<Flight>, l: seq<Launch>, next: int, d: int)
    requires At(s, id, true, fs, l, next, d) && fs != [] && fs[0].stage.Executing? && fs[0].stage.start <= s.now
    ensures CanHappen(s, Commit(id, 0, s.now, None))
    ensures var t := Step(s, Commit(id, 0, s.now, None));
            && CanHappen(t, RecordHistory) && Step(t, RecordHistory).now == s.now
            && At(Step(t, RecordHistory), id, true, fs[0 := fs[0].(stage := Committed)], l, s.now + d, d)
  {
    hide NextActivation;
  }

  lemma AtIsRunning(s: State, id: TaskId, running: bool, fs: seq<Flight>, l: seq<Launch>, next: int, d: int)
    requires At(s, id, running, fs, l, next, d)
    ensures id in s.tasks && PlainInterval(s.tasks[id]) && s.tasks[id].schedule.d == d && LaunchesOf(s, id) == l
  {
  }

  /** Some continuation without another disturbance ends with a start that is too close. */
  ghost predicate GoesWrong(s: State, id: TaskId) {
    exists more :: !FutureSpread(s, more, id)
  }

  lemma TooClose(l: seq<Launch>, x: Launch, d: int)
    requires l != [] && x.byTick && x.time <= LastTime(l) + d
    ensures !Spread(l + [x], d)
  {
    var m := l + [x];
    assert m[|l| - 1] == l[|l| - 1] && m[|l|] == x;
  }

  lemma WrongNow(s: State, id: TaskId)
    requires !SpreadAt(s, id)
    ensures GoesWrong(s, id)
  {
    assert Possible(s, []) && NeverDisturbed(s, [], id) && After(s, []) == s;
    assert !FutureSpread(s, [], id);
  }

  /** A harmless event on the way. */
  lemma WrongLater(s: State, e: Event, id: TaskId)
    requires CanHappen(s, e) && !e.MarkInterrupted? && !e.StartMerge? && !e.RunMissed?
    requires GoesWrong(Step(s, e), id)
    ensures GoesWrong(s, id)
  {
    hide Step, CanHappen, SpreadAt;
    var more :| !FutureSpread(Step(s, e), more, id);
    var es := [e] + more;
    assert es[0] == e && es[1..] == more;
    assert Possible(s, es) && NeverDisturbed(s, es, id) && After(s, es) == After(Step(s, e), more);
    assert !FutureSpread(s, es, id);
  }

  /** A tick that is due begins at once, within d of the last start. */
  lemma TickGoesWrong(s: State, id: TaskId, fs: seq<Flight>, l: seq<Launch>, next: int, d: int)
    requires At(s, id, false, fs, l, next, d) && next < s.now && l != [] && s.now <= LastTime(l) + d
    ensures GoesWrong(s, id)
  {
    hide Step, CanHappen, At, GoesWrong, Spread, PlainInterval;
    TickAt(s, id, fs, l, next, d);
    var s1, gs := Step(s, Tick(s.now)), fs + [Flight(true, Reserved)];
    BeginAt(s1, id, |fs|, true, gs, l, next, d);
    var s2 := Step(s1, Begin(id, |fs|));
    var m := l + [Launch(s.now, true)];
    AtIsRunning(s2, id, true, gs[|fs| := gs[|fs|].(stage := Executing(s.now))], m, next, d);
    TooClose(l, Launch(s.now, true), d);
    WrongNow(s2, id);
    WrongLater(s1, Begin(id, |fs|), id);
    WrongLater(s, Tick(s.now), id);
  }

  /** So does one that becomes due in time. */
  lemma SoonGoesWrong(s: State, id: TaskId, fs: seq<Flight>, l: seq<Launch>, next: int, d: int)
    requires At(s, id, false, fs, l, next, d) && l != [] && next < LastTime(l) + d && s.now <= LastTime(l) + d
    ensures GoesWrong(s, id)
  {
    hide Step, CanHappen, At, GoesWrong;
    var to := if next < s.now then s.now else next + 1;
    AdvanceAt(s, id, false, fs, l, next, d, to);
    TickGoesWrong(Step(s, Advance(to)), id, fs, l, next, d);
    WrongLater(s, Advance(to), id);
  }

  lemma ReleasedGoesWrong(s: State, id: TaskId, fs: seq<Flight>, l: seq<Launch>, next: int, d: int)
    requires At(s, id, true, fs, l, next, d) && fs != [] && fs[0].stage.Committed?
    requires l != [] && next < LastTime(l) + d && s.now <= LastTime(l) + d
    ensures GoesWrong(s, id)
  {
    hide Step, CanHappen, At, GoesWrong;
    ReleaseAt(s, id, fs, l, next, d);
    SoonGoesWrong(Step(s, Release(id, 0)), id, fs[1..], l, next, d);
    WrongLater(s, Release(id, 0), id);
  }

  /** Two executions, the first of them released: the second begins, and a tick takes the task up at that moment. */
  lemma SecondGoesWrong(s: State, id: TaskId, l: seq<Launch>, next: int, d: int)
    requires At(s, id, false, [Flight(false, Reserved)], l, next, d) && d >= 0
    ensures GoesWrong(s, id)
  {
    hide Step, CanHappen, At, GoesWrong;
    var to := if next < s.now then s.now else next + 1;
    var fs := [Flight(false, Reserved)];
    AdvanceAt(s, id, false, fs, l, next, d, to);
    var s1 := Step(s, Advance(to));
    BeginAt(s1, id, 0, false, fs, l, next, d);
    var m := l + [Launch(to, false)];
    assert LastTime(m) == to;
    TickGoesWrong(Step(s1, Begin(id, 0)), id, fs[0 := fs[0].(stage := Executing(to))], m, next, d);
    WrongLater(s1, Begin(id, 0), id);
    WrongLater(s, Advance(to), id);
  }

  lemma DoubledCommitted(s: State, id: TaskId, f: Flight, l: seq<Launch>, next: int, d: int)
    requires At(s, id, true, [f, Flight(false, Reserved)], l, next, d) && d >= 0 && f.stage.Committed?
    ensures GoesWrong(s, id)
  {
    hide Step, CanHappen, At, GoesWrong;
    var fs := [f, Flight(false, Reserved)];
    ReleaseAt(s, id, fs, l, next, d);
    assert fs[1..] == [Flight(false, Reserved)];
    SecondGoesWrong(Step(s, Release(id, 0)), id, l, next, d);
    WrongLater(s, Release(id, 0), id);
  }

  lemma DoubledExecuting(s: State, id: TaskId, f: Flight, l: seq<Launch>, next: int, d: int)
    requires At(s, id, true, [f, Flight(false, Reserved)], l, next, d) && d >= 0 && f.stage.Executing? && f.stage.start <= s.now
    ensures GoesWrong(s, id)
  {
    hide Step, CanHappen, At, GoesWrong;
    var fs, commit := [f, Flight(false, Reserved)], Commit(id, 0, s.now, None);
    CommitAt(s, id, fs, l, next, d);
    var g := f.(stage := Committed);
    assert fs[0 := g] == [g, Flight(false, Reserved)];
    DoubledCommitted(Step(Step(s, commit), RecordHistory), id, g, l, s.now + d, d);
    WrongLater(Step(s, commit), RecordHistory, id);
    WrongLater(s, commit, id);
  }

  lemma DoubledReserved(s: State, id: TaskId, f: Flight, l: seq<Launch>, next: int, d: int)
    requires At(s, id, true, [f, Flight(false, Reserved)], l, next, d) && d >= 0 && f.stage.Reserved?
    ensures GoesWrong(s, id)
  {
    hide Step, CanHappen, At, GoesWrong;
    var fs, g := [f, Flight(false, Reserved)], f.(stage := Executing(s.now));
    BeginAt(s, id, 0, true, fs, l, next, d);
    assert fs[0 := g] == [g, Flight(false, Reserved)];
    DoubledExecuting(Step(s, Begin(id, 0)), id, g, l + [Launch(s.now, f.byTick)], next, d);
    WrongLater(s, Begin(id, 0), id);
  }

  // --- Every disturbance can go wrong ---

  lemma MarkedAt(s: State, id: TaskId)
    requires SpacedAt(s, id) && CanHappen(s, MarkInterrupted) && EarlyMark(s, id)
    ensures var t := Step(s, MarkInterrupted);
            && At(t, id, true, FlightsOf(s, id), LaunchesOf(s, id), s.now, s.tasks[id].schedule.d) && t.now == s.now
    ensures LaunchesOf(s, id) != [] && s.now < LastTime(LaunchesOf(s, id)) + s.tasks[id].schedule.d
  {
    hide UpsertSome, UpsertRunning, Spread, Ordered;
  }

  lemma MarkGoesWrong(s: State, id: TaskId)
    requires SpacedAt(s, id) && CanHappen(s, MarkInterrupted) && EarlyMark(s, id)
    ensures GoesWrong(Step(s, MarkInterrupted), id)
  {
    MarkedAt(s, id);
    hide Step, CanHappen, At, GoesWrong, SpacedAt;
    ReleasedGoesWrong(Step(s, MarkInterrupted), id, FlightsOf(s, id), LaunchesOf(s, id), s.now, s.tasks[id].schedule.d);
  }

  lemma MergedAt(s: State, id: TaskId, readAt: int)
    requires SpacedAt(s, id) && CanHappen(s, StartMerge(readAt)) && EarlyMerge(s, id, readAt)
    ensures var t, next := Step(s, StartMerge(readAt)), Restore(s.tasks[id], Stored(s.phase.snapshot, id), readAt).nextRun.value;
            && At(t, id, FlightsOf(s, id) != [], FlightsOf(s, id), LaunchesOf(s, id), next, s.tasks[id].schedule.d) && t.now == s.now
            && LaunchesOf(s, id) != []
            && next < LastTime(LaunchesOf(s, id)) + s.tasks[id].schedule.d
            && s.now <= LastTime(LaunchesOf(s, id)) + s.tasks[id].schedule.d
    ensures FlightsOf(s, id) != [] ==> FlightsOf(s, id)[0].stage.Committed?
  {
    hide NextRun, UpsertSome, Spread, Ordered;
  }

  lemma MergeGoesWrong(s: State, id: TaskId, readAt: int)
    requires SpacedAt(s, id) && CanHappen(s, StartMerge(readAt)) && EarlyMerge(s, id, readAt)
    ensures GoesWrong(Step(s, StartMerge(readAt)), id)
  {
    MergedAt(s, id, readAt);
    var next := Restore(s.tasks[id], Stored(s.phase.snapshot, id), readAt).nextRun.value;
    hide Step, CanHappen, At, GoesWrong, SpacedAt, Restore;
    var t, fs, l, d := Step(s, StartMerge(readAt)), FlightsOf(s, id), LaunchesOf(s, id), s.tasks[id].schedule.d;
    if fs == [] {
      SoonGoesWrong(t, id, fs, l, next, d);
    } else {
      ReleasedGoesWrong(t, id, fs, l, next, d);
    }
  }

  lemma DoubledAt(s: State, id: TaskId, readAt: int)
    requires SpacedAt(s, id) && CanHappen(s, RunMissed(readAt)) && Paced(s, id) && DoublesAt(s, RunMissed(readAt), id)
    ensures |FlightsOf(s, id)| == 1 && s.tasks[id].nextRun.Some?
    ensures var t, f := Step(s, RunMissed(readAt)), FlightsOf(s, id)[0];
            && At(t, id, true, [f, Flight(false, Reserved)], LaunchesOf(s, id), s.tasks[id].nextRun.value, s.tasks[id].schedule.d)
            && t.now == s.now && (f.stage.Executing? ==> f.stage.start <= s.now)
  {
    hide Spread;
    var f := FlightsOf(s, id)[0];
    assert FlightsOf(s, id) == [f];
    assert [f] + [Flight(false, Reserved)] == [f, Flight(false, Reserved)];
    assert id in MissedIds(s.tasks, readAt, s.window);
  }

  lemma DoubleGoesWrong(s: State, id: TaskId, readAt: int)
    requires SpacedAt(s, id) && CanHappen(s, RunMissed(readAt)) && Paced(s, id) && DoublesAt(s, RunMissed(readAt), id)
    ensures GoesWrong(Step(s, RunMissed(readAt)), id)
  {
    DoubledAt(s, id, readAt);
    var next, d := s.tasks[id].nextRun.value, s.tasks[id].schedule.d;
    hide Step, CanHappen, At, GoesWrong, SpacedAt;
    var t, f, l := Step(s, RunMissed(readAt)), FlightsOf(s, id)[0], LaunchesOf(s, id);
    match f.stage
    case Reserved => DoubledReserved(t, id, f, l, next, d);
    case Executing(_) => DoubledExecuting(t, id, f, l, next, d);
    case Committed => DoubledCommitted(t, id, f, l, next, d);
  }

  lemma DisturbedGoesWrong(s: State, e: Event, id: TaskId)
    requires SpacedAt(s, id) && CanHappen(s, e) && Disturbs(s, e, id)
    ensures GoesWrong(Step(s, e), id)
  {
    hide Step, CanHappen, GoesWrong, SpacedAt, EarlyMark, EarlyMerge;
    if e.MarkInterrupted? { MarkGoesWrong(s, id); }
    else if e.StartMerge? { MergeGoesWrong(s, id, e.readAt); }
    else { DoubleGoesWrong(s, id, e.readAt); }
  }

  lemma {:induction false} FutureSpreadIff(s: State, es: seq<Event>, id: TaskId)
    requires SpacedAt(s, id) && Possible(s, es)
    ensures AlwaysFutureSpread(s, es, id) <==> NeverDisturbed(s, es, id)
    decreases |es|
  {
    hide SpacedAt, CanHappen, Step, FutureSpread, Disturbs;
    forall more ensures FutureSpread(s, more, id) { SpacedFuture(s, more, id); }
    if es != [] {
      var e, t := es[0], Step(s, es[0]);
      if Disturbs(s, e, id) {
        DisturbedGoesWrong(s, e, id);
      } else {
        SpacedStep(s, e, id);
        FutureSpreadIff(t, es[1..], id);
      }
    }
  }

  /**
   The exact guard, over every run and for every task: the distance is kept however the run
   goes on from each of its states, later disturbances aside, if and only if the run holds no
   early mark, no early merge and no catch-up of the task while it is running.
   */
  lemma SpacingIff(window: int, now: int, es: seq<Event>, id: TaskId)
    requires Possible(Initial(window, now), es)
    ensures AlwaysFutureSpread(Initial(window, now), es, id) <==> NeverDisturbed(Initial(window, now), es, id)
  {
    hide Possible, NeverDisturbed, AlwaysFutureSpread, SpacedAt;
    InitialSpaced(window, now, id);
    FutureSpreadIff(Initial(window, now), es, id);
  }

  // --- Starts that begin idle ---

  /** What Start has listed is the last run, so long as nothing is in flight. */
  ghost predicate ListedAt(s: State, id: TaskId) {
    s.phase.Loading? && Paced(s, id) && LaunchesOf(s, id) != [] ==>
      id in s.phase.snapshot && s.phase.snapshot[id].lastRun == Some(LastTime(LaunchesOf(s, id)))
  }

  lemma ListedStep(s: State, e: Event, id: TaskId)
    requires Quiet(s) && SpacedAt(s, id) && ListedAt(s, id) && CanHappen(s, e) && OrderlyEvent(s, e)
    ensures ListedAt(Step(s, e), id)
  {
    if e.Register? || e.SetRetry? || Dies(e) {
      ConfiguredNotLoading(s, e);
    } else if e.StartList? {
      hide Spread, Ordered, Phased, Exclusive;
      FlightIsStored(s, id);
      assert FlightsOf(s, id) == [];
    } else if s.phase.Loading? {
      hide Spread, Ordered, Phased, Exclusive, NextRun, UpsertSome, RestoreAll, InterruptAll, CommitTask, Merge, RowOf;
      assert FlightsOf(s, id) == [];
    } else {
      StillNotLoading(s, e);
    }
  }

  lemma ConfiguredNotLoading(s: State, e: Event)
    requires CanHappen(s, e) && (e.Register? || e.SetRetry? || Dies(e))
    ensures Step(s, e).phase.Fresh?
  {
    hide UpsertSome, RestoreAll, InterruptAll;
  }

  lemma StillNotLoading(s: State, e: Event)
    requires CanHappen(s, e) && !s.phase.Loading? && !e.StartList?
    ensures !Step(s, e).phase.Loading?
  {
    hide UpsertSome, RestoreAll, InterruptAll, CommitTask, UpdateRow, AddFlights, SetFlight, MarkRunning, NextRun;
  }

  lemma IdleMergesNothingEarly(s: State, e: Event, id: TaskId)
    requires Quiet(s) && SpacedAt(s, id) && ListedAt(s, id) && CanHappen(s, e)
    requires e.MarkInterrupted? ==> !EarlyMark(s, id)
    ensures !Disturbs(s, e, id)
  {
    QuietNotDouble(s, e);
    hide Spread, Ordered, Phased, Exclusive, Missed;
    assert !DoublesAt(s, e, id);
    if e.StartMerge? { assert FlightsOf(s, id) == []; }
  }

  ghost predicate NoEarlyMarks(s: State, es: seq<Event>, id: TaskId)
    requires Possible(s, es)
    decreases |es|
  {
    es != [] ==> !(es[0].MarkInterrupted? && EarlyMark(s, id)) && NoEarlyMarks(Step(s, es[0]), es[1..], id)
  }

  lemma {:induction false} OrderlyRunUndisturbed(s: State, es: seq<Event>, id: TaskId)
    requires Quiet(s) && SpacedAt(s, id) && ListedAt(s, id) && Possible(s, es)
    requires Orderly(s, es) && NoEarlyMarks(s, es, id)
    ensures NeverDisturbed(s, es, id)
    decreases |es|
  {
    hide Quiet, SpacedAt, ListedAt, CanHappen, Step, Disturbs, OrderlyEvent, EarlyMark;
    if es != [] {
      IdleMergesNothingEarly(s, es[0], id);
      QuietStep(s, es[0]);
      ListedStep(s, es[0], id);
      SpacedStep(s, es[0], id);
      OrderlyRunUndisturbed(Step(s, es[0]), es[1..], id);
    }
  }

  /** When every Start begins idle, an early mark is the only disturbance there can be. */
  lemma OrderlyUndisturbed(window: int, now: int, es: seq<Event>, id: TaskId)
    requires Possible(Initial(window, now), es) && Orderly(Initial(window, now), es) && NoEarlyMarks(Initial(window, now), es, id)
    ensures NeverDisturbed(Initial(window, now), es, id)
  {
    hide Possible, Orderly, NoEarlyMarks, NeverDisturbed, SpacedAt, Quiet;
    InitialQuiet(window, now);
    InitialSpaced(window, now, id);
    OrderlyRunUndisturbed(Initial(window, now), es, id);
  }
}
