/**
 The retry ladder inside a run: whatever else interleaves, only a task's own commits move
 its retry counter, and a failing streak walks it round the cycle of M + 1.
 */
module SchedulerLadder {
  import opened Options
  import opened Arithmetic
  import opened GoText
  import opened Schedules
  import opened TaskState
  import opened SchedulerMachine

  /** Nothing in the run reconfigures the task, restarts the process, or lets it succeed once. */
  predicate OnlyFailures(es: seq<Event>, id: TaskId)
    decreases |es|
  {
    es == [] || (
      var e := es[0];
      && !Dies(e)
      && !(e.Register? && e.id == id)
      && !(e.SetRetry? && e.id == id)
      && (e.Commit? && e.id == id ==> e.error.Some?)
      && OnlyFailures(es[1..], id))
  }

  function CommitsOf(es: seq<Event>, id: TaskId): nat
    decreases |es|
  {
    if es == [] then 0 else CommitsOf(es[1..], id) + if es[0].Commit? && es[0].id == id then 1 else 0
  }

  /** This commit is a failure that goes back to the schedule instead of retrying. */
  predicate FallsBack(s: State, e: Event, id: TaskId) {
    e.Commit? && e.id == id && e.error.Some? && id in s.tasks
    && !(s.tasks[id].retryOnFail && s.tasks[id].retryAttempt < s.tasks[id].retryMax)
  }

  ghost function Fallbacks(s: State, es: seq<Event>, id: TaskId): nat
    requires Possible(s, es)
    decreases |es|
  {
    if es == [] then 0 else (if FallsBack(s, es[0], id) then 1 else 0) + Fallbacks(Step(s, es[0]), es[1..], id)
  }

  /** Policy and schedule of a task, which no event of such a run changes. */
  predicate SamePolicy(a: Task, b: Task) {
    a.retryOnFail == b.retryOnFail && a.retryMax == b.retryMax && a.retryBase == b.retryBase && a.schedule == b.schedule
  }

  predicate SameLadder(a: Task, b: Task) {
    SamePolicy(a, b) && a.retryAttempt == b.retryAttempt
  }

  lemma StartMovesNoLadder(s: State, e: Event, id: TaskId)
    requires CanHappen(s, e) && id in s.tasks && OnlyFailures([e], id)
    requires e.Register? || e.SetRetry? || e.StartList? || e.RunMissed? || e.Tick? || e.RunNow?
    ensures id in Step(s, e).tasks && SameLadder(Step(s, e).tasks[id], s.tasks[id])
  {
    hide NextRun, AddFlights, UpsertSome, RestoreAll, InterruptAll, DueIds, MissedIds, SetFlight, CommitTask;
  }

  lemma MergeMovesNoLadder(s: State, e: Event, id: TaskId)
    requires CanHappen(s, e) && id in s.tasks && e.StartMerge?
    ensures id in Step(s, e).tasks && SameLadder(Step(s, e).tasks[id], s.tasks[id])
  {
    hide NextRun, UpsertSome;
  }

  /** Ticks, manual runs, enabling, Stop, Start, interruption and other tasks' commits leave the ladder alone. */
  lemma OnlyOwnCommitsMove(s: State, e: Event, id: TaskId)
    requires CanHappen(s, e) && id in s.tasks && OnlyFailures([e], id) && !(e.Commit? && e.id == id)
    ensures id in Step(s, e).tasks && SameLadder(Step(s, e).tasks[id], s.tasks[id])
  {
    if e.Register? || e.SetRetry? || e.StartList? || e.RunMissed? || e.Tick? || e.RunNow? {
      hide Step, CanHappen;
      StartMovesNoLadder(s, e, id);
    } else if e.StartMerge? {
      hide Step, CanHappen;
      MergeMovesNoLadder(s, e, id);
    } else {
      hide NextRun, CommitTask, UpdateRow, AddFlights, SetFlight, UpsertAll, UpsertRunning, Merge, RowOf, DueIds, MissedIds, RestoreAll;
    }
  }

  /** A failed commit climbs one rung with the doubled delay, or falls back to the schedule. */
  lemma OwnFailureClimbs(s: State, e: Event, id: TaskId)
    requires CanHappen(s, e) && e.Commit? && e.id == id && e.error.Some? && id in s.tasks
    requires s.tasks[id].retryOnFail && s.tasks[id].retryAttempt <= s.tasks[id].retryMax
    ensures id in Step(s, e).tasks && SamePolicy(s.tasks[id], Step(s, e).tasks[id])
    ensures FallsBack(s, e, id) <==> s.tasks[id].retryAttempt == s.tasks[id].retryMax
    ensures var t, t' := s.tasks[id], Step(s, e).tasks[id];
            && t'.retryAttempt == (if FallsBack(s, e, id) then 0 else t.retryAttempt + 1)
            && t'.nextRun == if FallsBack(s, e, id) then NextRun(t.schedule, e.finished)
                             else Some(e.finished + Backoff(t.retryBase, t.retryAttempt))
  {
    hide NextRun, Backoff, SetFlight;
  }

  /**
   A streak of L failed commits, whatever interleaves, takes the counter from a to
   (a + L) mod (M + 1) and falls back to the schedule (a + L) div (M + 1) times.
   */
  lemma {:induction false} StreakInRun(s: State, es: seq<Event>, id: TaskId)
    requires Possible(s, es) && OnlyFailures(es, id)
    requires id in s.tasks && s.tasks[id].retryOnFail && s.tasks[id].retryAttempt <= s.tasks[id].retryMax
    ensures var t, t' := s.tasks[id], After(s, es).tasks;
            && id in t' && SamePolicy(t, t'[id])
            && t'[id].retryAttempt == (t.retryAttempt + CommitsOf(es, id)) % (t.retryMax + 1)
            && Fallbacks(s, es, id) == (t.retryAttempt + CommitsOf(es, id)) / (t.retryMax + 1)
    decreases |es|
  {
    hide CanHappen, Step, FallsBack;
    var t := s.tasks[id];
    var m := t.retryMax + 1;
    if es == [] {
      DivUnique(t.retryAttempt, m, 0, t.retryAttempt);
    } else {
      var e := es[0];
      if e.Commit? && e.id == id {
        OwnFailureClimbs(s, e, id);
        StreakInRun(Step(s, e), es[1..], id);
        if t.retryAttempt == t.retryMax { NextCycle(CommitsOf(es[1..], id), m); }
      } else {
        OnlyOwnCommitsMove(s, e, id);
        StreakInRun(Step(s, e), es[1..], id);
        NotOwnNoFallback(s, e, id);
      }
    }
  }

  lemma NotOwnNoFallback(s: State, e: Event, id: TaskId)
    requires !(e.Commit? && e.id == id)
    ensures !FallsBack(s, e, id)
  {
  }

  lemma NextCycle(n: nat, m: nat)
    requires m > 0
    ensures (m + n) % m == n % m && (m + n) / m == n / m + 1
  {
    assert n == n / m * m + n % m;
    assert m + n == (n / m + 1) * m + n % m by { assert (n / m + 1) * m == n / m * m + m; }
    DivUnique(m + n, m, n / m + 1, n % m);
  }

  /**
   The delays inside a run: the failed commit after a streak of L from counter a schedules
   the next run base * 2^k after its end, k being (a + L) mod (M + 1), or at the normal time
   when k is M. So they are base, 2 base, ... 2^(M-1) base, one normal run, and again.
   */
  lemma DelayInRun(s: State, es: seq<Event>, id: TaskId, i: nat, finished: int, error: string)
    requires Possible(s, es) && OnlyFailures(es, id)
    requires id in s.tasks && s.tasks[id].retryOnFail && s.tasks[id].retryAttempt <= s.tasks[id].retryMax
    requires CanHappen(After(s, es), Event.Commit(id, i, finished, Some(error)))
    ensures var t, t' := s.tasks[id], Step(After(s, es), Event.Commit(id, i, finished, Some(error))).tasks;
            var k := (t.retryAttempt + CommitsOf(es, id)) % (t.retryMax + 1);
            id in t' && t'[id].nextRun
            == if k < t.retryMax then Some(finished + Wrap64(t.retryBase * Pow2(k))) else NextRun(t.schedule, finished)
  {
    hide CanHappen, Step, NextRun, Pow2, Wrap64, After, Possible, OnlyFailures, CommitsOf, Fallbacks, FallsBack;
    StreakInRun(s, es, id);
    OwnFailureClimbs(After(s, es), Event.Commit(id, i, finished, Some(error)), id);
  }

  /** In every run the counter of every task stays within its allowed retries. */
  ghost predicate Bounded(s: State) {
    forall id :: id in s.tasks ==> BoundedAt(s, id)
  }

  predicate BoundedAt(s: State, id: TaskId)
    requires id in s.tasks
  {
    s.tasks[id].retryAttempt <= s.tasks[id].retryMax && (s.phase.Fresh? ==> s.tasks[id].retryAttempt == 0)
  }

  lemma CommitBounded(s: State, e: Event)
    requires Phased(s) && Bounded(s) && CanHappen(s, e) && e.Commit?
    ensures Bounded(Step(s, e))
  {
    hide NextRun, SetFlight, CommitTask, UpdateRow;
    assert FlightsOf(s, e.id) != [];
    var start := FlightsOf(s, e.id)[e.i].stage.start;
    CounterBounded(s.tasks[e.id], start, e.finished, e.error);
    CommitFrame(s.tasks[e.id], start, e.finished, e.error);
  }

  lemma SetupBounded(s: State, e: Event)
    requires Phased(s) && Bounded(s) && CanHappen(s, e) && (e.Register? || e.SetRetry? || Dies(e))
    ensures Bounded(Step(s, e))
  {
    hide Phased;
  }

  lemma BoundedStep(s: State, e: Event)
    requires Phased(s) && Bounded(s) && CanHappen(s, e)
    ensures Bounded(Step(s, e))
  {
    if e.Commit? { CommitBounded(s, e); }
    else if e.Register? || e.SetRetry? || Dies(e) { SetupBounded(s, e); }
    else {
      var t := Step(s, e);
      forall id | id in t.tasks ensures BoundedAt(t, id) {
        KeepsTaskAndPhase(s, e, id);
        hide Step, CanHappen, Phased;
        assert BoundedAt(s, id);
        OnlyOwnCommitsMove(s, e, id);
      }
    }
  }

  lemma KeepsTaskAndPhase(s: State, e: Event, id: TaskId)
    requires CanHappen(s, e) && !e.Register? && !Dies(e)
    ensures id in Step(s, e).tasks ==> id in s.tasks
    ensures Step(s, e).phase.Fresh? ==> s.phase.Fresh?
  {
    hide NextRun, CommitTask, UpdateRow, AddFlights, SetFlight, UpsertAll, UpsertRunning, Merge, RowOf, DueIds, MissedIds;
  }

  lemma {:induction false} BoundedRun(s: State, es: seq<Event>)
    requires Phased(s) && Bounded(s) && Possible(s, es)
    ensures Bounded(After(s, es))
    decreases |es|
  {
    hide Phased, Bounded, CanHappen, Step;
    if es != [] {
      PhasedStep(s, es[0]);
      BoundedStep(s, es[0]);
      BoundedRun(Step(s, es[0]), es[1..]);
    }
  }

  lemma AttemptNeverExceedsMax(window: int, now: int, es: seq<Event>, id: TaskId)
    requires Possible(Initial(window, now), es)
    ensures var s := After(Initial(window, now), es);
            id in s.tasks ==> s.tasks[id].retryAttempt <= s.tasks[id].retryMax
  {
    hide Possible, After, Phased;
    InitialPhased(window, now);
    BoundedRun(Initial(window, now), es);
    assert Bounded(After(Initial(window, now), es));
  }
}
