# Verified model of the pastebin server

A Dafny model of the parts of the server that carry state or arithmetic, with proofs about
all inputs and all interleavings. Run `dafny verify dfyconfig.toml` in this directory.

- **Cron engine**: `Calendar`, `Cron`, `CronHorizon`, `CronParse`, `Schedules`. The skip-ahead
  search against a scan of every minute, the field grammar, and when the search gives up.
- **Scheduler**: `TaskState`, `SchedulerMachine` (critical sections as events, a commit as its
  two database writes), `SchedulerCounts`, `SchedulerSpacing`, `SchedulerLadder`,
  `SchedulerOutcomes`, `SchedulerRestart` (what holds over runs), `SchedulerFailures` (runs that
  break what the premises protect), and `SchedulerObject` (the objects, each method proved to
  be its events).
- **Log writer**: `Periods`, `LogRotation`, `LogBounds`, and the `LogWriter` object.
- **Pastes**: `PasteProtocol` (requests step by step, interleaved with sweeps and deletes),
  `PasteHandler`, `PasteTable` and `MemoryCache` (the objects), `PasteContent`, `Utf8` and
  `Base64` (the content pipeline), `PublicList`, `ApiTokens`.
- **Rate limiter**: `RateLimiter`, buckets compacted in their own arrays.
- **Codecs**: `Ulid`, `Size`.
- Shared: `Options`, `Lists`, `Arithmetic`, `ByteStrings`, `GoText`.

Where the code and its comments or documentation differ, the model follows the code:

- `src/scheduler/cron.go:154` says the search never comes back empty for valid expressions. It
  does for expressions whose only day is 29 February: the horizon is 4 * 365 days and leap
  days are 1461 days apart or more. `CronHorizon.NeverZeroIff` is the exact condition.
- `src/scheduler/cron.go:270` advances an int64 counter without a bound, so the step
  9223372036854775807 in a field that starts at 1 indexes the bit array with a negative
  number: `CronParse.LargestStepPanics`, and for a whole expression
  `Schedules.LargestStepPanicsSchedule`. `CronParse.PanicsIff` and `Schedules.SchedulePanicsIff`
  say exactly when. Numerals may carry a sign, as strconv.Atoi allows.
- `src/scheduler/scheduler.go:431-433` writes a row and then a history entry. A reboot between
  the two leaves the counters ahead of the history for good (`SchedulerFailures.RebootInsideCommit`),
  and a Start over an execution that is still in flight can restore overtaken counters
  (`SchedulerFailures.StartMergesOvertakenRow`). `SchedulerCounts.CountersAgreeIff`: there is no
  other way for counters and history to differ.
- `src/scheduler/scheduler.go:531-533` marks missed tasks without looking at `running`. After a
  Stop that gave up waiting, the next Start runs such a task twice at once
  (`SchedulerFailures.RestartDoubles`). `SchedulerMachine.ExclusiveIff` is the exact guard.
- `src/scheduler/scheduler.go:241` says an interrupted task is run again on the next start. The
  mark does not reach its row (`SchedulerRestart.MarkDoesNotReachRow`), and whether it is run
  again depends on its schedule and last stored run alone (`SchedulerRestart.InterruptedRunsAgainIff`);
  `SchedulerFailures.InterruptedIsNotRunAgain` is a run in which it is not.
- `src/scheduler/scheduler.go:243-256` also sets the next run of a marked task to the present. When
  its execution has already committed, a tick still under way can start it again at once
  (`SchedulerFailures.TickAfterMarkIsEarly`); a Start over an execution in flight can do the same
  (`SchedulerFailures.StaleStartIsEarly`). `SchedulerSpacing.SpacingIff` is the exact condition
  under which an "@every d" task keeps its distance.
- `src/scheduler/scheduler.go:296` says a disabled task no longer fires on schedule. After a
  restart the registered flag counts (`SchedulerRestart.RestartUsesRegisteredFlag`,
  `SchedulerFailures.DisabledIsEnabledAgain`).
- `src/handler/paste.go:164` caches pastes as JSON, which replaces invalid UTF-8. A text paste
  that is not UTF-8 is served exactly from the database and changed from the cache
  (`PasteProtocol.HitContentExactIff`, `PasteContent.Latin1ChangesInCache`).
- `src/database/database.go:917` validates an owner token for reuse on another paste, but the
  hash is unique in the table, so the insertion links the second paste only if a cleanup has
  removed the token since the validation (`ApiTokens.ReuseLinksIff`, both outcomes in
  `ApiTokens.ReuseBothWays`).
- `src/database/database.go:481` multiplies page and limit in an int64, so the largest page number
  shows the first page again (`PublicList.LargestPageShowsFirst`; `PublicList.PageIsTrueIff` is the
  exact condition). Rows are ordered by creation time alone, so pages can repeat and omit a paste
  exactly when a tie stands at the end of a page (`PublicList.PagesCoverIff`).
- `src/logging/rotate.go:261` tries two names; when both are taken the rename replaces a file.
  `LogRotation.ConservedIff` is the exact condition, over whole runs.
- `src/config/size.go:43` parses through float64. `Size.FormatParseIff` is the exact condition
  under which a printed size is read back.

Parameters of the model: clock readings, randomness, `time.ParseDuration`,
`http.DetectContentType`, the URL check of `net/url`, and `strconv.ParseFloat` on anything but
plain digits. A clock has a fixed offset from UTC that is a whole number of minutes.

## Model

| member | source | states |
|---|---|---|
| Cron.Next | src/scheduler/cron.go:127-156 | The skip-ahead search returns exactly what a scan of every minute over the 4*365-day horizon returns, and terminates |
| Cron.ActivationIsNext | src/scheduler/cron.go:125-156 | The returned instant is the first whole minute strictly after t whose month, day, hour and minute the expression allows, the day by its day of the month or its weekday; zero is returned exactly when the horizon holds no such minute |
| Cron.DayRule | src/scheduler/cron.go:158-175 | With both day fields restricted a day is admitted if and only if its day of the month is in one or its weekday in the other; with one starred the other decides; with both starred every day is admitted |
| Cron.FirstMatchIsLeast | src/scheduler/cron.go:133-155 | The reference scan finds the least match, and nothing exactly when there is none |
| Cron.AdvanceToMonth | src/scheduler/cron.go:177-191 | Lands on the first of the next allowed month within twelve months, passing only disallowed months; the 365-day fallback is taken exactly for a field without any month |
| Cron.AdvanceToHour | src/scheduler/cron.go:193-206 | Lands on the next allowed hour of the day or the next midnight, passing only disallowed hours |
| Cron.AdvanceToMinute | src/scheduler/cron.go:208-221 | Lands on the next allowed minute of the hour or the next hour, passing only disallowed minutes |
| Calendar.CivilRoundTrip | src/scheduler/cron.go:134-141 | The date of the day number of a valid date is that date, over all years and leap rules |
| Calendar.DatesAdvance | src/scheduler/cron.go:134-141 | Day 0 is 1 January of year 1 and each day has the date after the day before, over month ends, leap years and year ends |
| Calendar.WeekdaysAdvance | src/scheduler/cron.go:158-162 | Day 0 is a Monday and the seven weekdays follow each other |
| Calendar.MonthIndexSandwich | src/scheduler/cron.go:177-187 | A day lies in a month exactly when it lies between the starts of that month and the next, which is what time.Date(year, month, 1) relies on |
| CronHorizon.NeverZeroIff | src/scheduler/cron.go:131-155 | Over all start times the search never returns zero if and only if an allowed month has an admitted day in a common year: the comment on line 154 is wrong exactly for expressions limited to 29 February or to no day |
| CronHorizon.GapIsMissed | src/scheduler/cron.go:131-155 | Every other well-formed expression returns zero from the end of 29 February 2020 |
| CronHorizon.OrdinaryDaysNeverMiss | src/scheduler/cron.go:158-175 | Day fields that admit a day up to the 28th, any weekday, or every day never give zero, from any start time |
| CronParse.ParseField | src/scheduler/cron.go:257-297 | The loops over parts and values compute the field the specification assigns to the text, including rejections and the index panic |
| CronParse.SetStepBits | src/scheduler/cron.go:265-273 | Sets exactly the stepped values; panics exactly when lo plus the step leaves the int64 range |
| CronParse.FieldGrammar | src/scheduler/cron.go:256-297 | A field is accepted if and only if it is a star or a comma-separated list of steps, ranges and values in bounds |
| CronParse.SpelledFieldParses | src/scheduler/cron.go:264-296 | An accepted field allows exactly the union of the values its parts denote |
| CronParse.StepMeaning | src/scheduler/cron.go:270-272 | The stepped values are those of the form lo + k * step up to hi |
| CronParse.ParsedFieldOk | src/scheduler/cron.go:256-297 | A parsed field allows at least one value and none outside its bounds |
| GoText.AtoiMeans | src/scheduler/cron.go:265-289 | Numerals are digits with an optional sign, within an int64 |
| GoText.TrimMeans | src/scheduler/cron.go:34 | Trimming takes white space off both ends and nothing else |
| CronParse.PanicsIff | src/scheduler/cron.go:270-271 | Parsing a field panics if and only if some step part overflows the counter and every part before it is good |
| CronParse.LargestStepPanics | src/scheduler/cron.go:265-271 | The step 9223372036854775807 in a field that starts at 1 is such an input |
| Schedules.ParseCron | src/scheduler/cron.go:224-254 | Five fields, parsed in order, the first failure decides |
| Schedules.ParseSchedule | src/scheduler/cron.go:33-61 | Macros, intervals and five-field expressions, with the empty text refused |
| Schedules.NextRunIs | src/scheduler/cron.go:64-87 | The next run after t is t + d for an interval; for a cron expression the first whole minute after t, in nanoseconds, at which it fires |
| Schedules.FiveFieldMeaning | src/scheduler/cron.go:224-254 | Five words are minute, hour, day of the month, month and weekday with their bounds, in this order, accepted if and only if each is |
| Schedules.EveryMeaning | src/scheduler/cron.go:50-80 | "@every x" is the duration the library gives x, refused unless positive |
| Schedules.EveryDaysMeaning | src/scheduler/cron.go:64-75 | "@every wd" is w times 24 hours as an int64, refused unless w is a positive numeral |
| Schedules.MacroNames | src/scheduler/cron.go:40-49 | There are seven macros |
| Schedules.ParsedExprOk | src/scheduler/cron.go:39-60 | Every accepted cron expression has five satisfiable fields inside their bounds, so the empty-month fallback is never reached |
| Schedules.ParsedNeverZeroIff | src/scheduler/cron.go:127-156 | A parsed cron schedule has a next run from every instant if and only if every year has an activation |
| Schedules.SchedulePanicsIff | src/scheduler/cron.go:33-61 | Parsing a schedule panics if and only if it has five fields, one of them panics, and those before it parse |
| Schedules.LargestStepPanicsSchedule | src/scheduler/cron.go:224-254 | A five-field expression with that step as the day of the month panics |
| Schedules.MacroMeaning | src/scheduler/cron.go:40-49 | Each macro gives the same next run as its five-field form, from every instant |
| Schedules.DaysIntervalExactIff | src/scheduler/cron.go:66-71 | "@every Nd" is always accepted for positive N, and is N days if and only if N is at most 106751; beyond, the int64 product has wrapped |
| TaskState.BackoffExactIff | src/scheduler/scheduler.go:414 | The shifted delay is the exact product if and only if that fits an int64 |
| TaskState.NextAfterCommit | src/scheduler/scheduler.go:403-428 | After a commit the next run is the first that the schedule gives after the end, or the doubled delay after it when a retry is left |
| TaskState.NextAfterRestore | src/scheduler/scheduler.go:489-508 | After loadState the next run is the first that the schedule gives after the stored last run, or after now without one |
| SchedulerMachine.ExclusiveIff | src/scheduler/scheduler.go:517-550 | Over any run, Starts over executions in flight and late ticks included, each task has exactly one execution while marked running and none otherwise, at every moment, if and only if no catch-up finds a missed task running |
| SchedulerMachine.ExclusiveStepIff | src/scheduler/scheduler.go:523-534 | One step keeps that exclusion if and only if it is not such a catch-up |
| SchedulerMachine.AtMostOneInFlight | src/scheduler/scheduler.go:260-282 | In every interleaving whose Starts begin idle each task has at most one execution in flight and is marked running exactly while it has one |
| SchedulerCounts.CountersEqualHistory | src/scheduler/scheduler.go:403-441 | Over every run whose Starts merge no overtaken row, each counter, in memory and in the row, is the number of history entries of that outcome plus the reboots that fell between the two writes of such a commit |
| SchedulerCounts.CountersAgreeIff | src/scheduler/scheduler.go:430-441 | Counters and history agree at every moment of a run if and only if no reboot falls between the two writes of a commit and no Start merges a row that was overtaken after it was listed |
| SchedulerCounts.OrderlyCountersAgreeIff | src/scheduler/scheduler.go:476-512 | When every Start begins idle, it merges nothing overtaken, so only reboots inside a commit make them differ |
| SchedulerOutcomes.RowShowsLastRun | src/scheduler/scheduler.go:403-441 | In every run that writes from no overtaken row and cuts no commit of the task, its row shows its latest execution: its start, success or failure, and the error; or that it never ran |
| SchedulerOutcomes.EntriesAreSound | src/scheduler/scheduler.go:433-440 | In every run each history entry started before it finished and has an error only if it failed |
| SchedulerOutcomes.CommitEntry | src/scheduler/scheduler.go:384-441 | The entry a commit leads to holds the start of its execution, its end and its error |
| SchedulerSpacing.SpacingIff | src/scheduler/scheduler.go:243-256 | For every interval task without retry and every run, Starts over executions in flight and late ticks included: loop-launched starts keep more than d from every earlier start in the process, however the run goes on from each of its states, if and only if the run holds no mark of a committed and unreleased execution less than d after it started, no merge of a last run that was overtaken since it was listed (when the task could still be taken up too early), and no catch-up of the task while it is running |
| SchedulerSpacing.TickStartsSpaced | src/scheduler/scheduler.go:344-368 | In every run that holds none of these three, a loop-launched start comes more than d after every earlier start of the task in the process |
| SchedulerSpacing.OrderlyUndisturbed | src/scheduler/scheduler.go:178-190 | When every Start begins idle, such an early mark is the only one of the three that can happen |
| SchedulerLadder.StreakInRun | src/scheduler/scheduler.go:407-427 | Inside any run, L failed commits take the attempt counter from a to (a + L) mod (M + 1) and fall back to the schedule (a + L) div (M + 1) times |
| SchedulerLadder.DelayInRun | src/scheduler/scheduler.go:410-422 | The failed commit after them schedules base * 2^k after its end for k = (a + L) mod (M + 1) below M, and the normal run for k = M |
| SchedulerLadder.OnlyOwnCommitsMove | src/scheduler/scheduler.go:260-303 | No other event of the scheduler changes the ladder of a task |
| SchedulerLadder.AttemptNeverExceedsMax | src/scheduler/scheduler.go:412-417 | The attempt counter never exceeds the allowed retries |
| SchedulerRestart.MarkDoesNotReachRow | src/scheduler/scheduler.go:241-256 | In every reachable state after Stop, marking running tasks interrupted changes no row but for a next run where the row has none |
| SchedulerRestart.CutMarkDoesNotReachRow | src/scheduler/scheduler.go:241-256 | A death between two upserts of the marking changes no row in any other way either |
| SchedulerRestart.StartReservesIff | src/scheduler/scheduler.go:464-536 | A Start reserves a task if and only if it is enabled and its next run, counted from the stored last run, lies in the catch-up window |
| SchedulerRestart.InterruptedRunsAgainIff | src/scheduler/scheduler.go:194-256 | After any reachable shutdown, marked, unmarked or cut while marking, the next process runs a task at Start if and only if it is registered enabled and its next run from the last run stored before falls into the catch-up window |
| SchedulerRestart.RestartUsesRegisteredFlag | src/scheduler/scheduler.go:489-511 | After a restart a task is enabled, in memory and in its row, if and only if it is registered so |
| SchedulerFailures.RestartDoubles | src/scheduler/scheduler.go:517-550 | A run in which a Start after a timed-out Stop puts two executions of one task in flight |
| SchedulerFailures.RebootInsideCommit | src/scheduler/scheduler.go:430-441 | A run after which the started task and its row count one success and the history is empty |
| SchedulerFailures.StartMergesOvertakenRow | src/scheduler/scheduler.go:476-500 | A run in which a Start over an execution in flight leaves the count in memory behind row and history |
| SchedulerFailures.InterruptedIsNotRunAgain | src/scheduler/scheduler.go:241-256 | A run in which an interrupted, marked and enabled task is not run by the next Start |
| SchedulerFailures.DisabledIsEnabledAgain | src/scheduler/scheduler.go:296-303 | A run in which a disabled task is enabled again by a restart, in memory and in its row |
| SchedulerFailures.TickAfterMarkIsEarly | src/scheduler/scheduler.go:243-256 | A run in which a tick after Stop starts an interval task one nanosecond after its last start |
| SchedulerFailures.StaleStartIsEarly | src/scheduler/scheduler.go:476-512 | A run in which a Start over an execution in flight makes the first tick start the task one nanosecond after its last start, with never more than one execution |
| SchedulerObject.Scheduler.Tick | src/scheduler/scheduler.go:344-355 | Lists once and marks exactly the tasks that are enabled, not running and past their next run, as the tick step of the machine |
| SchedulerObject.Scheduler.RunMissed | src/scheduler/scheduler.go:517-536 | Lists once and marks exactly the enabled tasks whose next run lies within the window before now, as the catch-up step |
| SchedulerObject.Scheduler.ReserveNow | src/scheduler/scheduler.go:260-273 | Refuses an unknown or running task without any change, else reserves it |
| SchedulerObject.Scheduler.SaveOutcome | src/scheduler/scheduler.go:403-432 | The first half of the locked part of execute is the commit step: start, status, error, counters, ladder and next run in the entry, and the same in the row |
| SchedulerObject.Scheduler.RecordOutcome | src/scheduler/scheduler.go:433-440 | The second half is the history step |
| SchedulerObject.Scheduler.CommitExecution | src/scheduler/scheduler.go:403-443 | The locked part of execute is these two steps in this order |
| SchedulerObject.Scheduler.Release | src/scheduler/scheduler.go:278-280 | Ends the reservation |
| SchedulerObject.Scheduler.EnableTask | src/scheduler/scheduler.go:285-293 | Enables entry and row, with the first next run after now; unknown ids change nothing |
| SchedulerObject.Scheduler.DisableTask | src/scheduler/scheduler.go:296-303 | The disable step; unknown ids change nothing |
| SchedulerObject.Scheduler.LoadState | src/scheduler/scheduler.go:489-512 | Restores every entry from its listed row with the first next run after the stored last run, and upserts it; after each upsert the table is one that a death while merging leaves |
| SchedulerObject.Scheduler.MarkInterrupted | src/scheduler/scheduler.go:243-256 | Marks and upserts exactly the running entries; after each upsert the table is one that a death while marking leaves |
| SchedulerObject.Scheduler.SetRetry | src/scheduler/scheduler.go:131-147 | Sets the policy, with the defaults for non-positive values |
| SchedulerObject.Database.UpsertSchedulerTask | src/database/database.go:633-667 | The ON CONFLICT clause merges the stored row with the new one |
| SchedulerObject.Database.UpdateTaskRun | src/database/database.go:720-738 | Replaces the outcome of an existing row and inserts nothing |
| Periods.KeysAreShared | src/logging/rotate.go:142-157 | Two instants have equal period key texts if and only if they share the day, ISO week, month or year |
| Periods.PeriodIsConvex | src/logging/rotate.go:142-157 | What lies between two instants of a period belongs to it |
| Periods.PeriodsAre | src/logging/rotate.go:144-157 | The periods are days of 24 hours, weeks from Monday, calendar months and calendar years |
| Periods.IsoWeekIs | src/logging/rotate.go:149-150 | The week is that of ISO 8601, counted from the week of 4 January |
| Periods.KeyTextsOfOneDay | src/logging/rotate.go:146-155 | The four layouts, on one day |
| LogRotation.ConservedIff | src/logging/rotate.go:194-281 | Keeping files for ever, the rotated files in order and then the live file hold exactly one line for each text given to a write, after every call of a run, if and only if every rotation of the run finds one of its two names free |
| LogRotation.WithNewlineIs | src/logging/rotate.go:334-337 | The line for a text begins with it, ends in a newline, adds at most that, and is the text when it already ends in one |
| LogRotation.WriteRotatesIff | src/logging/rotate.go:242-254 | A write rotates if and only if the file holds something and the line would exceed the limit or the period has changed |
| LogRotation.CheckRotatesIff | src/logging/rotate.go:363-391 | The check rotates if and only if the file holds something and has reached the limit or its period is over |
| LogRotation.RotatesOnlyThen | src/logging/rotate.go:334-391 | Each operation rotates once when it should and not otherwise |
| LogRotation.NothingLost | src/logging/rotate.go:194-281 | With each rotation in its own second that is so, and an open writer knows the true length |
| LogRotation.RotationConservesIff | src/logging/rotate.go:259-269 | A rotation conserves all lines if and only if one of its two names is free |
| LogBounds.RotationsInOneSecondLose | src/logging/rotate.go:261-267 | Four lines written in one second under a one-byte limit leave only three |
| LogBounds.FilesHoldOnePeriod | src/logging/rotate.go:242-254 | With a time interval and a monotone clock every file holds lines of a single period, also when the period start has gone stale |
| LogBounds.FilesWithinLimit | src/logging/rotate.go:246-248 | Starting from no file, every file is within the size limit or holds a single line |
| LogWriter.FileWriter.Open | src/logging/rotate.go:194-215 | Creates or opens the live file and loads size and period start |
| LogWriter.FileWriter.Prune | src/logging/rotate.go:285-329 | By count: as many as allowed are kept and none removed is newer than one kept; by age: exactly those not too old |
| LogWriter.FileWriter.DoRotate | src/logging/rotate.go:259-281 | Renames, resets and prunes, or deletes when nothing is kept |
| LogWriter.FileWriter.WriteLine | src/logging/rotate.go:334-358 | Opens, rotates when needed, appends the line for the text as the last of the file and closes, as the write step of the model |
| LogWriter.FileWriter.RotateCheck | src/logging/rotate.go:363-391 | The scheduled check rotates or only prunes, as the check step of the model |
| LogWriter.FileWriter.Reopen | src/logging/rotate.go:229-238 | Closes, and opens again for writers that hold their handle |
| LogWriter.CountPrune | src/logging/rotate.go:308-328 | Keeping the first names of any newest-first order satisfies the count policy |
| PasteProtocol.BurnsExactlyOnce | src/database/database.go:531-564 | In any interleaving successful increments return 1, 2, ... up to at most N, exactly the Nth burns, and then the row is gone |
| PasteProtocol.SpentSweepFindsNothing | src/database/database.go:618-628 | In every reachable state the burned-paste sweep deletes nothing |
| PasteProtocol.HitsCarryCreation | src/handler/paste.go:146-175 | Every cache hit carries what creation stored, title included, up to JSON replacement of invalid UTF-8, is never burn-limited, and comes at most 300 seconds after it was cached |
| PasteProtocol.HitContentExactIff | src/handler/paste.go:164-175 | The content of a hit is exactly the created one if and only if that is valid UTF-8 |
| PasteProtocol.NothingExpiredIsServed | src/handler/paste.go:945-967 | Whatever is served, from cache or database, had not expired when it was checked |
| PasteProtocol.OnlyExpiredIsOutdated | src/handler/paste.go:945-967 | In every run a request treats as outdated only a paste whose expiry lies before now |
| PasteProtocol.RowsGoForAReason | src/database/database.go:531-628 | In every run a row goes only by a delete of its id, a sweep at or after its expiry, a request after its expiry, or its last view; and a row that stays keeps its paste |
| PasteProtocol.JudgeDecides | src/handler/paste.go:146-162 | A looked-up entry is a hit if and only if its expiry has not passed and its paste has no view limit |
| PasteProtocol.StoreCaches | src/handler/paste.go:166-175 | What is loaded without a view limit is cached for 300 seconds from the reading of the clock |
| PasteHandler.PasteHandler.GetCachedPaste | src/handler/paste.go:146-162 | Stale and burn-limited entries count as misses; the steps are those of the machine |
| PasteHandler.PasteHandler.CachePaste | src/handler/paste.go:166-175 | Stores the JSON form for five minutes, never for a burn-limited paste |
| PasteHandler.LoadOutcomeIs | src/handler/paste.go:945-967 | An entry that may be served wins over the row; what is found is alive up to its expiry and outdated after it |
| PasteHandler.PasteHandler.LoadLivePaste | src/handler/paste.go:945-967 | Alive exactly for an unexpired usable cache entry or, without one, an unexpired row; Absent exactly when there is neither; expired finds are deleted and invalidated; every call is a run of the machine |
| PasteHandler.PasteHandler.GetPaste | src/handler/paste.go:624-644 | Found for every paste without expiry or up to it, with the counted view, the row staying unless this view burns it; Gone with the row deleted after it; every call is a run of the machine |
| PasteHandler.PasteHandler.CompatGet | src/handler/compat.go:241-266 | Found for every row without expiry or up to it, with its counted view; after it the row is deleted and its cache entry stays |
| PasteHandler.PasteHandler.CreatePaste | src/handler/paste.go:496-549 | Stores the paste under the first of ten drawn ids that the table does not hold, with its defaults, or fails when it holds all; a creation is a step of the machine |
| PasteHandler.PasteHandler.DeletePaste | src/handler/paste.go:853-857 | Deletes the row and then the cache entry, the latter only when there was a row |
| PasteHandler.PasteHandler.CompatDelete | src/handler/compat.go:446-462 | Deletes only with the matching hash, and leaves the cache alone |
| PasteHandler.PasteHandler.Sweep | src/main.go:911-921 | Removes expired rows and then spent rows, and counts them |
| PasteTable.Table.CreatePaste | src/database/database.go:423-444 | Inserts with the defaults, or fails on a taken id |
| PasteTable.Table.IncrementViewsAndCheckBurn | src/database/database.go:531-564 | Counts the view and deletes the row when the limit is reached |
| PasteTable.Table.DeletePasteByToken | src/database/database.go:583-601 | Deletes exactly on a matching hash |
| PasteTable.Table.DeleteExpiredPastes | src/database/database.go:604-615 | Keeps exactly the unexpired rows and returns how many went |
| PasteTable.Table.DeleteBurnedPastes | src/database/database.go:618-628 | Keeps exactly the rows below their limit and returns how many went |
| PasteTable.CreationKeeps | src/database/database.go:423-444 | Creation keeps title, content, language, visibility, expiry and view limit as given, but for the defaults of an empty title and language |
| PasteTable.ViewCounts | src/database/database.go:531-564 | A view adds one, reports it, and removes the row exactly at its limit; other rows stay |
| MemoryCache.Cache.Get | src/cache/cache.go:118-138 | A fresh entry is returned, a stale one is removed |
| MemoryCache.Cache.Set | src/cache/cache.go:140-154 | Stores the entry with the expiry that the ttl means |
| MemoryCache.Cache.Reap | src/cache/cache.go:173-192 | Keeps exactly the entries that are not stale |
| MemoryCache.KeptForItsTtl | src/cache/cache.go:118-192 | What is stored with a positive ttl is fresh and kept up to its end, and not after |
| Utf8.SurvivesIff | src/handler/paste.go:170-175 | A string survives the JSON round trip if and only if it is valid UTF-8 |
| Utf8.ValidIff | src/handler/paste.go:170-175 | Valid strings are exactly the encodings of sequences of scalar values, RFC 3629 |
| Utf8.SanitizeMeans | src/handler/paste.go:170-175 | JSON keeps characters and replaces each byte that begins none by U+FFFD |
| Utf8.SpaceRead | src/handler/paste.go:315-317 | Trimming sees the white-space characters of Unicode in their encodings |
| PasteContent.StoreContent | src/handler/paste.go:332-457 | The step-by-step rewriting of the request stores or refuses exactly as specified |
| PasteContent.RawUploadRoundTrip | src/handler/paste.go:397-454 | Raw uploads come back as the trimmed URL, the exact bytes of binary data, or text without its final newlines |
| PasteContent.FileUploadRoundTrip | src/handler/paste.go:353-377 | Binary file uploads come back exactly and are never taken for links; text as for raw uploads |
| PasteContent.FormRoundTrip | src/handler/paste.go:376-395 | Form fields come back as raw uploads do |
| PasteContent.JsonRoundTrip | src/handler/paste.go:340-348 | JSON bodies with a content type are stored as they are, text read back as it is and binary data decoded; without one as raw uploads |
| PasteContent.LinkMeans | src/handler/paste.go:315-327 | A link is trimmed content that starts with http:// or https://, holds no blank and passes the URL check |
| PasteContent.RefusedIff | src/handler/paste.go:332-457 | An upload of any kind is refused if and only if it is too large, declared binary without being base-64, or blank and not encoded; and which of these is reported |
| PasteContent.UploadRefusedIff | src/handler/paste.go:424-457 | A raw or file upload is refused if and only if it is too large, or white space only and either empty or taken for text |
| PasteContent.EncodingIsNoLink | src/handler/paste.go:315-327 | Base-64 text is never a link and never blank |
| PasteContent.CachedContentExactIff | src/handler/paste.go:164-175 | A cached paste has the stored content if and only if that is valid UTF-8 |
| PasteContent.CachedBinaryIsExact | src/handler/paste.go:700-711 | Binary uploads survive the cache exactly |
| PasteContent.Latin1ChangesInCache | src/handler/paste.go:434-453 | A one-byte Latin-1 paste is returned exactly from the database and changed from the cache |
| PasteContent.CompatRawRoundTrip | src/handler/compat.go:532-544 | A compat paste read through the raw endpoint is the posted bytes |
| PasteContent.CompatReadExactIff | src/handler/compat.go:259-265 | The compat read routes return the posted bytes if and only if they were taken for text |
| Base64.RoundTrip | src/handler/paste.go:361-370 | Decoding undoes encoding, RFC 4648 section 4 |
| Base64.TestVectors | src/handler/paste.go:361-370 | The vectors of RFC 4648 section 10 |
| Base64.OnlyEncodable | src/handler/paste.go:421-424 | What decodes holds only the alphabet, pads and line breaks, in whole quads |
| PublicList.GetPublicPastes | src/database/database.go:472-521 | Answers with the number of visible pastes when they are counted and a page of them when they are listed: visibility 0, no expiry or one to come, newest first |
| PublicList.ListedIff | src/database/database.go:488-506 | Listing and count hold every paste of visibility 0 without an expiry or with one to come, and no other |
| PublicList.ListPastes | src/handler/paste.go:770-810 | Page and limit as asked for within 1 and 250, an answer of the query for them, and the number of pages that holds the total |
| PublicList.SweepIsInvisible | src/database/database.go:604-615 | Sweeping expired pastes at one time changes neither total nor page of any listing at a later time |
| PublicList.PageIsTrueIff | src/database/database.go:481 | An answer holds the page asked for if and only if the offset fits an int64 or what it wraps to lies past the end |
| PublicList.LargestPageShowsFirst | src/database/database.go:481 | The largest page number at the default limit shows the first page |
| PublicList.PagesCoverIff | src/handler/paste.go:770-800 | Whatever order ties get in each query, the pages concatenate to the whole listing if and only if no two pastes of one creation time stand on either side of the end of a page |
| PublicList.PagesFull | src/handler/paste.go:770-800 | Every page but the last is full |
| ApiTokens.TokenTable.CreateApiToken | src/database/database.go:853-869 | Inserts, or fails on a taken hash |
| ApiTokens.TokenTable.VerifyApiToken | src/database/database.go:874-915 | Accepts exactly an unrevoked token of the resource without an expiry or before it, and stamps its use |
| ApiTokens.TokenTable.ValidateApiToken | src/database/database.go:917-952 | The same for any resource of the kind, changing nothing |
| ApiTokens.CreatedAcceptedIff | src/database/database.go:853-972 | Over any later run that does not create its hash again a token is accepted if and only if it is asked for its own resource, its prefix has not been revoked since, and it has not expired |
| ApiTokens.TokenTable.RevokeApiToken | src/database/database.go:955-972 | Revokes every live token with the prefix, and says whether there was one |
| ApiTokens.CleanupIsInvisible | src/database/database.go:1050-1064 | In every later run that creates none of the removed hashes again, the cleanup changes no verdict; offering live tokens again is allowed |
| ApiTokens.RecreatedHashTells | src/database/database.go:319-321 | That premise cannot be weakened: for each removed hash a run that creates it again tells the cleanup |
| ApiTokens.LinkedIff | src/database/database.go:853-869 | Over every run a token comes to belong to a paste if and only if a creation for that paste finds its hash absent |
| ApiTokens.StaysWithFirst | src/database/database.go:853-869 | A token that no cleanup takes keeps its paste, and no creation links it to another, over every run |
| ApiTokens.ReuseLinksIff | src/handler/paste.go:515-563 | Whatever happens between validating a token and inserting it for a second paste, the insertion links it if and only if its hash is then absent, which takes a cleanup in between that removed the expired or revoked token |
| ApiTokens.ReuseBothWays | src/handler/paste.go:515-563 | The same token validated at 9 and inserted at 11 is not linked, and with a cleanup at 10 it is and opens the second paste |
| RateLimiter.IpBucket.Allow | src/server/ratelimit.go:21-41 | The in-place compaction leaves exactly the requests of the window; then admit and record, or refuse |
| RateLimiter.Limiter.Allow | src/server/ratelimit.go:61-72 | One request through the map of buckets is the request step of the machine |
| RateLimiter.Limiter.UpdateLimit | src/server/ratelimit.go:76-80 | Replaces the limit and nothing else |
| RateLimiter.Limiter.Gc | src/server/ratelimit.go:83-105 | Drops exactly the buckets without a recent request |
| RateLimiter.DecidesAsFullHistory | src/server/ratelimit.go:21-41 | Every run gets the answers of a limiter that keeps every admission for ever |
| RateLimiter.EveryWindowBounded | src/server/ratelimit.go:36-40 | The admissions in any window ending at y number at most the limit in force at the last of them |
| RateLimiter.LedgerHoldsAdmissions | src/server/ratelimit.go:36-40 | The history those bounds count is exactly the requests that were answered true, in order |
| RateLimiter.HousekeepingKeepsWindows | src/server/ratelimit.go:74-105 | Sweeps and limit changes alter no recorded window |
| RateLimiter.GcKeepsIff | src/server/ratelimit.go:83-105 | A sweep keeps exactly the buckets with a request of the last window |
| Ulid.EncodeCrockford | src/audit/ulid.go:33-51 | Writes the 26-digit base-32 numeral of the 128-bit value |
| Ulid.EncodingKeepsOrder | src/audit/ulid.go:30-51 | Identifiers are ordered as their values and equal only for equal bytes |
| Ulid.FirstCharacterAtMost7 | src/audit/ulid.go:31-32 | The first character is at most 7 |
| Ulid.OnlyAlphabet | src/audit/ulid.go:8-9 | Identifiers hold digits and capital letters only, without I, L, O and U |
| Ulid.DigitMeans | src/audit/ulid.go:8-9 | Which character stands for which value |
| Ulid.NewUlid | src/audit/ulid.go:15-28 | Six timestamp bytes and ten random bytes, encoded; an error when randomness fails |
| Ulid.TimestampPrefix | src/audit/ulid.go:16-27 | The first ten characters are the numeral of the 48-bit timestamp, the other sixteen of the randomness |
| Ulid.LaterSortsLater | src/audit/ulid.go:11-14 | Identifiers of different milliseconds sort by time |
| Ulid.NumeralRoundTrip | src/audit/ulid.go:33-51 | A numeral is read back as its value |
| Size.FormatParseIff | src/config/size.go:30-84 | Parsing a printed size gives it back if and only if the printed number has at most 53 significant bits |
| Size.FormatParseRoundTrip | src/config/size.go:30-84 | Every size up to 2^53 survives, whatever the default |
| Size.FirstSizeLost | src/config/size.go:43-51 | 2^53 + 1 bytes does not survive |
| Size.SizeMeans | src/config/size.go:30-62 | A number with b, kb, mb, gb or tb, a blank between or not, is that power of 1024 times it; a bare number is megabytes; empty text is the default |
| Size.CaseIsIgnored | src/config/size.go:30-36 | Upper and lower case mean the same |
| Size.RoundsToNearest | src/config/size.go:43-51 | Numbers are rounded to a nearest multiple of the last of 53 bits, ties to even |

## Left out

- Schedules.DurationOf: time.ParseDuration is a parameter; only the day form is computed.
- Size.ParseSize: strconv.ParseFloat on text other than plain digits is a parameter, case folding is ASCII, and an out-of-range conversion to int64 gives what amd64 gives.
- RateLimiter.Limiter.Allow: finding a bucket and updating it are one step; a sweep between the two, which the two locks permit, is not modelled.
- SchedulerMachine.AtMostOneInFlight: Start begins with nothing in flight and no loop of an earlier Start ticks while it runs (ExclusiveIff needs neither and is exact); RunNow and Stop are used after Start has returned, tasks are registered before it.
- SchedulerSpacing.TickStartsSpaced: within one process, because an execution lost in a crash leaves no record to keep a distance from.
- SchedulerCounts.CountersEqualHistory: a write that is issued succeeds; the nil database is not modelled.
- SchedulerObject.Scheduler.Tick: entries are values in the map, so a goroutine that holds an entry replaced by a second Register is not captured.
- LogRotation.NothingLost: rotations fall in distinct seconds; ConservedIff is the exact condition.
- LogWriter.FileWriter.WriteLine: one clock reading per call, no failing file operation, no compression, no renames by other programs, no second writer of the file.
- PasteProtocol.HitsCarryCreation: text fields are compared after JSON replacement, because the stronger claim is false; ids are not reused, which random generation does not strictly guarantee.
- PasteHandler.PasteHandler.GetPaste: the object runs one call at a time on one clock reading; interleaving is in PasteProtocol.
- PasteTable.Table.DeletePasteByToken: reading the hash and deleting are one step; in PasteProtocol a delete may come at any moment, whatever was read before.
- PublicList.PagesCoverIff: the table does not change between the pages, and holds at most 2^63 - 1 rows.
- ApiTokens.CleanupIsInvisible: no hash the cleanup removed is created again; the premise is shown to be needed.
- PasteContent.StoreContent: form fields are taken as parsed; the size caps of form parsing, and title, language, visibility and expiry handling, are not modelled.
- The one-time acknowledgement of the lenpaste read, GraphQL, HTML rendering, content negotiation and response headers: no deep state.
- SQL, the text encoding of stored times, Redis, gzip, goroutine scheduling and locks below the level of critical sections.
- Daylight-saving changes and time zones with second offsets.
- Hashing, encryption, random generation, notifications and metrics.
- Configuration, service installation, Tor and I2P, GeoIP, the updater and the command-line client.
