# pi-gateway protocols in Dafny

This project models the stateful protocols of pi-gateway and proves what they keep over whole
runs. Each component has a reference in functions or a transition system, an imperative form in
the shape of the source (classes whose methods update fields, loops with invariants) proved equal
to it, and lemmas that say what the reference means.

| files | component |
|---|---|
| `session_protocol`, `session_runs`, `session_frames`, `session_queue`, `session_debounce`, `l1_adapter_guard`, `events` | the per-session turn guard: steps cut at every await, over all interleavings of arrivals, frames, timers and spawn failures |
| `schedule`, `cron_times`, `cron_store`, `cron_history`, `cron_job_table`, `cron_runs`, `cron_dues`, `cron_courses`, `cron_scheduler`, `cron_expressions`, `civil_days` | the cron engine, the job table, ticks with crash points between store transactions, and the tick over the table, left alone or among other processes |
| `usage`, `usage_attribution`, `token_writer` | token accounting: coalescing, application, and the writer, flush and stop protocol |
| `alternation_repair` | the three-pass history repair and its flush cursor |
| `replay_dedupe` | the dedupe of replayed user rows |
| `approval_queue`, `approval_gate`, `approval_answers`, `approval_waits`, `human_wait` | exec approvals: queue objects, the gate with coalesced followers as a transition system and as the stretches between its awaits, human-wait accounting |
| `turn_leases` | the lineage walk and lease-fenced transcript writes |
| `wal_ladder`, `wal_outcomes` | the journal-mode ladder against a port that may answer anything |
| `discovery` | the chunked session-header reader |
| `text`, `sequences` | shared vocabulary |

Conventions. A run is a sequence of labels; `After` gives the state it reaches, or none when a step
was not possible. Fields named `log`, `answers`, `departed`, `issued`, `handedGroups` and the like
are histories that the source does not keep; nothing the source does reads them. Clocks, fresh ids,
spawn results, pragma answers, process liveness, timer expiry and the calendar are parameters of
the steps. Times are integers in milliseconds in the cron, guard and store models and reals in
the lease and human-wait models. Text is a sequence of characters; case folding covers ASCII.

Where the code does not keep what its comments or tests promise, a lemma gives an input and another
the exact condition:

- A debounce timer can fill the slot of an idle session, where nothing looks at it
  (`IdleTimerStrands`, `StrandedSlot`); a re-arm can pass the hard cap after a blocked flush
  (`RearmWithinCap`, `CapOverRuns`, `CapExceeded`); a third speaker's text is lost
  (`NothingLostExactly`).
- The cron day rule differs from POSIX.1-2017 where month and day of week are both restricted
  (`DayRuleAgainstPosix`, `MondayInFebruary`). One slot of a recurring job can be claimed twice
  when its schedule lapses, as that of a leap day followed by none for five years does
  (`ClaimedTwiceExactly`, `SlotRepeatsExactly`, `ClaimedTwiceIn2096`).
- A one-shot is listed as due from its creation on, not from its time on (`OneShotIsDue`,
  `FiresEarlyExactly`, `AnHourEarly`).
- A cron run on the error path reports that it wrote results even when its mark was refused
  (`CronCourses.WrittenExactly`, `ClaimTaken`, `JobRemoved`).
- Coalescing preserves meaning for non-negative deltas, non-empty route strings and rows whose call
  count is not negative; `EmptyStringRouteDiffers`, `NegativeDeltaDiffers` and `NegativeCountDiffers`
  show that each is needed, and `RowAgreesExactly` says when two deltas agree with their sum on a row.
- Repair can leave two adjacent assistant turns, and is then not idempotent
  (`AssistantsStayAdjacent`, `AdjacentAssistantsRemain`). Prose of a merged later turn is dropped
  when the survivor has prose and not both turns are plain text (`MergePartsAdopts`,
  `LaterWordsAreLost`); the comment at the head of that file says a thinking block is then picked
  up, which the code does only for a survivor without prose.
- Dedupe is not idempotent when a clone moves past a reply onto another survivor
  (`IdempotentExactly`, `SecondRunDropsMore`).
- A follower of an approval whose prompt failed or whose leader timed out waits on an entry that
  nobody can settle, until its own deadline (`FollowerCanBeSettled`, `OrphansAreGivenUp`,
  `FollowerOfFailedPrompt`, `FollowerOfTimedOutLeader`).
- On a cycle of continued sessions the members have different lineage roots
  (`ContinuationSharesRoot`, `CycleSplitsRoots`).
- A second acquire by the holder of a turn lease is won and does not extend the lease
  (`AcquiredUntil`, `ReacquireDoesNotExtend`).
- The journal-mode ladder reports a mode that the port did not confirm when the last answer was not
  conclusive, which some settings rule out (`ReturnedMode`, `ConfirmsExactly`,
  `ReportsDeleteUnconfirmed`); a required WAL is not enforced under a vulnerable library or an
  operator's delete (`RequiredWalExactly`).
- The token writer's active flag can be clear while a worker still lives (`FlagTracksWorkers`,
  `ClearedFlagLiveWorker`).

## Model

| member | source | states |
|---|---|---|
| `SessionRuns.SingleFlight` | src/pi_gateway/guards/l1-adapter-guard.ts:529-586 | in every reachable state a key has a guard iff it has an owner iff an unfinished frame owns it; at most one frame is inside the handler; a filled slot has an owner still ahead of its late-arrival check; healing finds nothing |
| `SessionRuns.HealNeedsFailedLateSpawn` | src/pi_gateway/guards/l1-adapter-guard.ts:381-403 | the stale-lock heal changes nothing unless a spawn failed at a late-arrival check, whatever happened at the other spawns |
| `SessionRuns.Ownership` | src/pi_gateway/guards/l1-adapter-guard.ts:770-822 | whatever spawns fail, owner, guard and frames stay consistent and a filled slot always has an owner |
| `SessionRuns.IdleTimerStrands` | src/pi_gateway/guards/l1-adapter-guard.ts:981-1001 | a debounce timer leaves a slot nobody will look at exactly when it fires on an idle session |
| `SessionDebounce.StrandedSlot` | src/pi_gateway/guards/l1-adapter-guard.ts:967-974 | a run in queue mode, all spawns succeeding, that ends with a filled slot and an idle session |
| `SessionRuns.FifoRefinement` | src/pi_gateway/guards/l1-adapter-guard.ts:573-579 | over every run in interrupt mode, the fragments of the turns handed over, then of the turn about to start, then of the slot, are the arrivals in order: none lost, repeated or moved |
| `SessionRuns.NothingLost` | src/pi_gateway/guards/l1-adapter-guard.ts:770-815 | media of all traffic, and the text of plain text, read the same handed over and waiting as they arrived |
| `SessionRuns.QuiescentMeansDelivered` | src/pi_gateway/guards/l1-adapter-guard.ts:816-822 | once every frame has settled, everything that arrived was handed over and the session is idle |
| `SessionRuns.ArrivalShape` | src/pi_gateway/guards/l1-adapter-guard.ts:524-586 | with a live owner an arrival starts a turn, joins the slot, or goes inline; nothing else happens |
| `SessionRuns.InterruptModeHasNoTimer` | src/pi_gateway/guards/l1-adapter-guard.ts:896-904 | outside queue mode nothing is ever buffered and no timer is armed |
| `SessionProtocol.OwnedStep` | src/pi_gateway/guards/l1-adapter-guard.ts:712-822 | every step keeps ownership consistent and a filled slot owned |
| `SessionProtocol.LiveStep` | src/pi_gateway/guards/l1-adapter-guard.ts:861-891 | every step keeps the owner ahead of its late-arrival check |
| `SessionFrames.ReplyIsSent` | src/pi_gateway/guards/l1-adapter-guard.ts:748-760 | over every run, between the answer of a turn's handler and its drain the reply is sent iff, as the handler answered, the turn's interrupt was not set or no event was waiting |
| `SessionFrames.Itinerary` | src/pi_gateway/guards/l1-adapter-guard.ts:730-822 | every turn of every run makes its stops in one order: start, handler, then by outcome the reply or a notice, the drain except after a cancellation or an unsent reply, the late-arrival check, done |
| `SessionFrames.TurnGoesOn` | src/pi_gateway/guards/l1-adapter-guard.ts:730-822 | in every reachable state an unfinished turn can take the next stop of that order |
| `SessionFrames.FlagMeans` | src/pi_gateway/guards/l1-adapter-guard.ts:764-815 | in every reachable state an interrupt is set iff it was raised while installed and no drain of its turn handed on a waiting event since |
| `SessionFrames.NewInterrupt` | src/pi_gateway/guards/l1-adapter-guard.ts:410-435 | a turn started by an arrival has an interrupt of its own that is not set and that no earlier turn has |
| `SessionQueue.EveryArrivalCounted` | src/pi_gateway/guards/l1-adapter-guard.ts:477-587 | in every mode and whatever spawns fail, each arrival is once in a turn handed over, in the turn about to be, in the slot, in the buffer, or lost |
| `SessionQueue.NothingLostExactly` | src/pi_gateway/guards/l1-adapter-guard.ts:919-944 | over runs whose spawns succeed something is lost iff a text arrived that could join neither the buffer of one sender nor the slot of another |
| `SessionQueue.BurstsAreSaid` | src/pi_gateway/guards/l1-adapter-guard.ts:945-1001 | over every run of plain texts, in queue mode or not, each turn and whatever waits says the fragments folded into it line by line; a buffered burst goes by its last id and anchor |
| `SessionQueue.ArmedFor` | src/pi_gateway/guards/l1-adapter-guard.ts:907-975 | a buffered text is due a window later, or at the hard cap of its burst if that is sooner, and at once when it has passed |
| `SessionQueue.CanMergeMeans` | src/pi_gateway/guards/events.ts:257-283 | two events may share a burst iff both have a source, of one platform and one sender, or of one direct chat when no sender is given |
| `SessionQueue.CommandMeans` | src/pi_gateway/guards/events.ts:57-63 | a command is a text allowed to control whose first visible character is a slash |
| `SessionDebounce.NoMixedSpeakers` | src/pi_gateway/guards/l1-adapter-guard.ts:919-944 | over every run of candidate texts, slot, buffer and every turn hold fragments of one sender identity each |
| `SessionDebounce.RearmWithinCap` | src/pi_gateway/guards/l1-adapter-guard.ts:907-975 | whatever the state, an arrival leaves the armed flush within first arrival plus hard cap exactly unless it extends a buffer whose cap has already passed |
| `SessionDebounce.CapOverRuns` | src/pi_gateway/guards/l1-adapter-guard.ts:907-1001 | over every run the armed flush stays within the cap in every state iff no arrival extended a buffer past its cap; with timers on time, iff no arrival extended a buffer past its cap whose flush another sender had blocked |
| `SessionDebounce.CapExceeded` | src/pi_gateway/guards/l1-adapter-guard.ts:981-995 | a run with every timer on time that reaches a re-arm past the hard cap |
| `GuardEvents.MergeAllMedia` | src/pi_gateway/guards/events.ts:175-242 | merging a burst keeps every attachment in order |
| `GuardEvents.MergeAllText` | src/pi_gateway/guards/events.ts:175-242 | merging plain texts joins them by newlines in order |
| `GuardEvents.MergeReplaces` | src/pi_gateway/guards/events.ts:225-242 | the newest event wins in exactly one row of the merge table; in every other the slot keeps its sender, message and reply, and only kind, text and media change |
| `GuardEvents.BlocksMean` | src/pi_gateway/guards/events.ts:143-153 | the blocks of a caption are the trimmed texts between its blank lines |
| `GuardEvents.CaptionMeans` | src/pi_gateway/guards/events.ts:143-153 | a caption that is a block of the old one is not added again |
| `GuardEvents.MergeKeepsTypes` | src/pi_gateway/guards/events.ts:183-227 | every attachment keeps its type; with media, captions merge the older first, and the kind is photo if either is |
| `AdapterGuard.AdapterSessionGuard.HandleMessageFor` | src/pi_gateway/guards/l1-adapter-guard.ts:477-587 | ingress takes the key through the protocol's arrival step and touches no other key |
| `AdapterGuard.AdapterSessionGuard.StartSessionProcessing` | src/pi_gateway/guards/l1-adapter-guard.ts:410-435 | guard and owner are installed together or rolled back |
| `AdapterGuard.AdapterSessionGuard.HealStaleSessionLock` | src/pi_gateway/guards/l1-adapter-guard.ts:392-403 | guard, slot, owner and buffer of a stale key are removed, nothing else |
| `AdapterGuard.AdapterSessionGuard.EnterFrame` | src/pi_gateway/guards/l1-adapter-guard.ts:718-734 | a frame takes over the installed interrupt, or reinstalls its own |
| `AdapterGuard.AdapterSessionGuard.AfterHandler` | src/pi_gateway/guards/l1-adapter-guard.ts:730-764 | what a handler's outcome does: reply, silence, failure notice, cancellation |
| `AdapterGuard.AdapterSessionGuard.InBandDrain` | src/pi_gateway/guards/l1-adapter-guard.ts:764-779 | the in-band drain pops the slot and hands ownership to a fresh frame |
| `AdapterGuard.AdapterSessionGuard.LateArrivalCheck` | src/pi_gateway/guards/l1-adapter-guard.ts:793-822 | the late-arrival check re-queues, spawns, or cleans up |
| `AdapterGuard.AdapterSessionGuard.TrySpawnDrain` | src/pi_gateway/guards/l1-adapter-guard.ts:870-891 | a drain frame inherits the live guard; a failed spawn loses the event |
| `AdapterGuard.AdapterSessionGuard.MergePendingEvent` | src/pi_gateway/guards/events.ts:175-242 | one arrival merges into the slot of its key only |
| `AdapterGuard.AdapterSessionGuard.FlushTextDebounceNow` | src/pi_gateway/guards/l1-adapter-guard.ts:981-1001 | a buffer moves into the slot unless another speaker holds it |
| `AdapterGuard.AdapterSessionGuard.BufferText` | src/pi_gateway/guards/l1-adapter-guard.ts:919-975 | buffering, mixed-sender flush and re-arm of one key |
| `CronSchedules.CronNextIsLeast` | src/pi_embedded/cron/schedule.ts:240-267 | the next run is the least whole minute strictly later that matches, and none exactly when none matches before the five-year bound or the expression is invalid |
| `CronSchedules.CronNextAfter` | src/pi_embedded/cron/schedule.ts:240-267 | the scan written as a loop computes that function |
| `CronSchedules.ParseField` | src/pi_embedded/cron/schedule.ts:157-198 | the parsed set of a field is what its pieces select; an invalid piece fails the field |
| `CronSchedules.DayRuleAgainstPosix` | src/pi_embedded/cron/schedule.ts:225-238 | for every valid expression and civil date the day rule agrees with the crontab utility of POSIX.1-2017 (Shell and Utilities) iff not both month and day of week are restricted in the stated ways |
| `CronExpressions.MondayInFebruary` | src/pi_embedded/cron/schedule.ts:225-238 | under 0 0 * 1 1 a Monday in February and a Tuesday in January match by POSIX and not here |
| `CronTimes.FiresWhen` | src/pi_embedded/cron/schedule.ts:200-261 | exactly the whole minutes fire whose minute of the hour, hour of the day, month, day and weekday the five words select, day and weekday by either when both are restricted |
| `CronTimes.NextWithin` | src/pi_embedded/cron/schedule.ts:240-267 | the next run is the first instant to fire after the given one, and none iff none fires within five years of 366 days |
| `CronTimes.InvalidNeverFires` | src/pi_embedded/cron/schedule.ts:200-212 | an expression that is not five valid words never fires |
| `CronTimes.DailyNext` | src/pi_embedded/cron/schedule.ts:240-267 | m h * * * fires next at the next h:m, on any civil calendar |
| `CronTimes.WeeklyNext` | src/pi_embedded/cron/schedule.ts:213-238 | m h * * d fires next at the first h:m on weekday d, 0 and 7 both Sunday, and within a week |
| `CronTimes.HalfPastNine` | src/pi_embedded/cron/schedule.ts:240-267 | 30 9 * * * fires at 09:30, day after day |
| `CronTimes.ListField` | src/pi_embedded/cron/schedule.ts:157-198 | a list stands for what its parts stand for, and is invalid when one of them is |
| `CronTimes.RangeField` | src/pi_embedded/cron/schedule.ts:157-198 | a range a-b stands for all values from a to b |
| `CronTimes.SteppedStart` | src/pi_embedded/cron/schedule.ts:183-184 | a start with a step, as 5/15, runs to the upper bound of the field |
| `CronTimes.SteppedRange` | src/pi_embedded/cron/schedule.ts:157-198 | a range with a step stands for every step of it |
| `CronTimes.SteppedStar` | src/pi_embedded/cron/schedule.ts:175-178 | a star with a step runs from the lower bound |
| `CronTimes.OutOfBounds` | src/pi_embedded/cron/schedule.ts:186-194 | a number outside the bounds of its field is invalid |
| `CronTimes.DailyCadence` | src/pi_embedded/cron/schedule.ts:334-374 | the cadence of a daily job is a day and its catch-up grace two hours |
| `CronSchedules.NextRunIsLater` | src/pi_embedded/cron/schedule.ts:289-314 | a recurring schedule computes strictly later and, for cron, on a matching minute |
| `CronSchedules.CatchupGrace` | src/pi_embedded/cron/schedule.ts:334-374 | the catch-up grace is half the period rounded down, held between its floor and ceiling, and the floor when there is no period |
| `CronStore.EveryWriterRecomputes` | src/pi_embedded/cron/store.ts:487-749 | every writer leaves the next run alone, clears it, recomputes it from now on behalf of a job not run or just run, or moves an interval job to now |
| `CronStore.WritersAreLegal` | src/pi_embedded/cron/store.ts:392-749 | through every writer a cron job's next run matches its expression, and a changed one lies after the instant of writing |
| `CronStore.NewJobsAreLegal` | src/pi_embedded/cron/store.ts:356-390 | a new job's next run is legal; creation fails exactly for a one-shot past its grace |
| `CronRuns.StaysLegal` | src/pi_embedded/cron/store.ts:356-749 | from a job's creation on, after any operations at any instants, the next run of a cron job matches its expression |
| `CronRuns.MarksCarryLatestClaim` | src/pi_embedded/cron/store.ts:694-749 | over every run an owner-checked mark can only succeed with the token of the latest claim, and with a token that has not marked |
| `CronRuns.LostStaysLost` | src/pi_embedded/cron/store.ts:601-680 | a token that lost its claim never regains it |
| `CronRuns.LostTokenIsPowerless` | src/pi_embedded/cron/store.ts:638-680 | a lost token can neither heartbeat, clear nor mark, ever again |
| `CronRuns.RunningOwnsClaim` | src/pi_embedded/cron/scheduler.ts:202-267 | in every run of serialized ticks a claim that stands while a tick runs the job is that tick's own |
| `CronRuns.SlotsIncrease` | src/pi_embedded/cron/scheduler.ts:202-267 | with serialized ticks, a non-decreasing clock and crashes anywhere, the slots claimed for a recurring job strictly increase, through fast-forward, re-arm, pause, resume and update, while its schedules never lapse: never find a run at one instant and none once that run is due |
| `CronRuns.IntervalSlotsIncrease` | src/pi_embedded/cron/scheduler.ts:202-267 | for interval jobs of at least a minute the claimed slots strictly increase without any condition |
| `CronRuns.ClaimedTwiceExactly` | src/pi_embedded/cron/store.ts:570-636 | from its creation on, and without operators, a recurring job can have one slot claimed twice iff its schedule lapses |
| `CronRuns.SlotRepeatsExactly` | src/pi_embedded/cron/store.ts:570-636 | from any state with a due slot in which claimed slots increase so far, ticks and crashes can claim that slot twice iff, then or later, the job is unclaimed at an instant at which its schedule finds no next run |
| `CronRuns.SameSlotTwice` | src/pi_embedded/cron/store.ts:582-598 | from the creation of a job with a lapsing schedule, a run with one crash between claim and mark claims one slot twice |
| `CronExpressions.LeapDayClaimedTwice` | src/pi_embedded/cron/store.ts:582-598 | the job 0 0 29 2 *, created just before a leap day with none for 1830 days after it, can be claimed twice for that day |
| `CronExpressions.ClaimedTwiceIn2096` | src/pi_embedded/cron/schedule.ts:225-238 | in the civil calendar that day is 29 February 2096 |
| `CivilDays.DaysFollow` | src/pi_embedded/cron/schedule.ts:225-238 | the calendar used for it takes every date to the next civil one |
| `CronRuns.OneShotMarkedAtMostOnce` | src/pi_embedded/cron/scheduler.ts:251-380 | a job that stays one-shot is marked at most once over every run |
| `CronDues.OneShotIsDue` | src/pi_embedded/cron/store.ts:499-520 | over every run from creation without operators a one-shot is completed unmarked iff a tick listed it later than two minutes past its time; until then every tick lists it, for its time, and changes nothing |
| `CronDues.OneShotCanFire` | src/pi_embedded/cron/store.ts:499-520 | unless a claim stands, that tick can run the job and mark it, once and for all |
| `CronDues.FiresEarlyExactly` | src/pi_embedded/cron/store.ts:499-520 | a one-shot can be claimed before its time iff it is created before its time |
| `CronDues.AnHourEarly` | src/pi_embedded/cron/store.ts:499-520 | a one-shot for the next hour is run and marked by a tick at its creation |
| `CronDues.RecurringIsDue` | src/pi_embedded/cron/store.ts:532-546 | a runnable recurring job is listed as soon as its slot is no later than the clock; before, only a wedged interval job is, for the present |
| `CronDues.ListingFastForwards` | src/pi_embedded/cron/store.ts:548-559 | listing moves the next run on iff the slot is older than the grace, and then to the next run from now |
| `CronDues.WedgedInterval` | src/pi_embedded/cron/store.ts:232-246 | an interval job is wedged iff it failed, no claim stands, and a period and half of it, within two minutes and two hours, have passed since |
| `CronHistory.RecordTells` | src/pi_embedded/cron/store.ts:694-749 | in any run from creation the record tells instant and status of the last mark it took, and counts the failures in a row up to it |
| `CronHistory.ClaimMoves` | src/pi_embedded/cron/store.ts:601-680 | a claim is taken when none stands, renewed by its owner while it stands, and ended by its owner's clear or an accepted mark; nothing else touches it |
| `CronHistory.MarkedState` | src/pi_embedded/cron/store.ts:706-747 | a mark completes a one-shot; a recurring job it parks on the next run from now, paused if it was paused, else scheduled, in error without a next run |
| `CronHistory.OperatorsMean` | src/pi_embedded/cron/store.ts:392-460 | pause, resume and update, and what they refuse |
| `CronHistory.ClaimAdvances` | src/pi_embedded/cron/store.ts:570-636 | a claim or an advance moves a recurring job to its next run from now, and no one-shot |
| `CronHistory.FlagsForwarded` | src/pi_embedded/cron/store.ts:548-559 | a due job is flagged as fast-forwarded iff its slot is older than the grace and there is a next run |
| `CronJobTable.CronJobStore.GetDueJobs` | src/pi_embedded/cron/store.ts:487-563 | the whole table after due computation, and the due list in table order |
| `CronJobTable.CronJobStore.AdvanceNextRuns` | src/pi_embedded/cron/store.ts:570-598 | exactly the listed recurring jobs move on; returns how many did |
| `CronJobTable.MovedCounts` | src/pi_embedded/cron/store.ts:570-598 | the count returned is the number of listed recurring records that have a next run |
| `CronJobTable.CronJobStore.ClaimJobForFire` | src/pi_embedded/cron/store.ts:601-636 | a fresh claim by someone else refuses; otherwise the job carries the new token |
| `CronJobTable.CronJobStore.HeartbeatRunClaim` | src/pi_embedded/cron/store.ts:638-664 | only the owner extends its claim |
| `CronJobTable.CronJobStore.ClearRunClaim` | src/pi_embedded/cron/store.ts:666-680 | only the owner clears its claim |
| `CronJobTable.CronJobStore.MarkJobRun` | src/pi_embedded/cron/store.ts:694-749 | an owner-checked mark records the run and re-arms, or changes nothing |
| `CronJobTable.CronJobStore.CreateJob` | src/pi_embedded/cron/store.ts:356-390 | a created job is appended with a computed next run |
| `CronJobTable.CronJobStore.RemoveJob` | src/pi_embedded/cron/store.ts:462-471 | exactly the records with the id are gone; true iff there was one |
| `CronJobTable.CronJobStore.Reschedule` | src/pi_embedded/cron/store.ts:392-426 | an update recomputes the next run from now; it is refused iff the job is there, not paused, and becomes a one-shot past its grace |
| `CronJobTable.CronJobStore.ResumeJobById` | src/pi_embedded/cron/store.ts:443-460 | resuming re-enables and recomputes; it is refused iff the job is there and is a one-shot past its grace |
| `CronJobTable.CronJobStore.PauseJobById` | src/pi_embedded/cron/store.ts:428-441 | pausing only disables |
| `CronTicks.TickTreatsEachJob` | src/pi_embedded/cron/scheduler.ts:202-236 | a tick left alone, over a table without repeated ids, takes a record that is not due through the due computation only, and runs a due one exactly once, after all were advanced |
| `CronTicks.TickIsARun` | src/pi_embedded/cron/scheduler.ts:251-380 | what a tick does to a due job, heartbeats and a rejecting runner included, is a run of the tick machine that ends where a tick may start |
| `CronTicks.CompletionIsMarked` | src/pi_embedded/cron/scheduler.ts:331-349 | uninterrupted, a completion is never discarded; a run that says it wrote is stamped and its claim released |
| `CronTicks.LeftAloneAll` | src/pi_embedded/cron/scheduler.ts:202-236 | with nobody else acting and nothing throwing, the due jobs among others run as the uninterrupted ones |
| `CronCourses.WrittenExactly` | src/pi_embedded/cron/scheduler.ts:269-380 | whatever others do to the jobs file between the heartbeats and before the end, and whichever operations throw: a run says it wrote results and wrote none iff it went down the error path and the error mark threw or found the job gone or its claim no longer its own; every other report is true, and all that is ever written is the mark |
| `CronCourses.ThrowingBeats` | src/pi_embedded/cron/scheduler.ts:278-285 | heartbeats that throw neither renew the claim nor find it lost |
| `CronCourses.ClaimTaken` | src/pi_embedded/cron/scheduler.ts:359-378 | a new job whose expired claim another process takes during the run, whose runner then rejects: the report says written, the record was not stamped and belongs to the other |
| `CronCourses.JobRemoved` | src/pi_embedded/cron/scheduler.ts:359-378 | a job removed while it runs, whose runner then rejects: the report says written and the table is empty |
| `CronTicks.EachRunsOnce` | src/pi_embedded/cron/scheduler.ts:228-231 | each due job runs once, from the record it had |
| `CronTicks.CronScheduler.TickOnce` | src/pi_embedded/cron/scheduler.ts:202-236 | nothing without the lock or under the emergency stop; otherwise list, advance all, then run one after another |
| `CronTicks.CronScheduler.RunDueJob` | src/pi_embedded/cron/scheduler.ts:239-249 | one due job end to end among other processes, in flight for exactly that long |
| `CronTicks.CronScheduler.RunDueJobRegistered` | src/pi_embedded/cron/scheduler.ts:251-380 | claim, run under heartbeats, mark with the claim's token; a runner that rejects or a mark that throws goes down the error path |
| `CronTicks.CronScheduler.PersistError` | src/pi_embedded/cron/scheduler.ts:359-378 | the error path marks a failed run if it can and reports it either way |
| `CronTicks.CronScheduler.Monitor` | src/pi_embedded/cron/scheduler.ts:270-287 | heartbeats until one finds the claim lost or the job gone; one that throws counts as alive |
| `TokenUsage.CoalescePreservesMeaning` | src/pi_state/usage.ts:107-133 | applying the coalesced batch leaves every sessions row, and the usage counters summed over tasks for every session and route, the same as applying the raw batch |
| `TokenUsage.CoalesceIdempotent` | src/pi_state/usage.ts:107-133 | coalescing twice changes nothing more |
| `TokenUsage.BatchingIsInvisible` | src/pi_state/usage.ts:551-619 | wherever the queue is cut into batches, the tables mean the deltas in order |
| `UsageAttribution.BookedWhereNamed` | src/pi_state/usage.ts:194-197 | a delta that names model, provider, base URL and mode adds its counters and estimated cost to that route of its session and to no other, whatever the sessions row holds |
| `UsageAttribution.BookedOnce` | src/pi_state/usage.ts:178-238 | a delta is booked on one route: column by column what it names, else what the sessions row holds after it; an absolute one on none |
| `UsageAttribution.BatchIsBooked` | src/pi_state/usage.ts:178-238 | over a batch the total of every route grows by the sum over the deltas that name it |
| `UsageAttribution.CoalescedIsBooked` | src/pi_state/usage.ts:107-133 | so it does when a regular batch is coalesced |
| `UsageAttribution.TaskIsBooked` | src/pi_state/usage.ts:198-238 | counting deltas are booked with their actual cost under their own task, no other is booked |
| `UsageAttribution.RowsAreUnique` | src/pi_state/usage.ts:206-220 | from an empty table deltas make one row for each route and task |
| `UsageAttribution.AbsoluteSets` | src/pi_state/usage.ts:269-400 | an absolute delta sets counters and costs of its row and books nothing |
| `UsageAttribution.EachModelItsOwn` | src/pi_state/usage.ts:194-197 | one call on each of two models is one call booked on each |
| `TokenUsage.ApplyAbsorbed` | src/pi_state/usage.ts:269-407 | applying a merged delta means the same as applying its two parts |
| `TokenUsage.RowAgreesExactly` | src/pi_state/usage.ts:269-346 | two deltas of one route, of any sign and on any call count, leave a sessions row as their sum does iff the sum touches its route columns (not at all, filling nulls, or stamping) as the stronger of the two in turn does |
| `TokenUsage.EmptyStringRouteDiffers` | src/pi_state/usage.ts:91-105 | an empty route string shares a key with an absent one and then changes the model column |
| `TokenUsage.NegativeDeltaDiffers` | src/pi_state/usage.ts:151-162 | two deltas that cancel are no usage once merged, so the route is never stamped |
| `TokenUsage.NegativeCountDiffers` | src/pi_state/usage.ts:108-133 | on a row that counts minus one calls two regular deltas stamp the route one by one and not when coalesced |
| `TokenUsage.CoalesceTokenDeltas` | src/pi_state/usage.ts:107-133 | the loop computes the coalescing function |
| `TokenUsage.StateDb.ApplyTokenCountsInTx` | src/pi_state/usage.ts:269-407 | row creation, route stamp, counters and usage attribution of one delta |
| `TokenUsage.StateDb.UpsertUsage` | src/pi_state/usage.ts:178-238 | insert, or add to the row with the same route and task |
| `TokenUsage.StateDb.ApplyBatch` | src/pi_state/usage.ts:589-619 | a batch goes in coalesced; if it is regular and no row counts a negative number of calls, the tables mean its deltas in order |
| `TokenWriting.WriterConserves` | src/pi_state/usage.ts:515-587 | in every reachable state applied then queued is what was enqueued, in order; an active flag or a non-empty queue has a live worker |
| `TokenWriting.TablesMeanThePuts` | src/pi_state/usage.ts:589-618 | from tables whose rows count no negative calls, and for regular deltas, in every reachable state the tables mean the deltas of the batches one by one; batches and queue hold each delta that callers handed over once, and in the order of the calls until one came after a stop |
| `TokenWriting.FlushIsBarrier` | src/pi_state/usage.ts:630-655 | a true result means every delta enqueued before the call was applied |
| `TokenWriting.FlushReturns` | src/pi_state/usage.ts:630-655 | a flush returns true at once when nothing is queued, or with the queue applied by itself when no worker is at work; false only on its time-out |
| `TokenWriting.FlushGoesOn` | src/pi_state/usage.ts:630-655 | and so whenever it is woken |
| `TokenWriting.StopMeans` | src/pi_state/usage.ts:662-697 | a stop waits while a worker is at work until it times out, and else applies what is left |
| `TokenWriting.StopGoesOn` | src/pi_state/usage.ts:662-697 | and so whenever it is woken |
| `TokenWriting.StoppedSince` | src/pi_state/usage.ts:662-663 | the writer is stopped exactly from the first call of stop on |
| `TokenWriting.WorkersEnd` | src/pi_state/usage.ts:529-587 | which workers wait, retire and are gone after each step |
| `TokenWriting.StopDrainsAll` | src/pi_state/usage.ts:662-699 | a stop that does not time out leaves nothing unapplied |
| `TokenWriting.ClearedFlagLiveWorker` | src/pi_state/usage.ts:539-548 | a run in which an exiting worker clears the flag of a newer one |
| `TokenWriting.FlagTracksWorkers` | src/pi_state/usage.ts:494-587 | in every state of a run the flag says whether a worker is alive iff no worker retired or exited while another was waiting |
| `TokenWriting.TokenWriter.QueueTokenCounts` | src/pi_state/usage.ts:515-532 | enqueue, spawn if needed, or apply directly after stop |
| `TokenWriting.TokenWriter.WorkerLoop` | src/pi_state/usage.ts:551-587 | the worker from loop head to its next wait or retirement |
| `TokenWriting.TokenWriter.FlushTokenCounts` | src/pi_state/usage.ts:630-655 | the flush barrier up to its first wait |
| `TokenWriting.TokenWriter.StopTurnNow` | src/pi_state/usage.ts:662-699 | one turn of stop: wait, give up, or drain |
| `AlternationRepair.NothingToRepair` | src/pi_agent_core/alternation-repair.ts:83-185 | zero repairs exactly when the input has no adjacent assistants, no stray or duplicate tool result and no adjacent plain-text users; then nothing changes |
| `AlternationRepair.RepairCharacterized` | src/pi_agent_core/alternation-repair.ts:83-185 | afterwards every tool result answers a once-consumed call of the nearest assistant with no user between, plain-text users are never adjacent, all calls survive in order, and so does all user text |
| `AlternationRepair.AssistantsStayAdjacent` | src/pi_agent_core/alternation-repair.ts:128-151 | assistants are adjacent after the repair, and a second repair finds something to do, iff the history has two assistant turns with nothing but results that answer no call of the turns before them in between |
| `AlternationRepair.AdjacentAssistantsRemain` | src/pi_agent_core/alternation-repair.ts:128-151 | assistant, orphan result, assistant is repaired to two adjacent assistants |
| `AlternationRepair.MergePartsKeepsCalls` | src/pi_agent_core/alternation-repair.ts:87-121 | merging two assistant turns keeps the calls of both in order |
| `AlternationRepair.MergePartsJoins` | src/pi_agent_core/alternation-repair.ts:92-110 | two plain-text turns keep both texts, trimmed and joined by a newline |
| `AlternationRepair.MergePartsAdopts` | src/pi_agent_core/alternation-repair.ts:111-121 | otherwise later prose is adopted by a turn with only calls and dropped by any other |
| `AlternationRepair.LaterWordsAreLost` | src/pi_agent_core/alternation-repair.ts:93-121 | a later turn of one thought and one text, merged into a turn of text, loses both |
| `AlternationRepair.RepairedIsSubsequence` | src/pi_agent_core/alternation-repair.ts:83-185 | the repaired list is a subsequence of the input by identity |
| `AlternationRepair.CursorSeparates` | src/pi_agent_core/alternation-repair.ts:360-379 | with distinct messages and a cursor inside the list, everything before the returned cursor was flushed and everything from it on was not |
| `AlternationRepair.CursorElsewhere` | src/pi_agent_core/alternation-repair.ts:360-379 | without repairs, or not beyond the start, the cursor stays; beyond the end it counts as at the end |
| `AlternationRepair.LiveHistory.RepairMessageSequence` | src/pi_agent_core/alternation-repair.ts:79-185 | the rewrite in place, and a count equal to what the list lost in length |
| `AlternationRepair.LiveHistory.CollapsePass` | src/pi_agent_core/alternation-repair.ts:83-126 | the first pass as a loop |
| `AlternationRepair.LiveHistory.StrayPass` | src/pi_agent_core/alternation-repair.ts:128-151 | the second pass as a loop over a set of open call ids |
| `AlternationRepair.LiveHistory.UserPass` | src/pi_agent_core/alternation-repair.ts:153-176 | the third pass as a loop |
| `AlternationRepair.LiveHistory.RepairMessageSequenceWithCursor` | src/pi_agent_core/alternation-repair.ts:360-379 | repair and recomputed cursor, clamped when there was no flushed prefix |
| `ReplayDedupe.KeepsTheSurvivors` | src/pi_state/messages.ts:450-482 | for every list of rows, what the loop keeps is the rows no later clone replaces and that were no repeat or a clone of an admitted row, in order |
| `ReplayDedupe.KeptRowsAreDistinct` | src/pi_state/messages.ts:450-482 | surviving clone keys are pairwise distinct, and every non-user row survives |
| `ReplayDedupe.AsksAreKept` | src/pi_state/messages.ts:450-482 | the set of user contents is the same before and after |
| `ReplayDedupe.WithoutClones` | src/pi_state/messages.ts:340-363 | with distinct keys a row is dropped exactly when the same ask lies after the last reply |
| `ReplayDedupe.FixedPoints` | src/pi_state/messages.ts:450-482 | the lists the dedupe leaves alone are those without clones and repeats |
| `ReplayDedupe.IdempotentExactly` | src/pi_state/messages.ts:450-482 | a second run changes nothing exactly when no surviving clone repeats another survivor in its window |
| `ReplayDedupe.IdempotentWithoutClones` | src/pi_state/messages.ts:450-482 | with distinct keys the dedupe is idempotent |
| `ReplayDedupe.SecondRunDropsMore` | src/pi_state/messages.ts:461-476 | a list on which a second run drops one more row |
| `ReplayDedupe.FindDuplicateReplayedUserMessage` | src/pi_state/messages.ts:340-363 | the backward scan as a loop finds the latest same ask not behind a reply |
| `ReplayDedupe.PayloadMeans` | src/pi_state/messages.ts:314-332 | a reply stops the search unless it is an assistant's row without text and without calls |
| `ReplayDedupe.DedupeReplayedUserRows` | src/pi_state/messages.ts:450-482 | the loop with its clone index computes the dedupe function |
| `ApprovalGate.Consent` | src/pi_embedded/approvals/gate.ts:288-360 | a returned approval comes from a resolve call that targeted an entry for the same command and pattern keys; once is returned only by the entry's own waiter, never by a follower |
| `ApprovalGate.OnceCoversOneWaiter` | src/pi_embedded/approvals/gate.ts:411-512 | two waiters never return the same once answer |
| `ApprovalAnswers.ApprovalIsReturned` | src/pi_embedded/approvals/gate.ts:472-512 | the converse of consent: a waiter that returns resolved on its own entry returns the choice of any resolve call that targeted it, no choice iff it was only released, and a denial when the session was cleared or its own interrupt ended the wait |
| `ApprovalAnswers.FollowerReturnsAnswer` | src/pi_embedded/approvals/gate.ts:308-356 | a follower that returns resolved was interrupted, or returns what its leader's entry had been given by then |
| `ApprovalAnswers.EntryBearsFate` | src/pi_embedded/approvals/queue.ts:208-244 | in every reachable state an entry is settled and bears an answer as the last call or interrupt that reached it says |
| `ApprovalAnswers.DecisionsAreMade` | src/pi_embedded/approvals/gate.ts:308-512 | every decision was made by a step of its waiter that failed to prompt, was woken, or saw interrupt or deadline, and says what that step found |
| `ApprovalAnswers.LeavingIsMade` | src/pi_embedded/approvals/gate.ts:308-512 | and every such step makes that decision |
| `ApprovalAnswers.WaitersGoOn` | src/pi_embedded/approvals/gate.ts:308-497 | a waiter that sees neither waits on; a follower whose leader was answered once asks for itself |
| `ApprovalAnswers.AskMeans` | src/pi_embedded/approvals/gate.ts:411-435 | a question follows the oldest pending one for the same command and keys unless it comes from that one, and else joins the end of the queue |
| `ApprovalAnswers.CallsMean` | src/pi_embedded/approvals/queue.ts:208-244 | a call that names a request settles the pending entries with its id, another all or the oldest; clearing denies and releasing frees all |
| `ApprovalAnswers.OnceIsReturned` | src/pi_embedded/approvals/gate.ts:472-512 | from the question to the answer: the user approves once and the waiter returns that |
| `ApprovalGate.EntriesLeaveOnce` | src/pi_embedded/approvals/queue.ts:191-244 | in every reachable state each entry is pending, unsettled and in order of creation, or gone, and gone once; it is answered at most once |
| `ApprovalGate.ResolveSettles` | src/pi_embedded/approvals/queue.ts:208-244 | a resolve settles exactly its targets, and takes exactly them off the queue |
| `ApprovalGate.ResolveTakesOldest` | src/pi_embedded/approvals/queue.ts:226-231 | without a target a resolve settles the one oldest pending entry |
| `ApprovalGate.WaitersAreNotStranded` | src/pi_embedded/approvals/gate.ts:472-497 | a waiter parked on its own entry can be answered or is able to wake |
| `ApprovalGate.FollowerOfFailedPrompt` | src/pi_embedded/approvals/gate.ts:447-459 | a follower whose leader's prompt fails waits on an entry that is neither pending nor settled |
| `ApprovalGate.FollowerCanBeSettled` | src/pi_embedded/approvals/gate.ts:308-336 | in every reachable state a follower can still see its leader settled by some continuation iff the leader's entry is pending or settled already |
| `ApprovalGate.FollowerOfTimedOutLeader` | src/pi_embedded/approvals/gate.ts:472-497 | a follower whose leader's wait expires first waits on such an entry too |
| `ApprovalGate.OrphansAreGivenUp` | src/pi_embedded/approvals/gate.ts:447-497 | in every reachable state an entry that is neither pending nor settled was given up by its own waiter, which reports no answer: its prompt failed or its wait expired |
| `ApprovalQueue.ResolveSplitsQueue` | src/pi_embedded/approvals/queue.ts:216-231 | targets and remainder together are the queue, with multiplicity |
| `ApprovalQueue.TargetsMean` | src/pi_embedded/approvals/queue.ts:216-231 | with a request id the targets are the entries with that id, without one all or the oldest |
| `ApprovalQueue.ApprovalQueues.Resolve` | src/pi_embedded/approvals/queue.ts:208-244 | targets are settled with choice and reason and counted, all others untouched, other sessions unchanged |
| `ApprovalQueue.ApprovalQueues.ClearSession` | src/pi_embedded/approvals/queue.ts:305-312 | everything pending is denied and released |
| `ApprovalQueue.ApprovalQueues.UnregisterNotify` | src/pi_embedded/approvals/queue.ts:162-169 | everything pending is released without a result |
| `ApprovalQueue.ApprovalQueues.DropEntry` | src/pi_embedded/approvals/queue.ts:191-201 | one entry leaves its queue and an emptied queue is removed |
| `ApprovalQueue.ApprovalQueues.Enqueue` | src/pi_embedded/approvals/queue.ts:181-188 | the entry joins the end of its session's queue |
| `ApprovalQueue.ApprovalQueues.FindIdenticalPending` | src/pi_embedded/approvals/queue.ts:271-288 | the first pending entry with the same command and pattern keys, or none |
| `ApprovalQueue.ApprovalQueues.Ack` | src/pi_embedded/approvals/queue.ts:291-299 | true iff the id is pending; exactly the first entry with it is marked, and no result changes |
| `ApprovalWaits.GatewayApprovals.AwaitGatewayDecision` | src/pi_embedded/approvals/gate.ts:411-435 | follow an identical pending approval with another request id, else queue an own entry |
| `ApprovalWaits.GatewayApprovals.FollowLoopTop` | src/pi_embedded/approvals/gate.ts:310-319 | interrupt first, denying only the follower, then the deadline, else another slice |
| `ApprovalWaits.GatewayApprovals.WaitLoopTop` | src/pi_embedded/approvals/gate.ts:474-485 | interrupt first, settling the entry as denied, then the deadline, else another slice |
| `ApprovalWaits.GatewayApprovals.AfterPrompt` | src/pi_embedded/approvals/gate.ts:447-466 | a failed prompt drops the entry and reports; a delivered one starts the wait |
| `ApprovalWaits.GatewayApprovals.AfterSlice` | src/pi_embedded/approvals/gate.ts:320-341 | a settled leader is adopted unless it was answered once; a settled own entry is read |
| `ApprovalWaits.GatewayApprovals.Leave` | src/pi_embedded/approvals/gate.ts:497-503 | the entry leaves the queue and its result decides |
| `ApprovalWaits.GatewayApprovals.AfterOnce` | src/pi_embedded/approvals/gate.ts:430-435 | after a leader's once the follower prompts afresh |
| `HumanWait.LedgerReadsPeriodSum` | src/pi_embedded/approvals/human-wait.ts:63-112 | what the ledger reads is the sum, over maximal periods with an open window, of the length clamped to the ceiling |
| `HumanWait.SinglePeriod` | src/pi_embedded/approvals/human-wait.ts:94-112 | a period counts its length, no less than zero and no more than the ceiling |
| `HumanWait.NeverDoubleCounts` | src/pi_embedded/approvals/human-wait.ts:46-50 | with a clock that does not go back the sum is at most the time since the first window opened |
| `HumanWait.SecondsNeverDecrease` | src/pi_embedded/approvals/human-wait.ts:94-99 | along a trace the reading never decreases |
| `HumanWait.EventsAreContinuous` | src/pi_embedded/approvals/human-wait.ts:72-91 | opening or closing a window changes nothing at that instant |
| `HumanWait.EvictsOnlyIdle` | src/pi_embedded/approvals/human-wait.ts:119-128 | only sessions without an open window are evicted |
| `HumanWait.EvictsOldestIdle` | src/pi_embedded/approvals/human-wait.ts:119-128 | eviction takes older idle sessions first and stops when there is room |
| `HumanWait.HumanWaitAccounting.Begin` | src/pi_embedded/approvals/human-wait.ts:63-92 | the session's trace grows by one opening; sessions with open windows keep theirs |
| `HumanWait.HumanWaitAccounting.Close` | src/pi_embedded/approvals/human-wait.ts:74-91 | the first close ends the window, a second does nothing |
| `HumanWait.HumanWaitAccounting.Seconds` | src/pi_embedded/approvals/human-wait.ts:100-112 | the seconds read are the period sum of the session's trace |
| `HumanWait.HumanWaitAccounting.EvictIdle` | src/pi_embedded/approvals/human-wait.ts:119-128 | the eviction loop computes the eviction function |
| `TurnLeases.ContinuationSharesRoot` | src/pi_state/leases.ts:180-205 | a continued session has its parent's root exactly when the chain above the parent does not lead back to it |
| `TurnLeases.NewSessionKeepsRoots` | src/pi_state/leases.ts:180-205 | a new session not ended by compression changes no other root, and as a continuation takes its parent's, on any graph |
| `TurnLeases.CycleSplitsRoots` | src/pi_state/leases.ts:192-204 | two sessions that continue each other have different roots |
| `TurnLeases.LineageRootOnDb` | src/pi_state/leases.ts:180-205 | the walk ends on every graph, cyclic or not, at the root of the reference climb |
| `TurnLeases.WritesFallIntoTenures` | src/pi_state/leases.ts:226-259 | between admitted writes of one conversation by two holders the first released, or another acquired the lease when it had expired or its holder was proven dead |
| `TurnLeases.TenureHolds` | src/pi_state/leases.ts:329-380 | a holder loses its lease in exactly those steps |
| `TurnLeases.OneWriterPerTenure` | src/pi_state/leases.ts:226-259 | while a tenure lasts nobody else's guarded write is admitted |
| `TurnLeases.LeaseLasts` | src/pi_state/leases.ts:329-380 | over every run a lease is kept until its time, whoever else asks for it, unless its holder releases or shortens it or is proven dead |
| `TurnLeases.AcquiredUntil` | src/pi_state/leases.ts:329-380 | an acquire won on a free, expired or dead lease is good for its time to live and a tenth of a second at least; one by the present holder changes nothing |
| `TurnLeases.ReacquireDoesNotExtend` | src/pi_state/leases.ts:366-371 | a second acquire by the holder is won and the lease is lost at its old time |
| `TurnLeases.TakenOver` | src/pi_state/leases.ts:355-365 | while a lease runs another can take it over iff the holder's process is known, foreign and dead |
| `TurnLeases.HolderScoped` | src/pi_state/leases.ts:438-489 | a refresh moves the expiry and a release frees the key iff by the holder |
| `TurnLeases.WriteMeans` | src/pi_state/leases.ts:226-259 | a write is admitted without a holder or by the holder, whose write renews the lease iff it has expired |
| `TurnLeases.ContinuesMeans` | src/pi_state/leases.ts:149-204 | the parent a session continues exists, ended by compression, and was neither branched from, delegated by, nor a tool's |
| `TurnLeases.StaleHolderIsPowerless` | src/pi_state/leases.ts:438-489 | refresh, release and write of a stale holder leave the lease as it is |
| `TurnLeases.DbTurnLeaseStore.TryAcquire` | src/pi_state/leases.ts:329-380 | compare and set; true iff the caller ends up the holder |
| `TurnLeases.DbTurnLeaseStore.Refresh` | src/pi_state/leases.ts:438-463 | extends while still the holder; false reports the loss |
| `TurnLeases.DbTurnLeaseStore.ReleaseHolder` | src/pi_state/leases.ts:470-489 | afterwards the caller does not hold it; a newer holder keeps it |
| `TurnLeases.DbTurnLeaseStore.CheckWriteGuard` | src/pi_state/leases.ts:226-259 | admits exactly the holder, renewing an expired lease that still matches |
| `WalLadder.LadderIsDisciplined` | src/pi_state/wal.ts:294-474 | for all answers: DELETE only right after a busy timeout of 0 and with the latest probe readable and not WAL; after a probe said WAL no journal-mode pragma; under a vulnerable library no WAL pragma |
| `WalLadder.ReturnedMode` | src/pi_state/wal.ts:284-293 | the returned mode is the one last answered exactly when that answer was conclusive |
| `WalLadder.ConfirmsExactly` | src/pi_state/wal.ts:284-474 | no port makes the ladder return a mode it did not answer last iff the operator asked for delete, or WAL is required and the library is not vulnerable |
| `WalLadder.OperatorDeleteIsConfirmed` | src/pi_state/wal.ts:391-410 | with the operator asking for delete, the returned mode was always answered |
| `WalLadder.RequiredWalIsAnswered` | src/pi_state/wal.ts:424-430 | with WAL required, outside vulnerable libraries and an operator's delete, only WAL is returned, and as answered |
| `WalLadder.RequiredWalExactly` | src/pi_state/wal.ts:294-474 | where WAL is required, no port makes the ladder return another mode iff the library is not vulnerable and the operator did not ask for delete |
| `WalLadder.ReportsDeleteUnconfirmed` | src/pi_state/wal.ts:348-376 | delete can be reported while the port still answers another mode |
| `WalLadder.VulnerableReleases` | src/pi_state/wal.ts:154-165 | the vulnerable versions are 3.7.0 up to 3.51.3 without the two backported lines |
| `WalOutcomes.OnDiskMeans` | src/pi_state/wal.ts:205-223 | the mode on disk is asked for until an answer is no disk i/o error, four times at most, and that answer is read |
| `WalOutcomes.AlreadyWal` | src/pi_state/wal.ts:294-320 | a database in WAL stays there whatever the settings and is only tuned |
| `WalOutcomes.UnderVulnerable` | src/pi_state/wal.ts:316-377 | under a vulnerable library: untouched when unreadable, else delete, which an operator's delete must see granted |
| `WalOutcomes.UnderOperator` | src/pi_state/wal.ts:391-410 | an operator's delete must be granted and cannot be where nothing can be read |
| `WalOutcomes.WalIsAsked` | src/pi_state/wal.ts:380-430 | otherwise WAL is asked for |
| `WalOutcomes.WalAnswered` | src/pi_state/wal.ts:412-473 | what each answer to that leads to: the mode, the requirement, the error, a retry, or giving up |
| `WalOutcomes.RetriedOnce` | src/pi_state/wal.ts:440-465 | a retry goes on after a disk i/o error and else ends by its answer |
| `WalOutcomes.RetriedTwice` | src/pi_state/wal.ts:440-465 | two more disk i/o errors and WAL is given up |
| `WalOutcomes.GivenUp` | src/pi_state/wal.ts:446-473 | given up: the error when the database cannot be read or is in WAL, the requirement, or delete |
| `WalOutcomes.NoWaitMeans` | src/pi_state/wal.ts:260-282 | delete is asked for between a busy timeout of zero and the one read before |
| `WalOutcomes.TunedMeans` | src/pi_state/wal.ts:226-258 | which tuning follows |
| `WalOutcomes.ErrorsMean` | src/pi_state/wal.ts:110-119 | which errors speak against WAL, by code or wording |
| `WalOutcomes.BusyMeans` | src/pi_state/wal.ts:96-107 | which errors a contended database reports, by code or wording |
| `WalOutcomes.WantsDeleteMeans` | src/pi_state/wal.ts:131-136 | the operator asks for delete by that word in any case, blanks around it aside |
| `WalLadder.PragmaPort.OnDiskJournalMode` | src/pi_state/wal.ts:205-223 | the probe with its four attempts |
| `WalLadder.PragmaPort.SetJournalModeNoWait` | src/pi_state/wal.ts:260-282 | the no-wait setter and the restored timeout |
| `WalLadder.PragmaPort.ApplyUnderVulnerable` | src/pi_state/wal.ts:316-377 | the ladder under a vulnerable library |
| `WalLadder.PragmaPort.AttemptWal` | src/pi_state/wal.ts:412-473 | the WAL attempt, its retries and the guarded fallback |
| `WalLadder.PragmaPort.ApplyWalWithFallback` | src/pi_state/wal.ts:294-474 | the ladder issues the calls and returns the outcome of the ladder function |
| `Discovery.ReadDiscoveryHeader` | src/pi_gateway/discovery.ts:67-113 | for every way the reads split the file, the reader returns what one scan over the complete lines of the first mebibyte returns, with the trailing fragment only when the file ends before that bound |
| `Discovery.HeaderMeans` | src/pi_gateway/discovery.ts:67-113 | the first deciding line decides: its header, or none; when none decides, the fragment at the end of a short file may |
| `Discovery.LinesConcat` | src/pi_gateway/discovery.ts:78-105 | splitting into lines does not depend on where the text is cut |
| `Discovery.LinesRoundTrip` | src/pi_gateway/discovery.ts:81-86 | lines and fragment hold no newline and give the text back |

## Left out

- The cancel-handoff lane, direct-dispatch commands' own effects, `busySessionHandler`, external slot views and the test seams of the guard; which lane an arrival takes is decided outside the model.
- AdapterGuard.AdapterSessionGuard.HandleMessageFor: starts at the guard's busy check with the lane given; topic recovery, the misrouting drop, metadata backfill and command coercion before it are not modelled.
- SessionRuns.SingleFlight: assumes that spawns succeed and that no debounce timer fires on an idle session; `Ownership` and `HealNeedsFailedLateSpawn` say what holds when spawns fail.
- SessionRuns.FifoRefinement: speaks of interrupt mode and of arrivals in the queue lane; for queue mode `EveryArrivalCounted`, `NothingLostExactly` and `BurstsAreSaid` say where arrivals are and what is lost.
- The failure report and the notice after it are two awaits with no shared state between; they are one phase of a frame.
- CronRuns.SlotsIncrease: assumes intervals of at least one minute, a job that stays recurring, and schedules that never lapse; `ClaimedTwiceExactly` and `SlotRepeatsExactly` say what happens to those that do.
- CronSchedules.ParseField: numerals such as 1e1, 0x10, 5.0 and +5, which the source's number conversion accepts, are invalid in the model; a numeral here is a string of decimal digits, or empty for zero.
- CronTicks.CronScheduler.RunDueJobRegistered: delivery of the output is not modelled, as it touches no field of the record that is; a claim that throws is not, as the error leaves the tick; nothing happens between a mark that throws and the error mark after it.
- CronRuns.MarksCarryLatestClaim: claim tokens are assumed fresh, as random ids are.
- Cron: ISO timestamps, durations and natural-language schedules are not parsed; stored times are assumed well formed; the civil date of a day number is a calendar parameter; delivery, run output, error recovery statistics and the jobs file are not modelled; the tick lock and the jobs lock are mutual exclusion.
- CronTicks.TickIsARun: speaks of ticks that nothing interrupts, with a clock that does not go back during the run; interleaved operators and crashes are the tick machine's own steps. The background loop and the drain at shutdown are not modelled; in the tick machine a run may mark more than once.
- `clearRunClaim` has no caller in the scheduler, so it is an operation of the claim runs but not of the tick runs.
- TokenUsage.CoalescePreservesMeaning: does not speak of per-task rows, of actual cost in usage rows or of timestamps, because the task is not part of the route key and an empty delta is not recorded.
- TokenWriting.WriterConserves: application of a batch is total; in the source a failing delta is logged and skipped.
- The repair of tool-call argument text, and aliasing between messages: the repaired messages are distinct objects.
- AlternationRepair.CursorSeparates: for cursors outside the list see `CursorElsewhere`; fractional cursors are not modelled.
- The SQL that selects replayed rows, the ancestor walk of the replay reader, and decoding of stored tool calls, which enters as its outcome.
- ApprovalGate.Consent: covers sessions that are not cron sessions, of one session key; hooks, heartbeats and the reason text are not part of the gate model, and request ids are parameters.
- HumanWait.SecondsNeverDecrease: speaks of a trace since the session's state was created, so an eviction restarts it, and needs a ceiling that is not negative and a clock that does not go back.
- The bounded waiting loop around lease acquisition, the parse of a process id out of a holder, and the ownership probe.
- TurnLeases.WritesFallIntoTenures: speaks of guarded writes; a write without a holder is admitted unchecked by design. The lease table is modelled as used, although src/pi_state/schema.ts does not declare it.
- Warnings, the trace of ladder steps, parsing of the version string, and the contended-write ladder of the same file.
- Discovery.ReadDiscoveryHeader: the parse of one line is a parameter, bytes are characters, and the index over directories is not modelled.
- Child processes, handoff, platform adapters, set-up, markers, forensics, rendering, and the command registry.
