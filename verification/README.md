# Power-outage bot: a Dafny model of its stateful core

The repository is a Telegram bot that watches whether users have electricity, reports
outage schedules and reminds people before an outage starts or ends. This project models
the parts of it whose correctness is not visible from one function, and proves what they
keep over whole runs.

| file | what it models |
|---|---|
| `Debounce.dfy` | the per-user state machine of the router monitor: pings, one debounce timer, evictions, the restart after a reboot |
| `WriteBack.dfy` | the write-back cache between the monitor's in-memory states and their table |
| `PowerDurations.dfy` | the durations recorded for confirmed power changes |
| `ScheduleProtocol.dfy` | the schedule checker, the quiet-hours queue and the 06:00 flush of one (region, queue) pair |
| `HtmlEntities.dfy` | the HTML to message-entity scanner with its tag stack and UTF-16 counter |
| `EntityPairs.dfy` | which tags of any input, well nested or not, the scanner pairs into entities |
| `Outages.dfy` | hour labels, outage intervals, the half-hour chart and the next event |
| `RateLimiter.dfy` | the token bucket |
| `CircuitBreaker.dfy` | the circuit breaker |
| `Reminders.dfy` | reminder passes, the catch-up and the table that keeps them apart |
| `CursorScan.dfy` | paging through users by id while the table changes |
| `Throttle.dfy` | the bounded map behind the update throttle |
| `Wrappers.dfy` | an option type and set facts |

`dafny verify dfyconfig.toml` checks everything.

**How the models are built.** Code between two suspension points runs without
interruption, so each such block is one step of a step system, and a run is any sequence
of steps: every interleaving is covered. Where the source changes objects in place there
is a class with the same fields; each of its methods is proved to do exactly what the step
function of the protocol says, and the theorems are about runs of that step function.
Times are parameters of the steps. Where a comment in the source promises more than the
code keeps, or a promised property fails, the code is modelled, the failing input is given
as a lemma, and the exact condition is proved:

- `bot/services/power_monitor.py:878-880` says that nothing marked during a flush is
  dropped; line 920 forgets an id that was already being saved and is marked again, and
  the flush at shutdown (`bot/app.py:496`) can overlap the loop's own, whose older rows
  are then written last. Inputs: `WriteBack.RemarkedIdIsForgotten`,
  `WriteBack.OlderFlushOverwrites`; condition: `WriteBack.AgreesExactly`.
- What a process does after its last save is unknown to the next one: a ping that cancels
  a saved pending state is overlooked, and a change confirmed after the save is confirmed
  again. Inputs: `Debounce.RestartOverlooksPing`, `Debounce.RestartConfirmsTwice`;
  condition: `Debounce.AfterSaveExactly`.
- A restart uses the configured debounce as it is (`bot/services/power_monitor.py:973-995`),
  while arming replaces zero by the minimum of 30 seconds (677-679). Input:
  `Debounce.RestartForgetsMinimum`; condition: `Debounce.RestoredDueExactly`.
- Recording each power change before the next mirror write is not enough for durations to
  be non-negative. Input: `PowerDurations.LateRecordGoesNegative`; condition:
  `PowerDurations.NegativeExactly`.
- The purge of pending notifications can drop a row that nobody was sent. Input:
  `ScheduleProtocol.UnsentRowIsLost`; condition: `ScheduleProtocol.ToldExactly`.
- `</>` makes the scanner fail at `bot/utils/html_to_entities.py:55`. Input:
  `HtmlEntities.EmptyClosingTagRaises`; condition: `HtmlEntities.RaisesExactly`.
- A bucket with room for less than one token still grants. Input:
  `RateLimiter.SmallBucketGrants`; condition: `RateLimiter.RateBoundExactly`.
- `bot/utils/circuit_breaker.py:7` speaks of one probe; every caller is let through while
  half open. Input: `CircuitBreaker.ManyCallersProbe`; condition:
  `CircuitBreaker.HalfOpenLastsExactly` and `CircuitBreaker.ProbesExactly`.
- An open breaker lets a call through before its timeout when a late success closes it.
  Input: `CircuitBreaker.LateSuccessReopens`; condition: `CircuitBreaker.RefusedExactly`.
- `bot/services/scheduler.py:675-676` relies on the table of sent reminders, which is
  looked up before sending and written after, so overlapping passes can send twice.
  Input: `Reminders.OverlapSendsTwice`; condition: `Reminders.SentOnceExactly`.
- Evicting throttle entries down to the cap can drop one that still matters. Input:
  `Throttle.EvictedTooEarly`; condition: `Throttle.EveryCleanupIsSilentExactly`.

## Model

| member | source | states |
|---|---|---|
| Debounce.DebounceIsSound | bot/services/power_monitor.py:555-717 | in every run of one process, over every interleaving of pings, arming, timer firings, evictions and passing time, a confirmation of X at time t comes at least its debounce after the moment its pending state was noted, every ping step in between said X, and confirmations alternate, starting opposite to the seeded or restored state |
| Debounce.OneTimerPerPending | bot/services/power_monitor.py:564-717 | between check cycles a pending state is the opposite of the current one and has exactly one live timer, the stored one; with no pending state, or no entry, no timer is live |
| Debounce.AgreeingPingsConfirm | bot/services/power_monitor.py:632-700 | a pending state that no ping contradicts and no eviction removes is confirmed: its timer stays armed for the same moment and firing it settles the state and logs the change with the time it was first seen |
| Debounce.SettledExactly | bot/services/power_monitor.py:555-717 | over any steps, a pending state is confirmed by its process if and only if its timer fires; until then it waits with that timer live or about to be made, unless an eviction or a disagreeing ping ends it for good |
| Debounce.ContradictionKillsTimer | bot/services/power_monitor.py:595-612 | a ping that says the opposite of an armed timer's state makes that timer dead in the same step |
| Debounce.TimerNeverRevives | bot/services/power_monitor.py:634-717 | no step changes what a timer is for or when it is due, and no step brings a dead timer back |
| Debounce.StepKeepsInv | bot/services/power_monitor.py:540-717 | every enabled step keeps the invariant of one user at a suspension point: settled and pending state, ownership of live timers, the suspended arming and the soundness of the history |
| Debounce.StateFollowsHistory | bot/services/power_monitor.py:540-717 | at every point of every run, the entry of the user, with its settled and pending state, the moment noted and the number of switches, and whether there is one at all, is what the history of pings, notes, confirmations, restores and evictions reads as |
| Debounce.HistoryExactly | bot/services/power_monitor.py:540-717 | what each step adds to that history: a ping with a result its answer, and for an unknown user the state it is seeded with, the stored one or else its answer; a firing timer the confirmation of the pending state with the time it was noted; an eviction the forgetting; no other step anything |
| Debounce.PingDecides | bot/services/power_monitor.py:582-654 | in every run, after a ping of the settled state nothing is pending and no timer is live; after a ping of the other state that state is pending: with entry and timers as before if it was pending already, otherwise noted now and about to get its timer |
| Debounce.ArmedDueExactly | bot/services/power_monitor.py:670-717 | the timer that an arming creates may fire if and only if the configured debounce, or 30 seconds if that is zero, has passed since the arming |
| Debounce.RestartKeepsDebounce | bot/services/power_monitor.py:971-1036 | with configured debounce D, a pending state noted at p and restored at time n is confirmed no earlier than max(n, p + D), with its original time, and only if no ping equal to the settled state came before; unless D is zero and n comes too early, also no earlier than the end of the wait the first process began |
| Debounce.RestoredDueExactly | bot/services/power_monitor.py:985-995 | the restored timer is due no earlier than the timer of the first process would have been, with the debounce configured then, if and only if that wait is over when the timer is armed, or the debounce configured now plus the time the restart took is as long |
| Debounce.RestartForgetsMinimum | bot/services/power_monitor.py:985-995 | with a debounce of zero, a restart one second after the pending state was noted confirms it at once, 29 seconds early |
| Debounce.SavedRowIsValid | bot/services/power_monitor.py:882-910 | what a flush saves at any suspension point of any run satisfies the assumption the restart theorem makes about the row, and its pending state was noted by a ping, or restored, with no ping disagreeing since |
| Debounce.DebounceSpansRestart | bot/services/power_monitor.py:882-1036 | across two processes: what the second confirms from the saved row was pending in the first, noted there or restored already, the debounce configured for the second has passed since it was noted, and no ping disagreed in the first up to the save nor in the second |
| Debounce.AfterSaveExactly | bot/services/power_monitor.py:882-1036 | in the saving process taken to its end, a ping that disagrees with the saved pending state is logged after the save if and only if some step after the save is one, and the change is confirmed there as well if and only if its timer fires there |
| Debounce.RestartOverlooksPing | bot/services/power_monitor.py:1118-1133 | for every debounce, a run in which a ping after the save cancels the pending state and the next process confirms it all the same |
| Debounce.RestartConfirmsTwice | bot/services/power_monitor.py:1118-1133 | for every debounce, a run in which the saving process confirms after its save what the next process confirms again |
| Debounce.Monitor.constructor | bot/services/power_monitor.py:927-1036 | loading the saved row and restarting its timer gives the initial state of a run |
| Debounce.Monitor.GetUserState | bot/services/power_monitor.py:89-114 | an unknown id gets a fresh entry, a known id keeps its own |
| Debounce.Monitor.CancelDebounce | bot/services/power_monitor.py:634-637 | a stored timer that has not fired is cancelled and forgotten, anything else is left alone |
| Debounce.Monitor.CheckUserPower | bot/services/power_monitor.py:540-632 | the ping block is the ping step, in every branch: no result, first check with or without a stored state, return to the settled state, repeated pending state, new pending state; what that step decides is `PingDecides` and `HistoryExactly` |
| Debounce.Monitor.ArmDebounce | bot/services/power_monitor.py:670-717 | arming is the arm step, with a configured debounce of zero replaced by 30 seconds |
| Debounce.Monitor.ConfirmState | bot/services/power_monitor.py:687-700 | waking a timer is the fire step, for ordinary timers and for restored ones, which do nothing if the pending state is no longer theirs |
| Debounce.Monitor.EvictEntry | bot/services/power_monitor.py:137-172 | eviction removes the entry and cancels its live timer |
| WriteBack.WriteBackAgrees | bot/services/power_monitor.py:875-961 | in every run where no id of a running flush is changed before that flush ends, an id in memory that is not marked dirty has a row equal to its saved fields, whichever flushes overlap or fail and whatever the table held at the start |
| WriteBack.AgreesExactly | bot/services/power_monitor.py:875-961 | over every run, with any number of flushes at a time, memory and table agree on every unmarked id at every point if and only if no flush clears the mark of an id whose state is not in the table and no commit writes another row over an unmarked id |
| WriteBack.StepAgreesExactly | bot/services/power_monitor.py:912-920 | every step keeps the agreement, save a flush's end exactly when it clears a stale mark and a commit exactly when it overwrites an unmarked id with another row |
| WriteBack.RemarkedIdIsForgotten | bot/services/power_monitor.py:878-920 | the counterexample for any id and any two different states: re-marked in flight, it ends unmarked with the old row |
| WriteBack.OlderFlushOverwrites | bot/app.py:496-499 | for any id and any two different states, two overlapping flushes of which the older commits last leave the older row under an unmarked id, though no stale mark is ever cleared |
| WriteBack.MarkedExactly | bot/services/power_monitor.py:148-186 | at every point of every run an id is marked if and only if it was at the start or some step marked it, and since then no flush that had seen the mark ended well and the id was neither dropped nor restored |
| WriteBack.MarksSurviveFlush | bot/services/power_monitor.py:882-924 | an id first marked while a flush runs is still marked after it, and a failed flush keeps every mark, unless another flush that has seen the mark, a drop or a restore takes it away |
| WriteBack.InMemoryExactly | bot/services/power_monitor.py:875-961 | at every point of every run an id is in memory if and only if it was at the start, or a change of it, or a restore of it while the table had its row, put it there, and no drop of it came since |
| WriteBack.StateInMemory | bot/services/power_monitor.py:875-961 | its state is then the one that the last such step gave it: the new state of a change, the row of a restore |
| WriteBack.FlightIsSnapshot | bot/services/power_monitor.py:882-889 | until it ends, a flush holds the marks, and the states of the marked ids in memory, as they were when it began, and it is running if and only if there were any |
| WriteBack.InTableExactly | bot/db/queries/power.py:82-99 | an id has a row if and only if it had one at the start or a commit wrote it |
| WriteBack.RowInTable | bot/db/queries/power.py:82-99 | its row stays the one it has until a commit writes another |
| WriteBack.CommitWrites | bot/services/power_monitor.py:882-915 | a commit writes the row its flush holds |
| WriteBack.Store.ChangeState | bot/services/power_monitor.py:650-654 | a changed state is marked in the same step |
| WriteBack.Store.MarkDirty | bot/services/power_monitor.py:181-186 | marking adds the id and changes nothing else |
| WriteBack.Store.EvictEntries | bot/services/power_monitor.py:148-167 | all stale entries and their marks go, others stay |
| WriteBack.Store.SnapshotDirty | bot/services/power_monitor.py:882-889 | a flush copies exactly the marked ids still in memory, whatever other flushes are running, and does not start when there are none |
| WriteBack.Store.CommitRows | bot/db/queries/power.py:82-99 | the copied rows overwrite those of the same ids |
| WriteBack.Store.ClearMarks | bot/services/power_monitor.py:919-920 | exactly the marks taken at the start of the flush are removed |
| WriteBack.Store.AbandonFlush | bot/services/power_monitor.py:922-924 | a failed flush changes neither marks nor memory |
| WriteBack.Store.RestoreStates | bot/services/power_monitor.py:927-961 | restored ids that have a row are in memory with it, whether or not they were there before, and lose their marks; over runs, `InMemoryExactly` and `StateInMemory` say so |
| PowerDurations.DurationsTile | bot/db/queries/power.py:30-68 | when each confirmed change is recorded before the next ping notes a pending state, no duration is negative and the durations between any two changes add up to the time between their instants, whether the mirrored pending time or the clock was used |
| PowerDurations.NegativeExactly | bot/db/queries/power.py:30-68 | over every order of steps, a negative duration is recorded if and only if a mirror write brings a time noted before the last change, or a first check stamps a row that has a pending time, and the next write to the row is the update of a change |
| PowerDurations.LateRecordGoesNegative | bot/services/power_monitor.py:656-666 | a given run from a proper start whose updates all precede the next mirror write and which still records minus two |
| PowerDurations.NotedExactly | bot/services/power_monitor.py:582-666 | in memory a pending time is noted if and only if some ping noted one that was neither withdrawn nor confirmed since, and it is the time of that ping |
| PowerDurations.PendingExactly | bot/services/power_monitor.py:656-666 | the row holds the pending time of the last mirror write as long as neither an update nor a withdrawal has taken it, and without such a write what it held at the start, until taken |
| PowerDurations.UpdateRecords | bot/db/queries/power.py:30-68 | in orderly runs each update adds one record: its instant is the mirrored pending time or else the clock, and its duration reaches back to the instant recorded before, or to the first stamp of the row, or is missing if there is none |
| PowerDurations.FirstStamp | bot/db/queries/power.py:30-68 | until the first record the row has a stamp if and only if it had one at the start or a first check gave it one, and then it is that one |
| PowerDurations.TrackingRow.ChangePowerState | bot/db/queries/power.py:30-68 | the update moves the row to the pending time or else the clock, clears the pending time and returns the duration, if there was an earlier change |
| ScheduleProtocol.ToldExactly | bot/services/scheduler.py:379-652 | at every point of every run of checks, flushes and purges, the stored hash is that of the latest pending row if there is one, else of the last schedule sent, if and only if no purge removes a latest pending row that differs from what was last sent |
| ScheduleProtocol.ToldMatchesHash | bot/services/scheduler.py:379-652 | hence, for a pair that stays active, so that each purge comes within 48 hours of a flush of it, the match holds after every completed check, flush and purge |
| ScheduleProtocol.CheckTells | bot/services/scheduler.py:379-520 | a check keeps that match in quiet hours and by day, with or without data or changes |
| ScheduleProtocol.FlushTells | bot/services/scheduler.py:567-637 | the 06:00 flush keeps that match, with and without a pending row |
| ScheduleProtocol.PurgeTellsExactly | bot/db/queries/schedule.py:203-212 | the purge breaks the match exactly when the latest pending row is over 48 hours old and differs from what was last sent |
| ScheduleProtocol.UnsentRowIsLost | bot/services/scheduler.py:644-652 | a schedule found in quiet hours and purged without a flush in between: nobody was sent it, the row is gone, the hash stays |
| ScheduleProtocol.PurgeCommutesWithCheck | bot/services/scheduler.py:644-652 | a purge, which holds no lock, has the same effect before and after a check, so falling inside one changes nothing |
| ScheduleProtocol.LatestAfterPurge | bot/db/queries/schedule.py:163-212 | after the purge the latest pending row is the one before it, if young enough, and otherwise none |
| ScheduleProtocol.EveryReportIsExact | bot/services/scheduler.py:401-505 | in every run, every report against a stored baseline lists exactly the event keys that came and went, its flags hold exactly when the lists of the days changed, and replaying removed then added on the old keys gives the new ones |
| ScheduleProtocol.ReportIsExact | bot/services/scheduler.py:401-471 | the same for one check from any state whose snapshots match their own data |
| ScheduleProtocol.NoBaselineReport | bot/services/scheduler.py:401-486 | without a stored baseline the report removes nothing, claims no change of today, and adds exactly tomorrow's keys |
| ScheduleProtocol.DayReplays | bot/services/scheduler.py:401-505 | replaying all reports of a day's checks in order on the keys the day started from gives the keys of the schedule last seen |
| ScheduleProtocol.StepDelivers | bot/services/scheduler.py:379-652 | what every step of every run sends, queues and stores: a check by day that has something to report sends exactly one message, with the fetched events, the exact report and the daily-plan flag if and only if it is the first or neither day changed; a quiet one queues the report, if there is a change, and sends nothing; a flush sends the latest pending row with the report queued with it, or else the fetched data as daily plan, and nothing only if there is neither; a purge sends nothing |
| ScheduleProtocol.ReportForIsExact | bot/services/scheduler.py:401-486 | against whatever hash and snapshots are stored, a check reports, with its flags and changes, exactly as the lists of the two days differ; the daily-plan flag holds if and only if it is the first report or neither day changed |
| ScheduleProtocol.ReportTellsTimes | bot/services/scheduler.py:215-221 | told by the events' own times: one is reported as added if and only if one with its start and end is there now and none was before, whatever its kind, and as removed the other way round |
| ScheduleProtocol.FlushSendsQueued | bot/services/scheduler.py:567-616 | what a flush sends from the queue is what some earlier quiet check of the run found, with the report that was exact then |
| ScheduleProtocol.InitialExactly | bot/services/scheduler.py:379-400 | a check counts as the first if and only if no earlier step of the run saw a schedule |
| ScheduleProtocol.PurgedExactly | bot/db/queries/schedule.py:203-212 | a purge keeps exactly the rows that are no older than its cutoff, sent or not |
| ScheduleProtocol.MergeTomorrowEvents | bot/services/scheduler.py:227-235 | the loop adds tomorrow's events whose key is not among those added already, comparing only with the original list |
| ScheduleProtocol.ExtendChanges | bot/services/scheduler.py:459-465 | the loop adds new keys one by one, comparing also with those it has added itself, and appends all removals |
| ScheduleProtocol.PairTables.MakeReport | bot/services/scheduler.py:401-486 | the imperative branches build exactly the report the exactness theorems are about |
| ScheduleProtocol.PairTables.UpsertSnapshot | bot/db/queries/schedule.py:99-138 | a stored snapshot has the hashes of its own events, other days are untouched |
| ScheduleProtocol.PairTables.CheckSingleQueue | bot/services/scheduler.py:347-528 | the check of one queue is the check step on all five tables, and returns the step's report; `StepDelivers` says what that step sends and queues |
| ScheduleProtocol.PairTables.FlushPair | bot/services/scheduler.py:567-637 | the flush of one pair is the flush step; `StepDelivers` and `FlushSendsQueued` say what it sends |
| ScheduleProtocol.PairTables.DeleteOldNotifications | bot/db/queries/schedule.py:203-212 | the purge is the purge step |
| HtmlEntities.ScanUndoesPrint | bot/utils/html_to_entities.py:28-100 | for every forest of text, mapped tags, links and custom emoji, scanning its printed and escaped form returns its plain text and its entities in closing order, with exact UTF-16 offsets and lengths and nothing left open |
| HtmlEntities.EntitiesSelectElements | bot/utils/html_to_entities.py:58-70 | read in the UTF-16 encoding of the text, the range of each entity is the encoding of its element's own text |
| HtmlEntities.Utf16LenExactly | bot/utils/html_to_entities.py:23-25 | the UTF-16 length of a text is its number of characters plus the number of those at or above U+10000 |
| HtmlEntities.UnitsFit | bot/utils/html_to_entities.py:23-25 | every code unit fits in sixteen bits |
| HtmlEntities.DecodeUndoesEncode | bot/utils/html_to_entities.py:23-25 | a surrogate decoder that knows nothing of the encoder gives every text back from its code units |
| EntityPairs.EntitiesArePaired | bot/utils/html_to_entities.py:36-100 | for any input that does not raise, tags crossing as they may, the text is that of the pieces in order, and there is exactly one entity, in closing order, for each closing tag for which counting back over the tags of its name finds an opener, from the UTF-16 length of the text before the opener to that before the closing tag |
| HtmlEntities.ScanIsBounded | bot/utils/html_to_entities.py:36-100 | for any input on which the scan does not fail, the counter is the UTF-16 length of the text, offsets on the stack never decrease, every entity lies inside the text and ends never decrease |
| HtmlEntities.WellNestedIsLaminar | bot/utils/html_to_entities.py:52-86 | input whose closing tags close the tag opened last gives entities that are pairwise nested or disjoint |
| HtmlEntities.RaisesExactly | bot/utils/html_to_entities.py:54-55 | the scan fails if and only if it reaches a closing tag without a name |
| HtmlEntities.EmptyClosingTagRaises | bot/utils/html_to_entities.py:54-55 | the empty closing tag is such an input |
| HtmlEntities.MatchIsFound | bot/utils/html_to_entities.py:76-82 | an attribute written as its name in any case, spaces, an equals sign, spaces, a quote of either kind, a value without quotes and a quote is matched with that value |
| HtmlEntities.MatchIsRead | bot/utils/html_to_entities.py:76-82 | and whatever is matched can be read in that way |
| HtmlEntities.SearchIsFirstMatch | bot/utils/html_to_entities.py:76-82 | the value found is that of the first place where the pattern matches |
| HtmlEntities.SearchWithoutMatch | bot/utils/html_to_entities.py:76-82 | without such a place the value is empty |
| HtmlEntities.OpeningInAnyCase | bot/utils/html_to_entities.py:72-73 | the name of an opening tag, in any case as the library lowers it, ends at the first blank, with or without attributes after it and with any other white space around it |
| HtmlEntities.ClosingInAnyCase | bot/utils/html_to_entities.py:54-55 | the same for a closing tag, with any spaces around the name |
| HtmlEntities.ReferencesExactly | bot/utils/html_to_entities.py:87-95 | up to six characters between an ampersand and the next semicolon are unescaped as a whole; with more, or without a semicolon, the ampersand stands for itself |
| HtmlEntities.LoneAngle | bot/utils/html_to_entities.py:45-50 | an angle bracket that is never closed stands for itself |
| HtmlEntities.UnknownTagVanishes | bot/utils/html_to_entities.py:52-86 | a tag with an unknown name leaves no trace, opening or closing |
| HtmlEntities.DigitsRead | bot/utils/html_to_entities.py:112 | the digits written for the check time are decimal digits and read as that number |
| HtmlEntities.TimestampRanges | bot/utils/html_to_entities.py:103-142 | the two added ranges select exactly the refresh emoji and the digits of the time, the earlier entities are kept and all lie inside the text |
| HtmlEntities.HtmlToEntities | bot/utils/html_to_entities.py:28-100 | the loop with its index, parts, stack and counter returns what the recursive scan does, or fails where it fails; `EntityPairs.EntitiesArePaired` says which text and entities these are, `Utf16LenExactly` what the counter counts |
| HtmlEntities.HandleTag | bot/utils/html_to_entities.py:52-86 | the branch for a tag has the effect of the scan's round on stack and entities |
| HtmlEntities.PopTag | bot/utils/html_to_entities.py:56-70 | the search from the top closes the innermost tag of that name and leaves the tags opened after it in place |
| HtmlEntities.ReadText | bot/utils/html_to_entities.py:87-98 | a short entity reference is unescaped as a whole, any other character is taken as it is |
| Outages.LabelsRoundTrip | bot/services/chart_generator.py:168-196 | for days of any number of hours and any labels, painting the parsed schedule shows each hour's own label in its cell, on both days |
| Outages.ChartsTellLabels | bot/services/chart_generator.py:168-196 | two schedules whose charts look the same on both days come from the same labels |
| Outages.DayIntervals | bot/services/api.py:625-667 | the intervals of each kind are the unique sorted, non-touching, non-empty cover of that kind's slots, merging changes nothing, and their total length is 30 minutes for each slot |
| Outages.CoverIsUnique | bot/services/api.py:653-667 | two sorted, non-touching lists of intervals covering the same slots are equal |
| Outages.MergeKeepsCanonical | bot/services/api.py:660-667 | merging is the identity on sorted, non-touching lists |
| Outages.RunsCover | bot/services/api.py:643-657 | adding or extending slot by slot gives a sorted, non-touching list inside the day that covers exactly the slots of the kind |
| Outages.RunsMinutes | bot/services/api.py:653-657 | the total length of the intervals is 30 minutes for each slot of the kind |
| Outages.ScheduleFits | bot/services/api.py:701-747 | the parsed schedule is in order, no two events overlap, and it shows exactly the off slots of the two days with their kinds |
| Outages.NextEventAgrees | bot/services/api.py:814-850 | for any labels and any time, in an off slot the next event is the end of the whole run of off slots, across kinds and midnight, possible if and only if some slot from the first event's start to that end is; otherwise it is the first later run; and there is none if and only if no off slot is left |
| Outages.AddPeriod | bot/services/api.py:653-657 | added after the periods already there, a period makes the list cover exactly its slots besides, and the list stays sorted and without touching neighbours |
| Outages.MergeConsecutive | bot/services/api.py:660-667 | the loop joins neighbours that touch |
| Outages.AddOutagePeriod | bot/services/api.py:643-650 | added after the earlier hours, a label makes the list cover exactly the half hours it marks besides, and the list stays sorted and without touching neighbours |
| Outages.ParseHourlySchedule | bot/services/api.py:625-640 | the two lists are sorted and non-touching and cover exactly the planned and the possible slots |
| Outages.ParseScheduleForQueue | bot/services/api.py:701-747 | the assembled events are in order, disjoint and show exactly the labels of the two days |
| Outages.GetHourStates | bot/services/chart_generator.py:168-196 | painting the array in place and reading it hour by hour gives the cells of the round trip |
| Outages.FindNextEvent | bot/services/api.py:814-850 | the two nested loops return the event that the agreement theorem is about |
| RateLimiter.RateBound | bot/utils/rate_limiter.py:50-76 | with a burst of at least one, a monotone clock and sleeps that never end early unless they are cancelled, the grants in any window from s to t are at most burst + rate * (t - s), whichever callers give up |
| RateLimiter.RateBoundExactly | bot/utils/rate_limiter.py:50-76 | a run that grants anything meets that bound in every window if and only if the burst is at least one |
| RateLimiter.SmallBucketGrants | bot/utils/rate_limiter.py:50-76 | for every burst below one there is a run that grants and breaks the bound |
| RateLimiter.BackToBackGrants | bot/utils/rate_limiter.py:50-76 | with exact sleeps the k-th of the callers waiting from s on is granted exactly at s + max(0, (k - tokens available at s) / rate) |
| RateLimiter.GrantedAtOnceExactly | bot/utils/rate_limiter.py:50-76 | with exact sleeps and a positive clock, a caller is granted when it asks if and only if one more grant keeps the bound in every window that ends there: nobody sleeps without a reason |
| RateLimiter.IdleIsServed | bot/utils/rate_limiter.py:58-63 | a caller who comes at least 1/rate after every earlier grant, as does the first of all, is granted when it asks, however late or cancelled earlier sleeps were |
| RateLimiter.IdleServesBurst | bot/utils/rate_limiter.py:61-76 | a bucket that stood idle for burst/rate serves as many callers in a row as the burst has whole tokens, without a wait |
| RateLimiter.AfterSleepExactly | bot/utils/rate_limiter.py:65-74 | whoever comes after a sleeper is granted when it asks if and only if it comes at least 1/rate after the sleeper woke, however late that was: a late sleep saves nothing |
| RateLimiter.TokenBucket.Acquire | bot/utils/rate_limiter.py:50-76 | acquiring is the step of the run, with the refill time set lazily, and tells whether the caller was granted and when; a caller cancelled in its sleep leaves the refilled tokens; `RateBound` and `GrantedAtOnceExactly` pin the step from both sides |
| CircuitBreaker.StateFollowsFailures | bot/utils/circuit_breaker.py:107-134 | over every interleaving of admissions and outcomes, the failure counter is the number of failures since the last success, and the state is not CLOSED if and only if it has reached the limit |
| CircuitBreaker.RefusedExactly | bot/utils/circuit_breaker.py:78-134 | over every interleaving, a call is refused if and only if the breaker tripped less than the reset timeout before it and no success was reported since that trip |
| CircuitBreaker.NothingWithinTimeout | bot/utils/circuit_breaker.py:78-134 | from any starting state, a call let through after a trip comes at least the reset timeout later or after a success; after the last trip it is let through if and only if so |
| CircuitBreaker.LateSuccessReopens | bot/utils/circuit_breaker.py:114-119 | for every limit and timeout there is a run in which a call admitted before the trip succeeds after it and the next call is let through within the timeout |
| CircuitBreaker.HalfOpenLastsExactly | bot/utils/circuit_breaker.py:78-134 | from a half-open state on, the breaker stays half open up to any later point if and only if no success or failure was reported until then |
| CircuitBreaker.ProbesExactly | bot/utils/circuit_breaker.py:78-85 | a half-open spell lets through every caller that asks before its first reported outcome, so at most one if and only if at most one asks |
| CircuitBreaker.ManyCallersProbe | bot/utils/circuit_breaker.py:78-85 | for every limit, timeout and number of callers there is a run that lets all of them through in one half-open spell |
| CircuitBreaker.SpellBound | bot/utils/circuit_breaker.py:78-134 | calls that do not overlap and do not succeed fail at most fail_max + floor(T / reset_timeout) times in a window of length T |
| CircuitBreaker.BoundIsReached | bot/utils/circuit_breaker.py:78-134 | for every number k of timeouts there is such a spell with exactly fail_max + k failures, so the bound is tight |
| CircuitBreaker.CallKeepsBudget | bot/utils/circuit_breaker.py:78-134 | one whole call, refused, excluded or failed in any state, keeps the relation between failures and elapsed timeouts |
| CircuitBreaker.CircuitBreaker.GetState | bot/utils/circuit_breaker.py:107-112 | reading the state moves OPEN to HALF_OPEN once the timeout has passed |
| CircuitBreaker.CircuitBreaker.Ask | bot/utils/circuit_breaker.py:78-85 | a caller is let through exactly when the breaker is not open; a refused one is told a non-negative delay during which the breaker stays open and after which it would be half open |
| CircuitBreaker.CircuitBreaker.OnSuccess | bot/utils/circuit_breaker.py:114-119 | a success closes the breaker from any state and clears the counter |
| CircuitBreaker.CircuitBreaker.OnFailure | bot/utils/circuit_breaker.py:121-134 | a failure is counted and trips the breaker when half open or at the limit, with a new opening time |
| Reminders.SentOnceExactly | bot/services/scheduler.py:696-777 | over any mix of regular passes, catch-ups and purges, overlapping or not, every (user, event, reminder type) is sent at most once if and only if no delivered send finds its key recorded, or sent and not yet marked by the other runner |
| Reminders.SendRepeatsExactly | bot/services/scheduler.py:1193-1204 | at every send, the key was sent before if and only if it is recorded, or sent and not yet marked by the other runner; no purge brings one back |
| Reminders.SentAtMostOnce | bot/services/scheduler.py:696-777 | hence passes in which no lookup falls between the other runner's lookup and mark send each reminder at most once |
| Reminders.SentInTime | bot/services/scheduler.py:1166-1211 | whatever goes out lies ahead of the clock of its pass by less than 62 minutes, and a regular reminder of m minutes by at least m - 1 and less than m + 2 |
| Reminders.OverlapSendsTwice | bot/services/scheduler.py:755-777 | for any reminder due in both passes, two that both look up before either marks send it twice |
| Reminders.NoWindowSkippedExactly | bot/services/scheduler.py:1097-1107 | passes at most g apart, starting before a reminder's window, can never skip it if and only if g is at most 180 seconds |
| Reminders.NextEventIsAhead | bot/services/api.py:825-848 | the event found for any labels lies ahead of the clock that was read, and its minutes are the whole minutes left |
| Reminders.DeliveredAre | bot/services/scheduler.py:1193-1204 | the sending loop delivers exactly what was asked for, not recorded and deliverable |
| Reminders.BatchSendsAll | bot/services/scheduler.py:1183-1211 | whatever a batch asks for and does not find recorded at its lookup is attempted before its mark, and the mark adds exactly what was delivered, at its own time, and keeps the times of rows already there, whatever the other runner does meanwhile |
| Reminders.DeliveredOnce | bot/services/scheduler.py:1193-1204 | from distinct candidates the sending loop delivers no key twice |
| Reminders.CatchUpDueExactly | bot/services/scheduler.py:696-750 | the catch-up asks for a reminder if and only if its regular window has opened by then and at least a whole minute is left |
| Reminders.PurgeRemovesExactly | bot/db/queries/reminders.py:86-97 | a purge removes exactly the rows older than the cutoff and leaves the times of the others |
| Reminders.ReminderTable.CollectDue | bot/services/scheduler.py:1166-1177 | the nested loops collect exactly the due reminders of users who want them before this kind of event |
| Reminders.ReminderTable.CollectMissed | bot/services/scheduler.py:701-750 | the catch-up collects, for one reminder type, exactly the due reminders of users who want them before this kind of event |
| Reminders.ReminderTable.CheckSentBatch | bot/db/queries/reminders.py:43-67 | the batch lookup returns exactly the asked keys that have a row |
| Reminders.ReminderTable.MarkBatch | bot/db/queries/reminders.py:70-83 | marking inserts what is missing and leaves present rows and their times alone |
| Reminders.ReminderTable.SendBatch | bot/services/scheduler.py:1183-1211 | look up, send, record: what goes out is what was due, unrecorded and delivered, and all of it is recorded |
| Reminders.ReminderTable.CleanupOld | bot/db/queries/reminders.py:86-97 | exactly the rows older than 48 hours go, and their number is returned |
| CursorScan.VisitedOnce | bot/services/scheduler.py:153-166 | visited ids strictly increase, within and across pages, while the table changes between queries: nobody is visited twice |
| CursorScan.SteadyUsersVisited | bot/services/scheduler.py:153-166 | who matches at each query the scan makes, with an id beyond the cursor, is visited despite the stop at the first short page |
| CursorScan.VisitedMatched | bot/services/scheduler.py:153-166 | who is visited matched at some query that the scan made |
| CursorScan.PagesMakeTheWhole | bot/services/scheduler.py:153-166 | on a table that stays the same the pages concatenate to the sorted filter |
| CursorScan.VisitsTheWanted | bot/db/queries/users.py:156-177 | on the users' table itself, whoever is visited was active, in the region and, if one is asked for, in the queue at some query made, and whoever was so at each of them is visited |
| CursorScan.PageIsStretch | bot/db/queries/users.py:156-177 | a page is exactly the matching ids after the cursor, up to its own last id if it is full, up to the end if it is short |
| CursorScan.Scan | bot/services/scheduler.py:153-166 | the loop ends when ids are bounded, visits each id once and in order, only users that met the filter at some query and all that met it at every one, counts the visits, and asks for one page more than it fills |
| Throttle.ThrottleRefinesHistory | bot/middlewares/throttle.py:32-62 | with a rate limit of at most the time to live and, at every cleanup, no more young users than the cap, a call is accepted if and only if the clock, which starts at zero, has reached the rate limit and no earlier call of that user was accepted less than the rate limit before it |
| Throttle.CapSparesYoungExactly | bot/middlewares/throttle.py:41-48 | evicting the oldest entries down to the cap spares every entry younger than the rate limit if and only if no more than the cap are that young |
| Throttle.DropIsSilentExactly | bot/middlewares/throttle.py:36-60 | dropping entries changes no later decision if and only if none of them is younger than the rate limit, save one made at time zero |
| Throttle.EveryCleanupIsSilentExactly | bot/middlewares/throttle.py:36-60 | in every run, a cleanup changes no later decision if and only if no more users than the cap were accepted less than the rate limit before it, those accepted at time zero aside |
| Throttle.EvictedTooEarly | bot/middlewares/throttle.py:41-48 | for every cap and rate limit there is a run whose cleanup evicts a young entry and lets its user through too early |
| Throttle.MapKnowsHistory | bot/middlewares/throttle.py:32-62 | at every decision the map holds the latest accepted call of each user, except calls too old to matter |
| Throttle.CleanupLeaves | bot/middlewares/throttle.py:36-57 | right after a cleanup no entry is past its time to live and no more than the cap are left; an unexpired entry is gone only if the cap is reached, and none that is gone is newer than one that is left |
| Throttle.ThrottleMiddleware.EvictOldest | bot/middlewares/throttle.py:41-48 | at most the cap remain, they are entries that were there, and none dropped is newer than one kept |
| Throttle.ThrottleMiddleware.Cleanup | bot/middlewares/throttle.py:36-57 | nothing happens within the cleanup interval; after it, expired entries go, then the oldest beyond the cap |
| Throttle.ThrottleMiddleware.Handle | bot/middlewares/throttle.py:29-64 | an event without a user passes untouched; otherwise one call is one step of the run |

## Left out

Conditions under which the theorems speak:

- The monitor's runs are one execution of the loop in which no check cycle is cancelled half way; the 300 second timeout at `bot/services/power_monitor.py:1087` can leave a pending state without a timer, and running the loop again in the same process restores over live timers (943).
- An id is not evicted while its own check is suspended between noting a pending state and arming its timer, because a check cycle evicts before it pings (`bot/services/power_monitor.py:783-800`).
- Power handlers for one user do not overlap.
- The mirror writes of pending states into `user_power_tracking` are optional steps in the model, since the code reads that relation without loading it (`bot/db/models.py:44-46`).
- Checks of a pair have strictly increasing clock readings and stay on one day, so rows with equal creation times and a check that crosses midnight are not modelled; a flush that fails for a pair counts as no flush of it.
- Hashes are taken to be injective, days consecutive and without a clock change, and instants to have one text form.
- A day whose schedule is missing counts as a day of hours without an outage.
- Breaker probes do not overlap in the spell bound; the other breaker results cover every overlap.
- Ids are bounded and positive in the scan; on ids that grow forever it need not end.
- A reminder pass finishes its sends within 46 hours and 58 minutes of reading the schedule, and no pass fails between a send and its mark.
- The throttle's clock readings are not negative, as those of a monotonic clock.
- The results on what an idle bucket grants take clock readings to be positive: a reading of exactly zero is taken for a bucket never used (`bot/utils/rate_limiter.py:58`).

Not modelled:

- `lower` and `html.unescape` are parameters of the scanner; the round trip assumes that they keep the mapped tag names and undo the three escapes; the program's own tag map then meets its other conditions (`TagMapIsSane`).
- Host-language strings are sequences of characters; lone surrogates are not modelled.
- The recent-rows filter of the restore: `WriteBack.Store.RestoreStates` takes any set of ids.
- Bookkeeping fields that the state machine does not read (consecutive checks, last ping, instability start, last stable state) and the notification cooldown.
- Floating-point rounding of durations, waits and rates; they are integers or reals here.
- `update_rate` of the limiter.
- Which of several equally old throttle entries is evicted: any choice is allowed.
- Completeness of the changes sent at 06:00: only the latest pending row is sent, so earlier overnight changes are dropped on purpose.
- Crashes between a send and its commit, message delivery, HTTP fetching, Redis, SQL engines and advisory locks.
- ISO text, JSON and time zones; malformed schedule data that raises while it is parsed.
- Chart image caching, whose keys and fingerprint do not promise that a cached chart equals a fresh one.
- Keyboards, dialogs, formatting, drawing, settings, metrics and heartbeat.
