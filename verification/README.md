# WatchTrace check pipeline: a verified model

WatchTrace monitors HTTP targets. A scheduler turns due monitors into check jobs, an
outbox and its publishers put them on an at-least-once queue, database-free workers run
them and publish signed results, and a consumer accepts the first valid result of each
job, keeps the monitor's ordered state, opens and resolves incidents and invalidates
rollups. This project models that pipeline and four smaller machines beside it, and
proves what holds in every run.

The model follows three conventions.

- A committed transaction is one step. A call that spans several transactions or foreign
  calls is several steps, and a crash means that the next one never comes.
- Each component is a value with a step function and the runs of it; theorems are about
  every run that starts empty. Beside it a class holds the same state in mutable fields,
  and its methods, written statement by statement as the services are, are proved to
  do what the step functions say.
- Identifiers are integers, of which only equality and order matter. Random identifiers
  (jobs, leases, incidents, tokens) are assumed to be new. Clocks, provider and queue
  answers, sealed snapshots and signature checks are inputs. Times are microseconds,
  nanoseconds in the rate limiter.

| file | what it models |
|---|---|
| Positions | the (scheduled_at, job_id) order and ordered listings |
| Evaluation, RunLength | observed state with rollback and replay, and its closed form |
| Incidents | threshold incidents and their events on top of the ordered state |
| Schedule, Slots | schedule periods, next_check_at, slot enumeration and the report query |
| Rollups, Shortfall, Checkpoints | hourly and daily rollups with invalidation, checkpoints and repair, days rolled before their hours, and where invalidations and checkpoints come from |
| Jobs | one job's ledger row, outbox row, publisher calls, deliveries and gaps |
| Pipeline, Admission, ClockBack | all monitors and jobs: admission, consumption, evaluation, incidents; where every job, gap and accepted result comes from; and a run with a clock that goes back |
| Worker, EndToEnd | the worker with its journal, and worker, control plane and rollups together |
| Notifications | delivery of one notification by leasing workers |
| Tokens | refresh-token families |
| RateLimit | the fixed-window limiter |
| Signing | the length-prefixed signing input |

Where the code does not do what its documentation or a natural reading promises, the
model follows the code, and a lemma gives the exact condition together with a case in
which the promise fails:

- a result beyond its correction window is folded into the state if and only if it was
  newer than everything evaluated when it arrived and an evaluation has followed
  (`LateResultFoldedIff`); when consumption times go back, also a skipped one can be
  (`ClockBackFoldsSkipped`, `LateResultFoldedByClockBack`, `CorrectionRevivesSkipped`);
- an incident can be dated at a success (`IncidentStart`, `SuccessCanOpenIncident`);
- a catch-up job falls off the slot grid (`JobsOnGrid`, `CatchUpMissesGrid`);
- the daily checkpoint is not held back for the hourly one: a rolled day is right if and
  only if no slot lay between an hour's last roll and its end (`DayCompleteIff`), Maintain
  itself rolls a day short when it is 48 hours behind (`DayPassedEarly`), and nothing but a
  new result of that day or rolling it again repairs it (`DayStays`, `DayStaysShort`);
- the hourly checkpoint passes an hour that has not ended if and only if it has reached the
  database's hour and the application clock is in a later one (`RoundSafeIff`,
  `ClockAheadPassesOpenHour`); whatever the clocks, an hourly row without an invalidation is
  right if and only if no slot lies between the hour's last roll and its end (`HourRightIff`);
- a completed job can get its `expired` gap back (`GapReturnsIff`);
- a conflicting result is acknowledged if and only if its id has no quarantine row yet, so
  never again once it was recorded (`ConflictAcknowledgedIff`, `ConflictNeverAcknowledgedAgain`);
- a worker can answer a job twice if and only if the job runs out so late that a result
  stored at the pull can be forgotten before (`RetentionSuffices`, `LongJobAnswersTwice`);
- a NUL in the domain or a part of 2^32 bytes makes signing inputs collide
  (`RecoveredIff`, `NulDomainCollides`, `OverlongPartCollides`).

## Model

| member | source | states |
|---|---|---|
| Positions.OrderedSpec | internal/reliability/evaluation.go:212-217 | the ORDER BY listing of any set of results is strictly sorted by (scheduled_at, job_id) and has exactly its elements |
| Positions.SortedUnique | internal/reliability/evaluation.go:212-217 | a sorted listing is determined by its set of results |
| Evaluation.MonitorState.Evaluate | internal/reliability/evaluation.go:62-188 | the rollback and replay loop over mutable rows computes EvaluateTx and reports whether it was a correction |
| Evaluation.MonitorState.Accept | internal/reliability/evaluation.go:27-32 | accepting inserts the raw result and evaluates it exactly when it is inside the correction window |
| Evaluation.EvaluateFolds | internal/reliability/evaluation.go:62-188 | any evaluation of a consistent view leaves the plain fold over exactly the rows it keeps plus the results it replays |
| Evaluation.RollbackFolds | internal/reliability/evaluation.go:86-105 | the baseline row plus deleting from the corrected position on is the fold over the results before it |
| Evaluation.EveryRunIsAFold | internal/reliability/evaluation.go:62-188 | in every run, late results and timers included, table, counters and last position equal folding the evaluated results in order from unknown |
| Evaluation.EvaluationChain | internal/reliability/evaluation.go:86-145 | every row is one state advance of the row right before it, the state row is the last row and the last position the greatest |
| Evaluation.InWindowRunsFoldEverything | internal/reliability/evaluation.go:62-217 | if all results arrive in their windows, in any order and mixed with timers, the table is the fold over all accepted results |
| Evaluation.ArrivalOrderIsIrrelevant | internal/reliability/evaluation.go:62-217 | two runs with the same in-window arrivals in any two orders end in the same table and state |
| Evaluation.LateResultCountsIffNewest | internal/reliability/evaluation.go:50-60 | a timer evaluation right after a result beyond its window adds a row for it if and only if nothing newer was evaluated, and otherwise leaves the same table as without it |
| Evaluation.FateStep | internal/reliability/evaluation.go:62-188 | while in-window results are newer than p, a result p keeps its row, stays skipped, or gets its row at the very next evaluation |
| Evaluation.CorrectionRevivesSkipped | internal/reliability/evaluation.go:86-117 | in any run, a correction from before a skipped late result replays it and gives it a row |
| Evaluation.LateResultRewritesState | internal/reliability/evaluation.go:50-60 | a late result that is the monitor's only one does change the state |
| RunLength.ClosedForm | internal/reliability/evaluation.go:190-210 | the folded counters are a function of the last failure run and the trailing success run |
| RunLength.DownIff | internal/reliability/evaluation.go:190-210 | down if and only if the last failure run reached the failure limit and the trailing successes are below the recovery limit |
| RunLength.FailRunIsLongest | internal/reliability/evaluation.go:190-210 | the failure run is the longest all-failed suffix |
| RunLength.DownSuffixFailed | internal/reliability/evaluation.go:190-210 | when down, there are at least failure-limit results, and the newest failure-limit of them all failed exactly when the newest did |
| Incidents.IncidentService.ApplyEvaluation | internal/incident/service.go:72-111 | the statements on the mutable tables do what ApplySound and ApplyExact say of Apply |
| Incidents.IncidentService.AcknowledgeIncident | internal/incident/service.go:175-209 | acknowledges an open incident once, with one event, and says whether it was open |
| Incidents.IncidentService.ResolveManually | internal/incident/service.go:211-238 | resolves an open incident with its event and says whether it was open |
| Incidents.ApplySound | internal/incident/service.go:72-159 | one evaluation keeps at most one open incident and the event bookkeeping; down opens, healthy or corrected and not down resolves; nothing resolved or recorded changes |
| Incidents.ApplyExact | internal/incident/service.go:72-111 | an evaluation leaves the book alone when the rule is disabled, when down with an open incident, and when neither down nor healthy without a correction; otherwise it resolves the open incident, as a late correction exactly when corrected and else as an automatic recovery |
| Incidents.EveryRunGood | internal/incident/service.go:72-159 | in every run at most one incident is open, each has one opened event, and one resolved event exactly when resolved |
| Incidents.ResolvedIff | internal/incident/service.go:102-110 | in every run an incident is resolved as a kind if and only if some event closed it so: a manual resolution while open, a late correction that left the monitor not down, or an uncorrected acceptance that left it healthy |
| Incidents.AcknowledgedIff | internal/incident/service.go:175-209 | in every run an incident is acknowledged if and only if an acknowledgement came while it was open |
| Incidents.StateFollowsRule | internal/reliability/evaluation.go:62-188 | in every run the state is the fold with the rule's thresholds, or with three failures and two successes while the rule is disabled |
| Incidents.ResolvedForever | internal/platform/database/sqlc/incidents.sql.go:289-342 | resolved incidents and recorded events are the same in every later state |
| Incidents.AfterAcceptance | internal/incident/service.go:72-111 | right after an in-window acceptance under an enabled rule, down means one open incident, healthy or corrected and not down none, and an incident open before is still open if and only if the monitor is down, or not healthy without a correction |
| Incidents.IncidentStart | internal/incident/service.go:121-137 | an opened incident starts at the F-th newest evaluation, and all evaluations from there on failed if and only if the newest did |
| Incidents.SuccessCanOpenIncident | internal/incident/service.go:72-111 | failure, manual resolution, success: the success opens an incident dated at itself |
| Schedule.NextScheduleIsLeast | internal/fifo/scheduler.go:167-181 | nextSchedule is the least later slot of the interval that lies after now |
| Schedule.MonitorRow.ClosePeriods | internal/platform/database/sqlc/monitors.sql.go:23-28 | closing gives every open period the end now and leaves the others alone |
| Schedule.MonitorRow.Apply | internal/monitor/lifecycle.go:21-136 | update, pause, resume, delete and scheduler advance on the mutable row do what Step says |
| Schedule.EveryRunSound | internal/monitor/lifecycle.go:21-136 | in every run exactly one period, the newest, is open when the monitor is active and none otherwise, periods never overlap, and next_check_at is on the open grid |
| Schedule.ActiveIff | internal/monitor/lifecycle.go:21-136 | in every run a monitor is active if and only if it was never deleted and every pause was followed by a resumption, and its interval is the last update's |
| Schedule.PeriodsAreHistory | internal/monitor/lifecycle.go:21-136 | in every run and for every time of it, some period in force at that time says whether the monitor was active then and with which interval, whatever happened since |
| Schedule.PeriodOrigins | internal/monitor/lifecycle.go:21-136 | every period of a run is the first one or was opened by an update or a resumption, which dates its start and its first slot |
| Schedule.JobsOnGrid | internal/fifo/scheduler.go:120-165 | in every run a job sits on a slot of the open period if and only if it is created within its start window or now happens to be a slot |
| Schedule.CatchUpMissesGrid | internal/fifo/scheduler.go:120-125 | a catch-up job can miss the grid |
| Slots.GenerateSeries | internal/platform/database/sqlc/reliability.sql.go:256-287 | the loop computes generate_series |
| Slots.SlotsExact | internal/platform/database/sqlc/reliability.sql.go:256-287 | the jump-start series lists exactly the grid points of the period inside the period and the window, each once, in order |
| Slots.ReportAdds | internal/platform/database/sqlc/reliability.sql.go:256-287 | expected, observed and successful counts add over adjacent windows |
| Slots.ReportBounds | internal/platform/database/sqlc/reliability.sql.go:256-287 | 0 <= successful <= observed <= expected and expected = observed + unknown for every report, with one scheduled result per slot |
| Slots.ReportCounts | internal/platform/database/sqlc/reliability.sql.go:256-287 | for every sound monitor expected is the size of the set of slots its periods expect in the window, observed of those with a scheduled result and successful of those with a successful one |
| Slots.NormalizeBoundedIff | internal/reliability/service.go:35-51 | the clamping order yields successful <= observed <= expected if and only if successful and observed did not both exceed expected |
| Slots.ReportRatios | internal/reliability/service.go:52-65 | counts of the report query are not changed by clamping, and uptime and coverage lie between 0 and 1 |
| Slots.NoSlotTwice | internal/platform/database/sqlc/reliability.sql.go:256-287 | no slot is expected by two periods of a monitor |
| Slots.StepKeepsReport | internal/monitor/lifecycle.go:21-136 | no change of a monitor alters the report over a window that has already ended |
| Rollups.RollupService.RollupHour | internal/reliability/rollups.go:10-29 | upserting the rows and deleting the invalidations is RollHour |
| Rollups.RollupService.RollupDay | internal/reliability/rollups.go:31-57 | fails exactly when an hour of the day is stale, and otherwise is RollDay |
| Rollups.RollupService.AdvanceRollups | internal/reliability/maintenance.go:44-116 | rejects bounds outside 0..168 and 0..90; otherwise, whatever the clock, moves the hourly checkpoint to exactly the last hour ended by that clock or by maxHours, recounts every hour it passes and keeps all tables in agreement; when the hours it passes have ended by the database's clock, the checkpoint still only passes closed hours and every day passed whose hours it covers is closed |
| Rollups.RollupService.RepairInvalidated | internal/reliability/maintenance.go:13-42 | keeps all tables in agreement and a safe checkpoint safe, removes at least one invalidation per repair and adds none, and repairing fewer buckets than the limit means that none is stale any more |
| Rollups.RollHourRow | internal/platform/database/sqlc/reliability.sql.go:772-843 | after RollHour every monitor's row of the hour is the recount up to now, also for monitors the statement returns no row for |
| Rollups.RollDayRow | internal/platform/database/sqlc/reliability.sql.go:735-762 | after RollDay every monitor's daily row is the sum of its hourly rows |
| Rollups.RollupsAgree | internal/reliability/maintenance.go:44-116 | in every run, whatever the clocks, a day rolled after its hours has a pending invalidation or equals both the sum of its hourly rows and the report query over the day; and when no hour was started before it ended, an hour the checkpoint has passed has one or its row equals the recount from raw results |
| Shortfall.EveryRunPrecise | internal/platform/database/sqlc/reliability.sql.go:772-843 | in every run, whatever the clocks, an hourly row expects exactly the slots before the hour's last roll, and without a pending invalidation equals the report query over them |
| Shortfall.HourRightIff | internal/reliability/rollups.go:10-29 | in every run, whatever the clocks, the row of an hour without a pending invalidation equals the recount over the whole hour if and only if no slot lies between the hour's last roll and its end |
| Shortfall.DayCompleteIff | internal/reliability/rollups.go:31-57 | in every run, whatever the clocks, whenever RollupDay rolls a day, the row equals the report query over the day in all counts if and only if no slot lies between the last roll of an hour and its end |
| Shortfall.DayPassedEarly | internal/reliability/maintenance.go:155-159 | 48 hours behind, AdvanceRollups(now, 24, 7) passes 24 hours and two days: day 0 is right, day 1 has no row and no invalidation although slots were due |
| Shortfall.DayStays | internal/reliability/maintenance.go:13-116 | as long as an ended day is not rolled again and gets no result, its row, its invalidation and its report query stay the same in every continuation, also when its hours are rolled |
| Shortfall.DayStaysShort | internal/reliability/maintenance.go:13-116 | so the short day of that run stays short and without an invalidation |
| Shortfall.RoundSafeIff | internal/reliability/maintenance.go:44-79 | from any safe state, AdvanceRollups starts on an hour that has not ended, and passing it leaves the checkpoint unsafe, if and only if the checkpoint has reached the database's hour and the call's clock is in a later one |
| Shortfall.ClockAheadPassesOpenHour | internal/reliability/maintenance.go:44-79 | such a clock, however little ahead, passes hour 0 before it has ended, leaving a short row without an invalidation |
| Checkpoints.HourStaleIff | internal/fifo/consumer.go:142-148 | in every run an hour has an invalidation for a monitor if and only if a result for one of the monitor's slots in the hour was accepted after the hour was last recounted |
| Checkpoints.DayStaleIff | internal/reliability/rollups.go:31-57 | in every run a day has one if and only if a result for a slot in the day was accepted after the day was last recounted, a recount waiting for the day's stale hours |
| Checkpoints.PassedWasRolled | internal/reliability/maintenance.go:44-116 | in every run, whatever the clocks and however calls overlap, each hour and day a checkpoint has passed was read by a call whose clock was past its end and was recounted, a day while none of its hours was stale |
| Jobs.JobRows.ClaimOutbox | internal/platform/database/sqlc/fifo.sql.go:14-46 | claims a due pending row with a new lease, or past the expiry gives the job up with its gap |
| Jobs.JobRows.RecordOutcome | internal/fifo/publisher.go:75-103 | the lease-guarded outcome update with its delays, and the unguarded job update after a successful send |
| Jobs.JobRows.PublishNext | internal/fifo/publisher.go:41-104 | an uninterrupted call is claim, send and outcome in turn, or the claim alone when nothing was claimed; when the queue takes the message the row ends published and a pending job too, else pending or, after the third attempt, ambiguous |
| Jobs.JobRows.ReclaimLease | internal/platform/database/sqlc/fifo.sql.go:1012-1024 | an expired lease returns the row to pending or, after three attempts, ambiguous |
| Jobs.JobRows.Consume | internal/fifo/consumer.go:69-121 | the consumer's branches on one job do what DeliveryAnswer says; the message is acknowledged exactly when the transaction commits |
| Jobs.JobRows.SweepDeadline | internal/platform/database/sqlc/fifo.sql.go:1034-1053 | an active job past its expiry without a result becomes expired with its gap |
| Jobs.JobRows.ReconcileJobDLQ | internal/fifo/dlq.go:93-109 | a job of that pool that is not completed becomes dead with its gap |
| Jobs.EveryRunSafe | internal/fifo/publisher.go:41-104 | outbox, sends and ledger are consistent after every interleaving of publishers, crashes, reclaims, deliveries, sweeps and dead letters |
| Jobs.AtMostThreeSends | internal/fifo/publisher.go:41-104 | at most three sends in every run, all of the message written at creation; pending means fewer than three attempts |
| Jobs.DeliveredForever | internal/platform/database/sqlc/fifo.sql.go:965-994 | a published outbox row never changes again |
| Jobs.StaleOutcome | internal/platform/database/sqlc/fifo.sql.go:935-976 | an outcome changes the row if and only if its call holds the lease, and only the newest call can |
| Jobs.OutcomeRecorded | internal/fifo/publisher.go:78-96 | in every run the lease holder's outcome publishes the row, or puts it back for 10 and 20 seconds after its first and second failure, or makes it ambiguous for 120 after the third; a successful send publishes a pending job with or without the lease |
| Jobs.ClaimExact | internal/fifo/publisher.go:41-68 | in every run a claim takes exactly a pending row that is due, for 45 seconds and with the stored message, and past the job's expiry gives it up with its gap |
| Jobs.ReclaimExact | internal/platform/database/sqlc/fifo.sql.go:1012-1024 | in every run exactly a lease that has run out is taken back, to pending or after three attempts to ambiguous |
| Jobs.SweepExact | internal/platform/database/sqlc/fifo.sql.go:1034-1053 | in every run a sweep expires exactly the active jobs past their expiry, and a dead letter of the job's pool kills exactly a job without an accepted result, each with its gap |
| Jobs.FirstPublication | internal/fifo/publisher.go:41-104 | the first call for a new job publishes it, with its message sent once, when the queue takes it |
| Jobs.LedgerAgrees | internal/platform/database/sqlc/fifo.sql.go:85-94 | in every run a job is completed exactly when it has an accepted result, and an expired or dead job has its gap |
| Jobs.TerminalForever | internal/platform/database/sqlc/fifo.sql.go:897-923 | no step makes an inactive job active again, and a completed job keeps its state and result |
| Jobs.AcceptedIsFirst | internal/fifo/consumer.go:79-110 | in every run the accepted result is the first delivery whose id is free that is signed, has the job's pool, hash and slot, started within five seconds of the job's window and completed no more than five seconds after the consumer's time |
| Jobs.DeliveryAnswer | internal/fifo/consumer.go:79-121 | by those fields alone: which deliveries are accepted, repeat the accepted result, conflict with it in attempt or id, or are refused, and what each leaves in the job's rows |
| Jobs.ConflictsExact | internal/fifo/consumer.go:83-97 | in every run the recorded conflicts are exactly the ids of such deliveries that differ from the first one in attempt or id and are not quarantined |
| Jobs.GapReturnsIff | internal/platform/database/sqlc/fifo.sql.go:989-994 | right after acceptance the gaps are gone; they stay gone in every continuation if the lease's send succeeded, there is no lease or three attempts were made, and otherwise a failed send and a late claim bring the expired gap back |
| Pipeline.Scheduler.ScheduleDue | internal/fifo/scheduler.go:56-166 | commits the whole batch or nothing, and the returned count is the number of jobs inserted and of scheduled jobs that became active |
| Pipeline.AdmitAllInv | internal/fifo/scheduler.go:92-165 | a committed batch keeps every invariant of the system |
| Pipeline.EveryRunInv | internal/fifo/consumer.go:44-158 | every event of the system keeps the jobs' safety, one job per slot, one job per result id, the admission bounds and the agreement of reports with accepted results |
| Pipeline.AdmissionBounds | internal/fifo/scheduler.go:92-165 | in every run at most one active scheduled job per monitor, 1000 scheduled and 10 manual jobs in all, no slot with two jobs, and each outbox row with its job's hash and expiry |
| Pipeline.InsertBounded | internal/monitor/lifecycle.go:138-210 | inserting a job below its limit keeps the bounds, also when the slot is taken and nothing is inserted |
| Admission.JobsAreSealed | internal/fifo/scheduler.go:119-165 | in every run each job was created by one admission or manual test and still carries the pool, hash and bytes sealed for it, the slot the monitor was due at or now, and an expiry two minutes later |
| Admission.AdmitExact | internal/fifo/scheduler.go:92-165 | an admission inserts a job exactly for an active due monitor without a job in flight, below 1000 and for a free slot; it records the refused or missed slot and advances the schedule |
| Admission.TestExact | internal/monitor/lifecycle.go:138-210 | a manual test is admitted exactly for a monitor that is not deleted, with fewer than ten manual jobs in flight, fewer than 900 scheduled ones and no monitor 30 seconds behind |
| Admission.GapsExact | internal/fifo/scheduler.go:100-126 | in every run the recorded slot gaps are exactly the slots refused at the limit and the slots missed by two minutes |
| Admission.SweepsExact | internal/fifo/maintenance.go:25-110 | in every run the two sweeps change exactly the overdue jobs in flight and the leases that ran out, and nothing else |
| Admission.AcceptedIff | internal/fifo/consumer.go:69-121 | in every run a job's accepted result is r if and only if one consumption delivered r while nothing was accepted, fitting the job and with an id of no other job's result |
| Pipeline.StateIsFoldOfAccepted | internal/fifo/consumer.go:122-132 | after every run with in-window acceptances a monitor's table and state are the ordered fold over exactly the accepted scheduled results of its jobs |
| Pipeline.SameAcceptedSameState | internal/fifo/consumer.go:122-132 | two runs that accepted the same results agree on the monitor's table and state |
| Pipeline.LateResultFoldedIff | internal/reliability/evaluation.go:24-32 | in every run in which nothing is consumed at an earlier time afterwards, a result accepted beyond its window has an evaluation row if and only if on arrival it was newer than every evaluated result and a timer or an in-window acceptance of its monitor has followed |
| Pipeline.ClockBackFoldsSkipped | internal/fifo/consumer.go:122-132 | from any state of a run, a skipped late result gets a row when an in-window result of an earlier slot is accepted, which needs an earlier consumption time |
| ClockBack.LateResultFoldedByClockBack | internal/fifo/consumer.go:122-132 | for every interval a legal run from the empty system, through admission, dead letters and consumption, reaches that case: the late result is skipped on arrival and folded in by the last event |
| Pipeline.ScheduledJobsOnGrid | internal/fifo/scheduler.go:119-165 | in every run each scheduled job sits on a slot of one of its monitor's periods or caught up for a recorded missed slot more than the start window earlier |
| Pipeline.AdmittedOnGridIff | internal/fifo/scheduler.go:119-126 | when a run admits a job, its slot is on the open period's grid if and only if it is within the start window or now is a slot |
| Pipeline.RedeliveryChangesNothing | internal/fifo/consumer.go:83-103 | consuming again a delivery that committed earlier in the run changes no accepted result, job state, gap, ordered state or incident |
| Pipeline.ConflictAcknowledgedIff | internal/platform/database/sqlc/fifo.sql.go:517-531 | a valid result that differs from the accepted one is acknowledged if and only if no earlier event of the run put its id into quarantine |
| Pipeline.ConflictNeverAcknowledgedAgain | internal/fifo/consumer.go:84-97 | once a conflicting result was recorded, no later delivery of it is acknowledged |
| Pipeline.AgreeingRunsArePeaceful | internal/fifo/consumer.go:83-103 | if all committed deliveries of a job carry one attempt and one result id, no conflict is ever recorded for it |
| Worker.WorkerProcess.RunOnce | internal/modworker/worker.go:66-147 | the branching of RunOne over pending publication, journal and queues does what Step says |
| Worker.WorkerProcess.PublishResultAndAcknowledge | internal/workqueue/sqs.go:65-77 | sends first and deletes only after a successful send |
| Worker.WorkerProcess.AcceptJob | internal/workerjournal/journal.go:33-43 | refuses a job journaled with another snapshot and otherwise keeps any stored result |
| Worker.WorkerProcess.CleanupJournal | internal/workerjournal/journal.go:63-69 | deletes exactly the completed rows older than seven days, to the second |
| Worker.IdenticalResults | internal/modworker/worker.go:66-147 | in every run with crashes, redeliveries, failed sends and cleanups all results of a job on the queue are identical, and equal the stored one while the journal has the row |
| Worker.SentReportsMeasurement | internal/modworker/worker.go:115-147 | in every run each result on the queue reports, for its job, the outcome, identifiers and times the engine measured in one call that pulled the job in time, with that job's hash and slot and the worker's pool |
| Worker.JournaledBeforeSent | internal/modworker/worker.go:126-145 | in every run, each result on the queue was committed to the journal, for the same job and with the same bytes, before it was sent the first time, across crashes, pending publications and cleanups |
| Worker.DeletedAfterSent | internal/workqueue/sqs.go:65-81 | a job message is deleted only after a result of that job and snapshot was sent or past its expiry plus tolerance |
| Worker.CallExact | internal/modworker/worker.go:66-147 | after any run a call first retries what an earlier one left unfinished, else answers a pulled job from the journal, gives it up past its expiry, leaves a conflicting one alone, or executes it, journals the result and sends it; what is not sent and deleted is kept for the next call, and a crash only loses that |
| Worker.RetentionSuffices | internal/modworker/worker.go:154-156 | in every run in which each pulled job runs out before a result stored at the pull can be forgotten, seven days later to the second, no cleanup forgets the result of a job that may still run |
| Worker.NearSlotsSuffice | internal/envelope/envelope.go:334-342 | jobs that run out within two minutes of their slot, as the envelope demands, meet that condition when no slot lies seven days, less two minutes and the tolerance, ahead of the worker's clock |
| Worker.LongJobAnswersTwice | internal/workerjournal/journal.go:63-69 | any job that fails that condition can be executed twice in a run from the start, putting two different results on the queue |
| EndToEnd.OneWorkerNeverConflicts | internal/modworker/worker.go:66-147 | if one worker handles a job, no run of worker and control plane records a conflict for it |
| EndToEnd.AcceptedWasMeasured | internal/modworker/worker.go:115-147 | and the job's accepted result reports what the worker's engine measured in one of its calls, for the job's own snapshot, slot and pool |
| EndToEnd.PipelineDrivesRollups | internal/fifo/consumer.go:142-148 | the schedules and accepted scheduled results of every pipeline run, with maintenance in between, drive a run of the rollup tables that sees exactly them, whatever clocks maintenance reads checkpoints with |
| EndToEnd.RollupsCountAccepted | internal/fifo/consumer.go:142-148 | so, whatever the clocks, an hourly row without an invalidation holds the numbers of the monitor's slots in the hour, of those its jobs have an accepted result for and of those with a successful one, if and only if no slot lies between the hour's last roll and its end; closed days are stale or hold them, and so do passed hours when none was started before it ended |
| Notifications.Delivery.DeliverNext | internal/notification/worker.go:110-135 | an uninterrupted call is reclaim, claim and answer in turn |
| Notifications.Delivery.AcceptDelivery | internal/notification/worker.go:178-205 | records the acceptance or reports the lease lost |
| Notifications.Delivery.RetryOrFail | internal/notification/worker.go:207-240 | records the retry or the failure or reports the lease lost |
| Notifications.Delivery.ReclaimExpired | internal/platform/database/sqlc/notifications.sql.go:251-261 | an expired lease returns the row to pending |
| Notifications.EveryRunSafe | internal/notification/worker.go:110-240 | in every run recorded attempts are numbered 1 to attempt_count, at most 4; pending means fewer than 4, failed exactly 4 with the last one given up, accepted that the last one was taken |
| Notifications.AttemptsSpaced | internal/notification/worker.go:254-265 | successive recorded attempts are at least 1, 5 and 25 minutes apart, whatever is reclaimed in between |
| Notifications.OnlyLeaseHolderRecords | internal/platform/database/sqlc/notifications.sql.go:14-28 | an answer is recorded if and only if its call holds the lease, only the newest call can, and otherwise the row is untouched |
| Notifications.LeaseExact | internal/notification/worker.go:137-176 | in every run a claim takes exactly a pending row that is due, for the whole lease and with the next attempt's number, and exactly a lease that has run out is taken back |
| Notifications.AnswerRecorded | internal/notification/worker.go:178-265 | in every run the lease holder's yes makes the notification accepted with attempt n recorded as taken; a no schedules the next attempt in 1, 5 or 25 minutes, and the fourth one fails it |
| Notifications.AcceptedIff | internal/notification/worker.go:110-205 | in every run a notification is accepted if and only if the provider said yes to a call that still held its lease |
| Notifications.SettledForever | internal/platform/database/sqlc/notifications.sql.go:116-133 | accepted and failed are absorbing |
| Notifications.AttemptsOnlyGrow | internal/platform/database/sqlc/notifications.sql.go:195-206 | recorded attempts are never changed or removed |
| Tokens.SessionService.RotateToken | internal/auth/session_service.go:16-92 | succeeds exactly for a usable token and leaves the presented token unusable |
| Tokens.SessionService.LogoutToken | internal/auth/session_service.go:98-134 | revokes the family, or all of the user's sessions when asked with an active token, and leaves the token unusable |
| Tokens.SessionService.CleanupSessions | internal/auth/session_service.go:139-161 | deletes the expired or revoked access tokens and the fully expired families of the batch |
| Tokens.FamilyIsOneChain | internal/auth/session_service.go:16-92 | in every run a family is one replacement chain with exactly its last token unrotated, so at most one is usable |
| Tokens.LoginExact | internal/auth/token_family.go:40-96 | a login issues two tokens of the user and the new family, each usable exactly until its expiry, and leaves every other token as it was |
| Tokens.RefreshExact | internal/auth/session_service.go:16-92 | a usable token is exchanged for two of its user and family, each usable exactly until its expiry, and spent; a rotated one ends the family; any other changes nothing |
| Tokens.ReplayEndsFamily | internal/auth/session_service.go:37-45 | after a rotated token is replayed no refresh or access token of its family is usable in any later state at any time |
| Tokens.LogoutEndsFamily | internal/auth/session_service.go:98-134 | after a logout no refresh or access token of the token's family is usable in any later state, at any time, even when the token no longer was |
| Tokens.AllSessionsEnd | internal/auth/password_reset.go:63-110 | after a logout everywhere or a password reset whatever of the user's is usable, in any later state and at any time, belongs to a later login |
| Tokens.OthersKeepSessions | internal/auth/session_service.go:98-134 | neither ends any other user's session, and a logout that is not everywhere no other family |
| Tokens.CleanupRemovesWholeFamilies | internal/platform/database/sqlc/auth.sql.go:228-262 | a family is removed whole or not at all and only when fully expired; nothing unexpired is lost and no token's usability changes |
| Tokens.CleanupExact | internal/auth/session_service.go:139-161 | exactly the batch's expired or revoked access tokens and the batch's fully expired families are deleted |
| RateLimit.RateLimiter.AllowRequest | internal/httpapi/ratelimit.go:119-137 | the method admits and counts as Allow does and returns the Retry-After seconds of a refusal |
| RateLimit.AtMostTwiceTheLimit | internal/httpapi/ratelimit.go:119-137 | with a monotone clock every closed interval of one window length holds at most 2 * limit admitted requests of a key |
| RateLimit.TwiceTheLimitHappens | internal/httpapi/ratelimit.go:119-137 | for every limit and window a run admits exactly 2 * limit requests within one window length |
| RateLimit.LogIsWhatWasAdmitted | internal/httpapi/ratelimit.go:119-137 | the log grows by exactly the admitted requests of the key |
| RateLimit.RetryAfterSound | internal/httpapi/ratelimit.go:127-132 | a request at or after Retry-After is admitted if the key's bucket was not touched meanwhile |
| RateLimit.RetryAfterTight | internal/httpapi/ratelimit.go:127-132 | admission starts exactly at the end of the window, and Retry-After exceeds it by less than a second |
| Signing.AppendDomain | internal/envelope/envelope.go:318-332 | the loop computes Encode, with lengths truncated to 32 bits and written big-endian |
| Signing.RoundTrip | internal/envelope/envelope.go:318-332 | a parser recovers domain and parts when the domain is NUL-free and every part is shorter than 2^32 bytes |
| Signing.RecoveredIff | internal/envelope/envelope.go:318-332 | it does so if and only if those conditions hold |
| Signing.Injective | internal/envelope/envelope.go:318-332 | distinct such inputs never share bytes |
| Signing.NulDomainCollides | internal/envelope/envelope.go:318-332 | every part that ends in NUL gives a domain with NUL that collides |
| Signing.OverlongPartCollides | internal/envelope/envelope.go:318-332 | a zero part whose length is a multiple of 2^32 collides with empty parts |

## Left out

- Retention and ledger deletion (ApplyRetention, CleanupLedger): raw rows, jobs and rollup rows are kept for good.
- Changes of a monitor's alert thresholds: they are fixed for a run, with both at least 1 where the closed form needs it.
- Evaluation.MonitorState.Evaluate: the display state, the per-slot evaluation position and the correction event are not modelled; they derive from the evaluation table and the newest expected slot, and only dashboards and the correction record read them.
- Evaluation.MonitorState.Accept: takes the outcome of the window test as an input; Pipeline computes it from the consumption time and the job's expiry.
- Pipeline.Scheduler.ScheduleDue: takes the due list as an input, any distinct due monitors without an active job; its order and the rows skipped because they are locked are not modelled. Failing to seal a job is one input, whatever the cause.
- Rollups.RollupsAgree: covers counts, not the summed durations; a manual result counts in no rollup.
- Worker.IdenticalResults: a job's expiry is a function of the job, as the signed snapshot fixes it, the worker's clock does not run backwards, and either the journal is not cleaned or each pulled job runs out before a result stored at the pull can be forgotten; LongJobAnswersTwice shows that any other job can be answered twice.
- EndToEnd.OneWorkerNeverConflicts: makes the same assumptions about the worker's runs as IdenticalResults.
- RateLimit.RetryAfterSound: exact integer seconds; the rounding of the source's floating-point ceiling is not modelled.
- Envelope sealing, signatures, key lookup and CBOR: a delivery is authentic or not.
- The queues themselves: deliveries may be lost, repeated, delayed and reordered without limit; visibility timeouts and FIFO deduplication only restrict that.
- The limiter's count of open event streams per client, the dashboard's display state and latency averages, and the read-only endpoints: each is a single counter or query that no other operation depends on.
- Ownership, roles, worker-pool lifecycle, e-mail verification and password-reset tokens (only the revocation a reset does is there).
- PostgreSQL isolation below the transaction level.
