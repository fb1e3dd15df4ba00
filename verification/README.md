# Verified model of the agent gateway and harness

A Dafny 4.11 model of the parts of the system whose correctness spans many calls: the
durable launch queue and its scheduler, Slack admission, chat memory capture, tool
package inheritance, and the text and policy transformations that the gateway and the
harness must agree on. `dafny verify dfyconfig.toml` checks everything.

## What is modelled

**Launch queue.** `RunQueue` has the tables as maps, the guarded updates as functions on
rows, and the `Store` class that performs them in place. `QueueRuns` interleaves every
store call, every step of every half-finished start and every single update of every
recovery sweep, by any number of workers and sweeps, and has the invariants all runs keep.
`QueueBounds` bounds an item's transitions, `QueueFencing` is about leases, `QueueAudit`
about the audit rows of running items, and `QueueSweeps` about what recovery does when its
scan and its updates are interrupted and when they are not. `Timestamps` and
`QueueDeadlines` work out what comparing RFC 3339 texts means for leases and for queue
order, and `TimestampFields` reads such texts back. `QueueService` has the worker-facing calls. `Scheduler` is the scan that enqueues
due launches, `ScheduleDue` says which those are, and `SchedulerRuns` is any number of scans
interleaved with the queue.

**Slack admission.** `SlackDedupe` and `SlackLimiter` are the two classes over their steps;
`SlackAdmission` takes each channel operation and each mutex section as one step of racing
deliveries; `SlackEnvelopes` says what that means for the envelopes that arrive.

**Memory capture.** `MemoryCapture` is the capture loop, its cursor, the default-deny flow
rule, and when the code's keys coincide; `MemoryRuns` interleaves the calls of any number
of sessions, event by event, with each other, with growing sessions and with searches, and
saves may fail; `MemoryCalls` relates them to whole capture calls and has the runs that go
wrong; `MemoryFlow` states the flow rule per application and user on the history of what
searches returned.

**Tool packages.** `KeyedMerge` has the two keyed-list merges, with a reference definition
of what they compute, and their associativity; `ToolPackages` the whole package overlay
and the loader with its visited set; `PackageChains` tells from the packages what a chain
comes to. `EnvExpansion` is the environment-reference scanner, specified by the one lossless
tokenization of its input, and `EnvMeaning` the same by the characters of the text.

**Text and policy.** `SessionText` sets policy injection against text cleaning,
`AgentStream` event frames against the line decoder, `Redaction` the stored and the shown
form of an input against each other, and `MemoryAuthority` the gateway's choice of a
memory domain against the harness's. `SessionMarkers`, `AgentReplies`, `RedactionFields` and
`AuthorityFields` state what these come to in the fields and the characters of their inputs.
`Text` holds the string operations they share.

## What the proofs found

- Every transition lowers 3 * (maxAttempts - attempts) plus the phase, except cancelling a
  queued row, which leaves it (`PhaseRankDrops`, `CancelKeepsPhaseRank`). The phase count
  still bounds an item's transitions, by one more than 3 * maxAttempts; ranking terminal
  rows lowest gives 3 * maxAttempts (`TransitionsBounded`, `ThreePerAttempt`).
- A retry limit equal to the largest 64-bit integer wraps to a negative bound
  (`MaxAttemptsPositive`).
- Recovery scans first and then updates by id with no guard, outside a transaction. Leases,
  audit rows and payloads are safe whenever the updates come; terminal stability and the
  retry bound are safe along a run exactly if every update comes in time (`InTimeExactly`,
  `PromptExactly`, `RowsPersist`). Runs that break them are reachable (`CompletedReopened`,
  `AttemptsPassBound`). Even an update that comes in time takes a lease whose deadline is
  ahead of its sweep, exactly when it finds one, and that is one granted or renewed since
  the scan (`StrippedSinceScan`, `RenewedLeaseStripped`).
- A lease can have the executor start a run exactly while a start under it has not done so
  yet or a row is leased under it (`ExecutorCallable`). So a second run can follow a first
  exactly if another start under the lease has read its item by then, or the row is still
  leased (`SecondCallExactly`); both happen (`ExecutedTwice`, `ExecutedAgain`). Along a run
  whose starts under a lease neither overlap nor end on a taken run id there is one at most
  (`ExecutorOnce`).
- The queue row stores the trimmed run id, link and snapshot the untrimmed one
  (`FoundAfterMark`, `UntrimmedRunIdIsLost`).
- RFC3339Nano drops trailing zeros, so two times in one second sort wrongly exactly when
  the earlier printed fraction is a beginning of the later one (`SameSecondOrder`,
  `TenthSortsLate`); a lease can outlive its deadline by up to a second, while a start is
  refused at once (`SweepTakes`, `StartRefusedFirst`).
- With k schedule scans under way at once, a launch's limits are exceeded by k - 1 at most
  (`LimitsAlwaysHold`). Some run does so to a positive run limit, whatever the parallelism
  (`TotalReached`); some run does so to the parallelism exactly if no positive run limit is
  below it (`LimitReached`).
- `mergeByStringKey` is associative on all lists; distinct keys are not needed.
- Two memory flows are taken for one, and the second is lost, also when an arrow inside an id
  makes their keys coincide (`FlowsCoincide`). In the same way messages of different senders
  can hold each other back when a channel id has a colon in it (`ScopesCoincide`).
- Some users of two applications share a turn key exactly when one application's name
  extends the other's by a colon (`AppsCollide`). The flow rule holds over all runs of some
  people, whatever the policy, exactly if no two of them share one (`TurnsApartExactly`,
  `FlowsPastRule`).
- Some sessions of two users share a cursor key under a like condition
  (`CursorKeysCoincide`). Capture loses and repeats nothing over all runs of some sessions,
  whatever the policy, exactly if no two of them share one (`KeysApartExactly`,
  `SessionSkipped`).
- Cleaning undoes injection unless the operator's policy text itself holds closing
  brackets in the wrong place; the exact condition is `ControlBlocksOnly`.
- The line decoder departs from the standard's event stream in four ways: a type outlives
  a frame without data (`ErrorLandsOnMessage`), all leading spaces of a data line are
  dropped, empty data lines at the start are dropped, and the last event needs no blank
  line. `DecodedMeaning` and `EventsRoundTrip` are exact.
- The harness does not check memory grants when it has no readable domain, and then refuses
  writes the gateway allows (`HarnessAgrees`, `LoneWriteDomain`); the gateway's own
  configuration check rules this out.

## Model

| member | source | states |
|---|---|---|
| RunQueue.MaxAttemptsPositive | harness/internal/services/launchpad/service.go:714-719 | a policy grants at least one attempt if and only if its retry limit is not the largest 64-bit integer, whose successor wraps; below it the bound is the limit plus one, and one for a negative limit |
| RunQueue.OldestEligibleUnique | harness/internal/services/launchpad/store.go:320-322 | leasing finds a row exactly when some queued row is eligible for the target, and `ORDER BY enqueued_at, id LIMIT 1` determines that row uniquely |
| RunQueue.FirstExists | harness/internal/services/launchpad/store.go:321 | the (enqueued_at, id) order has a first row in every non-empty set of rows |
| RunQueue.ReleaseStatus | harness/internal/services/launchpad/service.go:307-319 | a blank status is completed, a text that names a terminal status is that status, and any other text is refused |
| RunQueue.Store.InsertRunQueueItem | harness/internal/services/launchpad/store.go:202-246 | stores the row under a new id, or refuses a taken id and changes nothing |
| RunQueue.Store.CountRunQueueItems | harness/internal/services/launchpad/store.go:292-308 | the loop over the rows counts each row of the launch in one of the statuses exactly once; no statuses means all |
| RunQueue.Store.LeaseNextRunQueueItem | harness/internal/services/launchpad/store.go:311-345 | takes a queued row that asks for this worker or for none, the earliest by enqueue time and then id, and fills the lease columns and counts an attempt, changing no other row; if it finds none, every queued row asks for another worker |
| RunQueue.Store.RenewRunQueueLease | harness/internal/services/launchpad/store.go:348-364 | moves the deadline of a row still held under that lease; any other call changes nothing |
| RunQueue.Store.MarkRunQueueItemRunning | harness/internal/services/launchpad/store.go:367-384 | only a leased row under that lease starts running, with the trimmed run id |
| RunQueue.Store.ReleaseRunQueueLease | harness/internal/services/launchpad/store.go:387-406 | only a row held under that lease is finished; its lease columns are cleared and a blank run id keeps the stored one |
| RunQueue.Store.CancelRunQueueItem | harness/internal/services/launchpad/store.go:409-426 | only a queued or leased row is canceled |
| RunQueue.Store.ScanExpired | harness/internal/services/launchpad/store.go:430-451 | the scan returns each expired row exactly once, with the attempt counters it has |
| RunQueue.Store.RecoverLease | harness/internal/services/launchpad/store.go:452-463 | one update by id alone, with the counters the scan read, whatever has become of the row; a row that is gone is no error |
| RunQueue.Store.RecoverExpiredRunQueueLeases | harness/internal/services/launchpad/store.go:429-465 | the collecting loop and the updates by id together recover exactly the expired rows, requeueing or failing each by its own counters, and count them |
| RunQueue.Store.InsertRunLink | harness/internal/services/launchpad/store.go:149-158 | adds the pair, or refuses one that is there and changes nothing |
| RunQueue.Store.InsertRunSnapshot | harness/internal/services/launchpad/store.go:161-193 | adds the snapshot under a new run id, or refuses and changes nothing |
| QueueRuns.StepWrites | harness/internal/services/launchpad/store.go:202-465 | no step of anybody touches more than one row, and what it writes there is what that call's update says |
| QueueRuns.StepKeeps | harness/internal/services/launchpad/store.go:310-465 | whatever the step, payload, retry bound and enqueue time never change and attempts never go back, late recovery updates included |
| QueueRuns.RowsKept | harness/internal/services/launchpad/store.go:310-465 | the same over every run: no row is lost and no payload changes |
| QueueRuns.StepMoves | harness/internal/services/launchpad/store.go:310-465 | every step but an update that comes too late makes one of the listed moves: attempts grow exactly when a lease is granted, and a terminal row stays as it is |
| QueueRuns.RowStep | harness/internal/services/launchpad/store.go:324-459 | every step but such an update keeps attempts within the bound, one attempt left for a queued row, and the lease columns filled exactly while a worker owns the row |
| QueueRuns.TargetsAlways | harness/internal/services/launchpad/store.go:318-334 | over every run, late recovery updates included, a leased or running row asks for no worker or for the one that owns it |
| QueueRuns.LiveOrigin | harness/internal/services/launchpad/store.go:324-384 | a live row's lease was its own before the step or has just been granted to it; a running row's run id comes from its own completed start |
| QueueRuns.LeasesStep | harness/internal/services/launchpad/service.go:845-851 | no two live rows ever share a lease id |
| QueueRuns.AuditStep | harness/internal/services/launchpad/service.go:274-297 | every running row keeps a link and a snapshot with exactly the row's payload |
| QueueRuns.SweepsStep | harness/internal/services/launchpad/store.go:429-465 | what a sweep has scanned stays consistent with the rows: same bound, and attempts not ahead of the row's |
| QueueRuns.InvAlways | harness/internal/services/launchpad/store.go:310-465 | distinct leases, audit rows, starts and sweeps under way stay consistent after every run, whenever sweeps come to their updates |
| QueueRuns.RowsAlways | harness/internal/services/launchpad/store.go:310-465 | every row stays well formed along every run whose recovery updates come in time |
| QueueRuns.Reachable | harness/internal/services/launchpad/store.go:202-465 | both hold in every state reachable from empty tables |
| QueueRuns.RowsPersist | harness/internal/services/launchpad/store.go:366-465 | over every run whose recovery updates come in time, a terminal row never changes |
| QueueSweeps.InTimeExactly | harness/internal/services/launchpad/store.go:449-461 | a recovery update, which has no status or lease guard, is a move a row may make and leaves it well formed if and only if it comes in time: the row waits, or is owned and the scan's verdict still fits |
| QueueSweeps.PromptExactly | harness/internal/services/launchpad/store.go:429-465 | along a run from well-formed rows every row keeps to the moves rows may make and stays well formed if and only if every recovery update comes in time |
| QueueSweeps.UpdateRecovers | harness/internal/services/launchpad/store.go:449-461 | while its row is still expired, an update recovers it as atomic recovery would if and only if the scan's verdict on its attempts still holds |
| QueueSweeps.UninterruptedSweep | harness/internal/services/launchpad/store.go:429-465 | a sweep that nothing interleaves with is atomic recovery, in whatever order it comes to the rows, and all its updates come in time |
| QueueSweeps.CompletedReopened | harness/internal/services/launchpad/store.go:458-460 | reachable: a run that completes between the scan and its update is queued again |
| QueueSweeps.AttemptsPassBound | harness/internal/services/launchpad/store.go:449-461 | reachable: a late update queues a row that has no attempt left, and it is leased past its bound |
| QueueSweeps.StrippedSinceScan | harness/internal/services/launchpad/store.go:429-465 | whatever comes between a scan and its update, the update takes a held lease before its deadline if and only if the row is not expired at the scan's time when the update comes, and then the lease was granted or renewed since the scan |
| QueueSweeps.RenewedLeaseStripped | harness/internal/services/launchpad/store.go:348-364 | reachable with every update in time: a lease renewed between the scan and its update is lost although its deadline is not reached |
| QueueBounds.PhaseRankDrops | harness/internal/services/launchpad/store.go:324-459 | 3 * (maxAttempts - attempts) plus the phase never rises, and every transition lowers it if and only if it is not the cancellation of a queued row |
| QueueBounds.CancelKeepsPhaseRank | harness/internal/services/launchpad/store.go:409-426 | reachable: cancelling a queued item is a transition the phase count does not show |
| QueueBounds.RankDrops | harness/internal/services/launchpad/store.go:324-459 | with terminal rows ranked lowest every transition lowers the rank, and a step that keeps an owned row's status changes its deadline and update time only |
| QueueBounds.TransitionsBounded | harness/internal/services/launchpad/store.go:324-459 | along every run whose updates come in time, transitions made and steps left never exceed the steps left at the start, by the phase count plus one and by the rank |
| QueueBounds.ThreePerAttempt | harness/internal/services/launchpad/service.go:713-719 | from its enqueueing, an item makes at most three transitions for each attempt its policy grants |
| QueueFencing.RetiredStays | harness/internal/services/launchpad/store.go:348-406 | a lease id that no row holds any more is never held again, over every run |
| QueueFencing.LosingRetires | harness/internal/services/launchpad/store.go:348-426 | when a row loses its lease, by recovery, release or cancellation, no row at all holds it |
| QueueFencing.RetiredInert | harness/internal/services/launchpad/store.go:348-406 | under such a lease no call of a worker changes a queue row, and a new start is refused; a start under way can still add its own link and its own snapshot, and nothing else |
| QueueFencing.Fenced | harness/internal/services/launchpad/store.go:347-426 | once an item has lost its lease, no later use of the old lease id by a worker, after any run of other steps, changes a queue row |
| QueueFencing.MarkedAtMostOnce | harness/internal/services/launchpad/store.go:367-384 | over every run each granted lease enters running at most once, and a spent one never |
| QueueFencing.ExecutorOnce | harness/internal/services/launchpad/service.go:260-299 | along a run whose starts under a lease neither overlap nor end on a taken run id, the lease has the executor start a run at most once, and not at all once it has done so or is spent |
| QueueFencing.ExecutorCallable | harness/internal/services/launchpad/service.go:260-276 | in any state, an issued lease has the executor start a run in some continuation if and only if a start under it has read its item and not called the executor yet, or a row is leased under it |
| QueueFencing.SecondCallExactly | harness/internal/services/launchpad/service.go:260-299 | after one start under a lease has had its run, another run under the lease can follow if and only if another start under it has read its item by then or a row is still leased under it |
| QueueFencing.ExecutedTwice | harness/internal/services/launchpad/service.go:260-273 | reachable: two overlapping starts under one lease both call the executor |
| QueueFencing.ExecutedAgain | harness/internal/services/launchpad/service.go:274-277 | reachable without overlap: a start ends on a taken run id, and the next one under the lease calls the executor again |
| QueueAudit.RunningIsRecorded | harness/internal/services/launchpad/service.go:274-299 | when the executor's run ids carry no white space, in every reachable state a running row's run id has a link and a snapshot equal to the row's payload |
| QueueAudit.FoundAfterMark | harness/internal/services/launchpad/service.go:274-299 | exactly when a marked row can be found by its run id: the executor's id was already trimmed, or the same run is recorded under the trimmed id too |
| QueueAudit.UntrimmedRunIdIsLost | harness/internal/services/launchpad/store.go:367-384 | a reachable state in which the row stores the trimmed run id while link and snapshot hold the untrimmed one |
| Timestamps.SecondsIncrease | harness/internal/services/launchpad/store.go:692-694 | printed seconds sort as the seconds do, through calendar dates and four-digit years, and have equal length |
| TimestampFields.DateOfDay | harness/internal/services/launchpad/service.go:729 | the calendar date of a day has that day's number by the closed form of the Gregorian calendar |
| TimestampFields.ReadsBack | harness/internal/services/launchpad/service.go:729 | up to the year 9999 a printed time has its fields where RFC 3339 puts them and reads back as the second it was printed from |
| Timestamps.DeadlineOrder | harness/internal/services/launchpad/store.go:430 | an RFC 3339 deadline sorts at or before an RFC3339Nano time if and only if its second is earlier, or equal with zero fraction |
| Timestamps.EarlierSecondFirst | harness/internal/services/launchpad/store.go:692-694 | a time in an earlier second sorts first, whatever the fractions |
| Timestamps.SameSecondOrder | harness/internal/services/launchpad/store.go:692-694 | within one second text order is time order if and only if the earlier printed fraction is not a beginning of the later one; section 5.1 of RFC 3339 sorts only equally long fractions |
| Timestamps.TenthSortsLate | harness/internal/services/launchpad/store.go:692-694 | in any second, .15 sorts before .1 |
| QueueDeadlines.LeaseSeconds | harness/internal/services/launchpad/service.go:722-730 | a lease lasts between 1 and 3600 seconds: a positive request is granted, cut to the longest time, and any other gets the default |
| QueueDeadlines.SweepTakes | harness/internal/services/launchpad/store.go:430 | a sweep leaves an owned row alone if and only if its second is before the deadline's, or is the deadline's with a fraction |
| QueueDeadlines.LeaseLifetime | harness/internal/services/launchpad/service.go:722-730 | a lease of s seconds is not recovered by any sweep up to s - 1 seconds after it was granted, and is by every sweep from s + 1 seconds on |
| QueueDeadlines.UnrenewedLeaseSurvives | harness/internal/services/launchpad/store.go:429-430 | over every run, an unrenewed lease of s seconds that no sweep has scanned yet is lost to none that scans within s - 1 seconds, whenever that sweep comes to its updates |
| QueueDeadlines.OverdueLeaseIsLost | harness/internal/services/launchpad/store.go:429-465 | a run in which a sweep scans s + 1 seconds or more after the grant and comes to the row leaves an unrenewed lease to nobody |
| QueueDeadlines.StartRefusedFirst | harness/internal/services/launchpad/service.go:733-742 | a start is refused whenever a sweep at that instant would take the row; the two checks differ exactly inside the deadline's own second |
| QueueDeadlines.OldestSecondFirst | harness/internal/services/launchpad/store.go:321 | leasing never passes over an eligible row enqueued in an earlier second |
| QueueDeadlines.PassedOverWithinSecond | harness/internal/services/launchpad/store.go:321 | within one second an older row is passed over if and only if its printed fraction is a beginning of the younger row's |
| QueueService.Service.LeaseQueuedLaunchRun | harness/internal/services/launchpad/service.go:228-243 | leases to the worker a row that asks for it or for nobody, until the clamped deadline; if there is none, every queued row asks for another worker |
| QueueService.Service.RenewQueuedLaunchRunLease | harness/internal/services/launchpad/service.go:246-257 | renews only a lease that is named and still held, to the same clamped deadline |
| QueueService.Service.ReleaseQueuedLaunchRunLease | harness/internal/services/launchpad/service.go:307-319 | refuses a blank lease id or a status that is not terminal and changes nothing; otherwise finishes the row as the store does |
| QueueService.Service.StartQueuedLaunchRun | harness/internal/services/launchpad/service.go:260-304 | on success the row is running under its lease and its run is linked and recorded with the row's payload; on failure no queue row has changed |
| QueueService.UninterruptedIsARun | harness/internal/services/launchpad/service.go:260-304 | a start that nothing interrupts is one of the interleaved system's runs, so everything proved of runs holds of it |
| Scheduler.QuietHoursWrap | harness/internal/services/launchpad/service.go:683-694 | quiet hours are the minutes reached from the start before the end is, around midnight if need be |
| Scheduler.EnqueueLaunchRun | harness/internal/services/launchpad/service.go:177-220 | a resolved launch becomes a queued, untried row in nobody's hands; one that cannot be resolved, needs input or is decided against is refused with its reason and changes nothing |
| Scheduler.ScanLaunch | harness/internal/services/launchpad/service.go:338-380 | one turn of the scan against the stored rows gives the verdict and the tables of its specification, a count the store cannot tell included |
| ScheduleDue.EnqueuedExactly | harness/internal/services/launchpad/service.go:338-380 | one turn enqueues a launch if and only if its schedule is on, due, not ended and outside quiet hours, its stored rows leave room, its run needs no input and is allowed, and the drawn id is new; then it adds that one fresh row, and otherwise none |
| ScheduleDue.NotEnqueuedHasReason | harness/internal/services/launchpad/service.go:338-380 | a due launch is enqueued or skipped with a reason, unless the store cannot be read |
| Scheduler.EnqueueDueScheduledLaunchpad | harness/internal/services/launchpad/service.go:332-383 | the scan's loop and its lists of enqueued and skipped launches match the specification over the launches it gets to; it ends early exactly when the store cannot tell a count |
| ScheduleDue.OnlyDueEnqueued | harness/internal/services/launchpad/service.go:332-383 | whatever a whole scan reports or adds is of a launch that is due and clear to start, and it touches no other row |
| Scheduler.ScanOneCounts | harness/internal/services/launchpad/service.go:350-376 | one turn adds at most one run of its own launch, within the launch's parallelism and run limit, and leaves every other launch's counts alone |
| Scheduler.ScanWithinLimits | harness/internal/services/launchpad/service.go:332-383 | one scan enqueues each launch at most once and never takes its active runs past max(1, MaxParallelism) nor its runs past a positive MaxRuns |
| SchedulerRuns.QueueLowersCounts | harness/internal/services/launchpad/store.go:291-308 | leasing, starting, recovering, releasing and cancelling never raise a launch's counts |
| SchedulerRuns.BoundedAlways | harness/internal/services/launchpad/service.go:332-383 | runs that count and runs that scans are about to add stay below the limit by one, plus one for each scan that may be under way |
| SchedulerRuns.LimitsAlwaysHold | harness/internal/services/launchpad/service.go:332-383 | from an empty queue on, if only scans enqueue and at most k of them are under way at once, a launch's active runs exceed its parallelism by at most k - 1 and its runs a positive MaxRuns by at most k - 1; one scan at a time keeps both limits |
| SchedulerRuns.LimitReached | harness/internal/services/launchpad/transport.go:163-179 | for every k some run has parallelism + k - 1 runs of the launch active if and only if it has no positive MaxRuns below its parallelism |
| SchedulerRuns.TotalReached | harness/internal/services/launchpad/service.go:332-383 | for every k, every parallelism and every positive MaxRuns, some run has MaxRuns + k - 1 runs of the launch |
| SchedulerRuns.TurnIsARun | harness/internal/services/launchpad/service.go:338-380 | a turn of the scan that nothing interleaves with is one of the interleaved system's runs |
| SchedulerRuns.ScanIsARun | harness/internal/services/launchpad/service.go:332-383 | and so is a whole scan, one that ends early included |
| SlackDedupe.ContainsAnswers | gateway/internal/slack/dedupe.go:32-42 | pruning changes no answer: the table says what the unpruned history of last accept times says |
| SlackDedupe.AcceptAnswers | gateway/internal/slack/dedupe.go:45-58 | a key is accepted if and only if the history has no accept of it within the window, and the history then records it |
| SlackDedupe.EventDeduper.Prune | gateway/internal/slack/dedupe.go:61-67 | deleting key by key leaves exactly the unexpired entries |
| SlackDedupe.EventDeduper.ContainsKey | gateway/internal/slack/dedupe.go:32-42 | a duplicate is one by the history whatever the clock says; while the clock does not go back, the answer is the history's |
| SlackDedupe.EventDeduper.AcceptKey | gateway/internal/slack/dedupe.go:45-58 | a refusal has an accept within the window whatever the clock says; while the clock does not go back, it accepts exactly when the history has none, and it records exactly the accepted keys |
| SlackDedupe.EventDeduper.constructor | gateway/internal/slack/dedupe.go:20-29 | starts with an empty history and the default window when none is given |
| SlackLimiter.Admission | gateway/internal/slack/adapter.go:243-267 | admission succeeds exactly when a slot is free and the scope is not active, changes nothing when it fails, and is undone by a release |
| SlackLimiter.DispatchLimiter.constructor | gateway/internal/slack/adapter.go:232-240 | starts empty, with at least one slot |
| SlackLimiter.DispatchLimiter.TrySend | gateway/internal/slack/adapter.go:247-251 | the non-blocking send is the step the interleaved system takes, and keeps slots within capacity |
| SlackLimiter.DispatchLimiter.Reserve | gateway/internal/slack/adapter.go:253-260 | the mutex section that reserves a scope is that system's step |
| SlackLimiter.DispatchLimiter.Free | gateway/internal/slack/adapter.go:262-264 | the mutex section of a release is that system's step |
| SlackLimiter.DispatchLimiter.Receive | gateway/internal/slack/adapter.go:256 | a receive that finds a token is that system's step |
| SlackLimiter.DispatchLimiter.Begin | gateway/internal/slack/adapter.go:243-267 | uninterrupted, admission takes a slot and the scope together or neither |
| SlackLimiter.DispatchLimiter.Release | gateway/internal/slack/adapter.go:261-266 | gives back both the scope and the slot, once there is a token to receive |
| SlackAdmission.DedupKeyNotEmpty | gateway/internal/slack/adapter.go:283-289 | every envelope has a key, so the deduper's blank-key shortcut is never taken |
| SlackEnvelopes.KeysCoincide | gateway/internal/slack/adapter.go:282-289 | two envelopes share a duplicate key if and only if both have event ids that are the same up to white space, or neither has one and team, channel, user and time joined by colons are the same |
| SlackEnvelopes.ScopesCoincide | gateway/internal/slack/adapter.go:269-272 | two messages share a throttling key if and only if channel and user are the same, or one channel extends the other by a colon and the other user makes up for it |
| SlackAdmission.StepShape | gateway/internal/slack/adapter.go:202-225 | every channel operation or mutex section moves one delivery, its slot and its scope with it |
| SlackAdmission.BalancedAlways | gateway/internal/slack/adapter.go:211-267 | under every interleaving, slots in use are exactly the deliveries that hold one, and active scopes exactly theirs |
| SlackAdmission.LimiterSafe | gateway/internal/slack/adapter.go:243-267 | under every interleaving, slots stay within capacity and equal active entries plus deliveries between the two operations, one dispatch per scope is active, and a release or refund always finds a token |
| SlackAdmission.UninterruptedBegin | gateway/internal/slack/adapter.go:243-267 | the steps of one delivery's admission that nothing comes between are the limiter's own admission |
| SlackAdmission.NothingLeaks | gateway/internal/slack/adapter.go:211-225 | when no delivery is under way any more, no slot is in use and no scope is active, however the deliveries ended |
| SlackAdmission.HistoryAlways | gateway/internal/slack/dedupe.go:31-67 | over every run the table agrees with the history and accepts of one key are a window apart |
| SlackAdmission.DispatchesApart | gateway/internal/slack/dedupe.go:31-67 | two dispatches of one key start at least the window apart even when deliveries race past the first check, and every answer is the unpruned history's |
| SlackEnvelopes.OneEventApart | gateway/internal/slack/adapter.go:176-225 | over every run, two arrivals of one event are dispatched at least the window apart |
| SlackAdmission.FatesAlways | gateway/internal/slack/adapter.go:202-225 | over every run a delivery is in the accept log exactly if it is or was dispatched, and once |
| SlackAdmission.EveryDeliveryAccountedFor | gateway/internal/slack/adapter.go:202-225 | a throttled delivery leaves its key unrecorded, a dispatched one was recorded once, and one dropped as a duplicate has an accepted twin |
| SlackEnvelopes.DroppedForTheSame | gateway/internal/slack/adapter.go:202-225 | over every run, an arrival is turned away as a duplicate only for another arrival of the same event that was dispatched |
| SlackEnvelopes.OneSenderAtATime | gateway/internal/slack/adapter.go:243-267 | over every run, no two messages of one user in one channel are being dispatched at a time |
| SlackEnvelopes.UninterruptedDelivery | gateway/internal/slack/adapter.go:202-225 | a delivery nothing comes between is ignored if its event is known, throttled if no slot is free or its sender has a message under way, and otherwise dispatched and remembered for the window; slots and scopes are left as found |
| SlackEnvelopes.DuplicateOne | gateway/internal/slack/adapter.go:211-222 | a delivery whose event was accepted while it was being admitted is a duplicate and gives back its slot and scope |
| SlackEnvelopes.NeverStuck | gateway/internal/slack/adapter.go:202-267 | after every run, a delivery that is not through has a step of its own, which brings it nearer to the end; it is through after at most six |
| MemoryCapture.CursorKeysCoincide | harness/internal/adkmemory/service.go:136-138 | some sessions of two users share a cursor key if and only if their app:user texts are equal or one with a colon begins the other |
| MemoryCapture.AppsCollide | harness/internal/adkmemory/service.go:290-297 | two applications have users that share a turn key if and only if one's name is the other's, a colon, and nothing more or something that starts with no white space |
| MemoryCapture.OneAppApart | harness/internal/adkmemory/service.go:290-297 | within one application turn keys tell users apart |
| MemoryCapture.TurnKeyInjective | harness/internal/adkmemory/service.go:290-297 | so they do for application names without a colon |
| MemoryCapture.TurnKeysCollide | harness/internal/adkmemory/service.go:290-297 | with a colon two different users share a turn key |
| MemoryCapture.CaptureExact | harness/internal/adkmemory/service.go:73-102 | a call saves, in order and each once, exactly the allowed events it passes, and passes all of them or stops at the first allowed event whose save fails |
| MemoryCapture.PayloadIsText | harness/internal/adkmemory/session.go:20-27 | an event has something to save if and only if it is whole and cleaning leaves some text of it |
| MemoryCapture.UserSpeaks | harness/internal/adkmemory/session.go:66-74 | the user speaks where the author says so, or where there is no author and the role does |
| MemoryCapture.Service.NextCaptureStart | harness/internal/adkmemory/service.go:108-121 | capture resumes at the cursor, or at the start for a session that shrank |
| MemoryCapture.Service.MarkCapturedThrough | harness/internal/adkmemory/service.go:124-133 | the cursor never moves back |
| MemoryCapture.Service.CaptureEvents | harness/internal/adkmemory/service.go:73-102 | the loop and its cursor updates match the capture specification, also when it stops at a failed save |
| MemoryCapture.Service.AddSessionToMemory | harness/internal/adkmemory/service.go:58-105 | one call's saves, result, cursor and turn sources are those of the specification; sources are forgotten only by a completed call with a domain to write to |
| MemoryCapture.Service.MarkTurnSourceDomain | harness/internal/adkmemory/service.go:243-257 | adds one domain to the turn's sources, and nothing under a blank key |
| MemoryCapture.Service.SearchMemory | harness/internal/adkmemory/service.go:141-171 | exactly the domains that returned memories become sources of the turn, and the memories of all domains are shown, each id once; a blank query does nothing |
| MemoryCapture.FoundIsRecorded | harness/internal/adkmemory/service.go:151-171 | whatever a search shows comes from a domain it records as a source |
| MemoryCalls.CollectShape | harness/internal/adkmemory/service.go:58-105 | what one capture call that nothing interleaves with adds to the saves, the blocked events and the history |
| MemoryCalls.CallIsARun | harness/internal/adkmemory/service.go:58-105 | such a call, whatever the server answers, is a run of the interleaved system that deals with one event at a time |
| MemoryRuns.CaptureAlways | harness/internal/adkmemory/service.go:58-133 | over every run whose sessions have cursor keys of their own, with capture calls of several sessions interleaved event by event and through any failures, acknowledged saves of a session have strictly increasing indices, cursors never go back, and every event behind a cursor was saved, had no payload or was blocked |
| MemoryCalls.KeysApartExactly | harness/internal/adkmemory/service.go:107-138 | that holds of every run, under every policy, that opens only the given sessions, if and only if no two of them share a cursor key |
| MemoryRuns.SuccessReachesTheEnd | harness/internal/adkmemory/service.go:58-105 | a call that reports success with a domain to write to has dealt with every event there was when it began, whatever happened meanwhile |
| MemoryCalls.SessionSkipped | harness/internal/adkmemory/service.go:136-138 | reachable: two sessions share a cursor key, and a successful call passes over an event that has a payload and that no rule blocks |
| MemoryCalls.SharedKeySkips | harness/internal/adkmemory/service.go:58-138 | for any two sessions that share a cursor key there is a run in which a successful call of the second passes over an event that has a payload and that no rule blocks |
| MemoryFlow.AppsApart | harness/internal/adkmemory/service.go:290-297 | users have turn keys of their own if no application's name extends another's by a colon |
| MemoryFlow.TurnsStep | harness/internal/adkmemory/service.go:243-287 | if users have turn keys of their own, recorded sources are exactly what was returned for the user since the last completed capture |
| MemoryFlow.AllowedIsLawful | harness/internal/adkmemory/service.go:210-240 | an event the code lets through obeys the flow rule stated on the history of the session's application and user |
| MemoryFlow.LawfulIsAllowed | harness/internal/adkmemory/service.go:210-240 | and the other way round: an event with something to save that obeys the rule is let through, unless its user or application has no name and several domains leave its sources unknown |
| MemoryFlow.SavesAlwaysLawful | harness/internal/adkmemory/service.go:80-104 | over every run whose users have turn keys of their own, an acknowledged assistant event was saved to a writable domain into which everything read for that application and user since the last completed capture may flow, and with several domains something had been read |
| MemoryFlow.BlockedAlwaysJust | harness/internal/adkmemory/service.go:80-88 | over every such run, whatever was blocked broke the flow rule when it was judged, or had sources that could not be told |
| MemoryFlow.TurnsApartExactly | harness/internal/adkmemory/service.go:58-300 | that holds of every run, under every policy, that involves only the given people, named without surrounding white space, if and only if no two of them share a turn key |
| MemoryFlow.FromTheStart | harness/internal/adkmemory/service.go:58-300 | these guarantees hold after every run from the start, each under its own condition |
| MemoryFlow.FlowsPastRule | harness/internal/adkmemory/service.go:279-297 | reachable: another user's completed capture wipes out the record of a shared turn key, and what was read in one domain is saved to another it may not flow to |
| MemoryFlow.SharedKeyFlows | harness/internal/adkmemory/service.go:269-297 | for any two people who share a turn key there is a run in which the completed capture of one wipes out what the other had read, and what was read in one domain is saved to another it may not flow to |
| KeyedMerge.MergeByStringKey | harness/internal/config/loader.go:254-278 | the two loops over the index map compute the overlay, last occurrence and blank keys included |
| KeyedMerge.MergeAssociative | harness/internal/config/loader.go:254-278 | overlaying keyed lists is associative on all lists, repeated and blank keys included |
| KeyedMerge.MergeIs | harness/internal/config/loader.go:254-278 | the merge keeps base positions, takes the delta's last value for each shared key and appends new keys in first-occurrence order |
| KeyedMerge.NewsKey | harness/internal/config/loader.go:254-278 | a key is among the appended items if and only if the delta has it and the base does not |
| KeyedMerge.AppendUniqueByKey | harness/internal/config/loader.go:200-251 | the loop over the seen set keeps the base and drops known keys |
| KeyedMerge.AppendUniqueKeys | harness/internal/config/loader.go:200-251 | the result has exactly the keys of both lists |
| KeyedMerge.AppendUniqueAssociative | harness/internal/config/loader.go:200-251 | appending unique items is associative on all lists |
| KeyedMerge.AppendUniqueIs | harness/internal/config/loader.go:200-251 | the result is the base followed by the first item of each new key, in order |
| ToolPackages.MergeToolsAssociative | harness/internal/config/loader.go:122-278 | overlaying whole tool packages is associative |
| ToolPackages.AnyGrouping | harness/internal/config/loader.go:122-278 | a chain of packages can be flattened in any grouping |
| PackageChains.LastTextWins | harness/internal/config/loader.go:122-186 | over a chain, name, actor, default write domain and default timeout are those of the most derived package that sets them |
| PackageChains.LastLimitWins | harness/internal/config/loader.go:146-148 | so is the output limit |
| PackageChains.AnyTurnsOn | harness/internal/config/loader.go:138-160 | local commands and MCP servers are on if and only if some package of the chain turns them on |
| PackageChains.OwnVersion | harness/internal/config/loader.go:127-128 | version and base are the most derived package's own |
| PackageChains.MergedLastOnes | harness/internal/config/loader.go:255-278 | over a chain of lists, the last item of each key is left, nothing is made up, and keys stay unique if the root's are |
| PackageChains.LastCommandsLeft | harness/internal/config/loader.go:149-151 | so it is with the commands of a chain, by name up to white space |
| PackageChains.LastServersLeft | harness/internal/config/loader.go:161-163 | and with its MCP servers |
| PackageChains.LastDomainsLeft | harness/internal/config/loader.go:173-175 | and with its readable domains, by id |
| PackageChains.LastPresetsLeft | harness/internal/config/loader.go:186-190 | and with its node presets |
| PackageChains.LastValidationsLeft | harness/internal/config/loader.go:193-197 | and with its validations |
| PackageChains.UnitedFirstOnes | harness/internal/config/loader.go:232-252 | over a chain of lists that only grow, the first item of each key is left |
| PackageChains.FirstWriteDomainsLeft | harness/internal/config/loader.go:176 | so it is with the write domains of a chain |
| PackageChains.FirstSensitivitiesLeft | harness/internal/config/loader.go:180 | and with its sensitivities |
| PackageChains.FirstFlowsLeft | harness/internal/config/loader.go:200-219 | and with its memory flows, by their key |
| PackageChains.FlowsCoincide | harness/internal/config/loader.go:222-229 | two flows with both ends named share a key if and only if the ends are the same up to white space, or one source extends the other by an arrow and the other destination makes up for it |
| ToolPackages.OneFewer | harness/internal/config/loader.go:71-83 | each level of inheritance uses up one file, so loading ends on every finite set of files |
| ToolPackages.LoadToolsWithVisited | harness/internal/config/loader.go:71-110 | the recursive loader computes its specification, with the packages beside the file or without, and leaves the visited set as it found it on every way out |
| PackageChains.LoadAlone | harness/internal/config/loader.go:71-110 | a file that extends nothing is its own tools if valid; a broken file and a missing one are errors, except that the default file may be missing unless asked for, and then sets nothing |
| PackageChains.LoadTwo | harness/internal/config/loader.go:71-110 | a file that extends such a file is the two overlaid if both results are valid, and one that extends itself is a cycle |
| ToolPackages.PackagesLast | harness/internal/config/loader.go:96-109 | packages are added after inheritance and to the file asked for only: they change neither what is inherited nor whether a cycle is found |
| ToolPackages.FoldIsFlattened | harness/internal/config/loader.go:96-103 | a successful chain is the packages from the root on, overlaid one after another |
| ToolPackages.LoadFollowsChain | harness/internal/config/loader.go:71-110 | loading follows `extends` through distinct files to its end and reports a revisit, an unreadable file, or the fold of the merge along the chain |
| ToolPackages.CycleReported | harness/internal/config/loader.go:79-83 | a cycle is reported if and only if following `extends` meets a file again |
| EnvExpansion.IndexByte | harness/internal/config/loader.go:324 | the first closing brace at or after a position, or none |
| EnvExpansion.ScanName | harness/internal/config/loader.go:341-344 | the longest run of name bytes from a position |
| EnvExpansion.ExpandPiece | harness/internal/config/loader.go:317-356 | each turn consumes one token of the text, the longest a name can be and up to the first brace, and writes its value if the name is known and its own characters otherwise |
| EnvExpansion.ExpandKnownEnvironment | harness/internal/config/loader.go:313-358 | the result renders, one by one and once each, tokens that concatenate back to the text; values put in are not scanned again |
| EnvExpansion.LexicalUnique | harness/internal/config/loader.go:317-356 | no text starts with two different tokens |
| EnvExpansion.TokensUnique | harness/internal/config/loader.go:313-358 | a text has one tokenization only, so the result is determined |
| EnvExpansion.NothingKnown | harness/internal/config/loader.go:311-312 | when no referenced name is set, the text comes back unchanged |
| EnvMeaning.NameReplaced | harness/internal/config/loader.go:338-356 | a dollar and a name of letters, digits and underscores is replaced by the name's value, as long as the name goes on, and stays if the name is not known |
| EnvMeaning.BracedReplaced | harness/internal/config/loader.go:322-336 | so is whatever stands between a dollar with an opening brace and the first closing one |
| EnvMeaning.DollarStays | harness/internal/config/loader.go:345-349 | a dollar stays at the end and before anything else |
| EnvMeaning.OpenBraceStays | harness/internal/config/loader.go:324-329 | and before a brace that is never closed |
| EnvMeaning.PlainStays | harness/internal/config/loader.go:317-321 | every other character stays |
| EnvMeaning.OneExpansion | harness/internal/config/loader.go:313-358 | these cases give one expansion for each text |
| EnvMeaning.NameAtTheEnd | harness/internal/config/loader.go:338-356 | behind any text a name is replaced, and the text expands as if it stood alone |
| SessionText.BlockShrinks | harness/internal/adkmemory/text.go:70-76 | taking off a control block makes the text shorter, so cleaning ends |
| SessionText.CleanSessionText | harness/internal/adkmemory/text.go:43-57 | the loop computes the cleaned text |
| SessionText.CleanIsClean | harness/internal/adkmemory/text.go:43-76 | cleaned text is trimmed, starts with no control or hidden prefix, and is left alone by cleaning |
| SessionMarkers.RememberedExactly | harness/internal/adkmemory/text.go:43-76 | a message that starts with a hidden marker is remembered as nothing, a control block in front is skipped up to its closing brackets or takes everything if it has none, and anything else is remembered without the white space around it |
| SessionText.Inject | gateway/internal/policy/runtime.go:37-77 | rewrites exactly the text parts in place and reports whether anything changed |
| SessionText.InjectOnce | gateway/internal/policy/runtime.go:55-66 | a message that was injected is not injected again, whatever the second policy |
| SessionText.BlocksCleanAway | harness/internal/adkmemory/text.go:43-76 | closed control blocks in front of a text clean away |
| SessionText.OthersShow | harness/internal/adkmemory/text.go:43-76 | anything else in front of a text shows after cleaning |
| SessionText.CleanUndoesInject | harness/internal/adkmemory/text.go:42-76 | cleaning undoes injection on every text if and only if the policy block is nothing but closed control blocks |
| SessionText.PlainPolicy | gateway/internal/policy/runtime.go:79-82 | a policy without a double closing bracket is such a block if and only if it does not end in a closing bracket |
| SessionText.SessionContentText | harness/internal/adkmemory/text.go:25-40 | joins the cleaned non-empty text parts |
| SessionText.RememberedAsSent | harness/internal/adkmemory/text.go:25-40 | a remembered message is the one that would be remembered had no policy been injected |
| SessionMarkers.HiddenAddsNothing | harness/internal/adkmemory/text.go:25-57 | a hidden message adds nothing, with an injected policy in front or without |
| AgentStream.LinesRoundTrip | gateway/internal/slack/agent.go:278-279 | written lines are read back if and only if none holds a newline or ends in a carriage return |
| AgentStream.DecodeAgentSSE | gateway/internal/slack/agent.go:277-321 | the loop's reply is the joined texts of the stream's events, or the first event error; a stream that breaks off answers with an error of a complete event before the break, or with the break, and never with what was pending |
| AgentReplies.ReplyExactly | gateway/internal/slack/agent.go:283-321 | the answer is an error if and only if some event's decoding fails, and then the first one's; otherwise it is the non-empty texts in order, one to a line; a stream that breaks off never has an answer |
| AgentStream.FlushEvent | gateway/internal/slack/agent.go:283-297 | flushing hands over the pending event exactly when it has data |
| AgentStream.FrameDecoded | gateway/internal/slack/agent.go:298-312 | one printed frame yields one event, or none and its type left over |
| AgentReplies.UnnamedIsMessage | gateway/internal/slack/agent.go:277-312 | an event without a type is a message |
| AgentStream.DecodedMeaning | gateway/internal/slack/agent.go:277-321 | decoded frames mean what they say if and only if no type is left over by a frame without data and taken up by one without a type, a departure from section 9.2.6 of the WHATWG HTML standard |
| AgentStream.ErrorLandsOnMessage | gateway/internal/slack/agent.go:283-297 | the type of an error frame without data lands on the next plain message |
| AgentStream.ContentFixed | gateway/internal/slack/agent.go:302-306 | data survives printing if and only if its first line is not empty and no line starts with a space |
| AgentStream.EventsRoundTrip | gateway/internal/slack/agent.go:277-321 | printed events come back as they were if and only if each has a trimmed type and such data |
| AgentStream.FinalBlank | gateway/internal/slack/agent.go:317-319 | a final blank line makes no difference, on any input |
| AgentStream.TextRoundTrip | gateway/internal/slack/agent.go:277-321 | the round trip from characters to events, with or without the final blank line |
| AgentStream.RunText | gateway/internal/slack/agent.go:145-171 | at most three denials are sent, each answering a confirmation that can be answered; the last outcome decides the reply, and an unavailable tool is named by the last confirmation that names one |
| RedactionFields.SensitiveExactly | harness/internal/services/launchpad/service.go:834-843 | a key is secret-like if and only if one of six words stands in it, in whatever case and with whatever around it |
| RedactionFields.OpenStays | harness/internal/services/launchpad/service.go:760-831 | a value that lies under no secret-like key is shown and stored as it is, at any depth |
| RedactionFields.SecretHidden | harness/internal/services/launchpad/service.go:760-831 | whatever lies at a secret-like key is shown as one fixed text, and stored as its own reference if it is one and as one made of the key otherwise |
| Redaction.PlaceholderIsReference | harness/internal/services/launchpad/service.go:771 | the placeholder of a secret-like key is itself a trimmed reference |
| Redaction.SafeHasOnlyReferences | harness/internal/services/launchpad/service.go:760-796 | after making an input safe, nothing but a trimmed reference is left under a secret-like key at any depth |
| Redaction.SafeFixed | harness/internal/services/launchpad/service.go:760-796 | an input is left as it is if and only if it already holds nothing else |
| Redaction.SafeIdempotent | harness/internal/services/launchpad/service.go:760-796 | making an input safe twice is making it safe once |
| Redaction.SafeFlow | harness/internal/services/launchpad/service.go:760-796 | two inputs are stored alike if and only if they agree on everything but the raw values under secret-like keys |
| Redaction.RedactFlow | harness/internal/services/launchpad/service.go:799-831 | two inputs are shown alike if and only if they agree on everything outside secret-like keys |
| Redaction.RedactAfterSafe | harness/internal/services/launchpad/service.go:754-831 | what is shown of the stored input is what would be shown of the original |
| MemoryAuthority.CallSelectorAgrees | gateway/internal/gateway/server.go:1017-1057 | a call's selector is the one domain it names, in whichever places, and missing if and only if two places disagree |
| MemoryAuthority.AsksOnce | gateway/internal/gateway/server.go:951-978 | a body asks for one access and one domain at most, whatever the order of its requests |
| MemoryAuthority.AsksAnyOrder | gateway/internal/gateway/server.go:951-978 | a batch in another order asks for the same |
| MemoryAuthority.MemoryAccessFromMCPBody | gateway/internal/gateway/server.go:951-978 | the loop finds the access and the domain a body asks for, and rejects exactly the bodies that ask for no single one |
| MemoryAuthority.UniqueTrimmed | gateway/internal/gateway/server.go:1146-1161 | each grant once, without blanks, in the order of first mention |
| MemoryAuthority.SelectAllowedDomain | gateway/internal/gateway/server.go:1128-1143 | the requested domain if it is granted up to white space, the only grant if none is requested; a bad request exactly when nothing is requested and several are granted |
| MemoryAuthority.AuthorizeMemoryAccess | gateway/internal/gateway/server.go:601-612 | the same over the write grants for a write and the read grants otherwise |
| MemoryAuthority.MemoryMCPHandler | gateway/internal/gateway/server.go:509-544 | a body is routed to the domain it asks for and may use, if that is ready and has a route, and refused otherwise |
| MemoryAuthority.RoutedMeans | gateway/internal/gateway/server.go:951-1143 | every selector of an accepted body is blank or names the chosen domain, which is writable if some call writes and readable otherwise |
| AuthorityFields.RoutedExactly | gateway/internal/gateway/server.go:951-1143 | a body reaches a domain if and only if each tools/call in it has a known tool and names no other domain, what is asked for beside it names no other, the domain is granted for writing if some call writes and for reading otherwise, and it is named or the only one granted |
| AuthorityFields.WritesNeedGrants | gateway/internal/gateway/server.go:601-612 | a tools/call outside the read-only tools reaches domains granted for writing only |
| MemoryAuthority.RoutedAnyOrder | gateway/internal/gateway/server.go:951-978 | acceptance and the chosen domain do not depend on the order of a batch |
| MemoryAuthority.ContextAPIHandler | gateway/internal/gateway/server.go:447-506 | an export passes exactly when it names no domain; any other call is sent on for the one domain it may use, if that is ready, without selectors in its arguments, or refused |
| AuthorityFields.ForwardsExactly | gateway/internal/gateway/server.go:447-506 | the same for a single context call |
| MemoryAuthority.TakeRequest | gateway/internal/gateway/server.go:961-976 | going on by one request keeps what the body asks for so far, or shows that it asks for no single thing |
| MemoryAuthority.SelectorsGone | gateway/internal/gateway/server.go:1060-1072 | what is sent on carries no selector the harness would refuse, and every other argument |
| MemoryAuthority.FoundByID | harness/internal/contextapi/server.go:358-365 | the lookup finds a configured domain exactly when one has that trimmed id |
| AuthorityFields.HarnessAllowsExactly | harness/internal/contextapi/server.go:332-373 | the harness carries out a call if and only if it is no export, names its domain beside the arguments and nowhere in them, and the domain is configured for what the tool does |
| AuthorityFields.ValidExactly | harness/internal/config/schema/tools.go:703-766 | a configuration with a readable domain passes if and only if it is well formed, no two domains share an id, whatever is to be written, by default or by a flow, can be looked up and written, and whatever is to flow can be read |
| MemoryAuthority.HarnessAgrees | harness/internal/contextapi/server.go:332-373 | with the same grants and a valid harness configuration, a call the gateway sends on is carried out if and only if that configuration has a readable domain |
| MemoryAuthority.ConfiguredGatewayAgrees | gateway/internal/config/config.go:783-788 | a gateway whose own configuration grants some domain for reading, as its validation demands, never sends on what the harness refuses |
| MemoryAuthority.GatewayAgrees | harness/internal/contextapi/server.go:332-373 | what the harness would carry out the gateway sends on, if it knows the tool |
| MemoryAuthority.LoneWriteDomain | harness/internal/config/schema/tools.go:703-706 | without readable domains the harness configuration passes unchecked, and a write the gateway allows is refused |

## Left out

- RunQueue.Store.CountRunQueueItems: statuses are the six the queue uses, not arbitrary text.
- RunQueue.Store.LeaseNextRunQueueItem: the transaction is one step; its update cannot find the row gone.
- RunQueue.Store.InsertRunQueueItem: rows start as the service builds them, with the column defaults for the rest; encoding to JSON cannot fail.
- QueueService.Service.StartQueuedLaunchRun: the executor's answer and the clock's are parameters; creation times of links and snapshots are not stored.
- QueueService.Service.LeaseQueuedLaunchRun: the drawn lease id is a parameter, and fresh where runs are considered.
- QueueDeadlines.LeaseLifetime: like the other results about the order of printed times, up to the year 9999, the last that RFC 3339 has.
- QueueDeadlines.StartRefusedFirst: deadlines are those the service prints; parsing of other texts is only known to fail.
- QueueFencing.ExecutorOnce: its condition on the run is sufficient only; `ExecutorCallable` and `SecondCallExactly` have the exact condition on the state.
- Scheduler.EnqueueLaunchRun: how a launch is resolved and decided on is a given preview; drawing an id cannot fail.
- Scheduler.EnqueueDueScheduledLaunchpad: cron matching and the stop time are clock answers given to the scan; listing the launches cannot fail.
- SchedulerRuns.LimitsAlwaysHold: launches do not change while it runs, and recovery updates come in time; one that comes late puts a finished run back among the active ones.
- SlackAdmission.DispatchesApart: clock readings do not decrease in the order the deduper's lock is taken, although the code reads the clock before locking.
- SlackLimiter.DispatchLimiter.Receive: a receive without a token waits in the code and cannot be called here; `LimiterSafe` proves that no delivery ever meets one.
- SlackLimiter.DispatchLimiter.Release: the same.
- MemoryRuns.CaptureAlways: a session has one capture call at a time, and an event is judged, saved and marked in one step.
- MemoryCapture.Service.SearchMemory: an entry's author, time and metadata are not modelled, nor the building of an entry from a record.
- ToolPackages.LoadToolsWithVisited: what merging the packages beside a file does and the content of validation are left abstract; resolving to an absolute path cannot fail.
- KeyedMerge.AppendUniqueByKey: one loop over a key function stands for `appendUniqueStrings`, `mergeMemoryFlows` and `appendMemoryEntries`, which differ in the key.
- EnvExpansion.ExpandKnownEnvironment: works on characters where the code works on bytes; a character outside ASCII is never part of a reference name in either.
- AgentStream.DecodeAgentSSE: decoding one event's JSON is a parameter, and so is where the scanner gives up.
- AgentStream.RunText: each outcome is the one after retries for a gateway that is not ready; the wording of the denial is not modelled.
- Redaction.SafeFlow: maps with keys other than strings are not modelled, since their colliding keys depend on map order.
- MemoryAuthority.MemoryAccessFromMCPBody: which of several errors is reported first depends on the order and is not stated; JSON decoding is done before.
- MemoryAuthority.MemoryMCPHandler: reading the selector from path, query and header is not modelled.
- MemoryAuthority.HarnessAgrees: header templates in the harness configuration are not modelled.
- The SQLite store, JSON and HTTP plumbing, schema migration and row scanning; reading one row back by its id.
- The runbook runtime, codebase catalog, input resolver, MCP transports and the Slack Web API: they only succeed or fail.
- Hashes, random bytes, signatures and pairing tokens.
- Text that is not valid UTF-8.
- Commands, reports, status pages, flag parsing, process supervision and logging.
