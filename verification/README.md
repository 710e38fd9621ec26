# Verified model of the booking API's concurrency and scheduling core

The API (`apps/api`) lets customers book staff by the slot and tells the outside world about it.
This project models the parts of it where correctness depends on interleavings, on time or on
several functions agreeing, and proves what those parts are for.

- **Outbox delivery.** A database trigger writes `OutboxEvent` rows. Any number of dispatchers
  revive stale locks, claim rows, put them on a queue under the row's id, and mark them sent, to be
  retried, or failed. Consumers run the side effect of a job through an idempotency service with a
  lock key and a done key. Modules `Outbox`, `OutboxProtocol`, `Idempotency`, `IdempotencyProtocol`,
  `Delivery`.
- **Leases.** A lease is a row with an owner, an expiry and a fencing token. The outbox worker uses
  it to elect a leader, the cron service to keep tasks apart. Modules `RuntimeLease`,
  `LeaseProtocol`, `OutboxWorker`, `LeaderElection`, `LeasedCron`, `CronExclusion`.
- **Backpressure.** Two Redis scripts pace and cap the work of all clients that share a policy.
  Modules `Backpressure`, `BackpressureProtocol`, `PacingThreshold`.
- **Bookings.** Create, reschedule, confirm and cancel over rows with an exclusion constraint, an
  audit history, trigger events and idempotency keys. Modules `Bookings`, `BookingLifecycle`,
  `BookingAnswers`, `BookingAudit`.
- **Availability.** Working hours, the length of a selection, the slot loop, its agreement with
  create, and the cache in front of it. Modules `WorkingHours`, `AddonIds`, `ServiceProfile`,
  `Slots`, `Availability`, `Bookable`, `AnswerChanges`, `CacheKeys`, `Cache`, `CacheProtocol`,
  `CacheCoherence`, with `Text` for the string operations.

Services that update fields or tables are classes whose methods are proved against functions on
the tables. What holds in every interleaving is proved on state machines: one SQL statement or
transaction, one Lua script or one Redis command is one step, processes are records with a program
counter, and a run (`IsRun`) is any sequence of enabled steps. For the machines whose steps are
finer than a method's, a lemma shows that a call alone, from any state, does what the class method
promises (`AcquireAlone`, `FollowerStepsAlone`, `InvokedAlone`, `AloneInSteps`, `RoundAlone`,
`CalledAlone`, `ServedInSteps`). Time is one clock that never goes back. A timing bound is a
predicate on runs (`Timely`, `Prompt`, `ConsumersInTime`, `StoresWithin`). Where a bound or one of
the code's extra tests carries the argument, a lemma gives a concrete run that breaks the property
without it.

Where the code falls short of what one would expect, the exact condition is proved, with a run or
a state that shows the failure:

- Pacing holds on the clocks that the clients read. On the clock at which the scripts run, and
  while no script is on its way for so long that an expired key could matter, the budget holds in
  all runs if and only if scripts are on their way for less than maxPerWindow spacings minus the
  window (`BudgetHoldsExactly`, `BudgetBroken`).
- `markSent` and `markRetryOrFailed` test neither status nor owner. Sent and failed rows are final
  for all runs of workers that mark within a bound, if and only if the bound is at most
  `staleLockMs` (`FinalExactly`, `OverrunUndoesSent`).
- A booking call that answers with an error changed the tables if and only if its guards passed
  and its key could not be saved after its commit (`FailedCallChangesNothing`,
  `FailedCreateBooks`).
- A reschedule that answers well took effect if and only if no other call stored its key between
  its lookup and its transaction. The failed insert of the key aborts the transaction while its
  error is swallowed, so the caller is told of a change that is lost (`RescheduleTookEffect`,
  `SecondRescheduleLost`).
- An offered slot is accepted by create if and only if the selection takes time and no active
  booking starts in the last millisecond of the local day while the slot ends at midnight: the day
  query stops one millisecond early (`SlotsAreBookable`, `LastSlotWronglyOffered`).
- A cached answer stays right after a new booking if and only if the booking's service prefix
  covers its key or the booking is in no offered slot's way (`BookingLeavesEntryRight`,
  `OtherServiceStaysCached`, `ShaveLeavesCutCached`).

Dafny 4.11 checks the project with `dafny verify dfyconfig.toml`.

## Model

| member | source | states |
|---|---|---|
| RuntimeLease.RuntimeLeaseService.TryAcquire | apps/api/src/runtime/runtime-lease.service.ts:21-92 | granted exactly when the row has expired (boundary included) or is the caller's own; then the row names the caller with the token one up, else it is untouched; other keys stay |
| RuntimeLease.RuntimeLeaseService.Renew | apps/api/src/runtime/runtime-lease.service.ts:94-143 | granted exactly to the owner of an unexpired row (boundary included), which keeps its token; otherwise nothing changes |
| RuntimeLease.RuntimeLeaseService.Release | apps/api/src/runtime/runtime-lease.service.ts:145-173 | only the owner's release has an effect, and from then on anybody can acquire |
| LeaseProtocol.RunKeepsInv | apps/api/src/runtime/runtime-lease.service.ts:21-173 | over every interleaving of any owners' calls, update and read-back apart, the row names the latest acquirer, the token counts the acquires, and every grant is backed by the row or superseded |
| LeaseProtocol.NoTwoLiveGrants | apps/api/src/runtime/runtime-lease.service.ts:50-91 | two unexpired, unreleased grants of one key that name their holders belong to one owner |
| LeaseProtocol.LargerTokenMeansExpired | apps/api/src/runtime/runtime-lease.service.ts:50-76 | once a larger token is granted to another owner, the smaller grant has expired: the token can fence it off |
| LeaseProtocol.TokensCountAcquires | apps/api/src/runtime/runtime-lease.service.ts:55-60 | the stored token is the number of acquires so far, and each granted token names one owner for good |
| LeaseProtocol.UpdateMovesTokenByOne | apps/api/src/runtime/runtime-lease.service.ts:50-76 | an acquire's update raises the token by exactly one or misses; a renew or release never moves it, and a deposed owner's leaves the row as it is |
| LeaseProtocol.AcquireAlone | apps/api/src/runtime/runtime-lease.service.ts:21-92 | statement by statement, from any state and with any delay after the clock was read, an acquire without interference takes a row that had expired by that clock or is its own, under the next token, and otherwise leaves it: what the method promises |
| LeaseProtocol.RenewAlone | apps/api/src/runtime/runtime-lease.service.ts:94-143 | likewise a renewal extends exactly an unexpired row of its own, under the same token |
| LeaseProtocol.ReleaseAlone | apps/api/src/runtime/runtime-lease.service.ts:145-173 | likewise a release ends exactly its own row, as of the clock it read |
| LeaseProtocol.LateRenewalShrinksExpiry | apps/api/src/runtime/runtime-lease.service.ts:99-116 | an earlier-read clock that is written later moves the expiry back below a grant already given: why calls of one owner must not overlap |
| OutboxWorker.Worker.Step | apps/api/src/outbox/outbox-dispatcher.worker.ts:116-151 | after a step a dispatcher runs exactly when the lease was there to take or keep, with the row owned for a full TTL and the fence its token; a lost lease closes the dispatcher and leaves the row, a failed boot gives the row back; a stopping worker does nothing |
| OutboxWorker.Worker.BecomeLeader | apps/api/src/outbox/outbox-dispatcher.worker.ts:67-102 | keeps a running dispatcher, else starts one with the grant's token, or releases the lease when the boot fails |
| OutboxWorker.Worker.BecomeFollower | apps/api/src/outbox/outbox-dispatcher.worker.ts:104-114 | ends leadership unless closing the dispatcher fails |
| LeaderElection.RunKeepsLeader | apps/api/src/outbox/outbox-dispatcher.worker.ts:67-151 | in every run under the timing bound, whoever leads owns the row with the expiry it was granted, and its fence is the row's token |
| LeaderElection.AtMostOneDispatcher | apps/api/src/outbox/outbox-dispatcher.worker.ts:67-151 | under that bound at most one process runs a dispatcher, and its fence is the current token |
| LeaderElection.LeaseMovesOn | apps/api/src/outbox/outbox-dispatcher.worker.ts:116-157 | after a leader dies, a follower that keeps stepping sees the lease in another owner's hands within the TTL, one period and its latency |
| LeaderElection.DeadOwnerLeavesRow | apps/api/src/outbox/outbox-dispatcher.worker.ts:116-157 | a dead owner never touches the row again; whoever replaces it has a larger token |
| LeaderElection.FollowerStepsAlone | apps/api/src/outbox/outbox-dispatcher.worker.ts:67-151 | statement by statement, from any state, a follower's step without interference leads under the next token, misses and changes nothing, or gives the row back after a failed boot |
| LeaderElection.LeaderStepsAlone | apps/api/src/outbox/outbox-dispatcher.worker.ts:104-151 | a leader's step extends its unexpired row under the same token, or ends its dispatcher and leaves the row; it stays where closing fails |
| LeaderElection.ShutsDownAlone | apps/api/src/outbox/outbox-dispatcher.worker.ts:159-186 | a shutdown ends the dispatcher and gives up exactly its own row |
| LeaderElection.LateReadBackSplitsLeadership | apps/api/src/runtime/runtime-lease.service.ts:74-91 | a run beyond the bound in which two processes run dispatchers |
| LeasedCron.LeasedCronService.RunWithLease | apps/api/src/scheduler/leased-cron.service.ts:20-71 | skipped exactly while the key runs in this process, missed exactly when the lease is, and otherwise the lease ends released unless the release failed; `localRunning` is restored on every path |
| CronExclusion.TasksDoNotOverlap | apps/api/src/scheduler/leased-cron.service.ts:28-70 | two running tasks of one process are the same task, and of any processes when tasks end within the TTL |
| CronExclusion.InvokedAlone | apps/api/src/scheduler/leased-cron.service.ts:20-71 | statement by statement, from any state, an invocation without interference runs exactly when its process is not marked and the row is expired or its own; the marks end as they were and the lease is released as of the end of the task |
| CronExclusion.ThrowsAlone | apps/api/src/scheduler/leased-cron.service.ts:28-70 | a throwing acquire leaves nothing behind; a throwing release leaves the lease to run out, and the local mark is gone |
| CronExclusion.UnguardedTasksOverlap | apps/api/src/runtime/runtime-lease.service.ts:53 | without `localRunning` two tasks of one process overlap, within the bound, because the lease lets its own owner in again |
| Idempotency.QueueIdempotencyService.RunOnce | apps/api/src/queue/queue.idempotency.service.ts:34-90 | duplicate exactly when the done key lives; processed exactly when neither key lives and the handler succeeds, with the done key set; a lock that the call took is gone however the handler ended, and the lock of another is left; a blank key is not deduplicated |
| Idempotency.QueueIdempotencyService.RunTwice | apps/api/src/queue/queue.idempotency.service.ts:34-90 | after a handler that threw, the next call runs it again, at any later clock; after one that ended well, the next call is a duplicate until the TTL has passed and runs it again then |
| IdempotencyProtocol.RunKeepsInv | apps/api/src/queue/queue.idempotency.service.ts:49-89 | in every timely run the lock key belongs to the one call inside, marks are at least the TTL apart, and handled runs are accounted for by marks and losses |
| IdempotencyProtocol.LockExcludes | apps/api/src/queue/queue.idempotency.service.ts:54-89 | at most one call is between lock and unlock |
| IdempotencyProtocol.ProcessedAtMostOnce | apps/api/src/queue/queue.idempotency.service.ts:72-89 | at most one call answers processed within the done TTL |
| IdempotencyProtocol.ProcessedAreSpaced | apps/api/src/queue/queue.idempotency.service.ts:80-86 | two calls that both answer processed set the done key at least its TTL apart |
| IdempotencyProtocol.HandledAtMostOnce | apps/api/src/queue/queue.idempotency.service.ts:72-89 | finished handler runs are at most one plus the runs whose done write was lost |
| IdempotencyProtocol.DuplicateMeansHandled | apps/api/src/queue/queue.idempotency.service.ts:49-76 | duplicate is answered only after some handler run finished |
| IdempotencyProtocol.AloneInSteps | apps/api/src/queue/queue.idempotency.service.ts:34-90 | command by command, from any state, what a call without interference answers and leaves of both keys, as the method promises |
| IdempotencyProtocol.WithoutRecheckHandledTwice | apps/api/src/queue/queue.idempotency.service.ts:73-76 | without the second done test a timely run handles the key twice |
| Backpressure.SpacingFillsWindow | apps/api/src/queue/backpressure/redis-backpressure.service.ts:96-103 | as many spacings as the budget has grants take longer than the window, for every window, budget and margin |
| Backpressure.SpacingExactly | apps/api/src/queue/backpressure/redis-backpressure.service.ts:96-103 | the spacing is the least whole number of milliseconds, at least one, of which maxPerWindow cover the window, plus the least whole margin of at least 50 ms and at least 15 percent; LeastIsUnique shows that this is one number |
| Backpressure.ScriptExactly | apps/api/src/queue/backpressure/redis-backpressure.service.ts:10-35 | the script grants exactly when fewer young leases than the cap are in an unexpired set and no unexpired pace lies ahead of the clock it is passed; what it then stores, and what a refusal reports |
| Backpressure.RedisBackpressureService.Acquire | apps/api/src/queue/backpressure/redis-backpressure.service.ts:90-157 | a grant is within the deadline and leaves the lease in the semaphore with its time, the next grant one spacing later, and both expiries set; each refusal is followed by a sleep that lasts until the pace allows, within 25 (50 at the cap) to 250 ms; at most floor(timeout/25)+1 script calls when sleeps last as long as asked |
| Backpressure.RedisBackpressureService.Release | apps/api/src/queue/backpressure/redis-backpressure.service.ts:37-49 | removes exactly the lease |
| Backpressure.RedisBackpressureService.RunWithBudget | apps/api/src/queue/backpressure/redis-backpressure.service.ts:78-88 | the task runs only with a grant, and its lease is gone afterwards whether or not it threw |
| BackpressureProtocol.ExpiryChangesNothing | apps/api/src/queue/backpressure/redis-backpressure.service.ts:20-32 | while scripts arrive within a bound computed from the TTLs, every decision is the one a store without key expiry would make |
| BackpressureProtocol.GrantedWhenDue | apps/api/src/queue/backpressure/redis-backpressure.service.ts:20-32 | in every run within that bound a script is granted if and only if the least spread plus the least margin has passed since the last grant, by the clock its client read, and fewer than maxConcurrent young leases are running |
| BackpressureProtocol.GrantsAreSpaced | apps/api/src/queue/backpressure/redis-backpressure.service.ts:24-28 | on the clocks that the clients read, any two grants are at least as many spacings apart as there are grants between them |
| BackpressureProtocol.WindowBudget | apps/api/src/queue/backpressure/redis-backpressure.service.ts:10-35 | on those clocks no closed window of the configured length contains more than maxPerWindow grants |
| BackpressureProtocol.GrantedSpacing | apps/api/src/queue/backpressure/redis-backpressure.service.ts:109-129 | on the clock at which the scripts run, with scripts at most a latency on their way, grants are as many spacings apart less one latency |
| BackpressureProtocol.GrantedBudget | apps/api/src/queue/backpressure/redis-backpressure.service.ts:93-129 | on that clock no closed window ever contains more than maxPerWindow grants, while the latency is less than maxPerWindow spacings minus the window |
| PacingThreshold.BudgetBroken | apps/api/src/queue/backpressure/redis-backpressure.service.ts:93-129 | for all options, at that latency there is a run in which one window contains a grant too many |
| PacingThreshold.BudgetHoldsExactly | apps/api/src/queue/backpressure/redis-backpressure.service.ts:93-129 | within the latency that key expiry allows, the budget holds in all runs if and only if the latency is less than that slack |
| BackpressureProtocol.RunningWithinCap | apps/api/src/queue/backpressure/redis-backpressure.service.ts:20-31 | the semaphore never exceeds maxConcurrent, and every running task is in it when tasks end within maxHoldMs |
| BackpressureProtocol.LateScriptBreaksPacing | apps/api/src/queue/backpressure/redis-backpressure.service.ts:109-129 | a script beyond the bound is granted although the spacing has not passed on its own clock |
| Outbox.OutboxDispatcherService.ReviveStaleLocks | apps/api/src/outbox/outbox-dispatcher.service.ts:45-65 | exactly the rows processing since before the threshold are pending and unlocked again |
| Outbox.OutboxDispatcherService.ClaimBatch | apps/api/src/outbox/outbox-dispatcher.service.ts:67-105 | claims the oldest claimable rows up to the limit, each once, oldest first, and locks exactly those |
| Outbox.OutboxDispatcherService.MarkRetryOrFailed | apps/api/src/outbox/outbox-dispatcher.service.ts:125-159 | decides by the attempts the claim read but increments the stored ones; pending with the backoff, or failed |
| Outbox.OutboxDispatcherService.DispatchOne | apps/api/src/outbox/outbox-dispatcher.service.ts:161-191 | an accepted row is one job under the row's id and content, in notifications for "booking.", webhooks for "webhook.", sync-jobs for "sync.", "sync-job." or "integration."; a row without these prefixes is refused, and a refused row adds nothing |
| Outbox.OutboxDispatcherService.DrainOnce | apps/api/src/outbox/outbox-dispatcher.service.ts:193-222 | claimed = sent + failed; nothing due is left over below the limit, and nothing older at it; every claimed row ends sent or one attempt further, the jobs are exactly those of the accepted rows in order, and no other row changes but stale locks |
| Outbox.NineDelays | apps/api/src/outbox/outbox-dispatcher.service.ts:107-110 | the nine waits are 5, 5, 8, 16, 32, 64, 128, 256, 256 s, 770 s together |
| Outbox.DelaysGrowBelowCap | apps/api/src/outbox/outbox-dispatcher.service.ts:107-110 | the waits never shrink and the 300 s cap never binds |
| OutboxProtocol.RunKeepsSafe | apps/api/src/outbox/outbox-dispatcher.service.ts:45-222 | in every interleaving with overruns and crashes: locked exactly while processing, a sent row was queued under its own id, a failed row has used its attempts, attempts count the failed marks, every job is its row's |
| Outbox.QueueByPrefix | apps/api/src/outbox/outbox-dispatcher.service.ts:31-43 | a row has a job exactly when its event type has one of the five prefixes, and then in the queue of that prefix and under the row's id |
| OutboxProtocol.JobsGoByPrefix | apps/api/src/outbox/outbox-dispatcher.service.ts:31-43 | in every interleaving every job is in the queue of its event type's prefix, and a row without a known prefix is never queued and never sent |
| OutboxProtocol.RoundAlone | apps/api/src/outbox/outbox-dispatcher.service.ts:67-222 | statement by statement, from any state, a due row that nothing interferes with is queued and sent, or is one attempt further and waits or has failed, as of the clock its mark read; no other row changes |
| OutboxProtocol.QueuedYetRetried | apps/api/src/outbox/outbox-dispatcher.service.ts:161-222 | a job can be in the queue while its row waits for a retry, when the call throws after adding it or the row cannot be marked: delivery is at least once |
| OutboxProtocol.RowsAreKept | apps/api/src/outbox/outbox-dispatcher.service.ts:45-222 | no row is lost or changes its content, and attempts never fall |
| OutboxProtocol.DrainAddsUp | apps/api/src/outbox/outbox-dispatcher.service.ts:202-221 | a drain that returns has claimed = sent + failed, in every interleaving |
| OutboxProtocol.RunKeepsTimed | apps/api/src/outbox/outbox-dispatcher.service.ts:45-159 | under the stale bound every row in flight is as its claim left it and in one worker's hands |
| OutboxProtocol.InFlightIsExclusive | apps/api/src/outbox/outbox-dispatcher.service.ts:45-105 | under that bound no row is in flight at two workers, and the claimed attempts equal the stored ones |
| OutboxProtocol.FinalIsForGood | apps/api/src/outbox/outbox-dispatcher.service.ts:112-159 | under that bound nothing about a sent or failed row ever changes again |
| OutboxProtocol.DispatchesAreBounded | apps/api/src/outbox/outbox-dispatcher.service.ts:131-158 | claims are attempts plus revivals plus the present one; dispatches never exceed max attempts plus revivals; a pending row has attempts left |
| OutboxProtocol.ClaimsAndMarksProgress | apps/api/src/outbox/outbox-dispatcher.service.ts:67-159 | the measure 2*(max - attempts) + [pending] falls at each claim and each mark, and a revival raises it by one |
| OutboxProtocol.ClaimsBackOff | apps/api/src/outbox/outbox-dispatcher.service.ts:107-158 | a claim after n failures comes no earlier than the first n waits after the first claim; the tenth at least 770 s |
| OutboxProtocol.OverrunUndoesSent | apps/api/src/outbox/outbox-dispatcher.service.ts:112-159 | one millisecond beyond the stale bound there is a run in which a sent row becomes pending again, or failed when there is but one attempt |
| OutboxProtocol.FinalExactly | apps/api/src/outbox/outbox-dispatcher.service.ts:45-159 | for every bound: sent and failed rows never change in any run whose workers mark within the bound, if and only if the bound is at most `staleLockMs` |
| Delivery.DeliveredOnlyWhereRouted | apps/api/src/outbox/outbox-dispatcher.service.ts:31-43 | all jobs queued under a row's id are on the one queue its event type routes to |
| Delivery.ConsumersSeeTheirPrefix | apps/api/src/outbox/outbox-dispatcher.service.ts:31-43 | the consumer of a queue only ever works on rows whose event type has that queue's prefix |
| Delivery.UndeliveredIsUntouched | apps/api/src/queue/processors/notifications.processor.ts:82-95 | a key whose job was never queued has no consumer calls and no effects |
| Delivery.OneEffectPerRow | apps/api/src/queue/processors/notifications.processor.ts:82-95 | end to end, over dispatchers, queues and consumers together: a row's side effect completes at most once plus the effects whose done write was lost, however often the row is claimed, revived, queued or delivered; and only for a queued row |
| Bookings.BookingsService.Create | apps/api/src/bookings/bookings.service.ts:267-422 | the new tables and the answer are those of a whole create call, whose steps CalledAlone gives and whose guards, answers and keys GuardsDecide, RefusedBecause and KeyedAnswerIsStored spell out |
| Bookings.BookingsService.Reschedule | apps/api/src/bookings/bookings.service.ts:424-585 | the same for reschedule, with the key written in the transaction |
| Bookings.BookingsService.Cancel | apps/api/src/bookings/bookings.service.ts:725-847 | the same for cancel; on tables that satisfy the constraints the update cannot violate them |
| Bookings.BookingsService.Confirm | apps/api/src/bookings/bookings.service.ts:849-964 | the same for confirm |
| Bookings.BookingsService.Put | apps/api/prisma/migrations/20260226210028_add_booking_exclusion/migration.sql:5-17 | a write is refused exactly for a length that is not positive or an overlap with another active booking of the staff member, and otherwise fires the trigger's events |
| BookingLifecycle.RunKeepsRows | apps/api/src/bookings/bookings.service.ts:331-357 | in every run of calls cut at their transactions, with the catalogue changing in between, lengths equal their snapshots and active bookings of one staff member are disjoint |
| BookingLifecycle.NoDoubleBooking | apps/api/prisma/migrations/20260226210028_add_booking_exclusion/migration.sql:9-17 | no instant lies in two active bookings of one staff member |
| BookingLifecycle.SameStartIsRefused | apps/api/src/bookings/bookings.service.ts:316-421 | a create for the start of an active booking of the staff member is refused and changes nothing |
| BookingLifecycle.TxEffect | apps/api/src/bookings/bookings.service.ts:334-404 | every transaction leaves the tables alone or makes one constrained row change, to the row of the request, with its history row in the actor's effective role and its trigger events |
| BookingAnswers.GuardsDecide | apps/api/src/bookings/bookings.service.ts:331-947 | a transaction succeeds exactly when its guards pass or a cancel or confirm finds its work done, with guards in terms of rows, roles and clock; what it then tells; and exactly when it changes the tables |
| BookingAnswers.RefusedBecause | apps/api/src/bookings/bookings.service.ts:322-909 | which error a refused transaction gives: the first guard that fails, in the order of the code |
| BookingAnswers.OverlapMeansCommonInstant | apps/api/prisma/migrations/20260226210028_add_booking_exclusion/migration.sql:9-17 | two spans exclude each other exactly when an instant lies in both |
| BookingAnswers.CalledAlone | apps/api/src/bookings/bookings.service.ts:267-964 | from any state, lookup, transaction and save without interference end in exactly the tables and the answer that the methods promise |
| BookingAnswers.KeyedAnswerIsStored | apps/api/src/bookings/bookings.service.ts:405-418 | a call under a free key stores exactly its own successful answer there, with the request and its kind |
| BookingAnswers.CalledAgain | apps/api/src/bookings/bookings.service.ts:307-320 | a second call under the key gets the first answer for the same request and a conflict for another, and changes nothing, whatever has become of roles, clock and catalogue |
| BookingAnswers.FailedCallChangesNothing | apps/api/src/bookings/bookings.service.ts:405-421 | in every run, a call that answered with an error changed bookings, history or events if and only if its guards passed and its key could then not be saved |
| BookingAnswers.FailedCreateBooks | apps/api/src/bookings/bookings.service.ts:406-421 | for every create whose guards pass, a run in which it answers with an error and its booking stands |
| BookingAnswers.RescheduleTookEffect | apps/api/src/bookings/bookings.service.ts:551-579 | in every run, a reschedule that answers well has moved the booking, written history and told the new row, if and only if no other call stored its key between its lookup and its transaction; otherwise nothing changed |
| BookingAnswers.SecondRescheduleLost | apps/api/src/bookings/bookings.service.ts:563-579 | a run in which two different reschedules under one key both answer well and the booking stays where the first put it |
| BookingAnswers.TwiceCreatedOnceActive | apps/api/src/bookings/bookings.service.ts:333-421 | in every run, of two bookings made by one create request, interleaved, repeated or after a crash, at most one is ever active at the requested start |
| BookingLifecycle.FirstAnswerStays | apps/api/src/bookings/bookings.service.ts:223-241 | the first answer stored under a key never changes |
| BookingLifecycle.ReplayAnswersFromStore | apps/api/src/bookings/bookings.service.ts:307-320 | a call after its key was stored gets the stored answer for the same request, a conflict for another, and changes nothing |
| BookingLifecycle.SavedCallIsReplayed | apps/api/src/bookings/bookings.service.ts:307-418 | a call whose key was saved gives its own answer to every later identical call |
| BookingAudit.TrailTellsAll | apps/api/src/bookings/bookings.service.ts:100-135 | in every run a booking's history chains, replaying it gives the present status and span, confirm and cancel occur at most once with nothing after cancel, and the trigger's events are the history's without reschedules to the same time |
| BookingAudit.RunKeepsTrail | apps/api/prisma/migrations/20260308211716_add_booking_outbox_triggers/migration.sql:18-186 | every step keeps history, events and row of every booking in agreement |
| BookingAudit.StatusNeverGoesBack | apps/api/src/bookings/bookings.service.ts:753-947 | along a chained history a confirmed booking is never pending again and a cancelled one never changes |
| WorkingHours.ValidateItems | apps/api/src/working-hours/working-hours.service.ts:67-97 | accepts a list exactly when every window is non-empty, within 0..1440 and disjoint from every other of its day; otherwise names a problem that is there |
| WorkingHours.AcceptableMeans | apps/api/src/working-hours/working-hours.service.ts:67-97 | acceptable, minute by minute: every window takes time within 0..1440, and no minute of a weekday lies in two of its windows |
| WorkingHours.GroupByDay | apps/api/src/working-hours/working-hours.service.ts:74-79 | the groups are the windows of each day in list order |
| WorkingHours.CheckDay | apps/api/src/working-hours/working-hours.service.ts:81-96 | sorting and comparing neighbours decides range and pairwise disjointness of a day |
| WorkingHours.GroupsDecide | apps/api/src/working-hours/working-hours.service.ts:74-96 | checking each day's group is checking all pairs of one day |
| WorkingHours.NeighboursDecide | apps/api/src/working-hours/working-hours.service.ts:82-95 | in a sorted list of non-empty windows, disjoint neighbours mean disjoint pairs and conversely |
| WorkingHours.SortKeepsDisjointness | apps/api/src/working-hours/working-hours.service.ts:82 | sorting changes neither the windows nor whether they are pairwise disjoint |
| WorkingHours.WorkingHoursService.Replace | apps/api/src/working-hours/working-hours.service.ts:130-163 | succeeds exactly for the allowed caller, staff and list; then the staff member has exactly the given windows, and nobody else's change |
| AddonIds.NormalForm | apps/api/src/availability/addon-ids.util.ts:1-12 | the normal form is strictly ascending, of trimmed non-empty ids without commas, with exactly the parts of the raw values |
| AddonIds.PartsExact | apps/api/src/availability/addon-ids.util.ts:4-9 | the ids asked for are exactly the non-empty trimmed pieces between the commas of all values |
| Text.TrimExact | apps/api/src/availability/addon-ids.util.ts:7 | trimming drops the blanks at both ends and nothing else |
| Text.JoinSplit | apps/api/src/availability/addon-ids.util.ts:6 | joining the pieces of a split gives the string back |
| Text.AtMostExact | apps/api/src/availability/addon-ids.util.ts:11 | the sort order is by code unit at the first difference, prefixes first |
| AddonIds.OnlyMembersMatter | apps/api/src/availability/addon-ids.util.ts:11 | order, repeats and the way of writing the list do not matter |
| AddonIds.NormalizeTwice | apps/api/src/availability/addon-ids.util.ts:1-12 | normalizing again changes nothing |
| AddonIds.JoinedFormReadsBack | apps/api/src/availability/availability.controller.ts:62-63 | the normal form joined with commas reads back as itself |
| ServiceProfile.CountTestComplete | apps/api/src/services/service-profile.service.ts:153-188 | counting the fetched add-ons decides whether all are available, because the ids carry no repeats; the second missing-row error is unreachable |
| ServiceProfile.ResolvesWhen | apps/api/src/services/service-profile.service.ts:30-188 | a selection resolves exactly when service, business, staff member, assignment, variant and every requested add-on exist, belong together, are active or not archived, and can be booked online where that is asked for |
| ServiceProfile.FailsBecause | apps/api/src/services/service-profile.service.ts:33-188 | which error is given: that of the first part that cannot be had, in the order of the code |
| ServiceProfile.OverridesHideVariant | apps/api/src/services/service-profile.service.ts:135-151 | choosing another variant, or none, moves only the terms that the assignment leaves open; a full override hides the variant from length and price |
| ServiceProfile.VariantHidesService | apps/api/src/services/service-profile.service.ts:135-206 | editing the service's own terms changes no profile with a variant or a full override, and otherwise moves exactly the open fields by the amount edited |
| ServiceProfile.ChoiceResolvesAlike | apps/api/src/services/service-profile.service.ts:33-188 | whether and why a choice fails does not depend on which of its staff is chosen |
| ServiceProfile.AddonOrderIrrelevant | apps/api/src/services/service-profile.service.ts:30 | the profile does not depend on order or repeats of the add-ons |
| ServiceProfile.OneMoreAddon | apps/api/src/services/service-profile.service.ts:190-206 | one more add-on adds exactly its own length, price and buffers; one already chosen adds nothing |
| Slots.GenerateSlots | apps/api/src/availability/availability.service.ts:134-180 | for any minute-to-instant function and positive interval the loop ends with exactly the slots on some window's grid that fit and meet no booking or time off, each start once |
| Slots.GridExact | apps/api/src/availability/availability.service.ts:145-149 | the starts tried in a window are exactly its grid points whose slot fits |
| Slots.OneMoreBlocker | apps/api/src/availability/availability.service.ts:154-178 | one more blocker removes exactly the slots it overlaps and keeps the order of the rest |
| Availability.GetAvailability | apps/api/src/availability/availability.service.ts:51-190 | visiting the staff in any order gives the one answer that the tables determine, or the one error |
| Availability.AnswerForStaff | apps/api/src/availability/availability.service.ts:93-182 | one staff member's slots are those of the day's windows against the fetched bookings and time off, and empty without windows |
| Availability.AnswerExact | apps/api/src/availability/availability.service.ts:69-182 | a slot is in the answer exactly when it is as long as the selection, lies a whole number of intervals (15 minutes by default) into working hours of that weekday, and is beside every pending or confirmed booking and every time off of the staff member that touches the day |
| Availability.AnsweredExactly | apps/api/src/availability/availability.service.ts:65-101 | there is an answer exactly when the day is valid (UTC by default) and the selection resolves for all; it tells the resolved length of exactly the active staff of the business with an active online assignment, or of the one that is named |
| Availability.ListedStaffAgree | apps/api/src/availability/availability.service.ts:69-101 | whether and how the selection fails to resolve is the same for all listed staff |
| Bookable.SlotsAreBookable | apps/api/src/bookings/bookings.service.ts:322-421 | an offered slot is accepted by create with the same end exactly when the selection takes time and no active booking starts in the day's last millisecond while the slot ends at midnight; otherwise with which error it is refused |
| Bookable.TakenMeansHidden | apps/api/src/common/time/time.util.ts:30-49 | the day query's bounds miss exactly the bookings that start in the day's last millisecond |
| Bookable.TimeOffIsKept | apps/api/src/availability/availability.service.ts:125-178 | an offered slot overlaps time off of its staff member exactly when the time off starts in the day's last millisecond and the slot ends at midnight |
| Bookable.LastSlotWronglyOffered | apps/api/src/common/time/time.util.ts:36-48 | a concrete day on which the last slot is offered although it is taken |
| Bookable.BookingTakesItsSlots | apps/api/src/availability/availability.service.ts:115-164 | a new active booking within the day's bounds takes exactly the slots it overlaps from its staff member and nothing from the others |
| Bookable.TimeOffTakesItsSlots | apps/api/src/availability/availability.service.ts:125-178 | new time off that touches the day, however far it reaches beyond, takes exactly the slots it overlaps from its staff member and nothing from the others |
| Bookable.BookedSlotIsGone | apps/api/src/availability/availability.service.ts:154-178 | booking an offered slot takes it out of the next answer and leaves exactly the slots beside it |
| CacheKeys.KeyInjective | apps/api/src/availability/availability.controller.ts:62-75 | queries without colons in their ids share a key only if they are equal but for empty optional ids |
| CacheKeys.ServicePrefixExact | apps/api/src/bookings/bookings.service.ts:51-66 | a service's prefix covers exactly the keys of its business whose service id continues its id, so all of its own |
| CacheKeys.AvailabilityPrefixCovers | apps/api/src/working-hours/working-hours.service.ts:99-101 | the prefix used for working hours and time off covers every availability key |
| Cache.RedisCacheService.GetJson | apps/api/src/infra/redis-cache.service.ts:17-25 | returns exactly the unexpired value |
| Cache.RedisCacheService.SetJson | apps/api/src/infra/redis-cache.service.ts:27-34 | a positive TTL sets an expiry, any other none |
| Cache.RedisCacheService.DelByPrefix | apps/api/src/infra/redis-cache.service.ts:42-59 | removes exactly the keys with the prefix, however SCAN pages them |
| Cache.AvailabilityController.GetAvailability | apps/api/src/availability/availability.controller.ts:61-98 | answers with an entry that has not expired and changes nothing, or computes, and stores an answer until the TTL has passed; an error is not stored |
| Cache.SameKeySameAnswer | apps/api/src/availability/availability.controller.ts:62-78 | queries that share a key have the same answer in every state |
| CacheProtocol.AnswersAreRecent | apps/api/src/availability/availability.controller.ts:77-97 | with a positive TTL every answer is the fresh answer of a state younger than the TTL plus the longest delay between computing and storing; plus nothing when they are one step |
| CacheProtocol.ServiceAnswersAreCurrent | apps/api/src/bookings/bookings.service.ts:51-71 | in serial runs whose writes drop everything, are bookings whose prefix covers the service, of staff who do not offer it, or new and in no cached answer's way, every answer for the service is the fresh one |
| CacheProtocol.BookingElsewhere | apps/api/src/availability/availability.service.ts:69-123 | a booking of somebody the query does not list leaves its answer alone |
| AnswerChanges.NewBookingChanges | apps/api/src/availability/availability.service.ts:115-164 | a new booking changes an answer if and only if it is active, within the day's bounds, of listed staff and in the way of an offered slot |
| AnswerChanges.NewTimeOffChanges | apps/api/src/availability/availability.service.ts:125-178 | new time off changes an answer if and only if it touches the day, is of listed staff and is in the way of an offered slot |
| CacheCoherence.BookingLeavesEntryRight | apps/api/src/bookings/bookings.service.ts:51-71 | a right cache entry stays right or goes, when a new booking drops its own service's entries, if and only if that prefix covers the entry's key or the booking meets none of its slots |
| CacheCoherence.BookingLeavesServiceRight | apps/api/src/bookings/bookings.service.ts:51-71 | the same for all cached entries of a service at once |
| CacheCoherence.OtherServiceStaysCached | apps/api/src/bookings/bookings.service.ts:322-421 | whenever create accepts another service of the same staff member at an offered start, a run in which the old answer is still given after that service's entries were dropped |
| CacheCoherence.ShaveLeavesCutCached | apps/api/src/bookings/bookings.service.ts:56-65 | such a run with a concrete catalogue, hours and booking |
| CacheProtocol.ServedInSteps | apps/api/src/availability/availability.controller.ts:77-97 | a call that nothing interleaves with is one hit exactly while the entry lives, or a miss followed by its store, with the answer and the entries that the controller promises |
| CacheProtocol.LateStoreStaysCached | apps/api/src/availability/availability.controller.ts:80-95 | a run in which a write between computing and storing leaves a wrong answer, whatever it drops |
| CacheProtocol.StaleForEver | apps/api/src/infra/redis-cache.service.ts:29-33 | without a positive TTL a change that drops nothing is missed at any later time |

## Left out

- Nest modules, other controllers, logging, the queue dashboard and the web app: no logic of the kind proved here.
- Authentication, magic codes, invites, staff profiles and catalogue editing: short checks over single rows; the catalogue is an input.
- Prisma, Postgres, Redis and BullMQ inside: statements, transactions, scripts and commands are atomic; a statement that throws is taken to have had no effect.
- Read-committed races within one booking transaction: transactions are serial.
- Overlapping calls of one lease owner, which `setInterval` would allow for steps longer than the renew period, and a shutdown during a step: calls of one owner are serial. LateRenewalShrinksExpiry shows what an overlap can do.
- Clock skew between hosts: one clock.
- The order of revive and claim within a drain, in OutboxProtocol: any worker may revive or claim at any time, which allows more than the code does.
- Outbox.OutboxDispatcherService.DrainOnce: meets no other worker and runs at one instant; the interleaved form is OutboxProtocol.
- The attendance policy metadata that cancel writes into the history, and the other snapshot columns of a booking: written and never read by the operations modelled.
- The late-policy and no-show settings: they only feed that metadata.
- An idempotency key that is the empty string, which the service takes for none: it is `None` here.
- The request hash as JSON text: it is the request itself, hence injective.
- Backpressure.SpacingFillsWindow: the margin of 0.15 is computed exactly, as 15/100 rounded up, not in floating point.
- AddonIds.NormalForm: trimming removes space, tab, line feed and carriage return only, and strings are sequences of code units.
- WorkingHours.CheckDay: the library sort is a function on sequences; the day's array is not sorted in place.
- The order of the staff in an answer, and the top-level `totalMin`, which is that of the first of them: the answer is a map.
- The order of a day's windows is that of the stored rows; the database promises none. Slots.GenerateSlots holds for every order.
- Luxon and time-zone data: where a wall-clock minute falls is an arbitrary function; Bookable assumes only that it falls within the day.
- Reading the tables for one availability answer is one step.
- `delKeys`, which only catalogue editing uses.
- Glob characters in a cache prefix, and JSON encoding: keys are matched literally and values are stored as they are.
- The CRUD of time off, the slow path of dropping all keys for a booking without ids, and the swallowing of cache errors: a write whose invalidation failed is a write that drops nothing.
- Job-id sanitising, the failure modes and the dead-letter hooks of the processors: small, and not part of the delivery argument.
