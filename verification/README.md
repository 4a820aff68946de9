# Verified model of the metering backend's core services

This project models, in Dafny, the seven files of the backend that carry its logic, and proves
what their code and documentation promise of them:

| part | source | Dafny files |
|---|---|---|
| job queue | `src/services/queue.js` | `QueueModel`, `QueuePlacement`, `QueueRecovery`, `QueueRuns`, `QueueOrder`, `QueueCrashes`, `QueueBudget`, `QueueStarts`, `QueueTiming`, `QueueRetries`, `QueueOutcomes`, `JobQueue` |
| pagination | `src/utils/pagination.js` | `Sorting`, `Keyset`, `CursorWalks`, `Pagination`, `PaginationWalk`, `BackWalks`, `PaginationBack`, `PaginationOrder`, `PaginationStatic` |
| cache | `src/services/cache.js` | `OrderedMap`, `Cache`, `CacheRefinement`, `SingleFlight`, `SingleFlightAnswers` |
| rate limiter | `src/middleware/rateLimiter.js` | `RateLimiter`, `RateLimits`, `RateEvictions` |
| aggregator | `src/services/aggregator.js` | `Statistics`, `ReadingStore`, `Grouping`, `Grids`, `Calendar`, `Buckets`, `Aggregation` |
| scheduler | `src/services/scheduler.js` | `SchedulerModel`, `SchedulerRuns`, `SchedulerWaits`, `Scheduler` |
| billing | `src/jobs/billing.job.js` | `Calendar`, `Billing` |

`dafny verify dfyconfig.toml` checks all of it.

## How it is modelled

- **State that changes in place** is a class (`JobQueue`, `MemoryCache`, `Limiter`, `Readings`,
  `Scheduler`) whose methods follow the program's methods, loops included. Each method is proved to
  turn the state into what a specification function says, and the promises are proved about those
  functions over every step and every run. What an answer or a record is, is stated in terms of what
  came in, beside the functions that compute it.
- **A JavaScript `Map`** is its keys in insertion order together with its entries, because eviction
  depends on that order.
- **Timers, handlers and promises** are events of a state machine. Any event that is enabled may
  come next, so the invariants hold for every interleaving. The queue also has a crash event.
- **Time** is integer milliseconds on a clock that never goes back. `TimerDelay` is the clamp of
  Node's timers: a delay outside 1 .. 2^31-1 ms is one millisecond.
- **Values and amounts** are exact reals; rounding is modelled where the program rounds.
- `Array.prototype.sort` is a stable insertion sort; for a comparator that is a total preorder every
  stable sort gives the same result.

## What came out

Some promises hold in a stronger form than one would guess from the code:

- A rate-limited client gets at most **2M - 1** (not 2M) requests through in any stretch as long as
  a window, and `BoundIsReached` shows that the limiter does let 2M - 1 through. The cap of the
  store never gets in the way if and only if there is room for the windows that run at once
  (`AllStayIffRoomy`).
- The reading store is, at any time, **exactly the newest `cap`** of all readings added and not yet
  out of age, whatever the sequence of ingests and sweeps.
- While the **live** entries fit under the cap, the bounded cache **is** the unbounded TTL map,
  however many keys have come and expired; at a constant cap nothing is ever lost if and only if
  they always fit (`NothingLostIffItFits`).
- A crash at any moment when no snapshot write is pending loses no job and changes no record but
  those of jobs at work, which are queued again (`CrashLosesNothing`).
- Within one process retries keep to their budget for every job ever admitted, those the history has
  evicted included. Over a run whose crashes all come with no write pending, a job gets one start
  more for each crash that interrupts it, and no other (`StartsOverCrashes`).
- A delay is kept through crashes.
- What becomes of a job is what was last said of it: in every crash-free run it is completed if and
  only if its handler resolved last, and cancelled if and only if it was cancelled last
  (`OutcomesAreTheVerdicts`).
- An answer to a cursor is exactly the next rows in the order asked for, said in terms of the values
  themselves (`AnswersInOrder`, `AnswersBackInOrder`).
- A client that pages over data that changes meanwhile is served each row that stays exactly once,
  going forward (`NoPageDrift`) and going back (`NoPageDriftBack`).

The code differs from its comments or from what one would expect in these places. The model
follows the code, and each has its exact condition or a concrete instance:

- A job that was backing off when the process died is queued at once on recovery, without the rest
  of its backoff (`RecoverReschedules`).
- A crash can lose the dispatch order even when no write is pending. A job whose timer fires is
  queued without asking for a write, so the order on disk is that of the last write; the jobs that
  came due since, and those in flight, are put behind it in map order, whatever their priority. The
  first crash leaves the queue in priority order if and only if these come by descending priority and
  none outranks a saved one (`FirstCrashInOrderIff`); `CrashBreaksTheOrder` is a run that loses it.
- A failed attempt that is not yet written when the process dies is given back
  (`UnwrittenAttemptComesBack`).
- A job added with a delay of more than 2^31-1 ms starts after one millisecond: a job of a given
  delay can start early if and only if its delay is longer than that (`StartsEarlyIffTooLong`).
- A backoff is honoured up to the 21st failed attempt and not after: beyond, the timer fires after
  one millisecond (`BackoffHonouredIff`). A job can be started again early if and only if it has more
  than 22 attempts (`RestartsEarlyIff`).
- A load that throws before it returns a promise leaves its entry behind, and its key is never
  loaded again (`StuckForGood`, `TableExactIffNoneThrew`), although a failed load is documented to be
  retried by the next request.
- At a full counter store, a client whose window ends before every other is evicted at once and not
  limited at all (`NewcomerAtFullStore`).
- Weekly gap filling leaves out the last week exactly when the end lies earlier in its week than
  the start in its own and no reading falls in it (`GeneratedByWidth`, `WeekLeftOut`). Monthly gap
  filling leaves out the first month too short for the start's day of the month as well: from the
  31st of a January there is no February (`FebruaryLeftOut`). Every month is generated if and only if
  each has that day and the end lies no earlier in its month than the start in its own
  (`EveryMonthIff`).
- A schedule that is stopped while its handler is at work goes on (`StoppedAtWorkGoesOn`), and one
  that is cancelled at work goes on if its name is registered again before the handler settles
  (`ReregisteredAtWorkGoesOn`); nothing else keeps a stopped schedule going
  (`QuietIffNotStoppedAtWork`). Started again before the handler settles, a schedule goes on twice
  (`RestartedAtWorkMakesTwoChains`); it stays at one timer or handler if and only if it is not
  started at work (`OneChainIffNotStartedAtWork`).
- A billing period is documented as one calendar month, but it runs through the first day of the
  next: readings of that day are billed twice, and no others are (`BilledTwice`).
- `compareValues` is transitive on the values of two kinds (numbers, dates, other texts) if and only
  if they are one kind (`OrderedIffOneKind`), so the paging theorems ask for columns of one kind.

## Model

| member | source | states |
|---|---|---|
| QueueRuns.EveryJobHasOnePlace | src/services/queue.js:110-464 | in every run, crashes included, a queued job is in the queue once or has one pending timer, never both; no other job is in the queue; a job is running iff it holds a slot; slots never exceed the concurrency, and no slot is idle while a job is queued and the queue is processing |
| QueueRuns.RunGood | src/services/queue.js:110-697 | the inductive invariant of all of this: placement, saturation, and a disk that holds every job while no write is pending, kept by every event including crash and recovery |
| QueueCrashes.CrashLosesNothing | src/services/queue.js:585-697 | a crash at any moment of any run with no write pending brings back exactly the jobs there were, in the order of the map and every record as it was, but that running ones are queued and not started; the queue is the one last written, followed by every other job that is due, and is stopped |
| QueueRuns.CrashGood | src/services/queue.js:636-697 | recovery from whatever snapshot a run has left on disk restores the invariant and exactly the saved jobs |
| QueueRuns.StepTracks | src/services/queue.js:598-610 | an event either leaves the records as they are or asks for a snapshot write |
| QueuePlacement.StepPlaces | src/services/queue.js:323-464 | each single event keeps the placement invariant and leaves no slot idle while a job is queued |
| QueuePlacement.DrainPlaces | src/services/queue.js:361-464 | the dispatch loop with its nested calls ends, keeps every job in one place, and ends only when slots or jobs run out |
| QueuePlacement.CancelPlaces | src/services/queue.js:232-250 | cancelling takes the job out of the queue, keeps its stray timer harmless, and never touches a running job |
| QueuePlacement.EvictPlaces | src/services/queue.js:527-545 | history eviction deletes terminal jobs only, so no queued, waiting or running job is lost |
| QueuePlacement.FailRunPlaces | src/services/queue.js:419-459 | a failed run gives its slot back and either waits on a new timer or is terminal |
| QueueRecovery.RecoverPlaces | src/services/queue.js:636-697 | whatever file queues no job twice, the booted state satisfies the invariant and holds exactly the file's jobs |
| QueueRecovery.RecoverKeeps | src/services/queue.js:585-697 | recovering a snapshot keeps exactly its jobs in order, terminal ones unchanged and running ones queued, and the saved order is a prefix of the new queue |
| QueueRecovery.RecoverReschedules | src/services/queue.js:672-689 | a queued or in-flight job that was not in the saved order is armed for the rest of its delay, or queued if nothing is left |
| QueueRecovery.RecoverIdempotent | src/services/queue.js:585-697 | snapshot then load, twice at one instant, is the same as once |
| QueueRecovery.LoadRecords | src/services/queue.js:585-664 | records written in map order are read back as the same map in the same order |
| QueueOrder.QueueIsTheStableSort | src/services/queue.js:323-377 | without a recovery, the queue is the one arrangement of its jobs by descending priority, first enqueued first among equals |
| QueueOrder.DrainStartsFirstInLine | src/services/queue.js:361-377 | dispatch never starts a job while one that comes before it stays queued |
| QueueOrder.StepOrdered | src/services/queue.js:323-464 | every event but a recovery keeps the queue in dispatch order |
| QueueCrashes.RecoveredQueue | src/services/queue.js:585-691 | recovered from a snapshot of it, a queue has the in-flight and overdue jobs behind it, in map order |
| QueueCrashes.RecoveredInOrderIff | src/services/queue.js:666-691 | recovery from a snapshot keeps a queue in priority order iff these late jobs come by descending priority and none of them outranks a saved job |
| QueueCrashes.CrashInOrderIff | src/services/queue.js:598-691 | in any reachable state with no write pending, a crash leaves the queue in priority order iff the order on disk is, the late jobs are, and none of these outranks a saved one |
| QueueCrashes.FirstCrashInOrderIff | src/services/queue.js:323-345 | until its first crash the queue is in priority order, and that crash keeps it so iff the jobs due since the last write and those in flight come by descending priority and none outranks a saved one |
| QueueCrashes.CrashBreaksTheOrder | src/services/queue.js:148-164 | with persistence and room for two jobs, some run has its queue in priority order and no write pending, and a crash puts the job of high priority last |
| QueueBudget.RetryBudget | src/services/queue.js:397-460 | in a crash-free run the handler of any job ever admitted, evicted since or not, starts at most max(1, maxAttempts) times, and a job failed by its handler has used all of these, n say, with backoffs of 1000 * (2^n - 2) ms in all |
| QueueBudget.LedgerAcrossCrashes | src/services/queue.js:397-460 | in any run, crashes included, and for any job, evicted or not: since the last boot its handler has started at most as often as it had attempts left at that boot, or when it was admitted after it |
| QueueStarts.StartsOverCrashes | src/services/queue.js:383-460 | in a run whose crashes all come with no write pending, the handler of a job starts at most as often as it was admitted with attempts plus once for each crash that interrupted it, over all processes together |
| QueueStarts.UnwrittenAttemptComesBack | src/services/queue.js:419-434 | a crash before the write of a failed attempt brings the job back queued with the attempts it had before |
| QueueBudget.RunWork | src/services/queue.js:397-460 | attempts are conserved: the handler outcomes of a run and the attempts left after it never exceed those available at its start and those it admits, so every outcome uses one up |
| QueueTiming.NewNotBefore | src/services/queue.js:110-164 | nothing but its own timer can start a new delayed job, and that is not due before its time iff the delay is at most 2^31-1 ms |
| QueueTiming.DelayHonoured | src/services/queue.js:148-164 | in every run, crashes included, a job delayed by at most 2^31-1 ms is not queued and not started before its `runAt` |
| QueueTiming.StartsEarlyIffTooLong | src/services/queue.js:148-155 | some run starts a job of a given delay before its `runAt` iff the delay is more than 2^31-1 ms |
| QueueTiming.BackoffHonouredIff | src/services/queue.js:419-434 | after a failed attempt nothing can start the job before its backoff is over iff there were at most 21 of them; the 22nd arms a timer due after 1 ms |
| QueueTiming.RetryHonoured | src/services/queue.js:419-434 | in every run, whatever the job has done since, a job that backed off after at most 21 failed attempts is not queued and not started before the backoff is over, unless a crash came between |
| QueueRetries.RestartsEarlyIff | src/services/queue.js:419-434 | with room to add and run a job, some run starts one of m attempts again before its backoff is over iff m is more than 22 |
| QueueOutcomes.CompletedRecord | src/services/queue.js:407-418 | a handler that resolves completes its job at that moment and changes nothing else in its record, evicted at once or not |
| QueueOutcomes.FailedRecord | src/services/queue.js:419-459 | a handler that rejects leaves its job with one attempt more and the error: queued and not started if an attempt is left, failed at that moment if not |
| QueueOutcomes.CancelledRecord | src/services/queue.js:232-250 | a known job that is not at work becomes cancelled and leaves the queue, nothing else changes and the caller is told so; any other is refused and left alone |
| QueueOutcomes.DispatchKnown | src/services/queue.js:361-396 | dispatch starts the head of the queue and touches no other job: failed for want of a handler, running from that moment, or through the retry ladder if its handler throws at once |
| QueueOutcomes.OutcomesAreTheVerdicts | src/services/queue.js:232-459 | in every crash-free run a job, evicted or not, is completed, at that time, iff the last thing said of it is that its handler resolved, and cancelled iff it is a cancellation that reached it |
| QueueOutcomes.TermsAreTheRequests | src/services/queue.js:110-145 | in every crash-free run each job keeps the kind, priority (2 if none was given), attempts, time budget, delay and due time it was asked for, or the defaults |
| QueueOutcomes.AdmittedIffRoom | src/services/queue.js:110-119 | a job is admitted iff the queue is shorter than its depth, and otherwise the rejection is counted and nothing changes |
| QueueOutcomes.HistoryWithinLimit | src/services/queue.js:527-545 | eviction takes as many completed, failed and cancelled jobs as there are entries beyond the limit, the oldest first, and no other job or record changes |
| QueueOutcomes.StoppedStartsNothing | src/services/queue.js:95-275 | only start and stop switch the queue on and off, a stopped queue starts no handler, and only registration adds a handler |
| JobQueues.JobQueue.AddJob | src/services/queue.js:110-164 | the overflow check, the new record, and either a timer or an insertion followed by dispatch |
| JobQueues.JobQueue.CancelJob | src/services/queue.js:232-250 | unknown and running jobs are refused, any other becomes cancelled and leaves the queue |
| JobQueues.JobQueue.StartProcessing | src/services/queue.js:255-264 | starting drains the queue; starting twice changes nothing |
| JobQueues.JobQueue.EnqueueJob | src/services/queue.js:323-345 | the loop that splices a job before the first of lower priority, then dispatches |
| JobQueues.JobQueue.RemoveFromQueue | src/services/queue.js:351-356 | the first occurrence is spliced out and nothing else moves |
| JobQueues.JobQueue.Process | src/services/queue.js:361-377 | the shift loop, with the nested dispatch of jobs that end at once, equals one flat drain |
| JobQueues.JobQueue.ExecuteJob | src/services/queue.js:383-464 | a job without a handler fails at once and dispatches the next, any other takes a slot, and a synchronous throw goes through the retry ladder |
| JobQueues.JobQueue.TimerFires | src/services/queue.js:323-327 | a timer whose job is still stored and queued enqueues it and dispatches; any other timer does nothing |
| JobQueues.JobQueue.HandlerSettles | src/services/queue.js:405-464 | completion or failure, the slot given back, eviction or retry, then dispatch |
| JobQueues.JobQueue.EvictOldTerminalJobs | src/services/queue.js:527-545 | deleting while iterating removes the oldest terminal jobs until the limit is met, and no others |
| JobQueues.JobQueue.SnapshotState | src/services/queue.js:585-592 | the snapshot holds every record in map order and the queue order |
| JobQueues.JobQueue.LoadPersisted | src/services/queue.js:636-697 | the three loops of recovery: records, saved order, re-armed delays |
| JobQueues.DrainSettled | src/services/queue.js:361-464 | draining a drained queue does nothing, which is why the recursion and the loop agree |
| Keyset.MissingLast | src/utils/pagination.js:313-328 | rows without a sort value come last, ascending and descending |
| Keyset.UniqueIdsNoTies | src/utils/pagination.js:613-622 | with unique ids no two rows tie |
| Keyset.OrderedIffOneKind | src/utils/pagination.js:134-149 | the comparison is transitive on the values of two kinds iff they are one kind: numbers with texts, numbers with dates and dates with texts all have cycles |
| Keyset.IdTiesAreEqualities | src/utils/pagination.js:134-149 | ids that are numbers, fractions included, or plain text tie only when equal |
| PaginationWalk.KeysetOrders | src/utils/pagination.js:613-622 | on columns of one type the keyset comparator is a total preorder given by its sign, in both directions |
| PaginationWalk.SortedOk | src/utils/pagination.js:673-674 | rows of one type per column with unique ids sort strictly, losing none |
| PaginationWalk.CursorRoundTrip | src/utils/pagination.js:567-603 | a cursor minted for a row parses to an anchor that compares with every row as the row does, whether or not the row still exists |
| PaginationWalk.CursorOfAnotherSort | src/utils/pagination.js:595-600 | a cursor issued for another sort is refused |
| PaginationWalk.FetchIsAnswer | src/utils/pagination.js:628-805 | a request to the entry point answers the run of sorted rows past the cursor's row, and mints cursors only where there is something on the other side |
| PaginationOrder.AnswersInOrder | src/utils/pagination.js:628-805 | a request without a cursor, or with one minted for a row, answers the first rows past it, as many as its limit (20 if none): by the values of the sort field in the direction asked for, rows without one last, rows it does not tell apart by id; no row past the cursor comes before one answered, and there is a next page iff one is left |
| PaginationOrder.AnswersBackInOrder | src/utils/pagination.js:628-805 | a request with `before` answers the last rows before that row, in the same order, and has a previous cursor iff there are more |
| PaginationOrder.TextBeforeIs | src/utils/pagination.js:145-148 | texts are ordered by the first code unit in which they differ, a text before those it is the start of |
| PaginationOrder.RefusedIff | src/utils/pagination.js:581-805 | a request is refused iff it has both cursors, an unknown direction, a sort field that is not allowed, a limit that is no positive number or above the maximum (100 if none), or a cursor not issued for this sort |
| PaginationOrder.OffsetPageIs | src/utils/pagination.js:186-237 | page k of size n is the rows from (k - 1) * n on, with the total, the number of pages and whether there is a next and a previous one; 1 and 20 by default |
| PaginationWalk.NoPageDrift | src/utils/pagination.js:628-805 | over data that changes arbitrarily between requests, following nextCursor serves rows in strictly increasing order, and on reaching the end has served every row present throughout exactly once |
| PaginationBack.NoPageDriftBack | src/utils/pagination.js:628-805 | over data that changes arbitrarily between requests, following prevCursor from the cursor of a row serves rows before it, each page before the last one, and on reaching the start has served every row before it that was present throughout exactly once |
| CursorWalks.WalkIncreases | src/utils/pagination.js:687-704 | for any strict order, a walk over changing views never repeats or goes back |
| CursorWalks.WalkServesOnce | src/utils/pagination.js:687-716 | for any strict order, a walk that ends has served each row that was always present exactly once |
| BackWalks.BackServesOnce | src/utils/pagination.js:687-716 | for any strict order, a walk back that ends has served each row before its start that was always present exactly once |
| CursorWalks.StartCuts | src/utils/pagination.js:699-701 | the first row past the anchor splits the sorted rows into those up to it and those past it |
| PaginationStatic.CursorPagesAreOffsetPages | src/utils/pagination.js:628-727 | on static data the k-th page reached by nextCursor is offset page k + 1 of the sorted rows, and the pages run out after ceil(n / limit) |
| PaginationStatic.PreviousUndoesNext | src/utils/pagination.js:687-805 | a page has a previous cursor iff it is not empty and there are rows before it; paging back by `before` gives these rows, and forward from there gives the page again |
| PaginationStatic.AnswersIgnoreInputOrder | src/utils/pagination.js:628-805 | the order in which the source lists the rows never shows in an answer, in either direction or at the entry point |
| PaginationStatic.OffsetPagesCoverTheData | src/utils/pagination.js:186-237 | the offset pages 1 to totalPages, one after the other, are the data |
| Cache.MemoryCache.MemoryStoreSet | src/services/cache.js:44-62 | both eviction loops: expired entries in insertion order as far as needed, then the oldest, then the entry is stored |
| Cache.MemoryCache.Get | src/services/cache.js:160-170 | an expired entry answers null and is removed, any other answers its value |
| Cache.MemoryCache.Set | src/services/cache.js:186-201 | the ttl falls back to the default, and a negative one never expires |
| Cache.MemoryCache.DelPattern | src/services/cache.js:237-247 | exactly the matching keys go |
| Cache.MemorySetValid | src/services/cache.js:44-62 | a new key leaves the smaller of one more entry and the cap |
| Cache.LiveVictims | src/services/cache.js:46-60 | a live entry is evicted only if every expired one is and every older one, and only if at least cap live entries are stored |
| CacheRefinement.CacheAgreesWithMap | src/services/cache.js:160-292 | after any calls, a get of a key that was not pushed out answers the value last set under it and not deleted or flushed since, iff its ttl, the default when it was 0, is not positive or no more than that many seconds have passed |
| CacheRefinement.NeverOverCap | src/services/cache.js:44-62 | at a constant cap the store never outgrows it, over every run |
| CacheRefinement.FittingCacheIsTheMap | src/services/cache.js:44-62 | while the entries of the unbounded map that still last fit under the cap, every get answers what the map answers |
| CacheRefinement.NothingLostIffItFits | src/services/cache.js:44-62 | at a constant cap a run pushes no live entry out iff its live entries fit under the cap after every call |
| CacheRefinement.PushedIffFull | src/services/cache.js:46-60 | a new key pushes out a live entry iff at least `cap` live entries are stored |
| CacheRefinement.StepRefines | src/services/cache.js:44-292 | each operation keeps the bounded store a part of the unbounded map, missing only lost and expired keys |
| SingleFlight.OneLoadPerKey | src/services/cache.js:305-333 | under every interleaving at most one load per key is in flight |
| SingleFlight.JoinersShareTheOutcome | src/services/cache.js:311-314 | all callers that joined a flight are answered with its outcome |
| SingleFlight.TableIsExact | src/services/cache.js:316-332 | with asynchronous loads the table holds a key exactly while its load is in flight |
| SingleFlight.TableExactIffNoneThrew | src/services/cache.js:316-332 | in every state the table is exact if and only if no load has thrown synchronously |
| SingleFlight.ThrowingLoadSticks | src/services/cache.js:316-331 | a load that throws before it returns a promise leaves its entry behind |
| SingleFlight.StuckForGood | src/services/cache.js:311-331 | a key with such an entry is never loaded again, in any run |
| SingleFlight.StuckFails | src/services/cache.js:311-314 | every later miss on it is sent to the failed flight |
| SingleFlight.MissLoads | src/services/cache.js:311-331 | a miss starts a load if and only if none of its key is in flight and the key is not stuck |
| SingleFlight.AnswersWereLoaded | src/services/cache.js:305-333 | what a caller is answered and what is stored was produced by a load of that very key, and a missing value is never stored |
| SingleFlight.OnlyValuesAreStored | src/services/cache.js:318-325 | an event stores nothing but the value of a load that came back with one |
| SingleFlightAnswers.HitIsAnswered | src/services/cache.js:305-309 | a value that is stored and still lasts is answered at once, and nothing is loaded |
| SingleFlightAnswers.MissWaits | src/services/cache.js:311-331 | a miss waits for the load of its key that is on the table, or for a new one with its own ttl |
| SingleFlightAnswers.LoadedIsStored | src/services/cache.js:317-325 | a load that comes back with a value stores it under its key for the ttl it was asked with |
| SingleFlightAnswers.EmptyLoadEnds | src/services/cache.js:317-328 | a load that fails or finds nothing is over with just that, off the table, and stores nothing |
| SingleFlightAnswers.WaiterIsAnswered | src/services/cache.js:311-331 | whatever a load comes to, every caller that waits for it can be answered with just that |
| RateLimiter.Limiter.Middleware | src/middleware/rateLimiter.js:181-230 | lookup or new window, cap, count, headers and refusal, as the specification of one request says |
| RateLimiter.Limiter.EnforceStoreCap | src/middleware/rateLimiter.js:58-83 | the purge loop, the sort by expiry and the eviction loop |
| RateLimiter.EnforceMeetsCap | src/middleware/rateLimiter.js:58-83 | the cap is met afterwards, and nothing happens while it was met |
| RateLimiter.EnforceOrder | src/middleware/rateLimiter.js:64-78 | a live counter goes only once every expired one is gone, only as many as it takes, and none that ends later than one that stays |
| RateLimits.OthersDoNotMatter | src/middleware/rateLimiter.js:192-213 | as long as its counter is not evicted, a client among others is admitted exactly as if it were alone |
| RateLimits.WindowAdmits | src/middleware/rateLimiter.js:192-213 | however clients interleave, at a constant limit the limiter lets exactly the first `limit` requests of a client's window through, while its counter is not evicted |
| RateLimits.TierAndCeiling | src/middleware/rateLimiter.js:176-213 | with tier maximum m a window admits the first m requests, or the first min(m, c) under a positive runtime ceiling c; a ceiling of zero or below does nothing |
| RateLimits.NthOfWindow | src/middleware/rateLimiter.js:192-228 | however clients interleave, the n-th request of a window is told the limit, what is left of it, when the window ends, and iff n is beyond the limit how many seconds to wait |
| RateLimits.AnyStretchBounded | src/middleware/rateLimiter.js:176-213 | any stretch of windowMs admits at most 2M - 1 requests of a client whose tier maximum or positive runtime ceiling is at most M |
| RateLimits.BoundIsReached | src/middleware/rateLimiter.js:181-213 | for every M, every window of at least 2 ms and every cap, the limiter lets some sequence of requests through 2M - 1 times within a window's length |
| RateLimits.RetryAfterIsExact | src/middleware/rateLimiter.js:213-215 | a refused client is in a fresh window after the seconds it was sent, and one second less never suffices (section 10.2.3 of RFC 9110) |
| RateLimits.NewcomerAtFullStore | src/middleware/rateLimiter.js:192-201 | at a full store a new counter is evicted at birth iff its window ends before all others, and the client is then not limited |
| RateEvictions.AllStayIffRoomy | src/middleware/rateLimiter.js:58-83 | no running counter is ever evicted iff, whenever a window opens, the windows running in a limiter without a cap number no more than the cap |
| RateEvictions.RoomyBounded | src/middleware/rateLimiter.js:181-213 | with that room, any stretch of windowMs admits at most 2M - 1 requests of every client whose limit never exceeds M, from an empty store on |
| ReadingStore.Readings.AddReadings | src/services/aggregator.js:117-171 | batch errors, fresh ids, and the store cut to the newest readings |
| ReadingStore.StampedAsGiven | src/services/aggregator.js:126-136 | each stored reading is as it was handed in, under the next id |
| ReadingStore.Readings.PruneOldReadings | src/services/aggregator.js:36-49 | readings out of age go, ids are not given out again |
| ReadingStore.Readings.ClearReadings | src/services/aggregator.js:207-210 | the store and its numbering start over |
| ReadingStore.AddValid | src/services/aggregator.js:79-156 | after any add the ids grow along the store below nextId, and the store is the newest `cap` of everything added |
| ReadingStore.PruneValid | src/services/aggregator.js:36-49 | a sweep leaves the newest `cap` of everything added and not out of age |
| ReadingStore.NewestOfNewest | src/services/aggregator.js:138-151 | keeping the newest of what was kept and what is new is keeping the newest of everything |
| ReadingStore.CapKeepsNewest | src/services/aggregator.js:138-151 | every evicted reading is older than every kept one, and among equal timestamps added earlier |
| ReadingStore.StoreWithinCap | src/services/aggregator.js:138-151 | the store never exceeds its cap, and drops nothing while under it |
| Statistics.PercentileMonotone | src/services/aggregator.js:232-244 | a higher percentile is never a smaller value |
| Statistics.PercentileEnds | src/services/aggregator.js:232-244 | percentile 0 is the least value and 100 the greatest |
| Statistics.PercentileBetween | src/services/aggregator.js:232-244 | a percentile lies between its neighbouring values |
| Statistics.AggregatesInOrder | src/services/aggregator.js:253-282 | min <= p50 <= p95 <= max, and min <= avg <= max, for any values |
| Statistics.OrderIsIrrelevant | src/services/aggregator.js:253-282 | no aggregate depends on the order of the values |
| Statistics.CountSumAverage | src/services/aggregator.js:253-266 | the count is the number of values, the sum their total, and the average times the count that total too; no values have no sum and no average |
| Statistics.MinAndMax | src/services/aggregator.js:267-270 | the minimum and the maximum are values, and no value is beyond them |
| Statistics.MedianIs | src/services/aggregator.js:271-274 | the median is the middle one of the values in order, or halfway between the middle two; half of them are no greater and half no less |
| Statistics.Percentile95 | src/services/aggregator.js:275-278 | with 95 per cent of the way along the values in order falling some part of the way from one to the next, the 95th percentile is that far between them |
| Statistics.PercentileIs | src/services/aggregator.js:232-244 | the same of any percentile |
| Grids.KeysAreLandings | src/services/aggregator.js:343-371 | a walk that steps by the length of the bucket it is in visits exactly the buckets it lands in, one that is too short for its offset being skipped and the rest carried over |
| Buckets.GenerateBucketKeys | src/services/aggregator.js:343-371 | the stepping loop, by hours, days, weeks and months, gives the buckets of that walk up to the end of the end date |
| Buckets.GeneratedByWidth | src/services/aggregator.js:343-371 | by the hour and by the day every bucket from the start's to the end's is generated; by the week the last one iff the end lies no earlier in its week than the start in its own |
| Buckets.GeneratedByMonth | src/services/aggregator.js:364-366 | by the month every one is, but the first that is too short for the start's day of the month, and the last if the end lies earlier in it than the start in its own, less the length of the skipped month if there is one before it |
| Buckets.EveryMonthIff | src/services/aggregator.js:343-371 | every month from the start's to the end's is generated iff each after the first has the start's day and time of the month and the end lies no earlier in its month than the start in its own |
| Buckets.WeekLeftOut | src/services/aggregator.js:361-363 | from a Sunday to the next Monday one weekly key is generated for two weeks |
| Buckets.FebruaryLeftOut | src/services/aggregator.js:364-366 | from the 30th or the 31st of a January, no February is generated |
| Calendar.FixedDates | src/services/aggregator.js:286-340 | months are counted from January of year 0, and January 1970, January and March 2000, March 2024 and March 2100 begin when they do |
| Calendar.FourCenturies | src/services/aggregator.js:286-340 | every 400 years come to 146097 days |
| Buckets.FixedBuckets | src/services/aggregator.js:286-340 | hours, days and months begin with 1970, and weeks on a Monday |
| Aggregation.AggregateReadings | src/services/aggregator.js:390-458 | filters, grouping, aggregation, gap filling and sort |
| Aggregation.FilledBuckets | src/services/aggregator.js:437-455 | with gaps filled the answer is the buckets from the start's to the end's that are generated or hold a reading, each once, in order, over exactly its readings |
| Aggregation.HoursAndDaysReachTheEnd | src/services/aggregator.js:437-455 | by the hour and by the day the answer is every bucket from the start's to the end's |
| Aggregation.MonthsReachTheEnd | src/services/aggregator.js:437-455 | by the month too, when each month has the start's day and the end lies no earlier in its month than the start in its own |
| Aggregation.NothingFromEndToStart | src/services/aggregator.js:402-455 | a start after the end gives no bucket at all |
| Aggregation.BucketsConserve | src/services/aggregator.js:402-455 | bucket counts add up to the selected readings, and bucket sums to their total |
| Aggregation.AveragesConserve | src/services/aggregator.js:402-455 | the averages of the filled buckets, each as often as it has readings, add up to the selected total |
| Aggregation.SelectedAre | src/services/aggregator.js:402-415 | a selection holds exactly the readings from the start on, up to and with the day of the end, of the meters asked for or of all if none is named |
| Aggregation.SummariseFleet | src/services/aggregator.js:470-525 | the summary over meters, its fleet value and the ends of the sorted meters |
| Aggregation.MetersConserve | src/services/aggregator.js:487-505 | the meters share out the readings and the total, and each has at least one |
| Aggregation.TopAndBottom | src/services/aggregator.js:511-514 | no meter is above the top performer or below the bottom one |
| Grouping.Group | src/services/aggregator.js:417-425 | the loop that pushes each value under its key |
| Grouping.GroupsAreValues | src/services/aggregator.js:417-425 | a group holds exactly the values of the readings with its key, in order |
| Grouping.GroupsConserve | src/services/aggregator.js:417-434 | over any keys that cover the readings, groups hold each reading and its value once |
| SchedulerModel.ChunksAddUp | src/services/scheduler.js:294-315 | the chunks of a wait add up to it, are all within the timer's range, and number ceil(wait / MAX_TIMER_MS) |
| SchedulerModel.UncutMonthIsOverAtOnce | src/services/scheduler.js:5-9 | a monthly wait in one piece would fire after a millisecond; it takes two chunks |
| SchedulerRuns.OneChainEach | src/services/scheduler.js:254-315 | in every run that never starts schedule i at work, whatever happens to the others, i has at most one pending timer or running handler, and exactly one while it is started and registered |
| SchedulerRuns.OneChainIffNotStartedAtWork | src/services/scheduler.js:143-180 | a step leaves a schedule with at most one pending timer or running handler iff it does not start it at work; stopped, settled and then started it has one |
| SchedulerRuns.QuietIffNotStoppedAtWork | src/services/scheduler.js:73-180 | a schedule that is not started or not registered does nothing, and a step keeps that iff it does not stop or cancel the schedule at work |
| SchedulerRuns.StoppedDoesNothing | src/services/scheduler.js:73-315 | in every run that never starts, stops or cancels schedule i at work, i has a pending timer or a running handler iff it is started and registered |
| SchedulerRuns.StartedNotAtWorkIsOneChain | src/services/scheduler.js:143-156 | a schedule that went on after a stop at work and has settled since is one chain again once started |
| SchedulerRuns.RunsAreOnTime | src/services/scheduler.js:259-310 | every armed chunk is within the timer's range, and when a run begins its wait was cut into chunks adding up to the interval |
| SchedulerRuns.AtMostOncePerInterval | src/services/scheduler.js:254-318 | while a schedule stays on, whatever is done to the others, its n-th run is no earlier than start + n * interval |
| SchedulerRuns.StoppedAtWorkGoesOn | src/services/scheduler.js:271-289 | a schedule stopped while its handler is at work arms its next wait all the same |
| SchedulerRuns.RestartedAtWorkMakesTwoChains | src/services/scheduler.js:143-180 | stopped and started while its handler is at work, a schedule has two pending timers |
| SchedulerRuns.ReregisteredAtWorkGoesOn | src/services/scheduler.js:283-288 | cancelled at work and its name registered anew, a schedule goes on beside the new one when its handler settles |
| SchedulerWaits.FiredTimer | src/services/scheduler.js:300-309 | a timer that fires arms the next piece of its wait, or begins the handler when there is none; with the schedule off it does nothing |
| SchedulerWaits.SettledHandler | src/services/scheduler.js:271-289 | a handler that settles begins the next wait, of the whole interval, iff its name is registered |
| SchedulerWaits.WaitEndsInARun | src/services/scheduler.js:294-315 | left to its timers, a schedule that is on runs once, just when the ms of its wait have passed, however long |
| SchedulerWaits.NextRunAfterInterval | src/services/scheduler.js:271-315 | the next run begins exactly an interval after the handler of the last one has settled |
| SchedulerWaits.StartWaits | src/services/scheduler.js:143-156 | a start makes every registered schedule without a timer wait for its interval |
| SchedulerWaits.RegistrationWaits | src/services/scheduler.js:25-66 | so does a registration while the scheduler runs, under its name and with its interval |
| Schedulers.Scheduler.Register | src/services/scheduler.js:25-66 | taken names and bad intervals are refused, a new schedule is started if the scheduler is |
| Schedulers.Scheduler.CancelSchedule | src/services/scheduler.js:73-89 | the timer is cleared and the name freed |
| Schedulers.Scheduler.Start | src/services/scheduler.js:143-156 | the loop starts every registered schedule that has no timer |
| Schedulers.Scheduler.Stop | src/services/scheduler.js:161-180 | the loop clears the timer of every registered schedule |
| Schedulers.Scheduler.TimerFires | src/services/scheduler.js:300-309 | a fired timer arms the next chunk, or the run begins |
| Schedulers.Scheduler.HandlerSettles | src/services/scheduler.js:271-289 | once the handler settles the next wait begins, if the name is still registered |
| Billing.BillingHandler | src/jobs/billing.job.js:29-127 | the errors in the order they are raised, the empty bill, and the bill |
| Billing.BillingFailsIff | src/jobs/billing.job.js:29-76 | the job fails iff the period is missing or malformed, the rate is no number or negative, it is aborted before it begins, or while it has readings to bill |
| Billing.BillingSucceeds | src/jobs/billing.job.js:29-127 | any result it gives has one invoice for each meter with a billable reading and for no other, over exactly that meter's readings at the rate the caller gave, or the default if none, to half a unit of the last digit shown; a total over all of them; and amounts that add up to it within (n + 1) / 2 cents |
| Billing.BilledReadings | src/jobs/billing.job.js:43-61 | the readings billed are those of the account, or of all if none is named, from the start of the month through the first day of the next |
| Billing.OneAccountAlike | src/jobs/billing.job.js:57-61 | billing one account gives exactly the invoice it has in the bill of all |
| Billing.MakeBill | src/jobs/billing.job.js:76-111 | the two loops: consumption per meter, then invoices and totals |
| Billing.BilledTwice | src/jobs/billing.job.js:43-54 | a reading is billed in two periods iff they are consecutive months and it was taken on the first day of the later one |
| Billing.NoReadingUnbilled | src/jobs/billing.job.js:43-54 | every reading of the years 100 to 9999 is billed in some period that can be written |
| Billing.MonthBillsItsReadings | src/jobs/billing.job.js:43-54 | a reading of a month is billed in that month's period |
| Billing.ConsumptionAddsUp | src/jobs/billing.job.js:76-100 | before rounding the meters' consumption is that of all readings and the charges are its price |
| Billing.RoundingDriftIsBounded | src/jobs/billing.job.js:88-111 | with n invoices the rounded total is at most (n + 1) / 2 cents from the sum of the rounded amounts |

## Left out

- QueueOrder.QueueIsTheStableSort: holds for runs without a recovery, because recovery itself breaks the order.
- QueueCrashes.CrashLosesNothing: asks that no write is pending, because snapshots are written up to `PERSIST_FLUSH_MS` late and a crash before loses what changed since.
- QueueBudget.RetryBudget: holds within one process, because a crash forgets the run in flight; `LedgerAcrossCrashes` and `StartsOverCrashes` state what holds across crashes.
- QueueStarts.StartsOverCrashes: asks that every crash comes with no write pending, because `UnwrittenAttemptComesBack`.
- QueueTiming.RetryHonoured: speaks of the backoffs since the last boot, because a crash forgets a backoff (`RecoverReschedules`).
- PaginationWalk.NoPageDrift: asks for unique ids and columns of one kind, because the comparator orders nothing else (`OrderedIffOneKind`).
- RateLimits.AnyStretchBounded: asks that the client's counter is not evicted, because at a full store it can be; `AllStayIffRoomy` says exactly when it is not.
- SchedulerRuns.OneChainEach: covers schedules that are never started while their handler is at work, because such a start makes two chains of one (`OneChainIffNotStartedAtWork`).
- Billing.BilledTwice: covers years from 100 on, because `Date.UTC` takes earlier ones for the twentieth century.
- Billing.NoReadingUnbilled: covers the years 100 to 9999, because a period has four digits for the year.
- CacheRefinement.CacheAgreesWithMap: asks for a clock that is not negative, because an expiry of exactly 0 is taken for none.
- QueueOutcomes.OutcomesAreTheVerdicts: speaks of runs without a crash, because a crash forgets outcomes that are not yet written.
- SingleFlight.AnswersWereLoaded: starts from an empty cache that only these callers write to; the other theorems of that module let anything else happen to the cache.
- Queue: the listeners of its events, and handlers up to their first await, both of which run synchronously and could call `add` or `cancel` in the middle of an event; job records are values in a map, so a handler that keeps its job object and changes it is not captured.
- Queue: `close()`, after which a late handler can schedule a snapshot of the cleared state; failing file writes; job data and results; the abandoned handler of a timed-out job, which may keep running outside its slot.
- Queue: `maxDepth` bounds only what `add` accepts; delayed and retried jobs can exceed it, so no depth bound is claimed.
- Cache: Redis, `getOrSet` as a class (its turns are a state machine, since they interleave), and the text of glob patterns, which are a predicate here.
- Cursors: JSON and base64url (section 5 of RFC 4648) are a datatype with a partial decoder; a cursor that does not decode is one value.
- Pagination: search, filters, date ranges and totals on request, which narrow or count the rows before a page is cut.
- Rate limiter: finding the tier and the identity of a request; a cap that is not a number or is negative.
- Aggregator: calendar key strings, period comparison, units and creation times of readings, dates that do not parse, and the broadcast of new readings.
- Scheduler: parsing of cron expressions, among which one that starts with a nonzero digit counts as milliseconds; the `_stopping` flag, which is set and cleared within one call and so never seen.
- Billing: `billingHandler` never yields, so the second look at the abort signal can differ from the first only if something synchronous aborts in between; the model lets the two differ.
- Billing: the currency of rates beyond a number, and values that are not numbers, which count as zero.
- Floating point: sums, percentiles and charges are over exact reals, and `toFixed` rounds the exact value.
- Routes, schemas, sockets, logs, metrics, storage of users and meters, webhooks and authentication.
