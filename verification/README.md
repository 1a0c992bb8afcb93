# Server price tracker: a verified model

The service watches eBay listings for server parts: it pages through search results, stores listings,
extracts their attributes with a language model, scores them against price baselines, and turns good
scores into alerts that go out to Discord. The stages hand work to each other through PostgreSQL tables
and a few in-memory objects. This project models those stages and proves what they keep.

`dafny verify dfyconfig.toml` checks everything.

## How the model is built

- Protocols that interleave are state machines: actions, a guard `Enabled`, a function `Step`, valid runs
  `ValidRun` and their end `Exec`. Results hold for every run, of any length and any interleaving.
- Code that changes an object or a table in place is a class with that state, whose methods are proved
  against the same step functions the runs are made of.
- What the outside decides (store failures, lost writes, HTTP outcomes, model verdicts, look-up errors)
  is a parameter, usually a function, so each result covers every combination of outcomes. A write may
  commit although its caller is told it failed.
- Floating-point values are exact reals; time is one integer clock; identifiers are numbers.

| module | part of the service |
|---|---|
| `BufferedClient` | telemetry buffer: producers, one drain goroutine, Start and Stop in any order |
| `AlertTables`, `Discord`, `AlertDelivery`, `Redelivery`, `AlertProcessor` | alert rows, chunked rate-limited posting, delivery over whole runs, what can still be delivered, the tick as code |
| `AlertCooldown` | evaluation: cooldown check, then create |
| `ExtractionQueue`, `SchedulerLock`, `JudgeBudget`, `EbayQuota` | protocols over shared tables and counters |
| `Sql`, `ListingQuery`, `Windows`, `Like`, `AlertReview` | query builders, three-valued logic, paging with and without a tiebreaker |
| `Paginator`, `Rescore`, `Stratify` | loops against flat specifications |
| `Scorer`, `Attributes` | score arithmetic; attribute clean-up and validation |
| `Wrappers`, `Counting`, `Finite` | shared values, counting, finite sets |

## What the code does not keep

Each of these is proved: when exactly the promise holds, and a run from the initial state or a concrete
input for which it does not.

- Telemetry: a Stop that returns nil is promised to have attempted everything accepted before it. That holds
  exactly when the drain may still look at the queue or the queue is empty
  (`BufferedClient.StopPromiseExact`), so always for the first Stop made after a drain was spawned
  (`BufferedClient.FirstStopAttemptsAllAccepted`). A queued job is lost for good exactly when no drain has its
  last look still to make or may yet be spawned (`BufferedClient.AttemptableExactly`). New clients reach such a
  loss behind a nil Stop: by a later Stop, when a producer queued a job after the drain's last look
  (`BufferedClient.LaterStopLosesJob`), and by the first one of a client that was never started
  (`BufferedClient.StopWithoutStartLosesJob`). The remark in `pkg/observability/langfuse/types.go:13-16` that the
  buffer drops its oldest entries is out of date: it drops the newest, and so does the model.
- Cooldown: it is kept, whatever is delivered when, exactly in the runs in which no insert is made while the
  check before it would by then have failed (`AlertCooldown.CooldownKeptExactly`,
  `AlertCooldown.InsertIsSafeExactly`). Two evaluations that both check before either creates break it
  (`AlertCooldown.InterleavedEvaluationBreaksCooldown`); evaluations that run in one piece do not. There is
  never more than one pending alert of a pair.
- Extraction queue: an open job can still be completed exactly when it is unclaimed or a worker has it in hand
  (`ExtractionQueue.CompletableExactly`). A worker that dies with a job leaves one that never is, and that turns
  away every later job of its listing (`ExtractionQueue.CrashAbandonsItsJob`).
- Scheduler lock: while its row is unexpired, a run is safe from the releases of others exactly when no other run
  of its job is inside under the same host name (`SchedulerLock.LateReleaseHarmlessExactly`). The holder's name is
  the host's and the cron runner starts a tick beside one still running, so one host's own overlapping ticks are
  enough to put two runs inside within their TTL (`SchedulerLock.SharedNameBreaksExclusion`); exclusion within
  the TTL holds under the same condition (`SchedulerLock.ExclusionExactly`).
- Daily quota: from a new limiter and without syncs, the counter keeps to the limit exactly when calls come from one
  caller at a time (`EbayQuota.LimitKeptExactly`); for k callers the least bound is the limit - 1 + k
  (`EbayQuota.LeastBound`).
- Judge budget: from an empty table, a day's spend stays below the cap plus one verdict exactly when ticks follow one
  another (`JudgeBudget.BudgetKeptExactly`); for k of them the least bound is the cap plus k of the dearest
  verdicts (`JudgeBudget.LeastBound`).
- Review search: documented as a substring match, it is one exactly when the text has no `%`, `_` or
  backslash (`Like.SearchIsSubstringExactly`).
- Listing windows: the sorts have no tiebreaker, so windows that follow one another hold every row once, however each
  query breaks ties, exactly when no tie lies across the edge of a window (`ListingQuery.WindowsTileExactly`).
- Review pages: a comment says the tiebreaker keeps OFFSET paging deterministic when rows arrive between page loads.
  It does on a fixed table; a row that arrives repeats one exactly when it sorts before the last row already shown
  (`AlertReview.ArrivalRepeatsExactly`).
- Memory capacity: a capacity of g GB written in MB is recovered exactly when g is neither 1 nor a multiple
  of 128; 128000 becomes 125 (`Attributes.CapacityRecoveredExactly`).
- Paging through a search: with a page size of zero or less every page is the first 50 results again. A result lists
  nothing twice exactly when the page size is positive, at most one page is fetched, or those 50 are not all new with
  more behind them (`Paginator.NothingListedTwiceExactly`, `Paginator.ZeroPageSizeListsTwice`).

The comment on the judge's tick counts alerts "regardless of outcome"; what the code counts is the alerts whose
evaluation and insert both succeeded, whatever the verdict, and so does `JudgeBudget.Worker.Run`.

## Model

| member | source | states |
|---|---|---|
| BufferedClient.EachJobInOnePlace | pkg/observability/langfuse/buffered_client.go:230-303 | over every interleaving each offered job is dropped, queued, in flight or attempted, exactly one of them and once; the queue never exceeds the capacity asked for, or 1000; attempts follow acceptance order |
| BufferedClient.DroppedExactlyWhenFull | pkg/observability/langfuse/buffered_client.go:102-114 | after any run of a new client, one more job is dropped if and only if as many are queued as the capacity asked for, or 1000 when that is 0 or less; otherwise it is accepted, at the end of the queue |
| BufferedClient.RunInv | pkg/observability/langfuse/buffered_client.go:126-286 | the protocol invariant holds after every valid run, and accepted and attempted jobs only grow at the end |
| BufferedClient.AtMostOneDrain | pkg/observability/langfuse/buffered_client.go:126-140 | any number and order of Start and Stop calls spawns at most one drain, and the wait-group count is 1 exactly from the Add until the drain is done |
| BufferedClient.StartAfterStopSpawnsNone | pkg/observability/langfuse/buffered_client.go:122-140 | once the stop channel is closed with no drain spawned or past the check, no later call spawns one |
| BufferedClient.CoveredStop | pkg/observability/langfuse/buffered_client.go:152-175 | a Stop begun while the drain may still look at the queue, or with it empty, returns nil only after everything accepted before it was attempted |
| BufferedClient.UncoveredStop | pkg/observability/langfuse/buffered_client.go:249-286 | in every other reachable state a Stop can return nil with an accepted job not attempted when it returns |
| BufferedClient.StopPromiseExact | pkg/observability/langfuse/buffered_client.go:142-175 | the two together: the promise holds for a state if and only if the drain may still look at the queue or the queue is empty |
| BufferedClient.AttemptableExactly | pkg/observability/langfuse/buffered_client.go:126-286 | a queued job can still be attempted by some later run if and only if a drain has yet to make its last check of the channel or one may yet be spawned |
| BufferedClient.LossIsFinalExactly | pkg/observability/langfuse/buffered_client.go:126-175 | what such a Stop leaves unattempted is never attempted, unless a Start is past its check of the channel and has not yet counted its drain |
| BufferedClient.LaterStopLosesJob | pkg/observability/langfuse/buffered_client.go:249-286 | a new client of any capacity reaches, after Start and one Stop, a state in which the next Stop can return nil with an accepted job that no later run attempts |
| BufferedClient.StopWithoutStartLosesJob | pkg/observability/langfuse/buffered_client.go:152-175 | and so, for the first Stop, does one that is never started |
| BufferedClient.FirstStopAttemptsAllAccepted | pkg/observability/langfuse/buffered_client.go:142-175 | with a drain spawned before the first Stop, a nil return means each earlier accepted job was attempted exactly once |
| BufferedClient.DrainIsForcedToExit | pkg/observability/langfuse/buffered_client.go:249-286 | after the stop channel closes and with no further offers, the drain takes at most as many steps as a measure on the queue, can always take one until it exits, and leaves the queue empty with all accepted jobs attempted |
| BufferedClient.Client.constructor | pkg/observability/langfuse/buffered_client.go:102-120 | a new client is the initial state, with room for the capacity asked for, or for 1000 when that is 0 or less |
| BufferedClient.Client.Enqueue | pkg/observability/langfuse/buffered_client.go:230-237 | a job is accepted exactly when the buffer has room, and is dropped itself otherwise |
| BufferedClient.Client.Start | pkg/observability/langfuse/buffered_client.go:126-140 | one call is a run of the protocol; the first one spawns one drain and counts it, and after a Stop it changes neither drain nor count |
| BufferedClient.Client.SignalStop | pkg/observability/langfuse/buffered_client.go:152-161 | records this call's context before the channel is closed, and closes it once |
| BufferedClient.Client.DrainPass | pkg/observability/langfuse/buffered_client.go:249-271 | one pass of the select: with both cases ready either may be taken; a job is attempted under the parent context, a stop leads to flushing under the recorded one |
| BufferedClient.Client.FlushRemaining | pkg/observability/langfuse/buffered_client.go:276-286 | attempts every queued job once, in order, each under the shutdown context |
| AlertTables.AlertStore.CreateAlert | internal/store/queries.go:336-340 | inserts an unnotified row of the pair with its score and time unless the pair already has a pending alert, and changes no other row; a failure may or may not have committed |
| AlertTables.AlertStore.MarkAlertsNotified | internal/store/queries.go:363-367 | the listed rows become notified at the given time and otherwise stay as they were, as do all others; a failure may or may not have committed |
| AlertTables.AlertStore.HasRecentAlert | internal/store/queries.go:369-376 | true exactly when a notified alert of the pair is newer than the cutoff |
| AlertTables.AlertStore.InsertNotificationAttempt | internal/store/queries.go:378-380 | appends one attempt row; a failure may or may not have committed |
| AlertTables.AlertStore.HasSuccessfulNotification | internal/store/queries.go:382-387 | true exactly when a success row exists for the alert |
| Discord.ChunkAlerts | internal/notify/ratelimit.go:108-118 | the chunks concatenate to the input; all but the last have n alerts and none is empty |
| Discord.DeliveredPrefix | internal/notify/discord.go:114-145 | what a batch delivers is a whole number of chunks or everything, each in a chunk answered 2xx; it failed exactly when something is left, because of the next chunk's post, wait or delay |
| Discord.WaitsForNamedReset | internal/notify/ratelimit.go:35-94 | once a reply says no post is left, the next one must wait exactly until the reset that reply named, relative to its arrival before absolute, or else until the one known before |
| Discord.DiscordNotifier.Update | internal/notify/ratelimit.go:35-67 | absorbs the remaining count and prefers the relative reset over the absolute one |
| Discord.DiscordNotifier.WaitForBucket | internal/notify/ratelimit.go:72-94 | returns only with capacity or past the reset, having waited exactly up to it if at all; fails exactly when it must wait and is cancelled |
| Discord.DiscordNotifier.Handle429 | internal/notify/discord.go:259-277 | retries exactly on a non-global 429 with a usable delay, attempts left and no cancellation |
| Discord.DiscordNotifier.PostOnce | internal/notify/discord.go:224-257 | one request; succeeds exactly on 2xx, and may be retried only after a 429 |
| Discord.DiscordNotifier.Post | internal/notify/discord.go:203-219 | one request, or two when the first may be retried; the embeds land once exactly when it succeeds; the loop never runs out, so its final error is unreachable |
| Discord.DiscordNotifier.SendBatchAlert | internal/notify/discord.go:114-145 | the alerts that landed are the reported prefix of the list, and an error is returned exactly when it is shorter |
| AlertDelivery.BatchEffect | internal/engine/alert.go:254-321 | each alert tried gains one attempt row with its outcome, failed ones too, unless that write is lost; those delivered and marked become notified at the time of the tick and keep their other columns; nothing else changes |
| AlertDelivery.BatchOutcome | internal/engine/alert.go:254-321 | a batch tries each sendable alert of the list once, in order; those that land are exactly the first ones the notifier reports, and each delivery keeps its row and mark exactly when those writes were not lost |
| AlertDelivery.TickEffect | internal/engine/alert.go:38-74 | the same for a whole per-watch tick, whatever fails in it; and it delivers only listed alerts without a success row, each once |
| AlertDelivery.SingleOutcome | internal/engine/alert.go:208-252 | alone, an alert is tried exactly when it is sendable, lands exactly when its post does, and the call fails exactly when a check, the post or the mark does |
| AlertDelivery.TickOutcome | internal/engine/alert.go:38-206 | in a tick an alert is tried if and only if its checks work and find no success, its watch is found, and five or more alerts of that watch are pending or none before it in the group failed; one group does not touch another |
| AlertDelivery.SummaryEffect | internal/engine/alert.go:80-123 | the same for the summary, which tries every pending alert once with one outcome for all |
| AlertDelivery.StepInv | internal/engine/alert.go:38-123 | creation, dismissal, deletion and both kinds of tick keep the invariant tying rows and marks to deliveries |
| AlertDelivery.RedeliveredOnlyIfBothLost | internal/engine/alert.go:208-321 | over every run, an alert is delivered again only if its mark was lost, and by a per-watch tick only if its success row was lost too |
| Redelivery.DeliverableExactly | internal/engine/alert.go:38-321 | from every state, some later run that creates nothing delivers an alert, again or for the first time, by a per-watch tick if and only if its row is there, unmarked and without a success row; by a summary if and only if it is there and unmarked |
| AlertDelivery.BothLostRedelivers | internal/engine/alert.go:208-252 | a concrete run from the empty tables in which a tick with both writes lost is followed by one that delivers the alert again |
| AlertDelivery.MarkLostRepeatsSummary | internal/engine/alert.go:80-123 | a concrete run in which a summary that lost its mark and kept its rows is repeated |
| AlertDelivery.NotifiedWasDelivered | internal/engine/alert.go:38-123 | over every run and in both modes, a notified alert or one with a success row was covered by a successful send |
| AlertProcessor.SendSingle | internal/engine/alert.go:208-252 | the imperative path meets the delivery specification and posts what it logs: the row it appends, the alert it marks and at what time, and when it fails, are stated outright |
| AlertProcessor.SendBatch | internal/engine/alert.go:254-321 | delivered ids are a prefix of the send list and exactly the embeds posted; every listed id gets one attempt row unless that write is lost, success exactly on that prefix; only that prefix is marked, at the time of the tick |
| AlertProcessor.CollectBatch | internal/engine/alert.go:261-276 | keeps, in order, the alerts not yet delivered whose listing can be read |
| AlertProcessor.SendAlerts | internal/engine/alert.go:188-206 | five or more alerts go as a batch, fewer one by one until the first failure |
| AlertProcessor.GroupByWatch | internal/engine/alert.go:180-186 | each watch with pending alerts gets them all, in list order |
| AlertProcessor.ProcessAlerts | internal/engine/alert.go:38-74 | a tick visits each watch once in some order and has the effect of the specified tick; a failed listing changes nothing |
| AlertProcessor.ProcessSummary | internal/engine/alert.go:80-123 | one embed; rows for every pending alert with the send's outcome, marks only after a success |
| AlertCooldown.NeverTwoPending | internal/store/queries.go:336-340 | under every interleaving of checks, creations and deliveries a pair never has two pending alerts |
| AlertCooldown.InsertKeepsSpacingExactly | internal/engine/engine.go:461-491 | an insert keeps the alerts of its pair apart if and only if the check, asked again at that moment, would still pass |
| AlertCooldown.InsertIsSafeExactly | internal/engine/engine.go:461-491 | and if and only if then no way of delivering what is pending notifies a pair twice within the cooldown |
| AlertCooldown.CooldownKeptExactly | internal/engine/engine.go:461-491 | over every run and interleaving, each state is safe in that sense if and only if no insert ran while its check would by then have failed |
| AlertCooldown.CooldownKept | internal/engine/engine.go:461-491 | in those runs the notified times of two alerts of a pair are at least the cooldown apart |
| AlertCooldown.AtomicEvaluationKeepsCooldown | internal/engine/engine.go:443-491 | so they are whenever each evaluation runs in one piece |
| AlertCooldown.InterleavedEvaluationBreaksCooldown | internal/engine/engine.go:461-491 | and for every positive cooldown a run of two interleaved evaluations breaks it |
| AlertCooldown.EvaluateAlert | internal/engine/engine.go:443-491 | an alert, with its score and time, is created exactly for a score at or over the threshold, matching filters, no recent notification and none pending; with them, also when the insert commits but reports an error, the method is the check and create steps of the protocol |
| ExtractionQueue.StepInv | internal/store/queries.go:277-301 | enqueue, lock, claim and complete, by any number of workers, keep the queue's invariant |
| ExtractionQueue.TableFromActions | internal/store/queries.go:277-301 | over every run, each row has the listing, priority and time of its own enqueue, the name of its own claim, and the error with which a worker that had it in hand completed it; workers hold what their own actions say |
| ExtractionQueue.TakenNextExactly | internal/store/queries.go:283-289 | over every run, a free worker can take a job if and only if it is in line and its own enqueue had the highest priority of those in line and, among equals, was no later |
| ExtractionQueue.EnqueuedExactly | internal/store/queries.go:277-280 | over every run, an enqueue adds its job if and only if every job of its listing was completed, and changes no other |
| ExtractionQueue.ClaimedAtMostOnce | internal/store/queries.go:282-296 | over every run a job is claimed at most once, and attempts is 1 exactly when it is claimed |
| ExtractionQueue.NoListingProcessedTwiceAtOnce | internal/store/queries.go:277-296 | two workers at work have open jobs of different listings |
| ExtractionQueue.LockedRowIsNotTaken | internal/store/queries.go:282-293 | a row locked by one worker stays claimable for it whatever the others do |
| ExtractionQueue.AbandonedJobBlocksItsListing | internal/engine/engine.go:168-184 | a claimed job no worker holds stays as it is for ever and is its listing's only open job |
| ExtractionQueue.CompletableExactly | internal/store/queries.go:282-301 | an open job can still be completed if and only if it is unclaimed, when workers reach it best first, or in a worker's hand |
| ExtractionQueue.CrashAbandonsItsJob | internal/engine/engine.go:160-185 | from the empty queue a worker's crash leaves a job that no run completes and that blocks its listing |
| ExtractionQueue.Queue.EnqueueExtraction | internal/store/queries.go:277-280 | adds an unclaimed row with the listing, priority and time given unless the listing has an open job, and afterwards it has exactly one |
| ExtractionQueue.Queue.SelectClaim | internal/store/queries.go:283-289 | finds the highest-priority, then oldest, claimable row that is not locked, or says there is none |
| ExtractionQueue.Queue.DequeueOne | internal/store/queries.go:282-296 | takes a claimable row of highest priority and, among those, earliest time; marks it claimed by the worker, one attempt more, and changes nothing else |
| ExtractionQueue.Queue.ProcessExtractionJob | internal/engine/engine.go:188-240 | every path issues exactly one completion, with the error of the step that failed; a scoring failure is not one of them |
| SchedulerLock.AtMostOneInside | internal/store/queries.go:261-272 | for any number of hosts, if no run is inside later than the clock of its acquire plus its TTL, at most one run of a job is between acquire and release |
| SchedulerLock.TableFromActions | internal/store/queries.go:261-272 | over every run, each row and each run inside has the job, host name and deadline of its own acquire: the clock it read plus its TTL |
| SchedulerLock.HeldExactlyForTTL | internal/store/postgres.go:1091-1113 | after a granted acquire, with no release of the job under its host name and no other acquire of the job after the deadline, one more acquire gets inside if and only if its clock plus its TTL has passed |
| SchedulerLock.ReleaseFreesExactly | internal/store/queries.go:271-272 | within that time, a release that reaches the table lets the next acquire in if and only if its run had acquired the same job under the same host name |
| SchedulerLock.TakeoverOnlyAfterExpiry | internal/store/queries.go:261-272 | over every run, a row that is gone or another's at the end had expired in place on the way, strictly, or was released by a run of its job under its holder's name |
| SchedulerLock.LateReleaseHarmlessExactly | internal/store/queries.go:271-272 | with no bound on run time: a run keeps its row through every run of the protocol until it releases or expires if and only if no other run of its job is inside under its host's name |
| SchedulerLock.ExclusionExactly | internal/store/queries.go:261-272 | up to the clock of its acquire plus its TTL and until it releases, a run that holds its row excludes every newcomer to its job if and only if no other run of the job is inside under its host's name |
| SchedulerLock.SharedNameBreaksExclusion | internal/engine/scheduler.go:45-68 | one host whose ticks overlap, the first past its TTL, puts two runs inside within theirs |
| SchedulerLock.RunJob | internal/engine/scheduler.go:110-154 | the function runs once exactly when the lock was granted; the lock is released once, after it, or before it when the run could not be recorded |
| JudgeBudget.DailySpendBounded | pkg/judge/worker.go:138-254 | with k concurrent runs and verdicts of at most c, the spend recorded for any day stays below budget + k·c, over midnight too |
| JudgeBudget.SequentialSpendBounded | pkg/judge/worker.go:138-215 | and below budget + c when runs are sequential |
| JudgeBudget.OvershootIsReached | pkg/judge/worker.go:195-236 | from a spend below the budget with all runs idle, a run spends k·c more |
| JudgeBudget.LeastBound | pkg/judge/worker.go:138-254 | for any budget, c > 0 and k ≥ 1: a bound holds of every day's spend in every run from an empty table if and only if it is at least budget + k·c |
| JudgeBudget.BudgetKeptExactly | pkg/judge/worker.go:138-254 | budget + c is such a bound if and only if k ≤ 1 |
| JudgeBudget.FirstVerdictStands | internal/store/queries.go:456-460 | an alert's first recorded verdict is what every later state holds |
| JudgeBudget.Worker.SumJudgeCostSince | internal/store/queries.go:462-465 | the loop's sum is the spend since the given day |
| JudgeBudget.Worker.CheckBudget | pkg/judge/worker.go:195-215 | halts as exhausted exactly when the cap is on and met since the midnight given, and halts on a failed sum |
| JudgeBudget.Worker.JudgeOne | pkg/judge/worker.go:220-254 | succeeds exactly when both the model and the insert did; the verdict stored has the alert, the cost the model gave and the day; it never replaces one, and a failed insert may have committed |
| JudgeBudget.Worker.Run | pkg/judge/worker.go:138-186 | a tick, with midnight read anew at each check, tries candidates in order up to exactly the first whose check fails, has exactly their effect on the table and counts their successes; it ends exhausted exactly when that check met the cap, and cleanly exactly when all were tried and succeeded; alone it keeps every day below budget + c |
| JudgeBudget.TickRecordsExactly | pkg/judge/worker.go:220-236 | what a tick adds is, for each candidate judged and stored for the first time, one verdict of the cost the model gave on the day of its insert, and nothing else |
| JudgeBudget.TickSpendsExactly | pkg/judge/worker.go:220-236 | so a day's spend grows by exactly the costs of the verdicts stored on it |
| JudgeBudget.TickIsRun | pkg/judge/worker.go:138-254 | a capped tick is a run of the protocol by one worker, with the same table at its end, so the results on runs speak of it |
| JudgeBudget.TickKeepsVerdicts | internal/store/queries.go:439-460 | whatever a tick tries, earlier verdicts stand, each alert has at most one, and only candidates gain one |
| EbayQuota.CounterBounded | internal/ebay/ratelimit.go:65-131 | between resets and syncs that start below the limit, with k concurrent callers, the daily counter never exceeds the limit − 1 + k; the reset is always 24 hours after the window's start |
| EbayQuota.CountedExactly | internal/ebay/ratelimit.go:43-78 | over every run of a new limiter, up to a day after its start, the counter is the number of calls counted |
| EbayQuota.CountedSinceSync | internal/ebay/ratelimit.go:111-119 | after a Sync, up to its reset, it is the count given plus the calls since, under the limit given |
| EbayQuota.LoneCallOpensWindow | internal/ebay/ratelimit.go:121-131 | past the reset, a call made alone opens a window of a day and is its first |
| EbayQuota.LoneCallRefused | internal/ebay/ratelimit.go:65-78 | a call made alone in a window that is used up is refused at the check |
| EbayQuota.OvershootIsReached | internal/ebay/ratelimit.go:65-78 | k idle callers one below the limit can take the counter to the limit − 1 + k |
| EbayQuota.LeastBound | internal/ebay/ratelimit.go:43-131 | for any limit and k ≥ 1: a bound holds of the counter in every run of a new limiter without a sync if and only if it is at least the limit − 1 + k |
| EbayQuota.LimitKeptExactly | internal/ebay/ratelimit.go:43-131 | the limit itself is such a bound if and only if k ≤ 1 |
| EbayQuota.RateLimiter.CheckDailyReset | internal/ebay/ratelimit.go:121-131 | opens a new window exactly when now is after the reset |
| EbayQuota.RateLimiter.Wait | internal/ebay/ratelimit.go:65-78 | alone, a call is counted exactly when it is allowed, and never past the limit |
| EbayQuota.RateLimiter.Sync | internal/ebay/ratelimit.go:111-119 | takes count, limit and reset as given, with the window 24 hours before |
| EbayQuota.RateLimiter.Remaining | internal/ebay/ratelimit.go:92-98 | what is left below the limit, and 0 exactly when it is used up |
| Sql.SortedIsUnique | internal/store/postgres.go:577-589 | two arrangements of the same rows under a strict order are equal |
| Sql.AddCondition | internal/store/query.go:85-88 | a further AND condition under more args keeps the meaning of those before it |
| Sql.InListMeans | internal/store/query.go:73-83 | an IN list over consecutive placeholders is true exactly for a non-null value among those args |
| ListingQuery.ToSQL | internal/store/query.go:39-117 | placeholders are $1..$n once each in order, n being the number of args; the WHERE under SQL's three-valued logic accepts exactly the rows the optional filters accept; data and count share it; limit and offset are clamped |
| ListingQuery.WhereClause | internal/store/query.go:40-88 | the WHERE alone: numbered placeholders, and exactly the accepted rows |
| ListingQuery.AppendCompare | internal/store/query.go:43-71 | each optional comparison narrows the accepted rows by exactly that comparison |
| ListingQuery.AppendInList | internal/store/query.go:73-83 | so does the condition list |
| ListingQuery.AnswerIsWindowOfAccepted | internal/store/query.go:109-116 | whatever the database answers is the offset/limit window of the accepted rows in order, and the count is their number |
| ListingQuery.SortPutsFirst | internal/store/query.go:18-26 | of two rows returned, the first has the higher score, unscored rows last, or the lower price, or is the newer, as the sort asks |
| ListingQuery.WindowsTileExactly | internal/store/query.go:18-26 | for each of the three sorts, windows in a row hold each accepted row once under every way of breaking ties if and only if no tie lies across a window's edge |
| Windows.TileExactly | internal/store/query.go:107-112 | the same for any total preorder, any rows and any window size |
| Like.SearchIsSubstringExactly | internal/store/postgres.go:569-572 | the ILIKE filter is case-insensitive substring search on every title if and only if the text has no pattern character |
| AlertReview.StatusClause | internal/store/postgres.go:544-555 | active selects the unnotified, dismissed and undismissed by the dismissal, notified the notified, and any other status all |
| AlertReview.BuildWhere | internal/store/postgres.go:538-575 | placeholders number the args in order, and the WHERE accepts exactly the rows the filters accept |
| AlertReview.OrderIsStrict | internal/store/postgres.go:577-589 | with the id tiebreaker every sort is a strict total order on rows of different ids |
| AlertReview.SortPutsFirst | internal/store/postgres.go:577-589 | what each sort puts first: newest; watch name, then score; score, then newest; at the end always the highest id |
| AlertReview.ReviewQuery.Defaults | internal/store/postgres.go:516-532 | the query becomes its clamped form in place |
| AlertReview.WithDefaults | internal/store/postgres.go:516-532 | an empty status becomes active, an empty sort score, a page below 1 the first, a size below 1 becomes 25 and one over 100 becomes 100; everything else is kept |
| AlertReview.ReviewQuery.ListForReview | internal/store/postgres.go:594-629 | list and count share the filter and its args; LIMIT and OFFSET bind the last two, the page size and (page - 1) times it |
| AlertReview.AnswerIsPage | internal/store/postgres.go:620-631 | any answer of the database to that statement is the requested page |
| AlertReview.PagesTileTheResult | internal/store/postgres.go:577-655 | on a fixed table, pages 1 up to enough to cover the total concatenate to exactly the filtered rows in order, none repeated or lost |
| AlertReview.StatementsTileTheResult | internal/store/postgres.go:594-655 | so do the answers to the statements the list method issues for those pages, each page its own query |
| AlertReview.ArrivalRepeatsExactly | internal/store/postgres.go:577-629 | when an accepted row arrives between two page loads, the pages before and after show a row twice if and only if it sorts before the last row shown, which is then the first of the next page |
| Paginator.Paginator.ScanPage | internal/ebay/paginator.go:115-141 | takes the items before the first known one; a failed look-up counts as new |
| Paginator.Paginator.TakePage | internal/ebay/paginator.go:101-151 | one fetched page gives its items up to the first known one, and whether and why the run ends there |
| Paginator.TakenPage | internal/ebay/paginator.go:100-151 | with it, a run that reached the page either has everything up to the next page, all new, or has the whole flat result with the true reason |
| Paginator.Paginator.FetchPages | internal/ebay/paginator.go:96-155 | the loop is the page recursion from the first page |
| Paginator.PagesAnswer | internal/ebay/paginator.go:86-156 | that recursion meets the flat specification, for every page size |
| Paginator.NothingListedTwiceExactly | internal/ebay/paginator.go:86-156 | over results without repeats, a result lists nothing twice if and only if the page size is positive, at most one page is allowed, or the default first page is not all new with more behind it |
| Paginator.ZeroPageSizeListsTwice | internal/ebay/browse.go:160-169 | fifty-one new results, a page size of zero and two pages: a hundred listings, the first fifty twice |
| Paginator.Paginator.Paginate | internal/ebay/paginator.go:86-156 | the new listings are those before the first one whose look-up worked and found it, among the first pageSize·maxPages results, at most 5 pages on a first run; the seen count is one more exactly when it stopped on a known item; the reason named is the true one; a search error is that of the page that failed; for a page size of zero or less, what is returned instead |
| Rescore.ListListingsCursor | internal/store/queries.go:100-111 | the first listings above the cursor in id order, up to the limit |
| Rescore.ScoreBatch | internal/engine/engine.go:260-267 | each listing is either scored or counted as an error |
| Rescore.SweepOn | internal/engine/engine.go:252-269 | a batch extends the sweep even if the table changed since the last |
| Rescore.RescoreAll | internal/engine/engine.go:246-272 | no listing is visited twice, every listing active throughout is visited, and on a fixed table of n it makes ceil(n/200) + 1 queries with scored + errors = n |
| Stratify.Bucket | tools/judge-bootstrap/main.go:136-163 | each type's bucket is its candidates in input order |
| Stratify.SortKeys | tools/judge-bootstrap/main.go:164 | the types, each once, in order |
| Stratify.Round | tools/judge-bootstrap/main.go:168-182 | one round emits the next item of each type that has one, in type order, up to the limit |
| Stratify.Stratify | tools/judge-bootstrap/main.go:135-185 | the output has min(limit, inputs) items; each type's are a prefix of its bucket; while a type has items left no other is more than one ahead of it; and items come round by round, in increasing type order within a round |
| Scorer.PriceCurve | pkg/scorer/scorer.go:117-139 | for increasing percentiles the curve runs straight from 100 at P10 through 70 at P25, 30 at P50 and 10 at P75 to 0 at P90, its pieces meeting at the ends |
| Scorer.PriceScoreFalls | pkg/scorer/scorer.go:124-139 | for sorted percentiles the price score stays in 0..100 and never rises with the price, across and within segments |
| Scorer.QuantityBands | pkg/scorer/scorer.go:194-213 | 50 and 10 more for each of 2, 4, 8 and 16 that the quantity reaches |
| Scorer.SellerBands | pkg/scorer/scorer.go:141-176 | the half sum of a step per feedback threshold and per percentage threshold, with 20 more for a top-rated seller up to 100 |
| Scorer.QualityBands | pkg/scorer/scorer.go:215-238 | images, item specifics and each description threshold add up, to at most 100 without being cut off |
| Scorer.ConditionOrder | pkg/scorer/scorer.go:178-192 | new above like new above used and working above anything unknown above for parts, and by how much |
| Scorer.Urgency | internal/engine/score.go:148-163 | a listing's time factor is 100 for an auction with under four hours left, else 80 in its first day, else 30 |
| Scorer.Shares | pkg/scorer/scorer.go:23-32 | a listing's price counts 40 of 100, its seller 20, condition 15, quantity and quality 10 each and time 5 |
| Scorer.BetterNeverScoresLess | pkg/scorer/scorer.go:73-115 | for non-negative weights the rounded, clamped total never falls as price falls or feedback, feedback percentage or quantity rises, together or apart |
| Scorer.UnitPriceTimesLot | pkg/types/types.go:94-103 | the unit price times the lot size is price plus shipping; a quantity of 1 or less counts as one |
| Scorer.UnitPriceFalls | pkg/types/types.go:94-103 | at a fixed non-negative total price the unit price never rises with the quantity |
| Scorer.LargerLotNeverScoresLess | internal/engine/score.go:148-163 | so a listing's score never falls with its quantity |
| Scorer.ScoreRange | pkg/scorer/scorer.go:73-258 | a listing's score is in 9..96 with a warm baseline and 29..76 without, so the clamp never fires |
| Scorer.RangeIsTight | pkg/scorer/scorer.go:73-258 | all four ends are reached |
| Attributes.SecondPassChangesNothing | pkg/extract/normalize.go:21-43 | for ram, drive, server, cpu, nic and other, normalise-then-validate is idempotent on every map: a second pass changes nothing and repeats the verdict |
| Attributes.NeverRejectedForSpeed | pkg/extract/pc4.go:110-126 | a normalised memory map is never rejected because of its speed |
| Attributes.NormalizedSpeed | pkg/extract/pc4.go:110-126 | a plausible speed is kept, any other becomes the title's, or goes if the title has none |
| Attributes.NormalizedKey | pkg/extract/normalize.go:21-57 | what normalising leaves of every other key: placeholders of optional enums go, a missing confidence becomes 0.5, a server gets its title's tier, the rest stays |
| Attributes.ValidationWrites | pkg/extract/validate.go:53-82 | validation changes nothing but the condition, which it normalises if it is text |
| Attributes.CapacityRecoveredExactly | pkg/extract/normalize.go:70-87 | when a capacity in MiB or in MB comes back as gigabytes: both directions |
| Attributes.CapacityWrittenExactly | pkg/extract/normalize.go:70-87 | so it is in the map, written back as a whole number and with nothing else changed, from an int or a float |
| Attributes.VerdictIsSchema | pkg/extract/validate.go:19-258 | acceptance is meeting every field of a declarative schema, and a rejection is the complaint about the first field not met |
| Attributes.ConditionSettles | pkg/extract/condition.go:36-47 | normalising a condition twice is normalising it once |
| Attributes.ConditionReadExactly | pkg/extract/condition.go:10-47 | each condition is read off exactly its own spellings, whatever their case and surrounding space |
| Attributes.AttributeMap.StripPlaceholderEnums | pkg/extract/normalize.go:47-57 | removes exactly the optional enum keys that hold a placeholder |
| Attributes.AttributeMap.NormalizeCapacityGB | pkg/extract/normalize.go:72-87 | rewrites the capacity by the first divisor that fits, if any |
| Attributes.AttributeMap.NormalizeRAMSpeed | pkg/extract/pc4.go:110-126 | keeps a valid speed, else takes the title's, else deletes it; reports whether one is set |
| Attributes.AttributeMap.NormalizeThenValidate | pkg/extract/extractor.go:243-249 | the two passes in place leave the map and verdict the idempotence result speaks of |

## Left out

- Match of a watch's filters (`pkg/types/types.go:198-274`): evaluation takes its outcome as an input.
- Payload, summary and embed contents, score colours, and how headers are parsed to numbers.
- HTTP, OAuth, language-model back ends, prompts, tracing, metrics, command line, configuration and UI handlers.
- SQL as text: conditions, placeholders, args, order and limits are modelled, not the string they are printed to; the base listing select has no `active` column while the row scanner reads one, and the model takes whole rows.
- Collation and Unicode case folding: `Like` and `Attributes` fold ASCII letters and trim ASCII white space only.
- Regular-expression tables and title classifiers: a title yields a speed in 800..8400 or none, and a server tier.
- GPU, workstation and desktop clean-up: brand prefixes are stripped only once (`pkg/extract/gpu_normalize.go:60`, `pkg/extract/system_normalize.go:87`), so a doubled prefix changes again on a second pass.
- Liveness of alerts: a recorded success with a lost mark is skipped without being marked, and summary mode does not consult attempt rows. Only safety is claimed.
- The manual retry endpoint, which bypasses idempotency by design.
- AlertDelivery.StepInv: alerts are created between ticks, not in the middle of one; `AlertCooldown` covers evaluation interleaved with delivery.
- SchedulerLock.RunJob: what the function does after the lock is released, when its run could not be recorded, is outside the locked section.
- The token bucket of `golang.org/x/time/rate`, cron internals, baseline percentiles and migrations.
- ExtractionQueue.StepInv: a listing deleted together with its queue rows is not modelled.
- BufferedClient.Client.SignalStop: the critical section under `stopMu` is one action of two steps with no reader in between, since the drain reads the context under the same lock.
- Persistence of a score by `ScoreListing` is only its success or failure.
- Scorer.ScoreRange: reals are exact, so rounding in float64 near a half is not covered; neither are NaN, infinities and float64 values too large for an int in `Attributes`.
- Stratify.Stratify: a negative limit, on which the Go code panics when it allocates.
