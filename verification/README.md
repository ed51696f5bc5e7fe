# Push Booster: a verified model of the delivery side

Push Booster schedules web-push campaigns, turns a scheduled slot into one task per subscriber,
delivers the tasks with retries, and decides what a push shows under targeting rules, frequency
caps and rotation. These modules model that chain, the reports that allocate its costs, and some
smaller parts beside it, and prove what each part keeps. Redis, Postgres, ClickHouse and Redpanda
are maps and sequences whose steps may succeed, fail, or take effect while their answer is lost.
Instants are nanoseconds; amounts of money are reals.

| module | part |
|---|---|
| Caps, CapRuns, CapConcurrency, CapDays | frequency caps: one call, whole runs, interleaved workers, and both with expiry |
| Targeting | rule matching and the compiled audience query |
| Payload, PayloadRuns, Rotation, PayloadCaps | payload decisioning, its books, rotation and caps of calls one after the other |
| PayloadAlone | an interleaved payload call that nothing overlaps is the call as a whole |
| PayloadConcurrency, RotationConcurrency, PayloadDays | caps and rotation of payload calls that overlap, and with expiry |
| Schedule, ScheduledRuns, SchedulerPool | due slots, scheduler ticks, one run from insert to end, schedulers side by side |
| Paging, Enqueue, EnqueueRuns | the paged audience snapshot, launches and the keyset enqueue, a launch enqueued again |
| Sender, SenderPool, Throttle | one delivery attempt, the worker pool, the provider throttle |
| Pipeline | schedulers feeding the senders, end to end |
| Spend, Reports, Performance | spend allocation, the report, the dashboard |
| Auth, AuthConcurrency, Token, Base64 | OTP login, requests that overlap, session tokens |
| CreativeSync | provider creative sync |
| Resp, Quota | the Redis wire format, the quota sampler of the seeder |
| Clock, Counting, Octets, RealSums, Sorting, Text, Wrappers | shared definitions |

Stateful services are classes whose methods are proved against a function of the old state or
against the property itself; interleavings are transition systems over `Step` datatypes, with
theorems about every `Run`.

Some promises of the design turn out not to hold as they stand. Each has a run or an input that
breaks it and the exact condition under which it does hold:

- A daily cap can let through up to twice its limit, because the expiry drops fractions of a
  second: `CapRuns.TwiceReached`, `CapRuns.DailyCapAtMostTwice`, `CapRuns.DailyCapExactWhen`.
- With P workers a cap can be exceeded by P - 1, and no more; so can the payloads shown with P
  calls in flight: `CapConcurrency.OvershootReached`, `CapConcurrency.OvershootBound`,
  `PayloadConcurrency.PayloadBoundReached`, `PayloadConcurrency.PayloadsWithinCap`. Both together
  double that on one UTC day: `CapDays.DayBoundReached`, `CapDays.DayGrantsBounded`,
  `PayloadDays.RotatedAndDayCapped`.
- An approval can be undone, a code can open two sessions or any number of them, and codes can
  come faster than the rate limit, when a save overwrites a row that changed since it was read.
  Which stale saves do which harm is exact: `AuthConcurrency.ApprovalKeptExactlyWhen`,
  `AuthConcurrency.CodesOnceExactlyWhen`, `AuthConcurrency.LoginsBoundedExactlyWhen`,
  `AuthConcurrency.CodesSpacedExactlyWhen`.
- A subscriber with a language such as `en -us` can match a rule without being in the audience:
  `Targeting.UncleanLanguageSplits`, `Targeting.LanguageImpliesExactlyWhen`. A value with capitals
  beyond A to Z can, too: `Targeting.CapitalSplits`, `Targeting.CaseAgreesExactlyWhen`.
- Rotation can show a creative again before all were shown: up to as many times as calls of the
  subscription are in flight together, and when an exposure stays without its payload. It holds
  exactly where neither can be: `RotationConcurrency.ExposureBoundReached`, `RotationConcurrency.ExposuresBounded`,
  `RotationConcurrency.LossRepeats`, `RotationConcurrency.DistinctExactlyWhen`,
  `PayloadRuns.OrphanExactlyWhen`.
- A launch that is enqueued again after a failure, or twice at the same time, produces rows again:
  `EnqueueRuns.FailureRepeats`, `EnqueueRuns.OverlapRepeats`, `EnqueueRuns.EachOnceExactlyWhen`.
- The throttle keeps its limit only while increments land within a second of their stamp:
  `Throttle.LimitExactlyWhen`.
- Rows of a launch that share shard and subscription can be lost at a page end:
  `Paging.DuplicateKeySkipped`, `Paging.CompleteExactlyWhen`.
- A report by creative for one campaign can overstate the spend of its rows:
  `Performance.FilteredSpendDoubles`, `Performance.FilteredSpendExactlyWhen`,
  `Spend.FilteringInflates`.
- A slot misses a day under some way of ticking as soon as pauses may exceed its window:
  `Schedule.MissedWindow`, `Schedule.EnabledDayRunsExactlyWhen`.

The dashboard totals the fifty best sources only; `Performance.DashboardMisses` says when that is
the whole.

## Model

| member | source | states |
|---|---|---|
| Caps.KeyTextInjective | packages/go/subscribers/redis_cap_store.go:123-170 | different counters have different Redis keys, for ids that are trimmed and free of the separator |
| Caps.CapStore.Allow | packages/go/subscribers/redis_cap_store.go:29-97 | all enabled caps are read before any counter is incremented, in the order of the four checks, up to the first fault |
| Caps.LimitMeaning | packages/go/subscribers/redis_cap_store.go:34-68 | each of the four limits holds for one counter, that of this subscription and campaign, of this creative for the creative caps, and of the UTC day of the call for the daily ones; every other key is unchecked |
| Caps.AllowAt | packages/go/subscribers/redis_cap_store.go:70-96 | the effect of one call on any one counter: untouched when refused or not enabled, one more with its expiry when allowed, at most one more when the call fails |
| Caps.AllowMeaning | packages/go/subscribers/redis_cap_store.go:70-96 | a refusal changes nothing and names a full cap; an allowed call adds one to exactly the enabled counters, all of which were below their limit; without faults it is allowed if and only if all of them were |
| CapRuns.TotalCapHolds | packages/go/subscribers/redis_cap_store.go:58-96 | over any run of one worker a total cap bounds both its counter and the sends it allowed, whatever fails |
| CapRuns.SubscriptionsApart | packages/go/subscribers/redis_cap_store.go:123-170 | over any run the calls of other subscriptions never change a counter or an answer of this one |
| CapRuns.DailyKeyExpiry | packages/go/subscribers/redis_cap_store.go:172-185 | a daily counter expires strictly within one second of the next UTC midnight, and when it expires early |
| CapRuns.DailyCapWhileCounterLives | packages/go/subscribers/redis_cap_store.go:82-95 | until the first counter of the day expires the daily limit is never exceeded |
| CapRuns.DailyCapAtMostTwice | packages/go/subscribers/redis_cap_store.go:82-95 | over a whole UTC day at most twice the daily limit is let through |
| CapRuns.TwiceReached | packages/go/redis/client.go:67-74 | a run that gets twice the daily limit, whenever the counter dies before midnight |
| CapRuns.DailyCapExactWhen | packages/go/redis/client.go:67-74 | the daily limit holds for all runs if and only if the rest of the day is a whole number of seconds or less than one |
| CapConcurrency.OvershootBound | packages/go/subscribers/redis_cap_store.go:70-96 | with P workers interleaved in any way every enabled counter stays at most limit + P - 1, and no key is granted more often than its counter says |
| CapConcurrency.OvershootReached | packages/go/subscribers/redis_cap_store.go:70-96 | that many calls return true in some interleaving, for every key, daily or total, every limit and every number of workers |
| CapDays.DayGrantsBounded | packages/go/subscribers/redis_cap_store.go:82-96 | with P workers and any delays a daily counter expires at most once before its UTC day is over, and at most 2 * (limit + P - 1) calls are granted on it |
| CapDays.DayBoundReached | packages/go/subscribers/redis_cap_store.go:172-185 | and for every daily key, limit and P some run of its UTC day grants that many |
| CapConcurrency.CounterIsIncrements | packages/go/subscribers/redis_cap_store.go:82-96 | in every run a counter has moved by exactly the increments that took effect, those of one worker and those of the others |
| CapConcurrency.RefusedCallAddsNothing | packages/go/subscribers/redis_cap_store.go:70-81 | in every run a call that ends with a read, refused or failed, has incremented nothing from its begin on, and every counter moved by the other workers' increments alone |
| CapConcurrency.AllowedCallAddsOne | packages/go/subscribers/redis_cap_store.go:70-96 | in every run a call that returned true has incremented each of its keys once and no other key |
| Targeting.NormalizeRuleValues | packages/go/inventory/service.go:726-738 | stored rule values are trimmed, lowered, not blank and not repeated, in order of first occurrence |
| Targeting.NormalizationMeaning | packages/go/inventory/service.go:726-738 | nothing but blanks and repetitions is dropped and nothing is invented |
| Targeting.NormalizationStable | packages/go/subscribers/clickhouse_repository.go:769-781 | normalising stored rules again, as the audience query does, changes nothing |
| Text.LetterMeaning | packages/go/inventory/service.go:726-738 | the letters A to Z are lowered and no others, and white space is that of Unicode |
| Targeting.MatchImpliesAudience | packages/go/subscribers/clickhouse_repository.go:720-767 | a subscriber whom payload decisioning accepts satisfies the compiled audience predicate, for languages without white space before the first dash |
| Targeting.MatchEqualsAudience | packages/go/subscribers/clickhouse_repository.go:720-767 | both evaluators agree when every listed variant has its base listed, in particular when no language rule has a dash |
| Targeting.LanguageImpliesExactlyWhen | packages/go/subscribers/service.go:966-973 | for a trimmed language matching implies being listed under all rules if and only if no white space stands before its first dash |
| Targeting.UncleanLanguageSplits | packages/go/subscribers/service.go:966-973 | every other language has a rule it matches without being in the audience |
| Targeting.LanguagesAgreeExactlyWhen | packages/go/subscribers/clickhouse_repository.go:741-767 | the language dimension means the same in both evaluators for all clean languages if and only if every listed variant has its base listed |
| Targeting.BlankRulesDisagree | packages/go/inventory/service.go:716-738 | why rules must be stored normalised: with a blank rule the evaluators disagree |
| Targeting.AcceptsIsMatch | packages/go/subscribers/service.go:938-986 | matching with any way to lower letters is matching as above when it lowers A to Z |
| Targeting.CapitalSplits | packages/go/subscribers/clickhouse_repository.go:684-688 | a country with a capital E acute: with Unicode lowering the rule matches, and the query drops the subscriber |
| Targeting.CaseAgreesExactlyWhen | packages/go/subscribers/clickhouse_repository.go:684-688 | Unicode lowering and the query's lowering find a value in the same rules if and only if they lower each of its letters alike |
| Paging.SnapshotMeaning | packages/go/subscribers/clickhouse_repository.go:484-503 | the snapshot of a launch holds exactly its rows, strictly ordered by shard and subscription |
| Paging.PageAt | packages/go/subscribers/clickhouse_repository.go:467-517 | a page behind row i holds exactly the rows from i on, up to the limit |
| Paging.DuplicateKeySkipped | packages/go/subscribers/clickhouse_repository.go:472-481 | two rows with one key: the second is lost when a page ends between them |
| Paging.PagedIsSnapshot | packages/go/inventory/service.go:1182-1231 | page after page the loop goes through the snapshot, for every page size, when keys are distinct |
| Paging.CompleteExactlyWhen | packages/go/inventory/service.go:1182-1231 | for named rows every page size goes through all rows of the launch if and only if no two of them share shard and subscription |
| Enqueue.EachRowOnce | packages/go/inventory/service.go:1198-1222 | the tasks of a snapshot are one per row of the launch, in key order |
| Enqueue.Launches.ProduceDeliveryTasks | packages/go/redpanda/delivery.go:84-95 | tasks are produced in order up to the first failure, whose record may have been written |
| Enqueue.Launches.EnqueueAudience | packages/go/inventory/service.go:1182-1231 | the loop ends for every table and batch size; what it produced is a prefix of the rows its pages go through, complete exactly on success, and at most one page longer than the count returned; without faults and blank ids it succeeds |
| Enqueue.Launches.EnqueueCampaignLaunch | packages/go/inventory/service.go:1124-1180 | the launch record after every outcome, also where the answer of a status update is lost; a completed launch enqueues nothing more |
| Enqueue.Launches.CreateCampaignLaunch | packages/go/inventory/service.go:880-925 | a launch is stored as completed exactly when its audience is in the table and the completion took effect, and reported created exactly when that was also answered; its total is the number of its rows |
| EnqueueRuns.OncePerPass | packages/go/inventory/service.go:1124-1231 | whatever calls for one launch overlap and fail, a row is produced at most once per call that got past the status check |
| EnqueueRuns.EachOnceExactlyWhen | packages/go/inventory/service.go:1149-1180 | every row is produced at most once, however often the launch is enqueued, if and only if the calls neither overlap nor fail |
| EnqueueRuns.CallIsPass | packages/go/inventory/service.go:1149-1180 | whatever one EnqueueCampaignLaunch call answers, stores and produces is a run of at most one pass from the status it found |
| Enqueue.CountAudience | packages/go/subscribers/clickhouse_repository.go:445-465 | the total counted for a fresh launch is the number of its audience rows |
| Enqueue.AudienceMeaning | packages/go/subscribers/clickhouse_repository.go:649-734 | a subscriber has a row if and only if the campaign is for its source, its endpoint and keys are not blank, the timezone is the one asked for, and its attributes satisfy the compiled targeting rules; the row carries what it subscribed with, under a key of its own |
| Schedule.WeekdaysInOrder | packages/go/inventory/service.go:1103-1114 | weekdays are numbered from Monday to Sunday in turn |
| Schedule.DueExactlyInWindow | packages/go/inventory/service.go:1066-1114 | for a fixed offset a slot is due under a date exactly from its time on for the grace in minutes, ten unless positive, and before local midnight, on enabled ISO weekdays |
| Schedule.WindowsDisjoint | packages/go/inventory/service.go:1066-1101 | windows of different dates do not meet |
| Schedule.TicksHit | apps/scheduler/main.go:63-81 | ticks that never pause longer than a window meet it |
| Schedule.DueKeysMeaning | packages/go/inventory/service.go:991-1003 | the three loops of a tick go through exactly the due keys |
| Schedule.Scheduler.CreateScheduleRun | packages/go/inventory/postgres_repository.go:846-879 | a run is inserted once per key; it may be inserted while the call fails |
| Schedule.Scheduler.ProcessScheduleRun | packages/go/inventory/service.go:1028-1064 | a run is completed with what came of its launch, at most once; it may be stored as completed and reported failed |
| ScheduledRuns.ProcessScheduleRun | packages/go/inventory/service.go:1028-1064 | what came of the launch is what the launch and enqueue calls did: a run is stored as completed only when every row of the audience of its timezone was produced, and a failed one has produced a prefix |
| ScheduledRuns.AudienceOnce | packages/go/inventory/service.go:880-925 | those rows are the subscribers the campaign reaches in that timezone, each once |
| ScheduledRuns.TasksMatchRules | packages/go/inventory/service.go:1186-1230 | for normalised rules with listed bases and clean attributes, the tasks of a launch go to exactly the addressed subscribers whom payload decisioning accepts for its rules, and carry what those subscribed with |
| Schedule.Scheduler.ProcessDueSchedules | packages/go/inventory/service.go:974-1026 | the runs and counters after a tick that went through all due keys, or stopped at a failed insert |
| Schedule.TickMeaning | packages/go/inventory/service.go:974-1026 | created runs are completed plus failed even when a tick aborts; no more runs are reported completed than are, and as many where no answer of a completion is lost; only due keys get runs; a tick without error leaves no due key without one; at most one run is orphaned |
| Schedule.EnabledDayRuns | packages/go/inventory/service.go:1066-1114 | ticks that never pause longer than the window give an enabled day of a slot its run, as long as those inside the window end without error |
| Schedule.MissedWindow | apps/scheduler/main.go:63-81 | two ticks around a window that is shorter than their pause leave the day without a run |
| Schedule.EnabledDayRunsExactlyWhen | apps/scheduler/main.go:63-81 | an enabled day gets its run under every way of ticking with bounded pauses if and only if no pause can be longer than the grace in minutes, ten unless positive, and than the rest of the local day |
| SchedulerPool.StepKeepsInv | packages/go/inventory/service.go:1003-1064 | what every step of any scheduler process keeps: one holder per run, tasks only from rows gone through |
| SchedulerPool.AtMostOnce | packages/go/migrations/postgres/000015_campaign_schedules.sql:49-50 | for any ticks, interleavings and crashes a run is completed at most once, and a subscription gets at most one task per slot and local date |
| SchedulerPool.CompletedMeansAllMade | packages/go/inventory/service.go:1028-1064 | in every interleaving a run stored as completed has made exactly one task for every row of its audience, in order, and no other |
| SchedulerPool.SnapshotIsGoodAudience | packages/go/subscribers/clickhouse_repository.go:649-718 | the snapshot that a scheduled launch enqueues holds each subscription of its timezone once and nobody else |
| Sender.Service.ProcessTask | packages/go/sender/service.go:124-233 | events, queued task, result and the push that was sent, for every combination of failures of one attempt |
| Sender.Service.Fail | packages/go/sender/service.go:235-289 | the failure path: failed event, one attempt more, retry topic or dead-letter topic |
| Sender.AtMostOneEnqueue | packages/go/sender/service.go:235-289 | whatever fails, one attempt queues its task at most once, in the topic of the next attempt or the dead-letter topic, and then reports no end |
| Sender.SmoothAttempt | packages/go/sender/service.go:124-289 | when only pushing fails an attempt ends in exactly one way and leaves the event trace of that way |
| Sender.SmoothFate | packages/go/sender/service.go:146-235 | which answer leads where: below 400 is sent, 404 and 410 give the endpoint up, everything else and a missing key, trigger or throttle fails, is retried below the limit through the topics of one minute, ten minutes and an hour, and is dead at it |
| Sender.AttemptMeaning | packages/go/sender/service.go:124-310 | what any attempt leaves whatever fails: the events that could be written, in order, up to the first that could not; success exactly when its end was told; a push exactly when nothing failed before it; nothing at all for a task with a blank field |
| Sender.EventsMeaning | packages/go/sender/service.go:237-310 | the events of an attempt are about its delivery, at its attempt number, and at the next once the task is queued again |
| Sender.WholeLife | packages/go/sender/service.go:124-289 | a task is consumed at consecutive attempts up to the limit, follows the retry topics in order, and ends sent, invalid or dead, dead only when its attempts are used up |
| SenderPool.StepKeepsInv | apps/sender/main.go:103-137 | never more workers than the limiter allows, and a waiting task always sits in the topic of its attempt |
| SenderPool.StepConserves | packages/go/redpanda/delivery.go:143-168 | every entry of a task is in exactly one place after every step |
| SenderPool.FinishMeaning | packages/go/sender/service.go:124-235 | a worker that finishes has pushed exactly if nothing failed before the push, and its task is in one more place, queued or ended |
| SenderPool.RunConserves | packages/go/redpanda/delivery.go:143-168 | and after every run |
| SenderPool.StepDescends | packages/go/sender/service.go:235-289 | every step without new entries uses up work |
| SenderPool.RunsEnd | packages/go/sender/service.go:235-289 | so every schedule of deliveries is finite, bounded by the work at its start |
| SenderPool.QuietMeansEnded | apps/sender/main.go:103-137 | when no worker can do anything nothing waits and every entry has ended once |
| SenderPool.PushesBounded | packages/go/sender/service.go:124-289 | over every run of entries, workers and failures a delivery is pushed at most once per entry and allowed attempt and reported sent at most once per entry |
| Pipeline.StepKeepsInv | packages/go/inventory/service.go:1220-1222 | schedulers and senders together keep both invariants, and what arrives is what was produced |
| Pipeline.OneDelivery | packages/go/redpanda/delivery.go:143-168 | a produced delivery is in one place per entry, with its pushes and reports bounded |
| Pipeline.SlotPushesBounded | packages/go/inventory/service.go:974-1064 | end to end: a subscription is pushed for one slot and local date at most once per allowed attempt and at most one push is reported sent, plus as much again for every uncommitted record that is handed out again |
| Pipeline.QuietMeansEnded | apps/sender/main.go:103-137 | when the topics are empty and the workers idle every task the schedulers produced has ended |
| Pipeline.CompletedRunsEnd | packages/go/inventory/service.go:1028-1064 | then every row of the audience of a completed run got one delivery of its own, and that delivery has ended, once per entry |
| Payload.Service.FilterCreativesByTargeting | packages/go/subscribers/service.go:917-953 | the eligible creatives; attributes are read only when some creative has rules |
| Payload.Service.OrderCreativesByExposure | packages/go/subscribers/service.go:1035-1063 | the unseen creatives, or all of them when every one was seen |
| Payload.Service.FirstAllowedCreative | packages/go/subscribers/service.go:1018-1033 | the choice and the counters after trying creatives in order |
| Payload.Service.PushPayloadForContext | packages/go/subscribers/service.go:730-915 | outcome, counters, exposures and decisions of every branch |
| Payload.Service.PushPayload | packages/go/subscribers/service.go:697-728 | an unknown trigger is taken for a subscription id; an unreadable one changes nothing |
| PayloadRuns.EligibleMeaning | packages/go/subscribers/service.go:917-953 | filtering keeps exactly the creatives whose rules are met, also where it skips reading the attributes, and fails exactly when it needs them and cannot |
| PayloadRuns.SeenMeaning | packages/go/subscribers/clickhouse_repository.go:297-330 | a creative counts as seen if it was exposed to this subscription, for this campaign, no earlier than the whole millisecond in which the window opens |
| PayloadRuns.RotatedMeaning | packages/go/subscribers/service.go:1052-1062 | a seen creative is in the list only when every eligible one was seen |
| PayloadRuns.FirstAllowedMeaning | packages/go/subscribers/service.go:1018-1033 | everything before the choice was refused, and the counters move only by the one call that was not |
| PayloadRuns.ShownMeaning | packages/go/subscribers/service.go:850-915 | a returned payload shows the first allowed creative of the filtered, ordered list, field by field, and leaves exactly one exposure and one decision |
| PayloadRuns.ShownCounts | packages/go/subscribers/service.go:1083-1103 | it adds one to exactly the enabled counters of the selected creative |
| PayloadRuns.PayloadAccounting | packages/go/subscribers/service.go:730-915 | every call leaves at most one decision, which fits its outcome and names its reason, and exactly one when the record succeeds; suppressed and unknown outcomes touch neither counters nor exposures |
| PayloadRuns.OrphanExactlyWhen | packages/go/subscribers/service.go:875-901 | an exposure stays without its payload exactly when its own record is unheard of or the decision record after it fails |
| PayloadRuns.StoredMeaning | packages/go/subscribers/service.go:764-775 | without a creative store the stored payload is shown for this trigger, delivery and subscription, and no books are kept |
| Rotation.RunRotates | packages/go/subscribers/service.go:1035-1063 | over any run of calls inside one exposure window nothing repeats before every eligible creative was exposed, and the payloads returned are those exposures whose call succeeded |
| Rotation.FirstServedDistinct | packages/go/subscribers/service.go:1035-1063 | the first payloads of a window are pairwise distinct, as many as there are eligible creatives less the orphaned exposures, whatever caps refuse |
| RotationConcurrency.StepKeepsInv | packages/go/subscribers/service.go:850-901 | what every step of overlapping calls keeps: while an eligible creative is unexposed, the exposures of each and the calls that still hold it are together at most the calls that may be in flight |
| RotationConcurrency.ExposuresBounded | packages/go/subscribers/service.go:1035-1063 | with P calls of a subscription in flight, whatever interleaving, caps and failures, no creative is exposed more than P times before every eligible one was |
| RotationConcurrency.ExposureBoundReached | packages/go/subscribers/service.go:1035-1063 | and P times is reached, with as many payloads and no failure, for any list of two or more whose first has no cap |
| RotationConcurrency.OneAtATimeDistinct | packages/go/subscribers/service.go:850-901 | one call of the subscription at a time and no loss: the first payloads are as many as the eligible creatives and distinct, whatever caps refuse and other subscriptions do |
| RotationConcurrency.LossRepeats | packages/go/subscribers/service.go:875-901 | one lost answer makes the first payload come again before all were shown |
| RotationConcurrency.DistinctExactlyWhen | packages/go/subscribers/service.go:850-901 | over all interleavings the first payloads are as many as the eligible creatives and distinct if and only if at most one call of the subscription is in flight and no exposure may stay without its payload, for any list without caps |
| RotationConcurrency.RotatedAndCapped | packages/go/subscribers/service.go:1018-1063 | every such run also keeps its payloads within limit + P - 1 of each cap, P counting the calls of all subscriptions |
| PayloadDays.RotatedAndDayCapped | packages/go/subscribers/service.go:1018-1063 | with expiring counters too: at most 2 * (limit + P - 1) payloads count under a daily key until its UTC day is over, and creatives still rotate, whatever interleaving, delays and failures |
| PayloadCaps.ShownAreGranted | packages/go/subscribers/service.go:1018-1033 | the counters of a run of payload calls are those of a run of cap checks, and every payload is a grant there |
| PayloadCaps.OwnFields | packages/go/subscribers/service.go:1083-1103 | a creative is checked against its own four fields, each at its own counter of the subscription |
| PayloadCaps.ShownWithinTotalCap | packages/go/subscribers/service.go:1083-1103 | over any run of payload calls, one after the other, a subscription is shown a campaign at most as often as the `campaignTotal` of its creatives says, and a creative at most as often as its `total` says |
| PayloadCaps.ShownWithinDailyCap | packages/go/subscribers/service.go:1083-1103 | and on one UTC day at most twice as often as `campaignDaily`, or `daily` of the creative, says |
| PayloadCaps.RoomShows | packages/go/subscribers/service.go:1018-1033 | without cap faults the first creative of the list is chosen if and only if its counts are below each positive one of its four fields, and then it is shown |
| PayloadConcurrency.CommandsRun | packages/go/subscribers/service.go:1018-1033 | the cap checks of payload calls that overlap in any way are a run of interleaved cap store commands |
| PayloadConcurrency.PayloadsWithinCap | packages/go/subscribers/service.go:1083-1103 | with P calls in flight, whatever interleaving and whatever fails, at most limit + P - 1 payloads count under a key while its counter lives |
| PayloadConcurrency.PayloadBoundReached | packages/go/subscribers/service.go:1018-1033 | and that many are shown in some interleaving, for every creative with a single cap |
| PayloadAlone.CheckAlone | packages/go/subscribers/redis_cap_store.go:70-96 | the interleaved commands of a cap check that no other overlaps leave the counters and the answer of Allow, whatever fails |
| PayloadAlone.CallAlone | packages/go/subscribers/service.go:850-1033 | and the steps of a payload call on its own leave the exposures and counters of pushPayloadForContext, and return its payload if and only if it does |
| Spend.SharesMonotone | packages/go/reports/service.go:475-483 | shares are not negative and grow with weight |
| Spend.SharesProportional | packages/go/reports/service.go:497-551 | rows of one owner share in the ratio of their impressions, whatever their clicks; of their clicks where neither has impressions; else of their conversions |
| Spend.SharesConserve | packages/go/reports/service.go:497-518 | the shares of all rows add up to the spend of exactly the owners whose rows have weight |
| Spend.AllocatedSourceSpend | packages/go/reports/service.go:436-485 | the spend per source: booked spend plus shares of publisher spend |
| Spend.AllocateSpendToMetricRows | packages/go/reports/service.go:487-519 | the spend per campaign or creative row |
| Spend.SourceSpendConserved | packages/go/reports/service.go:436-485 | the first stage loses only what names nobody and what belongs to publishers without weight |
| Spend.TwoStageConservation | packages/go/reports/service.go:410-519 | both stages together lose that and the spend of sources without weight, and nothing else |
| Spend.FilteringInflates | packages/go/reports/service.go:219-223 | filtering before the split gives every remaining row at least its unfiltered share, and more if and only if it has weight, its owner spend, and a dropped row of the owner weight |
| Spend.FilteringExactlyWhen | packages/go/reports/service.go:219-223 | for a row with weight and an owner with spend the share is the same if and only if the owner's total weight is |
| Reports.RollUpTotals | packages/go/reports/service.go:387-402 | each publisher row is the total of its sources |
| Reports.RollUpPreserves | packages/go/reports/service.go:387-402 | every additive total over sources with a publisher survives the roll-up |
| Reports.RollUpMeasures | packages/go/reports/service.go:387-402 | in particular revenue, conversions, sent, shown, clicks and closed |
| Reports.MergeRows | packages/go/reports/service.go:231-256 | one row per key with metrics or spend, with the derived columns of its counted ones |
| Reports.RowMeaning | packages/go/reports/service.go:206-290 | a key has a row if and only if something was measured or spent for it, and the row shows what was measured last |
| Reports.CalculateMeaning | packages/go/reports/service.go:759-772 | profit and the three ratios in percent, zero where nothing divides them |
| Reports.SortPerformanceRows | packages/go/reports/service.go:717-736 | the rows are sorted in place as the stable sort by value and then key does |
| Reports.SortColumns | packages/go/reports/service.go:717-757 | which column sorts: greater values first, ties by key, dates by key alone, anything unknown by profit |
| Reports.SortedIsReport | packages/go/reports/service.go:717-736 | sorting the rows gives the report in whatever order the map was gone through |
| Reports.OneReport | packages/go/reports/service.go:717-736 | the report is a function of the data |
| Reports.ReportMeaning | packages/go/reports/service.go:273-277 | keys are unique, rows are strictly ordered by value and then key, and a limit of k keeps the k best |
| Performance.MetricRows | packages/go/reports/service.go:367-408 | the metric rows of a group, rolled up for publishers |
| Performance.CostRows | packages/go/reports/service.go:410-434 | the spend of every key of a group after the filter |
| Performance.Report | packages/go/reports/service.go:206-278 | the whole report of a query is that of its filtered metrics and allocated spend |
| Performance.FilterMeaning | packages/go/reports/service.go:273-340 | a report of one publisher shows its sources only, one of a campaign its creatives only, and of what is left everything that was measured |
| Performance.SpendMeaning | packages/go/reports/service.go:367-430 | dates and publishers have spend of their own, sources what is allocated to them, and a campaign or creative only has some if its own source has |
| Performance.FilteredSpendExactlyWhen | packages/go/reports/service.go:296-304 | in a report by creative for one campaign a creative with weight has the spend it has in the report of all campaigns if and only if no creative of another campaign has weight on the same source; otherwise it has more |
| Performance.FilteredSpendDoubles | packages/go/reports/service.go:296-304 | two creatives of one source in two campaigns: the filter doubles the spend shown |
| Performance.SourceColumnConserved | packages/go/reports/service.go:225-256 | the spend column of the unfiltered, unlimited report by source adds up to the allocated spend of the sources that are listed |
| Performance.SharedColumnConserved | packages/go/reports/service.go:225-256 | by campaign or creative it adds up to the shares of the listed rows |
| Performance.ReportConservation | packages/go/reports/service.go:206-278 | and where every key is listed, to the whole input spend less exactly what the two stages drop |
| Performance.DashboardOf | packages/go/reports/service.go:340-365 | dashboard totals are the sums over the returned rows, and its profit the sum of their profits |
| Performance.DashboardMisses | packages/go/reports/service.go:340-346 | the total of a measure without negative values is that of the whole report if and only if every row that is not returned has none of it |
| Quota.ExactlyTheQuota | apps/dev-seed/main.go:775-777 | the sampler picks exactly q out of n |
| Quota.GapsEven | apps/dev-seed/main.go:775-777 | two picks in a row lie the floor or the ceiling of n / q apart |
| Quota.EachDayExact | apps/dev-seed/main.go:767-778 | however days interleave each gets exactly its quota |
| Quota.ClickedIndexes | apps/dev-seed/main.go:762-780 | the loop over all subscribers picks the sampled impressions |
| Quota.PostbackIndexes | apps/dev-seed/main.go:717-733 | the loop over all subscribers picks the sampled clicks |
| Quota.SeedQuotas | apps/dev-seed/main.go:792-834 | clicks and conversions of every day meet their quotas, and at most 6% of the clicks convert |
| Quota.QuotasFollowRates | apps/dev-seed/main.go:792-850 | the quotas are the rates of the day to the nearest whole click or conversion, and conversions stop at six percent |
| Quota.ImpressionMeaning | apps/dev-seed/main.go:758-760 | multiples of 17 and of 23 have no impression, and all other rows have one |
| Resp.WriteCommand | packages/go/redis/client.go:120-136 | the bytes of a command |
| Resp.CommandRoundTrip | packages/go/redis/client.go:120-136 | a decoder recovers the arguments from them, for arbitrary bytes, and leaves what follows |
| Resp.WireBytes | packages/go/redis/client.go:120-136 | a command is an array of bulk strings, each behind its length, byte for byte |
| Resp.Reader.ReadLine | packages/go/redis/client.go:180-186 | a line ends at the first LF and loses one CR |
| Resp.Reader.ReadResponse | packages/go/redis/client.go:138-178 | reply and position for every input |
| Resp.BulkReplyRoundTrip | packages/go/redis/client.go:158-174 | a bulk string reply gives its bytes and leaves the rest of the input, up to the largest length that fits |
| Resp.IntegerReplyRoundTrip | packages/go/redis/client.go:156-157 | an integer reply gives its digits and leaves the rest of the input |
| Resp.StatusReplies | packages/go/redis/client.go:144-157 | a status line comes back as its text and an error line as the error, and the rest stays |
| Resp.AtoiMeaning | packages/go/redis/client.go:163-166 | a size is an optional sign and decimal digits within 64 bits; signed and unsigned digits are read as what they say |
| Resp.BulkReplyMeaning | packages/go/redis/client.go:158-174 | exactly which inputs are accepted as bulk replies, and which sizes bring the client down: those below -1 and those whose size + 2 is no int |
| Throttle.Throttler.Try | packages/go/sender/redis_throttler.go:37-59 | one round of the waiting loop: granted, again or failed |
| Throttle.GrantsPerSecond | packages/go/sender/redis_throttler.go:37-59 | at most limit grants share a host and second, for any interleaving whose increments land within a second of their stamp |
| Throttle.AnySecond | packages/go/sender/redis_throttler.go:85-90 | at most twice the limit carry stamps in any one-second span |
| Throttle.LimitExactlyWhen | packages/go/sender/redis_throttler.go:44-55 | the limit holds for all runs if and only if increments cannot land more than a second late |
| Auth.Service.RequestOtp | packages/go/auth/service.go:112-168 | one request at a time: exactly when a code is refused, and what is saved or rolled back, keeping the invariants of users and codes |
| Auth.Service.VerifyOtp | packages/go/auth/service.go:170-209 | one request at a time: a login succeeds exactly with the current code in its time, uses it up, opens a session only for approved users, and touches nobody else |
| Auth.Service.ApproveUser | packages/go/auth/service.go:230-239 | one request at a time: approval makes the user with this id approved and active, and changes nothing else about anybody |
| Auth.Service.Authenticate | packages/go/auth/service.go:211-224 | a token finds its approved user and nobody else |
| Auth.SaveKeeps | packages/go/auth/service.go:241-272 | the save of a copy that is up to date keeps users active if and only if approved, their ids, and every approval |
| Auth.PolicyMeaning | packages/go/auth/service.go:241-272 | a new user is admin, approved and active if and only if its email is the configured one, and a user otherwise; whoever else logs in keeps role and approval |
| AuthConcurrency.RunSound | packages/go/auth/service.go:112-239 | in every interleaving a request holds the copy that its kind makes of the row it read |
| AuthConcurrency.ReadsAsAlone | packages/go/auth/service.go:112-200 | a request that overlaps others is refused, or holds the row to save, exactly as one that runs alone |
| AuthConcurrency.ApprovalKeptExactlyWhen | packages/go/auth/postgres_repository.go:70-161 | no user vanishes or loses approval in any run if and only if no save but an approval may overwrite a row that changed since it was read |
| AuthConcurrency.CodesOnceExactlyWhen | packages/go/auth/service.go:170-239 | between two logins of a user a code was saved in every run if and only if no login and no approval may do so |
| AuthConcurrency.LoginsBoundedExactlyWhen | packages/go/auth/service.go:170-239 | since the last code of a user there are never more logins than requests in flight, in every run, if and only if no approval may do so |
| AuthConcurrency.CodeReused | packages/go/auth/service.go:230-239 | approvals that overlap logins: one code and any number of logins, two requests at a time |
| AuthConcurrency.CodesSpacedExactlyWhen | packages/go/auth/service.go:132-137 | outside dev mode the codes of one email are the rate limit apart in every run if and only if no save at all may do so |
| AuthConcurrency.CodeBetweenLoginsInRuns | packages/go/auth/service.go:170-209 | any two logins of a user in such a run, neighbours or not, have a code saved between them |
| AuthConcurrency.CodesApartInRuns | packages/go/auth/service.go:135-137 | any two codes of a user in such a run, neighbours or not, are the rate limit apart |
| AuthConcurrency.SessionHoldsInRuns | packages/go/auth/service.go:211-224 | whatever the requests do after it, a session finds the same user, still approved, until its token expires, as long as no save but an approval is stale |
| Base64.RoundTrip | packages/go/auth/service.go:351-357 | token parts survive their encoding and contain no dot |
| Base64.BitsInOrder | packages/go/auth/service.go:349-361 | the bits of each group are spread over its letters most significant first, filled up with zeros |
| Base64.AlphabetMeaning | packages/go/auth/service.go:349-361 | the letters are those of the URL alphabet |
| Token.TokenRoundTrip | packages/go/auth/service.go:297-343 | a signed token gives its claims back exactly while the clock is short of "exp" |
| Token.SessionLasts | packages/go/auth/service.go:303-311 | a session lasts its time to live, less the fraction of the last second |
| Token.AcceptedMeaning | packages/go/auth/service.go:318-343 | only three parts with a matching signature, live claims and the right issuer and audience are accepted |
| CreativeSync.Syncer.Sync | packages/go/inventory/service.go:1355-1448 | a sync completes if and only if the config is active, its lock is free, the log is written, the feed is read, every entry is valid and every write is answered; after a completed sync as many creatives are upserted as fetched; a failed one has upserted a prefix of the feed; every path that got the lock releases it |
| CreativeSync.NormalizedMeaning | packages/go/inventory/service.go:1469-1508 | an entry is taken with its texts trimmed and defaults filled in if it is valid then, not at all if not, and a second pass changes nothing |
| CreativeSync.SyncMeaning | packages/go/inventory/postgres_repository.go:1380-1501 | the creatives of a config are synced if the feed has them and stale if not, show the last entry of the feed, and those of other configs stay unless the feed names them |
| CreativeSync.SyncTwice | packages/go/inventory/postgres_repository.go:1380-1501 | repeating a sync with the same feed changes nothing |
| CreativeSync.FailureMarksNothing | packages/go/inventory/service.go:1393-1431 | a failed sync marks nothing stale, unless the answer of the stale step itself was lost |

## Left out

- The admin frontend, the service worker, the SDK script, HTTP handlers, configuration, logging and deployment: input, output and plumbing.
- SQL text, JSON and string escaping: queries are predicates and filters over rows; the JSON codec of tokens is a pair of functions with a stated round trip.
- Cryptography and randomness: keyed hashes, signatures and random ids are parameters; web-push encryption, header framing and VAPID keys are not part of this model.
- The timezone database: a zone is any pair of offset and instant functions; due windows and coverage are stated for fixed offsets.
- IEEE rounding: amounts and ratios are reals, so NaN and overflow do not occur; counters and totals are unbounded integers instead of 64-bit ones.
- Letter case and Unicode: `Text.Lower` lowers A to Z only, which `Targeting.CaseAgreesExactlyWhen` justifies for ASCII values, and strings are sequences of characters rather than bytes.
- CRUD calls and their validators, user-agent parsing, origin checks, cost CSV import, postback ingest, the event-id store and `weightedDay`: mostly claims of a single branch.
- Report queries that fail, and group names: a store error of Performance is returned as it is, and a group is one of the five valid ones.
- Rotation over several campaigns at once: the code looks up seen creatives for the campaign of the first creative only, so rotation is stated for calls that find the creatives of one campaign.
- ClickHouse delay between a write and the reads after it: an exposure is seen by the next call.
- Delays between attempts: the retry topics are named for a minute, ten minutes and an hour, but the consumer reads all of them at once and nothing waits, so the model has no delay either.
- Crash recovery: a run whose scheduler stops, or whose insert cannot be read back, stays pending for good, and a task whose worker dies is lost; both are steps of the model, but the code has nothing that repairs them.
- Scheduled runs never enqueue a launch again, and `SchedulerPool.AtMostOnce` is about those; `EnqueueRuns` is about launches that are.
- Advisory locks of the sync are taken per database session while the code uses a connection pool, so a release may reach a session that does not hold the lock: the model counts attempts to release.
- Caps.CapStore.Allow: the commands of one call run at the instant it read its clock; `CapConcurrency` lets them run at any time but without expiry.
- CapConcurrency.OvershootBound: limits are fixed and counters do not expire during the run, as the bound needs; `CapDays` lets them expire.
- CapDays.DayGrantsBounded: grants up to the end of the UTC day; calls still under way then may add theirs.
- PayloadDays.RotatedAndDayCapped: counts the payloads up to the last cap command of the UTC day, and those recorded after it before another command runs.
- CapRuns.DailyCapWhileCounterLives: states the bound for the counter that the first call of the day created.
- PayloadCaps.ShownWithinDailyCap: counts the payloads whose cap check falls on the UTC day of the key, of calls one after the other; the creatives it counts carry one cap for it.
- PayloadConcurrency.PayloadsWithinCap: limits are fixed and counters do not expire during the run; the list that a call tries is any list. `PayloadDays` lets counters expire.
- PayloadAlone.CallAlone: all stores are configured, and no counter expires during the call.
- Targeting.MatchImpliesAudience: excludes languages with white space directly before their first dash, for which it is false.
- Rotation.FirstServedDistinct: lets every orphaned exposure cost one payload, because the code records the exposure before the decision.
- RotationConcurrency.DistinctExactlyWhen: its "only if" is for creatives without caps, since caps may keep a creative from coming again.
- Enqueue.Launches.EnqueueAudience: lets the snapshot stand still while it is paged.
- Schedule.EnabledDayRunsExactlyWhen: schedules and timezones stay the same over the ticks.
- SchedulerPool.AtMostOnce: gives every subscription one fixed timezone and one row, and treats launch creation as one step per process.
- Pipeline.SlotPushesBounded: an uncommitted record that is handed out again counts once more, because nothing in the code recognises it. It ends at the push: a trigger can be asked for its payload any number of times while it lives, so what bounds the payloads of a slot are caps and rotation alone.
- Auth.Service.RequestOtp: one request at a time; `AuthConcurrency` lets reads and saves interleave. A save is one atomic statement there, and the random id of a new user is one that no row has.
- AuthConcurrency.CodesSpacedExactlyWhen: instants keep their nanoseconds, where the database keeps microseconds.
- Performance.FilteredSpendExactlyWhen: takes one metric row per key, as the grouping of the metric query gives it.
- Resp.BulkReplyRoundTrip: lengths up to two below the largest int; longer ones bring the client down.
- Resp.Reader.ReadResponse: a bulk size is not bounded by memory, and the connection is a sequence of bytes that ends.
- Throttle.Throttler.Try: the wait between rounds and its cancellation are not modelled; a caller may start its next round at any time.
- CreativeSync.SyncMeaning: creatives of a config live under its campaign and provider, which no operation changes; timestamps are not modelled.
