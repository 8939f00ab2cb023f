# A verified model of the Rwanda API platform's stateful core

The platform is a NestJS backend over PostgreSQL and Redis. This project models the parts of it that carry
state, recursion or arithmetic and proves properties of every input, every run or every reachable state. Check it
with `dafny verify dfyconfig.toml`.

## Reading guide

**Administrative hierarchy.** `FlatHierarchy` says what tree a list of flat rows describes; `FlatHierarchyBuilder`
builds it with mutable nodes, a province map and in-place child lists, as the seeder does; `FlatRoundTrip` writes a
hierarchy as rows and reads it back. `NestedHierarchy` reads the
nested form of the dataset. `LocationSeeder` walks the tree recursively and writes parent-pointer rows, villages
through a buffer of 1000, into a table whose unique index refuses a repeated code; `FlatSeeding` says which flat
datasets pass. `LocationGraph` says what forest a set of rows denotes, and `LocationGraphBuilder` is the
controller's code with its node map, linking loop, recursive in-place sort and level buckets. `LocationRoundTrip` and
`LocationPipeline` put the pieces together. The comparison of names (`localeCompare`) is a parameter, a total
preorder; generated ids are an injective function of the insertion number.

**Webhooks.** `WebhookProtocol` is a state machine over webhooks, deliveries, the job queue and the dead-letter queue.
`WebhookTiming` says when attempts start. `WebhookService` is the code that updates those tables step by step, proved to
take the machine's steps.
`WebhookSigning` covers the signature header; the keyed hash and number conversion are parameters.

**Rate limits.** `RateLimit` has the counters with their expiry (a counter is live up to and including the millisecond
it expires in) and counts over request traces; `HourlyLimit` and `ScopedLimit` prove what is admitted, and
`RateLimitService` is the service that increments the counters. The service's clock and the store's are read separately.

**Billing.** `Billing` defines all steps that users, administrators, scheduled jobs and the guard take on
subscriptions, invoices and payment requests. `BillingLedger`, `BillingRules` and `BillingExpiry` prove what runs of them keep,
`BillingKeys` and `BillingDecisions` what single steps do to keys and rows;
`BillingService` has the methods that load, change and save rows, with rollback. `Calendar` is the date arithmetic of
ECMA-262 that periods use.

**Tokens.** `Tokens`, `TokenHistory` and `TokenService` do the same for refresh tokens and one-time action tokens;
`Credentials` says which logins succeed after a run.

**Arithmetic.** `UsageMetering` (running averages rounded at every update), `Payroll`, `Phone`.

A request, job or transaction is one atomic step. Clocks, HTTP outcomes and query results that the database may
choose freely are arguments. Queries that may return any matching row appear as an argument that must be one of the
possible answers. Operations that throw are results with an error and no change of state.

## What the proofs found

- The nightly expiry job writes a notification without a user. The shipped schema makes that column NOT NULL
  (src/database/migrations/1730000000005-BillingEnhancements.ts:62), so the first insert fails and the run ends after expiring one
  subscription, without an audit row. `BillingExpiry.NightlyMatchesHourly` says exactly when it agrees with the hourly
  job: if the table accepts such rows, or at most one row is due. The schema is the field `userRequired`.
- Administrators can give a developer a second active subscription; `BillingRules.Clashes` is the exact condition, and
  `BillingExpiry.ApprovalMayDouble` a run that reaches it. Cancelling, subscribing and the guard each look at one active
  subscription only: `BillingRules.CancelLeavesNone`, `BillingRules.SubscribeLeavesOneIff` and
  `BillingExpiry.GuardAdmitsCurrent` say exactly when that is enough. After that run cancelling and subscribing leave an
  old one active (`BillingExpiry.OldOneMayStay`), and the guard refuses a developer while a subscription still runs
  (`BillingExpiry.GuardMayRefuseRunning`).
- A delivery whose job runs while its webhook is inactive keeps status PENDING or FAILED for good. This is the only way
  to be left unfinished (`WebhookProtocol.UnfinishedHasJobUnlessDropped`, and `WebhookProtocol.JobMayBeDropped` for a run).
- The longest retry delay, 14,400,000 ms, is never used with the default five attempts (`WebhookProtocol.RetryWaitsItsDelay`).
- Twice the hourly limit really is admitted within two milliseconds around the turn of an hour
  (`HourlyLimit.TwiceTheLimitIsReached`). A scope admits at most one less than twice its limit in a span of its window
  (`ScopedLimit.ScopeSpanBelowTwice`), and that much (`ScopedLimit.ScopeBoundIsReached`).
- A request whose key is built at the end of an hour and that reaches the store only after the hour's counter has expired
  is counted from one again (`HourlyLimit.HourAdmitsExactly` has the exact condition, `HourlyLimit.LateRequestIsRecounted`
  and `HourlyLimit.LateRequestBreaksSpan` traces). Reset times are computed before the store is asked: the hourly one has passed already when the hour turned
  in between (`HourlyLimit.HourlyResetOpensFreshKey`), and a scoped one is early when the counter was opened in a later
  second (`ScopedLimit.ScopedResetEarlyIff`, `ScopedLimit.ScopedResetMayBeEarly`).
- `levelCounts` and the total count all active units. They describe the returned tree exactly when every parent chain
  reaches a province (`LocationGraph.LevelCountIsTreesIff`, `LocationGraph.TotalIsTreesIff`); dangling and cyclic units are
  counted and not shown.
- The unique index on codes makes seeding fail, and roll back, exactly when two nodes have the same code
  (`LocationSeeder.SeedTransaction.Run`). Flat rows may use a code at one place only (`FlatSeeding.FlatRowsSeedIff`), although
  folding them keeps equal codes under different parents apart; two rows that give one village code in different cells
  are refused (`FlatSeeding.VillageCodeReusedRefused`).
- The walk drops what hangs below a village and the count before seeding does not (`LocationRoundTrip.CountsAgreeIff`),
  but neither reader of the dataset builds anything there: for what the seeder receives, flat or nested, the counts
  always agree (`LocationPipeline.FlatRowsRoundTrip`, `NestedHierarchy.NestedRoundTrip`).
- A raise of more than two francs always shows in the net salary (`Payroll.RaiseShows`); two francs can vanish
  (`Payroll.TwoFrancsMayVanish`) and less can cost money (`Payroll.SmallRaiseMayCost`).
- "Already verified" is never the answer to a valid verification token unless the administrator seed marked the member
  verified while a token was waiting (`TokenHistory.SettledUnlessSeeded`, `TokenHistory.AlreadyVerifiedIsReachable`).
  Password-reset tokens, unlike verification tokens, accumulate and outlive a reset (`TokenHistory.ResetTokensAccumulate`).
- An extension keeps a period in order exactly while it does not take back the whole period (`BillingRules.PeriodsStayOrdered`,
  and `BillingExpiry.ExtensionMayEmptyPeriod` for a run with an extension by -31 days, which nothing refuses);
  it may reactivate an expired subscription whose new end is still in the past
  (`BillingExpiry.ExtendedMayStillBeDue`, `BillingExpiry.ExtensionMayComeTooLate`). Expiry leaves the tier of the
  developer's keys as it was (`BillingRules.ExpiryKeepsTiers`), so that it outlives the subscription
  (`BillingExpiry.TierMayOutliveSubscription`).
- Verification of a signature throws instead of giving a verdict exactly for fresh headers whose signature has the
  right length and a character outside ASCII (`WebhookSigning.VerifyThrowsIff`, `WebhookSigning.AccentedSignatureThrows`).

## Model

| member | source | states |
|---|---|---|
| `FlatHierarchy.OutlineReads` | src/database/seeds/location-seeder.ts:164-251 | the fold over the rows finds, at every path, exactly the distinct child codes of the complete rows in first-seen order, with first-seen names |
| `FlatHierarchy.LeavesAreCompleteRows` | src/database/seeds/location-seeder.ts:164-251 | the leaf paths of the tree are exactly the five-code paths of the complete rows, each once, grouped by prefix in first-seen order |
| `FlatHierarchy.AppendedRowsChangeNothingIffSeen` | src/database/seeds/location-seeder.ts:164-251 | appending rows leaves the tree unchanged if and only if every appended row is incomplete or repeats a known path |
| `FlatHierarchyBuilder.FindOrPush` | src/database/seeds/location-seeder.ts:208-248 | finding or pushing a child in a mutable child list adds exactly that child to the outline and keeps all other nodes |
| `FlatHierarchyBuilder.AddRecord` | src/database/seeds/location-seeder.ts:169-249 | one complete row, with up to five new mutable nodes, has exactly the effect of its path on the outline |
| `FlatHierarchyBuilder.BuildTreeFromFlatRecords` | src/database/seeds/location-seeder.ts:164-251 | the heap structure returned for any row list is the tree those rows describe |
| `FlatRoundTrip.FlatRowsReadBack` | src/database/seeds/location-seeder.ts:164-251 | a hierarchy that goes down to villages everywhere, written as one row of ten named fields for each village with any white space around them, is read back as it was |
| `FlatSeeding.FlatRowsSeedIff` | src/database/migrations/1730000000000-InitialSchema.ts:67-69 | the hierarchy of flat rows repeats no code, and so can be seeded, if and only if its complete rows use every code at one depth and below one parent path only |
| `FlatSeeding.VillageCodeReusedRefused` | src/database/seeds/location-seeder.ts:240-248 | two complete rows with one village code in different cells are enough to make the seeding fail |
| `NestedHierarchy.NormalizedLabels` | src/database/seeds/location-seeder.ts:108-162 | a nested dataset is accepted if and only if every node reached has a name and a code; the tree has exactly those labels in that order, and an error names the first incomplete node |
| `NestedHierarchy.NormalizedIsProper` | src/database/seeds/location-seeder.ts:124-162 | an accepted tree goes down one level at a time, has trimmed non-empty labels and nothing below villages |
| `NestedHierarchy.KeyedListDecides` | src/database/seeds/location-seeder.ts:108-122 | a list under the key for the level is read whatever else the node holds |
| `NestedHierarchy.ReadsBack` | src/database/seeds/location-seeder.ts:108-162 | every proper tree, written with level-specific or generic child keys, is read back as it was |
| `NestedHierarchy.NestedRoundTrip` | src/database/seeds/location-seeder.ts:253-274 | an accepted nested dataset survives seeding and rebuilding up to sibling order, with the same level counts; exactly the roots put at another level than province are missing from the forest |
| `NestedHierarchy.NestedSeedsIff` | src/database/migrations/1730000000000-InitialSchema.ts:67-69 | an accepted nested dataset repeats no code if and only if no two nodes reached have the same code |
| `LocationSeeder.CountNodesByLevel` | src/database/seeds/location-seeder.ts:276-286 | the recursive count adds to each counter the number of nodes of that level |
| `LocationSeeder.SeedTransaction.Save` | src/database/migrations/1730000000000-InitialSchema.ts:67-69 | an insert is refused, without effect, if and only if the code is stored already |
| `LocationSeeder.SeedTransaction.FlushVillageBatch` | src/database/seeds/location-seeder.ts:330-344 | a flush stores every waiting village, each under its parent, and empties the buffer, unless a code is stored already; then a visited code is repeated |
| `LocationSeeder.SeedTransaction.ProcessNodesRecursively` | src/database/seeds/location-seeder.ts:369-414 | the walk visits exactly the nodes of its subtrees in preorder, keeps the buffer below 1000 and never stores a row before its parent, or stops at a repeated code |
| `LocationSeeder.SeedTransaction.Run` | src/database/seeds/location-seeder.ts:289-367 | the transaction succeeds if and only if the hierarchy repeats no code: then each tree node has exactly one row pointing at its tree parent stored earlier, the buffer is empty, and every flush but the last is of exactly 1000; otherwise the table is as it was |
| `LocationSeeder.RepeatedCodeRefused` | src/modules/locations/entities/administrative-unit.entity.ts:43-45 | two roots with the same trimmed code are enough to make the seeding fail |
| `LocationGraph.ForestHoldsRootedUnits` | src/modules/auth/master-core-snapshot.controller.ts:276-325 | for any units with distinct ids, dangling and cyclic parents included, the forest holds exactly the units whose parent chain reaches a parentless province, each once under its parent |
| `LocationGraphBuilder.LinkUnit` | src/modules/auth/master-core-snapshot.controller.ts:291-306 | one round of the linking loop appends the unit to its parent's list, or to the roots, or nowhere, and changes nothing else |
| `LocationGraphBuilder.SortLocationTreeChildren` | src/modules/auth/master-core-snapshot.controller.ts:349-354 | the recursive in-place sort terminates from any root whatever cycles other units form, and sorts everything below |
| `LocationGraphBuilder.PartitionUnitsIntoLevelBuckets` | src/modules/auth/master-core-snapshot.controller.ts:327-347 | each level's bucket is that level's units, sorted by name |
| `LocationGraphBuilder.BucketByName` | src/modules/auth/master-core-snapshot.controller.ts:327-347 | a bucket holds exactly the units of its level, in order of their names |
| `LocationGraphBuilder.BuildLocationTreeGraph` | src/modules/auth/master-core-snapshot.controller.ts:276-325 | the mutable nodes returned are the forest of the units, and each level count is the number of units of the level |
| `LocationGraph.LevelCountIsTreesIff` | src/modules/auth/master-core-snapshot.controller.ts:314-324 | a level count is the number of units of that level in the returned tree if and only if each of them has a parent chain to a province; it is never lower |
| `LocationGraph.TotalIsTreesIff` | src/modules/auth/master-core-snapshot.controller.ts:314-324 | the total is the number of units in the returned tree if and only if every parent chain reaches a province |
| `LocationGraph.DanglingUnitOnlyCounted` | src/modules/auth/master-core-snapshot.controller.ts:297-305 | a unit whose parent was not read is counted and not shown |
| `LocationGraph.CyclicUnitsOnlyCounted` | src/modules/auth/master-core-snapshot.controller.ts:297-305 | two units that are each other's parent are counted and not shown |
| `LocationRoundTrip.RebuildLabelled` | src/modules/auth/master-core-snapshot.controller.ts:276-325 | rebuilding from the rows of a forest, in any order, gives its province-rooted trees back up to sibling order |
| `LocationRoundTrip.SeedThenRebuild` | src/database/seeds/location-seeder.ts:289-414 | seeding any hierarchy and rebuilding it from its rows gives its province-rooted trees back up to sibling order, siblings sorted by name, as many rows as nodes and as the five counts together; the counts agree with those made before seeding if and only if nothing hangs below a village |
| `LocationRoundTrip.CountsAgreeIff` | src/database/seeds/location-seeder.ts:276-286 | what is counted before seeding is what is kept, at every level, if and only if nothing hangs below a village |
| `LocationPipeline.SeedFlatRows` | src/database/seeds/location-seeder.ts:288-367 | seeding flat rows succeeds if and only if they use every code at one place; then the graph rebuilt from the new table, read in any order, is the hierarchy of the rows, with its counts; otherwise the table is as it was |
| `LocationPipeline.FlatRowsRoundTrip` | src/database/seeds/location-seeder.ts:253-267 | a flat dataset, folded, seeded and rebuilt, comes back as the hierarchy its rows describe, nothing dropped |
| `WebhookProtocol.ReachableInvariant` | src/modules/webhooks/webhook-delivery.processor.ts:38-127 | in every reachable state each delivery has at most one job, a job's delivery has attempts left, and status, attempt count, retry time and dead letters fit together |
| `WebhookProtocol.FinishedHasNoJob` | src/modules/webhooks/webhook-delivery.processor.ts:38-58 | a DELIVERED or DLQ delivery never has a queued job |
| `WebhookProtocol.FinishedStaysFinished` | src/modules/webhooks/webhook-delivery.processor.ts:38-127 | no step changes a DELIVERED or DLQ delivery, although the processor never looks at the status |
| `WebhookProtocol.HistoryDecidesStatus` | src/modules/webhooks/webhook-delivery.processor.ts:78-110 | status and attempt count are a function of the results of the attempts made; only the last can have succeeded |
| `WebhookProtocol.UnfinishedHasJobUnlessDropped` | src/modules/webhooks/webhook-delivery.processor.ts:40-50 | a delivery has a job if and only if it is unfinished and no job of it was taken while the webhook was inactive |
| `WebhookProtocol.JobMayBeDropped` | src/modules/webhooks/webhook-delivery.processor.ts:44-46 | a run that leaves a delivery PENDING without a job |
| `WebhookProtocol.DrainedMeansFinished` | src/modules/webhooks/webhook-delivery.processor.ts:78-126 | with an empty queue a delivery is DELIVERED or DLQ if and only if it was not dropped |
| `WebhookProtocol.OneDeadLetterEach` | src/modules/webhooks/webhook-delivery.processor.ts:97-106 | a delivery has one dead letter if five attempts were made and all failed, and none otherwise |
| `WebhookProtocol.WorkersFinish` | src/modules/webhooks/webhook-delivery.processor.ts:108-121 | without new requests, every job taken uses up some of a bounded potential, so the workers come to an end |
| `WebhookProtocol.ProcessLowersPotential` | src/modules/webhooks/webhook-delivery.processor.ts:60-121 | processing a job strictly lowers the attempts left over all queued jobs |
| `WebhookProtocol.QueueCanDrain` | src/modules/webhooks/webhook-delivery.processor.ts:38-127 | from every reachable state worker runs alone can empty the queue, whatever each single request comes to |
| `WebhookProtocol.MaximalRunDrains` | src/modules/webhooks/webhook-delivery.processor.ts:38-127 | workers that take jobs as long as they can leave an empty queue |
| `WebhookProtocol.RetryWaitsItsDelay` | src/modules/webhooks/webhook-delivery.processor.ts:108-121 | a retry never starts before its announced delay, the delay index stays in range, and the last delay is never used |
| `WebhookProtocol.WaitingIsBounded` | src/modules/webhooks/webhook.service.ts:30-32 | the announced delays of a delivery add up to at most 4,860,000 ms, and to exactly that for one in the dead-letter queue |
| `WebhookProtocol.AttemptRecorded` | src/modules/webhooks/webhook-delivery.processor.ts:60-127 | an attempt delivers exactly for a status from 200 to 299, and records its time, the status and what went wrong, cut to 500 characters |
| `WebhookProtocol.OwnersOnly` | src/modules/webhooks/webhook.service.ts:118-133 | only the owner changes, removes or replays; a delivery disappears if and only if its webhook does |
| `WebhookProtocol.ReplaySays` | src/modules/webhooks/webhook.service.ts:221-249 | a replay's payload names the original and the time and keeps every other field |
| `WebhookTiming.AttemptsAreSpaced` | src/modules/webhooks/webhook-delivery.processor.ts:108-121 | in every run a retry time is the last failure's plus 60,000, 300,000, 900,000 or 3,600,000 ms in this order, the job is ready exactly so long after the last attempt's end, and no attempt starts earlier |
| `WebhookTiming.JobReadyWhenAnnounced` | src/modules/webhooks/webhook-delivery.processor.ts:111-121 | in every run a FAILED delivery's job is ready at its retry time plus the time between the two clock readings |
| `WebhookTiming.PromptStarts` | src/modules/webhooks/webhook-delivery.processor.ts:108-121 | where workers take each job as it becomes ready, each attempt starts exactly its wait after the one before |
| `WebhookTiming.PromptWorkersFinishInTime` | src/modules/webhooks/webhook-delivery.processor.ts:38-127 | then an undropped delivery is finished, or its next attempt starts, within 4,860,000 ms of its creation and the time its attempts take |
| `WebhookService.Webhooks.EnqueueDelivery` | src/modules/webhooks/webhook.service.ts:153-173 | stores one PENDING delivery with a fresh id and queues exactly one job for it |
| `WebhookService.Webhooks.DispatchEventForDeveloper` | src/modules/webhooks/webhook.service.ts:175-194 | one new delivery and job for exactly the owner's active webhooks that subscribe to the event or to all events |
| `WebhookService.EnqueueEachFacts` | src/modules/webhooks/webhook.service.ts:186-193 | the fan-out adds one delivery and one job per webhook and leaves earlier deliveries and jobs alone |
| `WebhookService.Webhooks.RetryDelivery` | src/modules/webhooks/webhook.service.ts:221-249 | replay makes a new delivery whose payload adds which delivery it repeats and when; the original is not changed, and only its owner can ask |
| `WebhookService.Webhooks.Update` | src/modules/webhooks/webhook.service.ts:118-126 | only the owner can change a webhook, and only the given fields change |
| `WebhookService.Webhooks.ProcessJob` | src/modules/webhooks/webhook-delivery.processor.ts:38-127 | the field-by-field attempt, retry and dead-letter code takes exactly the protocol's step |
| `WebhookSigning.ParseBuilt` | src/common/utils/webhook-signing.util.ts:23-53 | parsing a built header gives back its timestamp and digest, for every secret, body and integer timestamp up to 2^53 either way |
| `WebhookSigning.VerifyAccepts` | src/common/utils/webhook-signing.util.ts:55-87 | a header is accepted if and only if it parses, is within tolerance and carries the digest of its own timestamp |
| `WebhookSigning.VerifyThrowsIff` | src/common/utils/webhook-signing.util.ts:66-82 | verification throws if and only if the header parses, is within tolerance, and its signature has 64 characters not all of which are ASCII |
| `WebhookSigning.AccentedSignatureThrows` | src/common/utils/webhook-signing.util.ts:74-82 | a header that makes it throw |
| `WebhookSigning.BuiltHeaderAccepted` | src/common/utils/webhook-signing.util.ts:23-87 | the header the service builds is accepted if and only if the clock is within tolerance, in either direction |
| `WebhookSigning.SignatureCovers` | src/common/utils/webhook-signing.util.ts:10-87 | a header that carries the digest for one secret, time and body is accepted for a secret, t field and body if and only if all three are the same and the clock is within tolerance, where the inputs at hand have distinct digests |
| `WebhookSigning.BuiltHeaderCovers` | src/common/utils/webhook-signing.util.ts:23-87 | a built header is accepted for its own body and secret within tolerance, and for no other |
| `WebhookSigning.PaddingIgnored` | src/common/utils/webhook-signing.util.ts:32-53 | white space around a field does not change the parse |
| `WebhookSigning.UnrelatedFieldIgnored` | src/common/utils/webhook-signing.util.ts:32-53 | a field with another key, or none, does not change the parse wherever it stands |
| `WebhookSigning.OrderIgnored` | src/common/utils/webhook-signing.util.ts:32-53 | fields can come in any order, as long as neither key that matters comes twice |
| `HourlyLimit.HourlyCounter` | src/common/rate-limit/rate-limit.service.ts:19-25 | the expiring counter of an (API key, hour) equals the unbounded count of its requests if and only if all of them reach the store within an hour of the first |
| `HourlyLimit.HourAdmitsExactly` | src/common/rate-limit/rate-limit.service.ts:120-185 | of n requests in a clock-aligned hour at least min(n, max) are admitted, on every trace of one tier, and exactly so many if and only if max is 0, n is at most max, or all reach the store within an hour of the first |
| `HourlyLimit.PromptHourAdmitsExactly` | src/common/rate-limit/rate-limit.service.ts:120-185 | exactly min(n, max), where requests are counted before their hour is over |
| `HourlyLimit.FirstOfHour` | src/common/rate-limit/rate-limit.service.ts:120-171 | a request is admitted if, and on a counter that did not expire only if, it is among the first max of its hour |
| `HourlyLimit.SpanAdmitsAtMostTwice` | src/common/rate-limit/rate-limit.service.ts:120-185 | any 3600 seconds admit at most twice the limit, if the requests of either hour reach the store within an hour of its first |
| `HourlyLimit.TwiceTheLimitIsReached` | src/common/rate-limit/rate-limit.service.ts:120-185 | that bound is reached, for every limit |
| `HourlyLimit.LateRequestIsRecounted` | src/common/rate-limit/rate-limit.service.ts:151-161 | a trace in which one request more than the limit is admitted in an hour |
| `HourlyLimit.LateRequestBreaksSpan` | src/common/rate-limit/rate-limit.service.ts:151-161 | a trace in which otherwise more than twice the limit is admitted in 3600 seconds |
| `RateLimit.HourlyKeysDiffer` | src/common/rate-limit/rate-limit.service.ts:60-63 | a counter key names one API key and one hour |
| `RateLimit.KindsDiffer` | src/common/rate-limit/rate-limit.service.ts:60-75 | hourly and scoped counters never share a key |
| `ScopedLimit.LivesAdmitExactly` | src/common/rate-limit/rate-limit.service.ts:65-118 | within any stretch of expiries no longer than the window exactly min(n, max) of n scoped requests are admitted |
| `ScopedLimit.FirstOfLife` | src/common/rate-limit/rate-limit.service.ts:65-104 | a scoped request is admitted if and only if it is among the first max counted on its counter |
| `ScopedLimit.LivesApart` | src/common/rate-limit/rate-limit.service.ts:65-104 | a later counter of a scope expires more than a window after an earlier one, so lifetimes never overlap |
| `ScopedLimit.ScopeSpanBelowTwice` | src/common/rate-limit/rate-limit.service.ts:65-118 | any span of the window's length, both ends included, admits at most 2 * max - 1 requests of a scope with a positive limit |
| `ScopedLimit.ScopeBoundIsReached` | src/common/rate-limit/rate-limit.service.ts:65-118 | a trace that reaches that bound, for every positive limit and window |
| `HourlyLimit.HourlyResetOpensFreshKey` | src/common/rate-limit/rate-limit.service.ts:54-63 | the reported hourly reset is the first instant of a new key and no earlier |
| `ScopedLimit.ScopedResetEarlyIff` | src/common/rate-limit/rate-limit.service.ts:65-118 | the reported scoped reset is before the counter's expiry, to the second, if and only if the counter was opened in a later second than the service's reading; it is at most one window after it |
| `ScopedLimit.ScopedResetMayBeEarly` | src/common/rate-limit/rate-limit.service.ts:70-96 | a request whose reset is early |
| `RateLimitService.Limiter.RunScript` | src/common/rate-limit/rate-limit.service.ts:19-25 | the script increments, sets the expiry on a first hit only, and touches no other key |
| `RateLimitService.Limiter.CheckRateLimit` | src/common/rate-limit/rate-limit.service.ts:120-185 | exceeded means the count has passed the limit; remaining and count add up to the limit; unlimited tiers count nothing; without an answer from the store the request is let through uncounted; the reset lies behind the key's time if and only if the hour turned between the two clock readings |
| `RateLimitService.Limiter.CheckScopedRateLimit` | src/common/rate-limit/rate-limit.service.ts:65-118 | the same for a scope with its own limit and window; the reset of a new counter is early if and only if a second turned before the store counted |
| `RateLimitService.TierDecidesHour` | src/common/rate-limit/rate-limit.constants.ts:13-18 | an hour admits exactly min(n, 10000) requests of a PRO key and min(n, 100) of any other but an ENTERPRISE one, which alone is unlimited |
| `BillingLedger.PaymentsAreConserved` | src/modules/billing/billing-admin.service.ts:205-445 | in every run approved requests, their invoices, audit rows and notifications correspond one to one in order, rejected requests have no invoice, and invoiced money equals approved money |
| `BillingLedger.ApprovedIffInvoicedOnce` | src/modules/billing/billing-admin.service.ts:220-296 | a request is approved if and only if it has an approval invoice, and then exactly one, of its amount |
| `BillingLedger.TrailCountsDecisions` | src/modules/billing/billing-admin.service.ts:313-345 | audit rows and notifications of approvals and rejections are as many as the requests so decided |
| `BillingLedger.StepKeepsLedger` | src/modules/billing/billing-admin.service.ts:205-445 | every billing step, of users, administrators, schedules and the guard, keeps the ledger |
| `BillingRules.StampsInEveryRun` | src/modules/admin/admin.service.ts:187-219 | in every run CANCELLED subscriptions have their cancellation time, PAID invoices their payment time, decided requests who decided them and rejected ones a non-blank reason |
| `BillingRules.OnlyADecisionChangesARequest` | src/modules/billing/billing-admin.service.ts:220-236 | a request keeps its payer and terms; only its own decision, while pending, changes it, and records who decided when |
| `BillingRules.DecidedForever` | src/modules/billing/billing-admin.service.ts:228-232 | a decided request never changes again in any run |
| `BillingRules.ApprovalActivates` | src/modules/billing/billing-admin.service.ts:238-296 | an approval leaves the paid subscription ACTIVE from now for exactly the length of the current month, invoiced to its last day |
| `BillingDecisions.DecisionDecides` | src/modules/billing/billing-admin.service.ts:494-669 | approving, refusing, cancelling and expiring set exactly the one row's status, with period or time, and one audit row; what is not allowed changes nothing |
| `BillingDecisions.RejectionRejects` | src/modules/billing/billing-admin.service.ts:360-443 | a rejection needs a reason and a pending request; it rejects the subscription named and touches no other row and no key |
| `BillingDecisions.OverrideSets` | src/modules/admin/admin.service.ts:154-204 | an override sets plan, status and the plan's rate limit as asked and nothing else; the refused cases are stated |
| `BillingDecisions.InvoiceSet` | src/modules/admin/admin.service.ts:206-227 | a status is set on exactly one invoice, PAID with the time |
| `BillingRules.PeriodsStayOrdered` | src/modules/billing/billing-admin.service.ts:688-696 | a step keeps start before end if and only if it is not an extension that takes the end back to the start or before |
| `BillingExpiry.ExtendedMayStillBeDue` | src/modules/billing/billing-admin.service.ts:688-696 | an extended expired subscription is ACTIVE, and due at once if and only if its new end has passed |
| `BillingExpiry.ExtensionMayComeTooLate` | src/modules/billing/billing-admin.service.ts:688-696 | a run that reactivates a subscription whose end has passed |
| `BillingExpiry.ExtensionMayEmptyPeriod` | src/modules/billing/billing-admin.controller.ts:176 | a run with an extension by -31 days that leaves a period ending no later than it starts |
| `BillingRules.PeriodsInEveryRun` | src/modules/billing/billing.service.ts:113-124 | start is before end in every run whose extensions are not negative |
| `BillingRules.OneActiveUnlessClash` | src/modules/billing/billing-admin.service.ts:260-284 | from at most one ACTIVE subscription per developer, a step breaks that if and only if it activates a subscription while another is ACTIVE |
| `BillingRules.OneActiveThroughout` | src/modules/billing/billing.service.ts:100-137 | a whole run keeps at most one ACTIVE per developer if and only if none of its steps clashes |
| `BillingRules.OneActiveWithoutActivation` | src/modules/billing/billing.service.ts:100-174 | runs of subscribe, cancel, schedules, guard, the platform seed, and administrators' cancel, expire and reject keep at most one ACTIVE per developer |
| `BillingRules.SubscribeSwitches` | src/modules/billing/billing.service.ts:95-137 | subscribing puts a new subscription for exactly one month in the place of the ACTIVE one that the query found; which others are ACTIVE stays as it was; one invoice of the plan's price is written, paid if and only if it is free |
| `BillingRules.SubscribeLeavesOneIff` | src/modules/billing/billing.service.ts:95-123 | the new subscription is the developer's only ACTIVE one if and only if the query had found the only old one |
| `BillingRules.OneActiveIffNoneBesides` | src/modules/billing/billing.service.ts:100-105 | a query for one ACTIVE row never overlooks another if and only if no developer has two |
| `BillingRules.NoneBesidesWithoutActivation` | src/modules/billing/billing.service.ts:100-174 | without activation by administrators no query overlooks one, in any run |
| `BillingRules.KeysFollowThePlan` | src/modules/billing/billing.service.ts:139-142 | after subscribing, exactly the developer's active keys carry the tier of the new plan |
| `BillingKeys.ApprovalMovesKeys` | src/modules/billing/billing-admin.service.ts:298-315 | after an approval exactly the active keys of the payer's organization have the requested plan's tier, if member and plan are known; all other keys are as they were |
| `BillingKeys.ApprovalRaisesTier` | src/modules/billing/billing-admin.service.ts:205-358 | a run in which an approved payment moves a key to the paid tier |
| `BillingKeys.CancelMovesKeys` | src/modules/billing/billing.service.ts:176-189 | cancelling moves exactly the developer's active keys to FREE, if there is such a plan |
| `BillingKeys.PlanChangeMovesKeys` | src/modules/billing/billing-admin.service.ts:723-784 | a change of plan moves exactly the active keys of the subscription's developer to the plan it sets, an active one |
| `BillingKeys.OverrideMovesKeys` | src/modules/admin/admin.service.ts:154-204 | so does an override that names a plan; without one it leaves all keys |
| `BillingKeys.LettersByAlphabet` | src/modules/billing/billing.service.ts:87-93 | a plan's code is looked up with every small letter replaced by its capital and nothing else changed |
| `BillingKeys.SpellingIgnored` | src/modules/billing/billing.service.ts:87-93 | subscribing does not depend on how the letters of the code are written |
| `BillingRules.ExpiryKeepsTiers` | src/modules/billing/billing-cron.service.ts:33-82 | no form of expiry takes the tier from the keys |
| `BillingExpiry.TierMayOutliveSubscription` | src/modules/billing/billing-cron.service.ts:155-170 | a run that ends without an ACTIVE subscription and with every active key of the developer at the plan's tier |
| `BillingRules.CancelLeavesNone` | src/modules/billing/billing.service.ts:159-174 | cancelling succeeds if and only if there is an ACTIVE subscription; it ends the one found and nothing else, and leaves none if and only if that was the only one |
| `BillingExpiry.ApprovalMayDouble` | src/modules/billing/billing-admin.service.ts:494-518 | a run that ends with two ACTIVE subscriptions of one developer |
| `BillingExpiry.OldOneMayStay` | src/modules/billing/billing.service.ts:100-174 | after it, cancelling and subscribing succeed and leave the approved subscription ACTIVE |
| `BillingExpiry.GuardMayRefuseRunning` | src/modules/billing/guards/subscription.guard.ts:43-76 | after it, the guard refuses while the approved subscription still runs |
| `BillingExpiry.NightlyMatchesHourly` | src/modules/billing/billing-cron.service.ts:33-82 | the nightly loop leaves the same subscriptions as the hourly bulk update if and only if its notifications can be stored or at most one row is due |
| `BillingExpiry.NightlyMayStopEarly` | src/database/migrations/1730000000005-BillingEnhancements.ts:60-72 | a run to two due subscriptions of which the nightly job leaves one ACTIVE |
| `BillingExpiry.RefusedNightlyExpiresOne` | src/modules/billing/billing-cron.service.ts:45-62 | where the notification is refused, a nightly run expires exactly the first due row and leaves no trail |
| `BillingExpiry.NightlyTrail` | src/modules/billing/billing-cron.service.ts:45-75 | otherwise every expired row gets exactly one audit row and one notification, in order |
| `BillingExpiry.HourlyLeavesNoneDue` | src/modules/billing/billing-cron.service.ts:155-170 | after the hourly update no row is due, and repeating it changes nothing |
| `BillingExpiry.GuardAdmitsCurrent` | src/modules/billing/guards/subscription.guard.ts:43-76 | the guard admits only developers with an ACTIVE subscription that still runs; it refuses one of these if and only if their latest has ended and another runs; a refusal ends no running one, and leaves none ACTIVE if and only if the one found was the only one |
| `BillingService.Tables.ApprovePayment` | src/modules/billing/billing-admin.service.ts:205-358 | the save-by-save code does the approval as specified, key tiers included; a throw after the first save leaves no trace |
| `BillingService.Tables.RejectPayment` | src/modules/billing/billing-admin.service.ts:360-443 | the rejection as specified, blank reasons refused first |
| `BillingService.Tables.ApproveSubscription` | src/modules/billing/billing-admin.service.ts:494-543 | activates a pending subscription and nothing else |
| `BillingService.Tables.RejectSubscription` | src/modules/billing/billing-admin.service.ts:545-588 | rejects a pending subscription and nothing else |
| `BillingService.Tables.CancelSubscription` | src/modules/billing/billing-admin.service.ts:590-629 | cancels with a time stamp, whatever the status was |
| `BillingService.Tables.ExpireSubscription` | src/modules/billing/billing-admin.service.ts:631-669 | expires, whatever the status was |
| `BillingService.Tables.ExtendSubscription` | src/modules/billing/billing-admin.service.ts:671-721 | moves the end by whole days and reactivates an expired subscription |
| `BillingService.Tables.ChangeSubscriptionPlan` | src/modules/billing/billing-admin.service.ts:723-784 | moves a subscription to an active plan and the developer's active keys to its tier, and nothing else |
| `BillingService.Tables.OverrideSubscriptionTier` | src/modules/admin/admin.service.ts:154-204 | plan with key tiers, the plan's rate limit and status as requested; cancelling sets the time |
| `BillingService.Tables.UpdateInvoiceStatus` | src/modules/admin/admin.service.ts:206-227 | sets the status, and the payment time with PAID |
| `BillingService.Tables.Subscribe` | src/modules/billing/billing.service.ts:87-157 | gives up the old subscription, starts the new one, writes an invoice that is paid at once if and only if it is free, and moves the active keys to the plan's tier |
| `BillingService.Tables.Cancel` | src/modules/billing/billing.service.ts:159-189 | cancels the active subscription and downgrades the active keys if there is a free plan, or fails if there is no active subscription |
| `BillingService.Tables.SeedPlatformSubscription` | src/database/seeds/seed-master-admin.ts:61-83 | the seed adds an ACTIVE subscription for the platform if it has none of any status and the plan exists |
| `BillingService.Tables.CanActivate` | src/modules/billing/guards/subscription.guard.ts:26-81 | the guard's verdict and its one side effect; requests without a developer pass |
| `BillingService.Tables.ExpireSubscriptions` | src/modules/billing/billing-cron.service.ts:33-82 | the row-by-row loop, stopped where an insert fails |
| `BillingService.Tables.CheckExpiredSubscriptions` | src/modules/billing/billing-cron.service.ts:155-170 | the bulk update, and how many rows it affected |
| `Calendar.NextMonthLength` | src/modules/billing/billing.service.ts:113-115 | `setMonth(+1)` moves every instant by exactly the length of the month it is in, 28 to 31 days |
| `Calendar.SameDayIffItExists` | src/modules/billing/billing-admin.service.ts:265-267 | the period ends on the same day of the month if and only if the next month has that day; otherwise by how much it spills over |
| `Calendar.AddDaysLength` | src/modules/billing/billing-admin.service.ts:688-690 | `setDate(+days)` moves every instant by exactly that many days, forwards or backwards |
| `Calendar.Recompose` | src/modules/billing/billing.service.ts:113-115 | taking a date apart after composing it gives the same year, month and day |
| `Tokens.ReachableInvariant` | src/modules/auth/auth.service.ts:413-454 | in every run a login's family has at most one live refresh token, all of it expires ten hours after the login, and a member has at most one unused verification token |
| `TokenHistory.SpentAtMostOnce` | src/modules/auth/auth.service.ts:169-213 | in every run a refresh token is exchanged or logged out at most once, and is live exactly until then |
| `TokenHistory.RotationKeepsTheLimit` | src/modules/auth/auth.service.ts:169-189 | a rotation succeeds only within ten hours of the login and hands on member, family and expiry |
| `TokenHistory.SessionLivesUntilLogout` | src/modules/auth/auth.service.ts:169-213 | a login keeps a live token if and only if none of its tokens was logged out |
| `TokenHistory.AcceptedAtMostOnce` | src/modules/auth/auth.service.ts:393-411 | a reset or verification token is accepted at most once in every run |
| `TokenHistory.SettledUnlessSeeded` | src/modules/auth/auth.service.ts:258-332 | a step can leave a verified member with an unused verification token if and only if it is the administrator seed for such a member |
| `TokenHistory.AlreadyVerifiedIsReachable` | src/modules/auth/auth.service.ts:266-275 | a run in which a valid token is answered "already verified" |
| `TokenHistory.SettledWithoutSeeds` | src/modules/auth/auth.service.ts:258-332 | without the seed, no verified member ever has an unused verification token |
| `TokenHistory.VerifiesOnlyOnce` | src/modules/auth/auth.service.ts:258-301 | then a valid token always verifies for the first time, and asking for another is refused afterwards |
| `TokenHistory.ResendReplaces` | src/modules/auth/auth.service.ts:291-311 | after a resend the new token is the member's only one that verifies, for exactly twenty minutes |
| `TokenHistory.VerifiedStays` | src/modules/auth/auth.service.ts:266-277 | verification is permanent |
| `TokenHistory.EmailsStayDistinct` | src/modules/me/me.service.ts:48-56 | in every run no two members have the same e-mail |
| `TokenHistory.ResetTokensAccumulate` | src/modules/auth/auth.service.ts:215-256 | two reset requests leave two valid tokens; using one leaves the other and all sessions as they were |
| `Credentials.PasswordIsLastGiven` | src/modules/auth/auth.service.ts:84-256 | in every run a member's password is the one last given by registration, invitation, seed, reset or profile change |
| `Credentials.EmailIsLastGiven` | src/modules/me/me.service.ts:38-64 | and its e-mail the one last given |
| `Credentials.LoginIffLastGiven` | src/modules/auth/auth.service.ts:148-167 | in every run a login succeeds if and only if some member was last given this e-mail and password; it opens one session of that member for ten hours and changes nothing else |
| `Credentials.RefreshIffUnspent` | src/modules/auth/auth.service.ts:169-189 | in every run a refresh token is exchanged if and only if it was neither exchanged nor logged out before and its login is at most ten hours ago |
| `Credentials.ResetWithinAnHour` | src/modules/auth/auth.service.ts:215-256 | a reset token sets the password of the member it was asked for, within an hour and once |
| `Credentials.RemovedForGood` | src/modules/me/me.service.ts:66-86 | a removed member and its tokens never come back in any run |
| `TokenService.AuthTables.IssueTokenPair` | src/modules/auth/auth.service.ts:413-454 | a fresh token with a full lifetime, or with the expiry it inherits |
| `TokenService.AuthTables.Refresh` | src/modules/auth/auth.service.ts:169-197 | the rotation as specified, refused without effect for a revoked, unknown or expired token |
| `TokenService.AuthTables.Logout` | src/modules/auth/auth.service.ts:199-213 | revokes a live token, or fails without effect |
| `TokenService.AuthTables.Register` | src/modules/auth/auth.service.ts:84-146 | a new unverified member with one refresh and one verification token, or a conflict |
| `TokenService.AuthTables.Login` | src/modules/auth/auth.service.ts:148-167 | a new family for the member, or no change |
| `TokenService.AuthTables.ForgotPassword` | src/modules/auth/auth.service.ts:215-237 | one more reset token for a known e-mail, nothing otherwise |
| `TokenService.AuthTables.ResetPassword` | src/modules/auth/auth.service.ts:239-256 | sets the password and uses the token, or fails without effect |
| `TokenService.AuthTables.VerifyEmail` | src/modules/auth/auth.service.ts:258-289 | verifies and uses the token, telling whether the member was verified before |
| `TokenService.AuthTables.ResendVerificationEmail` | src/modules/auth/auth.service.ts:291-332 | invalidates the member's unused verification tokens and issues one, unless verified |
| `TokenService.AuthTables.UpdateProfile` | src/modules/me/me.service.ts:38-64 | changes e-mail and password as given, or fails without effect if the e-mail is another member's |
| `TokenService.AuthTables.FindValidActionToken` | src/modules/auth/auth.service.ts:393-411 | returns a row if and only if it is of the right kind, unused and not expired |
| `UsageMetering.UsageTable.RecordRequest` | src/modules/analytics/usage-metering.service.ts:19-45 | the upsert changes exactly the request's row |
| `UsageMetering.RowsAreIndependent` | src/modules/analytics/usage-metering.service.ts:29-43 | each row depends on the requests of its own key alone, whatever is interleaved |
| `UsageMetering.AverageNearTrue` | src/modules/analytics/usage-metering.service.ts:29-43 | after n samples, each rounded to hundredths, the average is within (n+1)/4 hundredths of the true mean |
| `UsageMetering.AverageWithinSamples` | src/modules/analytics/usage-metering.service.ts:29-43 | the average always lies between the smallest and the largest sample |
| `UsageMetering.CountersExact` | src/modules/analytics/usage-metering.service.ts:29-43 | request and error counters are exact, errors never more than requests |
| `UsageMetering.ErrorsAreFailures` | src/modules/analytics/usage-metering.service.ts:19-28 | errors are the requests answered with 400 or above |
| `UsageMetering.WeightedAverageNearTrue` | src/modules/analytics/analytics.service.ts:46-49 | the average weighted over rows inherits the bound of the largest row |
| `Payroll.PayeIsMarginal` | src/modules/kyc/rra-payroll.service.ts:34-48 | the tax is the rounded sum of the marginal slices |
| `Payroll.TableAgrees` | src/modules/auth/master-core-snapshot.controller.ts:72-105 | every whole salary falls in exactly one published layer, and that layer gives the tax charged |
| `Payroll.PayeMonotone` | src/modules/kyc/rra-payroll.service.ts:34-48 | a higher salary never owes less tax |
| `Payroll.DeductionsNearExact` | src/modules/kyc/rra-payroll.service.ts:50-84 | the three roundings move the deductions by at most 1.5 francs |
| `Payroll.NetNeverNegative` | src/modules/kyc/rra-payroll.service.ts:68-84 | the net salary is never negative |
| `Payroll.SummaryAddsUp` | src/modules/kyc/rra-payroll.service.ts:50-84 | net and deductions add up to the gross; tax, employee's and employer's share are the amounts of the slices and rates, each rounded to the nearest franc by itself |
| `Payroll.RaiseShows` | src/modules/kyc/rra-payroll.service.ts:68-84 | a raise of more than two francs, fractions included, strictly raises the net salary |
| `Payroll.WholeRaises` | src/modules/kyc/rra-payroll.service.ts:68-84 | for whole francs more gross is never less net, and three francs more is strictly more |
| `Payroll.TwoFrancsMayVanish` | src/modules/kyc/rra-payroll.service.ts:68-84 | a raise of two francs can leave the net salary the same, so that bound is the best |
| `Payroll.SmallRaiseMayCost` | src/modules/kyc/rra-payroll.service.ts:68-84 | a smaller raise can even lower the net salary |
| `Phone.ValidIffNormalForm` | src/modules/utilities/phone.service.ts:20-45 | a number is valid if and only if its normal form is +250, then 7 or 8, then eight digits |
| `Phone.ValidIffDigits` | src/modules/utilities/phone.service.ts:20-45 | a number is valid if and only if its digits are the nine-digit subscriber number, alone or behind 0 or 250 |
| `Phone.FormatRoundTrip` | src/modules/utilities/phone.service.ts:83-107 | each of the three formats of a valid number normalises back to the same number and is valid |
| `Phone.FormatShows` | src/modules/utilities/phone.service.ts:83-107 | the three spellings of a valid number in terms of its nine digits |
| `Phone.FormatOtherwise` | src/modules/utilities/phone.service.ts:83-88 | what is no such number comes back as it was given |

## Left out

- Two requests interleaved on the same rows: the code reads and then saves without locks; steps are atomic here.
- Database constraints other than those named: column lengths and types, rounding of decimals to two places on storage.
- Redis, BullMQ and TypeORM themselves: stalled jobs, a failing save inside the delivery worker. The bounds over traces are about requests that Redis counted; without Redis every request passes, as the two check methods say.
- Time zones and daylight saving: dates are in UTC, hours have 3,600,000 ms.
- Floating-point error: amounts and averages are exact until the rounding that the code asks for, and so is the distance of a header's timestamp from the clock. Conversion between numbers and text is assumed exact for integers up to 2^53 only.
- Clocks that go backwards: the store's times do not decrease along a trace.
- SHA-256, HMAC, JWT and random tokens: drawn tokens never repeat, and token rows are found by the token rather than by its hash. That digests differ is a hypothesis on the inputs at hand, where it is used.
- `WebhookSigning.ComputeHmac`: bodies with characters outside the basic multilingual plane are sequences of code units.
- Ids in webhooks, billing and tokens are natural numbers; billing rows are never deleted, so their ids are positions. The invoice column `approves` and the columns `family` and `loginAt` are history that the tables do not have.
- How payment requests and pending subscriptions come about: the repository only reads them, so they are submitted by steps with a plan given. A request without a plan id, for which the lookup would take any plan, is not modelled.
- Plan, member and key management in billing: one step replaces these tables by anything.
- The text of messages, e-mails, notifications and audit descriptions: entries keep what happened, who did it, and to what.
- Notifications of periods that end soon, dashboards, lists, search and the rest of the snapshot: queries without effect on state.
- Response body and duration of a webhook attempt: stored and never read. Payloads are text by field, and the time in a replay's payload is in milliseconds.
- `LocationSeeder.SeedTransaction.Run`: the seeder's tree is a value, because the seeder only reads it.
- Carrier detection of phone numbers: a table lookup.
- `TokenService.AuthTables.Register`: the organization, which registration creates in the same transaction, is not modelled; members stand alone. Nor is its default API key, which is saved outside the transaction (src/modules/auth/api-key.service.ts:198-225) and so outlives a registration that is rolled back.
- Upper and lower case: plan codes are ASCII, e-mail addresses are in lower case already.
- Redaction, bearer extraction, health checks, the sandbox's random data: no state to reason about.
