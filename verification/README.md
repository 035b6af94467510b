# CloudMeter: verified model of the control plane

CloudMeter sells container hosting by usage. An API and a background worker rewrite the same tables,
one locked transaction at a time. This project models each of those transactions as one atomic step on
explicit tables and proves what every run of them keeps.

Each part has the same shape. A module states the tables as values and one function per transaction
(`Lifecycle`, `Metering`, `Accounts`, `Orders`, `Catalog`); a module beside it proves what every
transaction, and so every run, keeps (`LifecycleInvariant`, `MeteringInvariant`, `AccountsInvariant`,
`OrdersInvariant`, `CatalogInvariant`); the theorems about runs follow (`LifecycleTheorems`,
`AccountsTheorems`, `OrdersTheorems`, `SubscriptionTheorems`, `CatalogTheorems`). The outcome modules
(`LifecycleOutcomes`, `LifecycleRequests`, `MeteringOutcomes`, `AccountsOutcomes`, `OrdersOutcomes`,
`PipelineOutcomes`, `RuntimeLimits`, `RuntimeRequests`) say what a request, a pass or a charge comes to without
naming the functions that compute it. `BillingQueue` lets the accounts of all users compete for the one billing worker, and
`Pipeline` with `PipelineTheorems` joins the meter to the account it bills. The classes in `LifecycleStore`,
`MeteringStore`, `MoneyStore` and `CatalogStore` hold the tables as fields and carry the transactions out
statement by statement; every method is proved to do what the function of its transaction does. The remaining
modules are the algorithms the transactions rest on: `Ledger`, `Credits`, `Calendar`,
`Subscription`, `Dependencies`, `RuntimeSpec` with its overlay, `Slugs` and `Amounts`.

`dafny verify dfyconfig.toml` checks the whole project.

Conventions. Health results, pull and create errors, gateway answers and the clock are arguments of the
steps; the clock only moves forward. Money is in cents, usage quantities in units of 10^-12, container
sizes are reals. Row ids are positions or numbers. Uniqueness that the migrations declare (sample id,
usage idempotency key, aggregate key, ledger reference, credit reference, one active test per version)
is a guard of the inserting step.

## What the proofs found

- Deployment and restore inserts never break their unique indexes, although `startApp` does not look at
  jobs at all: the status alone excludes an overlap (`StartNeverOverlaps`).
- The restore worker tries the oldest queued restore of the platform and joins `app_routes`. A restore
  requested while the application has no route is therefore never claimed, the application stays
  `updating` for good, and every later restore of every user waits behind it. `RestoreFinishesIffServed`
  gives the exact condition and `RoutedRestoreCanStarve` a run that gets there.
- A failed update of a stopped application leaves it `running` without a route, and a failed start of an
  application suspended for want of funds leaves it `stopped`. `FailedRequestUndoneIff` says exactly when a
  failed request leaves the status as it was; a failed recovery always does (`FailedRecoveryUndone`).
- `adjustWallet` looks at the balance before it looks for the reference, so repeating an adjustment is answered
  as a replay only when the balance would bear it a second time (`AdjustmentReplays`). It changes nothing either
  way.
- The billing worker claims the oldest claimable usage row of the platform and gives up when its price does
  not fit an int64. Nothing marks such a row, so once it is the oldest no row of any user is charged or
  refused again, whatever is paid or granted (`BillingHaltsIffFirstUnpayable`, which is exact;
  `OneRowHaltsThePlatform` is a run that gets there through one mistaken minimum quantity).
- `performCheckin` stores the int64 sum it computed in Go. On a wallet that an adjustment has filled the sum
  wraps and the balance becomes negative (`CheckinCanWrap`); every balance of a run is exact and non-negative exactly when no
  check-in does that (`BalanceExactIffNoCheckinWraps`). All other writers are safe.
- Plan changes within a service period cost the peak price less the starting baseline exactly when a
  purchase at the baseline price lasts to the end of the period. Dropping to a free plan and coming back
  breaks that (`PathIndependentIffBaselineLasts`, `ReturnedIsPathDependent`).
- `RuntimeStorage` says legacy mounts fall back to the largest size. It returns the last one
  (`CapacityIsLargestIff`). The model follows the code.
- A template that mounts volumes but declares no `editableOptions` refuses every update, because the two
  overlay functions default the undeclared flag differently (`UndeclaredOptionsRefuseUpdates`;
  `OneMountIsNeverUpdated` is such a template). An update
  that asks for nothing succeeds exactly when the options are declared or there are no volumes, and is
  then the identity, except that an empty command chosen over a template that has one is lost
  (`NoRequestIsIdentityIff`; `EmptiedCommandComesBack` is a case).
- `cancelProductVersionTest` looks at the test without a lock, so a request can be inserted after the test
  has succeeded and is then acknowledged all the same (`CancellationCanComeTooLate`). An acknowledged test
  is cancelled exactly when it had neither succeeded nor failed when its request was inserted
  (`AcknowledgedIsCancelledIff`).
- `parseAmountCents` accepts a sign inside the fraction. `AcceptedTexts` says exactly which texts are
  accepted and at what amount; "1.+5" and "1.-0" are two of them (`SignedExamples`).

## Model

| member | source | states |
|---|---|---|
| LifecycleInvariant.RunKeeps | apps/worker/main.go:1766-2244 | every run of create, update, rollback, start, stop, restore, suspend, resume, delete and worker steps keeps the newest-row, live-release, status and job invariants of every application |
| LifecycleTheorems.OneOperationAtATime | apps/worker/main.go:2088-2222 | at most one unfinished deployment job; while it lasts the status is deploying or updating and no restore is active; a suspended or stopping application has no route |
| LifecycleTheorems.LiveReleaseIsUnique | apps/worker/main.go:2182-2214 | the last successful release is the one active release and any route points at it |
| LifecycleTheorems.StartNeverOverlaps | internal/httpapi/app_control.go:205-276 | whenever the start guard accepts, no job and no restore is active, though it never reads the jobs |
| LifecycleTheorems.StepHistory | internal/domain/state.go:18-32 | every change of a job is an edge of the transition table and one more attempt, rows are only appended, finished jobs never change, and every inserted job passes its trigger |
| LifecycleTheorems.SwitchingNeverRollsBack | apps/worker/main.go:2564-2571 | a job that has reached switching_route is switching or succeeded after every further run: no error, health result or request fails it or rolls it back |
| LifecycleTheorems.FailureLeavesLiveReleaseAlone | apps/worker/main.go:2078-2106 | from queueing to failure, whatever happens in between, route, last successful release and its active state stay, also for recovery jobs on the live release itself |
| LifecycleTheorems.StepsAreAttempts | apps/worker/main.go:2283-2307 | the committed steps of a job are its attempts, and its failed health checks are bounded state by state |
| LifecycleTheorems.JobEnds | apps/worker/main.go:2059-2076 | a queued job changes at most 12 times with at most 8 unhealthy checks, and has ended after 12 committed worker passes |
| LifecycleOutcomes.SwitchNeedsHealth | apps/worker/main.go:2283-2296 | in every run a job goes from checking to switching_route by one event only, a worker pass that finds it healthy |
| LifecycleOutcomes.PassOutcome | apps/worker/main.go:2246-2308 | over a run from queueing: a healthy check switches, one of the first seven failed checks leaves the job checking, the eighth rolls it back, the pass after fails it |
| LifecycleOutcomes.LiveReleaseWasSeenHealthy | apps/worker/main.go:2182-2214 | in every run from the empty platform the live release and any route are those of a succeeded job that a pass found healthy |
| LifecycleRequests.AcceptedIff | internal/httpapi/app_lifecycle.go:310-457 | in a consistent application update, rollback, start, restore and stop are accepted exactly in the statuses named; no operation is ever found in progress that the status does not show |
| LifecycleRequests.RequestGoesLive | apps/worker/main.go:2088-2214 | an accepted update, rollback or start is live after five good passes with the snapshot it was for, and the release before it is superseded |
| LifecycleRequests.RecoveryGoesLive | apps/worker/main.go:2088-2214 | a recovery brings the live release back unchanged, routed and running |
| LifecycleRequests.FailureOutcome | apps/worker/main.go:2267-2281 | whatever happens between queueing and failure, release and route stay and the status is the one operation and live release determine |
| LifecycleRequests.FailedRequestUndoneIff | apps/worker/main.go:2267-2281 | in every run a failed update or rollback leaves the status as it was if and only if the application was running, or broken and never live; a failed start if and only if it was stopped |
| LifecycleRequests.FailedRecoveryUndone | apps/worker/main.go:2267-2281 | a failed recovery brings the suspension back with its reason |
| LifecycleRequests.RestoreOutcome | apps/worker/main.go:1120-1157 | the restore row says whether it succeeded, and the application is broken only after a failure that left it unhealthy; nothing else changes |
| LifecycleRequests.RestoreReleases | apps/worker/main.go:1120-1157 | either way the application accepts requests again and keeps what was live |
| LifecycleRequests.StopRuns | apps/worker/main.go:429-513 | an accepted stop unroutes at once and, after any number of claims given back, ends stopped with nothing else changed |
| LifecycleRequests.DeletedIff | internal/httpapi/resource_deletion.go:10-79 | deletion happens exactly when no operation is under way, the end of retention only to a suspension for want of funds, and both keep all rows |
| LifecycleRequests.Isolation | internal/httpapi/subscription_features.go:432-447 | a step on an application touches no other, a step on an account no application of another user |
| LifecycleRequests.CreatedIs | internal/httpapi/server.go:1296-1461 | creation adds one application, deploying, with one release and one queued job |
| LifecycleRequests.SettlementMeans | apps/worker/main.go:1372-1515 | out of funds or below the reserve every running application of the account is suspended and unrouted; with funds and nothing waiting the suspended ones get a job on their live release |
| LifecycleRequests.PaidSubscriptionMeans | internal/httpapi/subscription_features.go:432-447 | a paid subscription brings exactly the applications its end had suspended back on the way |
| LifecycleTheorems.UnroutedRestoreWaitsForever | apps/worker/main.go:982-1000 | a queued restore of an application without a route is never claimed in any run, and the application stays updating |
| LifecycleTheorems.UnservedWaitsForever | apps/worker/main.go:989-993 | one unrouted queued restore starves itself and every later restore of the platform in every run |
| LifecycleTheorems.RestoreFinishesIffServed | apps/worker/main.go:989-993 | a queued restore can finish if and only if its application and the application of every older queued restore have a route |
| LifecycleTheorems.RoutedRestoreCanStarve | apps/worker/main.go:989-993 | a run from the empty platform leads to a routed application whose restore waits forever behind an unrouted one |
| LifecycleTheorems.UnroutedRestoreArises | internal/httpapi/backup_features.go:587-612 | a failed update of a stopped application followed by a restore request leads into that state |
| LifecycleStore.StatementsCompose | internal/httpapi/subscription_features.go:432-447 | the account-wide insert and update act like resuming each application by itself |
| LifecycleStore.AppTables.CreateApp | internal/httpapi/server.go:1296-1461 | a new application is deploying with one release and one queued job |
| LifecycleStore.AppTables.CreateReleaseJob | internal/httpapi/app_lifecycle.go:310-457 | the guards of update and rollback in order, then release, job and status; refusals change nothing |
| LifecycleStore.AppTables.StartApp | internal/httpapi/app_control.go:205-276 | start, including from a billing suspension, copies the last successful release into a new job |
| LifecycleStore.AppTables.StopApp | internal/httpapi/app_control.go:72-138 | stop removes the route, queues the stop and sets stopping, under its guards |
| LifecycleStore.AppTables.RestoreAppBackup | internal/httpapi/backup_features.go:587-612 | restore of a running application queues a row and sets updating |
| LifecycleStore.AppTables.DeleteApp | internal/httpapi/resource_deletion.go:10-79 | deletion refuses active work, removes the route and stops |
| LifecycleStore.AppTables.ProcessOne | apps/worker/main.go:2059-2222 | one committed pass: the next state with health, releases, route and status of success, rollback and failure |
| LifecycleStore.AppTables.MarkJobError | apps/worker/main.go:2551-2606 | an error fails the job if the table allows the edge, and only then changes anything |
| LifecycleStore.AppTables.CompleteStop | apps/worker/main.go:429-513 | the second stop transaction |
| LifecycleStore.AppTables.ClaimRestore | apps/worker/main.go:989-1004 | the claim takes the oldest queued restore when its application has a route, and nothing otherwise |
| LifecycleStore.AppTables.FinishRestore | apps/worker/main.go:1120-1157 | the restore result and the status it leaves |
| LifecycleStore.AppTables.SettleAccount | apps/worker/main.go:1479-1515 | a charge suspends below the reserve, inserts recovery jobs under its conditions, and then runs the resume update in any case |
| LifecycleTheorems.SettlementIs | apps/worker/main.go:1479-1515 | in a consistent application that comes to suspending, doing nothing or resuming, because the last update only completes the insert |
| LifecycleStore.AppTables.SuspendRunning | apps/worker/main.go:1372-1376 | the two suspension statements suspend exactly the running applications of the account and unroute them |
| LifecycleStore.AppTables.ResumeSubscriptionApps | internal/httpapi/subscription_features.go:432-447 | a paid subscription queues recovery jobs for the applications it suspended |
| MeteringInvariant.RunKeeps | apps/worker/main.go:1651-1702 | every run keeps cursors, closed windows, byte sums, unique events and aggregate sums |
| MeteringInvariant.EgressMeteredExactlyOnce | internal/httpapi/egress_features.go:69-96 | cursor = sum of distinct samples, processed bytes = bytes of the egress events, each event covers every sample its window will ever hold, each aggregate = its aggregated events |
| MeteringInvariant.NoLateSample | internal/httpapi/egress_features.go:38-41 | no accepted sample lands in a metered window |
| MeteringInvariant.DrainedMeterBillsTheCursor | apps/worker/main.go:1651-1702 | once all samples are processed the metered bytes equal the cursor |
| MeteringInvariant.BytesReadBack | apps/worker/main.go:1680-1684 | the byte count is recovered exactly from any quantity within one unit of the twelfth decimal of the quotient |
| MeteringInvariant.ClaimsAreNew | apps/worker/main.go:1218-1237 | the claimed events of a key are its first, so nothing is dropped on a sealed aggregate |
| MeteringOutcomes.SampleAcceptedIff | internal/httpapi/egress_features.go:30-68 | exactly when a sample is taken: new id of fitting length, bytes with room in the cursor, time in the open window or two minutes ahead, known application |
| MeteringOutcomes.EveryEventWasRecorded | apps/worker/main.go:1676-1711 | in every run each usage event was recorded by one metering step, for its window, at the price version resolved there |
| MeteringOutcomes.PendingBytesAreRecorded | apps/worker/main.go:1676-1702 | metering a closed window with pending bytes adds one event that reads back to them, at the price given |
| MeteringStore.MeterTables.IngestEgressSample | internal/httpapi/egress_features.go:30-96 | validation, overflow, duplicates and acceptance, with the cursor and sample they leave |
| MeteringStore.MeterTables.MeterEgress | apps/worker/main.go:1651-1702 | the loop over the selected windows is the run of one transaction for each |
| MeteringStore.MeterTables.InsertUsage | apps/worker/main.go:1704-1711 | an event whose idempotency key exists is not inserted again |
| MeteringStore.MeterTables.AggregateUsage | apps/worker/main.go:1211-1244 | claimed events are grouped, upserted and marked |
| MeteringStore.MeterTables.SealUnpricedUsage | apps/worker/main.go:1246-1268 | exactly the pending rows without a price are sealed as unpriced |
| Ledger.BalanceIsPrefixSum | internal/httpapi/server.go:1570-1604 | in every chained ledger each balance_after is the prefix sum of the amounts modulo 2^64 |
| Ledger.SoundPrefix | internal/httpapi/server.go:1570-1604 | in a sound wallet each balance_after is the exact prefix sum and never negative |
| Ledger.RefsUnique | migrations/000001_core.up.sql:111-122 | no two entries of a wallet share type and reference |
| Ledger.SoundIffInRange | internal/httpapi/checkin_features.go:126-133 | a stored Go sum keeps the wallet sound if and only if the true sum is within 0..2^63-1 |
| Credits.CreditQuery | apps/worker/main.go:1326-1341 | every live grant once, by expiry with NULLS LAST, then creation, then id |
| Credits.SpendCreditLoop | apps/worker/main.go:1419-1433 | the loop over the grants, with its early exit, computes SpendCredit |
| Credits.SpendCreditBalances | apps/worker/main.go:1419-1433 | every grant stays remaining + consumed and the charge receives exactly min(amount, available) |
| Credits.GreedyTakesEarliest | apps/worker/main.go:1326-1341 | for every cutoff the loop takes from grants expiring by then as much as there is to take |
| Credits.EarliestExpiryFirstIsOptimal | apps/worker/main.go:1419-1433 | no other spending of the same credit leaves less in grants expiring by any cutoff |
| Credits.DrawnInOrder | apps/worker/main.go:1419-1433 | a grant is drawn on only when every earlier one ends up empty |
| Accounts.Price | apps/worker/main.go:1306-1314 | the charge is the exact product rounded up, down or half up, within one cent |
| AccountsInvariant.RunKeeps | apps/worker/main.go:1398-1447 | in every run charge = wallet debit + consumptions, grant = remaining + consumed, bill total = its items, each charge and purchase itemised once, fees and rewards equal their ledger entries, charges are priced at their quantity |
| AccountsInvariant.SpendForCharge | apps/worker/main.go:1332-1352 | the credit drawn for a charge belongs to that charge alone |
| AccountsInvariant.ChargePosted | apps/worker/main.go:1403-1418 | a new charge is its debit plus its consumptions and leaves the older ones balanced |
| AccountsInvariant.PurchaseNeverClashes | internal/httpapi/subscription_features.go:362 | in an account that kept its invariant the reference of the next purchase is free, so the ledger never refuses a fee |
| AccountsTheorems.BalanceExactIffNoCheckinWraps | internal/httpapi/checkin_features.go:126-133 | all balances of a run are exact and non-negative if and only if no check-in reward overflows an int64 |
| AccountsTheorems.CheckinCanWrap | internal/httpapi/checkin_features.go:126-133 | a run from a new account: an adjustment fills the wallet, and a reward of one cent then leaves the most negative balance |
| AccountsTheorems.AdjustSound | internal/httpapi/server.go:1577-1581 | an adjustment that wraps is refused, an accepted one adds exactly |
| AccountsTheorems.EachRowChargedOnce | apps/worker/main.go:1284-1297 | a usage row has at most one charge, none while pending or unpriced, and one at its own price and quantity once charged |
| AccountsOutcomes.EveryChargeIsFair | apps/worker/main.go:1306-1314 | in every run every charge is nothing within the free quantity, the rounded rest beyond it, and the rounded minimum when that is more |
| AccountsOutcomes.FairAmountIsPrice | apps/worker/main.go:1306-1314 | those three clauses determine one amount, and it is the price |
| AccountsOutcomes.PriceGrows | apps/worker/main.go:1306-1314 | more usage never costs less |
| AccountsOutcomes.SettledIff | apps/worker/main.go:1347-1378 | a claimed row is charged if and only if balance and credit together cover its price |
| AccountsOutcomes.ClaimableIff | apps/worker/main.go:1284-1296 | which rows are up for billing |
| AccountsOutcomes.AggregateAdds | apps/worker/main.go:1222-1234 | a group adds its quantity under its slot and price, and nothing once the row there is settled |
| AccountsOutcomes.ChargesOnTheirMonths | apps/worker/main.go:1434-1445 | in every run each charge is on the bill of the month its window starts in |
| AccountsOutcomes.PurchaseOnItsMonth | internal/httpapi/subscription_features.go:366-397 | an accepted purchase is on the bill of the month it is made in |
| AccountsOutcomes.FeesAreTheAmounts | internal/httpapi/subscription_features.go:355-397 | in every run the fees in the ledger add up to the amounts of the succeeded purchases |
| AccountsOutcomes.FeesAreThePrices | internal/httpapi/subscription_features.go:99-116 | an account that never buys within a running period pays in all the prices of what it bought |
| AccountsOutcomes.BuyingTakesThePrice | internal/httpapi/subscription_features.go:323-365 | outside a running period a purchase takes exactly the price or is refused for want of it |
| AccountsOutcomes.GrantCountsUntilExpiry | internal/httpapi/credit_features.go:74-119 | a grant raises the credit by its amount at every time before the expiry asked for and by nothing after |
| AccountsOutcomes.GrantedIff | internal/httpapi/credit_features.go:74-119 | exactly when credit is granted, and that the grant holds what was asked for |
| AccountsOutcomes.GrantReplays | internal/httpapi/credit_features.go:98-108 | after any run the same terms under a known reference are a replay, others a conflict, and neither changes anything |
| AccountsOutcomes.AdjustedIff | internal/httpapi/server.go:1557-1604 | exactly when an adjustment goes through, and what it posts |
| AccountsOutcomes.AdjustmentReplays | internal/httpapi/server.go:1577-1594 | a repeated adjustment changes nothing and is answered as a replay if and only if the balance would bear it again |
| AccountsOutcomes.CheckedInIff | internal/httpapi/checkin_features.go:94-141 | exactly when a check-in pays its reward |
| AccountsTheorems.ChargesOnlyGrow | apps/worker/main.go:1418-1447 | charges are append-only and a settled row never changes |
| AccountsTheorems.BillingRejectsOnlyOverflow | apps/worker/main.go:1398-1417 | the ledger never refuses a claimed row; only a price beyond int64 does |
| AccountsTheorems.AvailableIsLiveSum | apps/worker/main.go:1332-1346 | what the credit query adds up is the sum over the live grants |
| AccountsTheorems.PaidUsageTakesItsAmount | apps/worker/main.go:1347-1352 | a settled usage lowers balance + credit by exactly its amount, credit first, and records what is left |
| AccountsTheorems.BillingStepDecreases | apps/worker/main.go:1284-1296 | each committed step lowers (waiting rows, rows untried at the present funds) |
| AccountsTheorems.BillingStops | apps/worker/main.go:1284-1296 | with no new usage or funds, at any clock readings between which no grant expires, at most waiting*(waiting+1)+untried steps commit |
| AccountsTheorems.TimeAloneChangesNothing | apps/worker/main.go:1332 | while no grant expires, the clock does not affect a billing step |
| BillingQueue.PassCommitsIffPayable | apps/worker/main.go:1284-1319 | a billing pass, which claims an oldest claimable row of the platform, changes anything if and only if the price of that row is known and fits an int64 |
| BillingQueue.BillingHaltsIffFirstUnpayable | apps/worker/main.go:1295-1319 | the first row in line halts the billing of every user, in every run without older usage, if and only if its price does not fit |
| BillingQueue.OneRowHaltsThePlatform | apps/worker/main.go:1295-1319 | a run from the empty platform leads to a user who could pay and is never charged, behind another user's row |
| BillingQueue.PlatformComesToRest | apps/worker/main.go:1284-1296 | with nothing new and no grant expiring, the written passes over all users are bounded, whichever of the oldest rows is picked |
| PipelineTheorems.JoinedRunKeeps | apps/worker/main.go:1211-1244 | in every run of meter, aggregation, billing and wallet writers the meter's and the biller's aggregates are one table, and the charged bytes are those of the billed events |
| PipelineTheorems.EveryChargeIsItsWindow | apps/worker/main.go:1284-1314 | every charge is priced at the quantity of one usage event, and an egress charge reads back to exactly the bytes ever accepted in its window |
| PipelineTheorems.WindowChargedOnce | apps/worker/main.go:1288 | no application is charged twice for a usage code and window, whatever price versions applied |
| PipelineTheorems.BytesAreConserved | internal/httpapi/egress_features.go:69-96 | in every run the cursor is the unmetered bytes, the unbilled event bytes and the charged bytes, each accepted byte in one place |
| PipelineTheorems.SettledChargesAreTheCursor | apps/worker/main.go:1651-1702 | once all is metered, aggregated and charged, the charged quantities read back to the cursor |
| PipelineTheorems.GroupsCanBeListed | apps/worker/main.go:1222-1224 | the groups of any claimed events can be written, so the joined aggregation step is never stuck |
| PipelineOutcomes.EveryChargeWasMetered | apps/worker/main.go:1676-1711 | behind every charge of a run stands one metering step, and the charge is the fair amount for the quantity recorded there under the price version resolved there |
| MoneyStore.MoneyTables.BillUsage | apps/worker/main.go:1270-1460 | claim, price, insufficient branch and charge branch of one billing transaction |
| MoneyStore.MoneyTables.ChargeRow | apps/worker/main.go:1398-1460 | debit, charge, credit, bill, seal and attempt rows together |
| MoneyStore.MoneyTables.PutOnBill | apps/worker/main.go:1434-1445 | the month's bill is created when missing and grows with its item |
| MoneyStore.MoneyTables.AdjustWallet | internal/httpapi/server.go:1557-1604 | the checks in their order, with replay and conflict, and the posting |
| MoneyStore.MoneyTables.PerformCheckin | internal/httpapi/checkin_features.go:94-141 | one reward a day, stored with the sum Go computed |
| MoneyStore.MoneyTables.GrantCredit | internal/httpapi/credit_features.go:74-130 | validation, replay, conflict on amount, note or expiry, and the new grant |
| MoneyStore.MoneyTables.PurchaseSubscription | internal/httpapi/subscription_features.go:267-397 | guards, charge, subscription, purchase and bill rows of one purchase |
| MoneyStore.MoneyTables.MarkPaymentPaid | internal/httpapi/payment_features.go:530-575 | credit and paid status together, replays unchanged |
| MoneyStore.MoneyTables.EpayCallback | internal/httpapi/epay_callback.go:126-195 | amount, reference and status checks in order, then credit, status and reference together |
| MoneyStore.MoneyTables.RefundPayment | internal/httpapi/payment_features.go:622-731 | guards, debit and the two moves of order and refund |
| MoneyStore.MoneyTables.ClosePaymentOrder | internal/httpapi/payment_operations.go:57-83 | a pending order is closed on a status the provider saw earlier |
| MoneyStore.MoneyTables.RedeemInviteCode | internal/httpapi/invite_features.go:54-95 | an unused invite of someone else, once per user, credits the inviter |
| OrdersInvariant.RunKeeps | internal/httpapi/payment_features.go:530-731 | in every run one top-up iff paid, one opposite refund iff refunded, order events lead along the order table and refund events along the refund table, references unshared, one reward per used invite, no stray entries |
| OrdersInvariant.OrderNets | internal/httpapi/payment_features.go:668-714 | an order nets its amount while paid and zero otherwise, and touches no other account |
| OrdersInvariant.ReplaysChangeNothing | internal/httpapi/epay_callback.go:158-163 | once an order of a run was paid, any later confirmation or callback for it changes nothing, whatever happened since, and once refunded neither does a refund |
| OrdersInvariant.SuccessIsRecorded | internal/httpapi/payment_features.go:566-575 | a call that goes through leaves the order paid or refunded |
| OrdersInvariant.MovedHistory | internal/domain/state.go:44-49 | a move along the order table extends a history that leads to the new status |
| OrdersOutcomes.MarkedPaidIff | internal/httpapi/payment_features.go:530-575 | a confirmation goes through if and only if the order is pending and the balance can hold its amount; the ledger never refuses it |
| OrdersOutcomes.CalledBackIff | internal/httpapi/epay_callback.go:126-195 | exactly when a callback goes through: pending order of the provider, its amount, an unused reference, room in the balance |
| OrdersOutcomes.PaymentIs | internal/httpapi/epay_callback.go:164-195 | a payment writes one top-up of the order's amount, the paid status, its event and the reference, and nothing else |
| OrdersOutcomes.CreatedIff | internal/httpapi/payment_features.go:380-440 | orders are created pending, for one cent up to a million units |
| OrdersOutcomes.ReferencePaysOnce | internal/httpapi/epay_callback.go:140-157 | once a callback went through its reference never pays another order, in any later run |
| OrdersOutcomes.RefundedIff | internal/httpapi/payment_features.go:622-668 | a refund goes through if and only if the order is paid, manual, and covered by the wallet |
| OrdersOutcomes.RedeemedIff | internal/httpapi/invite_features.go:54-95 | exactly when an invite is redeemed |
| OrdersOutcomes.ClosedIff | internal/httpapi/payment_operations.go:57-83 | exactly when an order is closed, and that nothing but its status and event changes |
| OrdersTheorems.EveryBalanceExactIffNoCheckinWraps | internal/httpapi/checkin_features.go:126-133 | in every run of the whole bank all balances of an account are exact and non-negative if and only if none of its check-ins wraps |
| OrdersTheorems.EveryAccountConserves | internal/httpapi/invite_features.go:76-95 | every account of every run of the whole bank conserves money |
| Calendar.AddCalendarMonthIs | internal/httpapi/subscription_features.go:61-70 | the library-normalised computation is the same clock time on the same day of the next month, or on its last day |
| Calendar.AddCalendarMonthSpan | internal/httpapi/subscription_features.go:61-70 | it spans 28 to 31 whole days across leap days and year ends |
| Calendar.AtIsInjective | internal/httpapi/subscription_features.go:61-70 | different civil times are different instants |
| Calendar.MonthAfter | internal/httpapi/subscription_features.go:61-70 | the computed instant is the calendar month after it |
| Subscription.ComputeQuote | internal/httpapi/subscription_features.go:72-117 | the three branches of the quote with action, amount, period and end |
| Subscription.DecidePurchase | internal/httpapi/subscription_features.go:267-370 | the guards in order, the baseline, the quote and the rows left behind |
| Subscription.PaidMax | internal/httpapi/subscription_features.go:309-314 | the highest price among succeeded purchases whose period contains now, or zero |
| SubscriptionTheorems.PathIndependentIffBaselineLasts | internal/httpapi/subscription_features.go:84-97 | within a service period every path of paid plans costs peak minus starting baseline if and only if a purchase at the baseline lasts |
| SubscriptionTheorems.LastingPathTelescopes | internal/httpapi/subscription_features.go:309-322 | the telescoping direction, for any number of changes |
| SubscriptionTheorems.DetourCostsMore | internal/httpapi/subscription_features.go:309-322 | the failing direction, with the path that pays the peak again |
| SubscriptionTheorems.ReturnedIsPathDependent | internal/httpapi/subscription_features.go:94-97 | three purchases from an empty account lead to a failing period, at any time |
| SubscriptionTheorems.ReturnedIsReached | internal/httpapi/subscription_features.go:267-322 | each of those purchases is accepted |
| SubscriptionTheorems.RenewalsAreBackToBack | internal/httpapi/subscription_features.go:75-79 | n renewals add n periods that start where the paid time ended and meet end to start |
| SubscriptionTheorems.RenewalPeriodIsAMonth | internal/httpapi/subscription_features.go:61-70 | each is a calendar month of 28 to 31 days at the same time of day, with a day of month that never grows |
| SubscriptionTheorems.QuoteMeans | internal/httpapi/subscription_features.go:72-117 | only a change of version within the paid time costs less than the price, by what is paid already; where each period begins and ends |
| SubscriptionTheorems.ActionMeans | internal/httpapi/subscription_features.go:80-111 | when a quote is a purchase, a renewal, an upgrade, a downgrade or a change |
| SubscriptionTheorems.BaselineMeans | internal/httpapi/subscription_features.go:309-322 | the baseline is the dearest of the running plan and the succeeded purchases that cover now |
| SubscriptionTheorems.FullPriceOutsidePeriod | internal/httpapi/subscription_features.go:99-116 | out of the paid time, whatever was bought before, the charge is the whole price for the calendar month from now |
| SubscriptionTheorems.StandingAfter | internal/httpapi/subscription_features.go:340-397 | a purchase adds one row either way; paid, the plan is in force from now or on from when it began, and refused for want of funds nothing else changes |
| SubscriptionTheorems.BoughtIff | internal/httpapi/subscription_features.go:284-357 | exactly when a purchase goes through |
| Dependencies.ReachableQuery | internal/httpapi/product_dependencies.go:38-47 | the iteration of the recursive query terminates with the closure |
| Dependencies.ReachableIsConnected | internal/httpapi/product_dependencies.go:38-47 | the closure contains exactly the products some path leads to |
| Dependencies.PublishKeepsAcyclic | internal/httpapi/product_dependencies.go:27-56 | adding all edges of a version at once keeps the graph acyclic when no target reaches the product before |
| Dependencies.RefusalIsNeeded | internal/httpapi/product_dependencies.go:27-56 | an edge the check refuses would close a cycle |
| CatalogInvariant.RunKeeps | internal/httpapi/server.go:1917-1957 | in every run the published graph is acyclic, published versions have a succeeded test, finished tests no secrets, cancelled tests a request, acknowledged requests a finished test, and what a product on offer depends on is on offer |
| CatalogInvariant.PublishAcyclic | internal/httpapi/server.go:1938-1957 | publishing a version keeps the graph of all versions acyclic |
| CatalogInvariant.RestoreOffers | internal/httpapi/product_lifecycle.go:152-191 | putting a product back on offer keeps every dependency on offer |
| CatalogInvariant.RetireOffers | internal/httpapi/product_lifecycle.go:192-217 | taking one off leaves no live dependency behind |
| CatalogInvariant.FinishedStaysFinished | apps/worker/product_tests.go:347-362 | a finished test never changes again |
| CatalogInvariant.MovesFollowTrigger | migrations/000107_product_test_cancellation.up.sql:29-53 | every change of a test passes the trigger, counts one attempt and clears secrets exactly on completion |
| CatalogInvariant.TestEndsWithinElevenMoves | apps/worker/product_tests.go:107-141 | at most 11 moves, 7 unhealthy retries, and finished after the eleventh |
| CatalogInvariant.PassesMove | apps/worker/product_tests.go:364-387 | a pass moves a running test if and only if no request is pending; a failure or a cancellation always does, and with a request pending both cancel |
| CatalogInvariant.AcknowledgedIsCancelledIff | apps/worker/product_tests.go:402-450 | in every run an acknowledged test is cancelled if and only if it had neither succeeded nor failed when its request was inserted |
| CatalogInvariant.CancellationCanComeTooLate | internal/httpapi/product_test_features.go:116-133 | from an empty catalog a test seen health-checking succeeds, is requested to be cancelled, and stays succeeded when that is acknowledged |
| CatalogTheorems.SuccessNeedsHealth | apps/worker/product_tests.go:122-129 | a test comes to succeed by one event only, a pass that finds it healthy with no request pending |
| CatalogTheorems.PassOutcome | apps/worker/product_tests.go:107-141 | in every run a healthy check ends a test succeeded, one of the first seven failed checks leaves it, the eighth ends it failed |
| CatalogTheorems.PublishedWasSeenHealthy | internal/httpapi/server.go:1938-1957 | in every run every published version has a test of its own that a pass found healthy |
| CatalogTheorems.PublishedIff | internal/httpapi/server.go:1917-1957 | exactly when a version can be published, with dependencies stated by paths |
| CatalogTheorems.PublishedIs | internal/httpapi/server.go:1950-1957 | publishing marks the version and puts its product on offer, and changes nothing else |
| CatalogTheorems.TestStartedIff | internal/httpapi/product_test_features.go:31-95 | exactly when a test can be started, and how it starts |
| CatalogTheorems.RequestedIff | internal/httpapi/product_test_features.go:116-133 | a request is inserted exactly once, for a test that was seen running, and only asks |
| CatalogTheorems.VersionCreatedIff | internal/httpapi/server.go:1862-1891 | exactly when a version is created, and that it starts unpublished |
| CatalogTheorems.RetiredIff | internal/httpapi/product_lifecycle.go:192-217 | a product is taken off offer if and only if no test of it runs and no version on offer depends on it |
| CatalogTheorems.PutBackAs | internal/httpapi/product_lifecycle.go:152-191 | a product put back is published, in testing or a draft by its versions and tests |
| CatalogTheorems.VersionDeletedIff | internal/httpapi/version_lifecycle.go:14-55 | a version is taken off if and only if none of its tests runs, and stays in the graph |
| CatalogStore.CatalogTables.ValidateProductDependencies | internal/httpapi/product_dependencies.go:22-57 | the loop reports the first failing dependency |
| CatalogStore.CatalogTables.PublishProductVersion | internal/httpapi/server.go:1917-1960 | the checks in order and the two updates |
| CatalogStore.CatalogTables.CreateProductVersion | internal/httpapi/server.go:1862-1891 | an unpublished version whose dependencies are valid |
| CatalogStore.CatalogTables.StartProductVersionTest | internal/httpapi/product_test_features.go:31-95 | one active test per unpublished version, and a draft product moves to testing |
| CatalogStore.CatalogTables.InsertCancellation | internal/httpapi/product_test_features.go:117-133 | a request is inserted once, on a state read before |
| CatalogStore.CatalogTables.ProcessProductVersionTestOne | apps/worker/product_tests.go:29-155 | one pass of the test worker by state and health, or none when a request is pending |
| CatalogStore.CatalogTables.FailProductVersionTest | apps/worker/product_tests.go:364-387 | failed, or cancelled when a request is pending |
| CatalogStore.CatalogTables.ProcessCancellationOne | apps/worker/product_tests.go:402-450 | cancel unless finished, then acknowledge |
| CatalogStore.CatalogTables.UpdateProductAvailability | internal/httpapi/product_lifecycle.go:149-225 | both directions with their guards |
| RuntimeMethods.ValidateRuntimeSpec | internal/runtime/spec.go:77-226 | accepts exactly the valid specifications |
| RuntimeMethods.CheckMounts | internal/runtime/spec.go:193-222 | the loop with seen-sets accepts exactly mounts with distinct names and paths |
| RuntimeMethods.CheckEnvironment | internal/runtime/spec.go:114-138 | the loop with its running total accepts exactly the environments within the limits |
| RuntimeSpec.ComputeStorage | internal/runtime/spec.go:444-484 | the storage loop |
| RuntimeLimits.ResourcesReadIff | internal/runtime/spec.go:500-519 | exactly which CPU and memory are read |
| RuntimeLimits.StorageReadIff | internal/runtime/spec.go:444-484 | exactly which disks and volumes are read |
| RuntimeLimits.CommandReadIff | internal/runtime/spec.go:400-442 | exactly which commands are read, and to what |
| RuntimeLimits.DependenciesReadIff | internal/runtime/spec.go:228-279 | exactly which dependencies are read, and to what |
| RuntimeMethods.SelectRuntimeSpec | internal/httpapi/server.go:900-1017 | the edited copy of the template, or the refusal |
| RuntimeMethods.RuntimeSpecForUpdate | internal/httpapi/app_lifecycle.go:476-572 | the completed selection applied to the new template, or the refusal |
| RuntimeMethods.MergeEnvironment | internal/httpapi/app_lifecycle.go:535-555 | the loop over the editable variables, then the requested ones |
| RuntimeTheorems.UpdateKeepsCapacity | internal/httpapi/app_lifecycle.go:495-525 | an accepted update never lowers the shared capacity, whatever template and request |
| RuntimeTheorems.ChainKeepsCapacity | internal/httpapi/app_lifecycle.go:495-525 | nor does any chain of them |
| RuntimeTheorems.SelectedCapacity | internal/httpapi/server.go:930-972 | with an editable volume the capacity becomes exactly the chosen one |
| RuntimeTheorems.CapacityIsLargestIff | internal/runtime/spec.go:486-495 | the capacity is the documented largest size if and only if one is declared or the last mount is a largest |
| RuntimeTheorems.SmallerLastMountCounts | internal/runtime/spec.go:457-478 | two mounts of 20 and then 10 GiB count as 10 |
| RuntimeTheorems.UndeclaredOptionsRefuseUpdates | internal/httpapi/server.go:930-947 | a valid template with mounts and no declared options refuses every update |
| RuntimeTheorems.OneMountIsNeverUpdated | internal/httpapi/server.go:930-947 | a concrete valid template with one mount of 10 GiB that refuses every update |
| RuntimeIdentity.NoRequestIsIdentityIff | internal/httpapi/app_lifecycle.go:476-572 | over a valid template a request-free update succeeds if and only if the options are declared or there are no volumes; it then keeps everything, and the command unless an empty one hides the template's |
| RuntimeIdentity.CommandKeptIff | internal/runtime/spec.go:400-442 | when exactly the command survives |
| RuntimeIdentity.EmptiedCommandComesBack | internal/httpapi/app_lifecycle.go:526-534 | a concrete template and choice: the user empties the command and a request-free update brings the template's back |
| RuntimeRequests.UpdateTakesRequest | internal/httpapi/app_lifecycle.go:476-572 | after an accepted update every CPU, memory, variable, command and dependency is what was asked for, else what is in use (resources raised to the template's), else the template's, and everything else is the template's |
| RuntimeRequests.UpdateTakesCapacity | internal/httpapi/app_lifecycle.go:495-525 | with an editable volume the capacity is the largest of the sizes asked for, or the larger of the one in use and the template's |
| RuntimeRequests.UpdateKeepsFixedCapacity | internal/httpapi/server.go:930-972 | otherwise it is the template's |
| RuntimeRequests.UpdateAllowedIff | internal/httpapi/app_lifecycle.go:495-534 | exactly when an update is not refused before the template is edited |
| RuntimeRequests.SelectionTaken | internal/httpapi/server.go:900-1017 | a first deployment gets what was chosen and otherwise the template |
| RuntimeRequests.RefusedIffNotWithin | internal/httpapi/server.go:900-1000 | a choice is refused if and only if it names a member the template fixes or a resource below the template's |
| Slugs.CandidateIsSlug | internal/httpapi/server.go:1233-1244 | every candidate matches the pattern and fits 63 characters |
| Slugs.CandidateMeans | internal/httpapi/server.go:1233-1244 | the first candidate is the base; a later one is the base, cut to leave room, with a dash and its number |
| Slugs.CandidatesDistinct | internal/httpapi/server.go:1233-1244 | the numbered candidates are pairwise different |
| Slugs.AllocateUserAppSlug | internal/httpapi/server.go:1250-1262 | the loop returns the first free candidate of 512, if any |
| Slugs.EarlierAreTaken | internal/httpapi/server.go:1250-1262 | every candidate before the returned one is taken |
| Slugs.AllocationSucceeds | internal/httpapi/server.go:1250-1262 | with at most 510 live applications a free slug is returned |
| Slugs.AllocationCanFailAt511 | internal/httpapi/server.go:1250-1262 | 510 is exact: some base and 511 live applications leave none |
| Amounts.PrintedAmountParses | internal/httpapi/payment_features.go:72-74 | parsing a printed amount gives it back, for every amount from 0 to the largest int64 |
| Amounts.AcceptedTexts | internal/httpapi/epay_callback.go:202-233 | a text is accepted if and only if, trimmed, it is digits with an optional fraction of at most two digits or a sign form and the amount fits an int64, and it parses to that amount |
| Amounts.CanonicalParse | internal/httpapi/epay_callback.go:202-233 | canonical texts parse to their amount if it fits an int64 and are refused otherwise |
| Amounts.WholeParse | internal/httpapi/epay_callback.go:202-233 | the same for digits without a point |
| Amounts.ParsedInRange | internal/httpapi/epay_callback.go:229-232 | no accepted text wraps around, canonical or not |
| Amounts.Pad | internal/httpapi/epay_callback.go:217-220 | the padding loop ends with the text followed by zeros up to two characters |
| Amounts.ParseAmount | internal/httpapi/epay_callback.go:202-233 | the parser, check by check, with its order of errors |
| Amounts.PlusInFraction | internal/httpapi/epay_callback.go:225-228 | a plus before one digit of the fraction counts that digit in cents |
| Amounts.BareMinusInFraction | internal/httpapi/epay_callback.go:225-228 | a bare minus, or one before a zero, counts as no cents |
| Amounts.MinusInFraction | internal/httpapi/epay_callback.go:225-231 | a minus before another digit wraps the bound and the text is out of range |
| Amounts.SignedExamples | internal/httpapi/epay_callback.go:202-233 | "1.+5" is 105 and "1.-0" is 100 |

## Left out

- LifecycleTheorems.FailureLeavesLiveReleaseAlone: speaks of rows, not containers; container and port-mapping clean-up after a failure are I/O.
- Accounts.Price: uses exact rationals, where PostgreSQL's numeric division may first round beyond the twelfth decimal.
- MeteringStore.MeterTables.IngestEgressSample: takes the open-window check, the clock reading and the insert as one step; time is in whole seconds. Samples of product tests, which are accepted and not stored, are not part of it.
- MeteringStore.MeterTables.MeterEgress: does not write app_egress_billing_cursors, which nothing reads.
- MeteringInvariant.BytesReadBack: from about 10^17 bytes in one five-minute window on, PostgreSQL's division keeps fewer than twelve decimals, and the bytes can no longer be read back; the model keeps twelve for every size.
- Slugs.AllocateUserAppSlug: takes the two name columns of an application as the table holds them; that they are equal is what createApp writes (internal/httpapi/server.go:1409).
- Amounts.ParseAmount: trims white space of one byte only, and texts are sequences of one-byte characters.
- RuntimeMethods.ValidateRuntimeSpec: counts characters where the code counts bytes, and folds the checks on members no overlay touches (privileges, networks, secret metadata, descriptions) into one flag.
- Idempotency-key replays of lifecycle and purchase requests: they change nothing, so they are steps that do not happen.
- Checks that only refuse a request for reasons outside the tables modelled (quotas, required dependencies, missing secrets or backups, permissions): a refusal changes nothing, so leaving them out only adds runs.
- The unique index on unfinished stop jobs is taken as a guard of the stop request; those on deployments and restores are not assumed, they are proved redundant.
- The batch limits of the worker queries: any choice within them is allowed. Restores, and usage rows in `BillingQueue`, are claimed oldest first by a single worker, as deploy/compose.yaml runs it; rows of the same instant or window may be claimed in either order. In the account machine by itself any claimable row may be billed.
- BillingQueue.BillingHaltsIffFirstUnpayable: takes price versions as fixed, and a row that no other waiting row of the same or an earlier window competes with.
- PipelineTheorems.JoinedRunKeeps: joins the meter to the rows of one user, who owns the applications metered.
- Worker passes that return without committing, for example for want of a base domain or an image: they change nothing, so the counts of passes are of committed ones.
- One-off usage events of a deployment (app.deployment, product.authorization, network.public_ingress).
- grant_subscription_credit inside a purchase, and the processors for expired subscriptions and periodic credit: credit arrives by the CreditGranted step.
- The int64 sum of the credit balance in the worker is unbounded here.
- An application deleted from its table, which would clear the application of charges and aggregates: rows are only marked deleted.
- Container naming, Docker, Caddy, mail, notifications, audit rows, metrics, listings, settings and access control.
