# Payment service: rows, runs and money

A Dafny model of a multi-tenant payment service. The service keeps its state in database rows and in
Redis entries; the model describes what every run of the services does to those rows, and proves what
the runs keep. `dafny verify dfyconfig.toml` checks the whole project.

## How the model is built

Each service that updates rows is a class, or a method over the tables of `PaymentRows.Database`, with
the source's own branches, writes and loops. Each such method is proved equal to a function on the rows
as values, and the properties are lemmas about that function and about runs of it.

| module | models |
|---|---|
| `Common` | optional values, results and errors |
| `Calendar`, `Periods` | the proleptic Gregorian calendar of section 21.4.1 of ECMA-262; the service's clamped period arithmetic and the script's overflowing one |
| `Subscriptions`, `RenewalRuns` | renewal, plan change and cancellation; serial runs of them in which a call may end at any await |
| `RenewalRows` | every field that a renewal, a plan change or a cancellation writes, and the status over runs |
| `RenewalFailures`, `RenewalInvoices` | the retry limit and the grace period over runs of failing renewals; the invoices that renewals create |
| `Ledger` | the append-only double-entry log and the balance loop |
| `PaymentRows`, `Settlement`, `SerialVerification` | the tables, the attempt writes, `verifyPayment` as one call |
| `SettlementRows` | every row that a settlement writes, alone, with an older snapshot and over runs |
| `Protocol`, `ExactlyOnce` | `verifyPayment` split at its awaits, interleaved with every other write |
| `Refunds`, `RefundRuns`, `RefundScenarios` | `createRefund` as one call, split at its awaits, and as an event sequence of the protocol |
| `RefundLedger` | what refunds have reversed in the ledger and what the provider has taken on |
| `Initiation`, `Reconciliation`, `Webhooks` | the callers of the protocol: payment initiation, the reconciliation worker, webhook deliveries |
| `WebhookEvents` | what each event asks for and does, and what a delivery logs |
| `WebhookRuns` | runs of webhook deliveries with duplicates, failures and lost marks |
| `Idempotency` | the request interceptor with its timed lock and response cache |
| `Decimals`, `Billing`, `InvoiceNumbers`, `Invoices` | decimal.js arithmetic, GST per line and per invoice, invoice numbers, invoice creation |
| `Backfill` | the legacy subscription script |

Conventions. A row's id is its index in its table: rows are never deleted. Time values are milliseconds
in UTC. The provider is an adversary: any answer, at any time. The settling block reads a snapshot taken
when it opens, `updateMany` checks each row again when it writes, the partial unique index is checked at
the commit, and an error leaves every row as it was. The snapshot is an abstraction: `withTransaction`
(src/prisma/prisma.service.ts:63-71) names no isolation level, so under PostgreSQL's READ COMMITTED each
statement has a snapshot of its own, which is never older than the one of the model. Row locks only
remove interleavings, so they are not modelled. Hashes are injective. The clock, the provider's answers,
query results and the point at which a process dies are inputs, so each theorem is about all of them.

## What the code does beside what is said of it

- `verifyPayment` does not compare the attempt's transaction with the one it is given, and reads the
  attempt before its atomic block. `ForeignTransactionUnsettles` and `OverlapPaysTwice` show what each
  costs; `CommitSettlesExactlyWhen` gives the exact condition under which a commit keeps every
  transaction paid exactly once.
- `markSuccess` returns quietly on an attempt that is already SUCCESS, and the block then writes the
  ledger again. `markFailed` and `markExpired` overwrite any status (`OverwriteSettlesExactlyWhen`).
- A comment in `verifyPayment` says that the other attempts become FAILED; they become CANCELLED, and only
  those that the block's snapshot has: one created while the block is open stays payable on a settled
  transaction (`LateAttemptStaysPayable`), and no other does (`PayableIsLate`).
- `createRefund` reads the refunded sum outside its block and counts only SUCCESS refunds: `k`
  overlapping calls can refund `k` times the amount (`OverlapReachesBound`), and never more. A deferred
  refund is booked and moves the transaction's status without counting as refunded. So does one whose row
  cannot be read again after the commit, and a refund that the provider accepted but whose commit fails
  counts nowhere: even one call at a time the ledger and the provider can exceed the amount, exactly while
  the transaction is refundable and something is missing from the count (`ExceedsExactlyWhen`).
- A refund that FAILED is described as one that can be retried. The same key returns the FAILED row.
- Renewal is described as retrying up to a limit and then expiring. A failure makes the next call open a
  new cycle with count 1, so in runs whose calls are not cut short a limit of 2 or more never decides
  (`RetryLimitNeverDecides`); the grace period does, and it ends failures that come before the advance of
  the period (`GraceEnds`). A call that throws at the PAID write has advanced the period already, while
  its handler judges the old period end: such failures can leave the subscription PAST_DUE any number of
  times and never expire it (`LateFailuresNeverEnd`). The bound of `gracePeriodDays` + 1 holds for the
  writes since the last advance, whatever the point of failure (`GraceBound`,
  `FailureKeepsPeriodExactlyWhen`). A negative setting, which is accepted, expires at the first failure.
- A renewal that fails between its invoice and the advance leaves the invoice, and the retry bills the
  period again (`RetryBillsAgain`, `InvoicesPerPeriodExactlyWhen`).
- Nothing demands a positive interval count of a plan (src/modules/subscription/subscription.controller.ts:50,
  src/modules/subscription/plan.service.ts:33). A count of 0 leaves the period where it is: the renewal
  after a paid one takes the early return on a PAID cycle, and so does every later one
  (`ZeroCountSticksExactlyWhen`). In general that return is taken exactly when the period has come back to
  the start of a paid one (`EarlyReturnExactlyWhen`), and never while every count used is positive
  (`RenewableAlwaysStarts`).
- The periods are contiguous and ascending exactly when every period was made with a positive count. Then
  the PAID cycles cover every past period exactly when no call ends between the advance of the period
  and its PAID mark (`PeriodsTile`).
- `initiatePayment` promises to replay a repeated request. It does so while the result is cached; after
  that it adds attempts to the same transaction and sets a SUCCESS status back
  (`RetryKeepsSuccessExactlyWhen`). The cache knows no tenant and keyed creation does not compare the
  order: `ReplyIsOwnExactlyWhen` says when a reply is the caller's own.
- A webhook event is marked as processed after its processing, in the same `try`. If the mark is lost, by a
  throw or because the process dies, the event is applied and the provider sends it again. Payment events
  with an order id then change nothing, whatever was delivered in between, but a redelivered subscription event
  writes its row over a newer one (`StaleSyncReturns`, `RedeliveryChangesNothingExactlyWhen`).
- The interceptor's lock is deleted by whoever finishes, whoever holds it
  (`SlowRequestUnlocksAnother`). A request that missed the cache before a success was stored can replace
  the day-long entry by a five-minute error, after which the key runs again (`ErrorStoreReopensKey`).
  The lifetime of a success is kept over all runs exactly when, at its store, no request is left that
  may still store a client error (`LifetimeHeldExactlyWhen`).
- Razorpay deliveries are deduplicated by an id that the service builds; it repeats exactly when the
  body names a payment or an order (`RazorpayIdStableExactlyWhen`).
- A Razorpay payment without an order id is looked up with no filter at all, and settles or fails
  whichever attempt the database returns; `ReprocessingIsQuiet` then holds while it is the same one.
- Tax is exact while amount times rate fits into 20 digits. Beyond that the product is rounded before
  the division rounds again (`TaxExactlyWhen`, `LargeTaxIsInexact`), and a line's tax is within the half
  unit, or unit, of exact rounding exactly when that does not lift it over one half (`LineErrorExactlyWhen`,
  `LiftedLineExceeds`). Taxing the other way still changes a line by one unit at most (`LinesDiffer`).
- The script's month arithmetic lets the day overflow, the service's clamps it
  (`LegacyAgreesExactlyWhen`).
- The script joins a fingerprint's parts with a bar: ids that contain one can share a fingerprint across
  tenants (`FingerprintsCollide`, `FingerprintsAgreeExactlyWhen`).
- A negative tax amount breaks the split of a payment's receivable
  (`SplitKeepsReceivableExactlyWhen`).

## Model

| member | source | states |
|---|---|---|
| Calendar.DateFromDay | src/modules/subscription/subscription.service.ts:605-617 | every day number is the number of the valid date it yields, over all years; the date arithmetic under both period functions |
| Calendar.DatesOrdered | src/modules/subscription/subscription.service.ts:605-617 | calendar order is day-number order, both ways, so a day number has one date |
| Calendar.DateOfDayNumber | scripts/backfill-legacy-subscriptions.mjs:45-64 | date to day number and back is the identity on valid dates |
| Calendar.Epoch | scripts/backfill-legacy-subscriptions.mjs:45-64 | day 0 is 1970-01-01 |
| Calendar.DayNumberClosed | src/modules/subscription/subscription.service.ts:605-617 | for every month of every year, which days exist and their day numbers, by one formula without month lengths or leap years |
| Calendar.TimeValue | scripts/backfill-legacy-subscriptions.mjs:45-64 | a UTC date and time of day, as milliseconds since the epoch, reads back as that date and time |
| Periods.AddMonthsDate | src/modules/subscription/subscription.service.ts:605-617 | a month step lands in the target month, on the same day or the month's last, at the same time of day |
| Periods.PeriodEndDate | src/modules/subscription/subscription.service.ts:605-617 | for every interval and count: days and weeks move the day number, months and years the month or the year, to the same day or the last one the month has; the time of day stays |
| Periods.StepAdvancesExactlyWhen | src/modules/subscription/subscription.service.ts:605-617 | the next period end is later than its start exactly when the interval count is at least 1 |
| Periods.StepStaysExactlyWhen | src/modules/subscription/subscription.service.ts:605-617 | the next period end is its start exactly when the interval count is 0, for every interval |
| Periods.RenewedDate | src/modules/subscription/subscription.service.ts:492-497 | the exact date after n successive monthly renewals: the day shrinks to the shortest month landed in and never grows back |
| Periods.DriftBounded | src/modules/subscription/subscription.service.ts:492-497 | n renewals land in the month of one n-fold jump, never later, at most 3 whole days earlier, equal up to day 28 |
| Periods.DriftIsReached | src/modules/subscription/subscription.service.ts:605-617 | the bound of 3 days is attained |
| Periods.CalculateNextPeriodEnd | scripts/backfill-legacy-subscriptions.mjs:45-64 | the script's period end, by setters on a mutable date, is the overflow function; a count below 1 is taken as 1 |
| Periods.AddDaysInPlace | scripts/backfill-legacy-subscriptions.mjs:39-43 | setDate past the month's end moves the date by exactly that many days |
| Periods.LegacyIsLaterByOverrun | scripts/backfill-legacy-subscriptions.mjs:45-64 | for counts of 1 or more the script is later than the service by exactly the days that overflow, 0 to 3, and 0 up to day 28; every other count is taken as 1 |
| Periods.LegacyAgreesExactlyWhen | scripts/backfill-legacy-subscriptions.mjs:45-64 | script and service agree exactly on positive counts with a daily or weekly interval or a day that the target month has |
| Subscriptions.SubscriptionService.ProcessRenewal | src/modules/subscription/subscription.service.ts:413-551 | renewal in place, with the invoice it creates and issues, ended at any await or by a throw with its handler, leaves the rows of the specification |
| RenewalRows.RenewalWritesSubscription | src/modules/subscription/subscription.service.ts:430-547 | wherever a renewal ends: the period moves on exactly past the advance; the status is PAST_DUE or EXPIRED, by grace period and attempts, if the handler writes it, else ACTIVE past the advance, else unchanged |
| RenewalRows.RenewalWritesCycles | src/modules/subscription/subscription.service.ts:443-528 | wherever a renewal ends: the one live cycle of the period, or a new one, has one attempt more and is PAID, FAILED or PROCESSING by the ending; no other cycle changes |
| RenewalRows.StartsExactlyWhen | src/modules/subscription/subscription.service.ts:416-443 | a renewal starts exactly for ACTIVE, PAST_DUE and TRIALING, with its plan there and no PAID cycle of the period |
| RenewalRows.StatusFollowsLastWrite | src/modules/subscription/subscription.service.ts:266-551 | after every serial run, wherever each call ends, the status is that of the last status write: ACTIVE by an advance, PAST_DUE or EXPIRED by a handled failure, CANCELLED |
| RenewalRows.UncutFailureExactly | src/modules/subscription/subscription.service.ts:524-547 | in uncut runs with a limit of 2 or more a handled failure leaves EXPIRED exactly past the grace period of the period end it read, PAST_DUE otherwise |
| RenewalRows.PlanChangeExactly | src/modules/subscription/subscription.service.ts:323-379 | a plan change writes the plan and nothing else, exactly for an ACTIVE, PAST_DUE or TRIALING subscription, another and active plan and no provider id beyond white space |
| Subscriptions.SubscriptionService.UpdateSubscriptionPlan | src/modules/subscription/subscription.service.ts:313-407 | a plan change writes the plan id under the source's five conditions and nothing else |
| Subscriptions.SubscriptionService.CancelSubscription | src/modules/subscription/subscription.service.ts:266-311 | cancellation, immediate or at the period end; a second one is refused |
| RenewalRuns.FirstPeriodExactlyWhen | src/modules/subscription/subscription.service.ts:89-130 | with or without a trial, a new subscription has a first period of positive length exactly when its plan's count is positive, and an empty one exactly when it is 0 |
| RenewalRuns.AdvanceTilesExactlyWhen | src/modules/subscription/subscription.service.ts:492-503 | an advance keeps the periods contiguous and ascending exactly when the interval count of its plan is positive |
| RenewalRuns.PeriodsTile | src/modules/subscription/subscription.service.ts:430-547 | over every serial run, whatever the plans and at whatever await each call ends, each advance makes a period one plan interval long; the periods form one ascending contiguous chain with one live cycle per start exactly when every count used was positive; then the PAID cycles tile it exactly when no call slips between advance and PAID mark |
| RenewalRuns.EarlyReturnExactlyWhen | src/modules/subscription/subscription.service.ts:439-443 | over every serial run and all plans, a renewal takes the early return on a PAID cycle exactly when the current period starts where a paid one did |
| RenewalRuns.RenewableAlwaysStarts | src/modules/subscription/subscription.service.ts:439-443 | while every interval count used is positive, the early return on a PAID cycle is never taken |
| RenewalRuns.ZeroCountSticksExactlyWhen | src/modules/subscription/subscription.service.ts:439-499 | a completed renewal of a new subscription leaves one that no later renewal changes exactly when the plan's count is 0 |
| RenewalFailures.RetryLimitNeverDecides | src/modules/subscription/subscription.service.ts:524-547 | in runs without a cut every cycle has count 1, and any two limits of 2 or more give the same run |
| RenewalFailures.LimitOfOneExpires | src/modules/subscription/subscription.service.ts:529-547 | a limit of 1 expires at the first failure where a limit of 2 leaves PAST_DUE |
| RenewalFailures.FailureKeepsPeriodExactlyWhen | src/modules/subscription/subscription.service.ts:499-547 | a failing call keeps the period end exactly when it throws before the advance or the plan's count is 0 |
| RenewalFailures.GraceBound | src/modules/subscription/subscription.service.ts:524-547 | failing calls, each due and a day or more apart, thrown at any point of the try, leave PAST_DUE at most max(0, gracePeriodDays + 1) times since the last advance, and that many times for each late failure and once more in all |
| RenewalFailures.GraceEnds | src/modules/subscription/subscription.service.ts:524-547 | daily calls that fail before the advance leave PAST_DUE at most max(0, gracePeriodDays + 1) times, and the failure after that has expired the subscription |
| RenewalFailures.LateFailuresNeverEnd | src/modules/subscription/subscription.service.ts:508-547 | for every plan of positive count, grace period and n, with a limit of 2 or more, n due calls a day or more apart that throw at the PAID write leave PAST_DUE n times and never expire |
| RenewalFailures.LateFailuresLastExactlyWhen | src/modules/subscription/subscription.service.ts:508-547 | these n calls leave PAST_DUE every time exactly when gracePeriodDays is not negative and the limit is 2 or more |
| RenewalInvoices.InvoicesPerPeriodExactlyWhen | src/modules/subscription/subscription.service.ts:466-508 | over every serial run with positive counts each past period has an invoice, and no period two, exactly when no call bills after one that billed and ended before the advance; for created and for issued invoices |
| RenewalInvoices.RetryBillsAgain | src/modules/subscription/subscription.service.ts:487-503 | a failure at the advance and a completed retry issue two invoices for one period, unless the failure expired the subscription |
| Ledger.LedgerService.RecordPayment | src/modules/ledger/ledger.service.ts:59-98 | appends the payment entry, or the revenue and tax entries, and nothing else |
| Ledger.LedgerService.RecordRefund | src/modules/ledger/ledger.service.ts:109-141 | appends the two refund entries and nothing else |
| Ledger.LedgerService.GetAccountBalance | src/modules/ledger/ledger.service.ts:155-178 | the query and loop return the sums of the matching debits and credits and their difference |
| Ledger.MatchingSums | src/modules/ledger/ledger.service.ts:155-178 | the query's filter loses no entry that the balance counts |
| Ledger.BalanceAddsOverRanges | src/modules/ledger/ledger.service.ts:155-178 | balances add over adjacent date ranges |
| Ledger.BalanceAddsOverLogs | src/modules/ledger/ledger.service.ts:155-178 | balances add over logs appended to each other |
| Ledger.RunsConserve | src/modules/ledger/ledger.service.ts:59-141 | after any run of records the earning accounts balance, and so do the refund accounts, in every currency and date range |
| Ledger.BalancesFollowRecords | src/modules/ledger/ledger.service.ts:59-141 | over every run without negative taxes each of the five balances is what its account stands for: paid less refunded, earned less refunds, the tax, the refunds owed and the cash gone out |
| Ledger.SplitKeepsReceivableExactlyWhen | src/modules/ledger/ledger.service.ts:59-98 | the tax split leaves the receivable debit at the full amount exactly when the tax is not negative |
| Ledger.EntryCountsExactly | src/modules/ledger/ledger.service.ts:155-178 | an entry counts for an account on its side, in its currency, from the first to the last millisecond of the range |
| PaymentRows.Database.Restore | src/prisma/prisma.service.ts:63-71 | a rolled-back block leaves the tables as they were when it began |
| Settlement.OverwriteStatus | src/modules/payment/attempt/payment-attempt.service.ts:121-138 | markFailed and markExpired write their status whatever the row's status is |
| Settlement.ExpireStalePendingAttempts | src/modules/payment/attempt/payment-attempt.service.ts:141-150 | expires exactly the open attempts past their time and counts them |
| SettlementRows.ExpiryExactly | src/modules/payment/attempt/payment-attempt.service.ts:141-150 | EXPIRED is written to exactly the PENDING and PROCESSING attempts past their time, and their number is returned |
| Settlement.MarkSuccessInPlace | src/modules/payment/attempt/payment-attempt.service.ts:93-119 | quiet return on SUCCESS, conflict on another SUCCESS of the transaction, else the write |
| Settlement.CancelOthersInPlace | src/modules/payment/orchestrator/payment-orchestrator.service.ts:307-314 | cancels exactly the other open attempts of the transaction |
| Settlement.VerifyPayment | src/modules/payment/orchestrator/payment-orchestrator.service.ts:261-374 | the whole call in place, with its block rolled back when markSuccess or the subscription sync throws |
| SettlementRows.VerifyEndsExactly | src/modules/payment/orchestrator/payment-orchestrator.service.ts:261-374 | for every answer, exactly when the call does not find its rows, is decided already, is refused, meets a SUCCESS of another attempt or fails at the provider |
| SettlementRows.SettlingCancelsExactly | src/modules/payment/orchestrator/payment-orchestrator.service.ts:286-314 | a call that settles leaves no payable attempt of its transaction; every other attempt of another transaction, or not payable, is unchanged |
| SettlementRows.OtherwiseOnlyFails | src/modules/payment/orchestrator/payment-orchestrator.service.ts:268-374 | any other call changes at most its own attempt, to FAILED, exactly when it returns without success on one not decided before |
| SettlementRows.BlockCancelsExactly | src/modules/payment/orchestrator/payment-orchestrator.service.ts:286-314 | a block with an older snapshot cancels another attempt exactly when it is of the transaction, payable at the commit and payable in the snapshot; every other is unchanged |
| SettlementRows.BlockEndsExactly | src/modules/payment/orchestrator/payment-orchestrator.service.ts:286-343 | how a block with an older snapshot ends: rows missing, a SUCCESS it sees, a SUCCESS only the index sees, an inactive plan, or the commit |
| SettlementRows.BlockWritesExactly | src/modules/payment/orchestrator/payment-orchestrator.service.ts:316-331 | the block sets one transaction to SUCCESS and appends one entry, receivable to revenue, of the attempt's amount and currency |
| SettlementRows.SyncExactly | src/modules/payment/orchestrator/payment-orchestrator.service.ts:376-515 | a confirmed payment creates or rewrites one subscription row exactly if it is recurring with a plan, and paid by cash or with known provider id and period; an inactive plan refuses exactly these |
| SettlementRows.PayableIsLate | src/modules/payment/orchestrator/payment-orchestrator.service.ts:286-343 | over every interleaving, unguarded writes included: once a block of a transaction has committed, an attempt of it that can still be paid was created after that block opened |
| SettlementRows.LateAttemptStaysPayable | src/modules/payment/orchestrator/payment-orchestrator.service.ts:307-314 | such a run exists: the attempt stays PENDING on a SUCCESS transaction |
| SerialVerification.ThrowingChangesNothing | src/modules/payment/orchestrator/payment-orchestrator.service.ts:286-343 | a verification that throws leaves attempts, transactions, ledger and subscriptions unchanged |
| SerialVerification.SettlingEffect | src/modules/payment/orchestrator/payment-orchestrator.service.ts:286-343 | a settling call makes its attempt the first SUCCESS of its transaction, changes no other SUCCESS and one transaction status |
| SerialVerification.OtherEffect | src/modules/payment/orchestrator/payment-orchestrator.service.ts:268-374 | a call that does not settle changes no SUCCESS, no transaction and no ledger entry |
| SerialVerification.VerifyKeepsSettled | src/modules/payment/orchestrator/payment-orchestrator.service.ts:261-374 | serial verifications under the attempt's own transaction keep every transaction paid exactly once |
| Protocol.BlockAttempts | src/modules/payment/orchestrator/payment-orchestrator.service.ts:286-314 | what a committing block does to the attempts when its snapshot is older than its commit |
| Protocol.BlockPayments | src/modules/payment/orchestrator/payment-orchestrator.service.ts:323-331 | a committing block adds exactly one PAYMENT entry, to its own transaction |
| Protocol.EveryRunKeepsUniqueSuccess | prisma/seed.ts:20-24 | in every interleaving, unguarded writes included, no transaction has two SUCCESS attempts and its PAYMENT entries number its committed blocks |
| Protocol.EveryRunConserves | src/modules/ledger/ledger.service.ts:59-178 | the books balance after every interleaving, in every currency and date range |
| Protocol.OverwriteSettlesExactlyWhen | src/modules/payment/attempt/payment-attempt.service.ts:121-138 | an unguarded status write keeps exactly-once settlement exactly when its target is not SUCCESS |
| Protocol.CommitSettlesExactlyWhen | src/modules/payment/orchestrator/payment-orchestrator.service.ts:264-343 | a commit keeps exactly-once settlement exactly when the call names the attempt's own transaction and the attempt was SUCCESS neither in the snapshot nor at the commit |
| ExactlyOnce.SettledExactlyOnce | src/modules/payment/orchestrator/payment-orchestrator.service.ts:261-374 | with verifications of different attempts overlapping freely, those of one attempt not overlapping and no SUCCESS overwritten, a transaction has one PAYMENT entry of its successful attempt's amount, or none |
| ExactlyOnce.EmptyIsSettled | src/modules/payment/orchestrator/payment-orchestrator.service.ts:261-374 | an empty database meets the hypotheses, so the theorem covers every run from the beginning |
| ExactlyOnce.AloneIsARun | src/modules/payment/orchestrator/payment-orchestrator.service.ts:261-374 | verifyPayment as one call is the run of its steps with nothing in between |
| ExactlyOnce.OverlapPaysTwice | src/modules/payment/attempt/payment-attempt.service.ts:99-101 | two overlapping confirmed verifications of any open attempt write two PAYMENT entries |
| ExactlyOnce.ForeignTransactionUnsettles | src/modules/payment/orchestrator/payment-orchestrator.service.ts:264-265 | a verification that names another transaction pays one without a successful attempt |
| Refunds.CreateRefundInPlace | src/modules/payment/refund/refund.service.ts:48-177 | createRefund in place, with its summing loop, its block and its failure branch |
| Refunds.CreateRefundEndsExactly | src/modules/payment/refund/refund.service.ts:48-177 | every way a call ends: key used, not found, not eligible, too much, or at the provider, failing exactly if the provider throws, the block does not commit or the re-read fails |
| Refunds.RefundRowExactly | src/modules/payment/refund/refund.service.ts:93-176 | the row of a call that reached the provider has the request's tenant, transaction, key and amount in the transaction's currency, and is FAILED exactly if the call threw after the insert, PROCESSING exactly on a deferred answer otherwise; no other row changes |
| Refunds.TargetExactlyWhen | src/modules/payment/refund/refund.service.ts:93-100 | a refund finds a provider order exactly when a successful attempt of the transaction has one |
| Refunds.CreateRefundAdds | src/modules/payment/refund/refund.service.ts:83-154 | a call adds nothing, or one refund row of the request's amount, with the two reversal entries exactly if it commits |
| Refunds.CreateRefundSums | src/modules/payment/refund/refund.service.ts:75-154 | what one call adds to the refunded sum and to the reversed revenue of each transaction |
| Refunds.RefundKeepsLadderExactlyWhen | src/modules/payment/refund/refund.service.ts:124-176 | one call keeps status, refunded sum and ledger in agreement exactly when it does not commit, or the provider accepted and the read after the commit returned |
| Refunds.SerialRefundsKeepLadder | src/modules/payment/refund/refund.service.ts:48-177 | over serial runs whose provider answers SUCCESS or throws: REFUNDED exactly at the full sum, PARTIALLY_REFUNDED exactly strictly between, and the reversed revenue equals that sum |
| Refunds.SerialRowsExactly | src/modules/payment/refund/refund.service.ts:48-177 | over every serial run the table grows by one row for each call that reached the provider, and each keeps the status its own call ended it in |
| Refunds.KeyReachesProviderOnce | src/modules/payment/refund/refund.service.ts:48-104 | in a serial run no key of a transaction reaches the provider twice |
| Refunds.FailedKeyIsNotRetried | src/modules/payment/refund/refund.service.ts:48-60 | the key of a FAILED refund returns the FAILED row and changes nothing |
| RefundRuns.RefundsNeverExceed | src/modules/payment/refund/refund.service.ts:75-154 | with at most k unfinished calls on a transaction, SUCCESS refunds plus admitted uncommitted amounts never exceed k times its amount, in every interleaving |
| RefundRuns.OneAtATimeNeverExceeds | src/modules/payment/refund/refund.service.ts:75-90 | one call at a time: refunds never exceed the original amount |
| RefundScenarios.SettledAmongRefunds | src/modules/payment/refund/refund.service.ts:124-154 | exactly-once settlement and balanced books hold with any refund calls interleaved |
| RefundScenarios.AloneIsARun | src/modules/payment/refund/refund.service.ts:48-177 | createRefund as one call is the run of its steps with nothing in between |
| RefundScenarios.OverlapReachesBound | src/modules/payment/refund/refund.service.ts:75-90 | for every k, k overlapping full refunds are all admitted and refund k times the amount |
| RefundLedger.TakenExceedsByMissing | src/modules/payment/refund/refund.service.ts:75-176 | over every serial run the ledger has reversed, and the provider has taken on, exactly the SUCCESS refunds and what was booked or paid without ending SUCCESS; never more than the amount and that part |
| RefundLedger.ExceedsExactlyWhen | src/modules/payment/refund/refund.service.ts:75-176 | while no more than the amount is reversed, or paid, some next call can exceed it exactly when the transaction is refundable and something is missing from the count |
| RefundLedger.ReversalNeverExceeds | src/modules/payment/refund/refund.service.ts:75-176 | in every interleaving with at most k unfinished calls, reversed revenue plus admitted uncommitted amounts never exceed k times the amount and what was missed in the run |
| RefundLedger.RowsFollowCalls | src/modules/payment/refund/refund.service.ts:102-176 | in every interleaving each refund row is its request's: PROCESSING until booked or on a deferred answer, SUCCESS on an accepted one, FAILED exactly if its own call's handler wrote last |
| RefundLedger.FailingExactlyWhen | src/modules/payment/refund/refund.service.ts:114-176 | a call gets to its handler exactly when the provider throws, the block does not commit or the re-read fails |
| Initiation.PaymentOrchestrator.CreateTransaction | src/modules/payment/transaction/transaction.service.ts:38-74 | keyed creation: the key's transaction if there is one, conflict on the order, else one PENDING row |
| Initiation.PaymentOrchestrator.InitiatePayment | src/modules/payment/orchestrator/payment-orchestrator.service.ts:146-254 | initiatePayment in place: cache, keyed creation, the provider loop, FAILED with an error or PROCESSING with a cached result |
| Initiation.PaymentOrchestrator.UpdateStatus | src/modules/payment/transaction/transaction.service.ts:102-118 | the status write, whatever the status was; a missing transaction throws |
| Initiation.OffersPartitionProviders | src/modules/payment/orchestrator/payment-orchestrator.service.ts:184-223 | each provider becomes exactly one option or one failure |
| Initiation.OptionsAreNewAttempts | src/modules/payment/orchestrator/payment-orchestrator.service.ts:184-239 | the options are the new attempts, in order, one for each provider that made an order: PENDING, of this transaction, with its provider, order id and expiry and the request's amount and currency; none is left exactly when all providers fail |
| Initiation.InitiateExactly | src/modules/payment/orchestrator/payment-orchestrator.service.ts:156-253 | without a cached result: refused, with nothing written, exactly for a new key on a taken order; else the key's transaction, or a new one with the request's fields, becomes PROCESSING or FAILED, and only a success is cached, for the lifetime |
| Initiation.UncachedRetryReopens | src/modules/payment/orchestrator/payment-orchestrator.service.ts:156-253 | a later retry adds no transaction, adds one attempt per answering provider and rewrites the status |
| Initiation.ReplyIsOwnExactlyWhen | src/modules/payment/orchestrator/payment-orchestrator.service.ts:149-168 | after every serial run a reply names a transaction of the caller's tenant and order exactly when a live entry of the key was stored by that tenant and the tenant's transaction of the key, if any, is for that order |
| Initiation.RunsKeepKeysUnique | src/modules/payment/transaction/transaction.service.ts:38-74 | over every serial run keys and orders are unique per tenant, and settlement is untouched |
| Reconciliation.ReconciliationService.ReconcileStaleTransactions | src/modules/payment/reconciliation/reconciliation.service.ts:41-114 | the nested loop with its counters over the batch loaded at the start, the expiry after it, and the lock taken and deleted; zeros while the lock is held |
| Reconciliation.BatchWorkExactly | src/modules/payment/reconciliation/reconciliation.service.ts:63-88 | a batch verifies exactly the loaded transactions' attempts that were PENDING or PROCESSING, each once, under their own transaction and tenant |
| Reconciliation.ReconciliationAccounts | src/modules/payment/reconciliation/reconciliation.service.ts:63-110 | recovered + failed equals the loaded attempts, recovered <= checked, each recovered transaction ends SUCCESS with exactly one SUCCESS attempt and every other transaction is unchanged, for all answers |
| Reconciliation.BatchKeepsSettled | src/modules/payment/reconciliation/reconciliation.service.ts:79-98 | a batch keeps every transaction paid exactly once |
| Webhooks.WebhookService.HandleStripeWebhook | src/modules/payment/webhook/webhook.service.ts:41-95 | a delivery with a bad signature changes nothing; any other leaves rows and log as specified, wherever it ends, and returns exactly if it was done before or it was processed and marked |
| Webhooks.WebhookService.HandleRazorpayWebhook | src/modules/payment/webhook/webhook.service.ts:283-336 | the same for Razorpay, under the id the service builds |
| Webhooks.WebhookService.HandleEvent | src/modules/payment/webhook/webhook.service.ts:55-95 | the look-up, the log row before the processing, and the mark or the error after it; the call may end before the processing or between it and the mark, with or without the error written |
| Webhooks.WebhookService.ProcessEvent | src/modules/payment/webhook/webhook.service.ts:147-221 | an event settles or fails the attempt with its order id, or the one an unfiltered query returns when it has none, or syncs a subscription |
| WebhookEvents.StripeActionExactly | src/modules/payment/webhook/webhook.service.ts:97-263 | which Stripe events settle, fail or sync, by type and the fields that are there, and what a sync writes |
| WebhookEvents.RazorpayActionExactly | src/modules/payment/webhook/webhook.service.ts:338-487 | the same for Razorpay, with the fallback times |
| WebhookEvents.SettleExactly | src/modules/payment/webhook/webhook.service.ts:147-214 | a settlement event verifies the first attempt with its order id under that attempt's own transaction and tenant; when it throws, and what it leaves in attempts, transactions and ledger |
| WebhookEvents.FailExactly | src/modules/payment/webhook/webhook.service.ts:215-230 | a failure event writes FAILED to the first attempt with its order id, whatever its status, and to nothing else |
| WebhookEvents.UnfilteredExactly | src/modules/payment/webhook/webhook.service.ts:377-430 | without an order id the attempt that the unfiltered query returns is FAILED, or verified under its own transaction |
| WebhookEvents.LogExactly | src/modules/payment/webhook/webhook.service.ts:55-95 | a delivery writes its own log row only: marked exactly if new, processed and completed, with an error exactly if the processing threw or was cut short and the handler wrote it |
| Webhooks.SyncWritesOneRow | src/modules/subscription/subscription.service.ts:132-222 | a sync throws exactly for an inactive plan; else it writes one subscription row, where the next sync finds it, and nothing else |
| Webhooks.RazorpayIdStableExactlyWhen | src/modules/payment/webhook/webhook.service.ts:304 | two deliveries of one body have the same id exactly when it names a payment or an order |
| WebhookEvents.RazorpayIdsAgreeExactlyWhen | src/modules/payment/webhook/webhook.service.ts:304 | two bodies that name a payment or an order have the same id exactly when event type and payment, or order, agree, for types without an underscore, as all are |
| WebhookRuns.FailingDeliveryChangesNoRow | src/modules/payment/webhook/webhook.service.ts:76-92 | a delivery whose processing throws or does not come to take effect changes no payment or subscription row and marks nothing |
| WebhookRuns.ReplayAppliesUntilMarked | src/modules/payment/webhook/webhook.service.ts:55-95 | from any log, any delivery sequence, lost marks included, reaches the rows of its effective deliveries run without a log; none was done before, exactly the completed ones are done after, and an event is applied again only after an application that lost its mark |
| WebhookRuns.AppliedOnceUnlessMarkLost | src/modules/payment/webhook/webhook.service.ts:55-95 | while no mark is lost the effective deliveries have distinct ids: each event is applied once |
| WebhookRuns.ProcessChangesNothingExactlyWhen | src/modules/payment/webhook/webhook.service.ts:147-221 | for all rows, a processing that returns changes nothing exactly when the attempt found is settled or FAILED, for a failure event FAILED, or the subscription row found equals what the sync writes |
| WebhookRuns.RedeliveryChangesNothingExactlyWhen | src/modules/payment/webhook/webhook.service.ts:76-92 | a redelivery of an applied event, with any deliveries in between, changes nothing exactly when it does not process again or, for a sync, its row still equals what it writes; a payment event with an order id never changes anything |
| WebhookRuns.RepeatsChangeNothingExactlyWhen | src/modules/payment/webhook/webhook.service.ts:55-95 | over every run with lost marks in which an id names one action, repeats change nothing exactly when each repeated sync finds its row unchanged; then the rows are those of applying each event once |
| WebhookRuns.DuplicatesChangeNothing | src/modules/payment/webhook/webhook.service.ts:304-336 | when each first occurrence takes effect and repeats change nothing, as they do without a lost mark, a sequence with duplicates reaches the rows of its first occurrences |
| WebhookRuns.StaleSyncReturns | src/modules/payment/webhook/webhook.service.ts:76-92 | for any two different states of one subscription: the older, its mark lost, comes back when it is redelivered after the newer |
| WebhookRuns.RedeliveredUntilMarked | src/modules/payment/webhook/webhook.service.ts:76-92 | however often deliveries of one event fail or lose their mark, the rows are those of its first application, and it is done exactly when one completed |
| WebhookRuns.ReprocessingIsQuiet | src/modules/payment/webhook/webhook.service.ts:75-85 | if the call dies between processing and the mark, processing again right after changes nothing, for every second answer; an event without an order id must find the same attempt |
| Idempotency.IdempotencyInterceptor.Get | src/common/interceptors/idempotency.interceptor.ts:61-74 | a read hits exactly while the entry lives, and returns what was stored |
| Idempotency.IdempotencyInterceptor.SetLock | src/common/interceptors/idempotency.interceptor.ts:77-87 | SET NX takes the lock exactly when none lives, for 30 seconds, and touches no other key |
| Idempotency.IdempotencyInterceptor.SetCache | src/common/interceptors/idempotency.interceptor.ts:91-114 | a success lives for the configured time, a client error for 300 seconds; no other key changes |
| Idempotency.IdempotencyInterceptor.DeleteLock | src/common/interceptors/idempotency.interceptor.ts:99-115 | DEL removes the lock whoever set it, and touches no other key |
| Idempotency.IdempotencyInterceptor.Intercept | src/common/interceptors/idempotency.interceptor.ts:43-119 | a request that meets no other leaves its key as its run of steps does, replays exactly on a hit, and changes no other key |
| Idempotency.PromptRunsAlone | src/common/interceptors/idempotency.interceptor.ts:76-117 | if every lock holder finishes within 30 seconds, at most one request per key runs at any time, over every interleaving |
| Idempotency.OverlapPossibleExactlyWhen | src/common/interceptors/idempotency.interceptor.ts:76-117 | beside a running request another can be running within the next ms milliseconds, over all interleavings, exactly when these reach 30 seconds after its lock |
| Idempotency.SlowRequestUnlocksAnother | src/common/interceptors/idempotency.interceptor.ts:99-115 | after one slow request two prompt ones run together |
| Idempotency.StoredResponseIsReplayed | src/common/interceptors/idempotency.interceptor.ts:60-74 | while a stored response lives every later reader is replayed, until a request that had read before the store overwrites it |
| Idempotency.CacheFollowsHandlers | src/common/interceptors/idempotency.interceptor.ts:89-117 | over every interleaving the cache holds only what a handler of the run answered, status and body unchanged, or what was there before; no server error |
| Idempotency.FirstAnswerIsReplayed | src/common/interceptors/idempotency.interceptor.ts:60-117 | after a request that meets no other, a later read gets its very answer: for the configured lifetime after a success, for 300 seconds after a client error, not at all after any other |
| Idempotency.LifetimeHeldExactlyWhen | src/common/interceptors/idempotency.interceptor.ts:60-117 | just after a success is stored: over all runs within its lifetime every later reader is replayed, exactly when no request has missed the cache, runs or is about to store a client error, or errors live as long |
| Idempotency.ErrorStoreReopensKey | src/common/interceptors/idempotency.interceptor.ts:101-114 | such a run exists: the key runs again 300 seconds after a stored success |
| Idempotency.AtMostOneStorePerLifetime | src/common/interceptors/idempotency.interceptor.ts:60-117 | with read and lock together and prompt handlers, nothing else is stored and nobody runs while a response lives |
| Decimals.TaxExact | src/modules/billing/billing.service.ts:269-275 | the tax is the exact half-up integer whenever amount times the rate's coefficient is below 10^20 |
| Decimals.TaxExactlyWhen | src/modules/billing/billing.service.ts:269-275 | for longer products, the tax is exact exactly when the first rounding does not lift the rest from just under one half |
| Decimals.TaxNear | src/modules/billing/billing.service.ts:269-275 | however the product is rounded, the tax is within 11/20 of a unit of the exact one |
| Decimals.TaxWithinHalfExactlyWhen | src/modules/billing/billing.service.ts:269-275 | the tax is within half a unit exactly when the first rounding does not lift the rest from just under one half |
| Decimals.LargeTaxIsInexact | src/modules/billing/billing.service.ts:269-275 | an amount that the column holds whose 18 percent tax is not the exact rounding |
| Decimals.HalfUpNearest | src/modules/billing/billing.service.ts:273 | half-up rounding is off by at most one half of a unit |
| Decimals.HalfUpExactlyWhen | src/modules/billing/billing.service.ts:273 | half-up rounding is the nearest integer, of two nearest the one away from zero, and nothing else is |
| Decimals.RoundTripExactlyWhen | src/common/utils/currency.util.ts:26-41 | minor to major and back is the identity exactly on amounts of 20 significant digits, so on all below 10^20 |
| Decimals.UnitsExactly | src/common/utils/currency.util.ts:26-41 | up to 20 digits, minor to major divides by the power of ten exactly, and major to minor multiplies and rounds half up |
| Billing.ColumnsAreInRange | prisma/schema.prisma:264-269 | every amount of a BIGINT column with a rate of a DECIMAL(5,2) column is in the range of the theorems on lines and invoices |
| Billing.LinesChargeItems | src/modules/billing/billing.service.ts:224-266 | the stored lines follow the items in order: each charges quantity times unit amount and stores no tax, IGST alone, or equal CGST and SGST; their amounts sum to the charges |
| Billing.LineTaxExactlyWhen | src/modules/billing/billing.service.ts:224-275 | inter-state tax is the half-up rounding of quantity times unit amount times rate over 100, intra-state tax twice that of its half, exactly when the line is not lifted |
| Billing.LineErrorExactlyWhen | src/modules/billing/billing.service.ts:224-275 | a line is off by at most half a unit if inter-state and one unit if intra-state exactly when it is not lifted, and never by more than a tenth above that |
| Billing.LiftedLineExceeds | src/modules/billing/billing.service.ts:269-275 | a line of 18 percent that the columns hold, off by more than half a unit |
| Billing.LinesDiffer | src/modules/billing/billing.service.ts:235-250 | a line taxed the other way differs by at most one unit, exact or not, for all that the columns hold |
| Billing.IntraInterDiffer | src/modules/billing/billing.service.ts:58-61 | an invoice taxed the other way differs by at most one unit per taxed line, exact or not, for all that the columns hold |
| Billing.InvoiceWithinExactlyWhen | src/modules/billing/billing.service.ts:58-61 | all lines of an invoice keep to the error of exact rounding exactly when none is lifted |
| Billing.InvoiceError | src/modules/billing/billing.service.ts:58-61 | an invoice's tax is off by at most half a unit per inter-state and one unit per intra-state line, with a tenth more on the lifted lines alone |
| Billing.IntraTaxEven | src/modules/billing/billing.service.ts:241-249 | the tax of an intra-state invoice is even |
| Billing.StoredTaxesAddUp | src/modules/billing/billing.service.ts:58-92 | the invoice's tax is the sum of all CGST, SGST and IGST amounts stored with its lines |
| InvoiceNumbers.NatStringRoundTrip | src/modules/billing/billing.service.ts:277-283 | decimal text reads back as its number and has its number of digits |
| InvoiceNumbers.NumberDetermines | src/modules/billing/billing.service.ts:277-283 | an invoice number determines its year, month and count, for all years and counts |
| InvoiceNumbers.NumberOrder | src/modules/billing/billing.service.ts:277-283 | string order of numbers is the order of year, month and count, for four-digit years and counts of eight digits |
| Invoices.BillingService.CreateInvoice | src/modules/billing/billing.service.ts:54-113 | creation in place: one new row, numbered by month and the tenant's invoices so far, with subtotal the sum of quantity times unit amount, tax the sum of all CGST, SGST and IGST stored, and total both; or an error and no row |
| Invoices.NumbersDistinct | src/modules/billing/billing.service.ts:277-283 | a tenant's numbers are pairwise distinct and its next one is new |
| Invoices.SerialRunsNeverCollide | src/modules/billing/billing.service.ts:54-96 | over every serial run the unique index refuses no invoice |
| Invoices.StringOrderIsCreationOrder | src/modules/billing/billing.service.ts:277-283 | with a clock that never goes back, four-digit years and fewer than 10^8 invoices, string order is creation order, both ways |
| Invoices.RaceRefusedExactlyWhen | src/modules/billing/billing.service.ts:55-96 | of two calls that both count before either inserts, the later is refused exactly when both fall into one month |
| Backfill.Script.RunScript | scripts/backfill-legacy-subscriptions.mjs:82-243 | the whole script: its two lists and the rows that --apply writes before it stops |
| Backfill.Script.LoadUsers | scripts/backfill-legacy-subscriptions.mjs:119-126 | the email map holds every candidate's user, or that there is none |
| Backfill.Script.ReadExisting | scripts/backfill-legacy-subscriptions.mjs:128-138 | the source ids and fingerprints of the existing subscriptions |
| Backfill.Script.Prepare | scripts/backfill-legacy-subscriptions.mjs:140-213 | the loop with its plan cache prepares and skips as specified |
| Backfill.JudgeExactly | scripts/backfill-legacy-subscriptions.mjs:144-213 | the verdict on a candidate, by the first of four obstacles, or its row |
| Backfill.SourcesExactly | scripts/backfill-legacy-subscriptions.mjs:128-138 | a payment counts as backfilled exactly if a subscription names its id, white space aside, as its source |
| Backfill.PayloadExactly | scripts/backfill-legacy-subscriptions.mjs:171-203 | the row a payment becomes: from the payment or the end of its trial, one period long, TRIALING while the trial runs, EXPIRED once the period is over |
| Backfill.CandidatesExactly | scripts/backfill-legacy-subscriptions.mjs:109-117 | the candidates are exactly the checkout payments with a plan and an email |
| Backfill.FingerprintsAgreeExactlyWhen | scripts/backfill-legacy-subscriptions.mjs:66-74 | two rows share a fingerprint exactly when tenant, customer, plan and period agree, if no id contains the separator |
| Backfill.FingerprintsCollide | scripts/backfill-legacy-subscriptions.mjs:66-74 | ids with the separator share a fingerprint across tenants |
| Backfill.Script.Create | scripts/backfill-legacy-subscriptions.mjs:230-234 | the writes of --apply, which may stop after any row |
| Backfill.EachCandidateOnce | scripts/backfill-legacy-subscriptions.mjs:144-213 | every candidate lands in exactly one of the two lists |
| Backfill.PreparedAreNew | scripts/backfill-legacy-subscriptions.mjs:205-212 | prepared fingerprints differ from each other and from all existing ones |
| Backfill.BackfillIsFixpoint | scripts/backfill-legacy-subscriptions.mjs:128-213 | after a full --apply a run at any other time, the clock read anew for each candidate, prepares nothing |
| Backfill.BackfillResumes | scripts/backfill-legacy-subscriptions.mjs:230-234 | after a partial --apply the next run prepares exactly the rest, in order |

## Left out

- Controllers, validation, guards, permissions, logging, audit records, health checks and module wiring.
- The Stripe and Razorpay clients, HMAC and SHA-256: answers are inputs, hashing is injective.
- Prisma, PostgreSQL and Redis beyond rows, atomic commits, unique constraints and expiry times; column widths such as BIGINT.
- Saved payment methods, billing profiles, IAM settings, reporting and pagination.
- Invoice issue, void and paid marks, and plan creation: single status writes.
- Free-form metadata, except the fields that the steps read; time zones and daylight saving.
- `mergeMetadata`, `resolveDate` and `resolveSubscriptionStatus`: a confirmation carries the values they resolve to.
- `markExternalSubscriptionStatus` and trial columns of synced subscriptions.
- parsePositiveInteger of the backfill script: a payment carries the number of trial days it yields.
- Webhooks.WebhookService.HandleEvent: the log row keeps only its processed mark and its error, not the payload or the attempt it names.
- WebhookRuns.ReplayAppliesUntilMarked: deliveries run one after the other; two that overlap may both process, and what their verifications then do is in `Protocol` and `ExactlyOnce`.
- WebhookRuns.RedeliveryChangesNothingExactlyWhen: only deliveries come in between; for what other services write in between, `ProcessChangesNothingExactlyWhen` holds for all rows.
- RenewalInvoices.InvoicesPerPeriodExactlyWhen: an invoice is the period that it bills and whether it is issued; its lines and number are in `Invoices`.
- Reconciliation.ReconciliationService.ReconcileStaleTransactions: the query for stale transactions, with its 30 minutes and its limit of 100, is an input.
- Initiation.PaymentOrchestrator.InitiatePayment: two first calls with one key that overlap are not modelled; the unique constraint then refuses the second.
- RenewalRuns.PeriodsTile: the runs are renewals, plan changes and cancellations of one subscription; an external sync, which rewrites the period, and edits of a plan are not part of them.
- Billing.LineTaxExactlyWhen: a rate is its decimal digits over a power of ten, and half a rate is exact, as it is for rates of up to 14 digits; lines whose tax reaches 10^20, which no column holds, are out of range.
- Backfill.Script.RunScript: dates are unbounded; beyond 8.64e15 milliseconds (section 21.4.1.1 of ECMA-262) `toISOString` throws and the script stops before its lists are complete. The period arithmetic of renewals has the same gap.
- Billing.LinesChargeItems: a line's stored rates are not in the model; they are the item's rate, whole or halved.
- SettlementRows.SyncExactly: which row findFirst returns when several match is the first of the table.
- Decimals.TaxExactlyWhen: covers products of up to 22 digits plus the rate's decimal places; a longer product is rounded past the unit.
- Invoices.StringOrderIsCreationOrder: string order is by code unit, not by a database collation, and the numbering clock also stamps the row.
