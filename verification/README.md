# PayBridge ledger: a model in Dafny

PayBridge sits between merchants and payment gateways. A merchant opens a checkout (a PENDING
payment intent), a gateway reports the payment through an inbound webhook, a background pass asks
the gateway about intents nobody reported, a merchant refunds part or all of a captured payment,
and every change is announced to the merchant through an outbound queue. Request handlers and the
background worker run interleaved and share database rows; between two awaited calls anything else
may happen. The database offers single-row writes, unique constraints and short transactions, and
no handler holds a database lock across its awaits.

This project models that protocol and proves what it does and does not guarantee. `dafny verify
dfyconfig.toml` checks the whole project. The model is about the logic of the service: nothing of
the service itself is executed.

## Layout

| file | what it models |
|---|---|
| `Money`, `Tables`, `Prelude` | cents and rounding over exact reals; the tables and the single-row writes on them |
| `Refunds`, `RefundSplitting` | `processRefund`: the read with its checks, the commit, the reply; splits of a balance |
| `Store`, `RefundsService`, `Webhooks`, `ReconciliationRules`, `Reconciliation` | the same tables as one mutable object, and the three programs on it with their loops and early exits |
| `LedgerProtocol` | checkout, refunds, webhooks and reconciliation interleaved: one action is one awaited call; answers, failures, crashes and the clock are free |
| `RefundSafety`, `RefundBacking`, `WebhookSafety`, `Notifications`, `ReconciliationRuns` | invariants over every run of that protocol |
| `LedgerWitnesses` | runs showing that the hypotheses are needed, and the exact condition for two overlapping refunds |
| `SequentialRuns` | left alone, the sequential programs are runs of the protocols, whatever is answered and whatever fails |
| `Idempotency`, `IdempotentReplay`, `Interceptor` | the idempotency interceptor as a protocol of any number of requests, and as the sequential program |
| `RefundIdempotency` | interceptor and ledger side by side |
| `Analytics`, `AnalyticsFacts`, `Rates`, `Metrics`, `RefundsWithinVolume` | the accumulating loops, their rounded rates, and what they say about each other and about the ledger |
| `JavaScriptText`, `Signature` | trim, split, parseInt; the signature printer against the verifier documented for merchants |
| `KeyRegistry`, `MerchantsService` | hashed API keys against the plain record of issued and revoked keys |
| `Routing` | candidate chains and their health-aware order |

In `LedgerProtocol` the refund actions are the read with its checks (src/refunds/refunds.service.ts:36-89),
the provider call (92-98), the transaction (105-124) and the enqueueing (131-152). The webhook actions are the
transaction (src/webhooks/webhooks.controller.ts:75-91) and the enqueueing (98-111). A pass snapshots the
stale rows (src/reconciliation/reconciliation.service.ts:30-35) and then takes, per row, the age check
(55-68), the inquiry (71-74), the write (77-80, 104-107) and the enqueueing (87-100, 113-126). In
`Idempotency` the actions of a request are its arrival (src/common/idempotency/idempotency.interceptor.ts:44-48),
the read (51-53), the cleanup of an expired row (57-61), the reservation (84-101), the handler's result, and
the two callbacks (106-130). `request`, `owner`, `cause` and the logs of writes and touches are bookkeeping
of the model: no step reads them to decide anything. The outcomes a pass keeps (`done`) stand
for its summary: the counters are their tally.

## Hypotheses

Some guarantees hold only if actors stay out of each other's way, which the code does not enforce.
They are stated as predicates on the steps of a run, never built into a step.

- `RefundSafety.RefundsTakeTurns`: no refund passes its checks on an intent while another refund of
  that intent is between its read and its commit. Without it a balance can be paid back twice
  (`LedgerWitnesses.OverlappingRefundsOverpay`); `RefundSafety.LedgerSettledIffCommitsFit` says exactly when a
  run keeps the ledger. That REFUNDED never falls short of the amount needs no hypothesis
  (`RefundSafety.RefundedMeansPaidBack`).
- `RefundBacking.PassesSpareCollected`: a pass does not write FAILED over a collected payment. It
  follows from `RefundBacking.PassWindowsExclusive`, no status write falls between another pass's
  snapshot and its write. Without it refunded money can sit on a FAILED payment
  (`LedgerWitnesses.BlindPassFailsRefundedPayment`); `RefundBacking.BackedIffWritesKeepBacking` is exact.
- `Notifications.PassesTakeTurns`: a pass starts only when none is under way. The worker has concurrency 1
  (src/reconciliation/reconciliation.processor.ts:60-75), but the manual trigger
  (src/reconciliation/reconciliation.controller.ts:17-21) does not wait for it. Without it an intent can
  be announced twice by passes alone (`LedgerWitnesses.OverlappingPassesAnnounceTwice`). It follows that
  every pass write is a first one (`Notifications.PassWriteIsFirst`), which is all the bound needs;
  `Notifications.PassesWriteOnceIffFirst` is exact, and `Notifications.NotificationConservation` gives the
  number of events in every run.
- `Idempotency.Timely` and `Idempotency.CleanupsUndisturbed`: each handler finishes before its own row
  expires, and no row of a key is created between another request's read of an expired row and its
  delete. Without either, two handlers of a key can run at once
  (`IdempotentReplay.LateHandlerRunsTwice`, `IdempotentReplay.DisturbedCleanupRunsTwice`).
  Together they keep every cleanup off the rows of live handlers;
  `Idempotency.RowsKeptIffCleanupsSpareLive` is exact about that.
- `RefundIdempotency.KeyNotExpired`: no request finds the key's row expired.
- `RefundBacking.Validated`: the DTO's minimum of 0.01 (src/refunds/dto/create-refund.dto.ts:6-8).

The at-most-once results about webhooks need no hypothesis.

## Where code and documentation differ

The model follows the code.

- README.md:88 names the event `refund.processed`; the code emits `payment.refunded`.
- README.md:58 promises strict idempotency that eliminates duplicate charges; that holds under the
  hypotheses above and fails without them.
- README.md:645-660 shows the list of refunds as an array; the code returns an object around it.
- The verifier in README.md:795-829 is declared to return a boolean, but its last step throws when
  the two digests differ in length; the model has a third result for that. `Signature.ThrowsIff` says
  on which headers, `Signature.ShortSignatureThrows` names one, and by `Signature.VerifyPrintedIff` a header
  the service prints is none.

## Model

| member | source | states |
|---|---|---|
| `Money.WholeCentsExact` | prisma/schema.prisma:89 | whole cents survive rounding to hundredths and the Decimal(12, 2) column unchanged |
| `Money.RoundedAdditionExact` | src/analytics/analytics.service.ts:119-120 | one step of add-then-round loses nothing on whole cents, neither adding nor subtracting |
| `Money.RoundMeaning` | src/refunds/refunds.service.ts:68-69 | rounding to hundredths gives the nearest whole cent, halves upwards; the column stores the same for positive amounts |
| `Refunds.AcceptedIff` | src/refunds/refunds.service.ts:36-89 | a request passes validation if and only if the payment exists, belongs to the merchant, is CAPTURED, has a gateway id, has a balance left, and the amount (if given) is positive and at most that balance |
| `Refunds.RejectionMeaning` | src/refunds/refunds.service.ts:43-89 | every rejection names the first reason, in the order of the checks, that is true of the tables and the request, with the exact figures it reports |
| `Refunds.PlanMeaning` | src/refunds/refunds.service.ts:62-89 | what an accepted request carries to its commit: the exact refunded sum and total it read, and an amount that fits their difference (the whole of it if none was given) |
| `Refunds.BalanceExact` | src/refunds/refunds.service.ts:68-69 | the rounded remaining balance is exactly total minus refunded |
| `Refunds.StoredRequestFits` | src/refunds/refunds.service.ts:78-102 | for any real request within the balance, finer than a cent or not, the stored cents fit the balance, and the completion test on the unrounded request holds exactly when the stored amounts reach the total |
| `Refunds.ReportedBalanceExactIff` | src/refunds/refunds.service.ts:154-163 | the remaining balance in the reply is the balance in the table if and only if the request was a whole number of cents |
| `Refunds.CommitMoves` | src/refunds/refunds.service.ts:105-124 | the transaction adds one row with the stored cents and the provider's status, and so moves every refunded total and every intent; webhook ledger and queue stay |
| `Refunds.ReceiptMeaning` | src/refunds/refunds.service.ts:154-163 | the reply to a valid request: the provider's status, the amount asked for, what the balance read before leaves (for whole cents the balance in the table), fully refunded exactly when the stored amounts reach the total |
| `Refunds.ProcessedMeaning` | src/refunds/refunds.service.ts:26-164 | what a request does and answers, in terms of the tables before and after, whatever the provider answers and whichever call fails |
| `Refunds.CurrentCommit` | src/refunds/refunds.service.ts:100-124 | a commit whose read is still current keeps the ledger settled, adds exactly the stored cents, leaves other intents alone, and marks REFUNDED exactly when the total is reached |
| `RefundsService.Service.Validate` | src/refunds/refunds.service.ts:36-89 | accepts exactly the merchant's own CAPTURED payment with a gateway id, a balance, and a positive amount (if given) within it; the plan is for that amount or for all that is left; a rejection names the first reason that holds |
| `RefundsService.Service.Transact` | src/refunds/refunds.service.ts:100-124 | the sequential transaction is the specified commit |
| `RefundsService.Service.ProcessRefund` | src/refunds/refunds.service.ts:26-164 | one undisturbed refund: nothing changes before the commit on any failure path; an answered request adds one row with the provider's status and the amount in cents and is announced unless the queue refuses; the reply carries that status, the amount and the balance left; a settled ledger stays settled |
| `RefundSplitting.OnePart` | src/refunds/refunds.service.ts:63-124 | a whole-cent part is accepted exactly when it fits the balance and moves exactly itself |
| `RefundSplitting.SplitOutcome` | src/refunds/refunds.service.ts:63-124 | any ordered list of positive parts is accepted in full if and only if its sum fits the balance; it moves the sum, and ends REFUNDED exactly when nothing is left |
| `RefundSplitting.WholeBalance` | src/refunds/refunds.service.ts:78-79 | a refund without an amount takes the whole balance |
| `RefundSplitting.SplitConfluent` | src/refunds/refunds.service.ts:63-124 | every split of the balance ends in the same intents and refunded totals as one full refund |
| `RefundSplitting.SplitTerminates` | src/refunds/refunds.service.ts:63-124 | an accepted split has at most as many parts as the balance has cents |
| `RefundSafety.CommitKeepsLedger` | src/refunds/refunds.service.ts:105-124 | committing a current plan keeps the ledger of every intent settled |
| `RefundSafety.CommitKeepsOtherPlans` | src/refunds/refunds.service.ts:105-124 | and every plan on another intent current |
| `RefundSafety.CheckoutOpens` | src/checkout/checkout.service.ts:46-57 | a checkout opens a PENDING intent of at least 1.00, to the nearest cent, and touches nothing else |
| `RefundSafety.HooksOnlyMoveStatuses` | src/webhooks/webhooks.controller.ts:75-111 | a webhook moves no amount, no refund row, and never writes REFUNDED |
| `RefundSafety.PassesOnlyMoveStatuses` | src/reconciliation/reconciliation.service.ts:53-138 | a reconciliation step moves no amount, no refund row, and never writes REFUNDED |
| `RefundSafety.StepKeepsSafe` | src/refunds/refunds.service.ts:36-124 | every step of every actor keeps the ledger invariant, given turn-taking |
| `RefundSafety.RefundLedgerSafety` | src/refunds/refunds.service.ts:36-124 | over every interleaved run in which refunds of one intent take turns: SUCCEEDED refunds never exceed the amount and REFUNDED means they equal it, whatever webhooks, passes, failures and crashes interleave |
| `RefundSafety.CommitWithinIff` | src/refunds/refunds.service.ts:105-124 | one commit keeps all intents within their amounts exactly when the refund still fits at that moment |
| `RefundSafety.WithinAmountsIffCommitsFit` | src/refunds/refunds.service.ts:105-124 | with no hypothesis: a run never over-refunds if and only if each SUCCEEDED commit still fits the balance when made, which is the recheck the code does not make |
| `RefundSafety.StepNeverShort` | src/refunds/refunds.service.ts:36-124 | every step of every actor keeps "REFUNDED has paid back at least the amount, and open refunds read a total that has only grown" |
| `RefundSafety.RefundedMeansPaidBack` | src/refunds/refunds.service.ts:100-121 | with no hypothesis: in every state of every run a REFUNDED intent has refunded at least its amount, overlapping refunds or not |
| `RefundSafety.LedgerSettledIffCommitsFit` | src/refunds/refunds.service.ts:36-124 | with no hypothesis, both halves of the ledger: throughout a run refunds never exceed the amount and REFUNDED means they equal it, if and only if each SUCCEEDED commit still fits the balance when made |
| `RefundBacking.StepKeepsBacked` | src/reconciliation/reconciliation.service.ts:76-107 | every step keeps refunded money and open refunds on collected payments, given that passes spare those |
| `RefundBacking.RefundsBackedByPayments` | src/analytics/analytics.service.ts:102-103 | over every run in which passes do not write FAILED over a collected payment, refunded money sits on CAPTURED or REFUNDED intents only |
| `RefundBacking.StepBackedIff` | src/reconciliation/reconciliation.service.ts:103-107 | a step keeps refunded money backed exactly when its own write does |
| `RefundBacking.BackedIffWritesKeepBacking` | src/reconciliation/reconciliation.service.ts:103-107 | with no hypothesis: refunded money stays on collected payments throughout a run if and only if no pass writes FAILED over refunded money and no refund commits money onto an uncollected payment without completing it |
| `RefundBacking.PassWritesRowInHand` | src/reconciliation/reconciliation.service.ts:53-138 | a pass writes a status only on the row it holds, and only the one the rules give |
| `RefundBacking.PassProgress` | src/reconciliation/reconciliation.service.ts:53-138 | a pass only ever works down its snapshot, leaving other passes alone |
| `RefundBacking.ExclusiveWindowsSpareCollected` | src/reconciliation/reconciliation.service.ts:30-107 | if no status write falls into another pass's snapshot-to-write window, each pass still finds its rows PENDING when it writes them |
| `RefundBacking.RowsFitTotal` | src/refunds/refunds.service.ts:64-66 | with every row at least a cent, SUCCEEDED rows number at most the refunded cents |
| `RefundBacking.SucceededRowsMeaning` | src/refunds/refunds.service.ts:64-66 | the number of SUCCEEDED rows counts exactly the rows of the intent with that status |
| `RefundBacking.RefundsBoundedByCents` | src/refunds/dto/create-refund.dto.ts:4-8 | over every turn-taking run with validated amounts, an intent has at most as many SUCCEEDED refunds as cents |
| `LedgerWitnesses.OverlapSafeIff` | src/refunds/refunds.service.ts:36-124 | two refunds that read the same balance stay within the amount if and only if they fit it together; the intent is marked REFUNDED if and only if one alone covers it |
| `LedgerWitnesses.OverlappingRefundsOverpay` | src/refunds/refunds.service.ts:36-124 | a run in which two overlapping refunds pay back twice the amount: turn-taking is needed |
| `LedgerWitnesses.BlindPassFailsRefundedPayment` | src/reconciliation/reconciliation.service.ts:103-107 | a run in which a pass writes FAILED over a refunded payment: sparing collected payments is needed |
| `LedgerWitnesses.OverlappingPassesAnnounceTwice` | src/reconciliation/reconciliation.service.ts:76-102 | a run in which two overlapping passes announce a payment twice: turn-taking of passes is needed |
| `Webhooks.Controller.HandleIncomingWebhook` | src/webhooks/webhooks.controller.ts:71-128 | 200 implies the event is ledgered, a ledgered event changes nothing, a failure before the ledger changes nothing, a fresh event ledgers itself, captures its own intent and announces it at most once |
| `WebhookSafety.FreshDelivery` | src/webhooks/webhooks.controller.ts:75-91 | a fresh event gets one ledger entry, one status write and one pending announcement |
| `WebhookSafety.StepKeepsAtMostOnce` | src/webhooks/webhooks.controller.ts:75-127 | every step of every actor keeps the at-most-once invariant |
| `WebhookSafety.WebhookAtMostOnce` | src/webhooks/webhooks.controller.ts:75-127 | over every run, with no hypothesis: each provider event is ledgered at most once, with exactly one status write and at most one outbound event, both for the ledgered intent; a 200 reply implies the event is ledgered |
| `WebhookSafety.ReplayChangesNothing` | src/webhooks/webhooks.controller.ts:113-128 | delivering a ledgered event changes no table and writes no status |
| `WebhookSafety.LaterReplaysAreHarmless` | prisma/schema.prisma:79 | once an event is ledgered, no later delivery in the run changes the tables, so none can undo a REFUNDED status |
| `Notifications.NeverBackToPending` | src/checkout/checkout.service.ts:46-57 | no step writes PENDING on an existing intent |
| `Notifications.CreationDatesStay` | src/reconciliation/reconciliation.service.ts:30-35 | no step changes or removes an intent's creation date |
| `Notifications.BacklogOnlyShrinks` | src/reconciliation/reconciliation.service.ts:30-35 | between any two moments of any run, the stale rows under a fixed cutoff only become fewer among the intents that existed |
| `Notifications.StepReportedIff` | src/reconciliation/reconciliation.service.ts:53-138 | given that passes have written and announced each intent at most once, a step keeps it so exactly when it does not let a pass write an intent a pass has written before |
| `Notifications.PassesWriteOnceIffFirst` | src/reconciliation/reconciliation.service.ts:76-107 | with no hypothesis: passes write each intent at most once in a run if and only if each of their writes finds a row no pass has written, which is the recheck the code does not make; and then they announce it at most once |
| `Notifications.StepKeepsAgenda` | src/reconciliation/reconciliation.service.ts:30-53 | given that passes take turns, every step keeps the rows still to be written free of earlier pass writes |
| `Notifications.SequentialPassesReconcileOnce` | src/reconciliation/reconciliation.processor.ts:60-75 | over every run with passes taking turns, every pass write is a first one, and all passes together write and announce each intent at most once |
| `Notifications.AnnouncedEventsDistinct` | src/webhooks/webhooks.controller.ts:98-111 | the webhook-caused payment.succeeded events of an intent are one for each of its ledgered provider ids that was announced, and no others |
| `Notifications.CountByCause` | src/reconciliation/reconciliation.service.ts:86-100 | payment.succeeded events of an intent are its webhook-caused ones plus its pass-caused ones, counted exactly |
| `Notifications.EventCounts` | src/reconciliation/reconciliation.service.ts:86-100 | the counted events are exactly the queue entries of that kind and intent, and those a pass sent |
| `Notifications.NotificationConservation` | src/webhooks/webhooks.controller.ts:93-128 | over every run, with no hypothesis: payment.succeeded events of an intent plus its ledgered provider ids nobody was told about equal its ledgered ids plus the events passes sent; so the bound of ledgered plus one holds in a state if and only if passes sent at most one more than webhooks left out |
| `Notifications.NotificationBound` | src/reconciliation/reconciliation.service.ts:76-102 | over every run whose pass writes are first ones, payment.succeeded events of an intent number at most its distinct ledgered provider events plus one |
| `Notifications.SequentialNotificationBound` | src/reconciliation/reconciliation.service.ts:76-102 | the same bound over every run with passes taking turns |
| `Reconciliation.Service.HandleRow` | src/reconciliation/reconciliation.service.ts:54-137 | one iteration, for every provider answer and thrown error: a row without gateway id is failed silently once more than a day old; otherwise only CAPTURED and FAILED are written, then announced as payment.succeeded and payment.failed; an error before or after the write is told apart |
| `Reconciliation.Service.HandleRows` | src/reconciliation/reconciliation.service.ts:53-138 | the loop over any list of existing rows: tables and counters are those of its iterations one after the other |
| `Reconciliation.Service.ReconcileStaleIntents` | src/reconciliation/reconciliation.service.ts:19-145 | scans exactly the PENDING intents created at or before the cutoff, leaves every other intent alone, and its loop and counters compute the specified tables and tally for any answers |
| `Reconciliation.EveryRowCountedOnce` | src/reconciliation/reconciliation.service.ts:37-138 | captured + failed + unchanged + errors = scanned |
| `Reconciliation.CountersMeaning` | src/reconciliation/reconciliation.service.ts:37-138 | each counter is the number of rows with its outcome, abandoned rows among the failed; the errors name the rows that erred |
| `Reconciliation.EventsMeaning` | src/reconciliation/reconciliation.service.ts:87-126 | the pass's events of a kind are its queue entries of that kind |
| `Reconciliation.PassEvents` | src/reconciliation/reconciliation.service.ts:86-128 | payment.succeeded events are the captured count; payment.failed events are the failed count less the abandoned rows |
| `Reconciliation.PassAccounting` | src/reconciliation/reconciliation.service.ts:37-138 | all counters and events of an undisturbed pass together; refunds, webhook ledger and earlier events untouched |
| `ReconciliationRuns.StepKeepsBooks` | src/reconciliation/reconciliation.service.ts:53-138 | every step of every actor keeps the books of every pass |
| `ReconciliationRuns.PassesAccountForThemselves` | src/reconciliation/reconciliation.service.ts:37-138 | over every interleaved run, at any moment of any pass: its counters add up to the rows it is done with, its events are its captured rows and its failed rows less the abandoned ones, and its status writes are exactly those its outcomes say, row by row |
| `Reconciliation.RowsHandledOnce` | src/reconciliation/reconciliation.service.ts:53-138 | each snapshot row ends with the status its own handling wrote, no other row moves |
| `Reconciliation.BacklogAfterPass` | src/reconciliation/reconciliation.service.ts:30-35 | the rows still stale after a pass are exactly the scanned rows for which nothing was written |
| `Reconciliation.BacklogGrowsWithCutoff` | src/reconciliation/reconciliation.service.ts:30-35 | a later cutoff adds to the backlog exactly the PENDING intents created in between |
| `Reconciliation.UnchangedRowsMeaning` | src/reconciliation/reconciliation.service.ts:129-132 | the unchanged counter counts exactly the rows left unchanged |
| `Reconciliation.SecondPassScansUnchanged` | src/reconciliation/reconciliation.service.ts:30-132 | after an error-free pass, a second pass with the same cutoff scans exactly the rows the first counted as unchanged |
| `Reconciliation.BacklogShrinks` | src/reconciliation/reconciliation.service.ts:30-132 | a pass adds nothing to the backlog of any cutoff, errors included |
| `SequentialRuns.SoloRefund` | src/refunds/refunds.service.ts:26-164 | a refund run alone is a run of the interleaved protocol and ends in the tables and with the result the sequential program computes, for every request, provider answer and failing call |
| `SequentialRuns.SoloWebhook` | src/webhooks/webhooks.controller.ts:71-128 | the same for a delivery: fresh, duplicate or unknown, and whichever call fails |
| `SequentialRuns.SoloPass` | src/reconciliation/reconciliation.service.ts:19-145 | the same for a whole reconciliation pass over any snapshot, answers and errors, the outcomes its counters count included |
| `SequentialRuns.SoloRequest` | src/common/idempotency/idempotency.interceptor.ts:44-132 | the same for a keyed request: every state of its key, every outcome of the handler and every failing call |
| `Interceptor.IdempotencyInterceptor.Execute` | src/common/idempotency/idempotency.interceptor.ts:83-132 | the handler runs exactly when the reservation succeeds, and leaves its key free, locked, or answered with its status (0 as 200) and body |
| `Interceptor.IdempotencyInterceptor.Intercept` | src/common/idempotency/idempotency.interceptor.ts:23-133 | no key: transparent; a row that has not expired: its response replayed, or refused as in flight, both without side effects; an expired row is never replayed but cleaned up, and the handler runs unless a call fails; other keys never touched |
| `JavaScriptText.TrimMeaning` | src/common/idempotency/idempotency.interceptor.ts:39-42 | the key is the header without the blanks at both ends, and is empty exactly when there is nothing else |
| `Idempotency.StepKeepsLocked` | src/common/idempotency/idempotency.interceptor.ts:48-131 | every step keeps the lock invariant, given the two hypotheses |
| `Idempotency.IdempotencyExclusion` | src/common/idempotency/idempotency.interceptor.ts:48-131 | over every interleaving of any number of requests, given the two hypotheses: at most one handler per key at a time, callbacks change only their own request's row, each row gets at most one |
| `Idempotency.StepOwnedIff` | src/common/idempotency/idempotency.interceptor.ts:57-61 | a step leaves every live handler its own row exactly when it is not a cleanup that deletes the row of a live one |
| `Idempotency.RowsKeptIffCleanupsSpareLive` | src/common/idempotency/idempotency.interceptor.ts:57-61 | with no hypothesis: live handlers keep their rows throughout a run if and only if no cleanup deletes the row of a live one, which the delete by key does not check; and then handlers of a key exclude each other and callbacks change only their own rows |
| `IdempotentReplay.StepKeepsResponse` | src/common/idempotency/idempotency.interceptor.ts:62-71 | a cached response survives every step until it expires and is what every lookup is given |
| `IdempotentReplay.CachedResponseIsReplayed` | src/common/idempotency/idempotency.interceptor.ts:62-71 | from caching until expiry every lookup of the key is replayed that status and body, and no handler of the key runs |
| `IdempotentReplay.LookupByExpiry` | src/common/idempotency/idempotency.interceptor.ts:51-81 | what a lookup finds depends on the row's expiry and response only |
| `IdempotentReplay.ExpiredIsNeverReplayed` | src/common/idempotency/idempotency.interceptor.ts:55-61 | in no run is an expired response replayed: a request that looks up an expired row goes on to clean it up and never ends in a replay |
| `IdempotentReplay.ReplaysCarryStatus` | src/common/idempotency/idempotency.interceptor.ts:68-70 | a replay always carries the cached status |
| `IdempotentReplay.DisturbedCleanupRunsTwice` | src/common/idempotency/idempotency.interceptor.ts:57-61 | a run in which two requests saw the same expired row and both run, every handler being timely: the cleanup hypothesis is needed |
| `IdempotentReplay.LateHandlerRunsTwice` | src/common/idempotency/idempotency.interceptor.ts:57-61 | a run in which a handler outlives its row and a second one runs beside it: timeliness is needed |
| `RefundIdempotency.AtMostOneSurvivor` | src/common/idempotency/idempotency.interceptor.ts:125-130 | without expiry, all executions of a key but one have thrown |
| `RefundIdempotency.StepKeepsRowsByRequests` | src/refunds/refunds.service.ts:105-115 | each request records at most one refund row, at its commit |
| `RefundIdempotency.StepKeepsRefundsAreExecutions` | src/common/idempotency/idempotency.interceptor.ts:104-131 | a refund that carries a key runs only inside an execution of its request |
| `RefundIdempotency.RefundsPerKeyBounded` | src/common/idempotency/idempotency.interceptor.ts:104-131 | over every run of interceptor and ledger together, while no row of the key expires, refund rows recorded under a key number at most its executions that threw plus one |
| `RefundIdempotency.CachedKeyNeverRunsAgain` | src/common/idempotency/idempotency.interceptor.ts:62-71 | while no row of the key expires, once a response is cached every later lookup is replayed it and no handler of the key starts again |
| `Analytics.AddVolume` | src/analytics/analytics.service.ts:112-122 | stepwise rounding keeps every currency total equal to the exact sum |
| `Analytics.AddToGateway` | src/analytics/analytics.service.ts:124-135 | the same for a gateway's counters and totals |
| `Analytics.AddRefunds` | src/analytics/analytics.service.ts:137-149 | the same for the refunded totals, counting SUCCEEDED refunds only |
| `Analytics.ComputeRates` | src/analytics/analytics.service.ts:152-164 | the three gateways get their success and failure rates while their counts and totals stay exact |
| `Analytics.GetOverview` | src/analytics/analytics.service.ts:50-203 | every figure of the overview is the exact sum, count or rate of the listing; counts are numbers of rows, and a currency appears exactly when it occurs |
| `Analytics.CountsAreRows` | src/analytics/analytics.service.ts:96-131 | every status count and every currency's transaction count is a number of rows, collected or not; a currency is listed exactly when some row has it, and at a gateway when some row of it was collected there |
| `Analytics.StatusesAddUp` | src/analytics/analytics.service.ts:96-110 | the five status counts add up to the number of rows, and so do success, failure and pending |
| `AnalyticsFacts.FiguresExact` | src/analytics/analytics.service.ts:112-149 | reading a currency's figure gives the exact sum, absent entries included |
| `AnalyticsFacts.OverviewAddsUp` | src/analytics/analytics.service.ts:90-135 | each currency's volume is the sum of the three gateways', status counts add up to the total |
| `AnalyticsFacts.CurrencyCountsAddUp` | src/analytics/analytics.service.ts:112-122 | the transaction counts of all listed currencies add up to the total |
| `AnalyticsFacts.GatewayCountsRows` | src/analytics/analytics.service.ts:124-135 | a gateway's counters are numbers of its rows: CAPTURED and REFUNDED succeed, FAILED fails, PENDING and AUTHORIZED are pending |
| `AnalyticsFacts.OverallCountsAddUp` | src/analytics/analytics.service.ts:108-110 | the overall counters are the sums of the three gateways' |
| `AnalyticsFacts.SumsByRow` | src/analytics/analytics.service.ts:112-149 | a row adds its amount to the volumes exactly if collected, and its SUCCEEDED refunds in any case |
| `AnalyticsFacts.OverallRateBetween` | src/analytics/analytics.service.ts:153-170 | the overall success rate lies between the smallest and largest success rate of gateways with completed payments, rounding included |
| `AnalyticsFacts.GatewayRatesAddUp` | src/analytics/analytics.service.ts:155-164 | success plus failure rate is 100.00, or 100.01 exactly when 20000 * success / completed is an odd integer |
| `AnalyticsFacts.ConversionBelowSuccess` | src/analytics/analytics.service.ts:166-174 | the conversion rate never exceeds the success rate |
| `Rates.RateMonotone` | src/analytics/analytics.service.ts:156-159 | comparing two shares crosswise carries over to the rounded percentages |
| `Rates.RateMeaning` | src/analytics/analytics.service.ts:156-159 | a rate is the percentage to the nearest hundredth, halves upwards, and 0 for nothing |
| `Rates.RatesAddUp` | src/analytics/analytics.service.ts:156-163 | two complementary rounded percentages add up to 100.00 or, exactly in the half case, 100.01 |
| `Rates.MediantBetween` | src/analytics/analytics.service.ts:166-170 | the rounded rate of three pooled shares lies between those of two non-empty ones |
| `RefundsWithinVolume.ListingWithin` | src/analytics/analytics.service.ts:24-48 | in a settled and backed state, any filter lists at most as much refunded as collected per currency |
| `RefundsWithinVolume.ListedExactly` | src/analytics/analytics.service.ts:22-40 | a query lists exactly the intents of the merchant (unless none is given), between both dates inclusive, at the gateway |
| `RefundsWithinVolume.IncludedRefundsMeaning` | src/analytics/analytics.service.ts:45-47 | each listed intent comes with exactly its own refunds |
| `RefundsWithinVolume.RefundedNeverExceedsVolume` | src/analytics/analytics.service.ts:102-149 | in every state of every run under the ledger hypotheses, for every filter and currency, the refunded total is at most the volume |
| `Metrics.VolumeKeyInjective` | src/health/metrics.service.ts:70 | different gateways or currencies never share a volume label, whatever text the currency holds |
| `Metrics.CountKeyInjective` | src/health/metrics.service.ts:66 | different gateways, statuses or currencies never share a count label |
| `Metrics.LabelText` | src/health/metrics.service.ts:66-70 | the labels, letter by letter, for every gateway and status |
| `Metrics.GroupIntents` | src/health/metrics.service.ts:61-76 | the loop's two string-keyed maps hold the exact count and collected sum of every group |
| `Metrics.GroupCount` | src/health/metrics.service.ts:66-67 | the count under a label is the number of rows with that gateway, status and currency |
| `Metrics.CollectionOfAnyOrder` | src/health/metrics.service.ts:52-59 | the collected sum does not depend on the order the rows come in |
| `Metrics.MerchantsPartition` | src/analytics/analytics.service.ts:24-26 | the whole listing's collection is the sum over the merchants' own rows |
| `Metrics.MetricsAreSumOfOverviews` | src/health/metrics.service.ts:65-76 | for every gateway and currency, the metrics volume equals the sum of all merchants' unfiltered, stepwise-rounded overviews, whatever order each query returns its rows in |
| `JavaScriptText.BlanksListed` | src/common/idempotency/idempotency.interceptor.ts:39 | the characters trimmed are exactly the white space and line terminators of ECMAScript |
| `JavaScriptText.ParsePrinted` | README.md:808 | parseInt reads back every printed natural number |
| `JavaScriptText.ParseSign` | README.md:808 | blanks before a number do not matter to parseInt, a sign does |
| `JavaScriptText.ParseNothing` | README.md:808 | without a digit after the blanks and the sign it gives NaN |
| `JavaScriptText.SplitFirst` | README.md:802 | splitting at commas undoes joining |
| `Signature.HexBytesInjective` | README.md:825-828 | equal decoded digests of one length are equal hex strings |
| `Signature.HexDigitValue` | README.md:826 | hex digits of either case, and nothing else, have their value |
| `Signature.HexBytesMeaning` | README.md:825-828 | decoding takes pairs of digits up to the first pair that is not one |
| `Signature.FindPrefixFirst` | README.md:803-804 | the part found is the first with its prefix |
| `Signature.PartsOfPrinted` | src/outbound-webhooks/outbound-webhooks.processor.ts:120 | a printed header splits into exactly its timestamp part and its digest part |
| `Signature.VerdictOnHeader` | README.md:795-829 | the verdict on any header: rejected without both parts or with a numeric timestamp outside the tolerance, before or after now; otherwise decided by the decoded bytes alone |
| `Signature.VerifyPrintedIff` | README.md:795-829 | on a printed header the documented verifier never throws, and accepts if and only if now and the timestamp differ by at most the tolerance, in either direction, and the digest it computes is the printed one |
| `Signature.RoundTrip` | src/outbound-webhooks/outbound-webhooks.processor.ts:109-121 | what generateSignature prints the documented verifier accepts, for every payload, secret and timestamp inside the tolerance |
| `Signature.ThrowsIff` | README.md:795-829 | the documented verifier returns a boolean for every header, payload and secret, except that it throws exactly when both parts are found, the timestamp is within tolerance or no number, and the signature does not decode to 32 bytes |
| `Signature.ShortSignatureThrows` | README.md:824-828 | a fresh timestamp with the signature `ab` makes it throw |
| `Signature.SignedStringInjective` | src/outbound-webhooks/outbound-webhooks.processor.ts:114 | the signed string determines timestamp and payload, for negative timestamps and NaN too |
| `KeyRegistry.ApplyRepresents` | src/merchants/merchants.service.ts:43-246 | each successful write of the service moves the hashed tables as it moves the plain record of issued, revoked and active |
| `KeyRegistry.RunRepresents` | src/merchants/merchants.service.ts:43-282 | over every run of writes, successful or not, the tables represent the record |
| `KeyRegistry.LookupRefines` | src/merchants/merchants.service.ts:253-269 | tables that represent a record answer lookups as the record does, given a hash injective on the keys in use |
| `KeyRegistry.LookupIsOwner` | src/merchants/merchants.service.ts:253-282 | over every run of create, rotate, revoke, update and last-used writes: a raw key looks up m exactly when it was issued to m, never revoked, and m is active |
| `KeyRegistry.RevocationIsFinal` | src/merchants/merchants.service.ts:229-246 | a revoked key never looks anyone up again, whatever follows |
| `MerchantsService.Service.CreateMerchant` | src/merchants/merchants.service.ts:43-97 | succeeds exactly with an email and a key nobody has; merchant and first key then appear together, both active, or not at all |
| `MerchantsService.Service.UpdateMerchant` | src/merchants/merchants.service.ts:163-186 | succeeds exactly for an existing merchant and an email nobody else has; each field given is written, each other kept, and no other merchant or key moves |
| `MerchantsService.Service.RotateApiKey` | src/merchants/merchants.service.ts:191-224 | adds one active key to an existing merchant; earlier keys stay as they are |
| `MerchantsService.Service.RevokeApiKey` | src/merchants/merchants.service.ts:229-246 | deactivates exactly the named key |
| `MerchantsService.Service.FindMerchantByApiKey` | src/merchants/merchants.service.ts:253-282 | answers with the merchant of the active key with that hash, if the merchant is active, and nobody otherwise; its background write of lastUsedAt changes no later answer |
| `Routing.ApplyHealthPrioritization` | src/routing/smart-routing.service.ts:157-181 | the loop computes the prioritised order; with every circuit open the candidates come back as they were |
| `Routing.NoneSelected` | src/routing/smart-routing.service.ts:175-178 | the all-tripped branch agrees with the general one |
| `Routing.StablePartition` | src/routing/smart-routing.service.ts:157-181 | for any candidates and availability: a permutation, available before tripped, order kept inside both groups, idempotent |
| `Routing.PartitionUnique` | src/routing/smart-routing.service.ts:157-181 | these properties determine the order completely |
| `Routing.UpperCaseMeaning` | src/routing/smart-routing.service.ts:22 | the case of a currency does not matter |
| `Routing.BaseChainTable` | src/routing/smart-routing.service.ts:66-140 | without a preference, the chain each strategy gives each currency (and amount below 100) |
| `Routing.PreferredChainMeaning` | src/routing/smart-routing.service.ts:145-152 | with one, the preferred gateway and then the currency's chain in its order without it, whatever the strategy |
| `Routing.BaseCandidatesUsable` | src/routing/smart-routing.service.ts:27-45 | every base chain names STRIPE and PAYMOB and no gateway twice |
| `Routing.ResolveRoute` | src/routing/smart-routing.service.ts:21-64 | the route is the prioritised base chain, is never empty, and its primary is its head |
| `Routing.ResolvedChain` | src/routing/smart-routing.service.ts:21-64 | the chain of every context is duplicate-free, its primary is available exactly when any candidate is, and an available preferred gateway is primary |

## Left out

- Provider failover at checkout (`safeCreateIntentWithFallback` has no body in the repository); checkout is "create a PENDING intent" with the gateway chosen freely.
- Circuit breaker and queue internals: availability is an arbitrary predicate, the outbound queue an append-only log; delivery, retries and backoff are not part of this model.
- Provider adapters: an answer, a status and a thrown error are free choices of an action.
- Delivery of every outbound event: an event is lost if enqueueing fails after the commit, so only at-most-once is claimed.
- SHA-256, HMAC and the generation of ids and keys: the hash and the digest are arbitrary functions, the digest 64 lower-case hex characters.
- IEEE double error and integers beyond 2^53: arithmetic is exact over reals. Overflow of Decimal(12, 2) is not modelled.
- Guards, DTO decorators other than the two minima (0.01 for a refund, 1 for a checkout), modules, health probes, logging, configuration and the text format of the metrics.
- Signature checks and payload parsing of inbound webhooks, and the payloads of outbound events: an event is its kind, its intent and its cause.
- Tenant scoping of idempotency keys: the key is global, as in the code.
- Request columns that decide nothing: reference, customer email, refund reason, gateway refund id, key prefix and label.
- `getRefundsByIntentId`, `getMerchantById` and `listMerchants`, which only read.
- An unparseable TTL setting, and a handler whose body is the JSON value null (caching it fails, which the model has as a failed update).
- A read with `include` is one atomic read, and all actors see one clock.
- RefundsService.Service.ProcessRefund: figures of the reply and of the event when the provider answers PENDING or FAILED are computed as if the refund had succeeded, as in the code; the clauses about them are restricted to SUCCEEDED.
- RefundSafety.RefundLedgerSafety: needs turn-taking of refunds, because the code does not recheck the balance at its commit; `RefundSafety.LedgerSettledIffCommitsFit` has the exact condition.
- RefundsWithinVolume.RefundedNeverExceedsVolume: needs the two ledger hypotheses, because neither refunds nor passes recheck their row when they write it.
- Notifications.NotificationBound: needs first writes by passes, because a pass does not recheck its row when it writes; there is no lower bound, because enqueueing may fail. `Notifications.NotificationConservation` has the exact count.
- Idempotency.IdempotencyExclusion: needs the two hypotheses, because a delete by key removes whatever row the key has by then; `Idempotency.RowsKeptIffCleanupsSpareLive` has the exact condition.
- Analytics.GetOverview: volumes are maps, so the order of `volumeByCurrency` is not captured; the query itself is `RefundsWithinVolume.IsListing`, which leaves the order of rows open. The loop body is split into one method per accumulator.
- Metrics.GroupIntents: an absent label and a label with 0 are not told apart.
- Reconciliation.Service.ReconcileStaleIntents: an error is recorded as the id of its row, not as a message; the loop is a method of its own.
- KeyRegistry.LookupIsOwner: the hash is assumed injective on the keys in use.
- Signature.RoundTrip: timestamps are natural numbers, as the service prints them.
- Routing.ResolveRoute: upper-casing covers ASCII letters only, and logging is left out.
