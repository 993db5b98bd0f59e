/** src/refunds/refunds.service.ts: validation, cent rounding and the two phases of a refund. */
module Refunds {
  import opened Prelude
  import opened Money
  import opened Tables

  /** What a validated request remembers from its read until its commit. */
  datatype Plan = Plan(intent: Id, requested: real, soFar: Cents, total: Cents)

  datatype RefundError =
    | NotFound
    | NotCaptured(status: PaymentStatus)
    | NoGatewayPaymentId
    | AlreadyFullyRefunded
    | NotPositive
    | ExceedsBalance(requested: real, balance: real)
    | ProviderThrew
    | CommitThrew
    | DispatchThrew

  function RemainingBalance(total: Cents, soFar: Cents): real {
    RoundHundredths(Amount(total) - Amount(soFar))
  }

  /** The read and the checks that precede the provider call. */
  function PlanRefund(db: Db, id: Id, amount: Option<real>, merchantId: Id): Result<Plan, RefundError> {
    if id !in db.intents || db.intents[id].merchantId != merchantId then Failure(NotFound) else
    var row := db.intents[id];
    if row.status != CAPTURED then Failure(NotCaptured(row.status)) else
    if !HasGatewayId(row) then Failure(NoGatewayPaymentId) else
    var soFar := Refunded(db.refunds, id);
    var balance := RemainingBalance(row.amount, soFar);
    if balance <= 0.0 then Failure(AlreadyFullyRefunded) else
    var requested := if amount.Some? then amount.value else balance;
    if requested <= 0.0 then Failure(NotPositive) else
    if requested > balance then Failure(ExceedsBalance(requested, balance)) else
    Success(Plan(id, requested, soFar, row.amount))
  }

  /** isFullyRefunded: computed from the unrounded request, before the row is stored. */
  predicate IsFullyRefunded(plan: Plan) {
    RoundHundredths(Amount(plan.soFar) + plan.requested) >= Amount(plan.total)
  }

  /** The transaction: the refund row, and REFUNDED on the intent when the refund completes it. */
  function CommitRefund(db: Db, plan: Plan, status: RefundStatus, request: Id): Db
    requires plan.intent in db.intents
  {
    var recorded := db.(refunds := db.refunds + [Refund(plan.intent, StoreDecimal(plan.requested), status, request)]);
    if IsFullyRefunded(plan) && status == RefundSucceeded
    then WithStatus(recorded, plan.intent, REFUNDED)
    else recorded
  }

  datatype Receipt = Receipt(amount: real, status: RefundStatus, remainingBalance: real, isFullyRefunded: bool)

  /** The reply to an accepted request. */
  function ReceiptFor(plan: Plan, status: RefundStatus): Receipt {
    var remaining := RemainingBalance(plan.total, plan.soFar) - plan.requested;
    Receipt(plan.requested, status, if remaining > 0.0 then remaining else 0.0, IsFullyRefunded(plan))
  }

  /** processRefund without interference: the tables it leaves and what it returns or throws.
      `provider` is the provider's answer (None: it throws); `commitOk` and `dispatchOk` say whether
      the transaction and the enqueueing succeed. */
  function Processed(db: Db, id: Id, amount: Option<real>, merchantId: Id, request: Id,
                     provider: Option<RefundStatus>, commitOk: bool, dispatchOk: bool): (Db, Result<Receipt, RefundError>)
  {
    var planned := PlanRefund(db, id, amount, merchantId);
    if planned.Failure? then (db, Failure(planned.error)) else
    if provider.None? then (db, Failure(ProviderThrew)) else
    if !commitOk then (db, Failure(CommitThrew)) else
    var committed := CommitRefund(db, planned.value, provider.value, request);
    if !dispatchOk then (committed, Failure(DispatchThrew)) else
    (Enqueue(committed, PaymentRefunded, id, ByRefund(request)), Success(ReceiptFor(planned.value, provider.value)))
  }

  // ----- Rounding -----------------------------------------------------------------

  lemma BalanceExact(total: Cents, soFar: Cents)
    ensures RemainingBalance(total, soFar) == Amount(total - soFar)
  {
    RoundedAdditionExact(total, soFar);
  }

  /** A request finer than a cent is rounded once in the check and once in the column;
      the two roundings agree, so the stored cents fit the balance and the completion
      test is exactly "the stored amounts reach the total". */
  lemma StoredRequestFits(plan: Plan)
    requires 0.0 < plan.requested <= RemainingBalance(plan.total, plan.soFar)
    ensures 0 <= StoreDecimal(plan.requested) <= plan.total - plan.soFar
    ensures IsFullyRefunded(plan) <==> plan.soFar + StoreDecimal(plan.requested) == plan.total
    ensures StoreDecimal(plan.requested) >= 1 <==> plan.requested >= 0.005
  {
    BalanceExact(plan.total, plan.soFar);
    var x := plan.requested * 100.0;
    assert x <= (plan.total - plan.soFar) as real;
    RoundMonotone(x, (plan.total - plan.soFar) as real);
    RoundShift(plan.total - plan.soFar, 0.0);
    RoundMonotone(0.0, x);
    assert (Amount(plan.soFar) + plan.requested) * 100.0 == plan.soFar as real + x;
    RoundShift(plan.soFar, x);
  }

  /** The remaining balance in the reply is computed from the unrounded request: it is the balance
      the table is left with exactly when the request is a whole number of cents. */
  lemma ReportedBalanceExactIff(plan: Plan, status: RefundStatus)
    requires 0.0 < plan.requested <= RemainingBalance(plan.total, plan.soFar)
    ensures ReceiptFor(plan, status).remainingBalance == Amount(plan.total - plan.soFar - StoreDecimal(plan.requested))
            <==> exists c: Cents :: plan.requested == Amount(c)
  {
    BalanceExact(plan.total, plan.soFar);
    var stored := StoreDecimal(plan.requested);
    assert Amount(plan.total - plan.soFar - stored) == Amount(plan.total - plan.soFar) - Amount(stored);
    if c: Cents :| plan.requested == Amount(c) {
      WholeCentsExact(c);
    }
  }

  // ----- What one sequential refund does ------------------------------------------

  /** The invariant of one intent's ledger. */
  ghost predicate Settled(row: Intent, refunded: Cents) {
    && 0 <= refunded <= row.amount
    && (row.status == REFUNDED ==> refunded == row.amount)
  }

  /** A request is accepted exactly when the payment is CAPTURED, belongs to the merchant, has a
      gateway id, still has a balance, and the amount (if given) is positive and fits it. */
  lemma AcceptedIff(db: Db, id: Id, amount: Option<real>, merchantId: Id)
    ensures PlanRefund(db, id, amount, merchantId).Success? <==>
            && id in db.intents && db.intents[id].merchantId == merchantId
            && db.intents[id].status == CAPTURED
            && db.intents[id].gatewayPaymentId.Some? && db.intents[id].gatewayPaymentId.value != ""
            && Refunded(db.refunds, id) < db.intents[id].amount
            && (amount.Some? ==> 0.0 < amount.value <= Amount(db.intents[id].amount - Refunded(db.refunds, id)))
  {
    if id in db.intents {
      BalanceExact(db.intents[id].amount, Refunded(db.refunds, id));
    }
  }

  /** Every rejection names the first reason that holds, in terms of the table and the request. */
  lemma RejectionMeaning(db: Db, id: Id, amount: Option<real>, merchantId: Id)
    requires PlanRefund(db, id, amount, merchantId).Failure?
    ensures var e := PlanRefund(db, id, amount, merchantId).error;
            if id !in db.intents || db.intents[id].merchantId != merchantId then e == NotFound else
            var row, left := db.intents[id], db.intents[id].amount - Refunded(db.refunds, id);
            if row.status != CAPTURED then e == NotCaptured(row.status) else
            if row.gatewayPaymentId.None? || row.gatewayPaymentId.value == "" then e == NoGatewayPaymentId else
            if left <= 0 then e == AlreadyFullyRefunded else
            && amount.Some?
            && (if amount.value <= 0.0 then e == NotPositive
                else amount.value > Amount(left) && e == ExceedsBalance(amount.value, Amount(left)))
  {
    if id in db.intents {
      BalanceExact(db.intents[id].amount, Refunded(db.refunds, id));
    }
  }

  lemma PlanMeaning(db: Db, id: Id, amount: Option<real>, merchantId: Id)
    requires PlanRefund(db, id, amount, merchantId).Success?
    ensures var plan := PlanRefund(db, id, amount, merchantId).value;
            && plan.intent == id && id in db.intents && db.intents[id].status == CAPTURED
            && plan.total == db.intents[id].amount && plan.soFar == Refunded(db.refunds, id)
            && 0.0 < plan.requested <= RemainingBalance(plan.total, plan.soFar) == Amount(plan.total - plan.soFar)
            && (amount.None? ==> plan.requested == Amount(plan.total - plan.soFar))
            && (amount.Some? ==> plan.requested == amount.value)
  {
    BalanceExact(db.intents[id].amount, Refunded(db.refunds, id));
  }

  /** What a commit changes, whatever the plan: one row more, with the stored cents and the provider's
      status; so the stored cents if SUCCEEDED, and the intent's status if complete. */
  lemma CommitMoves(db: Db, plan: Plan, status: RefundStatus, request: Id)
    requires plan.intent in db.intents
    ensures var after := CommitRefund(db, plan, status, request);
            && after.refunds == db.refunds + [Refund(plan.intent, StoreDecimal(plan.requested), status, request)]
            && (forall i :: Refunded(after.refunds, i) == Refunded(db.refunds, i)
                  + (if i == plan.intent && status == RefundSucceeded then StoreDecimal(plan.requested) else 0))
            && after.intents == db.intents[plan.intent := db.intents[plan.intent].(status :=
                  if IsFullyRefunded(plan) && status == RefundSucceeded then REFUNDED else db.intents[plan.intent].status)]
            && after.events == db.events && after.outbox == db.outbox
  {
    var row := Refund(plan.intent, StoreDecimal(plan.requested), status, request);
    forall i ensures Refunded(db.refunds + [row], i) == Refunded(db.refunds, i) + Counted(row, i) {
      RefundedAppend(db.refunds, row, i);
    }
  }

  /** The reply to a valid plan: the provider's status, the amount asked for, what the balance read
      before leaves, and completion exactly when the stored amounts reach the total. */
  lemma ReceiptMeaning(plan: Plan, status: RefundStatus)
    requires 0.0 < plan.requested <= RemainingBalance(plan.total, plan.soFar)
    ensures var receipt := ReceiptFor(plan, status);
            && receipt.status == status && receipt.amount == plan.requested
            && receipt.remainingBalance == Amount(plan.total - plan.soFar) - plan.requested
            && (receipt.isFullyRefunded <==> plan.soFar + StoreDecimal(plan.requested) == plan.total)
            && (plan.requested == Amount(StoreDecimal(plan.requested)) ==>
                receipt.remainingBalance == Amount(plan.total - plan.soFar - StoreDecimal(plan.requested)))
  {
    BalanceExact(plan.total, plan.soFar);
    StoredRequestFits(plan);
    var stored := StoreDecimal(plan.requested);
    assert Amount(plan.total - plan.soFar - stored) == Amount(plan.total - plan.soFar) - Amount(stored);
  }

  /** A commit whose plan is still current keeps the ledger settled, adds exactly the stored
      cents, and marks REFUNDED exactly when the total is reached. */
  lemma CurrentCommit(db: Db, plan: Plan, status: RefundStatus, request: Id)
    requires plan.intent in db.intents
    requires plan.total == db.intents[plan.intent].amount
    requires plan.soFar == Refunded(db.refunds, plan.intent)
    requires 0.0 < plan.requested <= RemainingBalance(plan.total, plan.soFar)
    requires Settled(db.intents[plan.intent], plan.soFar)
    ensures var after := CommitRefund(db, plan, status, request);
            var refunded := Refunded(after.refunds, plan.intent);
            && refunded == plan.soFar + (if status == RefundSucceeded then StoreDecimal(plan.requested) else 0)
            && Settled(after.intents[plan.intent], refunded)
            && (status == RefundSucceeded ==> (refunded == plan.total <==> after.intents[plan.intent].status == REFUNDED))
            && forall i :: i != plan.intent ==> Refunded(after.refunds, i) == Refunded(db.refunds, i)
  {
    CommitMoves(db, plan, status, request);
    StoredRequestFits(plan);
    BalanceExact(plan.total, plan.soFar);
  }

  // ----- A whole request -----------------------------------------------------------

  /** What a request does and answers, in terms of the tables before and after. */
  lemma ProcessedMeaning(db: Db, id: Id, amount: Option<real>, merchantId: Id, request: Id,
                         provider: Option<RefundStatus>, commitOk: bool, dispatchOk: bool)
    ensures var (after, r) := Processed(db, id, amount, merchantId, request, provider, commitOk, dispatchOk);
            && ((r.Success? || r == Failure(DispatchThrew)) ==>
                && provider.Some? && commitOk && id in db.intents && r.Success? == dispatchOk
                && var requested := if amount.Some? then amount.value else Amount(db.intents[id].amount - Refunded(db.refunds, id));
                   && after.refunds == db.refunds + [Refund(id, StoreDecimal(requested), provider.value, request)]
                   && after.outbox == db.outbox + (if dispatchOk then [Outbound(PaymentRefunded, id, ByRefund(request))] else [])
                   && after.events == db.events)
            && (r.Success? ==>
                && provider == Some(r.value.status)
                && r.value.amount == (if amount.Some? then amount.value else Amount(db.intents[id].amount - Refunded(db.refunds, id)))
                && r.value.remainingBalance == Amount(db.intents[id].amount - Refunded(db.refunds, id)) - r.value.amount
                && (r.value.isFullyRefunded <==> Refunded(db.refunds, id) + StoreDecimal(r.value.amount) == db.intents[id].amount))
            && (r.Success? && provider == Some(RefundSucceeded) && r.value.amount == Amount(StoreDecimal(r.value.amount)) ==>
                id in after.intents && r.value.remainingBalance == Amount(after.intents[id].amount - Refunded(after.refunds, id)))
            && (id in db.intents && Settled(db.intents[id], Refunded(db.refunds, id)) ==>
                && id in after.intents
                && Settled(after.intents[id], Refunded(after.refunds, id))
                && (r.Success? && provider == Some(RefundSucceeded) ==>
                    && Refunded(after.refunds, id) == Refunded(db.refunds, id) + StoreDecimal(r.value.amount)
                    && (r.value.isFullyRefunded <==> after.intents[id].status == REFUNDED)
                    && (r.value.isFullyRefunded <==> Refunded(after.refunds, id) == after.intents[id].amount)))
  {
    var planned := PlanRefund(db, id, amount, merchantId);
    if planned.Success? && provider.Some? && commitOk {
      PlanMeaning(db, id, amount, merchantId);
      CommitMoves(db, planned.value, provider.value, request);
      ReceiptMeaning(planned.value, provider.value);
      if Settled(db.intents[id], planned.value.soFar) {
        CurrentCommit(db, planned.value, provider.value, request);
      }
    }
  }
}
