/** processRefund as the sequential program it is, run without interference on the shared tables. */
module RefundsService {
  import opened Prelude
  import opened Money
  import opened Tables
  import opened Refunds
  import opened Store

  class Service {
    const prisma: PaymentStore

    constructor (prisma: PaymentStore)
      ensures this.prisma == prisma
    {
      this.prisma := prisma;
    }

    /** The transaction of one validated refund. */
    method Transact(plan: Plan, status: RefundStatus, request: Id)
      requires plan.intent in prisma.intents
      modifies prisma
      ensures prisma.View() == CommitRefund(old(prisma.View()), plan, status, request)
    {
      var isFullyRefunded := RoundHundredths(Amount(plan.soFar) + plan.requested) >= Amount(plan.total);
      prisma.CreateRefund(Refund(plan.intent, StoreDecimal(plan.requested), status, request));
      if isFullyRefunded && status == RefundSucceeded {
        prisma.UpdateStatus(plan.intent, REFUNDED);
      }
    }

    /** The read and the checks before the provider is called. */
    method Validate(id: Id, amount: Option<real>, merchantId: Id) returns (r: Result<Plan, RefundError>)
      ensures r == PlanRefund(prisma.View(), id, amount, merchantId)
      // Accepted exactly when the payment is the merchant's, CAPTURED, known to the gateway and not
      // yet paid back, and the amount, if given, is positive and fits what is left.
      ensures r.Success? <==>
                && id in prisma.intents && prisma.intents[id].merchantId == merchantId
                && prisma.intents[id].status == CAPTURED
                && prisma.intents[id].gatewayPaymentId.Some? && prisma.intents[id].gatewayPaymentId.value != ""
                && Refunded(prisma.refunds, id) < prisma.intents[id].amount
                && (amount.Some? ==> 0.0 < amount.value <= Amount(prisma.intents[id].amount - Refunded(prisma.refunds, id)))
      // The plan is for the amount asked for, or for all that is left.
      ensures r.Success? ==>
                && r.value.intent == id && r.value.total == prisma.intents[id].amount && r.value.soFar == Refunded(prisma.refunds, id)
                && r.value.requested == if amount.Some? then amount.value else Amount(r.value.total - r.value.soFar)
      // A rejection names the first reason that holds.
      ensures r.Failure? ==>
                if id !in prisma.intents || prisma.intents[id].merchantId != merchantId then r.error == NotFound else
                var row, left := prisma.intents[id], prisma.intents[id].amount - Refunded(prisma.refunds, id);
                if row.status != CAPTURED then r.error == NotCaptured(row.status) else
                if row.gatewayPaymentId.None? || row.gatewayPaymentId.value == "" then r.error == NoGatewayPaymentId else
                if left <= 0 then r.error == AlreadyFullyRefunded else
                && amount.Some?
                && (if amount.value <= 0.0 then r.error == NotPositive
                    else amount.value > Amount(left) && r.error == ExceedsBalance(amount.value, Amount(left)))
    {
      AcceptedIff(prisma.View(), id, amount, merchantId);
      if PlanRefund(prisma.View(), id, amount, merchantId).Success? {
        PlanMeaning(prisma.View(), id, amount, merchantId);
      } else {
        RejectionMeaning(prisma.View(), id, amount, merchantId);
      }
      if id !in prisma.intents || prisma.intents[id].merchantId != merchantId {
        return Failure(NotFound);
      }
      var intent := prisma.intents[id];
      if intent.status != CAPTURED {
        return Failure(NotCaptured(intent.status));
      }
      if !HasGatewayId(intent) {
        return Failure(NoGatewayPaymentId);
      }
      var totalRefundedSoFar := Refunded(prisma.refunds, id);
      var remainingBalance := RemainingBalance(intent.amount, totalRefundedSoFar);
      if remainingBalance <= 0.0 {
        return Failure(AlreadyFullyRefunded);
      }
      var requestedAmount := if amount.Some? then amount.value else remainingBalance;
      if requestedAmount <= 0.0 {
        return Failure(NotPositive);
      }
      if requestedAmount > remainingBalance {
        return Failure(ExceedsBalance(requestedAmount, remainingBalance));
      }
      return Success(Plan(id, requestedAmount, totalRefundedSoFar, intent.amount));
    }

    /** The oracles are those of `Processed`. */
    method ProcessRefund(id: Id, amount: Option<real>, merchantId: Id, request: Id,
                         provider: Option<RefundStatus>, commitOk: bool, dispatchOk: bool)
      returns (r: Result<Receipt, RefundError>)
      modifies prisma
      ensures (prisma.View(), r) == Processed(old(prisma.View()), id, amount, merchantId, request, provider, commitOk, dispatchOk)
      // Everything up to the transaction is side-effect free.
      ensures r.Failure? && r.error != DispatchThrew ==> prisma.View() == old(prisma.View())
      ensures PlanRefund(old(prisma.View()), id, amount, merchantId).Failure? ==>
                r.Failure? && r.error == PlanRefund(old(prisma.View()), id, amount, merchantId).error
      // An accepted request that the provider answers is committed and then announced.
      ensures PlanRefund(old(prisma.View()), id, amount, merchantId).Success? ==>
                var plan := PlanRefund(old(prisma.View()), id, amount, merchantId).value;
                if provider.None? then r == Failure(ProviderThrew)
                else if !commitOk then r == Failure(CommitThrew)
                else
                  var committed := CommitRefund(old(prisma.View()), plan, provider.value, request);
                  if !dispatchOk then r == Failure(DispatchThrew) && prisma.View() == committed
                  else r == Success(ReceiptFor(plan, provider.value)) && prisma.View() == Enqueue(committed, PaymentRefunded, id, ByRefund(request))
      // An answered and committed request adds one row, with the provider's status and the amount
      // asked for (or all that was left) in cents; it is announced unless the queue refuses.
      ensures (r.Success? || r == Failure(DispatchThrew)) ==>
                && provider.Some? && commitOk && id in old(prisma.intents) && r.Success? == dispatchOk
                && var requested := if amount.Some? then amount.value else Amount(old(prisma.intents)[id].amount - Refunded(old(prisma.refunds), id));
                   && prisma.refunds == old(prisma.refunds) + [Refund(id, StoreDecimal(requested), provider.value, request)]
                   && prisma.outbox == old(prisma.outbox) + (if dispatchOk then [Outbound(PaymentRefunded, id, ByRefund(request))] else [])
                   && prisma.events == old(prisma.events)
      // The reply carries the provider's status, that amount, and what the balance read before leaves.
      ensures r.Success? ==>
                && provider == Some(r.value.status)
                && r.value.amount == (if amount.Some? then amount.value else Amount(old(prisma.intents)[id].amount - Refunded(old(prisma.refunds), id)))
                && r.value.remainingBalance == Amount(old(prisma.intents)[id].amount - Refunded(old(prisma.refunds), id)) - r.value.amount
                && (r.value.isFullyRefunded <==> Refunded(old(prisma.refunds), id) + StoreDecimal(r.value.amount) == old(prisma.intents)[id].amount)
      // For whole cents and SUCCEEDED that is the balance left in the table.
      ensures r.Success? && provider == Some(RefundSucceeded) && r.value.amount == Amount(StoreDecimal(r.value.amount)) ==>
                id in prisma.intents && r.value.remainingBalance == Amount(prisma.intents[id].amount - Refunded(prisma.refunds, id))
      // What that means for the ledger of a settled intent.
      ensures id in old(prisma.intents) && Settled(old(prisma.intents)[id], Refunded(old(prisma.refunds), id)) ==>
                && id in prisma.intents
                && Settled(prisma.intents[id], Refunded(prisma.refunds, id))
                && (r.Success? && provider == Some(RefundSucceeded) ==>
                    && Refunded(prisma.refunds, id) == Refunded(old(prisma.refunds), id) + StoreDecimal(r.value.amount)
                    && (r.value.isFullyRefunded <==> prisma.intents[id].status == REFUNDED)
                    && (r.value.isFullyRefunded <==> Refunded(prisma.refunds, id) == prisma.intents[id].amount))
    {
      ProcessedMeaning(prisma.View(), id, amount, merchantId, request, provider, commitOk, dispatchOk);
      var planned := Validate(id, amount, merchantId);
      if planned.Failure? {
        return Failure(planned.error);
      }
      var plan := planned.value;
      PlanMeaning(prisma.View(), id, amount, merchantId);
      if provider.None? {
        return Failure(ProviderThrew);
      }
      if !commitOk {
        return Failure(CommitThrew);
      }
      Transact(plan, provider.value, request);
      if !dispatchOk {
        return Failure(DispatchThrew);
      }
      prisma.Dispatch(PaymentRefunded, id, ByRefund(request));
      return Success(ReceiptFor(plan, provider.value));
    }
  }
}
