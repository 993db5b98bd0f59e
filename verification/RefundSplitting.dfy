/** Splitting a balance into several refunds: acceptance, confluence with one full refund. */
module RefundSplitting {
  import opened Prelude
  import opened Money
  import opened Tables
  import opened Refunds

  predicate Positive(parts: seq<Cents>) {
    forall k :: 0 <= k < |parts| ==> parts[k] >= 1
  }

  function Sum(parts: seq<Cents>): Cents {
    if parts == [] then 0 else parts[0] + Sum(parts[1..])
  }

  /** Refund the parts one after the other, the provider reporting SUCCEEDED each time.
      None as soon as one of them is rejected. */
  function RefundInTurn(db: Db, id: Id, parts: seq<Cents>, merchantId: Id, request: Id): Option<Db>
    decreases |parts|
  {
    if parts == [] then Some(db) else
    var planned := PlanRefund(db, id, Some(Amount(parts[0])), merchantId);
    if planned.Failure? then None else
    if planned.value.intent !in db.intents then None else
    RefundInTurn(CommitRefund(db, planned.value, RefundSucceeded, request), id, parts[1..], merchantId, request)
  }

  ghost predicate Refundable(db: Db, id: Id, merchantId: Id) {
    && id in db.intents && db.intents[id].merchantId == merchantId
    && db.intents[id].status == CAPTURED && HasGatewayId(db.intents[id])
    && 0 <= Refunded(db.refunds, id) < db.intents[id].amount
  }

  ghost function Balance(db: Db, id: Id): Cents
    requires id in db.intents
  {
    db.intents[id].amount - Refunded(db.refunds, id)
  }

  lemma {:induction false} PartsArePositive(parts: seq<Cents>)
    requires Positive(parts)
    ensures Sum(parts) >= |parts|
  {
    if parts != [] {
      PartsArePositive(parts[1..]);
    }
  }

  /** One whole-cent part against the balance. */
  lemma OnePart(db: Db, id: Id, part: Cents, merchantId: Id, request: Id)
    requires Refundable(db, id, merchantId) && part >= 1
    ensures var planned := PlanRefund(db, id, Some(Amount(part)), merchantId);
            && (planned.Success? <==> part <= Balance(db, id))
            && (planned.Success? ==>
                planned.value.intent == id &&
                var after := CommitRefund(db, planned.value, RefundSucceeded, request);
                && after.intents == db.intents[id := db.intents[id].(status := if part == Balance(db, id) then REFUNDED else CAPTURED)]
                && forall i :: Refunded(after.refunds, i) == Refunded(db.refunds, i) + (if i == id then part else 0))
  {
    BalanceExact(db.intents[id].amount, Refunded(db.refunds, id));
    var planned := PlanRefund(db, id, Some(Amount(part)), merchantId);
    assert Amount(part) <= Amount(Balance(db, id)) <==> part <= Balance(db, id);
    if planned.Success? {
      WholeCentsExact(part);
      StoredRequestFits(planned.value);
      CurrentCommit(db, planned.value, RefundSucceeded, request);
    }
  }

  /** A split is accepted in full exactly when its parts fit the balance; it then moves exactly
      their sum and ends in REFUNDED exactly when nothing is left, whatever the order or number of parts. */
  lemma {:induction false} SplitOutcome(db: Db, id: Id, parts: seq<Cents>, merchantId: Id, request: Id)
    requires Refundable(db, id, merchantId)
    requires Positive(parts)
    ensures var outcome := RefundInTurn(db, id, parts, merchantId, request);
            && (outcome.Some? <==> Sum(parts) <= Balance(db, id))
            && (outcome.Some? ==>
                && outcome.value.intents == db.intents[id := db.intents[id].(status := if Sum(parts) == Balance(db, id) then REFUNDED else CAPTURED)]
                && forall i :: Refunded(outcome.value.refunds, i) == Refunded(db.refunds, i) + (if i == id then Sum(parts) else 0))
    decreases |parts|
  {
    if parts != [] {
      OnePart(db, id, parts[0], merchantId, request);
      PartsArePositive(parts[1..]);
      if parts[0] <= Balance(db, id) {
        var after := CommitRefund(db, PlanRefund(db, id, Some(Amount(parts[0])), merchantId).value, RefundSucceeded, request);
        if parts[0] < Balance(db, id) {
          SplitOutcome(after, id, parts[1..], merchantId, request);
        } else if parts[1..] != [] {
          assert after.intents[id].status == REFUNDED;
        }
      }
    }
  }

  /** One refund without an amount takes the whole balance. */
  lemma WholeBalance(db: Db, id: Id, merchantId: Id, request: Id)
    requires Refundable(db, id, merchantId)
    ensures PlanRefund(db, id, None, merchantId).Success? && PlanRefund(db, id, None, merchantId).value.intent == id
    ensures var whole := CommitRefund(db, PlanRefund(db, id, None, merchantId).value, RefundSucceeded, request);
            && whole.intents == db.intents[id := db.intents[id].(status := REFUNDED)]
            && forall i :: Refunded(whole.refunds, i) == Refunded(db.refunds, i) + (if i == id then Balance(db, id) else 0)
  {
    BalanceExact(db.intents[id].amount, Refunded(db.refunds, id));
    OnePart(db, id, Balance(db, id), merchantId, request);
    assert PlanRefund(db, id, None, merchantId) == PlanRefund(db, id, Some(Amount(Balance(db, id))), merchantId);
  }

  /** Any split of the whole balance ends in the same intents and the same refunded totals as
      one refund without an amount. */
  lemma SplitConfluent(db: Db, id: Id, parts: seq<Cents>, merchantId: Id, request: Id)
    requires Refundable(db, id, merchantId)
    requires Positive(parts)
    requires Sum(parts) == Balance(db, id)
    ensures PlanRefund(db, id, None, merchantId).Success?
    ensures var whole := CommitRefund(db, PlanRefund(db, id, None, merchantId).value, RefundSucceeded, request);
            var split := RefundInTurn(db, id, parts, merchantId, request);
            && split.Some? && split.value.intents == whole.intents
            && (forall i :: Refunded(split.value.refunds, i) == Refunded(whole.refunds, i))
            && whole.intents[id].status == REFUNDED && Refunded(whole.refunds, id) == whole.intents[id].amount
  {
    WholeBalance(db, id, merchantId, request);
    SplitOutcome(db, id, parts, merchantId, request);
  }

  /** An accepted split has at most as many parts as the balance has cents. */
  lemma SplitTerminates(db: Db, id: Id, parts: seq<Cents>, merchantId: Id, request: Id)
    requires Refundable(db, id, merchantId)
    requires Positive(parts)
    requires RefundInTurn(db, id, parts, merchantId, request).Some?
    ensures |parts| <= Balance(db, id)
  {
    SplitOutcome(db, id, parts, merchantId, request);
    PartsArePositive(parts);
  }
}
