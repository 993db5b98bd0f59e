/** The database tables the handlers and workers share, and the single-row writes on them. */
module Tables {
  import opened Prelude
  import opened Money

  type Id = string

  datatype PaymentStatus = PENDING | AUTHORIZED | CAPTURED | FAILED | REFUNDED

  datatype Gateway = PAYMOB | FAWRY | STRIPE

  datatype RefundStatus = RefundPending | RefundSucceeded | RefundFailed

  datatype Intent = Intent(
    amount: Cents,
    currency: string,
    status: PaymentStatus,
    gateway: Gateway,
    gatewayPaymentId: Option<string>,
    merchantId: Id,
    createdAt: int)

  /** A refund row; `request` tags the request that wrote it (bookkeeping of the model, not a column). */
  datatype Refund = Refund(intent: Id, amount: Cents, status: RefundStatus, request: Id)

  datatype EventKind = PaymentSucceeded | PaymentFailed | PaymentRefunded

  /** Who caused a write or an event: a provider event, a reconciliation pass or a refund request. */
  datatype Cause = ByWebhook(event: string) | ByPass(pass: Id) | ByRefund(request: Id)

  /** An entry of the outbound queue. */
  datatype Outbound = Outbound(kind: EventKind, intent: Id, cause: Cause)

  /** `events` is the webhook ledger: unique provider event id to the intent it names. */
  datatype Db = Db(
    intents: map<Id, Intent>,
    refunds: seq<Refund>,
    events: map<string, Id>,
    outbox: seq<Outbound>)

  const EMPTY := Db(map[], [], map[], [])

  /** A missing or empty gatewayPaymentId is falsy. */
  predicate HasGatewayId(row: Intent) {
    row.gatewayPaymentId.Some? && row.gatewayPaymentId.value != ""
  }

  /** A payment that was collected: analytics counts it as successful. */
  predicate Collected(status: PaymentStatus) {
    status == CAPTURED || status == REFUNDED
  }

  /** paymentIntent.update({ where: { id }, data: { status } }) on an existing row. */
  function WithStatus(db: Db, id: Id, status: PaymentStatus): Db
    requires id in db.intents
  {
    db.(intents := db.intents[id := db.intents[id].(status := status)])
  }

  function Enqueue(db: Db, kind: EventKind, id: Id, cause: Cause): Db {
    db.(outbox := db.outbox + [Outbound(kind, id, cause)])
  }

  /** What one refund row adds to the refunded total of an intent: only SUCCEEDED rows count. */
  function Counted(r: Refund, id: Id): Cents {
    if r.intent == id && r.status == RefundSucceeded then r.amount else 0
  }

  /** filter(SUCCEEDED) then reduce(sum), over the first n refund rows of one intent. */
  function RefundedIn(refunds: seq<Refund>, n: nat, id: Id): Cents
    requires n <= |refunds|
  {
    if n == 0 then 0 else RefundedIn(refunds, n - 1, id) + Counted(refunds[n - 1], id)
  }

  function Refunded(refunds: seq<Refund>, id: Id): Cents {
    RefundedIn(refunds, |refunds|, id)
  }

  lemma {:induction false} RefundedPrefix(a: seq<Refund>, b: seq<Refund>, n: nat, id: Id)
    requires n <= |a| && n <= |b| && forall k :: 0 <= k < n ==> a[k] == b[k]
    ensures RefundedIn(a, n, id) == RefundedIn(b, n, id)
  {
    if n > 0 {
      RefundedPrefix(a, b, n - 1, id);
    }
  }

  lemma RefundedAppend(refunds: seq<Refund>, r: Refund, id: Id)
    ensures Refunded(refunds + [r], id) == Refunded(refunds, id) + Counted(r, id)
  {
    RefundedPrefix(refunds + [r], refunds, |refunds|, id);
  }

  lemma RefundedFront(refunds: seq<Refund>, id: Id)
    requires refunds != []
    ensures Refunded(refunds, id) == Refunded(refunds[..|refunds| - 1], id) + Counted(refunds[|refunds| - 1], id)
  {
    RefundedPrefix(refunds, refunds[..|refunds| - 1], |refunds| - 1, id);
  }
}
