/** src/webhooks/webhooks.controller.ts, from the transaction onward. */
module Webhooks {
  import opened Tables
  import opened Store

  datatype Recorded = Fresh(db: Db) | DuplicateEvent | UnknownIntent

  /** The transaction: ledger the provider event, then mark its intent CAPTURED, or roll both back.
      The unique constraint is checked before the foreign key. */
  function RecordEvent(db: Db, event: string, intent: Id): Recorded {
    if event in db.events then DuplicateEvent else
    if intent !in db.intents then UnknownIntent else
    Fresh(WithStatus(db.(events := db.events[event := intent]), intent, CAPTURED))
  }

  /** One delivery without interference: the tables it leaves and the HTTP status. `txOk` and
      `dispatchOk` say whether the transaction reaches the database and the queue accepts the event. */
  function Received(db: Db, event: string, intent: Id, txOk: bool, dispatchOk: bool): (Db, int) {
    if !txOk then (db, 500) else
    match RecordEvent(db, event, intent)
    case DuplicateEvent => (db, 200)
    case UnknownIntent => (db, 500)
    case Fresh(recorded) => if dispatchOk then (Enqueue(recorded, PaymentSucceeded, intent, ByWebhook(event)), 200) else (recorded, 500)
  }

  class Controller {
    const prisma: PaymentStore

    constructor (prisma: PaymentStore)
      ensures this.prisma == prisma
    {
      this.prisma := prisma;
    }

    /** The result is the HTTP status. */
    method HandleIncomingWebhook(event: string, intent: Id, txOk: bool, dispatchOk: bool) returns (status: int)
      modifies prisma
      ensures (prisma.View(), status) == Received(old(prisma.View()), event, intent, txOk, dispatchOk)
      ensures status == 200 || status == 500
      ensures status == 200 ==> event in prisma.events
      ensures event in old(prisma.events) ==> prisma.View() == old(prisma.View()) && (txOk ==> status == 200)
      ensures status == 500 && event !in prisma.events ==> prisma.View() == old(prisma.View())
      ensures event in prisma.events && event !in old(prisma.events) ==>
                && txOk && intent in old(prisma.intents)
                && prisma.events == old(prisma.events)[event := intent]
                && prisma.intents == old(prisma.intents)[intent := old(prisma.intents)[intent].(status := CAPTURED)]
                && prisma.refunds == old(prisma.refunds)
                && prisma.outbox == old(prisma.outbox) + (if status == 200 then [Outbound(PaymentSucceeded, intent, ByWebhook(event))] else [])
                && (status == 200 <==> dispatchOk)
      ensures txOk && intent in old(prisma.intents) ==> event in prisma.events
    {
      if !txOk {
        return 500;
      }
      if event in prisma.events {
        return 200;
      }
      if intent !in prisma.intents {
        return 500;
      }
      prisma.CreateEvent(event, intent);
      prisma.UpdateStatus(intent, CAPTURED);
      if !dispatchOk {
        return 500;
      }
      prisma.Dispatch(PaymentSucceeded, intent, ByWebhook(event));
      return 200;
    }
  }
}
