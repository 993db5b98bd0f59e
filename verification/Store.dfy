/** The shared tables as one mutable object; each method is one awaited database call. */
module Store {
  import opened Tables

  class PaymentStore {
    var intents: map<Id, Intent>
    var refunds: seq<Refund>
    var events: map<string, Id>
    var outbox: seq<Outbound>

    ghost function View(): Db
      reads this
    {
      Db(intents, refunds, events, outbox)
    }

    constructor ()
      ensures View() == EMPTY
    {
      intents, refunds, events, outbox := map[], [], map[], [];
    }

    method UpdateStatus(id: Id, status: PaymentStatus)
      requires id in intents
      modifies this`intents
      ensures View() == WithStatus(old(View()), id, status)
    {
      intents := intents[id := intents[id].(status := status)];
    }

    method CreateRefund(row: Refund)
      modifies this`refunds
      ensures refunds == old(refunds) + [row]
    {
      refunds := refunds + [row];
    }

    method CreateEvent(event: string, intent: Id)
      requires event !in events
      modifies this`events
      ensures events == old(events)[event := intent]
    {
      events := events[event := intent];
    }

    method Dispatch(kind: EventKind, id: Id, cause: Cause)
      modifies this`outbox
      ensures View() == Enqueue(old(View()), kind, id, cause)
    {
      outbox := outbox + [Outbound(kind, id, cause)];
    }
  }
}
