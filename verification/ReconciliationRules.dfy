/** The row-level decisions of src/reconciliation/reconciliation.service.ts. */
module ReconciliationRules {
  import opened Prelude
  import opened Tables

  /** where: { status: 'PENDING', createdAt: { lte: cutoff } } */
  predicate Stale(row: Intent, cutoff: int) {
    row.status == PENDING && row.createdAt <= cutoff
  }

  /** findMany returns the stale rows in some order, each once. */
  ghost predicate IsSnapshot(db: Db, cutoff: int, order: seq<Id>) {
    && Distinct(order)
    && forall id :: id in order <==> id in db.intents && Stale(db.intents[id], cutoff)
  }

  /** The event that follows a status written on the provider's word. */
  function AnnouncementOf(status: PaymentStatus): EventKind {
    if status == CAPTURED then PaymentSucceeded else PaymentFailed
  }

  /** Only these two answers make a pass write. */
  predicate Decisive(status: PaymentStatus) {
    status == CAPTURED || status == FAILED
  }

  type Verdict = status: PaymentStatus | Decisive(status) witness CAPTURED

  /** How a row left the loop body; an error may come before or after the status write. */
  datatype Disposition = WasCaptured | WasFailed | WasAbandoned | WasUnchanged | Erred(written: Option<Verdict>)

  datatype Summary = Summary(scanned: nat, captured: nat, failed: nat, untouched: nat, errors: seq<Id>)

  /** The status the row's handling wrote, if any. */
  function WrittenStatus(d: Disposition): Option<Verdict> {
    match d
    case WasCaptured => Some(CAPTURED)
    case WasFailed => Some(FAILED)
    case WasAbandoned => Some(FAILED)
    case WasUnchanged => None
    case Erred(written) => written
  }

  /** Abandoned rows are failed without telling the merchant. */
  function Announcement(d: Disposition): Option<EventKind> {
    match d
    case WasCaptured => Some(PaymentSucceeded)
    case WasFailed => Some(PaymentFailed)
    case _ => None
  }

  /** The counters, one row at a time. */
  function Tally(order: seq<Id>, ds: seq<Disposition>): Summary
    requires |order| == |ds|
  {
    if order == [] then Summary(0, 0, 0, 0, [])
    else
      var n := |order| - 1;
      var t := Tally(order[..n], ds[..n]).(scanned := |order|);
      match ds[n]
      case WasCaptured => t.(captured := t.captured + 1)
      case WasFailed => t.(failed := t.failed + 1)
      case WasAbandoned => t.(failed := t.failed + 1)
      case WasUnchanged => t.(untouched := t.untouched + 1)
      case Erred(_) => t.(errors := t.errors + [order[n]])
  }
}
