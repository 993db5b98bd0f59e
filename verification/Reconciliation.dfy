/** reconcileStaleIntents as the sequential program it is: one pass over a snapshot, its counters,
    its events, its per-row errors, and what a second pass then finds. */
module Reconciliation {
  import opened Prelude
  import opened Tables
  import opened ReconciliationRules
  import opened Store

  /** What the outside world answers while one row is handled: the clock, the provider (None: it
      throws), the update and the enqueueing. */
  datatype RowOracle = RowOracle(oneDayAgo: int, told: Option<PaymentStatus>, updateOk: bool, dispatchOk: bool)

  function Dispose(row: Intent, o: RowOracle): Disposition {
    if !HasGatewayId(row) then
      if row.createdAt >= o.oneDayAgo then WasUnchanged
      else if o.updateOk then WasAbandoned else Erred(None)
    else if o.told.None? then Erred(None)
    else if !Decisive(o.told.value) then WasUnchanged
    else if !o.updateOk then Erred(None)
    else if !o.dispatchOk then Erred(Some(o.told.value))
    else if o.told.value == CAPTURED then WasCaptured else WasFailed
  }

  function AfterRow(db: Db, id: Id, d: Disposition, pass: Id): Db
    requires id in db.intents
  {
    var written := if WrittenStatus(d).Some? then WithStatus(db, id, WrittenStatus(d).value) else db;
    if Announcement(d).Some? then Enqueue(written, Announcement(d).value, id, ByPass(pass)) else written
  }

  function Dispositions(db: Db, order: seq<Id>, oracle: seq<RowOracle>): seq<Disposition>
    requires |order| == |oracle| && forall id :: id in order ==> id in db.intents
  {
    seq(|order|, k requires 0 <= k < |order| => Dispose(db.intents[order[k]], oracle[k]))
  }

  function AfterRows(db: Db, order: seq<Id>, ds: seq<Disposition>, pass: Id): (after: Db)
    requires |order| == |ds| && forall k :: 0 <= k < |order| ==> order[k] in db.intents
    ensures after.intents.Keys == db.intents.Keys
  {
    if order == [] then db
    else
      var n := |order| - 1;
      AfterRow(AfterRows(db, order[..n], ds[..n], pass), order[n], ds[n], pass)
  }

  class Service {
    const prisma: PaymentStore

    constructor (prisma: PaymentStore)
      ensures this.prisma == prisma
    {
      this.prisma := prisma;
    }

    /** One row: the body of the try block and its catch. */
    method HandleRow(id: Id, row: Intent, o: RowOracle, pass: Id) returns (d: Disposition)
      requires id in prisma.intents
      modifies prisma
      ensures d == Dispose(row, o)
      ensures prisma.View() == AfterRow(old(prisma.View()), id, d, pass)
      // Without a gateway id only age counts: a row more than a day old is failed, silently.
      ensures row.gatewayPaymentId.None? || row.gatewayPaymentId.value == "" ==>
                && d == (if row.createdAt >= o.oneDayAgo then WasUnchanged else if o.updateOk then WasAbandoned else Erred(None))
                && prisma.intents == (if d == WasAbandoned then old(prisma.intents)[id := old(prisma.intents)[id].(status := FAILED)] else old(prisma.intents))
                && prisma.outbox == old(prisma.outbox)
      // With one, only the provider's CAPTURED and FAILED count: each is written, then announced.
      ensures row.gatewayPaymentId.Some? && row.gatewayPaymentId.value != "" ==>
                var decisive := o.told == Some(CAPTURED) || o.told == Some(FAILED);
                && d == (if o.told.None? then Erred(None) else if !decisive then WasUnchanged
                         else if !o.updateOk then Erred(None) else if !o.dispatchOk then Erred(Some(o.told.value))
                         else if o.told.value == CAPTURED then WasCaptured else WasFailed)
                && prisma.intents == (if decisive && o.updateOk then old(prisma.intents)[id := old(prisma.intents)[id].(status := o.told.value)]
                                      else old(prisma.intents))
                && prisma.outbox == old(prisma.outbox) + (if decisive && o.updateOk && o.dispatchOk
                                      then [Outbound(if o.told.value == CAPTURED then PaymentSucceeded else PaymentFailed, id, ByPass(pass))] else [])
      ensures prisma.refunds == old(prisma.refunds) && prisma.events == old(prisma.events)
    {
      if !HasGatewayId(row) {
        if row.createdAt < o.oneDayAgo {
          if !o.updateOk {
            return Erred(None);
          }
          prisma.UpdateStatus(id, FAILED);
          return WasAbandoned;
        }
        return WasUnchanged;
      }
      if o.told.None? {
        return Erred(None);
      }
      var providerStatus := o.told.value;
      if providerStatus == CAPTURED {
        if !o.updateOk {
          return Erred(None);
        }
        prisma.UpdateStatus(id, CAPTURED);
        if !o.dispatchOk {
          return Erred(Some(CAPTURED));
        }
        prisma.Dispatch(PaymentSucceeded, id, ByPass(pass));
        return WasCaptured;
      } else if providerStatus == FAILED {
        if !o.updateOk {
          return Erred(None);
        }
        prisma.UpdateStatus(id, FAILED);
        if !o.dispatchOk {
          return Erred(Some(FAILED));
        }
        prisma.Dispatch(PaymentFailed, id, ByPass(pass));
        return WasFailed;
      }
      return WasUnchanged;
    }

    /** The loop over the snapshot, with its counters. */
    method HandleRows(order: seq<Id>, oracle: seq<RowOracle>, pass: Id) returns (summary: Summary)
      requires |oracle| == |order| && forall id :: id in order ==> id in prisma.intents
      modifies prisma
      ensures forall k :: 0 <= k < |order| ==> order[k] in old(prisma.intents)
      ensures prisma.View() == AfterRows(old(prisma.View()), order, Dispositions(old(prisma.View()), order, oracle), pass)
      ensures summary == Tally(order, Dispositions(old(prisma.View()), order, oracle))
    {
      ghost var before := prisma.View();
      ghost var ds := Dispositions(before, order, oracle);
      var staleIntents := prisma.intents;
      var captured, failed, untouched, errors := 0, 0, 0, [];
      for k := 0 to |order|
        invariant prisma.View() == AfterRows(before, order[..k], ds[..k], pass)
        invariant Summary(k, captured, failed, untouched, errors) == Tally(order[..k], ds[..k])
      {
        assert order[k] in order;
        assert order[..k + 1][..k] == order[..k] && ds[..k + 1][..k] == ds[..k];
        var d := HandleRow(order[k], staleIntents[order[k]], oracle[k], pass);
        match d {
          case WasCaptured => captured := captured + 1;
          case WasFailed => failed := failed + 1;
          case WasAbandoned => failed := failed + 1;
          case WasUnchanged => untouched := untouched + 1;
          case Erred(_) => errors := errors + [order[k]];
        }
      }
      assert order[..|order|] == order && ds[..|order|] == ds;
      return Summary(|order|, captured, failed, untouched, errors);
    }

    /** `order` is the database's answer to the query for stale rows. */
    method ReconcileStaleIntents(cutoff: int, order: seq<Id>, oracle: seq<RowOracle>, pass: Id) returns (summary: Summary)
      requires IsSnapshot(prisma.View(), cutoff, order) && |oracle| == |order|
      modifies prisma
      ensures prisma.View() == AfterRows(old(prisma.View()), order, Dispositions(old(prisma.View()), order, oracle), pass)
      ensures summary == Tally(order, Dispositions(old(prisma.View()), order, oracle))
      // It scans the PENDING intents created at or before the cutoff, and leaves all others alone.
      ensures summary.scanned == |set i | i in old(prisma.intents) && old(prisma.intents)[i].status == PENDING && old(prisma.intents)[i].createdAt <= cutoff|
      ensures prisma.intents.Keys == old(prisma.intents).Keys
      ensures forall i :: i in old(prisma.intents) && (old(prisma.intents)[i].status != PENDING || old(prisma.intents)[i].createdAt > cutoff) ==>
                prisma.intents[i] == old(prisma.intents)[i]
      ensures prisma.refunds == old(prisma.refunds) && prisma.events == old(prisma.events)
    {
      ghost var before := prisma.View();
      ghost var ds := Dispositions(before, order, oracle);
      summary := HandleRows(order, oracle, pass);
      ScanMeaning(before, cutoff, order, ds, pass);
    }
  }

  // ----- Accounting ----------------------------------------------------------------

  function Abandoned(ds: seq<Disposition>): nat {
    if ds == [] then 0 else Abandoned(ds[..|ds| - 1]) + if ds[|ds| - 1].WasAbandoned? then 1 else 0
  }

  function EventsOf(outbox: seq<Outbound>, kind: EventKind, pass: Id): nat {
    if outbox == [] then 0
    else
      var last := outbox[|outbox| - 1];
      EventsOf(outbox[..|outbox| - 1], kind, pass) + if last.kind == kind && last.cause == ByPass(pass) then 1 else 0
  }

  lemma {:induction false} EventPositions(outbox: seq<Outbound>, kind: EventKind, pass: Id, p: Outbound -> bool)
    requires forall x :: p(x) <==> x.kind == kind && x.cause == ByPass(pass)
    ensures EventsOf(outbox, kind, pass) == |Positions(outbox, p)|
  {
    if outbox != [] {
      EventPositions(outbox[..|outbox| - 1], kind, pass, p);
      CountLast(outbox, p);
    }
  }

  /** The pass's events of a kind are its queue entries of that kind. */
  lemma EventsMeaning(outbox: seq<Outbound>, kind: EventKind, pass: Id)
    ensures EventsOf(outbox, kind, pass) == |set k | 0 <= k < |outbox| && outbox[k].kind == kind && outbox[k].cause == ByPass(pass)|
  {
    var p := (x: Outbound) => x.kind == kind && x.cause == ByPass(pass);
    EventPositions(outbox, kind, pass, p);
    assert Positions(outbox, p) == set k | 0 <= k < |outbox| && outbox[k].kind == kind && outbox[k].cause == ByPass(pass);
  }

  lemma EventsAppend(outbox: seq<Outbound>, entry: Outbound, kind: EventKind, pass: Id)
    ensures EventsOf(outbox + [entry], kind, pass)
            == EventsOf(outbox, kind, pass) + if entry.kind == kind && entry.cause == ByPass(pass) then 1 else 0
  {
  }

  /** What one row adds to the queue. */
  lemma RowEvents(db: Db, id: Id, d: Disposition, pass: Id)
    requires id in db.intents
    ensures var after := AfterRow(db, id, d, pass);
            && EventsOf(after.outbox, PaymentSucceeded, pass) == EventsOf(db.outbox, PaymentSucceeded, pass) + (if d.WasCaptured? then 1 else 0)
            && EventsOf(after.outbox, PaymentFailed, pass) == EventsOf(db.outbox, PaymentFailed, pass) + (if d.WasFailed? then 1 else 0)
            && after.refunds == db.refunds && after.events == db.events && db.outbox <= after.outbox
  {
    var kind := Announcement(d);
    if kind.Some? {
      EventsAppend(db.outbox, Outbound(kind.value, id, ByPass(pass)), PaymentSucceeded, pass);
      EventsAppend(db.outbox, Outbound(kind.value, id, ByPass(pass)), PaymentFailed, pass);
    }
  }

  lemma {:induction false} EveryRowCountedOnce(order: seq<Id>, ds: seq<Disposition>)
    requires |order| == |ds|
    ensures var t := Tally(order, ds);
            t.captured + t.failed + t.untouched + |t.errors| == t.scanned == |order|
  {
    if order != [] {
      EveryRowCountedOnce(order[..|order| - 1], ds[..|order| - 1]);
    }
  }

  lemma {:induction false} CapturedPositions(order: seq<Id>, ds: seq<Disposition>, p: Disposition -> bool)
    requires |order| == |ds| && forall d :: p(d) <==> d.WasCaptured?
    ensures Tally(order, ds).captured == |Positions(ds, p)|
  {
    if ds != [] {
      CapturedPositions(order[..|ds| - 1], ds[..|ds| - 1], p);
      CountLast(ds, p);
    }
  }

  lemma {:induction false} FailedPositions(order: seq<Id>, ds: seq<Disposition>, p: Disposition -> bool)
    requires |order| == |ds| && forall d :: p(d) <==> d.WasFailed? || d.WasAbandoned?
    ensures Tally(order, ds).failed == |Positions(ds, p)|
  {
    if ds != [] {
      FailedPositions(order[..|ds| - 1], ds[..|ds| - 1], p);
      CountLast(ds, p);
    }
  }

  lemma {:induction false} UntouchedPositions(order: seq<Id>, ds: seq<Disposition>, p: Disposition -> bool)
    requires |order| == |ds| && forall d :: p(d) <==> d.WasUnchanged?
    ensures Tally(order, ds).untouched == |Positions(ds, p)|
  {
    if ds != [] {
      UntouchedPositions(order[..|ds| - 1], ds[..|ds| - 1], p);
      CountLast(ds, p);
    }
  }

  lemma {:induction false} AbandonedPositions(order: seq<Id>, ds: seq<Disposition>, p: Disposition -> bool)
    requires |order| == |ds| && forall d :: p(d) <==> d.WasAbandoned?
    ensures Abandoned(ds) == |Positions(ds, p)|
  {
    if ds != [] {
      AbandonedPositions(order[..|ds| - 1], ds[..|ds| - 1], p);
      CountLast(ds, p);
    }
  }

  /** The counters are the numbers of rows with each outcome; the errors name the rows that erred. */
  lemma CountersMeaning(order: seq<Id>, ds: seq<Disposition>)
    requires |order| == |ds|
    ensures Tally(order, ds).captured == |set k | 0 <= k < |ds| && ds[k].WasCaptured?|
    ensures Tally(order, ds).failed == |set k | 0 <= k < |ds| && (ds[k].WasFailed? || ds[k].WasAbandoned?)|
    ensures Tally(order, ds).untouched == |set k | 0 <= k < |ds| && ds[k].WasUnchanged?|
    ensures Abandoned(ds) == |set k | 0 <= k < |ds| && ds[k].WasAbandoned?|
    ensures forall i :: i in Tally(order, ds).errors <==> exists k :: 0 <= k < |ds| && ds[k].Erred? && order[k] == i
  {
    var captured, failed := (d: Disposition) => d.WasCaptured?, (d: Disposition) => d.WasFailed? || d.WasAbandoned?;
    var untouched, abandoned := (d: Disposition) => d.WasUnchanged?, (d: Disposition) => d.WasAbandoned?;
    CapturedPositions(order, ds, captured);
    FailedPositions(order, ds, failed);
    UntouchedPositions(order, ds, untouched);
    AbandonedPositions(order, ds, abandoned);
    assert Positions(ds, captured) == set k | 0 <= k < |ds| && ds[k].WasCaptured?;
    assert Positions(ds, failed) == set k | 0 <= k < |ds| && (ds[k].WasFailed? || ds[k].WasAbandoned?);
    assert Positions(ds, untouched) == set k | 0 <= k < |ds| && ds[k].WasUnchanged?;
    assert Positions(ds, abandoned) == set k | 0 <= k < |ds| && ds[k].WasAbandoned?;
    ErrorsMeaning(order, ds);
  }

  lemma {:induction false} ErrorsMeaning(order: seq<Id>, ds: seq<Disposition>)
    requires |order| == |ds|
    ensures forall i :: i in Tally(order, ds).errors <==> exists k :: 0 <= k < |ds| && ds[k].Erred? && order[k] == i
  {
    if order != [] {
      var n := |ds| - 1;
      ErrorsMeaning(order[..n], ds[..n]);
      forall i ensures i in Tally(order, ds).errors <==> exists k :: 0 <= k < |ds| && ds[k].Erred? && order[k] == i {
        if k :| 0 <= k < n && ds[k].Erred? && order[k] == i {
          assert ds[..n][k].Erred? && order[..n][k] == i;
        }
      }
    }
  }

  lemma {:induction false} PassLeavesRest(db: Db, order: seq<Id>, ds: seq<Disposition>, pass: Id)
    requires |order| == |ds| && forall k :: 0 <= k < |order| ==> order[k] in db.intents
    ensures var after := AfterRows(db, order, ds, pass);
            after.refunds == db.refunds && after.events == db.events && db.outbox <= after.outbox
  {
    if order != [] {
      var n := |order| - 1;
      PassLeavesRest(db, order[..n], ds[..n], pass);
    }
  }

  lemma {:induction false} PassEvents(db: Db, order: seq<Id>, ds: seq<Disposition>, pass: Id)
    requires |order| == |ds| && forall k :: 0 <= k < |order| ==> order[k] in db.intents
    ensures var t, after := Tally(order, ds), AfterRows(db, order, ds, pass);
            && EventsOf(after.outbox, PaymentSucceeded, pass) == EventsOf(db.outbox, PaymentSucceeded, pass) + t.captured
            && EventsOf(after.outbox, PaymentFailed, pass) == EventsOf(db.outbox, PaymentFailed, pass) + t.failed - Abandoned(ds)
  {
    if order != [] {
      var n := |order| - 1;
      PassEvents(db, order[..n], ds[..n], pass);
      var mid := AfterRows(db, order[..n], ds[..n], pass);
      RowEvents(mid, order[n], ds[n], pass);
      assert AfterRows(db, order, ds, pass) == AfterRow(mid, order[n], ds[n], pass);
      assert Tally(order, ds).captured == Tally(order[..n], ds[..n]).captured + if ds[n].WasCaptured? then 1 else 0;
      assert Tally(order, ds).failed == Tally(order[..n], ds[..n]).failed + if ds[n].WasFailed? || ds[n].WasAbandoned? then 1 else 0;
    }
  }

  /** Every scanned row is counted exactly once; the pass's payment.succeeded events are its captured
      rows, its payment.failed events its failed rows less the abandoned ones; refunds, ledger and
      earlier events are untouched. */
  lemma PassAccounting(db: Db, order: seq<Id>, ds: seq<Disposition>, pass: Id)
    requires |order| == |ds| && forall k :: 0 <= k < |order| ==> order[k] in db.intents
    ensures var t, after := Tally(order, ds), AfterRows(db, order, ds, pass);
            && t.captured + t.failed + t.untouched + |t.errors| == t.scanned == |order|
            && EventsOf(after.outbox, PaymentSucceeded, pass) == EventsOf(db.outbox, PaymentSucceeded, pass) + t.captured
            && EventsOf(after.outbox, PaymentFailed, pass) == EventsOf(db.outbox, PaymentFailed, pass) + t.failed - Abandoned(ds)
            && after.refunds == db.refunds && after.events == db.events && db.outbox <= after.outbox
  {
    EveryRowCountedOnce(order, ds);
    PassLeavesRest(db, order, ds, pass);
    PassEvents(db, order, ds, pass);
  }

  /** The status a row ends with. */
  function Finished(row: Intent, d: Disposition): Intent {
    if WrittenStatus(d).Some? then row.(status := WrittenStatus(d).value) else row
  }

  lemma LastRow(db: Db, order: seq<Id>, ds: seq<Disposition>, pass: Id)
    requires |order| == |ds| && order != [] && forall k :: 0 <= k < |order| ==> order[k] in db.intents
    ensures var n := |order| - 1;
            var mid := AfterRows(db, order[..n], ds[..n], pass);
            AfterRows(db, order, ds, pass).intents == mid.intents[order[n] := Finished(mid.intents[order[n]], ds[n])]
  {
  }

  /** Each row of the snapshot gets exactly the status its own handling wrote; no other row moves. */
  lemma {:induction false} RowsHandledOnce(db: Db, order: seq<Id>, ds: seq<Disposition>, pass: Id)
    requires Distinct(order) && |order| == |ds| && forall k :: 0 <= k < |order| ==> order[k] in db.intents
    ensures var after := AfterRows(db, order, ds, pass);
            && (forall k :: 0 <= k < |order| ==> after.intents[order[k]] == Finished(db.intents[order[k]], ds[k]))
            && (forall i :: i in db.intents && i !in order ==> after.intents[i] == db.intents[i])
  {
    if order != [] {
      var n := |order| - 1;
      RowsHandledOnce(db, order[..n], ds[..n], pass);
      LastRow(db, order, ds, pass);
      assert order == order[..n] + [order[n]];
      assert order[n] !in order[..n];
      forall k | 0 <= k < n ensures AfterRows(db, order, ds, pass).intents[order[k]] == Finished(db.intents[order[k]], ds[k]) {
        assert order[..n][k] == order[k] && ds[..n][k] == ds[k];
      }
    }
  }

  // ----- Convergence ---------------------------------------------------------------

  /** The rows a pass would scan. */
  ghost function Backlog(db: Db, cutoff: int): set<Id> {
    set i | i in db.intents && Stale(db.intents[i], cutoff)
  }

  /** A later cutoff only adds to it. */
  lemma BacklogGrowsWithCutoff(db: Db, earlier: int, later: int)
    requires earlier <= later
    ensures Backlog(db, earlier) <= Backlog(db, later)
    ensures forall i :: i in Backlog(db, later) - Backlog(db, earlier) <==>
              i in db.intents && db.intents[i].status == PENDING && earlier < db.intents[i].createdAt <= later
  {
  }

  /** What a pass over a snapshot takes and what it leaves, in terms of status and age. */
  lemma ScanMeaning(db: Db, cutoff: int, order: seq<Id>, ds: seq<Disposition>, pass: Id)
    requires IsSnapshot(db, cutoff, order) && |ds| == |order|
    requires forall k :: 0 <= k < |order| ==> order[k] in db.intents
    ensures |order| == |set i | i in db.intents && db.intents[i].status == PENDING && db.intents[i].createdAt <= cutoff|
    ensures var after := AfterRows(db, order, ds, pass);
            && after.refunds == db.refunds && after.events == db.events
            && forall i :: i in db.intents && (db.intents[i].status != PENDING || db.intents[i].createdAt > cutoff) ==>
                 after.intents[i] == db.intents[i]
  {
    DistinctCount(order, set i | i in db.intents && db.intents[i].status == PENDING && db.intents[i].createdAt <= cutoff);
    RowsHandledOnce(db, order, ds, pass);
    PassLeavesRest(db, order, ds, pass);
  }

  /** What remains stale after a pass: the rows whose handling wrote nothing. */
  lemma BacklogAfterPass(db: Db, cutoff: int, order: seq<Id>, ds: seq<Disposition>, pass: Id)
    requires IsSnapshot(db, cutoff, order) && |ds| == |order|
    requires forall k :: 0 <= k < |order| ==> order[k] in db.intents
    ensures forall i :: i in Backlog(AfterRows(db, order, ds, pass), cutoff) <==>
              exists k :: 0 <= k < |order| && order[k] == i && WrittenStatus(ds[k]).None?
  {
    RowsHandledOnce(db, order, ds, pass);
    var after := AfterRows(db, order, ds, pass);
    forall i ensures i in Backlog(after, cutoff) <==> exists k :: 0 <= k < |order| && order[k] == i && WrittenStatus(ds[k]).None? {
      if i in order {
        var k :| 0 <= k < |order| && order[k] == i;
        assert Stale(db.intents[i], cutoff);
        assert forall j :: 0 <= j < |order| && order[j] == i ==> j == k;
      } else if i in db.intents {
        assert after.intents[i] == db.intents[i];
      }
    }
  }

  function UnchangedRows(order: seq<Id>, ds: seq<Disposition>): seq<Id>
    requires |order| == |ds|
  {
    if order == [] then []
    else
      var n := |order| - 1;
      UnchangedRows(order[..n], ds[..n]) + if ds[n].WasUnchanged? then [order[n]] else []
  }

  /** Row i was scanned and left unchanged. */
  ghost predicate LeftUnchanged(order: seq<Id>, ds: seq<Disposition>, i: Id)
    requires |order| == |ds|
  {
    exists k :: 0 <= k < |order| && order[k] == i && ds[k].WasUnchanged?
  }

  lemma LeftUnchangedAppend(order: seq<Id>, ds: seq<Disposition>, i: Id)
    requires |order| == |ds| && order != []
    ensures var n := |order| - 1;
            LeftUnchanged(order, ds, i) <==> LeftUnchanged(order[..n], ds[..n], i) || (order[n] == i && ds[n].WasUnchanged?)
  {
  }

  lemma {:induction false} UnchangedRowsMeaning(order: seq<Id>, ds: seq<Disposition>)
    requires |order| == |ds| && Distinct(order)
    ensures |UnchangedRows(order, ds)| == Tally(order, ds).untouched
    ensures Distinct(UnchangedRows(order, ds))
    ensures forall i :: i in UnchangedRows(order, ds) <==> LeftUnchanged(order, ds, i)
  {
    if order != [] {
      var n := |order| - 1;
      var front := UnchangedRows(order[..n], ds[..n]);
      UnchangedRowsMeaning(order[..n], ds[..n]);
      forall i ensures i in UnchangedRows(order, ds) <==> LeftUnchanged(order, ds, i) {
        LeftUnchangedAppend(order, ds, i);
      }
      forall i | i in front ensures i != order[n] {
        assert LeftUnchanged(order[..n], ds[..n], i);
        var k :| 0 <= k < n && order[..n][k] == i;
        assert order[k] == i;
      }
      DistinctAppend(front, order[n]);
      assert UnchangedRows(order, ds) == if ds[n].WasUnchanged? then front + [order[n]] else front;
    }
  }

  /** After a pass without errors, a second pass with the same cutoff scans exactly the rows the
      first one counted as unchanged. */
  lemma SecondPassScansUnchanged(db: Db, cutoff: int, order: seq<Id>, ds: seq<Disposition>, pass: Id, order2: seq<Id>)
    requires IsSnapshot(db, cutoff, order) && |ds| == |order|
    requires forall k :: 0 <= k < |order| ==> order[k] in db.intents
    requires Tally(order, ds).errors == []
    requires IsSnapshot(AfterRows(db, order, ds, pass), cutoff, order2)
    ensures |order2| == Tally(order, ds).untouched
    ensures forall i :: i in order2 <==> LeftUnchanged(order, ds, i)
  {
    NoErrorsNoErred(order, ds);
    BacklogAfterPass(db, cutoff, order, ds, pass);
    UnchangedRowsMeaning(order, ds);
    var after := AfterRows(db, order, ds, pass);
    forall i ensures i in order2 <==> i in UnchangedRows(order, ds) {
      assert i in order2 <==> i in Backlog(after, cutoff);
    }
    var backlog := Backlog(after, cutoff);
    DistinctCount(order2, backlog);
    DistinctCount(UnchangedRows(order, ds), backlog);
  }

  lemma {:induction false} NoErrorsNoErred(order: seq<Id>, ds: seq<Disposition>)
    requires |order| == |ds| && Tally(order, ds).errors == []
    ensures forall k :: 0 <= k < |ds| ==> !ds[k].Erred?
  {
    if order != [] {
      NoErrorsNoErred(order[..|order| - 1], ds[..|order| - 1]);
      forall k | 0 <= k < |ds| - 1 ensures !ds[k].Erred? {
        assert ds[k] == ds[..|ds| - 1][k];
      }
    }
  }

  /** Two consecutive passes: the second leaves a subset of the first one's backlog, whatever happened. */
  lemma BacklogShrinks(db: Db, cutoff: int, order: seq<Id>, ds: seq<Disposition>, pass: Id, anyCutoff: int)
    requires IsSnapshot(db, cutoff, order) && |ds| == |order|
    requires forall k :: 0 <= k < |order| ==> order[k] in db.intents
    ensures Backlog(AfterRows(db, order, ds, pass), anyCutoff) <= Backlog(db, anyCutoff)
  {
    RowsHandledOnce(db, order, ds, pass);
    forall i | i in Backlog(AfterRows(db, order, ds, pass), anyCutoff) ensures i in Backlog(db, anyCutoff) {
      if i in order {
        var k :| 0 <= k < |order| && order[k] == i;
      }
    }
  }
}
