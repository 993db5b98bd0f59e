/** Across modules: in every reachable state, for every filter and currency, analytics never shows
    more money refunded than collected. */
module RefundsWithinVolume {
  import opened Prelude
  import opened Tables
  import opened Refunds
  import opened Analytics
  import opened AnalyticsFacts
  import L = LedgerProtocol
  import opened RefundSafety
  import opened RefundBacking

  /** The where clause of getOverview; an empty merchant id is falsy. */
  datatype Query = Query(merchantId: Option<Id>, createdFrom: Option<int>, createdTo: Option<int>, gateway: Option<Gateway>)

  predicate Matches(q: Query, row: Intent) {
    && (q.merchantId.Some? && q.merchantId.value != "" ==> row.merchantId == q.merchantId.value)
    && (q.createdFrom.Some? ==> row.createdAt >= q.createdFrom.value)
    && (q.createdTo.Some? ==> row.createdAt <= q.createdTo.value)
    && At(q.gateway, row)
  }

  /** findMany returns the matching intents in some order, each once. */
  ghost predicate IsListing(db: Db, q: Query, ids: seq<Id>) {
    Distinct(ids) && forall id :: id in ids <==> id in db.intents && Matches(q, db.intents[id])
  }

  /** include: { refunds: true } */
  function RefundsOf(refunds: seq<Refund>, id: Id): seq<Refund> {
    if refunds == [] then []
    else
      var last := refunds[|refunds| - 1];
      RefundsOf(refunds[..|refunds| - 1], id) + if last.intent == id then [last] else []
  }

  /** Exactly the rows the filter asks for: the merchant unless none or empty, both dates inclusive, the gateway. */
  lemma ListedExactly(db: Db, q: Query, ids: seq<Id>, id: Id)
    requires IsListing(db, q, ids)
    ensures id in ids <==>
            && id in db.intents
            && (q.merchantId.None? || q.merchantId.value == "" || q.merchantId.value == db.intents[id].merchantId)
            && (q.createdFrom.None? || q.createdFrom.value <= db.intents[id].createdAt)
            && (q.createdTo.None? || db.intents[id].createdAt <= q.createdTo.value)
            && (q.gateway.None? || q.gateway.value == db.intents[id].gateway)
  {
  }

  /** Exactly the refunds of the intent. */
  lemma {:induction false} IncludedRefundsMeaning(refunds: seq<Refund>, id: Id, r: Refund)
    ensures multiset(RefundsOf(refunds, id))[r] == if r.intent == id then multiset(refunds)[r] else 0
  {
    if refunds != [] {
      var n := |refunds| - 1;
      IncludedRefundsMeaning(refunds[..n], id, r);
      assert refunds == refunds[..n] + [refunds[n]];
    }
  }

  function Listing(db: Db, ids: seq<Id>): seq<Listed>
    requires forall k :: 0 <= k < |ids| ==> ids[k] in db.intents
  {
    seq(|ids|, k requires 0 <= k < |ids| => Listed(db.intents[ids[k]], RefundsOf(db.refunds, ids[k])))
  }

  lemma {:induction false} IncludedRefundsSum(refunds: seq<Refund>, id: Id)
    ensures SucceededCents(RefundsOf(refunds, id)) == Refunded(refunds, id)
  {
    if refunds != [] {
      var front, last := refunds[..|refunds| - 1], refunds[|refunds| - 1];
      IncludedRefundsSum(front, id);
      RefundedFront(refunds, id);
      var kept := RefundsOf(front, id);
      if last.intent == id {
        assert (kept + [last])[..|kept|] == kept;
      } else {
        assert kept + [] == kept;
      }
    }
  }

  /** Row by row: refunds only on collected intents, and never more than the amount. */
  lemma {:induction false} ListingWithin(db: Db, ids: seq<Id>, currency: string)
    requires LedgerSettled(db) && Backed(db)
    requires forall k :: 0 <= k < |ids| ==> ids[k] in db.intents
    ensures RefundVolume(Listing(db, ids), currency) <= Volume(Listing(db, ids), None, currency)
  {
    if ids != [] {
      var n := |ids| - 1;
      ListingWithin(db, ids[..n], currency);
      assert Listing(db, ids)[..n] == Listing(db, ids[..n]);
      IncludedRefundsSum(db.refunds, ids[n]);
      assert Settled(db.intents[ids[n]], Refunded(db.refunds, ids[n]));
    }
  }

  /** The bound on the rounded figures, in every state of every run that meets the ledger hypotheses. */
  lemma RefundedNeverExceedsVolume(trace: seq<L.State>, actions: seq<L.Action>, k: nat, q: Query, ids: seq<Id>, o: Overview, currency: string)
    requires L.IsRun(trace, actions) && k < |trace|
    requires forall j :: 0 <= j < |actions| ==> RefundsTakeTurns(trace[j], actions[j]) && PassesSpareCollected(trace[j], actions[j])
    requires IsListing(trace[k].db, q, ids)
    requires forall j :: 0 <= j < |ids| ==> ids[j] in trace[k].db.intents
    requires VolumesReported(o, Listing(trace[k].db, ids))
    ensures RefundTotal(o, currency) <= CurrencyTotal(o, currency)
  {
    RefundLedgerSafety(trace, actions);
    RefundsBackedByPayments(trace, actions);
    assert Safe(trace[k]) && AllBacked(trace[k]);
    ListingWithin(trace[k].db, ids, currency);
    FiguresExact(o, Listing(trace[k].db, ids), currency);
  }
}
