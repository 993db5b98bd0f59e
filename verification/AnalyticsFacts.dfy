/** What the figures of every overview say about each other. */
module AnalyticsFacts {
  import opened Prelude
  import opened Money
  import opened Tables
  import opened Rates
  import opened Analytics

  // ----- The gateways partition the listing ----------------------------------------

  lemma {:induction false} StatusesPartition(rows: seq<Listed>, status: PaymentStatus)
    ensures WithStatusAt(rows, None, status)
            == WithStatusAt(rows, Some(STRIPE), status) + WithStatusAt(rows, Some(PAYMOB), status) + WithStatusAt(rows, Some(FAWRY), status)
  {
    if rows != [] {
      StatusesPartition(rows[..|rows| - 1], status);
    }
  }

  lemma CompletedPartition(rows: seq<Listed>)
    ensures Successes(rows, None) == Successes(rows, Some(STRIPE)) + Successes(rows, Some(PAYMOB)) + Successes(rows, Some(FAWRY))
    ensures Completed(rows, None) == Completed(rows, Some(STRIPE)) + Completed(rows, Some(PAYMOB)) + Completed(rows, Some(FAWRY))
  {
    StatusesPartition(rows, CAPTURED);
    StatusesPartition(rows, REFUNDED);
    StatusesPartition(rows, FAILED);
  }

  lemma {:induction false} VolumePartition(rows: seq<Listed>, currency: string)
    ensures Volume(rows, None, currency)
            == Volume(rows, Some(STRIPE), currency) + Volume(rows, Some(PAYMOB), currency) + Volume(rows, Some(FAWRY), currency)
  {
    if rows != [] {
      VolumePartition(rows[..|rows| - 1], currency);
    }
  }

  /** A gateway's figure for a currency; an absent entry means nothing was collected. */
  function GatewayVolume(o: Overview, g: Gateway, currency: string): real {
    if g in o.gatewayBreakdown && currency in o.gatewayBreakdown[g].totalVolume
    then o.gatewayBreakdown[g].totalVolume[currency] else 0.0
  }

  function CurrencyTotal(o: Overview, currency: string): real {
    if currency in o.volumeByCurrency then o.volumeByCurrency[currency].totalAmount else 0.0
  }

  function RefundTotal(o: Overview, currency: string): real {
    if currency in o.totalRefundAmount then o.totalRefundAmount[currency] else 0.0
  }

  /** The rounded figures are the exact sums, absent entries included. */
  lemma FiguresExact(o: Overview, rows: seq<Listed>, currency: string)
    requires VolumesReported(o, rows)
    ensures CurrencyTotal(o, currency) == Amount(Volume(rows, None, currency))
    ensures forall g :: GatewayVolume(o, g, currency) == Amount(Volume(rows, Some(g), currency))
    ensures RefundTotal(o, currency) == Amount(RefundVolume(rows, currency))
  {
    EmptyVolume(rows, None, currency);
    NoRefundsNoVolume(rows, currency);
    forall g ensures GatewayVolume(o, g, currency) == Amount(Volume(rows, Some(g), currency)) {
      EmptyVolume(rows, Some(g), currency);
      assert GatewayVolumesExact(o.gatewayBreakdown[g].totalVolume, rows, g);
    }
  }

  /** Consistency of one overview: the three gateways' volumes add up to the currency's, the status
      counts to the total, and success, failure and pending counts too. */
  lemma OverviewAddsUp(o: Overview, rows: seq<Listed>, currency: string)
    requires CountsReported(o, rows) && VolumesReported(o, rows)
    ensures GatewayVolume(o, STRIPE, currency) + GatewayVolume(o, PAYMOB, currency) + GatewayVolume(o, FAWRY, currency)
            == CurrencyTotal(o, currency)
    ensures o.successful + o.failed + o.pending == o.totalTransactions
    ensures forall status :: status in o.statusBreakdown
    ensures o.statusBreakdown[PENDING] + o.statusBreakdown[AUTHORIZED] + o.statusBreakdown[CAPTURED]
            + o.statusBreakdown[FAILED] + o.statusBreakdown[REFUNDED] == o.totalTransactions
  {
    FiguresExact(o, rows, currency);
    VolumePartition(rows, currency);
    StatusesAddUp(rows);
  }

  // ----- Rates ---------------------------------------------------------------------

  function CompletedAt(m: GatewayMetrics): nat {
    m.successful + m.failed
  }

  function NthGateway(k: nat): Gateway {
    if k == 0 then STRIPE else if k == 1 then PAYMOB else FAWRY
  }

  lemma SharesOf(o: Overview, rows: seq<Listed>) returns (s: seq<nat>, c: seq<nat>)
    requires CountsReported(o, rows) && RatesOf(o.gatewayBreakdown, rows)
    ensures |s| == |c| == 3 && s[0] <= c[0] && s[1] <= c[1] && s[2] <= c[2]
    ensures o.successful == s[0] + s[1] + s[2] && o.successful + o.failed == c[0] + c[1] + c[2]
    ensures forall k :: 0 <= k < 3 ==>
              var g := NthGateway(k);
              g in o.gatewayBreakdown && CompletedAt(o.gatewayBreakdown[g]) == c[k] && o.gatewayBreakdown[g].successRate == Rate(s[k], c[k])
  {
    CompletedPartition(rows);
    s := [Successes(rows, Some(STRIPE)), Successes(rows, Some(PAYMOB)), Successes(rows, Some(FAWRY))];
    c := [Completed(rows, Some(STRIPE)), Completed(rows, Some(PAYMOB)), Completed(rows, Some(FAWRY))];
    forall g ensures g in o.gatewayBreakdown && CountsExact(o.gatewayBreakdown[g], rows, g) && Rated(o.gatewayBreakdown[g], rows, g) {
    }
  }

  lemma BetweenShares(o: Overview, s: seq<nat>, c: seq<nat>)
    requires |s| == |c| == 3 && s[0] <= c[0] && s[1] <= c[1] && s[2] <= c[2] && c[0] + c[1] + c[2] > 0
    requires o.overallSuccessRate == Rate(s[0] + s[1] + s[2], c[0] + c[1] + c[2])
    requires forall k :: 0 <= k < 3 ==>
               var g := NthGateway(k);
               g in o.gatewayBreakdown && CompletedAt(o.gatewayBreakdown[g]) == c[k] && o.gatewayBreakdown[g].successRate == Rate(s[k], c[k])
    ensures exists g :: g in o.gatewayBreakdown && CompletedAt(o.gatewayBreakdown[g]) > 0 && o.gatewayBreakdown[g].successRate <= o.overallSuccessRate
    ensures exists h :: h in o.gatewayBreakdown && CompletedAt(o.gatewayBreakdown[h]) > 0 && o.overallSuccessRate <= o.gatewayBreakdown[h].successRate
  {
    var lo, hi := MediantBetween(s, c);
    var g, h := NthGateway(lo), NthGateway(hi);
    assert g in o.gatewayBreakdown && CompletedAt(o.gatewayBreakdown[g]) > 0 && o.gatewayBreakdown[g].successRate <= o.overallSuccessRate;
    assert h in o.gatewayBreakdown && CompletedAt(o.gatewayBreakdown[h]) > 0 && o.overallSuccessRate <= o.gatewayBreakdown[h].successRate;
  }

  /** The overall success rate lies between the smallest and the largest success rate of the
      gateways with completed payments, rounding included. */
  lemma OverallRateBetween(o: Overview, rows: seq<Listed>)
    requires CountsReported(o, rows) && RatesReported(o) && RatesOf(o.gatewayBreakdown, rows) && o.successful + o.failed > 0
    ensures exists g :: g in o.gatewayBreakdown && CompletedAt(o.gatewayBreakdown[g]) > 0 && o.gatewayBreakdown[g].successRate <= o.overallSuccessRate
    ensures exists h :: h in o.gatewayBreakdown && CompletedAt(o.gatewayBreakdown[h]) > 0 && o.overallSuccessRate <= o.gatewayBreakdown[h].successRate
  {
    var s, c := SharesOf(o, rows);
    BetweenShares(o, s, c);
  }

  /** For a gateway with completed payments the two rates add up to 100.00, or to 100.01 exactly when
      20000 * success / completed is an odd integer. */
  lemma GatewayRatesAddUp(m: GatewayMetrics, rows: seq<Listed>, g: Gateway)
    requires CountsExact(m, rows, g) && Rated(m, rows, g) && CompletedAt(m) > 0
    ensures m.successRate + m.failureRate == if BothRoundUp(m.successful, CompletedAt(m)) then 100.01 else 100.0
  {
    RatesAddUp(m.successful, m.failed);
  }

  /** The conversion rate never exceeds the success rate. */
  lemma ConversionBelowSuccess(o: Overview, rows: seq<Listed>)
    requires CountsReported(o, rows) && RatesReported(o)
    ensures o.overallConversionRate <= o.overallSuccessRate
  {
    StatusesAddUp(rows);
    ConversionAtMostSuccess(o.successful, o.successful + o.failed, o.totalTransactions);
  }

  // ----- Counts and sums, row by row -----------------------------------------------

  lemma {:induction false} SuccessPositions(rows: seq<Listed>, g: Gateway, p: Listed -> bool)
    requires forall x :: p(x) <==> x.row.gateway == g && (x.row.status == CAPTURED || x.row.status == REFUNDED)
    ensures Successes(rows, Some(g)) == |Positions(rows, p)|
  {
    if rows != [] {
      SuccessPositions(rows[..|rows| - 1], g, p);
      CountLast(rows, p);
    }
  }

  lemma {:induction false} PendingPositions(rows: seq<Listed>, g: Gateway, p: Listed -> bool)
    requires forall x :: p(x) <==> x.row.gateway == g && (x.row.status == PENDING || x.row.status == AUTHORIZED)
    ensures Pendings(rows, Some(g)) == |Positions(rows, p)|
  {
    if rows != [] {
      PendingPositions(rows[..|rows| - 1], g, p);
      CountLast(rows, p);
    }
  }

  /** A gateway's counters are numbers of its rows: CAPTURED and REFUNDED are successes, FAILED is a
      failure, PENDING and AUTHORIZED are pending. */
  lemma GatewayCountsRows(m: GatewayMetrics, rows: seq<Listed>, g: Gateway)
    requires CountsExact(m, rows, g)
    ensures m.successful == |set k | 0 <= k < |rows| && rows[k].row.gateway == g && (rows[k].row.status == CAPTURED || rows[k].row.status == REFUNDED)|
    ensures m.failed == |set k | 0 <= k < |rows| && rows[k].row.gateway == g && rows[k].row.status == FAILED|
    ensures m.pending == |set k | 0 <= k < |rows| && rows[k].row.gateway == g && (rows[k].row.status == PENDING || rows[k].row.status == AUTHORIZED)|
    ensures m.totalTransactions == m.successful + m.failed + m.pending
  {
    var success := (x: Listed) => x.row.gateway == g && (x.row.status == CAPTURED || x.row.status == REFUNDED);
    var pending := (x: Listed) => x.row.gateway == g && (x.row.status == PENDING || x.row.status == AUTHORIZED);
    SuccessPositions(rows, g, success);
    PendingPositions(rows, g, pending);
    StatusCountAt(rows, g, FAILED);
    assert Positions(rows, success)
        == set k | 0 <= k < |rows| && rows[k].row.gateway == g && (rows[k].row.status == CAPTURED || rows[k].row.status == REFUNDED);
    assert Positions(rows, pending)
        == set k | 0 <= k < |rows| && rows[k].row.gateway == g && (rows[k].row.status == PENDING || rows[k].row.status == AUTHORIZED);
  }

  /** The overall counters are the sums of the gateways'. */
  lemma OverallCountsAddUp(o: Overview, rows: seq<Listed>)
    requires CountsReported(o, rows)
    ensures forall g :: g in o.gatewayBreakdown
    ensures o.successful == o.gatewayBreakdown[STRIPE].successful + o.gatewayBreakdown[PAYMOB].successful + o.gatewayBreakdown[FAWRY].successful
    ensures o.failed == o.gatewayBreakdown[STRIPE].failed + o.gatewayBreakdown[PAYMOB].failed + o.gatewayBreakdown[FAWRY].failed
    ensures o.pending == o.gatewayBreakdown[STRIPE].pending + o.gatewayBreakdown[PAYMOB].pending + o.gatewayBreakdown[FAWRY].pending
  {
    CompletedPartition(rows);
    StatusesPartition(rows, PENDING);
    StatusesPartition(rows, AUTHORIZED);
    assert forall g :: g in o.gatewayBreakdown && CountsExact(o.gatewayBreakdown[g], rows, g);
  }

  /** What one more row adds to the sums: its amount if collected, its SUCCEEDED refunds in any case. */
  lemma SumsByRow(rows: seq<Listed>, x: Listed, g: Gateway, currency: string)
    ensures Volume([], None, currency) == Volume([], Some(g), currency) == RefundVolume([], currency) == 0
    ensures var collected := if x.row.currency == currency && (x.row.status == CAPTURED || x.row.status == REFUNDED) then x.row.amount else 0;
            && Volume(rows + [x], None, currency) == Volume(rows, None, currency) + collected
            && Volume(rows + [x], Some(g), currency) == Volume(rows, Some(g), currency) + if x.row.gateway == g then collected else 0
    ensures RefundVolume(rows + [x], currency) == RefundVolume(rows, currency) + if x.row.currency == currency then SucceededCents(x.refunds) else 0
    ensures RefundCount([], None) == 0 && RefundCount(rows + [x], None) == RefundCount(rows, None) + SucceededCount(x.refunds)
  {
    Appended(rows, x);
  }

  lemma SucceededByRefund(refunds: seq<Refund>, r: Refund)
    ensures SucceededCents([]) == 0 && SucceededCents(refunds + [r]) == SucceededCents(refunds) + if r.status == RefundSucceeded then r.amount else 0
    ensures SucceededCount([]) == 0 && SucceededCount(refunds + [r]) == SucceededCount(refunds) + if r.status == RefundSucceeded then 1 else 0
  {
    assert (refunds + [r])[..|refunds|] == refunds;
  }

  /** Adding up the transaction counts of currencies. */
  function CountSum(m: map<string, CurrencyVolume>, currencies: seq<string>): nat {
    if currencies == [] then 0
    else
      var last := currencies[|currencies| - 1];
      CountSum(m, currencies[..|currencies| - 1]) + if last in m then m[last].count else 0
  }

  function RowSum(rows: seq<Listed>, currencies: seq<string>): nat {
    if currencies == [] then 0
    else RowSum(rows, currencies[..|currencies| - 1]) + RowsIn(rows, None, currencies[|currencies| - 1], false)
  }

  lemma {:induction false} RowHasOneCurrency(rows: seq<Listed>, x: Listed, currencies: seq<string>)
    requires Distinct(currencies)
    ensures RowSum(rows + [x], currencies) == RowSum(rows, currencies) + if x.row.currency in currencies then 1 else 0
  {
    if currencies != [] {
      var n := |currencies| - 1;
      RowHasOneCurrency(rows, x, currencies[..n]);
      Appended(rows, x);
      assert currencies == currencies[..n] + [currencies[n]];
      assert currencies[n] !in currencies[..n];
    }
  }

  lemma {:induction false} NoRowsNoSum(currencies: seq<string>)
    ensures RowSum([], currencies) == 0
  {
    if currencies != [] {
      NoRowsNoSum(currencies[..|currencies| - 1]);
    }
  }

  lemma {:induction false} RowsBySumOfCurrencies(rows: seq<Listed>, currencies: seq<string>)
    requires Distinct(currencies) && forall k :: 0 <= k < |rows| ==> rows[k].row.currency in currencies
    ensures RowSum(rows, currencies) == |rows|
  {
    if rows == [] {
      NoRowsNoSum(currencies);
    } else {
      var n := |rows| - 1;
      RowsBySumOfCurrencies(rows[..n], currencies);
      RowHasOneCurrency(rows[..n], rows[n], currencies);
      assert rows == rows[..n] + [rows[n]];
    }
  }

  lemma {:induction false} CountsAreRowSums(m: map<string, CurrencyVolume>, rows: seq<Listed>, currencies: seq<string>)
    requires VolumesExact(m, rows)
    ensures CountSum(m, currencies) == RowSum(rows, currencies)
  {
    if currencies != [] {
      CountsAreRowSums(m, rows, currencies[..|currencies| - 1]);
    }
  }

  /** The transaction counts of all listed currencies add up to the total. */
  lemma CurrencyCountsAddUp(o: Overview, rows: seq<Listed>, currencies: seq<string>)
    requires CountsReported(o, rows) && VolumesReported(o, rows)
    requires Distinct(currencies) && forall c :: c in currencies <==> c in o.volumeByCurrency
    ensures CountSum(o.volumeByCurrency, currencies) == o.totalTransactions
  {
    CountsAreRows(o, rows);
    RowsBySumOfCurrencies(rows, currencies);
    CountsAreRowSums(o.volumeByCurrency, rows, currencies);
  }
}
