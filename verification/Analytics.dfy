/** src/analytics/analytics.service.ts: the accumulating loops of getOverview against exact sums,
    and what the figures of one overview say about each other. */
module Analytics {
  import opened Prelude
  import opened Money
  import opened Tables
  import opened Rates

  /** An intent with its refunds, as findMany({ include: { refunds: true } }) returns it. */
  datatype Listed = Listed(row: Intent, refunds: seq<Refund>)

  // ----- Exact sums over a listing -------------------------------------------------

  predicate At(g: Option<Gateway>, row: Intent) {
    g.Some? ==> row.gateway == g.value
  }

  /** Rows with a status, at one gateway or at any. */
  function WithStatusAt(rows: seq<Listed>, g: Option<Gateway>, status: PaymentStatus): nat {
    if rows == [] then 0
    else
      var last := rows[|rows| - 1].row;
      WithStatusAt(rows[..|rows| - 1], g, status) + if At(g, last) && last.status == status then 1 else 0
  }

  function Successes(rows: seq<Listed>, g: Option<Gateway>): nat {
    WithStatusAt(rows, g, CAPTURED) + WithStatusAt(rows, g, REFUNDED)
  }

  function Failures(rows: seq<Listed>, g: Option<Gateway>): nat {
    WithStatusAt(rows, g, FAILED)
  }

  function Pendings(rows: seq<Listed>, g: Option<Gateway>): nat {
    WithStatusAt(rows, g, PENDING) + WithStatusAt(rows, g, AUTHORIZED)
  }

  function Completed(rows: seq<Listed>, g: Option<Gateway>): nat {
    Successes(rows, g) + Failures(rows, g)
  }

  function RowsAt(rows: seq<Listed>, g: Option<Gateway>): nat {
    Completed(rows, g) + Pendings(rows, g)
  }

  /** Collected cents in a currency, at one gateway or at any. */
  function Volume(rows: seq<Listed>, g: Option<Gateway>, currency: string): Cents {
    if rows == [] then 0
    else
      var last := rows[|rows| - 1].row;
      Volume(rows[..|rows| - 1], g, currency)
      + if At(g, last) && last.currency == currency && Collected(last.status) then last.amount else 0
  }

  /** Rows in a currency; with `collected`, only the collected ones. */
  function RowsIn(rows: seq<Listed>, g: Option<Gateway>, currency: string, collected: bool): nat {
    if rows == [] then 0
    else
      var last := rows[|rows| - 1].row;
      RowsIn(rows[..|rows| - 1], g, currency, collected)
      + if At(g, last) && last.currency == currency && (collected ==> Collected(last.status)) then 1 else 0
  }

  function SucceededCents(refunds: seq<Refund>): Cents {
    if refunds == [] then 0
    else
      var last := refunds[|refunds| - 1];
      SucceededCents(refunds[..|refunds| - 1]) + if last.status == RefundSucceeded then last.amount else 0
  }

  function SucceededCount(refunds: seq<Refund>): nat {
    if refunds == [] then 0
    else SucceededCount(refunds[..|refunds| - 1]) + if refunds[|refunds| - 1].status == RefundSucceeded then 1 else 0
  }

  /** Refunded cents in a currency. */
  function RefundVolume(rows: seq<Listed>, currency: string): Cents {
    if rows == [] then 0
    else
      var last := rows[|rows| - 1];
      RefundVolume(rows[..|rows| - 1], currency) + if last.row.currency == currency then SucceededCents(last.refunds) else 0
  }

  function RefundCount(rows: seq<Listed>, currency: Option<string>): nat {
    if rows == [] then 0
    else
      var last := rows[|rows| - 1];
      RefundCount(rows[..|rows| - 1], currency)
      + if currency.Some? ==> last.row.currency == currency.value then SucceededCount(last.refunds) else 0
  }

  // ----- The overview --------------------------------------------------------------

  datatype GatewayMetrics = GatewayMetrics(
    totalTransactions: nat,
    totalVolume: map<string, real>,
    successful: nat,
    failed: nat,
    pending: nat,
    successRate: real,
    failureRate: real)

  datatype CurrencyVolume = CurrencyVolume(totalAmount: real, count: nat)

  datatype Overview = Overview(
    totalTransactions: nat,
    successful: nat,
    failed: nat,
    pending: nat,
    overallSuccessRate: real,
    overallConversionRate: real,
    volumeByCurrency: map<string, CurrencyVolume>,
    gatewayBreakdown: map<Gateway, GatewayMetrics>,
    statusBreakdown: map<PaymentStatus, nat>,
    totalRefunds: nat,
    totalRefundAmount: map<string, real>)

  /** Every rounded running total is the exact sum, and a currency is listed exactly when it occurs. */
  ghost predicate VolumesExact(m: map<string, CurrencyVolume>, rows: seq<Listed>) {
    forall c :: (c in m <==> RowsIn(rows, None, c, false) > 0) &&
                (c in m ==> m[c] == CurrencyVolume(Amount(Volume(rows, None, c)), RowsIn(rows, None, c, false)))
  }

  ghost predicate GatewayVolumesExact(m: map<string, real>, rows: seq<Listed>, g: Gateway) {
    forall c :: (c in m <==> RowsIn(rows, Some(g), c, true) > 0) && (c in m ==> m[c] == Amount(Volume(rows, Some(g), c)))
  }

  ghost predicate CountsExact(m: GatewayMetrics, rows: seq<Listed>, g: Gateway) {
    && m.totalTransactions == RowsAt(rows, Some(g))
    && m.successful == Successes(rows, Some(g))
    && m.failed == Failures(rows, Some(g))
    && m.pending == Pendings(rows, Some(g))
  }

  ghost predicate BreakdownExact(m: map<Gateway, GatewayMetrics>, rows: seq<Listed>) {
    forall g :: g in m && CountsExact(m[g], rows, g) && GatewayVolumesExact(m[g].totalVolume, rows, g)
  }

  ghost predicate StatusesExact(m: map<PaymentStatus, nat>, rows: seq<Listed>) {
    forall status :: status in m && m[status] == WithStatusAt(rows, None, status)
  }

  ghost predicate RefundsExact(m: map<string, real>, rows: seq<Listed>) {
    forall c :: (c in m <==> RefundCount(rows, Some(c)) > 0) && (c in m ==> m[c] == Amount(RefundVolume(rows, c)))
  }

  ghost predicate RatesOf(m: map<Gateway, GatewayMetrics>, rows: seq<Listed>) {
    forall g :: g in m && Rated(m[g], rows, g)
  }

  ghost predicate Rated(m: GatewayMetrics, rows: seq<Listed>, g: Gateway) {
    && m.successRate == Rate(Successes(rows, Some(g)), Completed(rows, Some(g)))
    && m.failureRate == Rate(Failures(rows, Some(g)), Completed(rows, Some(g)))
  }

  /** The counters of an overview are those of its listing. */
  ghost predicate CountsReported(o: Overview, rows: seq<Listed>) {
    && o.totalTransactions == |rows|
    && o.successful == Successes(rows, None) && o.failed == Failures(rows, None) && o.pending == Pendings(rows, None)
    && StatusesExact(o.statusBreakdown, rows)
    && forall g :: g in o.gatewayBreakdown && CountsExact(o.gatewayBreakdown[g], rows, g)
  }

  /** So are its sums of money. */
  ghost predicate VolumesReported(o: Overview, rows: seq<Listed>) {
    && VolumesExact(o.volumeByCurrency, rows)
    && (forall g :: g in o.gatewayBreakdown && GatewayVolumesExact(o.gatewayBreakdown[g].totalVolume, rows, g))
    && o.totalRefunds == RefundCount(rows, None) && RefundsExact(o.totalRefundAmount, rows)
  }

  /** And its two overall rates. */
  ghost predicate RatesReported(o: Overview) {
    && o.overallSuccessRate == Rate(o.successful, o.successful + o.failed)
    && o.overallConversionRate == Rate(o.successful, o.totalTransactions)
  }

  /** The overview of a listing. */
  ghost predicate IsOverview(o: Overview, rows: seq<Listed>) {
    CountsReported(o, rows) && VolumesReported(o, rows) && RatesReported(o) && RatesOf(o.gatewayBreakdown, rows)
  }

  // ----- One row at a time ---------------------------------------------------------

  /** Appending a row adds its own share to each sum. */
  lemma Appended(rows: seq<Listed>, x: Listed)
    ensures (rows + [x])[..|rows|] == rows && (rows + [x])[|rows|] == x
  {
  }

  lemma CountsAppended(rows: seq<Listed>, x: Listed, g: Option<Gateway>)
    requires At(g, x.row)
    ensures Successes(rows + [x], g) == Successes(rows, g) + (if Collected(x.row.status) then 1 else 0)
    ensures Failures(rows + [x], g) == Failures(rows, g) + (if x.row.status == FAILED then 1 else 0)
    ensures Pendings(rows + [x], g) == Pendings(rows, g) + (if x.row.status == PENDING || x.row.status == AUTHORIZED then 1 else 0)
  {
  }

  lemma StatusAppended(m: map<PaymentStatus, nat>, rows: seq<Listed>, x: Listed)
    requires StatusesExact(m, rows)
    ensures StatusesExact(m[x.row.status := m[x.row.status] + 1], rows + [x])
  {
  }

  method AddVolume(m: map<string, CurrencyVolume>, x: Listed, ghost rows: seq<Listed>) returns (m': map<string, CurrencyVolume>)
    requires VolumesExact(m, rows)
    ensures VolumesExact(m', rows + [x])
  {
    Appended(rows, x);
    var currency := x.row.currency;
    var current := if currency in m then m[currency] else CurrencyVolume(0.0, 0);
    current := current.(count := current.count + 1);
    if Collected(x.row.status) {
      EmptyVolume(rows, None, currency);
      RoundedAdditionExact(Volume(rows, None, currency), x.row.amount);
      current := current.(totalAmount := RoundHundredths(current.totalAmount + Amount(x.row.amount)));
    } else {
      EmptyVolume(rows, None, currency);
    }
    m' := m[currency := current];
  }

  lemma {:induction false} EmptyVolume(rows: seq<Listed>, g: Option<Gateway>, currency: string)
    ensures RowsIn(rows, g, currency, true) == 0 ==> Volume(rows, g, currency) == 0
    ensures RowsIn(rows, g, currency, true) <= RowsIn(rows, g, currency, false)
    ensures Amount(0) == 0.0
  {
    if rows != [] {
      EmptyVolume(rows[..|rows| - 1], g, currency);
    }
  }

  method AddGatewayVolume(m: map<string, real>, x: Listed, ghost rows: seq<Listed>, g: Gateway) returns (m': map<string, real>)
    requires GatewayVolumesExact(m, rows, g) && x.row.gateway == g
    ensures GatewayVolumesExact(m', rows + [x], g)
  {
    Appended(rows, x);
    m' := m;
    if Collected(x.row.status) {
      var currency := x.row.currency;
      var current := if currency in m then m[currency] else 0.0;
      EmptyVolume(rows, Some(g), currency);
      RoundedAdditionExact(Volume(rows, Some(g), currency), x.row.amount);
      m' := m[currency := RoundHundredths(current + Amount(x.row.amount))];
    }
  }

  /** A row of another gateway leaves a gateway's metrics exact. */
  lemma OtherGateway(m: GatewayMetrics, rows: seq<Listed>, x: Listed, g: Gateway)
    requires CountsExact(m, rows, g) && GatewayVolumesExact(m.totalVolume, rows, g) && x.row.gateway != g
    ensures CountsExact(m, rows + [x], g) && GatewayVolumesExact(m.totalVolume, rows + [x], g)
  {
  }

  method AddToGateway(gw: GatewayMetrics, x: Listed, ghost rows: seq<Listed>) returns (gw': GatewayMetrics)
    requires CountsExact(gw, rows, x.row.gateway) && GatewayVolumesExact(gw.totalVolume, rows, x.row.gateway)
    ensures CountsExact(gw', rows + [x], x.row.gateway) && GatewayVolumesExact(gw'.totalVolume, rows + [x], x.row.gateway)
  {
    CountsAppended(rows, x, Some(x.row.gateway));
    var volume := AddGatewayVolume(gw.totalVolume, x, rows, x.row.gateway);
    gw' := gw.(totalTransactions := gw.totalTransactions + 1, totalVolume := volume);
    if Collected(x.row.status) {
      gw' := gw'.(successful := gw'.successful + 1);
    }
    if x.row.status == FAILED {
      gw' := gw'.(failed := gw'.failed + 1);
    }
    if x.row.status == PENDING || x.row.status == AUTHORIZED {
      gw' := gw'.(pending := gw'.pending + 1);
    }
  }

  /** The refund total of one currency after part of an intent's refunds; the others as before. */
  ghost predicate RefundsSoFar(m: map<string, real>, m': map<string, real>, currency: string, rows: seq<Listed>, refunds: seq<Refund>) {
    && m' - {currency} == m - {currency}
    && (currency in m' <==> RefundCount(rows, Some(currency)) + SucceededCount(refunds) > 0)
    && (if currency in m' then m'[currency] else 0.0) == Amount(RefundVolume(rows, currency) + SucceededCents(refunds))
  }

  lemma RefundsSoFarStart(m: map<string, real>, currency: string, rows: seq<Listed>)
    requires RefundsExact(m, rows)
    ensures RefundsSoFar(m, m, currency, rows, [])
  {
    NoRefundsNoVolume(rows, currency);
  }

  lemma RefundsSoFarDone(m: map<string, real>, m': map<string, real>, rows: seq<Listed>, x: Listed)
    requires RefundsExact(m, rows) && RefundsSoFar(m, m', x.row.currency, rows, x.refunds)
    ensures RefundsExact(m', rows + [x])
  {
    Appended(rows, x);
    forall c ensures (c in m' <==> RefundCount(rows + [x], Some(c)) > 0) && (c in m' ==> m'[c] == Amount(RefundVolume(rows + [x], c))) {
      if c != x.row.currency {
        assert c in m' <==> c in m' - {x.row.currency};
        assert c in m <==> c in m - {x.row.currency};
      }
    }
  }

  /** The inner loop over the refunds of one intent. */
  method AddRefunds(m: map<string, real>, count: nat, x: Listed, ghost rows: seq<Listed>) returns (m': map<string, real>, count': nat)
    requires RefundsExact(m, rows)
    ensures RefundsExact(m', rows + [x]) && count' == count + SucceededCount(x.refunds)
  {
    var currency := x.row.currency;
    m', count' := m, count;
    RefundsSoFarStart(m, currency, rows);
    assert x.refunds[..0] == [];
    for k := 0 to |x.refunds|
      invariant count' == count + SucceededCount(x.refunds[..k])
      invariant RefundsSoFar(m, m', currency, rows, x.refunds[..k])
    {
      var refund := x.refunds[k];
      assert x.refunds[..k + 1][..k] == x.refunds[..k];
      if refund.status == RefundSucceeded {
        count' := count' + 1;
        var current := if currency in m' then m'[currency] else 0.0;
        RoundedAdditionExact(RefundVolume(rows, currency) + SucceededCents(x.refunds[..k]), refund.amount);
        m' := m'[currency := RoundHundredths(current + Amount(refund.amount))];
      }
    }
    assert x.refunds[..|x.refunds|] == x.refunds;
    RefundsSoFarDone(m, m', rows, x);
  }

  lemma {:induction false} NoRefundsNoVolume(rows: seq<Listed>, currency: string)
    ensures RefundCount(rows, Some(currency)) == 0 ==> RefundVolume(rows, currency) == 0
    ensures Amount(0) == 0.0
  {
    if rows != [] {
      NoRefundsNoVolume(rows[..|rows| - 1], currency);
      NoSucceededNoCents(rows[|rows| - 1].refunds);
    }
  }

  lemma {:induction false} NoSucceededNoCents(refunds: seq<Refund>)
    ensures SucceededCount(refunds) == 0 ==> SucceededCents(refunds) == 0
  {
    if refunds != [] {
      NoSucceededNoCents(refunds[..|refunds| - 1]);
    }
  }

  const NO_STATUSES: map<PaymentStatus, nat> := map[PENDING := 0, AUTHORIZED := 0, CAPTURED := 0, FAILED := 0, REFUNDED := 0]
  const NO_BREAKDOWN: map<Gateway, GatewayMetrics> := map[STRIPE := NO_ACTIVITY, PAYMOB := NO_ACTIVITY, FAWRY := NO_ACTIVITY]

  lemma EmptyListing()
    ensures VolumesExact(map[], []) && RefundsExact(map[], []) && StatusesExact(NO_STATUSES, []) && BreakdownExact(NO_BREAKDOWN, [])
  {
    forall status: PaymentStatus ensures status in NO_STATUSES && NO_STATUSES[status] == 0 {
      match status
      case PENDING =>
      case AUTHORIZED =>
      case CAPTURED =>
      case FAILED =>
      case REFUNDED =>
    }
    forall g: Gateway ensures g in NO_BREAKDOWN && NO_BREAKDOWN[g] == NO_ACTIVITY {
      match g
      case STRIPE =>
      case PAYMOB =>
      case FAWRY =>
    }
  }

  const NO_ACTIVITY := GatewayMetrics(0, map[], 0, 0, 0, 0.0, 0.0)

  ghost predicate CountersExact(successful: nat, failed: nat, pending: nat, statuses: map<PaymentStatus, nat>, rows: seq<Listed>) {
    && successful == Successes(rows, None) && failed == Failures(rows, None) && pending == Pendings(rows, None)
    && StatusesExact(statuses, rows)
  }

  method CountRow(successful: nat, failed: nat, pending: nat, statuses: map<PaymentStatus, nat>, status: PaymentStatus,
                  ghost x: Listed, ghost rows: seq<Listed>)
    returns (successful': nat, failed': nat, pending': nat, statuses': map<PaymentStatus, nat>)
    requires CountersExact(successful, failed, pending, statuses, rows) && status == x.row.status
    ensures CountersExact(successful', failed', pending', statuses', rows + [x])
  {
    CountsAppended(rows, x, None);
    StatusAppended(statuses, rows, x);
    successful', failed', pending' := successful, failed, pending;
    statuses' := statuses[status := statuses[status] + 1];
    if Collected(status) {
      successful' := successful + 1;
    }
    if status == FAILED {
      failed' := failed + 1;
    }
    if status == PENDING || status == AUTHORIZED {
      pending' := pending + 1;
    }
  }

  lemma RefundCountAppended(rows: seq<Listed>, x: Listed)
    ensures RefundCount(rows + [x], None) == RefundCount(rows, None) + SucceededCount(x.refunds)
  {
  }

  // ----- The counters as numbers of rows -------------------------------------------

  lemma {:induction false} StatusPositions(rows: seq<Listed>, g: Option<Gateway>, status: PaymentStatus, p: Listed -> bool)
    requires forall x :: p(x) <==> (g.Some? ==> x.row.gateway == g.value) && x.row.status == status
    ensures WithStatusAt(rows, g, status) == |Positions(rows, p)|
  {
    if rows != [] {
      StatusPositions(rows[..|rows| - 1], g, status, p);
      CountLast(rows, p);
    }
  }

  lemma StatusCount(rows: seq<Listed>, status: PaymentStatus)
    ensures WithStatusAt(rows, None, status) == |set k | 0 <= k < |rows| && rows[k].row.status == status|
  {
    var p := (x: Listed) => x.row.status == status;
    StatusPositions(rows, None, status, p);
    assert Positions(rows, p) == set k | 0 <= k < |rows| && rows[k].row.status == status;
  }

  lemma StatusCountAt(rows: seq<Listed>, g: Gateway, status: PaymentStatus)
    ensures WithStatusAt(rows, Some(g), status) == |set k | 0 <= k < |rows| && rows[k].row.gateway == g && rows[k].row.status == status|
  {
    var p := (x: Listed) => x.row.gateway == g && x.row.status == status;
    StatusPositions(rows, Some(g), status, p);
    assert Positions(rows, p) == set k | 0 <= k < |rows| && rows[k].row.gateway == g && rows[k].row.status == status;
  }

  lemma {:induction false} CurrencyPositions(rows: seq<Listed>, currency: string, p: Listed -> bool)
    requires forall x :: p(x) <==> x.row.currency == currency
    ensures RowsIn(rows, None, currency, false) == |Positions(rows, p)|
  {
    if rows != [] {
      CurrencyPositions(rows[..|rows| - 1], currency, p);
      CountLast(rows, p);
    }
  }

  lemma CurrencyCount(rows: seq<Listed>, currency: string)
    ensures RowsIn(rows, None, currency, false) == |set k | 0 <= k < |rows| && rows[k].row.currency == currency|
  {
    var p := (x: Listed) => x.row.currency == currency;
    CurrencyPositions(rows, currency, p);
    assert Positions(rows, p) == set k | 0 <= k < |rows| && rows[k].row.currency == currency;
  }

  /** Some row of a gateway and currency was collected. */
  ghost predicate CollectedSome(rows: seq<Listed>, g: Gateway, currency: string) {
    exists k :: 0 <= k < |rows| && rows[k].row.gateway == g && rows[k].row.currency == currency
                && (rows[k].row.status == CAPTURED || rows[k].row.status == REFUNDED)
  }

  lemma {:induction false} CollectedSomeIff(rows: seq<Listed>, g: Gateway, currency: string)
    ensures RowsIn(rows, Some(g), currency, true) > 0 <==> CollectedSome(rows, g, currency)
  {
    if rows != [] {
      var n := |rows| - 1;
      CollectedSomeIff(rows[..n], g, currency);
      if k :| 0 <= k < n && rows[k].row.gateway == g && rows[k].row.currency == currency && (rows[k].row.status == CAPTURED || rows[k].row.status == REFUNDED) {
        assert rows[..n][k] == rows[k];
      }
    }
  }

  /** Every count of an overview is a number of rows: per status, and per currency whatever the status;
      a currency is listed exactly when some row has it, at a gateway when some row of it was collected there. */
  ghost predicate CountsRows(o: Overview, rows: seq<Listed>) {
    && (forall status :: status in o.statusBreakdown && o.statusBreakdown[status] == |set k | 0 <= k < |rows| && rows[k].row.status == status|)
    && o.totalTransactions == |rows|
    && (forall c :: c in o.volumeByCurrency <==> exists k :: 0 <= k < |rows| && rows[k].row.currency == c)
    && (forall c :: c in o.volumeByCurrency ==> o.volumeByCurrency[c].count == |set k | 0 <= k < |rows| && rows[k].row.currency == c|)
    && (forall g, c :: g in o.gatewayBreakdown && (c in o.gatewayBreakdown[g].totalVolume <==> CollectedSome(rows, g, c)))
  }

  lemma CountsAreRows(o: Overview, rows: seq<Listed>)
    requires CountsReported(o, rows) && VolumesReported(o, rows)
    ensures CountsRows(o, rows)
  {
    forall status ensures status in o.statusBreakdown && o.statusBreakdown[status] == |set k | 0 <= k < |rows| && rows[k].row.status == status| {
      StatusCount(rows, status);
    }
    forall c ensures c in o.volumeByCurrency <==> exists k :: 0 <= k < |rows| && rows[k].row.currency == c {
      CurrencyListed(o.volumeByCurrency, rows, c);
    }
    forall c | c in o.volumeByCurrency ensures o.volumeByCurrency[c].count == |set k | 0 <= k < |rows| && rows[k].row.currency == c| {
      CurrencyCount(rows, c);
    }
    forall g, c ensures g in o.gatewayBreakdown && (c in o.gatewayBreakdown[g].totalVolume <==> CollectedSome(rows, g, c)) {
      CollectedSomeIff(rows, g, c);
      assert GatewayVolumesExact(o.gatewayBreakdown[g].totalVolume, rows, g);
    }
  }

  lemma CurrencyListed(m: map<string, CurrencyVolume>, rows: seq<Listed>, c: string)
    requires VolumesExact(m, rows)
    ensures c in m <==> exists k :: 0 <= k < |rows| && rows[k].row.currency == c
  {
    CurrencyCount(rows, c);
    var ks := set k | 0 <= k < |rows| && rows[k].row.currency == c;
    if k :| 0 <= k < |rows| && rows[k].row.currency == c {
      assert k in ks;
    }
    if ks != {} {
      var k :| k in ks;
    }
  }

  lemma Assembled(o: Overview, rows: seq<Listed>)
    requires o.totalTransactions == |rows| && CountersExact(o.successful, o.failed, o.pending, o.statusBreakdown, rows)
    requires VolumesExact(o.volumeByCurrency, rows)
    requires BreakdownExact(o.gatewayBreakdown, rows) && RatesOf(o.gatewayBreakdown, rows)
    requires o.totalRefunds == RefundCount(rows, None) && RefundsExact(o.totalRefundAmount, rows)
    requires RatesReported(o)
    ensures IsOverview(o, rows)
  {
  }

  /** getOverview, from the rows findMany returned. */
  method GetOverview(intents: seq<Listed>) returns (o: Overview)
    ensures IsOverview(o, intents) && CountsRows(o, intents)
  {
    var successful, failed, pending, totalRefunds := 0, 0, 0, 0;
    var statusBreakdown, breakdown := NO_STATUSES, NO_BREAKDOWN;
    var volumeByCurrency: map<string, CurrencyVolume> := map[];
    var totalRefundAmount: map<string, real> := map[];
    EmptyListing();
    assert intents[..0] == [];
    for k := 0 to |intents|
      invariant CountersExact(successful, failed, pending, statusBreakdown, intents[..k])
      invariant VolumesExact(volumeByCurrency, intents[..k])
      invariant BreakdownExact(breakdown, intents[..k])
      invariant RefundsExact(totalRefundAmount, intents[..k]) && totalRefunds == RefundCount(intents[..k], None)
    {
      var x := intents[k];
      ghost var rows := intents[..k];
      assert intents[..k + 1] == rows + [x];
      successful, failed, pending, statusBreakdown := CountRow(successful, failed, pending, statusBreakdown, x.row.status, x, rows);
      volumeByCurrency := AddVolume(volumeByCurrency, x, rows);
      breakdown := AddToBreakdown(breakdown, x, rows);
      totalRefundAmount, totalRefunds := AddRefunds(totalRefundAmount, totalRefunds, x, rows);
      RefundCountAppended(rows, x);
    }
    assert intents[..|intents|] == intents;

    breakdown := ComputeRates(breakdown, intents);
    o := Overview(|intents|, successful, failed, pending,
                  Rate(successful, successful + failed), Rate(successful, |intents|),
                  volumeByCurrency, breakdown, statusBreakdown, totalRefunds, totalRefundAmount);
    Assembled(o, intents);
    CountsAreRows(o, intents);
  }

  method AddToBreakdown(m: map<Gateway, GatewayMetrics>, x: Listed, ghost rows: seq<Listed>) returns (m': map<Gateway, GatewayMetrics>)
    requires BreakdownExact(m, rows)
    ensures BreakdownExact(m', rows + [x])
  {
    var gw := AddToGateway(m[x.row.gateway], x, rows);
    m' := m[x.row.gateway := gw];
    forall g ensures g in m' && CountsExact(m'[g], rows + [x], g) && GatewayVolumesExact(m'[g].totalVolume, rows + [x], g) {
      if g != x.row.gateway {
        OtherGateway(m[g], rows, x, g);
      }
    }
  }

  method RateGateway(gw: GatewayMetrics, ghost rows: seq<Listed>, ghost g: Gateway) returns (gw': GatewayMetrics)
    requires CountsExact(gw, rows, g) && GatewayVolumesExact(gw.totalVolume, rows, g)
    ensures CountsExact(gw', rows, g) && GatewayVolumesExact(gw'.totalVolume, rows, g) && Rated(gw', rows, g)
  {
    var completed := gw.successful + gw.failed;
    gw' := gw.(successRate := Rate(gw.successful, completed), failureRate := Rate(gw.failed, completed));
  }

  /** The second loop: rates of the three gateways. */
  method ComputeRates(m: map<Gateway, GatewayMetrics>, ghost rows: seq<Listed>) returns (m': map<Gateway, GatewayMetrics>)
    requires BreakdownExact(m, rows)
    ensures BreakdownExact(m', rows) && RatesOf(m', rows)
  {
    m' := m;
    var gateways := [STRIPE, PAYMOB, FAWRY];
    for k := 0 to 3
      invariant BreakdownExact(m', rows)
      invariant forall g :: g in gateways[..k] ==> Rated(m'[g], rows, g)
    {
      var g := gateways[k];
      var gw := RateGateway(m'[g], rows, g);
      m' := m'[g := gw];
      assert gateways[..k + 1] == gateways[..k] + [g];
    }
    assert gateways[..3] == [STRIPE, PAYMOB, FAWRY];
    forall g ensures g in gateways[..3] {
      match g
      case STRIPE => assert gateways[..3][0] == STRIPE;
      case PAYMOB => assert gateways[..3][1] == PAYMOB;
      case FAWRY => assert gateways[..3][2] == FAWRY;
    }
  }

  /** Every row has exactly one status. */
  lemma {:induction false} StatusesAddUp(rows: seq<Listed>)
    ensures RowsAt(rows, None) == |rows|
    ensures WithStatusAt(rows, None, PENDING) + WithStatusAt(rows, None, AUTHORIZED) + WithStatusAt(rows, None, CAPTURED)
            + WithStatusAt(rows, None, FAILED) + WithStatusAt(rows, None, REFUNDED) == |rows|
  {
    if rows != [] {
      StatusesAddUp(rows[..|rows| - 1]);
    }
  }
}
