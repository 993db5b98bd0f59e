/** The grouping loop of src/health/metrics.service.ts, keyed by label strings, against the
    per-merchant overviews. */
module Metrics {
  import opened Prelude
  import opened Money
  import opened Tables
  import opened Analytics
  import opened AnalyticsFacts

  // ----- Label strings -------------------------------------------------------------

  function GatewayName(g: Gateway): string {
    match g
    case PAYMOB => "PAYMOB"
    case FAWRY => "FAWRY"
    case STRIPE => "STRIPE"
  }

  function StatusName(status: PaymentStatus): string {
    match status
    case PENDING => "PENDING"
    case AUTHORIZED => "AUTHORIZED"
    case CAPTURED => "CAPTURED"
    case FAILED => "FAILED"
    case REFUNDED => "REFUNDED"
  }

  /** A name up to its closing quote, then the rest of the labels. */
  function Quoted(name: string, rest: string): string {
    name + "\"" + rest
  }

  function VolumeKey(g: Gateway, currency: string): string {
    "gateway=\"" + Quoted(GatewayName(g), ",currency=\"" + Quoted(currency, ""))
  }

  function CountKey(g: Gateway, status: PaymentStatus, currency: string): string {
    "gateway=\"" + Quoted(GatewayName(g), ",status=\"" + Quoted(StatusName(status), ",currency=\"" + Quoted(currency, "")))
  }

  /** The labels, letter by letter. */
  lemma LabelText(g: Gateway, status: PaymentStatus, currency: string)
    ensures var gateway := if g.STRIPE? then "STRIPE" else if g.PAYMOB? then "PAYMOB" else "FAWRY";
            var state := if status.PENDING? then "PENDING" else if status.AUTHORIZED? then "AUTHORIZED"
                         else if status.CAPTURED? then "CAPTURED" else if status.FAILED? then "FAILED" else "REFUNDED";
            && VolumeKey(g, currency) == "gateway=\"" + (gateway + "\"" + (",currency=\"" + (currency + "\"" + "")))
            && CountKey(g, status, currency)
               == "gateway=\"" + (gateway + "\"" + (",status=\"" + (state + "\"" + (",currency=\"" + (currency + "\"" + "")))))
  {
  }

  lemma Cancel(prefix: string, a: string, b: string)
    requires prefix + a == prefix + b
    ensures a == b
  {
    assert a == (prefix + a)[|prefix|..] == (prefix + b)[|prefix|..] == b;
  }

  /** The text before the first quote. */
  function BeforeQuote(s: string): string {
    if s == "" || s[0] == '\"' then "" else [s[0]] + BeforeQuote(s[1..])
  }

  lemma {:induction false} BeforeQuoteOf(a: string, r: string)
    requires '\"' !in a
    ensures BeforeQuote(Quoted(a, r)) == a
  {
    if a != "" {
      BeforeQuoteOf(a[1..], r);
      assert Quoted(a, r)[1..] == Quoted(a[1..], r);
    }
  }

  /** A name without quotes ends at the first quote. */
  lemma QuotedInjective(a: string, b: string, r: string, t: string)
    requires '\"' !in a && '\"' !in b
    requires Quoted(a, r) == Quoted(b, t)
    ensures a == b && r == t
  {
    BeforeQuoteOf(a, r);
    BeforeQuoteOf(b, t);
    Cancel(a + "\"", r, t);
  }

  lemma NamesDistinct(g: Gateway, h: Gateway)
    ensures GatewayName(g) == GatewayName(h) <==> g == h
    ensures '\"' !in GatewayName(g)
  {
  }

  lemma StatusNamesDistinct(a: PaymentStatus, b: PaymentStatus)
    ensures StatusName(a) == StatusName(b) <==> a == b
    ensures '\"' !in StatusName(a)
  {
  }

  /** Different gateways or currencies never share a volume label, whatever the currency contains. */
  lemma VolumeKeyInjective(g: Gateway, c: string, h: Gateway, d: string)
    ensures VolumeKey(g, c) == VolumeKey(h, d) <==> g == h && c == d
  {
    if VolumeKey(g, c) == VolumeKey(h, d) {
      NamesDistinct(g, h);
      NamesDistinct(h, g);
      Cancel("gateway=\"", Quoted(GatewayName(g), ",currency=\"" + Quoted(c, "")), Quoted(GatewayName(h), ",currency=\"" + Quoted(d, "")));
      QuotedInjective(GatewayName(g), GatewayName(h), ",currency=\"" + Quoted(c, ""), ",currency=\"" + Quoted(d, ""));
      Cancel(",currency=\"", Quoted(c, ""), Quoted(d, ""));
      assert c == Quoted(c, "")[..|Quoted(c, "")| - 1] && d == Quoted(d, "")[..|Quoted(d, "")| - 1];
    }
  }

  lemma CountKeyInjective(g: Gateway, a: PaymentStatus, c: string, h: Gateway, b: PaymentStatus, d: string)
    ensures CountKey(g, a, c) == CountKey(h, b, d) <==> g == h && a == b && c == d
  {
    if CountKey(g, a, c) == CountKey(h, b, d) {
      NamesDistinct(g, h);
      NamesDistinct(h, g);
      StatusNamesDistinct(a, b);
      StatusNamesDistinct(b, a);
      var r, t := Quoted(StatusName(a), ",currency=\"" + Quoted(c, "")), Quoted(StatusName(b), ",currency=\"" + Quoted(d, ""));
      Cancel("gateway=\"", Quoted(GatewayName(g), ",status=\"" + r), Quoted(GatewayName(h), ",status=\"" + t));
      QuotedInjective(GatewayName(g), GatewayName(h), ",status=\"" + r, ",status=\"" + t);
      Cancel(",status=\"", r, t);
      QuotedInjective(StatusName(a), StatusName(b), ",currency=\"" + Quoted(c, ""), ",currency=\"" + Quoted(d, ""));
      Cancel(",currency=\"", Quoted(c, ""), Quoted(d, ""));
      assert c == Quoted(c, "")[..|Quoted(c, "")| - 1] && d == Quoted(d, "")[..|Quoted(d, "")| - 1];
    }
  }

  // ----- The loop ------------------------------------------------------------------

  /** Rows with a gateway, status and currency. */
  function RowsWith(rows: seq<Intent>, g: Gateway, status: PaymentStatus, currency: string): nat {
    if rows == [] then 0
    else
      var last := rows[|rows| - 1];
      RowsWith(rows[..|rows| - 1], g, status, currency)
      + if last.gateway == g && last.status == status && last.currency == currency then 1 else 0
  }

  /** What a row contributes to the volume of a gateway and currency. */
  function Share(row: Intent, g: Gateway, currency: string): Cents {
    if row.gateway == g && row.currency == currency && Collected(row.status) then row.amount else 0
  }

  /** Collected cents of a gateway and currency. */
  function Collection(rows: seq<Intent>, g: Gateway, currency: string): Cents {
    if rows == [] then 0
    else
      var last := rows[|rows| - 1];
      Collection(rows[..|rows| - 1], g, currency) + Share(last, g, currency)
  }

  function CountAt(m: map<string, nat>, key: string): nat {
    if key in m then m[key] else 0
  }

  function VolumeAt(m: map<string, real>, key: string): real {
    if key in m then m[key] else 0.0
  }

  ghost predicate CountsGrouped(m: map<string, nat>, rows: seq<Intent>) {
    forall g, status, c :: CountAt(m, CountKey(g, status, c)) == RowsWith(rows, g, status, c)
  }

  ghost predicate VolumesGrouped(m: map<string, real>, rows: seq<Intent>) {
    forall g, c :: VolumeAt(m, VolumeKey(g, c)) == Amount(Collection(rows, g, c))
  }

  method CountRow(m: map<string, nat>, x: Intent, ghost rows: seq<Intent>) returns (m': map<string, nat>)
    requires CountsGrouped(m, rows)
    ensures CountsGrouped(m', rows + [x])
  {
    var key := CountKey(x.gateway, x.status, x.currency);
    m' := m[key := CountAt(m, key) + 1];
    assert (rows + [x])[..|rows|] == rows;
    forall g, status, c ensures CountAt(m', CountKey(g, status, c)) == RowsWith(rows + [x], g, status, c) {
      CountKeyInjective(g, status, c, x.gateway, x.status, x.currency);
    }
  }

  method AddRow(m: map<string, real>, x: Intent, ghost rows: seq<Intent>) returns (m': map<string, real>)
    requires VolumesGrouped(m, rows)
    ensures VolumesGrouped(m', rows + [x])
  {
    m' := m;
    if Collected(x.status) {
      var key := VolumeKey(x.gateway, x.currency);
      m' := m[key := VolumeAt(m, key) + Amount(x.amount)];
    }
    assert (rows + [x])[..|rows|] == rows;
    forall g, c ensures VolumeAt(m', VolumeKey(g, c)) == Amount(Collection(rows + [x], g, c)) {
      VolumeKeyInjective(g, c, x.gateway, x.currency);
    }
  }

  /** The two maps getPrometheusMetrics prints. */
  method GroupIntents(intents: seq<Intent>) returns (counts: map<string, nat>, volumes: map<string, real>)
    ensures CountsGrouped(counts, intents) && VolumesGrouped(volumes, intents)
  {
    counts, volumes := map[], map[];
    assert intents[..0] == [];
    for k := 0 to |intents|
      invariant CountsGrouped(counts, intents[..k]) && VolumesGrouped(volumes, intents[..k])
    {
      assert intents[..k + 1] == intents[..k] + [intents[k]];
      counts := CountRow(counts, intents[k], intents[..k]);
      volumes := AddRow(volumes, intents[k], intents[..k]);
    }
    assert intents[..|intents|] == intents;
  }

  lemma {:induction false} RowsWithPositions(rows: seq<Intent>, g: Gateway, status: PaymentStatus, currency: string, p: Intent -> bool)
    requires forall x :: p(x) <==> x.gateway == g && x.status == status && x.currency == currency
    ensures RowsWith(rows, g, status, currency) == |Positions(rows, p)|
  {
    if rows != [] {
      RowsWithPositions(rows[..|rows| - 1], g, status, currency, p);
      CountLast(rows, p);
    }
  }

  /** The count printed under a label is the number of its rows. */
  lemma GroupCount(counts: map<string, nat>, rows: seq<Intent>, g: Gateway, status: PaymentStatus, currency: string)
    requires CountsGrouped(counts, rows)
    ensures CountAt(counts, CountKey(g, status, currency))
            == |set k | 0 <= k < |rows| && rows[k].gateway == g && rows[k].status == status && rows[k].currency == currency|
  {
    var p := (x: Intent) => x.gateway == g && x.status == status && x.currency == currency;
    RowsWithPositions(rows, g, status, currency, p);
    assert Positions(rows, p) == set k | 0 <= k < |rows| && rows[k].gateway == g && rows[k].status == status && rows[k].currency == currency;
  }

  // ----- Metrics against the sum of all merchants' overviews -----------------------

  function RowsOf(listing: seq<Listed>): seq<Intent> {
    seq(|listing|, k requires 0 <= k < |listing| => listing[k].row)
  }

  /** where: { merchantId } */
  function OfMerchant(rows: seq<Intent>, merchant: Id): seq<Intent> {
    if rows == [] then []
    else
      var last := rows[|rows| - 1];
      OfMerchant(rows[..|rows| - 1], merchant) + if last.merchantId == merchant then [last] else []
  }

  /** It keeps exactly the merchant's rows. */
  lemma {:induction false} OfMerchantMeaning(rows: seq<Intent>, merchant: Id, x: Intent)
    ensures multiset(OfMerchant(rows, merchant))[x] == if x.merchantId == merchant then multiset(rows)[x] else 0
  {
    if rows != [] {
      var n := |rows| - 1;
      OfMerchantMeaning(rows[..n], merchant, x);
      assert rows == rows[..n] + [rows[n]];
    }
  }

  /** A merchant's listing: its rows, in whatever order the database returns them. */
  ghost predicate ListsMerchant(listing: seq<Listed>, rows: seq<Intent>, merchant: Id) {
    multiset(RowsOf(listing)) == multiset(OfMerchant(rows, merchant))
  }

  function SumOverMerchants(rows: seq<Intent>, merchants: seq<Id>, g: Gateway, currency: string): Cents {
    if merchants == [] then 0
    else
      var n := |merchants| - 1;
      SumOverMerchants(rows, merchants[..n], g, currency) + Collection(OfMerchant(rows, merchants[n]), g, currency)
  }

  lemma CollectionAppend(rows: seq<Intent>, x: Intent, g: Gateway, currency: string)
    ensures Collection(rows + [x], g, currency) == Collection(rows, g, currency) + Share(x, g, currency)
    ensures Share(x, g, currency)
            == if x.gateway == g && x.currency == currency && (x.status == CAPTURED || x.status == REFUNDED) then x.amount else 0
  {
    assert (rows + [x])[..|rows|] == rows;
  }

  lemma {:induction false} CollectionConcat(a: seq<Intent>, b: seq<Intent>, g: Gateway, currency: string)
    ensures Collection(a + b, g, currency) == Collection(a, g, currency) + Collection(b, g, currency)
  {
    if b == [] {
      assert a + b == a;
    } else {
      CollectionConcat(a, b[..|b| - 1], g, currency);
      assert (a + b)[..|a + b| - 1] == a + b[..|b| - 1];
    }
  }

  /** Taking one row out takes its share out. */
  lemma CollectionWithout(rows: seq<Intent>, k: nat, g: Gateway, currency: string)
    requires k < |rows|
    ensures Collection(rows, g, currency) == Collection(rows[..k] + rows[k + 1..], g, currency) + Share(rows[k], g, currency)
  {
    assert rows == (rows[..k] + [rows[k]]) + rows[k + 1..];
    CollectionConcat(rows[..k] + [rows[k]], rows[k + 1..], g, currency);
    CollectionAppend(rows[..k], rows[k], g, currency);
    CollectionConcat(rows[..k], rows[k + 1..], g, currency);
  }

  /** The order of the rows does not matter. */
  lemma {:induction false} CollectionOfAnyOrder(a: seq<Intent>, b: seq<Intent>, g: Gateway, currency: string)
    requires multiset(a) == multiset(b)
    ensures Collection(a, g, currency) == Collection(b, g, currency)
    decreases |a|
  {
    if a == [] {
      assert |b| == |multiset(b)| == |multiset(a)| == 0;
    } else {
      var k := LastOfPermutation(a, b);
      CollectionOfAnyOrder(a[..|a| - 1], b[..k] + b[k + 1..], g, currency);
      CollectionWithout(b, k, g, currency);
    }
  }

  lemma OwnCollectionAppend(rows: seq<Intent>, x: Intent, merchant: Id, g: Gateway, currency: string)
    ensures Collection(OfMerchant(rows + [x], merchant), g, currency)
            == Collection(OfMerchant(rows, merchant), g, currency) + if x.merchantId == merchant then Share(x, g, currency) else 0
  {
    assert (rows + [x])[..|rows|] == rows;
    var own := OfMerchant(rows, merchant);
    assert own + [] == own;
    CollectionAppend(own, x, g, currency);
  }

  /** One row belongs to one merchant. */
  lemma {:induction false} RowCountsOnce(rows: seq<Intent>, x: Intent, merchants: seq<Id>, g: Gateway, currency: string)
    requires Distinct(merchants)
    ensures SumOverMerchants(rows + [x], merchants, g, currency)
            == SumOverMerchants(rows, merchants, g, currency) + if x.merchantId in merchants then Share(x, g, currency) else 0
  {
    if merchants != [] {
      var n := |merchants| - 1;
      RowCountsOnce(rows, x, merchants[..n], g, currency);
      OwnCollectionAppend(rows, x, merchants[n], g, currency);
      assert merchants == merchants[..n] + [merchants[n]];
      assert merchants[n] !in merchants[..n];
    }
  }

  lemma {:induction false} NothingListed(merchants: seq<Id>, g: Gateway, currency: string)
    ensures SumOverMerchants([], merchants, g, currency) == 0
  {
    if merchants != [] {
      NothingListed(merchants[..|merchants| - 1], g, currency);
    }
  }

  lemma {:induction false} MerchantsPartition(rows: seq<Intent>, merchants: seq<Id>, g: Gateway, currency: string)
    requires Distinct(merchants) && forall k :: 0 <= k < |rows| ==> rows[k].merchantId in merchants
    ensures SumOverMerchants(rows, merchants, g, currency) == Collection(rows, g, currency)
  {
    if rows == [] {
      NothingListed(merchants, g, currency);
    } else {
      var front, x := rows[..|rows| - 1], rows[|rows| - 1];
      MerchantsPartition(front, merchants, g, currency);
      RowCountsOnce(front, x, merchants, g, currency);
      assert front + [x] == rows;
    }
  }

  /** What analytics sums up for a gateway is what metrics collects. */
  lemma {:induction false} VolumeIsCollection(listing: seq<Listed>, g: Gateway, currency: string)
    ensures Volume(listing, Some(g), currency) == Collection(RowsOf(listing), g, currency)
  {
    if listing != [] {
      var n := |listing| - 1;
      VolumeIsCollection(listing[..n], g, currency);
      assert RowsOf(listing)[..n] == RowsOf(listing[..n]);
    }
  }

  /** Adding up a gateway's volume in a currency over the overviews of all merchants. */
  function SumOfOverviews(overviews: seq<Overview>, g: Gateway, currency: string): real {
    if overviews == [] then 0.0
    else
      var n := |overviews| - 1;
      SumOfOverviews(overviews[..n], g, currency) + GatewayVolume(overviews[n], g, currency)
  }

  lemma {:induction false} OverviewsSum(rows: seq<Intent>, merchants: seq<Id>, listings: seq<seq<Listed>>, overviews: seq<Overview>,
                                        g: Gateway, currency: string)
    requires |listings| == |overviews| == |merchants|
    requires forall k :: 0 <= k < |merchants| ==> ListsMerchant(listings[k], rows, merchants[k]) && VolumesReported(overviews[k], listings[k])
    ensures SumOfOverviews(overviews, g, currency) == Amount(SumOverMerchants(rows, merchants, g, currency))
  {
    if merchants != [] {
      var n := |merchants| - 1;
      OverviewsSum(rows, merchants[..n], listings[..n], overviews[..n], g, currency);
      FiguresExact(overviews[n], listings[n], currency);
      VolumeIsCollection(listings[n], g, currency);
      CollectionOfAnyOrder(RowsOf(listings[n]), OfMerchant(rows, merchants[n]), g, currency);
    }
  }

  /** The unrounded volume the metrics endpoint reports for a gateway and currency is the sum of the
      stepwise-rounded figures of all merchants' unfiltered overviews, whatever order each query
      returns its rows in. */
  lemma MetricsAreSumOfOverviews(rows: seq<Intent>, volumes: map<string, real>,
                                 merchants: seq<Id>, listings: seq<seq<Listed>>, overviews: seq<Overview>, g: Gateway, currency: string)
    requires VolumesGrouped(volumes, rows)
    requires Distinct(merchants) && forall k :: 0 <= k < |rows| ==> rows[k].merchantId in merchants
    requires |listings| == |overviews| == |merchants|
    requires forall k :: 0 <= k < |merchants| ==> ListsMerchant(listings[k], rows, merchants[k]) && VolumesReported(overviews[k], listings[k])
    ensures SumOfOverviews(overviews, g, currency) == VolumeAt(volumes, VolumeKey(g, currency))
  {
    OverviewsSum(rows, merchants, listings, overviews, g, currency);
    MerchantsPartition(rows, merchants, g, currency);
  }
}
