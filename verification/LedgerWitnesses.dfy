/** Concrete runs showing that the hypotheses of the safety theorems are needed, and the exact
    condition under which two overlapping refunds stay safe. */
module LedgerWitnesses {
  import opened Prelude
  import opened Money
  import opened Tables
  import opened Refunds
  import opened ReconciliationRules
  import opened LedgerProtocol
  import opened RefundSafety
  import opened RefundBacking
  import opened Notifications

  /** Two refunds that read the same balance and are both committed as SUCCEEDED: the ledger stays
      within the amount exactly when their stored amounts fit the balance together, and the intent
      is marked REFUNDED exactly when one of them alone covers it. */
  lemma OverlapSafeIff(db: Db, first: Plan, second: Plan, p: Id, q: Id)
    requires PlanCurrent(db, first) && PlanCurrent(db, second) && first.intent == second.intent
    requires db.intents[first.intent].status == CAPTURED
    ensures var after := CommitRefund(CommitRefund(db, first, RefundSucceeded, p), second, RefundSucceeded, q);
            var i, a, b := first.intent, StoreDecimal(first.requested), StoreDecimal(second.requested);
            && (Refunded(after.refunds, i) <= after.intents[i].amount <==> a + b <= first.total - first.soFar)
            && (after.intents[i].status == REFUNDED <==> a == first.total - first.soFar || b == first.total - first.soFar)
  {
    BalanceExact(first.total, first.soFar);
    StoredRequestFits(first);
    StoredRequestFits(second);
    var i := first.intent;
    var once := CommitRefund(db, first, RefundSucceeded, p);
    CommitMoves(db, first, RefundSucceeded, p);
    CommitMoves(once, second, RefundSucceeded, q);
  }

  // ----- Building runs -------------------------------------------------------------

  ghost function Last(trace: seq<State>): State
    requires trace != []
  {
    trace[|trace| - 1]
  }

  ghost predicate RunTo(trace: seq<State>, actions: seq<Action>, s: State) {
    IsRun(trace, actions) && Last(trace) == s
  }

  lemma Extend(trace: seq<State>, actions: seq<Action>, a: Action) returns (trace': seq<State>, actions': seq<Action>)
    requires IsRun(trace, actions) && Enabled(Last(trace), a)
    ensures trace' == trace + [Step(Last(trace), a)] && actions' == actions + [a]
    ensures RunTo(trace', actions', Step(Last(trace), a))
  {
    trace', actions' := trace + [Step(Last(trace), a)], actions + [a];
    forall k | 0 <= k < |actions'| ensures Enabled(trace'[k], actions'[k]) && trace'[k + 1] == Step(trace'[k], actions'[k]) {
      if k < |actions| {
        assert trace'[k] == trace[k] && trace'[k + 1] == trace[k + 1];
      }
    }
  }

  const ROW := Intent(10000, "USD", PENDING, STRIPE, Some("pi_1"), "m", 0)

  /** A checkout of 100.00. */
  lemma OneIntent() returns (trace: seq<State>, actions: seq<Action>)
    ensures RunTo(trace, actions, INITIAL.(db := EMPTY.(intents := map["pi" := ROW])))
  {
    WholeCentsExact(10000);
    trace, actions := Extend([INITIAL], [], Checkout("pi", Amount(10000), "USD", STRIPE, Some("pi_1"), "m", 0));
    assert map[]["pi" := ROW] == map["pi" := ROW];
  }

  /** A webhook captures the only intent. */
  lemma Capture(trace: seq<State>, actions: seq<Action>) returns (trace': seq<State>, actions': seq<Action>)
    requires IsRun(trace, actions)
    requires Last(trace).db.intents == map["pi" := ROW] && Last(trace).db.events == map[] && "h" !in Last(trace).hooks
    ensures IsRun(trace', actions') && trace' != []
    ensures |actions'| == |actions| + 1 && actions'[..|actions|] == actions && trace'[..|trace|] == trace
    ensures actions'[|actions|] == OnHook("h", Deliver("evt", "pi", true))
    ensures Last(trace').db.intents == map["pi" := ROW.(status := CAPTURED)]
    ensures Last(trace').db.refunds == Last(trace).db.refunds
    ensures Last(trace').refunding == Last(trace).refunding && Last(trace').passes == Last(trace).passes
  {
    trace', actions' := Extend(trace, actions, OnHook("h", Deliver("evt", "pi", true)));
  }

  /** Reading for a refund of the captured intent, then the provider's SUCCEEDED. */
  lemma OpenWindow(trace: seq<State>, actions: seq<Action>, p: Id, cents: Cents)
    returns (trace': seq<State>, actions': seq<Action>)
    requires IsRun(trace, actions) && p !in Last(trace).refunding && 0 < cents <= 10000
    requires Last(trace).db.intents == map["pi" := ROW.(status := CAPTURED)] && Last(trace).db.refunds == []
    ensures |actions'| == |actions| + 2 && actions'[..|actions|] == actions && |trace'| == |trace| + 2 && trace'[..|trace|] == trace
    ensures actions'[|actions|] == OnRefund(p, Read("pi", Some(Amount(cents)), "m"))
    ensures actions'[|actions| + 1] == OnRefund(p, AskProvider(Some(RefundSucceeded)))
    ensures RunTo(trace', actions', WithRefund(Last(trace), p, Answered(Plan("pi", Amount(cents), 0, 10000), RefundSucceeded)))
  {
    var s := Last(trace);
    BalanceExact(10000, 0);
    var mid, midActions := Extend(trace, actions, OnRefund(p, Read("pi", Some(Amount(cents)), "m")));
    assert Last(mid) == WithRefund(s, p, Planned(Plan("pi", Amount(cents), 0, 10000)));
    trace', actions' := Extend(mid, midActions, OnRefund(p, AskProvider(Some(RefundSucceeded))));
    assert s.refunding[p := Planned(Plan("pi", Amount(cents), 0, 10000))][p := Answered(Plan("pi", Amount(cents), 0, 10000), RefundSucceeded)]
        == s.refunding[p := Answered(Plan("pi", Amount(cents), 0, 10000), RefundSucceeded)];
  }

  /** Turn-taking is needed: two overlapping full refunds of 100.00 pay back 200.00, although
      no reconciliation pass runs at all. */
  lemma OverlappingRefundsOverpay() returns (trace: seq<State>, actions: seq<Action>)
    ensures IsRun(trace, actions) && trace != []
    ensures Last(trace).passes == map[] && "pi" in Last(trace).db.intents
    ensures Refunded(Last(trace).db.refunds, "pi") > Last(trace).db.intents["pi"].amount
  {
    trace, actions := OneIntent();
    trace, actions := Capture(trace, actions);
    trace, actions := OpenWindow(trace, actions, "p", 10000);
    trace, actions := OpenWindow(trace, actions, "q", 10000);
    var s := Last(trace);
    var plan := s.refunding["p"].plan;
    assert plan == s.refunding["q"].plan == Plan("pi", Amount(10000), 0, 10000);
    BalanceExact(10000, 0);
    assert PlanCurrent(s.db, plan);
    trace, actions := Extend(trace, actions, OnRefund("p", CommitRow(true)));
    trace, actions := Extend(trace, actions, OnRefund("q", CommitRow(true)));
    WholeCentsExact(10000);
    OverlapSafeIff(s.db, plan, plan, "p", "q");
  }

  /** A pass that snapshots the PENDING intent and hears the given verdict. */
  lemma HeardBy(trace: seq<State>, actions: seq<Action>, r: Id, told: Verdict)
    returns (trace': seq<State>, actions': seq<Action>)
    requires IsRun(trace, actions) && Last(trace).db.intents == map["pi" := ROW] && r !in Last(trace).passes
    ensures RunTo(trace', actions', Last(trace).(passes := Last(trace).passes[r := LedgerProtocol.Pass([Scanned("pi", ROW)], [], Told(told))]))
  {
    var s := Last(trace);
    assert IsSnapshot(s.db, 0, ["pi"]);
    var mid, midActions := Extend(trace, actions, OnPass(r, Start(0, ["pi"])));
    assert Scan(s.db, ["pi"]) == [Scanned("pi", ROW)];
    trace', actions' := Extend(mid, midActions, OnPass(r, Inquire(Some(told))));
    assert s.passes[r := LedgerProtocol.Pass([Scanned("pi", ROW)], [], AtRow)][r := LedgerProtocol.Pass([Scanned("pi", ROW)], [], Told(told))]
        == s.passes[r := LedgerProtocol.Pass([Scanned("pi", ROW)], [], Told(told))];
  }

  /** Sparing collected payments is needed: a pass that heard FAILED writes it after the webhook
      and a refund, so refunded money sits on a FAILED payment while the ledger itself is settled. */
  lemma BlindPassFailsRefundedPayment() returns (trace: seq<State>, actions: seq<Action>)
    ensures IsRun(trace, actions) && trace != []
    ensures LedgerSettled(Last(trace).db) && !Backed(Last(trace).db)
  {
    trace, actions := RefundedBehindPass();
    trace, actions := Extend(trace, actions, OnPass("r", WriteRow(true)));
    assert Last(trace).db.intents["pi"].status == FAILED;
    assert Last(trace).db.intents.Keys == {"pi"};
  }

  /** A pass hears FAILED; then the webhook captures the intent and 40.00 are refunded. */
  lemma RefundedBehindPass() returns (trace: seq<State>, actions: seq<Action>)
    ensures IsRun(trace, actions) && trace != []
    ensures Last(trace).db.intents == map["pi" := ROW.(status := CAPTURED)] && Refunded(Last(trace).db.refunds, "pi") == 4000
    ensures Last(trace).passes == map["r" := LedgerProtocol.Pass([Scanned("pi", ROW)], [], Told(FAILED))]
  {
    trace, actions := OneIntent();
    trace, actions := HeardBy(trace, actions, "r", FAILED);
    trace, actions := Capture(trace, actions);
    trace, actions := OpenWindow(trace, actions, "p", 4000);
    var s := Last(trace);
    var plan := Plan("pi", Amount(4000), 0, 10000);
    assert s.refunding["p"].plan == plan;
    BalanceExact(10000, 0);
    WholeCentsExact(4000);
    StoredRequestFits(plan);
    CommitMoves(s.db, plan, RefundSucceeded, "p");
    trace, actions := Extend(trace, actions, OnRefund("p", CommitRow(true)));
    assert Last(trace).db == CommitRefund(s.db, plan, RefundSucceeded, "p");
    assert s.db.intents["pi" := ROW.(status := CAPTURED)] == s.db.intents;
  }

  /** A pass that heard CAPTURED writes and announces it. */
  lemma ReportedBy(trace: seq<State>, actions: seq<Action>, r: Id) returns (trace': seq<State>, actions': seq<Action>)
    requires IsRun(trace, actions) && "pi" in Last(trace).db.intents && r in Last(trace).passes
    requires Last(trace).passes[r] == LedgerProtocol.Pass([Scanned("pi", ROW)], [], Told(CAPTURED))
    ensures IsRun(trace', actions') && trace' != []
    ensures Last(trace').db.outbox == Last(trace).db.outbox + [Outbound(PaymentSucceeded, "pi", ByPass(r))]
    ensures Last(trace').db.events == Last(trace).db.events && "pi" in Last(trace').db.intents
    ensures forall q :: q in Last(trace).passes && q != r ==> q in Last(trace').passes && Last(trace').passes[q] == Last(trace).passes[q]
  {
    var mid, midActions := Extend(trace, actions, OnPass(r, WriteRow(true)));
    assert Last(mid).db.outbox == Last(trace).db.outbox && Last(mid).db.events == Last(trace).db.events;
    trace', actions' := Extend(mid, midActions, OnPass(r, AnnounceRow(true)));
  }

  /** Turn-taking of passes is needed: two overlapping passes announce an intent twice although no
      provider event was ever ledgered for it. */
  lemma OverlappingPassesAnnounceTwice() returns (trace: seq<State>, actions: seq<Action>)
    ensures IsRun(trace, actions) && trace != []
    ensures SucceededEvents(Last(trace).db.outbox, "pi") > |LedgeredFor(Last(trace).db.events, "pi")| + 1
  {
    trace, actions := OneIntent();
    trace, actions := HeardBy(trace, actions, "r", CAPTURED);
    trace, actions := HeardBy(trace, actions, "t", CAPTURED);
    trace, actions := ReportedBy(trace, actions, "r");
    trace, actions := ReportedBy(trace, actions, "t");
    var once := [Outbound(PaymentSucceeded, "pi", ByPass("r"))];
    var twice := once + [Outbound(PaymentSucceeded, "pi", ByPass("t"))];
    assert Last(trace).db.outbox == twice && Last(trace).db.events == map[];
    assert twice[..1] == once && once[..0] == [];
    assert LedgeredFor(map[], "pi") == {};
  }
}
