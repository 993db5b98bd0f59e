/** Ledger safety over every interleaved run: no over-refund, REFUNDED means paid back in full,
    and refunded money only on collected payments. */
module RefundSafety {
  import opened Money
  import opened Tables
  import opened Refunds
  import opened LedgerProtocol

  // ----- The ledger of each intent ------------------------------------------------

  /** Succeeded refunds never exceed the amount, and REFUNDED means they reach it exactly. */
  ghost predicate LedgerSettled(db: Db) {
    forall i :: i in db.intents ==> Settled(db.intents[i], Refunded(db.refunds, i))
  }

  ghost predicate PlanCurrent(db: Db, plan: Plan) {
    && plan.intent in db.intents
    && plan.total == db.intents[plan.intent].amount
    && plan.soFar == Refunded(db.refunds, plan.intent)
    && 0.0 < plan.requested <= Amount(plan.total - plan.soFar)
  }

  ghost predicate WindowsCurrent(db: Db, refunding: map<Id, RefundProc>) {
    forall p :: p in refunding && InWindow(refunding[p]) ==> PlanCurrent(db, refunding[p].plan)
  }

  ghost predicate WindowsApart(refunding: map<Id, RefundProc>) {
    forall p, q :: p in refunding && q in refunding && p != q && InWindow(refunding[p]) && InWindow(refunding[q]) ==>
                     refunding[p].plan.intent != refunding[q].plan.intent
  }

  ghost predicate NoOrphans(db: Db) {
    forall i :: i !in db.intents ==> Refunded(db.refunds, i) == 0
  }

  ghost predicate Safe(s: State) {
    LedgerSettled(s.db) && NoOrphans(s.db) && WindowsCurrent(s.db, s.refunding) && WindowsApart(s.refunding)
  }

  /** The hypothesis: no refund opens its window on an intent whose window is already open. */
  ghost predicate RefundsTakeTurns(s: State, a: Action)
    requires Enabled(s, a)
  {
    a.OnRefund? && a.refund.Read? && PlanRefund(s.db, a.refund.intent, a.refund.requested, a.refund.merchantId).Success? ==>
      forall q :: q in s.refunding && InWindow(s.refunding[q]) ==> s.refunding[q].plan.intent != a.refund.intent
  }

  /** Changes of status other than to REFUNDED, with refund rows and refund requests untouched. */
  ghost predicate OnlyStatusesMoved(db: Db, db': Db) {
    && db'.refunds == db.refunds && db'.intents.Keys == db.intents.Keys
    && forall i :: i in db.intents ==>
         && db'.intents[i].amount == db.intents[i].amount
         && (db'.intents[i].status == REFUNDED ==> db.intents[i].status == REFUNDED)
  }

  lemma StatusMovesKeepSafe(s: State, s': State)
    requires Safe(s) && OnlyStatusesMoved(s.db, s'.db) && s'.refunding == s.refunding
    ensures Safe(s')
  {
  }

  lemma ReadKeepsSafe(s: State, p: Id, a: RefundAction)
    requires Safe(s) && a.Read? && RefundEnabled(s, p, a) && RefundsTakeTurns(s, OnRefund(p, a))
    ensures Safe(RefundStep(s, p, a))
  {
    if PlanRefund(s.db, a.intent, a.requested, a.merchantId).Success? {
      PlanMeaning(s.db, a.intent, a.requested, a.merchantId);
    }
  }

  /** A plan stays current while its intent's amount and refunded total do. */
  lemma PlanStaysCurrent(db: Db, db': Db, plan: Plan)
    requires PlanCurrent(db, plan)
    requires plan.intent in db'.intents && db'.intents[plan.intent].amount == db.intents[plan.intent].amount
    requires Refunded(db'.refunds, plan.intent) == Refunded(db.refunds, plan.intent)
    ensures PlanCurrent(db', plan)
  {
  }

  /** A ledger stays settled while its intent and refunded total do. */
  lemma OneLedgerMoves(db: Db, db': Db, i: Id)
    requires LedgerSettled(db) && NoOrphans(db) && i in db.intents && db'.intents.Keys == db.intents.Keys
    requires forall j :: j in db.intents && j != i ==> db'.intents[j] == db.intents[j]
    requires forall j :: j != i ==> Refunded(db'.refunds, j) == Refunded(db.refunds, j)
    requires Settled(db'.intents[i], Refunded(db'.refunds, i))
    ensures LedgerSettled(db') && NoOrphans(db')
  {
  }

  /** Committing a current plan keeps the ledger of every intent. */
  lemma CommitKeepsLedger(db: Db, plan: Plan, status: RefundStatus, request: Id)
    requires LedgerSettled(db) && NoOrphans(db) && PlanCurrent(db, plan)
    ensures var after := CommitRefund(db, plan, status, request); LedgerSettled(after) && NoOrphans(after)
  {
    BalanceExact(plan.total, plan.soFar);
    CurrentCommit(db, plan, status, request);
    CommitMoves(db, plan, status, request);
    OneLedgerMoves(db, CommitRefund(db, plan, status, request), plan.intent);
  }

  /** And every plan on another intent current. */
  lemma CommitKeepsOtherPlans(db: Db, plan: Plan, status: RefundStatus, request: Id, other: Plan)
    requires plan.intent in db.intents && PlanCurrent(db, other) && other.intent != plan.intent
    ensures PlanCurrent(CommitRefund(db, plan, status, request), other)
  {
    CommitMoves(db, plan, status, request);
    PlanStaysCurrent(db, CommitRefund(db, plan, status, request), other);
  }

  lemma LeavingKeepsApart(refunding: map<Id, RefundProc>, p: Id, proc: RefundProc)
    requires WindowsApart(refunding) && !InWindow(proc)
    ensures WindowsApart(refunding[p := proc])
  {
  }

  lemma CommitKeepsSafe(s: State, s': State, p: Id, status: RefundStatus)
    requires Safe(s) && p in s.refunding && InWindow(s.refunding[p])
    requires var plan := s.refunding[p].plan;
             && plan.intent in s.db.intents
             && s'.db == CommitRefund(s.db, plan, status, p)
             && s'.refunding == s.refunding[p := Committed(plan)]
    ensures Safe(s')
  {
    CommitKeepsLedger(s.db, s.refunding[p].plan, status, p);
    LeavingKeepsApart(s.refunding, p, Committed(s.refunding[p].plan));
    forall q | q in s'.refunding && InWindow(s'.refunding[q]) ensures PlanCurrent(s'.db, s'.refunding[q].plan) {
      assert q != p && s.refunding[q] == s'.refunding[q];
      CommitKeepsOtherPlans(s.db, s.refunding[p].plan, status, p, s.refunding[q].plan);
    }
  }

  /** A checkout opens a PENDING intent of at least 1.00, to the nearest cent of the amount asked for,
      and touches nothing else. */
  lemma CheckoutOpens(s: State, a: Action)
    requires a.Checkout? && Enabled(s, a)
    ensures var s' := CheckedOut(s, a);
            && a.id !in s.db.intents && s'.db.intents.Keys == s.db.intents.Keys + {a.id}
            && (forall i :: i in s.db.intents ==> s'.db.intents[i] == s.db.intents[i])
            && s'.db.intents[a.id].status == PENDING && s'.db.intents[a.id].amount >= 100
            && Amount(s'.db.intents[a.id].amount) - 0.005 <= a.amount < Amount(s'.db.intents[a.id].amount) + 0.005
            && s'.db.refunds == s.db.refunds && s'.db.events == s.db.events && s'.db.outbox == s.db.outbox
  {
    RoundMeaning(a.amount);
  }

  lemma CheckoutKeepsSafe(s: State, a: Action)
    requires Safe(s) && a.Checkout? && Enabled(s, a)
    ensures Safe(CheckedOut(s, a))
  {
  }

  /** A refund request that moves on without touching a row, or leaves. */
  lemma ProgressKeepsSafe(s: State, s': State, p: Id, proc: RefundProc)
    requires Safe(s) && p in s.refunding
    requires s'.db.intents == s.db.intents && s'.db.refunds == s.db.refunds
    requires s'.refunding == s.refunding[p := proc]
    requires InWindow(proc) ==> InWindow(s.refunding[p]) && proc.plan == s.refunding[p].plan
    ensures Safe(s')
  {
  }

  lemma StatusWriteOnlyMoves(db: Db, id: Id, status: PaymentStatus)
    requires id in db.intents && status != REFUNDED
    ensures OnlyStatusesMoved(db, WithStatus(db, id, status))
  {
  }

  lemma HooksOnlyMoveStatuses(s: State, p: Id, a: HookAction)
    requires HookEnabled(s, p, a)
    ensures OnlyStatusesMoved(s.db, HookStep(s, p, a).db) && HookStep(s, p, a).refunding == s.refunding
  {
    if a.Deliver? && a.intent in s.db.intents {
      StatusWriteOnlyMoves(s.db, a.intent, CAPTURED);
    }
  }

  lemma PassesOnlyMoveStatuses(s: State, p: Id, a: PassAction)
    requires PassEnabled(s, p, a)
    ensures OnlyStatusesMoved(s.db, PassStep(s, p, a).db) && PassStep(s, p, a).refunding == s.refunding
  {
    var written := PassWrite(s, p, a);
    if written.Some? {
      StatusWriteOnlyMoves(s.db, RowInHand(s, p).id, written.value);
    }
  }

  lemma StepKeepsSafe(s: State, a: Action)
    requires Safe(s) && Enabled(s, a) && RefundsTakeTurns(s, a)
    ensures Safe(Step(s, a))
  {
    match a
    case Checkout(_, _, _, _, _, _, _) => CheckoutKeepsSafe(s, a);
    case OnRefund(p, refund) =>
      if refund.Read? {
        ReadKeepsSafe(s, p, refund);
      } else if refund.CommitRow? && refund.ok {
        CommitKeepsSafe(s, RefundStep(s, p, refund), p, s.refunding[p].status);
      } else {
        ProgressKeepsSafe(s, RefundStep(s, p, refund), p, RefundStep(s, p, refund).refunding[p]);
      }
    case OnHook(p, hook) =>
      HooksOnlyMoveStatuses(s, p, hook);
      StatusMovesKeepSafe(s, HookStep(s, p, hook));
    case OnPass(p, pass) =>
      PassesOnlyMoveStatuses(s, p, pass);
      StatusMovesKeepSafe(s, PassStep(s, p, pass));
  }

  // ----- Exactly when a run stays within the amounts ------------------------------

  ghost predicate WithinAmounts(db: Db) {
    forall i :: i in db.intents ==> Refunded(db.refunds, i) <= db.intents[i].amount
  }

  /** The check the code does not make: at its commit, a SUCCEEDED refund still fits the balance. */
  ghost predicate CommitFits(s: State, a: Action)
    requires Enabled(s, a)
  {
    a.OnRefund? && a.refund == CommitRow(true) && s.refunding[a.p].status == RefundSucceeded ==>
      var plan := s.refunding[a.p].plan;
      Refunded(s.db.refunds, plan.intent) + StoreDecimal(plan.requested) <= s.db.intents[plan.intent].amount
  }

  lemma CommitWithinIff(s: State, p: Id)
    requires RefundEnabled(s, p, CommitRow(true)) && WithinAmounts(s.db) && NoOrphans(s.db)
    ensures WithinAmounts(CommittedRow(s, p).db) <==> CommitFits(s, OnRefund(p, CommitRow(true)))
    ensures NoOrphans(CommittedRow(s, p).db)
  {
    var plan := s.refunding[p].plan;
    CommitMoves(s.db, plan, s.refunding[p].status, p);
    var db' := CommittedRow(s, p).db;
    assert db' == CommitRefund(s.db, plan, s.refunding[p].status, p);
    assert forall i :: i in s.db.intents ==> db'.intents[i].amount == s.db.intents[i].amount;
  }

  /** Everything else leaves refund rows and amounts as they are; a new intent starts empty. */
  lemma OthersStayWithin(s: State, a: Action)
    requires Enabled(s, a) && WithinAmounts(s.db) && NoOrphans(s.db) && !(a.OnRefund? && a.refund == CommitRow(true))
    ensures WithinAmounts(Step(s, a).db) && NoOrphans(Step(s, a).db)
  {
    match a
    case Checkout(_, amount, _, _, _, _, _) => RoundMonotone(0.0, amount * 100.0);
    case OnRefund(p, refund) => assert RefundStep(s, p, refund).db.intents == s.db.intents && RefundStep(s, p, refund).db.refunds == s.db.refunds;
    case OnHook(p, hook) => HooksOnlyMoveStatuses(s, p, hook);
    case OnPass(p, pass) => PassesOnlyMoveStatuses(s, p, pass);
  }

  lemma StepWithinIff(s: State, a: Action)
    requires Enabled(s, a) && WithinAmounts(s.db) && NoOrphans(s.db)
    ensures WithinAmounts(Step(s, a).db) <==> CommitFits(s, a)
    ensures NoOrphans(Step(s, a).db)
  {
    if a.OnRefund? && a.refund == CommitRow(true) {
      CommitWithinIff(s, a.p);
    } else {
      OthersStayWithin(s, a);
    }
  }

  /** Without any hypothesis: a run never pays back more than was paid, on any intent at any time,
      exactly when every SUCCEEDED refund still fits the balance at the moment it is committed. */
  lemma {:induction false} WithinAmountsIffCommitsFit(trace: seq<State>, actions: seq<Action>)
    requires IsRun(trace, actions)
    ensures (forall k :: 0 <= k < |trace| ==> WithinAmounts(trace[k].db))
            <==> (forall k :: 0 <= k < |actions| ==> CommitFits(trace[k], actions[k]))
  {
    var n := 0;
    while n < |actions| && CommitFits(trace[n], actions[n])
      invariant 0 <= n <= |actions|
      invariant forall j :: 0 <= j <= n ==> WithinAmounts(trace[j].db)
      invariant forall j :: 0 <= j < n ==> CommitFits(trace[j], actions[j])
      invariant NoOrphans(trace[n].db)
    {
      StepWithinIff(trace[n], actions[n]);
      n := n + 1;
    }
    if n < |actions| {
      StepWithinIff(trace[n], actions[n]);
      assert !WithinAmounts(trace[n + 1].db);
    }
  }

  // ----- REFUNDED never falls short, and exactly when the whole ledger holds --------

  /** An open window read a total that has only grown since, and a request that fitted then. */
  ghost predicate PlanSound(db: Db, plan: Plan) {
    && plan.intent in db.intents
    && plan.total == db.intents[plan.intent].amount
    && plan.soFar <= Refunded(db.refunds, plan.intent)
    && 0.0 < plan.requested <= Amount(plan.total - plan.soFar)
  }

  ghost predicate WindowsSound(db: Db, refunding: map<Id, RefundProc>) {
    forall p :: p in refunding && InWindow(refunding[p]) ==> PlanSound(db, refunding[p].plan)
  }

  /** A REFUNDED intent has paid back at least its amount. */
  ghost predicate PaidBack(db: Db) {
    && (forall i :: Refunded(db.refunds, i) >= 0)
    && (forall i :: i in db.intents && db.intents[i].status == REFUNDED ==> Refunded(db.refunds, i) >= db.intents[i].amount)
  }

  ghost predicate NeverShort(s: State) {
    PaidBack(s.db) && WindowsSound(s.db, s.refunding)
  }

  /** Committing a sound plan: if it completes the refund, the total is reached. */
  lemma CommitPaysBack(db: Db, plan: Plan, status: RefundStatus, request: Id)
    requires PaidBack(db) && PlanSound(db, plan)
    ensures PaidBack(CommitRefund(db, plan, status, request))
    ensures forall i :: Refunded(CommitRefund(db, plan, status, request).refunds, i) >= Refunded(db.refunds, i)
  {
    BalanceExact(plan.total, plan.soFar);
    CommitMoves(db, plan, status, request);
    StoredRequestFits(plan);
  }

  /** A plan stays sound while its intent's amount stays and its refunded total only grows. */
  lemma PlanStaysSound(db: Db, db': Db, plan: Plan)
    requires PlanSound(db, plan)
    requires plan.intent in db'.intents && db'.intents[plan.intent].amount == db.intents[plan.intent].amount
    requires Refunded(db'.refunds, plan.intent) >= Refunded(db.refunds, plan.intent)
    ensures PlanSound(db', plan)
  {
  }

  lemma CommitNeverShort(s: State, p: Id)
    requires NeverShort(s) && RefundEnabled(s, p, CommitRow(true))
    ensures NeverShort(CommittedRow(s, p))
  {
    var plan, status, s' := s.refunding[p].plan, s.refunding[p].status, CommittedRow(s, p);
    CommitMoves(s.db, plan, status, p);
    CommitPaysBack(s.db, plan, status, p);
    assert s'.db == CommitRefund(s.db, plan, status, p);
    forall q | q in s'.refunding && InWindow(s'.refunding[q]) ensures PlanSound(s'.db, s'.refunding[q].plan) {
      PlanStaysSound(s.db, s'.db, s.refunding[q].plan);
    }
  }

  lemma ReadNeverShort(s: State, p: Id, a: RefundAction)
    requires NeverShort(s) && a.Read? && RefundEnabled(s, p, a)
    ensures NeverShort(RefundStep(s, p, a))
  {
    var s' := RefundStep(s, p, a);
    if PlanRefund(s.db, a.intent, a.requested, a.merchantId).Success? {
      PlanMeaning(s.db, a.intent, a.requested, a.merchantId);
    }
    forall q | q in s'.refunding && InWindow(s'.refunding[q]) ensures PlanSound(s'.db, s'.refunding[q].plan) {
      assert q != p ==> PlanSound(s.db, s.refunding[q].plan);
    }
  }

  /** Everything else leaves refund rows, amounts and plans alone, and no intent newly REFUNDED. */
  lemma OthersNeverShort(s: State, s': State)
    requires NeverShort(s) && s'.db.refunds == s.db.refunds
    requires forall i :: i in s.db.intents ==> i in s'.db.intents && s'.db.intents[i].amount == s.db.intents[i].amount
    requires forall i :: i in s'.db.intents && s'.db.intents[i].status == REFUNDED ==> i in s.db.intents && s.db.intents[i].status == REFUNDED
    requires forall q :: q in s'.refunding && InWindow(s'.refunding[q]) ==>
               q in s.refunding && InWindow(s.refunding[q]) && s'.refunding[q].plan == s.refunding[q].plan
    ensures NeverShort(s')
  {
    forall q | q in s'.refunding && InWindow(s'.refunding[q]) ensures PlanSound(s'.db, s'.refunding[q].plan) {
      PlanStaysSound(s.db, s'.db, s.refunding[q].plan);
    }
  }

  lemma RefundNeverShort(s: State, p: Id, a: RefundAction)
    requires NeverShort(s) && RefundEnabled(s, p, a)
    ensures NeverShort(RefundStep(s, p, a))
  {
    if a.Read? {
      ReadNeverShort(s, p, a);
    } else if a == CommitRow(true) {
      CommitNeverShort(s, p);
    } else {
      OthersNeverShort(s, RefundStep(s, p, a));
    }
  }

  lemma HookNeverShort(s: State, p: Id, a: HookAction)
    requires NeverShort(s) && HookEnabled(s, p, a)
    ensures NeverShort(HookStep(s, p, a))
  {
    HooksOnlyMoveStatuses(s, p, a);
    OthersNeverShort(s, HookStep(s, p, a));
  }

  lemma PassNeverShort(s: State, p: Id, a: PassAction)
    requires NeverShort(s) && PassEnabled(s, p, a)
    ensures NeverShort(PassStep(s, p, a))
  {
    PassesOnlyMoveStatuses(s, p, a);
    OthersNeverShort(s, PassStep(s, p, a));
  }

  lemma StepNeverShort(s: State, a: Action)
    requires NeverShort(s) && Enabled(s, a)
    ensures NeverShort(Step(s, a))
  {
    match a
    case Checkout(_, _, _, _, _, _, _) => OthersNeverShort(s, CheckedOut(s, a));
    case OnRefund(p, refund) => RefundNeverShort(s, p, refund);
    case OnHook(p, hook) => HookNeverShort(s, p, hook);
    case OnPass(p, pass) => PassNeverShort(s, p, pass);
  }

  /** Without any hypothesis: REFUNDED never falls short of the amount, even when refunds overlap. */
  lemma {:induction false} RefundedMeansPaidBack(trace: seq<State>, actions: seq<Action>)
    requires IsRun(trace, actions)
    ensures forall k :: 0 <= k < |trace| ==> NeverShort(trace[k])
  {
    for k := 0 to |actions|
      invariant forall j :: 0 <= j <= k ==> NeverShort(trace[j])
    {
      StepNeverShort(trace[k], actions[k]);
    }
  }

  /** Both halves of the ledger at once: in a run, refunds never exceed the amount and REFUNDED means
      they equal it, at all times, exactly when every SUCCEEDED refund still fits at its commit. */
  lemma LedgerSettledIffCommitsFit(trace: seq<State>, actions: seq<Action>)
    requires IsRun(trace, actions)
    ensures (forall k, i :: 0 <= k < |trace| && i in trace[k].db.intents ==>
               var row, refunded := trace[k].db.intents[i], Refunded(trace[k].db.refunds, i);
               0 <= refunded <= row.amount && (row.status == REFUNDED ==> refunded == row.amount))
            <==> (forall k :: 0 <= k < |actions| ==> CommitFits(trace[k], actions[k]))
    ensures (forall k :: 0 <= k < |trace| ==> LedgerSettled(trace[k].db))
            <==> (forall k :: 0 <= k < |actions| ==> CommitFits(trace[k], actions[k]))
  {
    RefundedMeansPaidBack(trace, actions);
    WithinAmountsIffCommitsFit(trace, actions);
    forall k | 0 <= k < |trace| ensures LedgerSettled(trace[k].db) <==> WithinAmounts(trace[k].db) {
      SettledIffWithin(trace[k].db);
    }
    SettledThroughout(trace);
  }

  lemma SettledThroughout(trace: seq<State>)
    ensures (forall k, i :: 0 <= k < |trace| && i in trace[k].db.intents ==>
               var row, refunded := trace[k].db.intents[i], Refunded(trace[k].db.refunds, i);
               0 <= refunded <= row.amount && (row.status == REFUNDED ==> refunded == row.amount))
            <==> (forall k :: 0 <= k < |trace| ==> LedgerSettled(trace[k].db))
  {
  }

  lemma SettledIffWithin(db: Db)
    requires PaidBack(db)
    ensures LedgerSettled(db) <==> WithinAmounts(db)
  {
    if WithinAmounts(db) {
      forall i | i in db.intents ensures Settled(db.intents[i], Refunded(db.refunds, i)) {
      }
    }
    if LedgerSettled(db) {
      forall i | i in db.intents ensures Refunded(db.refunds, i) <= db.intents[i].amount {
        assert Settled(db.intents[i], Refunded(db.refunds, i));
      }
    }
  }

  /** Safety of every run in which refunds of one intent take turns, whatever webhooks,
      reconciliation passes, failures and crashes interleave. */
  lemma {:induction false} RefundLedgerSafety(trace: seq<State>, actions: seq<Action>)
    requires IsRun(trace, actions)
    requires forall k :: 0 <= k < |actions| ==> RefundsTakeTurns(trace[k], actions[k])
    ensures forall k :: 0 <= k < |trace| ==> Safe(trace[k])
    ensures forall k, i :: 0 <= k < |trace| && i in trace[k].db.intents ==>
              var row, refunded := trace[k].db.intents[i], Refunded(trace[k].db.refunds, i);
              0 <= refunded <= row.amount && (row.status == REFUNDED ==> refunded == row.amount)
  {
    for k := 0 to |actions|
      invariant forall j :: 0 <= j <= k ==> Safe(trace[j])
    {
      StepKeepsSafe(trace[k], actions[k]);
    }
    SettledThroughout(trace);
  }
}
