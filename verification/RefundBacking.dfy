/** Refunded money sits on collected payments only, as long as no reconciliation pass writes FAILED
    over a payment collected behind its back; and how many refunds an intent can take. */
module RefundBacking {
  import opened Prelude
  import opened Money
  import opened Tables
  import opened Refunds
  import opened Webhooks
  import opened LedgerProtocol
  import opened RefundSafety

  // ----- Succeeded refunds exist only on CAPTURED or REFUNDED intents --------------

  ghost predicate CollectedIntent(db: Db, i: Id) {
    i in db.intents && Collected(db.intents[i].status)
  }

  ghost predicate Backed(db: Db) {
    forall i :: Refunded(db.refunds, i) != 0 ==> CollectedIntent(db, i)
  }

  ghost predicate WindowsBacked(db: Db, refunding: map<Id, RefundProc>) {
    forall p :: p in refunding && InWindow(refunding[p]) ==> CollectedIntent(db, refunding[p].plan.intent)
  }

  ghost predicate AllBacked(s: State) {
    Backed(s.db) && WindowsBacked(s.db, s.refunding)
  }

  /** The hypothesis: a pass does not write FAILED over a payment that is collected by now. */
  ghost predicate PassesSpareCollected(s: State, a: Action)
    requires Enabled(s, a)
  {
    a.OnPass? && PassWrite(s, a.p, a.pass) == Some(FAILED) ==> !CollectedIntent(s.db, RowInHand(s, a.p).id)
  }

  /** What keeps the invariant: refund rows as they were, collected intents still collected. */
  ghost predicate StillCollected(db: Db, db': Db) {
    forall i :: CollectedIntent(db, i) ==> CollectedIntent(db', i)
  }

  lemma StillCollectedKeepsBacked(s: State, s': State)
    requires AllBacked(s) && StillCollected(s.db, s'.db)
    requires s'.db.refunds == s.db.refunds
    requires forall p :: p in s'.refunding && InWindow(s'.refunding[p]) ==>
               || CollectedIntent(s.db, s'.refunding[p].plan.intent)
               || (p in s.refunding && InWindow(s.refunding[p]) && s'.refunding[p].plan == s.refunding[p].plan)
    ensures AllBacked(s')
  {
  }

  lemma CommitKeepsBacked(s: State, p: Id)
    requires AllBacked(s) && RefundEnabled(s, p, CommitRow(true))
    ensures AllBacked(CommittedRow(s, p))
  {
    var plan, s' := s.refunding[p].plan, CommittedRow(s, p);
    CommitMoves(s.db, plan, s.refunding[p].status, p);
    assert CollectedIntent(s.db, plan.intent);
    assert StillCollected(s.db, s'.db);
  }

  lemma RefundKeepsBacked(s: State, p: Id, a: RefundAction)
    requires AllBacked(s) && RefundEnabled(s, p, a)
    ensures AllBacked(RefundStep(s, p, a))
  {
    if a.CommitRow? && a.ok {
      CommitKeepsBacked(s, p);
    } else {
      StillCollectedKeepsBacked(s, RefundStep(s, p, a));
    }
  }

  lemma PassKeepsBacked(s: State, p: Id, a: PassAction)
    requires AllBacked(s) && PassEnabled(s, p, a) && PassesSpareCollected(s, OnPass(p, a))
    ensures AllBacked(PassStep(s, p, a))
  {
    StillCollectedKeepsBacked(s, PassStep(s, p, a));
  }

  lemma StepKeepsBacked(s: State, a: Action)
    requires AllBacked(s) && Enabled(s, a) && PassesSpareCollected(s, a)
    ensures AllBacked(Step(s, a))
  {
    match a
    case Checkout(_, _, _, _, _, _, _) => StillCollectedKeepsBacked(s, CheckedOut(s, a));
    case OnRefund(p, refund) => RefundKeepsBacked(s, p, refund);
    case OnHook(p, hook) => StillCollectedKeepsBacked(s, HookStep(s, p, hook));
    case OnPass(p, pass) => PassKeepsBacked(s, p, pass);
  }

  /** Overlapping refunds are allowed here: only reconciliation's blind writes matter. */
  lemma {:induction false} RefundsBackedByPayments(trace: seq<State>, actions: seq<Action>)
    requires IsRun(trace, actions)
    requires forall k :: 0 <= k < |actions| ==> PassesSpareCollected(trace[k], actions[k])
    ensures forall k :: 0 <= k < |trace| ==> AllBacked(trace[k])
    ensures forall k, i :: 0 <= k < |trace| && Refunded(trace[k].db.refunds, i) != 0 ==>
              i in trace[k].db.intents && (trace[k].db.intents[i].status == CAPTURED || trace[k].db.intents[i].status == REFUNDED)
  {
    for k := 0 to |actions|
      invariant forall j :: 0 <= j <= k ==> AllBacked(trace[j])
    {
      StepKeepsBacked(trace[k], actions[k]);
    }
    forall k, i | 0 <= k < |trace| && Refunded(trace[k].db.refunds, i) != 0
      ensures i in trace[k].db.intents && (trace[k].db.intents[i].status == CAPTURED || trace[k].db.intents[i].status == REFUNDED)
    {
      assert AllBacked(trace[k]) && CollectedIntent(trace[k].db, i);
    }
  }

  // ----- Exactly when refunded money stays backed ----------------------------------

  /** What the writers do not check: a FAILED written by a pass finds nothing refunded, and a refund
      that moves money finds its payment collected, unless it completes it. */
  ghost predicate KeepsBacking(s: State, a: Action)
    requires Enabled(s, a)
  {
    && (a.OnPass? && PassWrite(s, a.p, a.pass) == Some(FAILED) ==> Refunded(s.db.refunds, RowInHand(s, a.p).id) == 0)
    && (a.OnRefund? && a.refund == CommitRow(true) && s.refunding[a.p].status == RefundSucceeded ==>
          var plan := s.refunding[a.p].plan;
          StoreDecimal(plan.requested) == 0 || CollectedIntent(s.db, plan.intent) || IsFullyRefunded(plan))
  }

  lemma CommitBackedIff(s: State, p: Id)
    requires Backed(s.db) && RefundEnabled(s, p, CommitRow(true))
    ensures Backed(CommittedRow(s, p).db) <==> KeepsBacking(s, OnRefund(p, CommitRow(true)))
  {
    var plan, db' := s.refunding[p].plan, CommittedRow(s, p).db;
    CommitMoves(s.db, plan, s.refunding[p].status, p);
    assert db' == CommitRefund(s.db, plan, s.refunding[p].status, p);
    assert forall i :: i != plan.intent ==> (CollectedIntent(db', i) <==> CollectedIntent(s.db, i));
    assert !CollectedIntent(s.db, plan.intent) ==> Refunded(s.db.refunds, plan.intent) == 0;
  }

  lemma PassBackedIff(s: State, p: Id, a: PassAction)
    requires Backed(s.db) && PassEnabled(s, p, a)
    ensures Backed(PassStep(s, p, a).db) <==> KeepsBacking(s, OnPass(p, a))
  {
    var db' := PassStep(s, p, a).db;
    PassesOnlyMoveStatuses(s, p, a);
    PassWritesRowInHand(s, p, a);
    if PassWrite(s, p, a).Some? {
      var id := RowInHand(s, p).id;
      assert forall i :: i != id ==> (CollectedIntent(db', i) <==> CollectedIntent(s.db, i));
    }
  }

  lemma StepBackedIff(s: State, a: Action)
    requires Backed(s.db) && Enabled(s, a)
    ensures Backed(Step(s, a).db) <==> KeepsBacking(s, a)
  {
    match a
    case Checkout(_, _, _, _, _, _, _) =>
    case OnRefund(p, refund) =>
      if refund == CommitRow(true) {
        CommitBackedIff(s, p);
      } else {
        assert RefundStep(s, p, refund).db.intents == s.db.intents && RefundStep(s, p, refund).db.refunds == s.db.refunds;
      }
    case OnHook(p, hook) => assert StillCollected(s.db, HookStep(s, p, hook).db) && HookStep(s, p, hook).db.refunds == s.db.refunds;
    case OnPass(p, pass) => PassBackedIff(s, p, pass);
  }

  /** Without any hypothesis: refunded money always sits on collected payments exactly when every
      write of a run keeps it backed at the moment it is made. */
  lemma {:induction false} BackedIffWritesKeepBacking(trace: seq<State>, actions: seq<Action>)
    requires IsRun(trace, actions)
    ensures (forall k :: 0 <= k < |trace| ==> Backed(trace[k].db))
            <==> (forall k :: 0 <= k < |actions| ==> KeepsBacking(trace[k], actions[k]))
  {
    var n := 0;
    while n < |actions| && KeepsBacking(trace[n], actions[n])
      invariant 0 <= n <= |actions|
      invariant forall j :: 0 <= j <= n ==> Backed(trace[j].db)
      invariant forall j :: 0 <= j < n ==> KeepsBacking(trace[j], actions[j])
    {
      StepBackedIff(trace[n], actions[n]);
      n := n + 1;
    }
    if n < |actions| {
      StepBackedIff(trace[n], actions[n]);
      assert !Backed(trace[n + 1].db);
    }
  }

  // ----- Snapshot-to-write windows -------------------------------------------------

  /** Row j of the pass's snapshot is still to be written. */
  predicate Unwritten(proc: PassProc, j: int) {
    proc.Pass? && |proc.done| <= j < |proc.rows| && (proc.stage.Written? ==> j != |proc.done|)
  }

  /** Some pass other than `except` has intent i between its snapshot and its write. */
  ghost predicate HeldByPass(passes: map<Id, PassProc>, i: Id, except: Option<Id>) {
    exists q, j :: q in passes && Some(q) != except && Unwritten(passes[q], j) && passes[q].rows[j].id == i
  }

  /** The hypothesis, literally: no status write falls into another pass's snapshot-to-write window. */
  ghost predicate PassWindowsExclusive(s: State, a: Action)
    requires Enabled(s, a)
  {
    |Step(s, a).writes| > |s.writes| ==>
      !HeldByPass(s.passes, Step(s, a).writes[|s.writes|].intent, if a.OnPass? then Some(a.p) else None)
  }

  ghost predicate HeldRowsPending(s: State) {
    forall q, j :: q in s.passes && Unwritten(s.passes[q], j) ==>
      s.passes[q].rows[j].id in s.db.intents && s.db.intents[s.passes[q].rows[j].id].status == PENDING
  }

  ghost predicate RowsDistinct(passes: map<Id, PassProc>) {
    forall q, j, k :: q in passes && passes[q].Pass? && 0 <= j < k < |passes[q].rows| ==>
      passes[q].rows[j].id != passes[q].rows[k].id
  }

  /** Rows held by passes other than the one that moves. */
  lemma OtherHoldersKeepPending(s: State, s': State, q: Id, j: int, except: Option<Id>)
    requires HeldRowsPending(s) && q in s.passes && Some(q) != except && Unwritten(s.passes[q], j)
    requires s.db.intents.Keys <= s'.db.intents.Keys
    requires forall i :: i in s.db.intents && s'.db.intents[i].status != s.db.intents[i].status ==> !HeldByPass(s.passes, i, except)
    ensures s.passes[q].rows[j].id in s'.db.intents && s'.db.intents[s.passes[q].rows[j].id].status == PENDING
  {
  }

  /** A step that leaves the passes alone and moves at most one status, which no pass holds. */
  lemma OneStatusMovesElsewhere(s: State, s': State, moved: Option<Id>)
    requires HeldRowsPending(s) && s'.passes == s.passes && s.db.intents.Keys <= s'.db.intents.Keys
    requires forall i :: i in s.db.intents && Some(i) != moved ==> s'.db.intents[i].status == s.db.intents[i].status
    requires moved.Some? ==> !HeldByPass(s.passes, moved.value, None)
    ensures HeldRowsPending(s')
  {
    forall q, j | q in s.passes && Unwritten(s.passes[q], j)
      ensures s.passes[q].rows[j].id in s'.db.intents && s'.db.intents[s.passes[q].rows[j].id].status == PENDING
    {
      OtherHoldersKeepPending(s, s', q, j, None);
    }
  }

  lemma HookKeepsHeldPending(s: State, p: Id, a: HookAction)
    requires HeldRowsPending(s) && HookEnabled(s, p, a)
    requires |HookStep(s, p, a).writes| > |s.writes| ==> !HeldByPass(s.passes, HookStep(s, p, a).writes[|s.writes|].intent, None)
    ensures HeldRowsPending(HookStep(s, p, a))
  {
    var recorded := a.Deliver? && a.ok && RecordEvent(s.db, a.event, a.intent).Fresh?;
    OneStatusMovesElsewhere(s, HookStep(s, p, a), if recorded then Some(a.intent) else None);
  }

  lemma RefundKeepsHeldPending(s: State, p: Id, a: RefundAction)
    requires HeldRowsPending(s) && RefundEnabled(s, p, a)
    requires |RefundStep(s, p, a).writes| > |s.writes| ==> !HeldByPass(s.passes, RefundStep(s, p, a).writes[|s.writes|].intent, None)
    ensures HeldRowsPending(RefundStep(s, p, a))
  {
    if a == CommitRow(true) {
      var plan, status := s.refunding[p].plan, s.refunding[p].status;
      CommitMoves(s.db, plan, status, p);
      OneStatusMovesElsewhere(s, CommittedRow(s, p), if IsFullyRefunded(plan) && status == RefundSucceeded then Some(plan.intent) else None);
    } else {
      OneStatusMovesElsewhere(s, RefundStep(s, p, a), None);
    }
  }

  lemma OthersKeepHeldPending(s: State, a: Action)
    requires HeldRowsPending(s) && RowsDistinct(s.passes) && Enabled(s, a) && !a.OnPass? && PassWindowsExclusive(s, a)
    ensures HeldRowsPending(Step(s, a)) && RowsDistinct(Step(s, a).passes)
  {
    match a
    case Checkout(_, _, _, _, _, _, _) => OneStatusMovesElsewhere(s, CheckedOut(s, a), None);
    case OnRefund(p, refund) => RefundKeepsHeldPending(s, p, refund);
    case OnHook(p, hook) => HookKeepsHeldPending(s, p, hook);
  }

  lemma StartKeepsHeldPending(s: State, p: Id, a: PassAction)
    requires HeldRowsPending(s) && RowsDistinct(s.passes) && a.Start? && PassEnabled(s, p, a)
    ensures HeldRowsPending(PassStep(s, p, a)) && RowsDistinct(PassStep(s, p, a).passes)
  {
  }

  /** A pass that moves on holds fewer of the same rows. */
  lemma PassProgress(s: State, p: Id, a: PassAction)
    requires PassEnabled(s, p, a) && !a.Start?
    ensures var s' := PassStep(s, p, a);
            && s'.passes.Keys == s.passes.Keys
            && (forall q :: q in s.passes && q != p ==> s'.passes[q] == s.passes[q])
            && (s'.passes[p].Pass? ==> s'.passes[p].rows == s.passes[p].rows)
            && (forall j :: Unwritten(s'.passes[p], j) ==> Unwritten(s.passes[p], j))
            && (forall j :: PassWrite(s, p, a).Some? && Unwritten(s'.passes[p], j) ==> j != |s.passes[p].done|)
  {
  }

  /** What it writes is the row in hand. */
  lemma PassWritesRowInHand(s: State, p: Id, a: PassAction)
    requires PassEnabled(s, p, a)
    ensures var s' := PassStep(s, p, a);
            if PassWrite(s, p, a).Some?
            then && s'.db.intents == WithStatus(s.db, RowInHand(s, p).id, PassWrite(s, p, a).value).intents
                 && s'.writes == s.writes + [StatusWrite(RowInHand(s, p).id, PassWrite(s, p, a).value, ByPass(p))]
            else s'.db.intents == s.db.intents && s'.writes == s.writes
  {
  }

  lemma PassKeepsHeldPending(s: State, p: Id, a: PassAction)
    requires HeldRowsPending(s) && RowsDistinct(s.passes) && PassEnabled(s, p, a) && !a.Start?
    requires PassWrite(s, p, a).Some? ==> !HeldByPass(s.passes, RowInHand(s, p).id, Some(p))
    ensures HeldRowsPending(PassStep(s, p, a))
  {
    var s' := PassStep(s, p, a);
    PassProgress(s, p, a);
    PassWritesRowInHand(s, p, a);
    forall q, j | q in s'.passes && Unwritten(s'.passes[q], j)
      ensures s'.passes[q].rows[j].id in s'.db.intents && s'.db.intents[s'.passes[q].rows[j].id].status == PENDING
    {
      if q != p {
        OtherHoldersKeepPending(s, s', q, j, Some(p));
      } else {
        assert Unwritten(s.passes[p], j);
      }
    }
  }

  lemma PassActionKeepsHeldPending(s: State, p: Id, a: PassAction)
    requires HeldRowsPending(s) && RowsDistinct(s.passes) && PassEnabled(s, p, a) && PassWindowsExclusive(s, OnPass(p, a))
    ensures HeldRowsPending(PassStep(s, p, a)) && RowsDistinct(PassStep(s, p, a).passes)
  {
    if a.Start? {
      StartKeepsHeldPending(s, p, a);
    } else {
      PassWritesRowInHand(s, p, a);
      PassKeepsHeldPending(s, p, a);
      PassProgress(s, p, a);
    }
  }

  /** If no status write falls into another pass's window, every pass finds its rows still PENDING
      when it writes them, and so spares collected payments. */
  lemma {:induction false} ExclusiveWindowsSpareCollected(trace: seq<State>, actions: seq<Action>)
    requires IsRun(trace, actions)
    requires forall k :: 0 <= k < |actions| ==> PassWindowsExclusive(trace[k], actions[k])
    ensures forall k :: 0 <= k < |actions| ==> PassesSpareCollected(trace[k], actions[k])
    ensures forall k :: 0 <= k < |trace| ==> HeldRowsPending(trace[k])
  {
    for k := 0 to |actions|
      invariant forall j :: 0 <= j <= k ==> HeldRowsPending(trace[j])
      invariant RowsDistinct(trace[k].passes)
    {
      if actions[k].OnPass? {
        PassActionKeepsHeldPending(trace[k], actions[k].p, actions[k].pass);
      } else {
        OthersKeepHeldPending(trace[k], actions[k]);
      }
    }
    forall k | 0 <= k < |actions| ensures PassesSpareCollected(trace[k], actions[k]) {
      var s, a := trace[k], actions[k];
      if a.OnPass? && PassWrite(s, a.p, a.pass).Some? {
        assert Unwritten(s.passes[a.p], |s.passes[a.p].done|);
      }
    }
  }

  // ----- How many refunds an intent can take ---------------------------------------

  /** The number of SUCCEEDED refund rows of an intent. */
  function SucceededRows(refunds: seq<Refund>, i: Id): nat {
    if refunds == [] then 0
    else
      var last := refunds[|refunds| - 1];
      SucceededRows(refunds[..|refunds| - 1], i) + if last.intent == i && last.status == RefundSucceeded then 1 else 0
  }

  lemma {:induction false} SucceededRowPositions(refunds: seq<Refund>, i: Id, p: Refund -> bool)
    requires forall r :: p(r) <==> r.intent == i && r.status == RefundSucceeded
    ensures SucceededRows(refunds, i) == |Positions(refunds, p)|
  {
    if refunds != [] {
      SucceededRowPositions(refunds[..|refunds| - 1], i, p);
      CountLast(refunds, p);
    }
  }

  lemma SucceededRowsMeaning(refunds: seq<Refund>, i: Id)
    ensures SucceededRows(refunds, i) == |set k | 0 <= k < |refunds| && refunds[k].intent == i && refunds[k].status == RefundSucceeded|
  {
    var p := (r: Refund) => r.intent == i && r.status == RefundSucceeded;
    SucceededRowPositions(refunds, i, p);
    assert Positions(refunds, p) == set k | 0 <= k < |refunds| && refunds[k].intent == i && refunds[k].status == RefundSucceeded;
  }

  ghost predicate RowsPositive(refunds: seq<Refund>) {
    forall k :: 0 <= k < |refunds| ==> refunds[k].amount >= 1
  }

  lemma {:induction false} RowsFitTotal(refunds: seq<Refund>, i: Id)
    requires RowsPositive(refunds)
    ensures SucceededRows(refunds, i) <= Refunded(refunds, i)
  {
    if refunds != [] {
      RowsFitTotal(refunds[..|refunds| - 1], i);
      RefundedFront(refunds, i);
    }
  }

  /** What the request DTO checks: an amount, if given, is at least 0.01. */
  predicate Validated(a: Action) {
    a.OnRefund? && a.refund.Read? && a.refund.requested.Some? ==> a.refund.requested.value >= 0.01
  }

  ghost predicate WindowsStoreACent(refunding: map<Id, RefundProc>) {
    forall p :: p in refunding && InWindow(refunding[p]) ==> refunding[p].plan.requested >= 0.01
  }

  lemma RefundKeepsRowsPositive(s: State, p: Id, a: RefundAction)
    requires WindowsCurrent(s.db, s.refunding) && RowsPositive(s.db.refunds) && WindowsStoreACent(s.refunding)
    requires RefundEnabled(s, p, a) && Validated(OnRefund(p, a))
    ensures RowsPositive(RefundStep(s, p, a).db.refunds) && WindowsStoreACent(RefundStep(s, p, a).refunding)
  {
    if a.Read? && PlanRefund(s.db, a.intent, a.requested, a.merchantId).Success? {
      PlanMeaning(s.db, a.intent, a.requested, a.merchantId);
    } else if a.CommitRow? && a.ok {
      BalanceExact(s.refunding[p].plan.total, s.refunding[p].plan.soFar);
      StoredRequestFits(s.refunding[p].plan);
    }
  }

  lemma StepKeepsRowsPositive(s: State, a: Action)
    requires Safe(s) && RowsPositive(s.db.refunds) && WindowsStoreACent(s.refunding)
    requires Enabled(s, a) && Validated(a)
    ensures RowsPositive(Step(s, a).db.refunds) && WindowsStoreACent(Step(s, a).refunding)
  {
    match a
    case Checkout(_, _, _, _, _, _, _) =>
    case OnRefund(p, refund) => RefundKeepsRowsPositive(s, p, refund);
    case OnHook(p, hook) => HooksOnlyMoveStatuses(s, p, hook);
    case OnPass(p, pass) => PassesOnlyMoveStatuses(s, p, pass);
  }

  /** With validated amounts taking turns, an intent never has more SUCCEEDED refunds than cents. */
  lemma {:induction false} RefundsBoundedByCents(trace: seq<State>, actions: seq<Action>)
    requires IsRun(trace, actions)
    requires forall k :: 0 <= k < |actions| ==> RefundsTakeTurns(trace[k], actions[k]) && Validated(actions[k])
    ensures forall k, i :: 0 <= k < |trace| && i in trace[k].db.intents ==>
              SucceededRows(trace[k].db.refunds, i) <= trace[k].db.intents[i].amount
  {
    RefundLedgerSafety(trace, actions);
    for k := 0 to |actions|
      invariant forall j :: 0 <= j <= k ==> RowsPositive(trace[j].db.refunds)
      invariant WindowsStoreACent(trace[k].refunding)
    {
      StepKeepsRowsPositive(trace[k], actions[k]);
    }
    forall k, i | 0 <= k < |trace| && i in trace[k].db.intents
      ensures SucceededRows(trace[k].db.refunds, i) <= trace[k].db.intents[i].amount
    {
      RowsFitTotal(trace[k].db.refunds, i);
      assert Safe(trace[k]);
    }
  }
}
