/** How often a merchant is told that a payment succeeded, when reconciliation passes do not overlap. */
module Notifications {
  import opened Prelude
  import opened Tables
  import opened Refunds
  import opened ReconciliationRules
  import opened LedgerProtocol
  import opened RefundBacking
  import opened WebhookSafety
  import Reconciliation

  // ----- Nothing returns to PENDING -----------------------------------------------

  ghost predicate Decided(db: Db, i: Id) {
    i in db.intents && db.intents[i].status != PENDING
  }

  ghost predicate StaysDecided(db: Db, db': Db) {
    && (forall i :: Decided(db, i) ==> Decided(db', i))
    && (forall i :: i in db.intents ==> i in db'.intents)
  }

  lemma RefundsStayDecided(s: State, p: Id, a: RefundAction)
    requires RefundEnabled(s, p, a)
    ensures StaysDecided(s.db, RefundStep(s, p, a).db)
  {
    if a.CommitRow? && a.ok {
      CommitMoves(s.db, s.refunding[p].plan, s.refunding[p].status, p);
    }
  }

  lemma HooksStayDecided(s: State, p: Id, a: HookAction)
    requires HookEnabled(s, p, a)
    ensures StaysDecided(s.db, HookStep(s, p, a).db)
  {
  }

  lemma PassesStayDecided(s: State, p: Id, a: PassAction)
    requires PassEnabled(s, p, a)
    ensures StaysDecided(s.db, PassStep(s, p, a).db)
  {
    PassWritesRowInHand(s, p, a);
  }

  /** After its creation no action writes PENDING on an intent. */
  lemma NeverBackToPending(s: State, a: Action)
    requires Enabled(s, a)
    ensures StaysDecided(s.db, Step(s, a).db)
  {
    match a
    case Checkout(_, _, _, _, _, _, _) => assert StaysDecided(s.db, CheckedOut(s, a).db);
    case OnRefund(p, refund) => RefundsStayDecided(s, p, refund);
    case OnHook(p, hook) => HooksStayDecided(s, p, hook);
    case OnPass(p, pass) => PassesStayDecided(s, p, pass);
  }

  lemma CreationDatesStay(s: State, a: Action, i: Id)
    requires Enabled(s, a) && i in s.db.intents
    ensures i in Step(s, a).db.intents && Step(s, a).db.intents[i].createdAt == s.db.intents[i].createdAt
  {
    match a
    case Checkout(_, _, _, _, _, _, _) =>
    case OnRefund(p, refund) => assert i in RefundStep(s, p, refund).db.intents;
    case OnHook(p, hook) => assert i in HookStep(s, p, hook).db.intents;
    case OnPass(p, pass) => PassWritesRowInHand(s, p, pass);
  }

  /** The rows a pass with a given cutoff would scan only become fewer, apart from new checkouts,
      through any number of passes and whatever runs between and beside them. */
  lemma {:induction false} BacklogOnlyShrinks(trace: seq<State>, actions: seq<Action>, from: nat, to: nat, cutoff: int)
    requires IsRun(trace, actions) && from <= to < |trace|
    ensures forall i :: i in Reconciliation.Backlog(trace[to].db, cutoff) && i in trace[from].db.intents ==>
              i in Reconciliation.Backlog(trace[from].db, cutoff)
  {
    forall i | i in Reconciliation.Backlog(trace[to].db, cutoff) && i in trace[from].db.intents
      ensures i in Reconciliation.Backlog(trace[from].db, cutoff)
    {
      for k := from to to
        invariant i in trace[k].db.intents && trace[k].db.intents[i].createdAt == trace[from].db.intents[i].createdAt
        invariant Decided(trace[from].db, i) ==> Decided(trace[k].db, i)
      {
        NeverBackToPending(trace[k], actions[k]);
        CreationDatesStay(trace[k], actions[k], i);
      }
    }
  }

  // ----- At most one reconciliation write and event per intent ---------------------

  ghost predicate WrittenByPass(writes: seq<StatusWrite>, i: Id) {
    exists k :: 0 <= k < |writes| && writes[k].intent == i && writes[k].cause.ByPass?
  }

  ghost predicate AnnouncedByPass(outbox: seq<Outbound>, i: Id) {
    exists k :: 0 <= k < |outbox| && outbox[k].intent == i && outbox[k].cause.ByPass?
  }

  /** No intent is written twice by passes. */
  ghost predicate PassWritesDistinct(writes: seq<StatusWrite>) {
    forall j, k :: 0 <= j < k < |writes| && writes[j].cause.ByPass? && writes[k].cause.ByPass? ==> writes[j].intent != writes[k].intent
  }

  /** Nor announced twice, nor announced without having been written. */
  ghost predicate AnnouncesOnce(outbox: seq<Outbound>, writes: seq<StatusWrite>) {
    && (forall j, k :: 0 <= j < k < |outbox| && outbox[j].cause.ByPass? && outbox[k].cause.ByPass? ==> outbox[j].intent != outbox[k].intent)
    && (forall i :: AnnouncedByPass(outbox, i) ==> WrittenByPass(writes, i))
  }

  /** The pass has written its row and is about to announce it. */
  predicate Announcing(proc: PassProc) {
    Active(proc) && proc.stage.Written?
  }

  ghost predicate AnnouncingApart(s: State) {
    && (forall q :: q in s.passes && Announcing(s.passes[q]) ==>
          WrittenByPass(s.writes, RowInHand(s, q).id) && !AnnouncedByPass(s.db.outbox, RowInHand(s, q).id))
    && (forall p, q :: p in s.passes && q in s.passes && p != q && Announcing(s.passes[p]) && Announcing(s.passes[q]) ==>
          RowInHand(s, p).id != RowInHand(s, q).id)
  }

  ghost predicate ReportedOnce(s: State) {
    PassWritesDistinct(s.writes) && AnnouncesOnce(s.db.outbox, s.writes) && AnnouncingApart(s)
  }

  /** The recheck the code does not make: a pass writes only a row that no pass has written yet. */
  ghost predicate PassWriteIsFirst(s: State, a: Action)
    requires Enabled(s, a)
  {
    a.OnPass? && PassWrite(s, a.p, a.pass).Some? ==> !WrittenByPass(s.writes, RowInHand(s, a.p).id)
  }

  /** Webhooks, refunds and checkout leave passes alone and append on their own behalf. */
  ghost predicate LeavesPassesAlone(s: State, s': State) {
    && s'.passes == s.passes && StaysDecided(s.db, s'.db)
    && (s'.db.outbox != s.db.outbox ==>
          |s'.db.outbox| == |s.db.outbox| + 1 && s'.db.outbox[..|s.db.outbox|] == s.db.outbox && !s'.db.outbox[|s.db.outbox|].cause.ByPass?)
    && (s'.writes != s.writes ==>
          |s'.writes| == |s.writes| + 1 && s'.writes[..|s.writes|] == s.writes && !s'.writes[|s.writes|].cause.ByPass?)
  }

  lemma OthersLeavePassesAlone(s: State, a: Action)
    requires Enabled(s, a) && !a.OnPass?
    ensures LeavesPassesAlone(s, Step(s, a))
  {
    NeverBackToPending(s, a);
    match a
    case Checkout(_, _, _, _, _, _, _) =>
    case OnRefund(p, refund) => assert LeavesPassesAlone(s, RefundStep(s, p, refund));
    case OnHook(p, hook) => assert LeavesPassesAlone(s, HookStep(s, p, hook));
  }

  lemma SameWritten(writes: seq<StatusWrite>, writes': seq<StatusWrite>, i: Id)
    requires writes' == writes || (|writes'| == |writes| + 1 && writes'[..|writes|] == writes && !writes'[|writes|].cause.ByPass?)
    ensures WrittenByPass(writes', i) <==> WrittenByPass(writes, i)
  {
  }

  lemma SameAnnounced(outbox: seq<Outbound>, outbox': seq<Outbound>, i: Id)
    requires outbox' == outbox || (|outbox'| == |outbox| + 1 && outbox'[..|outbox|] == outbox && !outbox'[|outbox|].cause.ByPass?)
    ensures AnnouncedByPass(outbox', i) <==> AnnouncedByPass(outbox, i)
  {
  }

  lemma OthersKeepReportedOnce(s: State, s': State)
    requires ReportedOnce(s) && LeavesPassesAlone(s, s')
    ensures ReportedOnce(s')
  {
    forall i ensures WrittenByPass(s'.writes, i) <==> WrittenByPass(s.writes, i) {
      SameWritten(s.writes, s'.writes, i);
    }
    forall i ensures AnnouncedByPass(s'.db.outbox, i) <==> AnnouncedByPass(s.db.outbox, i) {
      SameAnnounced(s.db.outbox, s'.db.outbox, i);
    }
    assert forall k :: 0 <= k < |s.writes| && s'.writes != s.writes ==> s'.writes[..|s.writes|][k] == s'.writes[k];
    assert forall k :: 0 <= k < |s.db.outbox| && s'.db.outbox != s.db.outbox ==> s'.db.outbox[..|s.db.outbox|][k] == s'.db.outbox[k];
  }

  lemma WrittenGrows(writes: seq<StatusWrite>, write: StatusWrite, i: Id)
    requires write.cause.ByPass?
    ensures WrittenByPass(writes + [write], i) <==> WrittenByPass(writes, i) || i == write.intent
  {
    if k :| 0 <= k < |writes| && writes[k].intent == i && writes[k].cause.ByPass? {
      assert (writes + [write])[k] == writes[k];
    }
    assert (writes + [write])[|writes|] == write;
  }

  lemma AnnouncedGrows(outbox: seq<Outbound>, entry: Outbound, i: Id)
    requires entry.cause.ByPass?
    ensures AnnouncedByPass(outbox + [entry], i) <==> AnnouncedByPass(outbox, i) || i == entry.intent
  {
    if k :| 0 <= k < |outbox| && outbox[k].intent == i && outbox[k].cause.ByPass? {
      assert (outbox + [entry])[k] == outbox[k];
    }
    assert (outbox + [entry])[|outbox|] == entry;
  }

  lemma DistinctGrows(writes: seq<StatusWrite>, write: StatusWrite)
    requires PassWritesDistinct(writes) && write.cause.ByPass?
    ensures PassWritesDistinct(writes + [write]) <==> !WrittenByPass(writes, write.intent)
  {
    var writes' := writes + [write];
    if k :| 0 <= k < |writes| && writes[k].intent == write.intent && writes[k].cause.ByPass? {
      assert writes'[k].intent == writes'[|writes|].intent;
    }
  }

  /** Everyone but p is where they were, and p is about to announce only what it just wrote. */
  lemma WriteKeepsReportedOnce(s: State, p: Id, a: PassAction)
    requires ReportedOnce(s) && PassEnabled(s, p, a) && PassWrite(s, p, a).Some? && !WrittenByPass(s.writes, RowInHand(s, p).id)
    ensures ReportedOnce(PassStep(s, p, a))
  {
    var s', i := PassStep(s, p, a), RowInHand(s, p).id;
    var write := StatusWrite(i, PassWrite(s, p, a).value, ByPass(p));
    PassProgress(s, p, a);
    PassWritesRowInHand(s, p, a);
    DistinctGrows(s.writes, write);
    assert s'.db.outbox == s.db.outbox;
    forall x ensures WrittenByPass(s'.writes, x) <==> WrittenByPass(s.writes, x) || x == i {
      WrittenGrows(s.writes, write, x);
    }
    assert !AnnouncedByPass(s.db.outbox, i);
    forall q | q in s'.passes && q != p && Announcing(s'.passes[q]) ensures RowInHand(s', q).id != i {
      assert WrittenByPass(s.writes, RowInHand(s, q).id);
    }
    assert Announcing(s'.passes[p]) ==> RowInHand(s', p).id == i;
  }

  lemma AnnounceKeepsReportedOnce(s: State, p: Id, a: PassAction)
    requires ReportedOnce(s) && PassEnabled(s, p, a) && a.AnnounceRow? && a.ok
    ensures ReportedOnce(PassStep(s, p, a))
  {
    var s', i := PassStep(s, p, a), RowInHand(s, p).id;
    var entry := Outbound(AnnouncementOf(s.passes[p].stage.status), i, ByPass(p));
    PassProgress(s, p, a);
    PassWritesRowInHand(s, p, a);
    assert s'.db.outbox == s.db.outbox + [entry];
    forall x ensures AnnouncedByPass(s'.db.outbox, x) <==> AnnouncedByPass(s.db.outbox, x) || x == i {
      AnnouncedGrows(s.db.outbox, entry, x);
    }
    assert !Announcing(s'.passes[p]);
    forall j, k | 0 <= j < k < |s'.db.outbox| && s'.db.outbox[j].cause.ByPass? && s'.db.outbox[k].cause.ByPass?
      ensures s'.db.outbox[j].intent != s'.db.outbox[k].intent
    {
      assert AnnouncedByPass(s.db.outbox, s.db.outbox[j].intent);
    }
  }

  lemma QuietlyKeepsReportedOnce(s: State, p: Id, a: PassAction)
    requires ReportedOnce(s) && PassEnabled(s, p, a)
    requires PassWrite(s, p, a).None? && !(a.AnnounceRow? && a.ok)
    ensures ReportedOnce(PassStep(s, p, a))
  {
    var s' := PassStep(s, p, a);
    PassWritesRowInHand(s, p, a);
    assert s'.db == s.db && s'.writes == s.writes;
    assert s'.passes == s.passes[p := s'.passes[p]] && !Announcing(s'.passes[p]);
  }

  lemma PassReportedIff(s: State, p: Id, a: PassAction)
    requires ReportedOnce(s) && PassEnabled(s, p, a)
    ensures PassWritesDistinct(PassStep(s, p, a).writes) <==> PassWriteIsFirst(s, OnPass(p, a))
    ensures PassWriteIsFirst(s, OnPass(p, a)) ==> ReportedOnce(PassStep(s, p, a))
  {
    if PassWrite(s, p, a).Some? {
      PassWritesRowInHand(s, p, a);
      DistinctGrows(s.writes, StatusWrite(RowInHand(s, p).id, PassWrite(s, p, a).value, ByPass(p)));
      if PassWriteIsFirst(s, OnPass(p, a)) {
        WriteKeepsReportedOnce(s, p, a);
      }
    } else if a.AnnounceRow? && a.ok {
      AnnounceKeepsReportedOnce(s, p, a);
    } else {
      QuietlyKeepsReportedOnce(s, p, a);
    }
  }

  lemma StepReportedIff(s: State, a: Action)
    requires ReportedOnce(s) && Enabled(s, a)
    ensures PassWritesDistinct(Step(s, a).writes) <==> PassWriteIsFirst(s, a)
    ensures PassWriteIsFirst(s, a) ==> ReportedOnce(Step(s, a))
  {
    if a.OnPass? {
      PassReportedIff(s, a.p, a.pass);
    } else {
      OthersLeavePassesAlone(s, a);
      OthersKeepReportedOnce(s, Step(s, a));
    }
  }

  /** Without any hypothesis: passes write each intent at most once in a run exactly when each of
      their writes finds a row no pass has written; and then they announce it at most once. */
  lemma {:induction false} PassesWriteOnceIffFirst(trace: seq<State>, actions: seq<Action>)
    requires IsRun(trace, actions)
    ensures (forall k :: 0 <= k < |trace| ==> PassWritesDistinct(trace[k].writes))
            <==> (forall k :: 0 <= k < |actions| ==> PassWriteIsFirst(trace[k], actions[k]))
    ensures (forall k :: 0 <= k < |actions| ==> PassWriteIsFirst(trace[k], actions[k])) ==>
              forall k :: 0 <= k < |trace| ==> ReportedOnce(trace[k])
  {
    var n := 0;
    while n < |actions| && PassWriteIsFirst(trace[n], actions[n])
      invariant 0 <= n <= |actions|
      invariant forall j :: 0 <= j <= n ==> ReportedOnce(trace[j])
      invariant forall j :: 0 <= j < n ==> PassWriteIsFirst(trace[j], actions[j])
    {
      StepReportedIff(trace[n], actions[n]);
      n := n + 1;
    }
    if n < |actions| {
      StepReportedIff(trace[n], actions[n]);
      assert !PassWritesDistinct(trace[n + 1].writes);
    } else {
      assert forall k :: 0 <= k < |trace| ==> ReportedOnce(trace[k]);
    }
  }

  // ----- Passes that take turns make first writes ----------------------------------

  /** The hypothesis: a pass starts only when no other pass is under way. */
  ghost predicate PassesTakeTurns(s: State, a: Action) {
    a.OnPass? && a.pass.Start? ==> forall q :: q in s.passes ==> !Active(s.passes[q])
  }

  ghost predicate OneActive(passes: map<Id, PassProc>) {
    forall p, q :: p in passes && q in passes && Active(passes[p]) && Active(passes[q]) ==> p == q
  }

  /** The rows a pass still has to write exist, and no pass has written them. */
  ghost predicate UnwrittenFresh(s: State) {
    forall q, j :: q in s.passes && Unwritten(s.passes[q], j) ==>
      s.passes[q].rows[j].id in s.db.intents && !WrittenByPass(s.writes, s.passes[q].rows[j].id)
  }

  ghost predicate Agenda(s: State) {
    && (forall i :: WrittenByPass(s.writes, i) ==> Decided(s.db, i))
    && OneActive(s.passes) && RowsDistinct(s.passes) && UnwrittenFresh(s)
  }

  lemma AgendaMakesFirst(s: State, a: Action)
    requires Agenda(s) && Enabled(s, a)
    ensures PassWriteIsFirst(s, a)
  {
    if a.OnPass? && PassWrite(s, a.p, a.pass).Some? {
      assert Unwritten(s.passes[a.p], |s.passes[a.p].done|);
    }
  }

  lemma OthersKeepAgenda(s: State, s': State)
    requires Agenda(s) && LeavesPassesAlone(s, s')
    ensures Agenda(s')
  {
    forall i ensures WrittenByPass(s'.writes, i) <==> WrittenByPass(s.writes, i) {
      SameWritten(s.writes, s'.writes, i);
    }
  }

  lemma StartKeepsAgenda(s: State, p: Id, a: PassAction)
    requires Agenda(s) && a.Start? && PassEnabled(s, p, a) && PassesTakeTurns(s, OnPass(p, a))
    ensures Agenda(PassStep(s, p, a))
  {
    var s' := PassStep(s, p, a);
    forall j | 0 <= j < |a.order| ensures a.order[j] in s.db.intents && !WrittenByPass(s.writes, a.order[j]) {
      assert a.order[j] in a.order;
    }
  }

  lemma ProgressKeepsAgenda(s: State, p: Id, a: PassAction)
    requires Agenda(s) && !a.Start? && PassEnabled(s, p, a)
    ensures Agenda(PassStep(s, p, a))
  {
    var s' := PassStep(s, p, a);
    PassesStayDecided(s, p, a);
    PassProgress(s, p, a);
    PassWritesRowInHand(s, p, a);
    forall q | q in s'.passes && Active(s'.passes[q]) ensures q == p {
      assert Active(s.passes[p]);
    }
    if PassWrite(s, p, a).Some? {
      forall x ensures WrittenByPass(s'.writes, x) <==> WrittenByPass(s.writes, x) || x == RowInHand(s, p).id {
        WrittenGrows(s.writes, s'.writes[|s.writes|], x);
      }
    }
    forall j | Unwritten(s'.passes[p], j)
      ensures s'.passes[p].rows[j].id in s'.db.intents && !WrittenByPass(s'.writes, s'.passes[p].rows[j].id)
    {
      assert Unwritten(s.passes[p], j);
    }
  }

  lemma StepKeepsAgenda(s: State, a: Action)
    requires Agenda(s) && Enabled(s, a) && PassesTakeTurns(s, a)
    ensures Agenda(Step(s, a))
  {
    if !a.OnPass? {
      OthersLeavePassesAlone(s, a);
      OthersKeepAgenda(s, Step(s, a));
    } else if a.pass.Start? {
      StartKeepsAgenda(s, a.p, a.pass);
    } else {
      ProgressKeepsAgenda(s, a.p, a.pass);
    }
  }

  /** Passes that do not overlap make first writes only, and so write and announce each intent at
      most once between them. */
  lemma {:induction false} SequentialPassesReconcileOnce(trace: seq<State>, actions: seq<Action>)
    requires IsRun(trace, actions)
    requires forall k :: 0 <= k < |actions| ==> PassesTakeTurns(trace[k], actions[k])
    ensures forall k :: 0 <= k < |actions| ==> PassWriteIsFirst(trace[k], actions[k])
    ensures forall k :: 0 <= k < |trace| ==> ReportedOnce(trace[k]) && Agenda(trace[k])
  {
    for k := 0 to |actions|
      invariant forall j :: 0 <= j <= k ==> Agenda(trace[j])
      invariant forall j :: 0 <= j < k ==> PassWriteIsFirst(trace[j], actions[j])
    {
      AgendaMakesFirst(trace[k], actions[k]);
      StepKeepsAgenda(trace[k], actions[k]);
    }
    PassesWriteOnceIffFirst(trace, actions);
  }

  // ----- Counting payment.succeeded ------------------------------------------------

  predicate SucceededFor(entry: Outbound, i: Id) {
    entry.kind == PaymentSucceeded && entry.intent == i
  }

  /** The number of payment.succeeded events of an intent. */
  function SucceededEvents(outbox: seq<Outbound>, i: Id): nat {
    if outbox == [] then 0
    else SucceededEvents(outbox[..|outbox| - 1], i) + if SucceededFor(outbox[|outbox| - 1], i) then 1 else 0
  }

  /** Those that passes sent. */
  function PassSuccesses(outbox: seq<Outbound>, i: Id): nat {
    if outbox == [] then 0
    else
      var last := outbox[|outbox| - 1];
      PassSuccesses(outbox[..|outbox| - 1], i) + if SucceededFor(last, i) && last.cause.ByPass? then 1 else 0
  }

  lemma {:induction false} SucceededPositions(outbox: seq<Outbound>, i: Id, p: Outbound -> bool)
    requires forall x :: p(x) <==> x.kind == PaymentSucceeded && x.intent == i
    ensures SucceededEvents(outbox, i) == |Positions(outbox, p)|
  {
    if outbox != [] {
      SucceededPositions(outbox[..|outbox| - 1], i, p);
      CountLast(outbox, p);
    }
  }

  lemma {:induction false} PassSuccessPositions(outbox: seq<Outbound>, i: Id, p: Outbound -> bool)
    requires forall x :: p(x) <==> x.kind == PaymentSucceeded && x.intent == i && x.cause.ByPass?
    ensures PassSuccesses(outbox, i) == |Positions(outbox, p)|
  {
    if outbox != [] {
      PassSuccessPositions(outbox[..|outbox| - 1], i, p);
      CountLast(outbox, p);
    }
  }

  /** Both are numbers of queue entries. */
  lemma EventCounts(outbox: seq<Outbound>, i: Id)
    ensures SucceededEvents(outbox, i) == |set k | 0 <= k < |outbox| && outbox[k].kind == PaymentSucceeded && outbox[k].intent == i|
    ensures PassSuccesses(outbox, i)
            == |set k | 0 <= k < |outbox| && outbox[k].kind == PaymentSucceeded && outbox[k].intent == i && outbox[k].cause.ByPass?|
  {
    var all := (x: Outbound) => x.kind == PaymentSucceeded && x.intent == i;
    var passes := (x: Outbound) => x.kind == PaymentSucceeded && x.intent == i && x.cause.ByPass?;
    SucceededPositions(outbox, i, all);
    PassSuccessPositions(outbox, i, passes);
    assert Positions(outbox, all) == set k | 0 <= k < |outbox| && outbox[k].kind == PaymentSucceeded && outbox[k].intent == i;
    assert Positions(outbox, passes)
        == set k | 0 <= k < |outbox| && outbox[k].kind == PaymentSucceeded && outbox[k].intent == i && outbox[k].cause.ByPass?;
  }

  /** The provider events behind the others. */
  function AnnouncedEvents(outbox: seq<Outbound>, i: Id): seq<string> {
    if outbox == [] then []
    else
      var last := outbox[|outbox| - 1];
      AnnouncedEvents(outbox[..|outbox| - 1], i) + if SucceededFor(last, i) && last.cause.ByWebhook? then [last.cause.event] else []
  }

  /** The provider events ledgered for an intent. */
  function LedgeredFor(events: map<string, Id>, i: Id): set<string> {
    set e | e in events && events[e] == i
  }

  ghost predicate AnnouncedFor(outbox: seq<Outbound>, event: string) {
    exists k :: 0 <= k < |outbox| && outbox[k].cause == ByWebhook(event)
  }

  /** The ledgered ones that nobody was told about: dispatch failed, crashed or is still to come. */
  ghost function Unannounced(db: Db, i: Id): set<string> {
    set e | e in LedgeredFor(db.events, i) && !AnnouncedFor(db.outbox, e)
  }

  lemma AnnouncedForFront(outbox: seq<Outbound>, event: string)
    requires outbox != []
    ensures AnnouncedFor(outbox, event) <==>
            AnnouncedFor(outbox[..|outbox| - 1], event) || outbox[|outbox| - 1].cause == ByWebhook(event)
  {
    var front := outbox[..|outbox| - 1];
    if k :| 0 <= k < |front| && front[k].cause == ByWebhook(event) {
      assert outbox[k] == front[k];
    }
    if k :| 0 <= k < |front| && outbox[k].cause == ByWebhook(event) {
      assert outbox[k] == front[k];
    }
  }

  /** The webhook-caused events of an intent: one per announced ledgered id, and no others. */
  lemma {:induction false} AnnouncedEventsDistinct(events: map<string, Id>, outbox: seq<Outbound>, i: Id)
    requires OneAnnouncementEach(events, outbox)
    ensures Distinct(AnnouncedEvents(outbox, i))
    ensures forall e :: e in AnnouncedEvents(outbox, i) <==> e in LedgeredFor(events, i) && AnnouncedFor(outbox, e)
  {
    if outbox != [] {
      var n := |outbox| - 1;
      var front, last := outbox[..n], outbox[n];
      AnnouncedEventsDistinct(events, front, i);
      forall e ensures AnnouncedFor(outbox, e) <==> AnnouncedFor(front, e) || last.cause == ByWebhook(e) {
        AnnouncedForFront(outbox, e);
      }
      if last.cause.ByWebhook? {
        assert !AnnouncedFor(front, last.cause.event);
      }
    }
  }

  /** No payment.succeeded event is a refund's. */
  ghost predicate SucceededCauses(outbox: seq<Outbound>) {
    forall k :: 0 <= k < |outbox| && outbox[k].kind == PaymentSucceeded ==> !outbox[k].cause.ByRefund?
  }

  lemma {:induction false} CountByCause(outbox: seq<Outbound>, i: Id)
    requires SucceededCauses(outbox)
    ensures SucceededEvents(outbox, i) == |AnnouncedEvents(outbox, i)| + PassSuccesses(outbox, i)
  {
    if outbox != [] {
      CountByCause(outbox[..|outbox| - 1], i);
    }
  }

  lemma StepKeepsSucceededCauses(s: State, a: Action)
    requires Enabled(s, a) && SucceededCauses(s.db.outbox)
    ensures SucceededCauses(Step(s, a).db.outbox)
  {
    match a
    case Checkout(_, _, _, _, _, _, _) =>
    case OnRefund(p, refund) => assert SucceededCauses(RefundStep(s, p, refund).db.outbox);
    case OnHook(p, hook) => assert SucceededCauses(HookStep(s, p, hook).db.outbox);
    case OnPass(p, pass) => assert SucceededCauses(PassStep(s, p, pass).db.outbox);
  }

  lemma ConservedHere(db: Db, i: Id)
    requires OneAnnouncementEach(db.events, db.outbox) && SucceededCauses(db.outbox)
    ensures SucceededEvents(db.outbox, i) + |Unannounced(db, i)| == |LedgeredFor(db.events, i)| + PassSuccesses(db.outbox, i)
  {
    var ledgered, unannounced := LedgeredFor(db.events, i), Unannounced(db, i);
    CountByCause(db.outbox, i);
    AnnouncedEventsDistinct(db.events, db.outbox, i);
    DistinctCount(AnnouncedEvents(db.outbox, i), ledgered - unannounced);
    assert |ledgered - unannounced| == |ledgered| - |unannounced| by {
      assert ledgered == (ledgered - unannounced) + unannounced;
    }
  }

  /** Conservation, over every run and without any hypothesis: the payment.succeeded events of an
      intent are its ledgered provider events, less those nobody was told about, plus what passes
      sent. So at most one more than its ledgered events exactly when passes sent at most one more
      than webhooks left out. */
  lemma {:induction false} NotificationConservation(trace: seq<State>, actions: seq<Action>)
    requires IsRun(trace, actions)
    ensures forall k, i :: 0 <= k < |trace| ==>
              var db := trace[k].db;
              && SucceededEvents(db.outbox, i) + |Unannounced(db, i)| == |LedgeredFor(db.events, i)| + PassSuccesses(db.outbox, i)
              && (SucceededEvents(db.outbox, i) <= |LedgeredFor(db.events, i)| + 1 <==> PassSuccesses(db.outbox, i) <= |Unannounced(db, i)| + 1)
  {
    WebhookAtMostOnce(trace, actions);
    for k := 0 to |actions|
      invariant forall j :: 0 <= j <= k ==> SucceededCauses(trace[j].db.outbox)
    {
      StepKeepsSucceededCauses(trace[k], actions[k]);
    }
    forall k, i | 0 <= k < |trace|
      ensures SucceededEvents(trace[k].db.outbox, i) + |Unannounced(trace[k].db, i)|
              == |LedgeredFor(trace[k].db.events, i)| + PassSuccesses(trace[k].db.outbox, i)
    {
      assert AtMostOnce(trace[k]);
      ConservedHere(trace[k].db, i);
    }
  }

  lemma {:induction false} AtMostOnePassSuccess(outbox: seq<Outbound>, i: Id)
    requires forall j, k :: 0 <= j < k < |outbox| && outbox[j].cause.ByPass? && outbox[k].cause.ByPass? ==> outbox[j].intent != outbox[k].intent
    ensures PassSuccesses(outbox, i) <= if AnnouncedByPass(outbox, i) then 1 else 0
  {
    if outbox != [] {
      var front, last := outbox[..|outbox| - 1], outbox[|outbox| - 1];
      AtMostOnePassSuccess(front, i);
      if k :| 0 <= k < |front| && front[k].intent == i && front[k].cause.ByPass? {
        assert outbox[k] == front[k];
      }
      assert last == outbox[|outbox| - 1];
    }
  }

  /** If every pass write is a first one, a merchant hears payment.succeeded for an intent at most
      once per distinct ledgered provider event of that intent, plus once. */
  lemma {:induction false} NotificationBound(trace: seq<State>, actions: seq<Action>)
    requires IsRun(trace, actions)
    requires forall k :: 0 <= k < |actions| ==> PassWriteIsFirst(trace[k], actions[k])
    ensures forall k, i :: 0 <= k < |trace| ==>
              SucceededEvents(trace[k].db.outbox, i) <= |LedgeredFor(trace[k].db.events, i)| + 1
  {
    NotificationConservation(trace, actions);
    PassesWriteOnceIffFirst(trace, actions);
    forall k, i | 0 <= k < |trace|
      ensures SucceededEvents(trace[k].db.outbox, i) <= |LedgeredFor(trace[k].db.events, i)| + 1
    {
      assert ReportedOnce(trace[k]);
      AtMostOnePassSuccess(trace[k].db.outbox, i);
    }
  }

  /** In particular if passes take turns. */
  lemma SequentialNotificationBound(trace: seq<State>, actions: seq<Action>)
    requires IsRun(trace, actions)
    requires forall k :: 0 <= k < |actions| ==> PassesTakeTurns(trace[k], actions[k])
    ensures forall k, i :: 0 <= k < |trace| ==>
              SucceededEvents(trace[k].db.outbox, i) <= |LedgeredFor(trace[k].db.events, i)| + 1
  {
    SequentialPassesReconcileOnce(trace, actions);
    NotificationBound(trace, actions);
  }
}
