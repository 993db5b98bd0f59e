/** The sequential programs are runs of the interleaved protocols: left alone, a refund, a delivery,
    a keyed request or a whole reconciliation pass takes protocol steps, and ends in the tables and
    with the result its program computes, whatever the outside world answers and whatever fails. */
module SequentialRuns {
  import opened Prelude
  import opened Tables
  import opened Refunds
  import opened Webhooks
  import opened ReconciliationRules
  import opened LedgerProtocol
  import opened Reconciliation
  import K = Idempotency
  import P = Interceptor

  /** From s to t by the given actions. */
  ghost predicate Path(s: State, actions: seq<Action>, t: State)
    decreases |actions|
  {
    if actions == [] then s == t
    else Enabled(s, actions[0]) && Path(Step(s, actions[0]), actions[1..], t)
  }

  lemma Prepend(s: State, a: Action, rest: seq<Action>, t: State)
    requires Enabled(s, a) && Path(Step(s, a), rest, t)
    ensures Path(s, [a] + rest, t)
  {
    assert ([a] + rest)[1..] == rest;
  }

  // ----- One refund request --------------------------------------------------------

  /** Commit and announce an answered refund. */
  lemma SoloCommit(s: State, p: Id, commitOk: bool, dispatchOk: bool) returns (actions: seq<Action>, t: State)
    requires p in s.refunding && s.refunding[p].Answered? && s.refunding[p].plan.intent in s.db.intents
    ensures Path(s, actions, t) && t.hooks == s.hooks && t.passes == s.passes
    ensures var plan := s.refunding[p].plan;
            var committed := CommitRefund(s.db, plan, s.refunding[p].status, p);
            && t.db == (if !commitOk then s.db else if dispatchOk then Enqueue(committed, PaymentRefunded, plan.intent, ByRefund(p)) else committed)
            && t.refunding == s.refunding[p := if commitOk && dispatchOk then Returned else Threw]
  {
    var s1 := RefundStep(s, p, CommitRow(commitOk));
    assert s1.refunding == s.refunding[p := s1.refunding[p]];
    if commitOk {
      t := RefundStep(s1, p, AnnounceRefund(dispatchOk));
      Prepend(s1, OnRefund(p, AnnounceRefund(dispatchOk)), [], t);
      Prepend(s, OnRefund(p, CommitRow(true)), [OnRefund(p, AnnounceRefund(dispatchOk))], t);
      actions := [OnRefund(p, CommitRow(true))] + [OnRefund(p, AnnounceRefund(dispatchOk))];
    } else {
      t := s1;
      Prepend(s, OnRefund(p, CommitRow(false)), [], t);
      actions := [OnRefund(p, CommitRow(false))] + [];
    }
  }

  /** From a validated request to its end. */
  lemma SoloPlanned(s: State, p: Id, provider: Option<RefundStatus>, commitOk: bool, dispatchOk: bool)
    returns (actions: seq<Action>, t: State)
    requires p in s.refunding && s.refunding[p].Planned? && s.refunding[p].plan.intent in s.db.intents
    ensures Path(s, actions, t) && t.hooks == s.hooks && t.passes == s.passes
    ensures provider.None? ==> t.db == s.db && t.refunding == s.refunding[p := Threw]
    ensures provider.Some? ==>
              var plan := s.refunding[p].plan;
              var committed := CommitRefund(s.db, plan, provider.value, p);
              && t.db == (if !commitOk then s.db else if dispatchOk then Enqueue(committed, PaymentRefunded, plan.intent, ByRefund(p)) else committed)
              && t.refunding == s.refunding[p := if commitOk && dispatchOk then Returned else Threw]
  {
    var s1 := RefundStep(s, p, AskProvider(provider));
    var rest: seq<Action>;
    if provider.Some? {
      rest, t := SoloCommit(s1, p, commitOk, dispatchOk);
    } else {
      rest, t := [], s1;
    }
    Prepend(s, OnRefund(p, AskProvider(provider)), rest, t);
    actions := [OnRefund(p, AskProvider(provider))] + rest;
  }

  /** A refund run alone, for every request, provider answer and failure. */
  lemma SoloRefund(s: State, p: Id, id: Id, amount: Option<real>, merchantId: Id,
                   provider: Option<RefundStatus>, commitOk: bool, dispatchOk: bool)
    returns (actions: seq<Action>, t: State)
    requires p !in s.refunding
    ensures Path(s, actions, t) && t.hooks == s.hooks && t.passes == s.passes
    ensures var (db, result) := Processed(s.db, id, amount, merchantId, p, provider, commitOk, dispatchOk);
            t.db == db && t.refunding == s.refunding[p := if result.Success? then Returned else Threw]
  {
    var planned := PlanRefund(s.db, id, amount, merchantId);
    var s1 := RefundStep(s, p, Read(id, amount, merchantId));
    var rest: seq<Action>;
    if planned.Success? {
      PlanMeaning(s.db, id, amount, merchantId);
      rest, t := SoloPlanned(s1, p, provider, commitOk, dispatchOk);
      assert s1.refunding[p := t.refunding[p]] == s.refunding[p := t.refunding[p]];
    } else {
      rest, t := [], s1;
    }
    Prepend(s, OnRefund(p, Read(id, amount, merchantId)), rest, t);
    actions := [OnRefund(p, Read(id, amount, merchantId))] + rest;
  }

  // ----- One delivery --------------------------------------------------------------

  /** A delivery run alone: fresh, duplicate or unknown, and whichever call fails. */
  lemma SoloWebhook(s: State, p: Id, event: string, intent: Id, txOk: bool, dispatchOk: bool)
    returns (actions: seq<Action>, t: State)
    requires p !in s.hooks
    ensures Path(s, actions, t) && t.refunding == s.refunding && t.passes == s.passes
    ensures var (db, status) := Received(s.db, event, intent, txOk, dispatchOk);
            t.db == db && t.hooks == s.hooks[p := HookReplied(event, status)]
  {
    var s1 := HookStep(s, p, Deliver(event, intent, txOk));
    var rest: seq<Action>;
    if s1.hooks[p].HookCommitted? {
      t := HookStep(s1, p, AnnounceHook(dispatchOk));
      Prepend(s1, OnHook(p, AnnounceHook(dispatchOk)), [], t);
      rest := [OnHook(p, AnnounceHook(dispatchOk))] + [];
      assert s.hooks[p := HookCommitted(event, intent)][p := t.hooks[p]] == s.hooks[p := t.hooks[p]];
    } else {
      rest, t := [], s1;
    }
    Prepend(s, OnHook(p, Deliver(event, intent, txOk)), rest, t);
    actions := [OnHook(p, Deliver(event, intent, txOk))] + rest;
  }

  // ----- One keyed request -----------------------------------------------------------

  ghost predicate KeyPath(s: K.State, actions: seq<K.Action>, t: K.State)
    decreases |actions|
  {
    if actions == [] then s == t
    else K.Enabled(s, actions[0]) && KeyPath(K.Step(s, actions[0]), actions[1..], t)
  }

  lemma PrependKey(s: K.State, a: K.Action, rest: seq<K.Action>, t: K.State)
    requires K.Enabled(s, a) && KeyPath(K.Step(s, a), rest, t)
    ensures KeyPath(s, [a] + rest, t)
  {
    assert ([a] + rest)[1..] == rest;
  }

  /** The phase a request ends in, by its reply. */
  function FinalPhase(key: string, reply: P.Reply): K.Phase {
    match reply
    case Handled(outcome) => if outcome.Value? then K.Completed(key) else K.Released(key)
    case Replay(status, body) => K.Replayed(key, status, body)
    case Conflict => K.Conflicted(key)
    case StorageError => K.Aborted(key)
  }

  /** The handler of a reserved key and its callback. */
  lemma SoloHandler(s: K.State, p: Id, handler: P.Outcome, faults: P.Faults) returns (actions: seq<K.Action>, t: K.State)
    requires p in s.reqs && s.reqs[p].Running? && s.reqs[p].key in s.rows
    requires s.rows[s.reqs[p].key] == K.NewRow(p, s.reqs[p].expiresAt)
    ensures var key, locked := s.reqs[p].key, K.NewRow(p, s.reqs[p].expiresAt);
            && KeyPath(s, actions, t) && t.now == s.now
            && t.reqs == s.reqs[p := FinalPhase(key, P.Handled(handler))]
            && t.rows == if handler.Value? then s.rows[key := P.Answered(locked, handler, faults.updateOk)]
                         else if faults.releaseOk then s.rows - {key} else s.rows
  {
    var ran := if handler.Value? then K.Emit(p, handler.status, handler.body) else K.Throw(p);
    var last := if handler.Value? then K.CacheResponse(p, faults.updateOk) else K.Release(p, faults.releaseOk);
    var s1 := K.Step(s, ran);
    assert s1.reqs == s.reqs[p := s1.reqs[p]];
    t := K.Step(s1, last);
    assert t.reqs == s.reqs[p := t.reqs[p]];
    PrependKey(s1, last, [], t);
    PrependKey(s, ran, [last] + [], t);
    actions := [ran] + ([last] + []);
  }

  lemma SoloExecute(s: K.State, p: Id, handler: P.Outcome, faults: P.Faults) returns (actions: seq<K.Action>, t: K.State)
    requires p in s.reqs && s.reqs[p].Reserving?
    ensures var key := s.reqs[p].key;
            var outcome := P.Executed(s.rows, key, p, s.reqs[p].expiresAt, handler, faults);
            && KeyPath(s, actions, t) && t.now == s.now
            && t.rows == outcome.rows && t.reqs == s.reqs[p := FinalPhase(key, outcome.reply)]
  {
    var key := s.reqs[p].key;
    var s1 := K.Step(s, K.Create(p, faults.createOk));
    var rest: seq<K.Action>;
    if s1.reqs[p].Running? {
      rest, t := SoloHandler(s1, p, handler, faults);
      assert s1.reqs[p := t.reqs[p]] == s.reqs[p := t.reqs[p]];
      assert key !in s.rows && s1.rows - {key} == s.rows - {key} == s.rows;

    } else {
      rest, t := [], s1;
    }
    PrependKey(s, K.Create(p, faults.createOk), rest, t);
    actions := [K.Create(p, faults.createOk)] + rest;
  }

  /** From the first read of the table to the end. */
  lemma SoloFound(s: K.State, p: Id, handler: P.Outcome, faults: P.Faults) returns (actions: seq<K.Action>, t: K.State)
    requires p in s.reqs && s.reqs[p].Arrived?
    ensures var key := s.reqs[p].key;
            var outcome := P.Intercepted(s.rows, key, p, s.reqs[p].expiresAt, 0, s.now, handler, faults);
            && KeyPath(s, actions, t) && t.now == s.now
            && t.rows == outcome.rows && t.reqs == s.reqs[p := FinalPhase(key, outcome.reply)]
  {
    var s1 := K.Step(s, K.Find(p));
    assert s1.reqs == s.reqs[p := s1.reqs[p]];
    var rest: seq<K.Action>;
    match s1.reqs[p] {
      case SawExpired(_, _) =>
        var s2 := K.Step(s1, K.Cleanup(p, faults.deleteOk));
        assert s2.reqs == s.reqs[p := s2.reqs[p]];
        rest, t := SoloExecute(s2, p, handler, faults);
        PrependKey(s1, K.Cleanup(p, faults.deleteOk), rest, t);
        rest := [K.Cleanup(p, faults.deleteOk)] + rest;
      case Reserving(_, _) => rest, t := SoloExecute(s1, p, handler, faults);
      case _ => rest, t := [], s1;
    }
    assert t.reqs == s.reqs[p := t.reqs[p]];
    PrependKey(s, K.Find(p), rest, t);
    actions := [K.Find(p)] + rest;
  }

  /** A keyed request run alone: every state of its key, every handler and every failing call. */
  lemma SoloRequest(s: K.State, p: Id, key: string, ttl: int, checkedAt: int, handler: P.Outcome, faults: P.Faults)
    returns (actions: seq<K.Action>, t: K.State)
    requires p !in s.reqs && checkedAt >= s.now
    ensures var outcome := P.Intercepted(s.rows, key, p, ttl, s.now, checkedAt, handler, faults);
            && KeyPath(s, actions, t) && t.now == checkedAt
            && t.rows == outcome.rows && t.reqs == s.reqs[p := FinalPhase(key, outcome.reply)]
  {
    var s1 := K.Step(s, K.Arrive(p, key, ttl));
    var s2 := K.Step(s1, K.Tick(checkedAt));
    var rest: seq<K.Action>;
    rest, t := SoloFound(s2, p, handler, faults);
    assert s2.reqs[p := t.reqs[p]] == s.reqs[p := t.reqs[p]];
    PrependKey(s1, K.Tick(checkedAt), rest, t);
    PrependKey(s, K.Arrive(p, key, ttl), [K.Tick(checkedAt)] + rest, t);
    actions := [K.Arrive(p, key, ttl)] + ([K.Tick(checkedAt)] + rest);
  }

  // ----- A whole reconciliation pass ------------------------------------------------

  lemma {:induction false} PathsJoin(s: State, a: seq<Action>, t: State, b: seq<Action>, u: State)
    requires Path(s, a, t) && Path(t, b, u)
    ensures Path(s, a + b, u)
    decreases |a|
  {
    if a == [] {
      assert a + b == b;
    } else {
      PathsJoin(Step(s, a[0]), a[1..], t, b, u);
      Prepend(s, a[0], a[1..] + b, u);
      assert [a[0]] + (a[1..] + b) == a + b;
    }
  }

  ghost predicate SameElsewhere(s: State, t: State) {
    t.refunding == s.refunding && t.hooks == s.hooks
  }

  /** One iteration of the loop ended in t. */
  ghost predicate RowDone(s: State, p: Id, o: RowOracle, t: State)
    requires p in s.passes && Active(s.passes[p]) && RowInHand(s, p).id in s.db.intents
  {
    var d := Dispose(RowInHand(s, p).row, o);
    && SameElsewhere(s, t)
    && t.db == AfterRow(s.db, RowInHand(s, p).id, d, p)
    && t.passes == s.passes[p := s.passes[p].(done := s.passes[p].done + [d])]
  }

  /** The decisive iteration whose update succeeds: inquire, write, announce. */
  lemma DecisiveRow(s: State, p: Id, o: RowOracle) returns (actions: seq<Action>, t: State)
    requires p in s.passes && Active(s.passes[p]) && s.passes[p].stage == AtRow && RowInHand(s, p).id in s.db.intents
    requires HasGatewayId(RowInHand(s, p).row) && o.told.Some? && Decisive(o.told.value) && o.updateOk
    ensures Path(s, actions, t) && RowDone(s, p, o, t)
  {
    var s1 := PassStep(s, p, Inquire(o.told));
    assert s1 == AtStage(s, p, Told(o.told.value));
    var s2 := PassStep(s1, p, WriteRow(true));
    assert s2.passes[p] == s.passes[p].(stage := Written(o.told.value));
    t := PassStep(s2, p, AnnounceRow(o.dispatchOk));
    assert t.passes == s.passes[p := t.passes[p]];
    Prepend(s2, OnPass(p, AnnounceRow(o.dispatchOk)), [], t);
    Prepend(s1, OnPass(p, WriteRow(true)), [OnPass(p, AnnounceRow(o.dispatchOk))] + [], t);
    Prepend(s, OnPass(p, Inquire(o.told)), [OnPass(p, WriteRow(true))] + ([OnPass(p, AnnounceRow(o.dispatchOk))] + []), t);
    actions := [OnPass(p, Inquire(o.told))] + ([OnPass(p, WriteRow(true))] + ([OnPass(p, AnnounceRow(o.dispatchOk))] + []));
  }

  /** Every other iteration. */
  lemma QuietRow(s: State, p: Id, o: RowOracle) returns (actions: seq<Action>, t: State)
    requires p in s.passes && Active(s.passes[p]) && s.passes[p].stage == AtRow && RowInHand(s, p).id in s.db.intents
    requires !(HasGatewayId(RowInHand(s, p).row) && o.told.Some? && Decisive(o.told.value) && o.updateOk)
    ensures Path(s, actions, t) && RowDone(s, p, o, t)
  {
    var first := if HasGatewayId(RowInHand(s, p).row) then Inquire(o.told) else AgeRow(o.oneDayAgo, o.updateOk);
    var s1 := PassStep(s, p, first);
    var rest: seq<Action>;
    if s1.passes[p].stage.Told? {
      t := PassStep(s1, p, WriteRow(false));
      Prepend(s1, OnPass(p, WriteRow(false)), [], t);
      rest := [OnPass(p, WriteRow(false))] + [];
      assert t.passes == s.passes[p := t.passes[p]];
    } else {
      rest, t := [], s1;
    }
    Prepend(s, OnPass(p, first), rest, t);
    actions := [OnPass(p, first)] + rest;
  }

  lemma SoloRow(s: State, p: Id, o: RowOracle) returns (actions: seq<Action>, t: State)
    requires p in s.passes && Active(s.passes[p]) && s.passes[p].stage == AtRow && RowInHand(s, p).id in s.db.intents
    ensures Path(s, actions, t) && RowDone(s, p, o, t)
  {
    if HasGatewayId(RowInHand(s, p).row) && o.told.Some? && Decisive(o.told.value) && o.updateOk {
      actions, t := DecisiveRow(s, p, o);
    } else {
      actions, t := QuietRow(s, p, o);
    }
  }

  /** The first k iterations ended in t. */
  ghost predicate RowsDone(s: State, p: Id, order: seq<Id>, ds: seq<Disposition>, k: nat, t: State)
    requires k <= |order| == |ds| && forall id :: id in order ==> id in s.db.intents
  {
    && SameElsewhere(s, t)
    && (forall j :: 0 <= j < k ==> order[..k][j] in s.db.intents)
    && t.db == AfterRows(s.db, order[..k], ds[..k], p)
    && t.passes == s.passes[p := Pass(Scan(s.db, order), ds[..k], AtRow)]
  }

  lemma NextRowDone(s: State, p: Id, order: seq<Id>, oracle: seq<RowOracle>, k: nat, u: State, t: State)
    requires k < |order| == |oracle| && forall id :: id in order ==> id in s.db.intents
    requires RowsDone(s, p, order, Dispositions(s.db, order, oracle), k, u)
    requires Active(u.passes[p]) && RowInHand(u, p) == Scanned(order[k], s.db.intents[order[k]]) && order[k] in u.db.intents
    requires RowDone(u, p, oracle[k], t)
    ensures RowsDone(s, p, order, Dispositions(s.db, order, oracle), k + 1, t)
  {
    var ds := Dispositions(s.db, order, oracle);
    assert order[..k + 1][..k] == order[..k] && ds[..k + 1][..k] == ds[..k];
    assert ds[..k + 1] == ds[..k] + [Dispose(s.db.intents[order[k]], oracle[k])];
    var head := order[..k + 1];
    assert forall j :: 0 <= j < |head| ==> head[j] in order;
  }

  /** The first k rows of the snapshot, alone. */
  lemma {:induction false} SoloRows(s: State, p: Id, order: seq<Id>, oracle: seq<RowOracle>, k: nat)
    returns (actions: seq<Action>, t: State)
    requires |oracle| == |order| && k <= |order| && p in s.passes
    requires forall id :: id in order ==> id in s.db.intents
    requires s.passes[p] == Pass(Scan(s.db, order), [], AtRow)
    ensures Path(s, actions, t) && RowsDone(s, p, order, Dispositions(s.db, order, oracle), k, t)
  {
    if k == 0 {
      actions, t := [], s;
    } else {
      var before, u := SoloRows(s, p, order, oracle, k - 1);
      assert order[k - 1] in order;
      assert RowInHand(u, p) == Scanned(order[k - 1], s.db.intents[order[k - 1]]);
      var row;
      row, t := SoloRow(u, p, oracle[k - 1]);
      actions := before + row;
      PathsJoin(s, before, u, row, t);
      NextRowDone(s, p, order, oracle, k - 1, u, t);
    }
  }

  /** reconcileStaleIntents run alone, from its snapshot to the last row: the tables, and the
      outcomes its counters count, are those the program computes. */
  lemma SoloPass(s: State, p: Id, cutoff: int, order: seq<Id>, oracle: seq<RowOracle>)
    returns (actions: seq<Action>, t: State)
    requires PassEnabled(s, p, Start(cutoff, order)) && |oracle| == |order|
    ensures Path(s, actions, t) && SameElsewhere(s, t)
    ensures forall j :: 0 <= j < |order| ==> order[j] in s.db.intents
    ensures t.db == AfterRows(s.db, order, Dispositions(s.db, order, oracle), p)
    ensures t.passes == s.passes[p := Pass(Scan(s.db, order), Dispositions(s.db, order, oracle), AtRow)]
  {
    var s1 := PassStep(s, p, Start(cutoff, order));
    var rest;
    rest, t := SoloRows(s1, p, order, oracle, |order|);
    Prepend(s, OnPass(p, Start(cutoff, order)), rest, t);
    actions := [OnPass(p, Start(cutoff, order))] + rest;
    assert order[..|order|] == order && Dispositions(s.db, order, oracle)[..|order|] == Dispositions(s.db, order, oracle);
    assert forall j :: 0 <= j < |order| ==> order[j] in order;
  }
}
