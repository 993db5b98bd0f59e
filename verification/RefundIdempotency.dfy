/** The interceptor around the refund handler: requests with an Idempotency-Key interleaved with
    each other and with everything that moves the ledger. */
module RefundIdempotency {
  import opened Prelude
  import T = Tables
  import I = Idempotency
  import L = LedgerProtocol

  type Id = string

  /** Both protocols side by side; a request has the same name in both. */
  datatype State = State(idem: I.State, ledger: L.State)

  datatype Action = OnKeys(keys: I.Action) | OnLedger(ledger: L.Action)

  /** A refund with a key starts only as the handler of its own request, and the handler emits or
      throws as the refund did. */
  ghost predicate Enabled(s: State, a: Action) {
    match a
    case OnKeys(k) =>
      && I.Enabled(s.idem, k)
      && (k.Arrive? ==> k.p !in s.ledger.refunding)
      && (k.Emit? && k.p in s.ledger.refunding ==> s.ledger.refunding[k.p].Returned?)
      && (k.Throw? && k.p in s.ledger.refunding ==> s.ledger.refunding[k.p].Threw?)
    case OnLedger(l) =>
      && L.Enabled(s.ledger, l)
      && (l.OnRefund? && l.refund.Read? && l.p in s.idem.reqs ==> s.idem.reqs[l.p].Running?)
  }

  ghost function Step(s: State, a: Action): State
    requires Enabled(s, a)
  {
    match a
    case OnKeys(k) => s.(idem := I.Step(s.idem, k))
    case OnLedger(l) => s.(ledger := L.Step(s.ledger, l))
  }

  ghost predicate IsRun(trace: seq<State>, actions: seq<Action>) {
    && |trace| == |actions| + 1
    && trace[0] == State(I.INITIAL, L.INITIAL)
    && forall k :: 0 <= k < |actions| ==> Enabled(trace[k], actions[k]) && trace[k + 1] == Step(trace[k], actions[k])
  }

  /** The hypothesis: no request finds the key's row expired. */
  ghost predicate KeyNotExpired(s: State, a: Action, key: string)
    requires Enabled(s, a)
  {
    a.OnKeys? && a.keys.Find? && s.idem.reqs[a.keys.p].key == key ==> I.Inspect(s.idem.rows, key, s.idem.now) != I.Expired
  }

  // ----- One execution survives per key --------------------------------------------

  /** The executions of the key's handler. */
  ghost function Executions(reqs: map<Id, I.Phase>, key: string): set<Id> {
    set p | p in reqs && I.Ran(reqs[p]) && reqs[p].key == key
  }

  /** Those whose handler threw. */
  ghost function FailedExecutions(reqs: map<Id, I.Phase>, key: string): set<Id> {
    set p | p in reqs && (reqs[p].Errored? || reqs[p].Released?) && reqs[p].key == key
  }

  /** Without expiry, an execution that has not released its lock still holds the key's row. */
  ghost predicate Holds(s: I.State, key: string) {
    && (forall p :: p in s.reqs && s.reqs[p].key == key && I.Ran(s.reqs[p]) && !s.reqs[p].Released? ==>
          key in s.rows && s.rows[key].owner == p)
    && (forall p :: p in s.reqs && s.reqs[p].key == key ==> !s.reqs[p].SawExpired?)
  }

  lemma StepKeepsHolds(s: I.State, a: I.Action, key: string)
    requires Holds(s, key) && I.Enabled(s, a)
    requires a.Find? && s.reqs[a.p].key == key ==> I.Inspect(s.rows, key, s.now) != I.Expired
    ensures Holds(I.Step(s, a), key)
  {
  }

  lemma AtMostOneSurvivor(s: I.State, key: string)
    requires Holds(s, key)
    ensures |Executions(s.reqs, key)| <= |FailedExecutions(s.reqs, key)| + 1
  {
    var all, failed := Executions(s.reqs, key), FailedExecutions(s.reqs, key);
    var survivors := all - failed;
    if p :| p in survivors {
      forall q | q in survivors ensures q == p {
      }
      assert survivors == {p};
    }
    assert all == failed + survivors;
    UnionBound(failed, survivors);
  }

  lemma UnionBound(a: set<Id>, b: set<Id>)
    requires |b| <= 1
    ensures |a + b| <= |a| + 1
  {
  }

  // ----- One refund row per execution ----------------------------------------------

  /** A refund row is written by a request that has left its window, one row each. */
  ghost predicate RowsByRequests(refunds: seq<T.Refund>, refunding: map<Id, L.RefundProc>) {
    && (forall k :: 0 <= k < |refunds| ==> refunds[k].request in refunding && !L.InWindow(refunding[refunds[k].request]))
    && (forall j, k :: 0 <= j < k < |refunds| ==> refunds[j].request != refunds[k].request)
  }

  lemma StepKeepsRowsByRequests(s: L.State, a: L.Action)
    requires RowsByRequests(s.db.refunds, s.refunding) && L.Enabled(s, a)
    ensures RowsByRequests(L.Step(s, a).db.refunds, L.Step(s, a).refunding)
  {
    match a
    case Checkout(_, _, _, _, _, _, _) =>
    case OnRefund(p, refund) => RefundKeepsRowsByRequests(s, p, refund);
    case OnHook(p, hook) => assert L.HookStep(s, p, hook).db.refunds == s.db.refunds;
    case OnPass(p, pass) => assert L.PassStep(s, p, pass).db.refunds == s.db.refunds;
  }

  lemma MoveKeepsRowsByRequests(refunds: seq<T.Refund>, refunding: map<Id, L.RefundProc>, p: Id, proc: L.RefundProc)
    requires RowsByRequests(refunds, refunding)
    requires p in refunding && L.InWindow(proc) ==> L.InWindow(refunding[p])
    ensures RowsByRequests(refunds, refunding[p := proc])
  {
  }

  lemma CommitKeepsRowsByRequests(refunds: seq<T.Refund>, refunding: map<Id, L.RefundProc>, row: T.Refund, proc: L.RefundProc)
    requires RowsByRequests(refunds, refunding)
    requires row.request in refunding && L.InWindow(refunding[row.request]) && !L.InWindow(proc)
    ensures RowsByRequests(refunds + [row], refunding[row.request := proc])
  {
  }

  lemma RefundKeepsRowsByRequests(s: L.State, p: Id, a: L.RefundAction)
    requires RowsByRequests(s.db.refunds, s.refunding) && L.RefundEnabled(s, p, a)
    ensures RowsByRequests(L.RefundStep(s, p, a).db.refunds, L.RefundStep(s, p, a).refunding)
  {
    var s' := L.RefundStep(s, p, a);
    assert s'.refunding == s.refunding[p := s'.refunding[p]];
    if a.CommitRow? && a.ok {
      var n := |s.db.refunds|;
      assert s'.db.refunds == s.db.refunds + [s'.db.refunds[n]] && s'.db.refunds[n].request == p;
      CommitKeepsRowsByRequests(s.db.refunds, s.refunding, s'.db.refunds[n], s'.refunding[p]);
    } else {
      assert s'.db.refunds == s.db.refunds;
      MoveKeepsRowsByRequests(s.db.refunds, s.refunding, p, s'.refunding[p]);
    }
  }

  /** A keyed refund belongs to an execution of its request. */
  ghost predicate RefundsAreExecutions(s: State) {
    forall p :: p in s.ledger.refunding && p in s.idem.reqs ==> I.Ran(s.idem.reqs[p])
  }

  lemma StepKeepsRefundsAreExecutions(s: State, a: Action)
    requires RefundsAreExecutions(s) && Enabled(s, a)
    ensures RefundsAreExecutions(Step(s, a))
  {
    match a
    case OnKeys(k) => assert forall p :: p in s.idem.reqs && I.Ran(s.idem.reqs[p]) ==> I.Ran(I.Step(s.idem, k).reqs[p]);
    case OnLedger(l) =>
      match l
      case Checkout(_, _, _, _, _, _, _) =>
      case OnRefund(p, refund) => assert L.RefundStep(s.ledger, p, refund).refunding.Keys == s.ledger.refunding.Keys + {p};
      case OnHook(p, hook) => assert L.HookStep(s.ledger, p, hook).refunding == s.ledger.refunding;
      case OnPass(p, pass) => assert L.PassStep(s.ledger, p, pass).refunding == s.ledger.refunding;
  }

  /** The requests, in order, behind the refund rows recorded under a key. */
  function RowsUnderKey(refunds: seq<T.Refund>, reqs: map<Id, I.Phase>, key: string): seq<Id> {
    if refunds == [] then []
    else
      var r := refunds[|refunds| - 1].request;
      RowsUnderKey(refunds[..|refunds| - 1], reqs, key) + if r in reqs && reqs[r].key == key then [r] else []
  }

  lemma {:induction false} RowsUnderKeyPositions(refunds: seq<T.Refund>, reqs: map<Id, I.Phase>, key: string, p: T.Refund -> bool)
    requires forall r :: p(r) <==> r.request in reqs && reqs[r.request].key == key
    ensures |RowsUnderKey(refunds, reqs, key)| == |Positions(refunds, p)|
  {
    if refunds != [] {
      RowsUnderKeyPositions(refunds[..|refunds| - 1], reqs, key, p);
      CountLast(refunds, p);
    }
  }

  /** One for each refund row of a request with the key. */
  lemma RowsUnderKeyMeaning(refunds: seq<T.Refund>, reqs: map<Id, I.Phase>, key: string)
    ensures |RowsUnderKey(refunds, reqs, key)| == |set k | 0 <= k < |refunds| && refunds[k].request in reqs && reqs[refunds[k].request].key == key|
  {
    var p := (r: T.Refund) => r.request in reqs && reqs[r.request].key == key;
    RowsUnderKeyPositions(refunds, reqs, key, p);
    assert Positions(refunds, p) == set k | 0 <= k < |refunds| && refunds[k].request in reqs && reqs[refunds[k].request].key == key;
  }

  lemma {:induction false} RowsUnderKeyDistinct(refunds: seq<T.Refund>, reqs: map<Id, I.Phase>, refunding: map<Id, L.RefundProc>, key: string)
    requires RowsByRequests(refunds, refunding)
    ensures Distinct(RowsUnderKey(refunds, reqs, key))
    ensures forall r :: r in RowsUnderKey(refunds, reqs, key) ==>
              r in reqs && reqs[r].key == key && exists k :: 0 <= k < |refunds| && refunds[k].request == r
  {
    if refunds != [] {
      var front := refunds[..|refunds| - 1];
      RowsUnderKeyDistinct(front, reqs, refunding, key);
      forall r | r in RowsUnderKey(front, reqs, key) ensures exists k :: 0 <= k < |refunds| - 1 && refunds[k].request == r {
        var k :| 0 <= k < |front| && front[k].request == r;
        assert refunds[k].request == r;
      }
    }
  }

  ghost predicate Composed(s: State, key: string) {
    Holds(s.idem, key) && RowsByRequests(s.ledger.db.refunds, s.ledger.refunding) && RefundsAreExecutions(s)
  }

  lemma StepKeepsComposed(s: State, a: Action, key: string)
    requires Composed(s, key) && Enabled(s, a) && KeyNotExpired(s, a, key)
    ensures Composed(Step(s, a), key)
  {
    StepKeepsRefundsAreExecutions(s, a);
    match a
    case OnKeys(k) => StepKeepsHolds(s.idem, k, key);
    case OnLedger(l) => StepKeepsRowsByRequests(s.ledger, l);
  }

  lemma BoundHere(s: State, key: string)
    requires Composed(s, key)
    ensures |RowsUnderKey(s.ledger.db.refunds, s.idem.reqs, key)| <= |FailedExecutions(s.idem.reqs, key)| + 1
  {
    var rows := RowsUnderKey(s.ledger.db.refunds, s.idem.reqs, key);
    RowsUnderKeyDistinct(s.ledger.db.refunds, s.idem.reqs, s.ledger.refunding, key);
    DistinctFits(rows, Executions(s.idem.reqs, key));
    AtMostOneSurvivor(s.idem, key);
  }

  /** While no row of a key expires, the refund rows recorded by requests carrying that key number
      at most the key's failed executions plus one: retries of a request that succeeded never
      refund again. */
  lemma {:induction false} RefundsPerKeyBounded(trace: seq<State>, actions: seq<Action>, key: string)
    requires IsRun(trace, actions)
    requires forall k :: 0 <= k < |actions| ==> KeyNotExpired(trace[k], actions[k], key)
    ensures forall k :: 0 <= k < |trace| ==>
              var refunds, reqs := trace[k].ledger.db.refunds, trace[k].idem.reqs;
              |set n | 0 <= n < |refunds| && refunds[n].request in reqs && reqs[refunds[n].request].key == key|
              <= |set p | p in reqs && (reqs[p].Errored? || reqs[p].Released?) && reqs[p].key == key| + 1
  {
    for k := 0 to |actions|
      invariant forall j :: 0 <= j <= k ==> Composed(trace[j], key)
    {
      StepKeepsComposed(trace[k], actions[k], key);
    }
    forall k | 0 <= k < |trace|
      ensures var refunds, reqs := trace[k].ledger.db.refunds, trace[k].idem.reqs;
              |set n | 0 <= n < |refunds| && refunds[n].request in reqs && reqs[refunds[n].request].key == key|
              <= |set p | p in reqs && (reqs[p].Errored? || reqs[p].Released?) && reqs[p].key == key| + 1
    {
      BoundHere(trace[k], key);
      RowsUnderKeyMeaning(trace[k].ledger.db.refunds, trace[k].idem.reqs, key);
    }
  }

  // ----- After the response is cached ----------------------------------------------

  /** The key's row carries request p's response, and p is done. */
  ghost predicate CarriesResponse(s: I.State, key: string, p: Id, status: int, body: string) {
    && p in s.reqs && s.reqs[p] == I.Completed(key)
    && key in s.rows && s.rows[key].owner == p
    && s.rows[key].statusCode == Some(status) && s.rows[key].body == Some(body)
  }

  lemma StepKeepsCarrying(s: I.State, a: I.Action, key: string, p: Id, status: int, body: string)
    requires Holds(s, key) && I.Enabled(s, a) && CarriesResponse(s, key, p, status, body)
    requires a.Find? && s.reqs[a.p].key == key ==> I.Inspect(s.rows, key, s.now) != I.Expired
    ensures CarriesResponse(I.Step(s, a), key, p, status, body)
    ensures a.Find? && s.reqs[a.p].key == key ==> I.Step(s, a).reqs[a.p] == I.Replayed(key, I.ReplayStatus(Some(status)), body)
  {
  }

  /** A key whose row is in the table starts no handler. */
  lemma TakenKeyStartsNothing(s: I.State, a: I.Action, key: string)
    requires I.Enabled(s, a) && key in s.rows
    ensures Executions(I.Step(s, a).reqs, key) == Executions(s.reqs, key)
  {
    if !a.Tick? {
      var s' := I.Step(s, a);
      assert s'.reqs == s.reqs[a.p := s'.reqs[a.p]];
      SameExecutions(s.reqs, a.p, s'.reqs[a.p], key);
    }
  }

  lemma SameExecutions(reqs: map<Id, I.Phase>, p: Id, phase: I.Phase, key: string)
    requires (p in reqs && I.Ran(reqs[p]) && reqs[p].key == key) <==> (I.Ran(phase) && phase.key == key)
    ensures Executions(reqs[p := phase], key) == Executions(reqs, key)
  {
  }

  /** While no row of a key expires, caching a response ends its executions for good: every later
      request that looks the key up is replayed that status and body, and no handler of the key
      starts again, not even one of a request that had read the table before. */
  lemma {:induction false} CachedKeyNeverRunsAgain(trace: seq<State>, actions: seq<Action>, key: string, at: nat, p: Id)
    requires IsRun(trace, actions) && at < |actions|
    requires forall k :: 0 <= k < |actions| ==> KeyNotExpired(trace[k], actions[k], key)
    requires actions[at] == OnKeys(I.CacheResponse(p, true)) && trace[at].idem.reqs[p].key == key && trace[at].idem.reqs[p].body.Some?
    ensures forall j :: at < j < |trace| ==>
              Executions(trace[j].idem.reqs, key) == Executions(trace[at + 1].idem.reqs, key)
    ensures forall j :: at < j < |actions| && actions[j].OnKeys? && actions[j].keys.Find? && trace[j].idem.reqs[actions[j].keys.p].key == key ==>
              trace[j + 1].idem.reqs[actions[j].keys.p]
              == I.Replayed(key, I.ReplayStatus(Some(trace[at].idem.reqs[p].status)), trace[at].idem.reqs[p].body.value)
  {
    var done := trace[at].idem.reqs[p];
    for k := 0 to |actions|
      invariant forall j :: 0 <= j <= k ==> Holds(trace[j].idem, key)
    {
      if actions[k].OnKeys? {
        StepKeepsHolds(trace[k].idem, actions[k].keys, key);
      }
    }
    for k := at + 1 to |actions|
      invariant CarriesResponse(trace[k].idem, key, p, done.status, done.body.value)
      invariant forall j :: at < j <= k ==> Executions(trace[j].idem.reqs, key) == Executions(trace[at + 1].idem.reqs, key)
      invariant forall j :: at < j < k && actions[j].OnKeys? && actions[j].keys.Find? && trace[j].idem.reqs[actions[j].keys.p].key == key ==>
                  trace[j + 1].idem.reqs[actions[j].keys.p] == I.Replayed(key, I.ReplayStatus(Some(done.status)), done.body.value)
    {
      if actions[k].OnKeys? {
        TakenKeyStartsNothing(trace[k].idem, actions[k].keys, key);
        StepKeepsCarrying(trace[k].idem, actions[k].keys, key, p, done.status, done.body.value);
      }
    }
  }
}
