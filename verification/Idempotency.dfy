/** src/common/idempotency/idempotency.interceptor.ts as a protocol: any number of requests, one
    awaited database call per action, one shared table of keys. */
module Idempotency {
  import opened Prelude

  type Id = string

  /** A row of the key table; `owner` tags the request that created it (bookkeeping of the model).
      statusCode and body are null until a response is cached. */
  datatype Row = Row(owner: Id, expiresAt: int, statusCode: Option<int>, body: Option<string>)

  /** What the first read tells a request. */
  datatype Found = Absent | Expired | Cached(statusCode: Option<int>, body: string) | InFlight

  predicate HasExpired(row: Row, now: int) {
    row.expiresAt < now
  }

  function Inspect(rows: map<string, Row>, key: string, now: int): Found {
    if key !in rows then Absent
    else if HasExpired(rows[key], now) then Expired
    else if rows[key].body.Some? then Cached(rows[key].statusCode, rows[key].body.value)
    else InFlight
  }

  /** The status of a replay: a stored status of 0 or null leaves the default. */
  function ReplayStatus(statusCode: Option<int>): Option<int> {
    if statusCode.Some? && statusCode.value != 0 then statusCode else None
  }

  function NewRow(owner: Id, expiresAt: int): Row {
    Row(owner, expiresAt, None, None)
  }

  /** Caching a response; an undefined body leaves the column as it is. */
  function WithResponse(row: Row, status: int, body: Option<string>): Row {
    row.(statusCode := Some(status), body := if body.Some? then body else row.body)
  }

  datatype Phase =
    | Arrived(key: string, expiresAt: int)
    | SawExpired(key: string, expiresAt: int)
    | Reserving(key: string, expiresAt: int)
    | Running(key: string, expiresAt: int)                                    // the handler is executing
    | Emitted(key: string, expiresAt: int, status: int, body: Option<string>) // handler done, response not yet cached
    | Errored(key: string, expiresAt: int)                                    // handler threw, lock not yet released
    | Replayed(key: string, replay: Option<int>, cachedBody: string)
    | Conflicted(key: string)
    | Aborted(key: string)       // failed before its handler
    | Completed(key: string)     // after the caching attempt
    | Released(key: string)      // after the release attempt
    | Crashed(key: string)       // died while or after its handler ran

  /** The handler has started and the interceptor's callbacks have not finished. */
  predicate Live(phase: Phase) {
    phase.Running? || phase.Emitted? || phase.Errored?
  }

  /** The handler was started at some point. */
  predicate Ran(phase: Phase) {
    Live(phase) || phase.Completed? || phase.Released? || phase.Crashed?
  }

  /** A callback that changed a row: caching a response or releasing the lock. */
  datatype Touch = Touch(key: string, owner: Id, request: Id, caching: bool)

  datatype State = State(now: int, rows: map<string, Row>, reqs: map<Id, Phase>, touches: seq<Touch>)

  datatype Action =
    | Tick(to: int)
    | Arrive(p: Id, key: string, ttl: int)
    | Find(p: Id)
    | Cleanup(p: Id, ok: bool)
    | Create(p: Id, ok: bool)
    | Emit(p: Id, status: int, body: Option<string>)
    | Throw(p: Id)
    | CacheResponse(p: Id, ok: bool)
    | Release(p: Id, ok: bool)
    | Crash(p: Id)

  ghost predicate Enabled(s: State, a: Action) {
    match a
    case Tick(to) => to >= s.now
    case Arrive(p, _, _) => p !in s.reqs
    case Find(p) => p in s.reqs && s.reqs[p].Arrived?
    case Cleanup(p, _) => p in s.reqs && s.reqs[p].SawExpired?
    case Create(p, _) => p in s.reqs && s.reqs[p].Reserving?
    case Emit(p, _, _) => p in s.reqs && s.reqs[p].Running?
    case Throw(p) => p in s.reqs && s.reqs[p].Running?
    case CacheResponse(p, _) => p in s.reqs && s.reqs[p].Emitted?
    case Release(p, _) => p in s.reqs && s.reqs[p].Errored?
    case Crash(p) => p in s.reqs && (Live(s.reqs[p]) || s.reqs[p].Arrived? || s.reqs[p].SawExpired? || s.reqs[p].Reserving?)
  }

  function Moved(s: State, p: Id, phase: Phase): State {
    s.(reqs := s.reqs[p := phase])
  }

  function Without(rows: map<string, Row>, key: string): map<string, Row> {
    rows - {key}
  }

  function Touched(s: State, p: Id, key: string, caching: bool): seq<Touch> {
    if key in s.rows then s.touches + [Touch(key, s.rows[key].owner, p, caching)] else s.touches
  }

  ghost function Step(s: State, a: Action): State
    requires Enabled(s, a)
  {
    match a
    case Tick(to) => s.(now := to)
    case Arrive(p, key, ttl) => Moved(s, p, Arrived(key, s.now + ttl))
    case Find(p) =>
      var key, expiresAt := s.reqs[p].key, s.reqs[p].expiresAt;
      Moved(s, p,
        match Inspect(s.rows, key, s.now)
        case Absent => Reserving(key, expiresAt)
        case Expired => SawExpired(key, expiresAt)
        case Cached(statusCode, body) => Replayed(key, ReplayStatus(statusCode), body)
        case InFlight => Conflicted(key))
    case Cleanup(p, ok) =>
      var key := s.reqs[p].key;
      Moved(if ok then s.(rows := Without(s.rows, key)) else s, p, Reserving(key, s.reqs[p].expiresAt))
    case Create(p, ok) =>
      var key, expiresAt := s.reqs[p].key, s.reqs[p].expiresAt;
      if !ok then Moved(s, p, Aborted(key))
      else if key in s.rows then Moved(s, p, Conflicted(key))
      else Moved(s.(rows := s.rows[key := NewRow(p, expiresAt)]), p, Running(key, expiresAt))
    case Emit(p, status, body) =>
      Moved(s, p, Emitted(s.reqs[p].key, s.reqs[p].expiresAt, if status == 0 then 200 else status, body))
    case Throw(p) => Moved(s, p, Errored(s.reqs[p].key, s.reqs[p].expiresAt))
    case CacheResponse(p, ok) =>
      var key := s.reqs[p].key;
      Moved(if ok && key in s.rows
            then s.(rows := s.rows[key := WithResponse(s.rows[key], s.reqs[p].status, s.reqs[p].body)], touches := Touched(s, p, key, true))
            else s, p, Completed(key))
    case Release(p, ok) =>
      var key := s.reqs[p].key;
      Moved(if ok then s.(rows := Without(s.rows, key), touches := Touched(s, p, key, false)) else s, p, Released(key))
    case Crash(p) => Moved(s, p, if Live(s.reqs[p]) then Crashed(s.reqs[p].key) else Aborted(s.reqs[p].key))
  }

  const INITIAL := State(0, map[], map[], [])

  ghost predicate IsRun(trace: seq<State>, actions: seq<Action>) {
    && |trace| == |actions| + 1
    && trace[0] == INITIAL
    && forall k :: 0 <= k < |actions| ==> Enabled(trace[k], actions[k]) && trace[k + 1] == Step(trace[k], actions[k])
  }

  // ----- The hypotheses ------------------------------------------------------------

  /** Every handler, with its callbacks, finishes before its own row expires. */
  ghost predicate Timely(s: State) {
    forall p :: p in s.reqs && Live(s.reqs[p]) ==> s.now <= s.reqs[p].expiresAt
  }

  /** No row for a key is created between another request's read of an expired row and its delete. */
  ghost predicate CleanupsUndisturbed(s: State, a: Action)
    requires Enabled(s, a)
  {
    a.Create? && a.ok && s.reqs[a.p].key !in s.rows ==>
      forall q :: q in s.reqs && s.reqs[q].SawExpired? ==> s.reqs[q].key != s.reqs[a.p].key
  }

  // ----- The invariant -------------------------------------------------------------

  /** A live request's row is in the table, is its own, and is still without a response. */
  ghost predicate OwnsRow(s: State, p: Id)
    requires p in s.reqs && Live(s.reqs[p])
  {
    s.reqs[p].key in s.rows && s.rows[s.reqs[p].key] == NewRow(p, s.reqs[p].expiresAt)
  }

  ghost predicate LiveOwn(s: State) {
    forall p :: p in s.reqs && Live(s.reqs[p]) ==> OwnsRow(s, p)
  }

  /** A row seen as expired is still an expired one, or gone. */
  ghost predicate ExpiredStayExpired(s: State) {
    forall p :: p in s.reqs && s.reqs[p].SawExpired? && s.reqs[p].key in s.rows ==> HasExpired(s.rows[s.reqs[p].key], s.now)
  }

  /** Callbacks changed only their own rows, each request at most once. */
  ghost predicate TouchesOwn(s: State) {
    && (forall k :: 0 <= k < |s.touches| ==>
          var t := s.touches[k]; t.owner == t.request && t.request in s.reqs && (s.reqs[t.request].Completed? || s.reqs[t.request].Released?))
    && (forall j, k :: 0 <= j < k < |s.touches| ==> s.touches[j].owner != s.touches[k].owner)
  }

  /** Every row belongs to a request of its key that has run its handler. */
  ghost predicate RowsOwned(s: State) {
    forall k :: k in s.rows ==> RowOwned(s.reqs, k, s.rows[k].owner)
  }

  ghost predicate RowOwned(reqs: map<Id, Phase>, key: string, owner: Id) {
    owner in reqs && reqs[owner].key == key && Ran(reqs[owner])
  }

  ghost predicate Owned(s: State) {
    LiveOwn(s) && TouchesOwn(s) && RowsOwned(s)
  }

  ghost predicate Locked(s: State) {
    Owned(s) && ExpiredStayExpired(s)
  }

  ghost predicate Exclusive(s: State) {
    forall p, q :: p in s.reqs && q in s.reqs && Live(s.reqs[p]) && Live(s.reqs[q]) && s.reqs[p].key == s.reqs[q].key ==> p == q
  }

  lemma LockedExcludes(s: State)
    requires LiveOwn(s)
    ensures Exclusive(s)
  {
  }

  // ----- Exactly when live handlers keep their rows --------------------------------

  /** What the delete by key does not check: the row it removes belongs to nobody still running. */
  ghost predicate CleanupSparesLive(s: State, a: Action)
    requires Enabled(s, a)
  {
    a.Cleanup? && a.ok && s.reqs[a.p].key in s.rows ==>
      var owner := s.rows[s.reqs[a.p].key].owner; owner in s.reqs ==> !Live(s.reqs[owner])
  }

  lemma OwnersAdvance(s: State, a: Action, key: string, owner: Id)
    requires Enabled(s, a) && RowOwned(s.reqs, key, owner)
    ensures RowOwned(Step(s, a).reqs, key, owner)
  {
  }

  lemma StepKeepsRowsOwned(s: State, a: Action)
    requires RowsOwned(s) && Enabled(s, a)
    ensures RowsOwned(Step(s, a))
  {
    var s' := Step(s, a);
    forall k | k in s'.rows ensures RowOwned(s'.reqs, k, s'.rows[k].owner) {
      if k in s.rows {
        assert s'.rows[k].owner == s.rows[k].owner;
        OwnersAdvance(s, a, k, s.rows[k].owner);
      }
    }
  }

  /** A step that leaves the row of every live request alone. */
  lemma SparingKeepsOwned(s: State, a: Action)
    requires Owned(s) && Enabled(s, a) && CleanupSparesLive(s, a) && !a.CacheResponse? && !a.Release?
    ensures LiveOwn(Step(s, a)) && TouchesOwn(Step(s, a))
  {
    var s' := Step(s, a);
    forall q | q in s'.reqs && Live(s'.reqs[q]) ensures OwnsRow(s', q) {
      assert q in s.reqs && Live(s.reqs[q]) ==> OwnsRow(s, q);
    }
  }

  lemma CallbackKeepsOwned(s: State, a: Action)
    requires Owned(s) && (a.CacheResponse? || a.Release?) && Enabled(s, a)
    ensures LiveOwn(Step(s, a)) && TouchesOwn(Step(s, a))
  {
    LockedExcludes(s);
    assert OwnsRow(s, a.p);
    var s' := Step(s, a);
    forall q | q in s'.reqs && Live(s'.reqs[q]) ensures OwnsRow(s', q) {
      assert OwnsRow(s, q);
    }
  }

  lemma StepOwnedIff(s: State, a: Action)
    requires Owned(s) && Enabled(s, a)
    ensures LiveOwn(Step(s, a)) <==> CleanupSparesLive(s, a)
    ensures CleanupSparesLive(s, a) ==> Owned(Step(s, a))
  {
    StepKeepsRowsOwned(s, a);
    if a.CacheResponse? || a.Release? {
      CallbackKeepsOwned(s, a);
    } else if CleanupSparesLive(s, a) {
      SparingKeepsOwned(s, a);
    } else {
      var owner := s.rows[s.reqs[a.p].key].owner;
      assert RowOwned(s.reqs, s.reqs[a.p].key, owner);
      assert !OwnsRow(Step(s, a), owner);
    }
  }

  /** Without any hypothesis: live handlers keep their rows throughout a run exactly when no cleanup
      deletes the row of a live one; and then handlers of a key exclude each other, and callbacks
      change only their own rows. */
  lemma {:induction false} RowsKeptIffCleanupsSpareLive(trace: seq<State>, actions: seq<Action>)
    requires IsRun(trace, actions)
    ensures (forall k :: 0 <= k < |trace| ==> LiveOwn(trace[k]))
            <==> (forall k :: 0 <= k < |actions| ==> CleanupSparesLive(trace[k], actions[k]))
    ensures (forall k :: 0 <= k < |actions| ==> CleanupSparesLive(trace[k], actions[k])) ==>
              forall k :: 0 <= k < |trace| ==> Exclusive(trace[k]) && TouchesOwn(trace[k])
  {
    var n := 0;
    while n < |actions| && CleanupSparesLive(trace[n], actions[n])
      invariant 0 <= n <= |actions|
      invariant forall j :: 0 <= j <= n ==> Owned(trace[j])
      invariant forall j :: 0 <= j < n ==> CleanupSparesLive(trace[j], actions[j])
    {
      StepOwnedIff(trace[n], actions[n]);
      n := n + 1;
    }
    if n < |actions| {
      StepOwnedIff(trace[n], actions[n]);
      assert !LiveOwn(trace[n + 1]);
    } else {
      forall k | 0 <= k < |trace| ensures Exclusive(trace[k]) && TouchesOwn(trace[k]) {
        assert Owned(trace[k]);
        LockedExcludes(trace[k]);
      }
    }
  }

  // ----- The two hypotheses imply it -----------------------------------------------

  /** A row a cleanup removes has expired, and no live request's row has. */
  lemma ExpiredIsNotLive(s: State, a: Action)
    requires Locked(s) && Timely(s) && Enabled(s, a)
    ensures CleanupSparesLive(s, a)
  {
    if a.Cleanup? && s.reqs[a.p].key in s.rows {
      var owner := s.rows[s.reqs[a.p].key].owner;
      assert RowOwned(s.reqs, s.reqs[a.p].key, owner);
      assert Live(s.reqs[owner]) ==> OwnsRow(s, owner);
    }
  }

  lemma StepKeepsExpired(s: State, a: Action)
    requires Locked(s) && Timely(s) && Enabled(s, a) && CleanupsUndisturbed(s, a)
    ensures ExpiredStayExpired(Step(s, a))
  {
    assert a.CacheResponse? || a.Release? ==> OwnsRow(s, a.p);
  }

  lemma StepKeepsLocked(s: State, a: Action)
    requires Locked(s) && Timely(s) && Enabled(s, a) && CleanupsUndisturbed(s, a)
    ensures Locked(Step(s, a))
  {
    ExpiredIsNotLive(s, a);
    StepOwnedIff(s, a);
    StepKeepsExpired(s, a);
  }

  /** Mutual exclusion over every interleaving of any number of requests: at most one handler per
      key at a time, callbacks change only their own request's row, and each row gets at most one. */
  lemma {:induction false} IdempotencyExclusion(trace: seq<State>, actions: seq<Action>)
    requires IsRun(trace, actions)
    requires forall k :: 0 <= k < |trace| ==> Timely(trace[k])
    requires forall k :: 0 <= k < |actions| ==> CleanupsUndisturbed(trace[k], actions[k])
    ensures forall k :: 0 <= k < |trace| ==> Locked(trace[k]) && Exclusive(trace[k])
    ensures forall k, p, q :: 0 <= k < |trace| && p in trace[k].reqs && q in trace[k].reqs && p != q
                              && (trace[k].reqs[p].Running? || trace[k].reqs[p].Emitted? || trace[k].reqs[p].Errored?)
                              && (trace[k].reqs[q].Running? || trace[k].reqs[q].Emitted? || trace[k].reqs[q].Errored?) ==>
              trace[k].reqs[p].key != trace[k].reqs[q].key
  {
    for k := 0 to |actions|
      invariant forall j :: 0 <= j <= k ==> Locked(trace[j])
    {
      StepKeepsLocked(trace[k], actions[k]);
    }
    forall k | 0 <= k < |trace| ensures Exclusive(trace[k]) {
      LockedExcludes(trace[k]);
    }
  }
}
