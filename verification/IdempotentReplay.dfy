/** A cached response is replayed, unchanged and without running the handler, until its row expires;
    and concrete runs showing why the exclusion theorem needs its hypotheses. */
module IdempotentReplay {
  import opened Prelude
  import opened Idempotency

  /** Cached responses carry a status, and it is not 0. */
  ghost predicate StatusesKept(s: State) {
    && (forall k :: k in s.rows && s.rows[k].body.Some? ==> s.rows[k].statusCode.Some? && s.rows[k].statusCode.value != 0)
    && (forall p :: p in s.reqs && s.reqs[p].Emitted? ==> s.reqs[p].status != 0)
  }

  lemma TimeAdvances(trace: seq<State>, actions: seq<Action>, from: nat, to: nat)
    requires IsRun(trace, actions) && from <= to < |trace|
    ensures trace[from].now <= trace[to].now
  {
    for k := from to to
      invariant trace[from].now <= trace[k].now
    {
      assert Enabled(trace[k], actions[k]) && trace[k + 1] == Step(trace[k], actions[k]);
    }
  }

  ghost predicate HasResponse(s: State, key: string, row: Row) {
    key in s.rows && s.rows[key] == row && row.body.Some?
  }

  lemma StepKeepsResponse(s: State, a: Action, key: string, row: Row)
    requires Locked(s) && Enabled(s, a) && HasResponse(s, key, row) && s.now <= row.expiresAt
    ensures HasResponse(Step(s, a), key, row)
    ensures a.Find? && s.reqs[a.p].key == key ==> Step(s, a).reqs[a.p] == Replayed(key, ReplayStatus(row.statusCode), row.body.value)
    ensures a.Create? && s.reqs[a.p].key == key ==> !Live(Step(s, a).reqs[a.p])
  {
    assert a.CacheResponse? || a.Release? ==> OwnsRow(s, a.p);
  }

  /** From the moment a response is cached until its row expires, every request that looks the key
      up is given that very status and body, and no handler runs for the key. */
  lemma {:induction false} CachedResponseIsReplayed(trace: seq<State>, actions: seq<Action>, at: nat, p: Id)
    requires IsRun(trace, actions) && at < |actions|
    requires forall k :: 0 <= k < |trace| ==> Timely(trace[k])
    requires forall k :: 0 <= k < |actions| ==> CleanupsUndisturbed(trace[k], actions[k])
    requires actions[at] == CacheResponse(p, true) && trace[at].reqs[p].body.Some?
    ensures var done := trace[at].reqs[p];
            forall j :: at < j < |trace| && trace[j].now <= done.expiresAt ==>
              && HasResponse(trace[j], done.key, Row(p, done.expiresAt, Some(done.status), done.body))
              && (forall q :: q in trace[j].reqs && Live(trace[j].reqs[q]) ==> trace[j].reqs[q].key != done.key)
              && (j < |actions| && actions[j].Find? && trace[j].reqs[actions[j].p].key == done.key ==>
                  trace[j + 1].reqs[actions[j].p] == Replayed(done.key, ReplayStatus(Some(done.status)), done.body.value))
  {
    IdempotencyExclusion(trace, actions);
    var done := trace[at].reqs[p];
    var row := Row(p, done.expiresAt, Some(done.status), done.body);
    assert OwnsRow(trace[at], p);
    forall j | at < j < |trace| && trace[j].now <= done.expiresAt
      ensures HasResponse(trace[j], done.key, row)
    {
      for k := at + 1 to j
        invariant HasResponse(trace[k], done.key, row)
      {
        TimeAdvances(trace, actions, k, j);
        StepKeepsResponse(trace[k], actions[k], done.key, row);
      }
    }
    forall j | at < j < |trace| && trace[j].now <= done.expiresAt
      ensures forall q :: q in trace[j].reqs && Live(trace[j].reqs[q]) ==> trace[j].reqs[q].key != done.key
      ensures j < |actions| && actions[j].Find? && trace[j].reqs[actions[j].p].key == done.key ==>
                trace[j + 1].reqs[actions[j].p] == Replayed(done.key, ReplayStatus(Some(done.status)), done.body.value)
    {
      assert Locked(trace[j]);
      forall q | q in trace[j].reqs && Live(trace[j].reqs[q]) ensures trace[j].reqs[q].key != done.key {
        assert OwnsRow(trace[j], q);
      }
      if j < |actions| {
        StepKeepsResponse(trace[j], actions[j], done.key, row);
      }
    }
  }

  lemma StepKeepsStatuses(s: State, a: Action)
    requires Enabled(s, a) && StatusesKept(s)
    ensures StatusesKept(Step(s, a))
  {
  }

  /** So a replay always carries the cached status itself. */
  lemma {:induction false} ReplaysCarryStatus(trace: seq<State>, actions: seq<Action>)
    requires IsRun(trace, actions)
    ensures forall j :: 0 <= j < |trace| ==> StatusesKept(trace[j])
    ensures forall j :: 0 <= j < |actions| && actions[j].Find? && trace[j + 1].reqs[actions[j].p].Replayed? ==>
              var key := trace[j].reqs[actions[j].p].key;
              key in trace[j].rows && trace[j + 1].reqs[actions[j].p].replay == trace[j].rows[key].statusCode
  {
    for k := 0 to |actions|
      invariant forall j :: 0 <= j <= k ==> StatusesKept(trace[j])
    {
      StepKeepsStatuses(trace[k], actions[k]);
    }
    forall j | 0 <= j < |actions| && actions[j].Find? && trace[j + 1].reqs[actions[j].p].Replayed?
      ensures var key := trace[j].reqs[actions[j].p].key;
              key in trace[j].rows && trace[j + 1].reqs[actions[j].p].replay == trace[j].rows[key].statusCode
    {
      assert StatusesKept(trace[j]);
    }
  }

  // ----- And only until then -------------------------------------------------------

  /** What a lookup finds depends on the row's expiry, response and nothing else. */
  lemma LookupByExpiry(s: State, p: Id)
    requires Enabled(s, Find(p))
    ensures var key, phase := s.reqs[p].key, Step(s, Find(p)).reqs[p];
            if key !in s.rows then phase.Reserving?
            else if s.rows[key].expiresAt < s.now then phase.SawExpired?
            else if s.rows[key].body.None? then phase.Conflicted?
            else phase == Replayed(key, ReplayStatus(s.rows[key].statusCode), s.rows[key].body.value)
  {
  }

  lemma NoLateReplay(s: State, a: Action, p: Id)
    requires Enabled(s, a) && p in s.reqs && !s.reqs[p].Arrived? && !s.reqs[p].Replayed?
    ensures p in Step(s, a).reqs && !Step(s, a).reqs[p].Arrived? && !Step(s, a).reqs[p].Replayed?
  {
  }

  /** In no run is an expired response replayed: a request that looks its key up after the row's
      expiry goes on to clean the row up, and is never given a replay, at that moment or later. */
  lemma {:induction false} ExpiredIsNeverReplayed(trace: seq<State>, actions: seq<Action>, at: nat, p: Id)
    requires IsRun(trace, actions) && at < |actions| && actions[at] == Find(p)
    requires var s := trace[at]; s.reqs[p].key in s.rows && s.rows[s.reqs[p].key].expiresAt < s.now
    ensures trace[at + 1].reqs[p] == SawExpired(trace[at].reqs[p].key, trace[at].reqs[p].expiresAt)
    ensures forall j :: at < j < |trace| ==> p in trace[j].reqs && !trace[j].reqs[p].Replayed?
  {
    LookupByExpiry(trace[at], p);
    for k := at + 1 to |actions|
      invariant forall j :: at < j <= k ==> p in trace[j].reqs && !trace[j].reqs[p].Replayed? && !trace[j].reqs[p].Arrived?
    {
      NoLateReplay(trace[k], actions[k], p);
    }
  }

  // ----- Why the hypotheses are needed ---------------------------------------------

  ghost function Last(trace: seq<State>): State
    requires trace != []
  {
    trace[|trace| - 1]
  }

  ghost predicate AllTimely(trace: seq<State>) {
    forall j :: 0 <= j < |trace| ==> Timely(trace[j])
  }

  ghost predicate AllUndisturbed(trace: seq<State>, actions: seq<Action>)
    requires IsRun(trace, actions)
  {
    forall j :: 0 <= j < |actions| ==> CleanupsUndisturbed(trace[j], actions[j])
  }

  lemma Extend(trace: seq<State>, actions: seq<Action>, a: Action) returns (trace': seq<State>, actions': seq<Action>)
    requires IsRun(trace, actions) && Enabled(Last(trace), a)
    ensures IsRun(trace', actions') && Last(trace') == Step(Last(trace), a)
    ensures AllTimely(trace) && Timely(Last(trace')) ==> AllTimely(trace')
    ensures AllUndisturbed(trace, actions) && CleanupsUndisturbed(Last(trace), a) ==> AllUndisturbed(trace', actions')
  {
    trace', actions' := trace + [Step(Last(trace), a)], actions + [a];
    forall k | 0 <= k < |actions'| ensures Enabled(trace'[k], actions'[k]) && trace'[k + 1] == Step(trace'[k], actions'[k]) {
      if k < |actions| {
        assert trace'[k] == trace[k] && trace'[k + 1] == trace[k + 1];
      }
    }
  }

  /** A request arrives. */
  lemma Newcomer(trace: seq<State>, actions: seq<Action>, p: Id, ttl: int) returns (trace': seq<State>, actions': seq<Action>)
    requires IsRun(trace, actions) && p !in Last(trace).reqs
    ensures IsRun(trace', actions')
    ensures AllTimely(trace) ==> AllTimely(trace')
    ensures AllUndisturbed(trace, actions) ==> AllUndisturbed(trace', actions')
    ensures Last(trace') == Moved(Last(trace), p, Arrived("k", Last(trace).now + ttl))
  {
    trace', actions' := Extend(trace, actions, Arrive(p, "k", ttl));
    assert Timely(Last(trace)) ==> Timely(Last(trace'));
  }

  /** A request arrives and reads the table. */
  lemma Reader(trace: seq<State>, actions: seq<Action>, p: Id, ttl: int) returns (trace': seq<State>, actions': seq<Action>)
    requires IsRun(trace, actions) && p !in Last(trace).reqs
    ensures IsRun(trace', actions')
    ensures AllTimely(trace) ==> AllTimely(trace')
    ensures AllUndisturbed(trace, actions) ==> AllUndisturbed(trace', actions')
    ensures var s, found := Last(trace), Inspect(Last(trace).rows, "k", Last(trace).now);
            && Last(trace').rows == s.rows && Last(trace').now == s.now
            && (found == Absent ==> Last(trace').reqs == s.reqs[p := Reserving("k", s.now + ttl)])
            && (found == Expired ==> Last(trace').reqs == s.reqs[p := SawExpired("k", s.now + ttl)])
  {
    var s := Last(trace);
    var mid, midActions := Newcomer(trace, actions, p, ttl);
    trace', actions' := Extend(mid, midActions, Find(p));
    var phase := Last(trace').reqs[p];
    assert Timely(Last(mid)) ==> Timely(Last(trace'));
    assert s.reqs[p := Arrived("k", s.now + ttl)][p := phase] == s.reqs[p := phase];
  }

  /** A first request reserves the key until time 10. */
  lemma Reserved() returns (trace: seq<State>, actions: seq<Action>)
    ensures IsRun(trace, actions) && trace != [] && AllTimely(trace) && AllUndisturbed(trace, actions)
    ensures Last(trace).now == 0 && Last(trace).rows == map["k" := NewRow("o", 10)] && Last(trace).reqs == map["o" := Running("k", 10)]
  {
    trace, actions := Reader([INITIAL], [], "o", 10);
    trace, actions := Extend(trace, actions, Create("o", true));
    assert Last(trace).reqs == map["o" := Running("k", 10)];
  }

  /** Another request reads the expired row, cleans it up and runs. */
  lemma TakesOver(trace: seq<State>, actions: seq<Action>, p: Id) returns (trace': seq<State>, actions': seq<Action>)
    requires IsRun(trace, actions) && p in Last(trace).reqs && Last(trace).reqs[p] == SawExpired("k", 120)
    requires Last(trace).rows.Keys == {"k"} && Last(trace).now == 20
    ensures IsRun(trace', actions') && Last(trace').now == 20 && Last(trace').rows == map["k" := NewRow(p, 120)]
    ensures Last(trace').reqs == Last(trace).reqs[p := Running("k", 120)]
    ensures AllTimely(trace) ==> AllTimely(trace')
    ensures AllUndisturbed(trace, actions) && (forall q :: q in Last(trace).reqs && q != p ==> !Last(trace).reqs[q].SawExpired?) ==> AllUndisturbed(trace', actions')
  {
    var s := Last(trace);
    trace', actions' := Extend(trace, actions, Cleanup(p, true));
    assert Last(trace').rows == map[];
    assert Timely(s) ==> Timely(Last(trace'));
    trace', actions' := Extend(trace', actions', Create(p, true));
    assert Timely(s) ==> Timely(Last(trace'));
    assert s.reqs[p := Reserving("k", 120)][p := Running("k", 120)] == s.reqs[p := Running("k", 120)];
  }

  /** Two requests read the same expired row; one cleans up and runs, then the other deletes the
      running request's row and runs too, although every handler beats its expiry. */
  lemma DisturbedCleanupRunsTwice() returns (trace: seq<State>, actions: seq<Action>)
    ensures IsRun(trace, actions) && trace != [] && AllTimely(trace) && !Exclusive(Last(trace))
  {
    trace, actions := Reserved();
    trace, actions := Extend(trace, actions, Crash("o"));
    trace, actions := Extend(trace, actions, Tick(20));
    trace, actions := Reader(trace, actions, "p", 100);
    trace, actions := Reader(trace, actions, "q", 100);
    trace, actions := TakesOver(trace, actions, "p");
    trace, actions := TakesOver(trace, actions, "q");
    assert Last(trace).reqs["p"] == Running("k", 120) && Last(trace).reqs["q"] == Running("k", 120);
  }

  /** A handler outlives its row: a second request cleans the row up and runs beside it, although
      no cleanup is disturbed. */
  lemma LateHandlerRunsTwice() returns (trace: seq<State>, actions: seq<Action>)
    ensures IsRun(trace, actions) && trace != [] && AllUndisturbed(trace, actions) && !Exclusive(Last(trace))
  {
    trace, actions := Reserved();
    trace, actions := Extend(trace, actions, Tick(20));
    trace, actions := Reader(trace, actions, "p", 100);
    trace, actions := TakesOver(trace, actions, "p");
    assert Last(trace).reqs["o"] == Running("k", 10) && Last(trace).reqs["p"] == Running("k", 120);
  }
}
