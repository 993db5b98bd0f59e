/** Inbound webhooks are processed at most once, whatever duplicates, retries, failures and
    crashes interleave with refunds and reconciliation. No hypothesis on the run is needed. */
module WebhookSafety {
  import opened Tables
  import opened LedgerProtocol

  /** Entries caused by provider events: no two by the same event, each for the ledgered intent. */
  ghost predicate OneAnnouncementEach(events: map<string, Id>, outbox: seq<Outbound>) {
    && (forall j, k :: 0 <= j < k < |outbox| && outbox[j].cause.ByWebhook? ==> outbox[j].cause != outbox[k].cause)
    && (forall k :: 0 <= k < |outbox| && outbox[k].cause.ByWebhook? ==>
          && outbox[k].kind == PaymentSucceeded
          && outbox[k].cause.event in events && events[outbox[k].cause.event] == outbox[k].intent)
  }

  ghost predicate WroteFor(writes: seq<StatusWrite>, event: string, intent: Id) {
    exists k :: 0 <= k < |writes| && writes[k] == StatusWrite(intent, CAPTURED, ByWebhook(event))
  }

  /** Status writes caused by provider events: exactly one per ledgered event, CAPTURED on its intent. */
  ghost predicate OneWriteEach(events: map<string, Id>, writes: seq<StatusWrite>) {
    && (forall j, k :: 0 <= j < k < |writes| && writes[j].cause.ByWebhook? ==> writes[j].cause != writes[k].cause)
    && (forall k :: 0 <= k < |writes| && writes[k].cause.ByWebhook? ==>
          writes[k].cause.event in events && writes[k] == StatusWrite(events[writes[k].cause.event], CAPTURED, writes[k].cause))
    && (forall e :: e in events ==> WroteFor(writes, e, events[e]))
  }

  /** A delivery that still has to announce holds a ledgered event nobody announced or holds. */
  ghost predicate PendingAnnouncements(events: map<string, Id>, outbox: seq<Outbound>, hooks: map<Id, HookProc>) {
    && (forall p :: p in hooks && hooks[p].HookCommitted? ==>
          && hooks[p].event in events && events[hooks[p].event] == hooks[p].intent
          && forall k :: 0 <= k < |outbox| ==> outbox[k].cause != ByWebhook(hooks[p].event))
    && (forall p, q :: p in hooks && q in hooks && p != q && hooks[p].HookCommitted? && hooks[q].HookCommitted? ==>
          hooks[p].event != hooks[q].event)
  }

  /** A 200 reply means the event is in the ledger. */
  ghost predicate RepliesLedgered(events: map<string, Id>, hooks: map<Id, HookProc>) {
    forall p :: p in hooks && hooks[p].HookReplied? ==>
      (hooks[p].status == 200 || hooks[p].status == 500) && (hooks[p].status == 200 ==> hooks[p].event in events)
  }

  ghost predicate AtMostOnce(s: State) {
    && OneAnnouncementEach(s.db.events, s.db.outbox)
    && OneWriteEach(s.db.events, s.writes)
    && PendingAnnouncements(s.db.events, s.db.outbox, s.hooks)
    && RepliesLedgered(s.db.events, s.hooks)
  }

  /** A fresh event: one ledger entry, one write, one pending announcement. */
  lemma FreshWrite(events: map<string, Id>, writes: seq<StatusWrite>, event: string, intent: Id)
    requires OneWriteEach(events, writes) && event !in events
    ensures OneWriteEach(events[event := intent], writes + [StatusWrite(intent, CAPTURED, ByWebhook(event))])
  {
    var events' := events[event := intent];
    var writes' := writes + [StatusWrite(intent, CAPTURED, ByWebhook(event))];
    assert writes'[|writes|].intent == intent;
    forall e | e in events' ensures WroteFor(writes', e, events'[e]) {
      if e != event {
        var k :| 0 <= k < |writes| && writes[k] == StatusWrite(events[e], CAPTURED, ByWebhook(e));
        assert writes'[k] == writes[k];
      }
    }
  }

  lemma FreshDelivery(s: State, p: Id, a: HookAction)
    requires AtMostOnce(s) && a.Deliver? && a.ok && HookEnabled(s, p, a)
    requires a.event !in s.db.events && a.intent in s.db.intents
    ensures AtMostOnce(HookStep(s, p, a))
  {
    FreshWrite(s.db.events, s.writes, a.event, a.intent);
    var s' := HookStep(s, p, a);
    assert s'.hooks == s.hooks[p := HookCommitted(a.event, a.intent)];
    assert s'.db.events == s.db.events[a.event := a.intent] && s'.db.outbox == s.db.outbox;
    assert OneWriteEach(s'.db.events, s'.writes);
  }

  lemma AnnouncementKeepsAtMostOnce(s: State, p: Id, a: HookAction)
    requires AtMostOnce(s) && a.AnnounceHook? && a.ok && HookEnabled(s, p, a)
    ensures AtMostOnce(HookStep(s, p, a))
  {
    var s', hook := HookStep(s, p, a), s.hooks[p];
    assert s'.hooks == s.hooks[p := HookReplied(hook.event, 200)] && s'.writes == s.writes;
    assert s'.db.outbox == s.db.outbox + [Outbound(PaymentSucceeded, hook.intent, ByWebhook(hook.event))];
  }

  /** A delivery that ends without touching a table. */
  lemma ReplyKeepsAtMostOnce(s: State, s': State, p: Id, proc: HookProc)
    requires AtMostOnce(s)
    requires s'.db == s.db && s'.writes == s.writes && s'.hooks == s.hooks[p := proc] && !proc.HookCommitted?
    requires proc.HookReplied? ==> proc.status == 500 || (proc.status == 200 && proc.event in s.db.events)
    ensures AtMostOnce(s')
  {
  }

  lemma HookKeepsAtMostOnce(s: State, p: Id, a: HookAction)
    requires AtMostOnce(s) && HookEnabled(s, p, a)
    ensures AtMostOnce(HookStep(s, p, a))
  {
    if a.Deliver? && a.ok && a.event !in s.db.events && a.intent in s.db.intents {
      FreshDelivery(s, p, a);
    } else if a.AnnounceHook? && a.ok {
      AnnouncementKeepsAtMostOnce(s, p, a);
    } else {
      ReplyKeepsAtMostOnce(s, HookStep(s, p, a), p, HookStep(s, p, a).hooks[p]);
    }
  }

  /** What everyone else may do: append entries and writes on their own behalf. */
  ghost predicate LeavesHooksAlone(s: State, s': State) {
    && s'.db.events == s.db.events && s'.hooks == s.hooks
    && (s'.db.outbox != s.db.outbox ==>
          |s'.db.outbox| == |s.db.outbox| + 1 && s'.db.outbox[..|s.db.outbox|] == s.db.outbox && !s'.db.outbox[|s.db.outbox|].cause.ByWebhook?)
    && (s'.writes != s.writes ==>
          |s'.writes| == |s.writes| + 1 && s'.writes[..|s.writes|] == s.writes && !s'.writes[|s.writes|].cause.ByWebhook?)
  }

  lemma RefundsLeaveHooksAlone(s: State, p: Id, a: RefundAction)
    requires RefundEnabled(s, p, a)
    ensures LeavesHooksAlone(s, RefundStep(s, p, a))
  {
  }

  lemma PassesLeaveHooksAlone(s: State, p: Id, a: PassAction)
    requires PassEnabled(s, p, a)
    ensures LeavesHooksAlone(s, PassStep(s, p, a))
  {
  }

  lemma ForeignEntry(events: map<string, Id>, outbox: seq<Outbound>, hooks: map<Id, HookProc>, entry: Outbound)
    requires OneAnnouncementEach(events, outbox) && PendingAnnouncements(events, outbox, hooks) && !entry.cause.ByWebhook?
    ensures OneAnnouncementEach(events, outbox + [entry]) && PendingAnnouncements(events, outbox + [entry], hooks)
  {
  }

  lemma ForeignWrite(events: map<string, Id>, writes: seq<StatusWrite>, write: StatusWrite)
    requires OneWriteEach(events, writes) && !write.cause.ByWebhook?
    ensures OneWriteEach(events, writes + [write])
  {
    var writes' := writes + [write];
    forall e | e in events ensures WroteFor(writes', e, events[e]) {
      var k :| 0 <= k < |writes| && writes[k] == StatusWrite(events[e], CAPTURED, ByWebhook(e));
      assert writes'[k] == writes[k];
    }
  }

  lemma OthersKeepAtMostOnce(s: State, s': State)
    requires AtMostOnce(s) && LeavesHooksAlone(s, s')
    ensures AtMostOnce(s')
  {
    if s'.db.outbox != s.db.outbox {
      ForeignEntry(s.db.events, s.db.outbox, s.hooks, s'.db.outbox[|s.db.outbox|]);
      assert s'.db.outbox == s.db.outbox + [s'.db.outbox[|s.db.outbox|]];
    }
    if s'.writes != s.writes {
      ForeignWrite(s.db.events, s.writes, s'.writes[|s.writes|]);
      assert s'.writes == s.writes + [s'.writes[|s.writes|]];
    }
  }

  lemma StepKeepsAtMostOnce(s: State, a: Action)
    requires AtMostOnce(s) && Enabled(s, a)
    ensures AtMostOnce(Step(s, a))
  {
    match a
    case Checkout(_, _, _, _, _, _, _) => OthersKeepAtMostOnce(s, CheckedOut(s, a));
    case OnRefund(p, refund) =>
      RefundsLeaveHooksAlone(s, p, refund);
      OthersKeepAtMostOnce(s, RefundStep(s, p, refund));
    case OnHook(p, hook) => HookKeepsAtMostOnce(s, p, hook);
    case OnPass(p, pass) =>
      PassesLeaveHooksAlone(s, p, pass);
      OthersKeepAtMostOnce(s, PassStep(s, p, pass));
  }

  lemma {:induction false} WebhookAtMostOnce(trace: seq<State>, actions: seq<Action>)
    requires IsRun(trace, actions)
    ensures forall k :: 0 <= k < |trace| ==> AtMostOnce(trace[k])
    ensures forall k, j, n, e :: 0 <= k < |trace| && 0 <= j < n < |trace[k].db.outbox| && trace[k].db.outbox[j].cause == ByWebhook(e) ==>
              trace[k].db.outbox[n].cause != ByWebhook(e)
    ensures forall k, j, n, e :: 0 <= k < |trace| && 0 <= j < n < |trace[k].writes| && trace[k].writes[j].cause == ByWebhook(e) ==>
              trace[k].writes[n].cause != ByWebhook(e)
    ensures forall k, p :: 0 <= k < |trace| && p in trace[k].hooks && trace[k].hooks[p].HookReplied? && trace[k].hooks[p].status == 200 ==>
              trace[k].hooks[p].event in trace[k].db.events
  {
    for k := 0 to |actions|
      invariant forall j :: 0 <= j <= k ==> AtMostOnce(trace[j])
    {
      StepKeepsAtMostOnce(trace[k], actions[k]);
    }
    assert forall k :: 0 <= k < |trace| ==> AtMostOnce(trace[k]);
  }

  /** Delivering a ledgered event changes no table and writes no status; it is answered 200
      whenever the transaction reaches the database. */
  lemma ReplayChangesNothing(s: State, p: Id, event: string, intent: Id, ok: bool)
    requires HookEnabled(s, p, Deliver(event, intent, ok)) && event in s.db.events
    ensures var s' := HookStep(s, p, Deliver(event, intent, ok));
            s'.db == s.db && s'.writes == s.writes && s'.hooks[p] == HookReplied(event, if ok then 200 else 500)
  {
  }

  lemma StepKeepsLedgered(s: State, a: Action, event: string)
    requires Enabled(s, a) && event in s.db.events
    ensures event in Step(s, a).db.events && Step(s, a).db.events[event] == s.db.events[event]
  {
    match a
    case Checkout(_, _, _, _, _, _, _) =>
    case OnRefund(p, refund) => RefundsLeaveHooksAlone(s, p, refund);
    case OnHook(p, hook) => assert event in HookStep(s, p, hook).db.events;
    case OnPass(p, pass) => PassesLeaveHooksAlone(s, p, pass);
  }

  /** Once an event is ledgered, no later delivery of it changes the tables: in particular it
      cannot turn a REFUNDED intent back. */
  lemma {:induction false} LaterReplaysAreHarmless(trace: seq<State>, actions: seq<Action>, from: nat, at: nat)
    requires IsRun(trace, actions) && from <= at < |actions|
    requires actions[at].OnHook? && actions[at].hook.Deliver? && actions[at].hook.event in trace[from].db.events
    ensures trace[at + 1].db == trace[at].db && trace[at + 1].writes == trace[at].writes
  {
    var event := actions[at].hook.event;
    for k := from to at
      invariant event in trace[k].db.events
    {
      StepKeepsLedgered(trace[k], actions[k], event);
    }
    ReplayChangesNothing(trace[at], actions[at].p, event, actions[at].hook.intent, actions[at].hook.ok);
  }
}
