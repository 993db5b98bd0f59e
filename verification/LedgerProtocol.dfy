/** Checkout, refunds, inbound webhooks and reconciliation interleaved on the shared tables.
    One action is one awaited database, provider or queue call; answers, failures, clocks and
    crashes are chosen by the action. */
module LedgerProtocol {
  import opened Prelude
  import opened Money
  import opened Tables
  import opened Refunds
  import opened Webhooks
  import opened ReconciliationRules

  /** A refund request after its first read. */
  datatype RefundProc =
    | Planned(plan: Plan)                          // read done, provider not yet answered
    | Answered(plan: Plan, status: RefundStatus)   // provider answered, row not yet committed
    | Committed(plan: Plan)                        // row committed, event not yet enqueued
    | Returned                                     // replied successfully
    | Threw                                        // rejected or failed
    | RefundCrashed

  datatype HookProc =
    | HookCommitted(event: string, intent: Id)     // transaction committed, event not yet enqueued
    | HookReplied(event: string, status: int)
    | HookCrashed

  /** A row of a pass's snapshot, as it was read. */
  datatype Scanned = Scanned(id: Id, row: Intent)

  datatype Stage = AtRow | Told(status: Verdict) | Written(status: Verdict)

  datatype PassProc =
    | Pass(rows: seq<Scanned>, done: seq<Disposition>, stage: Stage)
    | PassCrashed

  /** History of status writes: which intent, which status, on whose behalf. */
  datatype StatusWrite = StatusWrite(intent: Id, status: PaymentStatus, cause: Cause)

  datatype State = State(
    db: Db,
    writes: seq<StatusWrite>,
    refunding: map<Id, RefundProc>,
    hooks: map<Id, HookProc>,
    passes: map<Id, PassProc>)

  const INITIAL := State(EMPTY, [], map[], map[], map[])

  datatype RefundAction =
    | Read(intent: Id, requested: Option<real>, merchantId: Id)
    | AskProvider(answer: Option<RefundStatus>)
    | CommitRow(ok: bool)
    | AnnounceRefund(ok: bool)
    | CrashRefund

  datatype HookAction =
    | Deliver(event: string, intent: Id, ok: bool)
    | AnnounceHook(ok: bool)
    | CrashHook

  datatype PassAction =
    | Start(cutoff: int, order: seq<Id>)
    | AgeRow(oneDayAgo: int, ok: bool)
    | Inquire(told: Option<PaymentStatus>)
    | WriteRow(ok: bool)
    | AnnounceRow(ok: bool)
    | CrashPass

  /** `p` names the request, delivery or pass that moves. */
  datatype Action =
    | Checkout(id: Id, amount: real, currency: string, gateway: Gateway, gatewayPaymentId: Option<string>, merchantId: Id, createdAt: int)
    | OnRefund(p: Id, refund: RefundAction)
    | OnHook(p: Id, hook: HookAction)
    | OnPass(p: Id, pass: PassAction)

  /** Between the read and the commit. */
  predicate InWindow(proc: RefundProc) {
    proc.Planned? || proc.Answered?
  }

  /** A pass with a row in hand. */
  predicate Active(proc: PassProc) {
    proc.Pass? && |proc.done| < |proc.rows|
  }

  function RowInHand(s: State, p: Id): Scanned
    requires p in s.passes && Active(s.passes[p])
  {
    s.passes[p].rows[|s.passes[p].done|]
  }

  predicate RefundEnabled(s: State, p: Id, a: RefundAction) {
    match a
    case Read(_, _, _) => p !in s.refunding
    case AskProvider(_) => p in s.refunding && s.refunding[p].Planned?
    case CommitRow(ok) => p in s.refunding && s.refunding[p].Answered? && (ok ==> s.refunding[p].plan.intent in s.db.intents)
    case AnnounceRefund(_) => p in s.refunding && s.refunding[p].Committed?
    case CrashRefund => p in s.refunding && !s.refunding[p].Returned? && !s.refunding[p].Threw?
  }

  predicate HookEnabled(s: State, p: Id, a: HookAction) {
    match a
    case Deliver(_, _, _) => p !in s.hooks
    case _ => p in s.hooks && s.hooks[p].HookCommitted?
  }

  ghost predicate PassEnabled(s: State, p: Id, a: PassAction) {
    match a
    case Start(cutoff, order) => p !in s.passes && IsSnapshot(s.db, cutoff, order)
    case _ =>
      && p in s.passes && Active(s.passes[p])
      && match a
         case AgeRow(_, ok) => s.passes[p].stage.AtRow? && !HasGatewayId(RowInHand(s, p).row) && (ok ==> RowInHand(s, p).id in s.db.intents)
         case Inquire(_) => s.passes[p].stage.AtRow? && HasGatewayId(RowInHand(s, p).row)
         case WriteRow(ok) => s.passes[p].stage.Told? && (ok ==> RowInHand(s, p).id in s.db.intents)
         case AnnounceRow(_) => s.passes[p].stage.Written?
         case _ => true
  }

  ghost predicate Enabled(s: State, a: Action) {
    match a
    case Checkout(id, amount, _, _, _, _, _) => id !in s.db.intents && amount >= 1.0
    case OnRefund(p, refund) => RefundEnabled(s, p, refund)
    case OnHook(p, hook) => HookEnabled(s, p, hook)
    case OnPass(p, pass) => PassEnabled(s, p, pass)
  }

  /** The status a pass writes with this action, if it writes one: FAILED on an abandoned row
      older than a day, or what the provider told. */
  ghost function PassWrite(s: State, p: Id, a: PassAction): Option<Verdict>
    requires PassEnabled(s, p, a)
  {
    if a.AgeRow? && a.ok && RowInHand(s, p).row.createdAt < a.oneDayAgo then Some(FAILED) else
    if a.WriteRow? && a.ok then Some(s.passes[p].stage.status) else
    None
  }

  /** A status write, with its history entry. */
  function Record(s: State, id: Id, status: PaymentStatus, cause: Cause): State
    requires id in s.db.intents
  {
    s.(db := WithStatus(s.db, id, status), writes := s.writes + [StatusWrite(id, status, cause)])
  }

  function WithRefund(s: State, p: Id, proc: RefundProc): State {
    s.(refunding := s.refunding[p := proc])
  }

  function WithHook(s: State, p: Id, proc: HookProc): State {
    s.(hooks := s.hooks[p := proc])
  }

  /** The pass goes on with the row in hand at the given stage. */
  function AtStage(s: State, p: Id, stage: Stage): State
    requires p in s.passes && s.passes[p].Pass?
  {
    s.(passes := s.passes[p := s.passes[p].(stage := stage)])
  }

  /** The pass is done with the row in hand, which left the loop body as d. */
  function NextRow(s: State, p: Id, d: Disposition): State
    requires p in s.passes && s.passes[p].Pass?
  {
    s.(passes := s.passes[p := s.passes[p].(done := s.passes[p].done + [d], stage := AtRow)])
  }

  function Scan(db: Db, order: seq<Id>): seq<Scanned>
    requires forall id :: id in order ==> id in db.intents
  {
    seq(|order|, k requires 0 <= k < |order| => Scanned(order[k], db.intents[order[k]]))
  }

  function CommittedRow(s: State, p: Id): State
    requires RefundEnabled(s, p, CommitRow(true))
  {
    var plan, status := s.refunding[p].plan, s.refunding[p].status;
    var after := WithRefund(s.(db := CommitRefund(s.db, plan, status, p)), p, Committed(plan));
    if IsFullyRefunded(plan) && status == RefundSucceeded
    then after.(writes := s.writes + [StatusWrite(plan.intent, REFUNDED, ByRefund(p))])
    else after
  }

  function RefundStep(s: State, p: Id, a: RefundAction): State
    requires RefundEnabled(s, p, a)
  {
    match a
    case Read(intent, requested, merchantId) =>
      var planned := PlanRefund(s.db, intent, requested, merchantId);
      WithRefund(s, p, if planned.Success? then Planned(planned.value) else Threw)
    case AskProvider(answer) =>
      WithRefund(s, p, if answer.Some? then Answered(s.refunding[p].plan, answer.value) else Threw)
    case CommitRow(ok) =>
      if ok then CommittedRow(s, p) else WithRefund(s, p, Threw)
    case AnnounceRefund(ok) =>
      if !ok then WithRefund(s, p, Threw) else
      WithRefund(s.(db := Enqueue(s.db, PaymentRefunded, s.refunding[p].plan.intent, ByRefund(p))), p, Returned)
    case CrashRefund => WithRefund(s, p, RefundCrashed)
  }

  function HookStep(s: State, p: Id, a: HookAction): State
    requires HookEnabled(s, p, a)
  {
    match a
    case Deliver(event, intent, ok) =>
      if !ok then WithHook(s, p, HookReplied(event, 500)) else (
      match RecordEvent(s.db, event, intent)
      case Fresh(db) =>
        WithHook(s.(db := db, writes := s.writes + [StatusWrite(intent, CAPTURED, ByWebhook(event))]), p, HookCommitted(event, intent))
      case DuplicateEvent => WithHook(s, p, HookReplied(event, 200))
      case UnknownIntent => WithHook(s, p, HookReplied(event, 500)))
    case AnnounceHook(ok) =>
      var hook := s.hooks[p];
      if !ok then WithHook(s, p, HookReplied(hook.event, 500)) else
      WithHook(s.(db := Enqueue(s.db, PaymentSucceeded, hook.intent, ByWebhook(hook.event))), p, HookReplied(hook.event, 200))
    case CrashHook => WithHook(s, p, HookCrashed)
  }

  ghost function PassStep(s: State, p: Id, a: PassAction): State
    requires PassEnabled(s, p, a)
  {
    match a
    case Start(cutoff, order) =>
      s.(passes := s.passes[p := Pass(Scan(s.db, order), [], AtRow)])
    case AgeRow(oneDayAgo, _) =>
      if PassWrite(s, p, a).Some? then NextRow(Record(s, RowInHand(s, p).id, FAILED, ByPass(p)), p, WasAbandoned)
      else NextRow(s, p, if RowInHand(s, p).row.createdAt < oneDayAgo then Erred(None) else WasUnchanged)
    case Inquire(told) =>
      if told.Some? && Decisive(told.value) then AtStage(s, p, Told(told.value))
      else NextRow(s, p, if told.None? then Erred(None) else WasUnchanged)
    case WriteRow(ok) =>
      var status := s.passes[p].stage.status;
      if !ok then NextRow(s, p, Erred(None)) else
      AtStage(Record(s, RowInHand(s, p).id, status, ByPass(p)), p, Written(status))
    case AnnounceRow(ok) =>
      var status := s.passes[p].stage.status;
      if !ok then NextRow(s, p, Erred(Some(status))) else
      NextRow(s.(db := Enqueue(s.db, AnnouncementOf(status), RowInHand(s, p).id, ByPass(p))), p, if status == CAPTURED then WasCaptured else WasFailed)
    case CrashPass => s.(passes := s.passes[p := PassCrashed])
  }

  /** Checkout's only write: a new PENDING intent. */
  function CheckedOut(s: State, a: Action): State
    requires a.Checkout?
  {
    var row := Intent(StoreDecimal(a.amount), a.currency, PENDING, a.gateway, a.gatewayPaymentId, a.merchantId, a.createdAt);
    s.(db := s.db.(intents := s.db.intents[a.id := row]))
  }

  ghost function Step(s: State, a: Action): State
    requires Enabled(s, a)
  {
    match a
    case Checkout(_, _, _, _, _, _, _) => CheckedOut(s, a)
    case OnRefund(p, refund) => RefundStep(s, p, refund)
    case OnHook(p, hook) => HookStep(s, p, hook)
    case OnPass(p, pass) => PassStep(s, p, pass)
  }

  /** A run: the states it goes through and the actions between them. */
  ghost predicate IsRun(trace: seq<State>, actions: seq<Action>) {
    && |trace| == |actions| + 1
    && trace[0] == INITIAL
    && forall k :: 0 <= k < |actions| ==> Enabled(trace[k], actions[k]) && trace[k + 1] == Step(trace[k], actions[k])
  }
}
