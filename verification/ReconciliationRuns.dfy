/** Reconciliation accounts for itself in every interleaved run: what a pass counts is what it sent
    and what it wrote, whatever webhooks, refunds and other passes do meanwhile. */
module ReconciliationRuns {
  import opened Prelude
  import opened Tables
  import opened ReconciliationRules
  import opened LedgerProtocol
  import opened RefundBacking
  import opened Reconciliation
  import Notifications

  function Ids(rows: seq<Scanned>): seq<Id> {
    seq(|rows|, k requires 0 <= k < |rows| => rows[k].id)
  }

  /** The counters of a pass after the rows it is done with. */
  function ReportOf(proc: PassProc): Summary
    requires proc.Pass? && |proc.done| <= |proc.rows|
  {
    Tally(Ids(proc.rows[..|proc.done|]), proc.done)
  }

  /** The status writes of one pass among the first n, in order. */
  function WritesIn(writes: seq<StatusWrite>, n: nat, p: Id): seq<StatusWrite>
    requires n <= |writes|
  {
    if n == 0 then []
    else if writes[n - 1].cause == ByPass(p) then WritesIn(writes, n - 1, p) + [writes[n - 1]]
    else WritesIn(writes, n - 1, p)
  }

  function WritesBy(writes: seq<StatusWrite>, p: Id): seq<StatusWrite> {
    WritesIn(writes, |writes|, p)
  }

  /** What an outcome says was written. */
  function DueFor(row: Scanned, d: Disposition, p: Id): seq<StatusWrite> {
    if WrittenStatus(d).Some? then [StatusWrite(row.id, WrittenStatus(d).value, ByPass(p))] else []
  }

  /** What the counted outcomes say was written, row by row. */
  function DueWrites(rows: seq<Scanned>, done: seq<Disposition>, p: Id): seq<StatusWrite>
    requires |done| <= |rows|
  {
    if done == [] then []
    else
      var n := |done| - 1;
      DueWrites(rows, done[..n], p) + DueFor(rows[n], done[n], p)
  }

  /** The row in hand, once written, is not counted yet. */
  function InHand(proc: PassProc, p: Id): seq<StatusWrite>
    requires Active(proc)
  {
    if proc.stage.Written? then [StatusWrite(proc.rows[|proc.done|].id, proc.stage.status, ByPass(p))] else []
  }

  /** The pass's own books: rows, events, writes. */
  ghost predicate BooksKept(proc: PassProc, outbox: seq<Outbound>, writes: seq<StatusWrite>, p: Id)
    requires proc.Pass?
  {
    && |proc.done| <= |proc.rows|
    && (!proc.stage.AtRow? ==> Active(proc))
    && EventsOf(outbox, PaymentSucceeded, p) == ReportOf(proc).captured
    && EventsOf(outbox, PaymentFailed, p) == ReportOf(proc).failed - Abandoned(proc.done)
    && WritesBy(writes, p) == DueWrites(proc.rows, proc.done, p) + if Active(proc) then InHand(proc, p) else []
  }

  ghost predicate Unheard(outbox: seq<Outbound>, writes: seq<StatusWrite>, p: Id) {
    EventsOf(outbox, PaymentSucceeded, p) == 0 == EventsOf(outbox, PaymentFailed, p) && WritesBy(writes, p) == []
  }

  ghost predicate Booked(s: State, p: Id) {
    if p !in s.passes then Unheard(s.db.outbox, s.writes, p)
    else s.passes[p].Pass? ==> BooksKept(s.passes[p], s.db.outbox, s.writes, p)
  }

  // ----- What others do ------------------------------------------------------------

  /** At most one entry and one write more, and not on behalf of p. */
  ghost predicate LeavesBooksAlone(s: State, s': State, p: Id) {
    && (s'.db.outbox == s.db.outbox
        || exists entry :: s'.db.outbox == s.db.outbox + [entry] && entry.cause != ByPass(p))
    && (s'.writes == s.writes
        || exists write :: s'.writes == s.writes + [write] && write.cause != ByPass(p))
  }

  lemma ForeignKeepsBooks(s: State, s': State, p: Id)
    requires LeavesBooksAlone(s, s', p)
    ensures EventsOf(s'.db.outbox, PaymentSucceeded, p) == EventsOf(s.db.outbox, PaymentSucceeded, p)
    ensures EventsOf(s'.db.outbox, PaymentFailed, p) == EventsOf(s.db.outbox, PaymentFailed, p)
    ensures WritesBy(s'.writes, p) == WritesBy(s.writes, p)
  {
    if entry :| s'.db.outbox == s.db.outbox + [entry] && entry.cause != ByPass(p) {
      EventsAppend(s.db.outbox, entry, PaymentSucceeded, p);
      EventsAppend(s.db.outbox, entry, PaymentFailed, p);
    }
    if write :| s'.writes == s.writes + [write] && write.cause != ByPass(p) {
      WritesAppend(s.writes, write, p);
    }
  }

  lemma {:induction false} WritesPrefix(writes: seq<StatusWrite>, write: StatusWrite, n: nat, p: Id)
    requires n <= |writes|
    ensures WritesIn(writes + [write], n, p) == WritesIn(writes, n, p)
  {
    if n > 0 {
      WritesPrefix(writes, write, n - 1, p);
    }
  }

  lemma WritesAppend(writes: seq<StatusWrite>, write: StatusWrite, p: Id)
    ensures WritesBy(writes + [write], p) == if write.cause == ByPass(p) then WritesBy(writes, p) + [write] else WritesBy(writes, p)
  {
    WritesPrefix(writes, write, |writes|, p);
  }

  lemma OthersLeaveBooksAlone(s: State, a: Action, p: Id)
    requires Enabled(s, a) && !a.OnPass?
    ensures LeavesBooksAlone(s, Step(s, a), p) && Step(s, a).passes == s.passes
  {
    Notifications.OthersLeavePassesAlone(s, a);
    var s' := Step(s, a);
    if s'.db.outbox != s.db.outbox {
      assert s'.db.outbox == s.db.outbox + [s'.db.outbox[|s.db.outbox|]];
    }
    if s'.writes != s.writes {
      assert s'.writes == s.writes + [s'.writes[|s.writes|]];
    }
  }

  lemma OtherPassLeavesBooksAlone(s: State, q: Id, a: PassAction, p: Id)
    requires PassEnabled(s, q, a) && p != q
    ensures LeavesBooksAlone(s, PassStep(s, q, a), p)
    ensures p in PassStep(s, q, a).passes <==> p in s.passes
    ensures p in s.passes ==> PassStep(s, q, a).passes[p] == s.passes[p]
  {
    var s' := PassStep(s, q, a);
    PassWritesRowInHand(s, q, a);
    if a.AnnounceRow? && a.ok {
      assert s'.db.outbox == s.db.outbox + [Outbound(AnnouncementOf(s.passes[q].stage.status), RowInHand(s, q).id, ByPass(q))];
    } else {
      assert s'.db.outbox == s.db.outbox;
    }
  }

  // ----- What the pass does itself -------------------------------------------------

  /** Counting one more outcome. */
  lemma OneMoreRow(proc: PassProc, next: PassProc, d: Disposition, p: Id)
    requires Active(proc) && next.Pass? && next.rows == proc.rows
    requires |next.done| == |proc.done| + 1 && next.done[..|proc.done|] == proc.done && next.done[|proc.done|] == d
    ensures ReportOf(next).captured == ReportOf(proc).captured + (if d.WasCaptured? then 1 else 0)
    ensures ReportOf(next).failed - Abandoned(next.done) == ReportOf(proc).failed - Abandoned(proc.done) + (if d.WasFailed? then 1 else 0)
    ensures DueWrites(next.rows, next.done, p) == DueWrites(proc.rows, proc.done, p) + DueFor(proc.rows[|proc.done|], d, p)
  {
    var n := |proc.done|;
    var ids := Ids(proc.rows[..n + 1]);
    assert ids[..n] == Ids(proc.rows[..n]);
  }

  /** Leaving a row as d: the books stay kept if the events and writes grew by what d says. */
  lemma NextRowKeepsBooks(s: State, s': State, p: Id, d: Disposition)
    requires p in s.passes && Active(s.passes[p]) && BooksKept(s.passes[p], s.db.outbox, s.writes, p)
    requires p in s'.passes && s'.passes[p].Pass? && s'.passes[p].rows == s.passes[p].rows && s'.passes[p].stage == AtRow
    requires var n := |s.passes[p].done|;
             |s'.passes[p].done| == n + 1 && s'.passes[p].done[..n] == s.passes[p].done && s'.passes[p].done[n] == d
    requires EventsOf(s'.db.outbox, PaymentSucceeded, p) == EventsOf(s.db.outbox, PaymentSucceeded, p) + (if d.WasCaptured? then 1 else 0)
    requires EventsOf(s'.db.outbox, PaymentFailed, p) == EventsOf(s.db.outbox, PaymentFailed, p) + (if d.WasFailed? then 1 else 0)
    requires s.passes[p].stage.Written? ==> WritesBy(s'.writes, p) == WritesBy(s.writes, p) && WrittenStatus(d) == Some(s.passes[p].stage.status)
    requires !s.passes[p].stage.Written? ==> WritesBy(s'.writes, p) == WritesBy(s.writes, p) + DueFor(RowInHand(s, p), d, p)
    ensures BooksKept(s'.passes[p], s'.db.outbox, s'.writes, p)
  {
    OneMoreRow(s.passes[p], s'.passes[p], d, p);
  }

  /** Having written the row in hand: one write more, not yet counted. */
  lemma WrittenKeepsBooks(proc: PassProc, status: Verdict, outbox: seq<Outbound>, writes: seq<StatusWrite>, writes': seq<StatusWrite>, p: Id)
    requires Active(proc) && proc.stage.Told? && BooksKept(proc, outbox, writes, p)
    requires WritesBy(writes', p) == WritesBy(writes, p) + [StatusWrite(proc.rows[|proc.done|].id, status, ByPass(p))]
    ensures BooksKept(proc.(stage := Written(status)), outbox, writes', p)
  {
  }

  lemma WriteKeepsBooks(s: State, p: Id)
    requires PassEnabled(s, p, WriteRow(true)) && Booked(s, p)
    ensures Booked(PassStep(s, p, WriteRow(true)), p)
  {
    var status := s.passes[p].stage.status;
    var write := StatusWrite(RowInHand(s, p).id, status, ByPass(p));
    WritesAppend(s.writes, write, p);
    WrittenKeepsBooks(s.passes[p], status, s.db.outbox, s.writes, s.writes + [write], p);
  }

  /** The outcome a pass counts with this action, if it is done with its row. */
  ghost function Counts(s: State, p: Id, a: PassAction): Option<Disposition>
    requires PassEnabled(s, p, a)
  {
    match a
    case AgeRow(oneDayAgo, _) =>
      Some(if PassWrite(s, p, a).Some? then WasAbandoned else if RowInHand(s, p).row.createdAt < oneDayAgo then Erred(None) else WasUnchanged)
    case Inquire(told) => if told.None? then Some(Erred(None)) else if Decisive(told.value) then None else Some(WasUnchanged)
    case WriteRow(ok) => if ok then None else Some(Erred(None))
    case AnnounceRow(ok) =>
      var status := s.passes[p].stage.status;
      Some(if !ok then Erred(Some(status)) else if status == CAPTURED then WasCaptured else WasFailed)
    case _ => None
  }

  /** What such an action does to the pass, the queue and the writes. */
  lemma CountedStep(s: State, p: Id, a: PassAction)
    requires PassEnabled(s, p, a) && Counts(s, p, a).Some?
    ensures var s', d := PassStep(s, p, a), Counts(s, p, a).value;
            && p in s.passes && Active(s.passes[p])
            && s'.passes == s.passes[p := s.passes[p].(done := s.passes[p].done + [d], stage := AtRow)]
            && (if Announcement(d).Some? then s'.db.outbox == s.db.outbox + [Outbound(Announcement(d).value, RowInHand(s, p).id, ByPass(p))]
                else s'.db.outbox == s.db.outbox)
            && (s.passes[p].stage.Written? ==> s'.writes == s.writes && WrittenStatus(d) == Some(s.passes[p].stage.status))
            && (!s.passes[p].stage.Written? ==>
                if WrittenStatus(d).Some? then s'.writes == s.writes + DueFor(RowInHand(s, p), d, p) else s'.writes == s.writes)
  {
    match a
    case AgeRow(_, _) =>
    case Inquire(_) =>
    case WriteRow(_) =>
    case AnnounceRow(_) =>
  }

  /** The same in numbers of events and in the pass's own writes. */
  lemma CountedBooks(s: State, p: Id, a: PassAction)
    requires PassEnabled(s, p, a) && Counts(s, p, a).Some?
    ensures var s', d := PassStep(s, p, a), Counts(s, p, a).value;
            && EventsOf(s'.db.outbox, PaymentSucceeded, p) == EventsOf(s.db.outbox, PaymentSucceeded, p) + (if d.WasCaptured? then 1 else 0)
            && EventsOf(s'.db.outbox, PaymentFailed, p) == EventsOf(s.db.outbox, PaymentFailed, p) + (if d.WasFailed? then 1 else 0)
            && (!s.passes[p].stage.Written? ==> WritesBy(s'.writes, p) == WritesBy(s.writes, p) + DueFor(RowInHand(s, p), d, p))
  {
    CountedStep(s, p, a);
    var d := Counts(s, p, a).value;
    if Announcement(d).Some? {
      EventsAppend(s.db.outbox, Outbound(Announcement(d).value, RowInHand(s, p).id, ByPass(p)), PaymentSucceeded, p);
      EventsAppend(s.db.outbox, Outbound(Announcement(d).value, RowInHand(s, p).id, ByPass(p)), PaymentFailed, p);
    }
    if WrittenStatus(d).Some? {
      WritesAppend(s.writes, StatusWrite(RowInHand(s, p).id, WrittenStatus(d).value, ByPass(p)), p);
    }
  }

  lemma CountedKeepsBooks(s: State, p: Id, a: PassAction)
    requires PassEnabled(s, p, a) && Booked(s, p) && Counts(s, p, a).Some?
    ensures Booked(PassStep(s, p, a), p)
  {
    CountedStep(s, p, a);
    CountedBooks(s, p, a);
    NextRowKeepsBooks(s, PassStep(s, p, a), p, Counts(s, p, a).value);
  }

  lemma StartKeepsBooks(s: State, p: Id, a: PassAction)
    requires PassEnabled(s, p, a) && Booked(s, p) && a.Start?
    ensures Booked(PassStep(s, p, a), p)
  {
  }

  lemma InquireKeepsBooks(s: State, p: Id, a: PassAction)
    requires PassEnabled(s, p, a) && Booked(s, p) && a.Inquire? && Counts(s, p, a).None?
    ensures Booked(PassStep(s, p, a), p)
  {
  }

  lemma OwnStepKeepsBooks(s: State, p: Id, a: PassAction)
    requires PassEnabled(s, p, a) && Booked(s, p)
    ensures Booked(PassStep(s, p, a), p)
  {
    if Counts(s, p, a).Some? {
      CountedKeepsBooks(s, p, a);
    } else {
      match a
      case Start(_, _) => StartKeepsBooks(s, p, a);
      case Inquire(_) => InquireKeepsBooks(s, p, a);
      case WriteRow(_) => WriteKeepsBooks(s, p);
      case CrashPass =>
    }
  }

  lemma StepKeepsBooks(s: State, a: Action, p: Id)
    requires Enabled(s, a) && Booked(s, p)
    ensures Booked(Step(s, a), p)
  {
    if a.OnPass? && a.p == p {
      OwnStepKeepsBooks(s, p, a.pass);
    } else if a.OnPass? {
      OtherPassLeavesBooksAlone(s, a.p, a.pass, p);
      ForeignKeepsBooks(s, Step(s, a), p);
    } else {
      OthersLeaveBooksAlone(s, a, p);
      ForeignKeepsBooks(s, Step(s, a), p);
    }
  }

  /** Over every interleaved run: at any moment of a pass its counters add up to the rows it is done
      with, its payment.succeeded events are its captured rows, its payment.failed events its failed
      rows less the abandoned ones, and its status writes are exactly those its outcomes (and the
      row in hand) say, one per row. */
  lemma {:induction false} PassesAccountForThemselves(trace: seq<State>, actions: seq<Action>, k: nat, p: Id)
    requires IsRun(trace, actions) && k < |trace| && p in trace[k].passes && trace[k].passes[p].Pass?
    ensures var proc, outbox := trace[k].passes[p], trace[k].db.outbox;
            && BooksKept(proc, outbox, trace[k].writes, p)
            && var t := ReportOf(proc);
               && t.captured + t.failed + t.untouched + |t.errors| == t.scanned == |proc.done|
               && (!Active(proc) ==> t.scanned == |proc.rows|)
  {
    for j := 0 to k
      invariant Booked(trace[j], p)
    {
      StepKeepsBooks(trace[j], actions[j], p);
    }
    var proc := trace[k].passes[p];
    EveryRowCountedOnce(Ids(proc.rows[..|proc.done|]), proc.done);
  }
}
