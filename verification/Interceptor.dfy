/** intercept() as the sequential program it is: one request against the key table. */
module Interceptor {
  import opened Prelude
  import opened Idempotency
  import opened JavaScriptText

  datatype Outcome = Value(status: int, body: Option<string>) | Thrown

  datatype Reply =
    | Handled(outcome: Outcome)                     // the handler's own result
    | Replay(status: Option<int>, cachedBody: string)
    | Conflict
    | StorageError

  /** Which of the awaited database calls succeed. */
  datatype Faults = Faults(deleteOk: bool, createOk: bool, updateOk: bool, releaseOk: bool)

  /** The key's row after the handler returned a value and caching was attempted. */
  function Answered(locked: Row, handler: Outcome, updateOk: bool): Row
    requires handler.Value?
  {
    if updateOk then WithResponse(locked, if handler.status == 0 then 200 else handler.status, handler.body) else locked
  }

  /** What one request leaves in the table, its reply, and whether its handler was called. */
  datatype Handling = Handling(rows: map<string, Row>, reply: Reply, called: bool)

  /** Reservation, handler and callbacks of one request without interference. */
  function Executed(rows: map<string, Row>, key: string, request: Id, expiresAt: int, handler: Outcome, faults: Faults): Handling {
    var locked := NewRow(request, expiresAt);
    if !faults.createOk then Handling(rows, StorageError, false) else
    if key in rows then Handling(rows, Conflict, false) else
    if handler.Value? then Handling(rows[key := Answered(locked, handler, faults.updateOk)], Handled(handler), true) else
    Handling(if faults.releaseOk then rows - {key} else rows[key := locked], Handled(handler), true)
  }

  /** One request with a key, without interference. */
  function Intercepted(rows: map<string, Row>, key: string, request: Id, ttl: int, arrivedAt: int, checkedAt: int,
                       handler: Outcome, faults: Faults): Handling {
    match Inspect(rows, key, checkedAt)
    case Cached(status, body) => Handling(rows, Replay(ReplayStatus(status), body), false)
    case InFlight => Handling(rows, Conflict, false)
    case Expired => Executed(if faults.deleteOk then rows - {key} else rows, key, request, arrivedAt + ttl, handler, faults)
    case Absent => Executed(rows, key, request, arrivedAt + ttl, handler, faults)
  }

  class IdempotencyInterceptor {
    var rows: map<string, Row>

    constructor ()
      ensures rows == map[]
    {
      rows := map[];
    }

    /** Reserve the key, execute the handler, then cache its value or release the lock. */
    method Execute(key: string, request: Id, expiresAt: int, handler: Outcome, faults: Faults) returns (reply: Reply, called: bool)
      modifies this
      ensures Handling(rows, reply, called) == Executed(old(rows), key, request, expiresAt, handler, faults)
      ensures rows - {key} == old(rows) - {key}
      ensures called <==> faults.createOk && key !in old(rows)
      ensures !called ==> rows == old(rows) && reply == if faults.createOk then Conflict else StorageError
      ensures called ==> reply == Handled(handler)
      ensures called && handler.Thrown? && faults.releaseOk ==> key !in rows
      ensures called && handler.Thrown? && !faults.releaseOk ==> key in rows && rows[key] == Row(request, expiresAt, None, None)
      // The key's row afterwards, field by field: a status of 0 is cached as 200, an undefined body not at all.
      ensures called && handler.Value? ==>
                && key in rows
                && rows[key] == if faults.updateOk then Row(request, expiresAt, Some(if handler.status == 0 then 200 else handler.status), handler.body)
                                else Row(request, expiresAt, None, None)
    {
      if !faults.createOk {
        return StorageError, false;
      }
      if key in rows {
        return Conflict, false;
      }
      rows := rows[key := NewRow(request, expiresAt)];
      match handler {
        case Value(status, body) =>
          if faults.updateOk {
            rows := rows[key := WithResponse(rows[key], if status == 0 then 200 else status, body)];
          }
        case Thrown =>
          if faults.releaseOk {
            rows := rows - {key};
          }
      }
      return Handled(handler), true;
    }

    /** `arrivedAt` and `checkedAt` are the two readings of the clock, `request` names the request
        and `handler` is what its handler does if it is called. */
    method Intercept(header: Option<string>, request: Id, ttl: int, arrivedAt: int, checkedAt: int,
                     handler: Outcome, faults: Faults) returns (reply: Reply, called: bool)
      modifies this
      // Without a usable key the interceptor is transparent.
      ensures header.None? || Trim(header.value) == "" ==> called && reply == Handled(handler) && rows == old(rows)
      ensures header.Some? && Trim(header.value) != "" ==>
                Handling(rows, reply, called) == Intercepted(old(rows), Trim(header.value), request, ttl, arrivedAt, checkedAt, handler, faults)
      // Other keys are never touched.
      ensures header.Some? ==> rows - {Trim(header.value)} == old(rows) - {Trim(header.value)}
      // A row that has not expired: its response is replayed if it has one (a status of 0 or null leaves
      // the default), and refused as in flight if not; both without side effects.
      ensures header.Some? && Trim(header.value) != "" && Trim(header.value) in old(rows)
              && old(rows)[Trim(header.value)].expiresAt >= checkedAt ==>
                var row := old(rows)[Trim(header.value)];
                && !called && rows == old(rows)
                && reply == if row.body.Some?
                            then Replay(if row.statusCode.Some? && row.statusCode.value != 0 then row.statusCode else None, row.body.value)
                            else Conflict
      // A row that has expired is never replayed: it is cleaned up, and the handler runs unless a call fails.
      ensures header.Some? && Trim(header.value) != "" && Trim(header.value) in old(rows)
              && old(rows)[Trim(header.value)].expiresAt < checkedAt ==>
                && (called <==> faults.deleteOk && faults.createOk)
                && (!called ==>
                    && rows == (if faults.deleteOk then old(rows) - {Trim(header.value)} else old(rows))
                    && reply == if faults.createOk then Conflict else StorageError)
      // A free key is reserved and the handler runs.
      ensures header.Some? && Trim(header.value) != "" && Trim(header.value) !in old(rows) ==>
                (called <==> faults.createOk) && (!called ==> reply == StorageError && rows == old(rows))
      // A call of the handler is answered with its own result, and leaves the key free, answered or locked.
      ensures called ==> reply == Handled(handler)
      ensures called && header.Some? && Trim(header.value) != "" ==>
                var key, expiresAt := Trim(header.value), arrivedAt + ttl;
                if handler.Value? && faults.updateOk
                then key in rows && rows[key] == Row(request, expiresAt, Some(if handler.status == 0 then 200 else handler.status), handler.body)
                else if handler.Thrown? && faults.releaseOk then key !in rows
                else key in rows && rows[key] == Row(request, expiresAt, None, None)
    {
      if header.None? {
        return Handled(handler), true;
      }
      var key := Trim(header.value);
      if key == "" {
        return Handled(handler), true;
      }
      var expiresAt := arrivedAt + ttl;

      if key in rows {
        var existing := rows[key];
        if existing.expiresAt < checkedAt {
          if faults.deleteOk {
            rows := rows - {key};
          }
        } else if existing.body.Some? {
          return Replay(ReplayStatus(existing.statusCode), existing.body.value), false;
        } else {
          return Conflict, false;
        }
      }
      reply, called := Execute(key, request, expiresAt, handler, faults);
    }
  }
}
