/** The SQL event store, statement by statement (src/sql-learning-event-store.ts). Each public call is
    proved against a function on the tables; the interleaved protocol uses the same batches. */
module SqlStore {
  import opened Wrappers
  import opened LearningEvents
  import opened EventTables
  import opened RecordReceipts

  function CompareIdempotent(stored: EventRow, c: Candidate): Result<AppendResult, ErrorCode> {
    if stored.event.body.digest != c.digest then Err(IdempotencyConflict) else Ok(AppendResult(stored.event, true))
  }

  // After a batch that a unique index stopped: the error the caller sees.
  function AfterRollback(db: Database, c: Candidate): Result<AppendResult, ErrorCode> {
    match Find(db, c.scope, c.key)
    case Err(code) => Err(code)
    case Ok(Some(concurrent)) => CompareIdempotent(concurrent, c)
    case Ok(None) =>
      match DuplicateEvidence(db, c)
      case Some(code) => Err(code)
      case None => Err(StorageFailure)
  }

  // After a committed batch: the stored event is read back and compared with the token of this call.
  function AfterCommit(db: Database, c: Candidate, token: Token): Result<AppendResult, ErrorCode> {
    match Find(db, c.scope, c.key)
    case Err(code) => Err(code)
    case Ok(None) =>
      (match DuplicateEvidence(db, c)
       case Some(code) => Err(code)
       case None => Err(ConcurrencyConflict))
    case Ok(Some(stored)) =>
      if stored.event.body.digest != c.digest then Err(IdempotencyConflict)
      else Ok(AppendResult(stored.event, stored.token != token))
  }

  // The whole call when nothing else touches the tables meanwhile.
  function AppendCall(db: Database, c: Candidate, expectedRevision: int, token: Token)
    : (Database, Result<AppendResult, ErrorCode>)
  {
    match Find(db, c.scope, c.key)
    case Err(code) => (db, Err(code))
    case Ok(Some(existing)) => (db, CompareIdempotent(existing, c))
    case Ok(None) =>
      match AppendBatch(db, c, expectedRevision, token)
      case None => (db, AfterRollback(db, c))
      case Some(after) => (after, AfterCommit(after, c, token))
  }

  function FindReceipt(receipts: set<DeletionReceipt>, scope: Scope, operationKey: Id): Option<DeletionReceipt>
    requires forall r, s :: r in receipts && s in receipts && SameOperation(r, s) ==> r == s
  {
    if exists r :: r in receipts && r.scope == scope && r.operationKey == operationKey then
      assert forall r, s :: r in receipts && s in receipts && r.scope == s.scope && r.operationKey == s.operationKey
                            ==> SameOperation(r, s);
      var r :| r in receipts && r.scope == scope && r.operationKey == operationKey;
      Some(r)
    else None
  }

  function DeleteVerifiedCall(db: Database, scope: Scope, operationKey: Id, deletedAt: Time)
    : (Database, Result<DeletionReceipt, ErrorCode>)
    requires Sound(db)
  {
    match FindReceipt(db.receipts, scope, operationKey)
    case Some(existing) => (db, Ok(existing))
    case None =>
      match List(db, scope)
      case Err(code) => (db, Err(code))
      case Ok(events) =>
        var receipt := ReceiptFor(scope, events, operationKey, deletedAt);
        (DeleteVerifiedBatch(db, receipt), Ok(receipt))
  }

  function EventIds(events: seq<Event>): (r: seq<EventId>)
    ensures |r| == |events| && forall i :: 0 <= i < |r| ==> r[i] == events[i].body.id
  {
    seq(|events|, i requires 0 <= i < |events| => events[i].body.id)
  }

  // An export that lists the stream in one state of the tables and observes it in a later one. The second listing
  // is compared by event identifiers.
  ghost function ExportCall(listed: Database, observed: Database, scope: Scope, exportedAt: Time): Result<VerifiedExport, ErrorCode> {
    match List(listed, scope)
    case Err(code) => Err(code)
    case Ok(events) =>
      if !InScope(scope, events) then Err(StorageFailure)
      else match List(observed, scope)
        case Err(code) => Err(code)
        case Ok(again) =>
          if EventIds(again) != EventIds(events) then Err(ConcurrencyConflict) else Ok(Exported(scope, events, exportedAt))
  }

  // What is exported is the stream as it was listed; it is still the stream when it is observed if the stream was
  // only appended to meanwhile, and then the export succeeds exactly if nothing was appended.
  lemma ExportIsTheObservedStream(listed: Database, observed: Database, scope: Scope, exportedAt: Time)
    requires List(listed, scope).Ok? && List(observed, scope).Ok? && Sound(listed)
    ensures ExportCall(listed, observed, scope, exportedAt).Ok? <==> EventIds(StreamOf(listed, scope)) == EventIds(StreamOf(observed, scope))
    ensures StreamOf(listed, scope) <= StreamOf(observed, scope) ==>
      ExportCall(listed, observed, scope, exportedAt) ==
        if StreamOf(listed, scope) == StreamOf(observed, scope) then Ok(Exported(scope, StreamOf(observed, scope), exportedAt))
        else Err(ConcurrencyConflict)
  {
    StreamAscends(listed.rows, scope);
    StreamElements(listed.rows, scope);
    var events, again := StreamOf(listed, scope), StreamOf(observed, scope);
    if events <= again && EventIds(events) == EventIds(again) {
      assert |events| == |again|;
      assert events == again;
    }
  }

  // Every stored event of the learner is valid, so listing them succeeds.
  predicate ListsCleanly(db: Database, scope: Scope) {
    forall e :: e in StreamOf(db, scope) ==> ValidEvent(e)
  }

  predicate OperationUsed(db: Database, scope: Scope, operationKey: Id) {
    exists s :: s in db.receipts && s.scope == scope && s.operationKey == operationKey
  }

  // The operation key is bound to a receipt other than this one.
  predicate BoundElsewhere(db: Database, receipt: DeletionReceipt) {
    exists s :: s in db.receipts && s.scope == receipt.scope && s.operationKey == receipt.operationKey && s != receipt
  }

  predicate ReplayedBefore(db: Database, receipt: DeletionReceipt, restoreId: Id) {
    exists p :: p in db.replays && p.receipt == receipt && p.restoreId == restoreId
  }

  // With no other writer, the receipt of a new operation is stored, is found again, and covers the whole stream.
  lemma AloneTheReceiptIsStored(db: Database, scope: Scope, operationKey: Id, deletedAt: Time)
    requires Sound(db) && FindReceipt(db.receipts, scope, operationKey) == None
    ensures var receipt := ReceiptFor(scope, StreamOf(db, scope), operationKey, deletedAt);
            var after := DeleteVerifiedBatch(db, receipt);
            && receipt !in db.receipts && receipt in after.receipts && Sound(after)
            && FindReceipt(after.receipts, scope, operationKey) == Some(receipt)
            && StreamOf(after, scope) == []
            && InScope(scope, receipt.eventDigest)
  {
    var receipt := ReceiptFor(scope, StreamOf(db, scope), operationKey, deletedAt);
    DeleteVerifiedIsAllOrNothing(db, receipt);
    assert SameOperation(receipt, receipt);
    StreamAscends(db.rows, scope);
    StreamElements(db.rows, scope);
  }

  class SqlLearningEventStore {
    var streams: map<Scope, StreamRow>
    var rows: seq<EventRow>
    var nextSequence: int
    var receipts: set<DeletionReceipt>
    var replays: set<DeletionReplay>
    // The supply of random tokens: the ones below it have been drawn.
    var nextToken: Token

    constructor ()
      ensures Valid() && Contents() == EMPTY_DATABASE
    {
      streams, rows, nextSequence, receipts, replays, nextToken := map[], [], 1, {}, {}, 0;
    }

    function Contents(): Database
      reads this
    {
      Database(streams, rows, nextSequence, receipts, replays)
    }

    ghost predicate Valid()
      reads this
    {
      Sound(Contents()) && TokensBelow(Contents(), nextToken)
    }

    method RunAppendBatch(c: Candidate, expectedRevision: int, token: Token) returns (committed: bool)
      modifies this`streams, this`rows, this`nextSequence
      ensures committed ==> AppendBatch(old(Contents()), c, expectedRevision, token) == Some(Contents())
      ensures !committed ==> AppendBatch(old(Contents()), c, expectedRevision, token) == None && Contents() == old(Contents())
    {
      var savedStreams := streams;
      // INSERT INTO learning_event_streams ... ON CONFLICT DO NOTHING
      if c.scope !in streams {
        streams := streams[c.scope := StreamRow(0, None)];
      }
      // UPDATE learning_event_streams ... WHERE revision = ?
      if streams[c.scope].revision == expectedRevision {
        streams := streams[c.scope := StreamRow(expectedRevision + 1, Some(token))];
      }
      // INSERT INTO learning_events ... WHERE EXISTS (stream with the new revision and this token)
      if streams[c.scope] == StreamRow(expectedRevision + 1, Some(token)) {
        var row := EventRow(Event(nextSequence, c), token);
        if exists r :: r in rows && Clash(r, row) {
          streams := savedStreams;
          return false;
        }
        rows := rows + [row];
        nextSequence := nextSequence + 1;
      }
      return true;
    }

    method Append(c: Candidate, expectedRevision: int) returns (r: Result<AppendResult, ErrorCode>)
      requires Valid()
      modifies this
      ensures Valid()
      ensures (Contents(), r) == AppendCall(old(Contents()), c, expectedRevision, old(nextToken))
    {
      var existing := Find(Contents(), c.scope, c.key);
      if existing.Err? {
        return Err(existing.error);
      }
      if existing.value.Some? {
        return CompareIdempotent(existing.value.value, c);
      }
      var appendToken := nextToken;
      nextToken := nextToken + 1;
      AppendBatchEffect(Contents(), c, expectedRevision, appendToken);
      if AppendBatch(Contents(), c, expectedRevision, appendToken).Some? {
        AppendBatchTokens(Contents(), c, expectedRevision, appendToken);
      }
      var committed := RunAppendBatch(c, expectedRevision, appendToken);
      r := if committed then AfterCommit(Contents(), c, appendToken) else AfterRollback(Contents(), c);
    }

    method Delete(scope: Scope) returns (count: nat)
      requires Valid()
      modifies this
      ensures Valid() && nextToken == old(nextToken)
      ensures count == |StreamOf(old(Contents()), scope)|
      ensures Contents() == Cleared(old(Contents()), scope) && StreamOf(Contents(), scope) == []
    {
      ClearedEffect(Contents(), scope);
      ClearedTokens(Contents(), scope, nextToken);
      count := |StreamOf(Contents(), scope)|;
      rows := Without(rows, scope);
      streams := streams - {scope};
    }

    method ExportVerified(scope: Scope, exportedAt: Time) returns (r: Result<VerifiedExport, ErrorCode>)
      requires Valid()
      ensures r == ExportCall(Contents(), Contents(), scope, exportedAt)
      ensures r.Ok? <==> List(Contents(), scope).Ok?
      ensures r.Ok? ==> r.value == Exported(scope, StreamOf(Contents(), scope), exportedAt)
                        && InScope(scope, StreamOf(Contents(), scope))
    {
      var events := List(Contents(), scope);
      if events.Err? {
        return Err(events.error);
      }
      StreamAscends(rows, scope);
      StreamElements(rows, scope);
      var exported := CreateVerifiedExport(scope, events.value, exportedAt);
      if exported.Err? {
        return exported;
      }
      var observed := List(Contents(), scope);
      if EventIds(observed.value) != EventIds(events.value) {
        return Err(ConcurrencyConflict);
      }
      return exported;
    }

    method RunDeleteVerifiedBatch(receipt: DeletionReceipt)
      modifies this`streams, this`rows, this`receipts
      ensures Contents() == DeleteVerifiedBatch(old(Contents()), receipt)
    {
      // INSERT INTO learning_record_deletion_receipts ... WHERE the revision still matches ... ON CONFLICT DO NOTHING
      if StillAt(Contents(), receipt.scope, receipt.eventCount)
         && !(exists s :: s in receipts && SameOperation(s, receipt)) {
        receipts := receipts + {receipt};
      }
      // DELETE FROM learning_events, learning_event_streams ... WHERE EXISTS (receipt)
      if receipt in receipts {
        rows := Without(rows, receipt.scope);
        streams := streams - {receipt.scope};
      }
    }

    method DeleteVerified(scope: Scope, operationKey: Id, deletedAt: Time)
      returns (r: Result<DeletionReceipt, ErrorCode>)
      requires Valid()
      modifies this
      ensures Valid() && nextToken == old(nextToken)
      ensures (Contents(), r) == DeleteVerifiedCall(old(Contents()), scope, operationKey, deletedAt)
      ensures OperationUsed(old(Contents()), scope, operationKey) ==>
                Contents() == old(Contents()) && r.Ok? && r.value in receipts && r.value.scope == scope && r.value.operationKey == operationKey
      ensures !OperationUsed(old(Contents()), scope, operationKey) && !ListsCleanly(old(Contents()), scope) ==>
                Contents() == old(Contents()) && r == Err(InvalidEvent)
      ensures !OperationUsed(old(Contents()), scope, operationKey) && ListsCleanly(old(Contents()), scope) ==>
                var stream := StreamOf(old(Contents()), scope);
                && r == Ok(DeletionReceipt(operationKey, scope, |stream|, |stream|, stream, deletedAt))
                && receipts == old(receipts) + {r.value} && replays == old(replays) && nextSequence == old(nextSequence)
                && scope !in streams && forall s :: StreamOf(Contents(), s) == if s == scope then [] else StreamOf(old(Contents()), s)
    {
      var existing := FindReceipt(receipts, scope, operationKey);
      if existing.Some? {
        return Ok(existing.value);
      }
      var events := List(Contents(), scope);
      if events.Err? {
        return Err(events.error);
      }
      var receipt := ReceiptFor(scope, events.value, operationKey, deletedAt);
      AloneTheReceiptIsStored(Contents(), scope, operationKey, deletedAt);
      DeleteVerifiedIsAllOrNothing(Contents(), receipt);
      ClearedTokens(Contents(), scope, nextToken);
      RunDeleteVerifiedBatch(receipt);
      var stored := FindReceipt(receipts, scope, operationKey);
      if stored.None? {
        return Err(ConcurrencyConflict);
      }
      if stored.value != receipt {
        return Err(IdempotencyConflict);
      }
      return Ok(stored.value);
    }

    method RunReplayBatch(replay: DeletionReplay)
      requires ReplayBatch(Contents(), replay).Some?
      requires !exists r :: r in replays && SameRestore(r, replay)
      modifies this`streams, this`rows, this`receipts, this`replays
      ensures ReplayBatch(old(Contents()), replay) == Some(Contents())
    {
      receipts := receipts + {replay.receipt};
      replays := replays + {replay};
      rows := Without(rows, replay.receipt.scope);
      streams := streams - {replay.receipt.scope};
    }

    method ReplayDeletion(scope: Scope, receipt: DeletionReceipt, restoreId: Id, replayedAt: Time)
      returns (r: Result<DeletionReplay, ErrorCode>)
      requires Valid()
      modifies this
      ensures Valid() && nextToken == old(nextToken)
      ensures r.Err? || ReplayedBefore(old(Contents()), receipt, restoreId) ==> Contents() == old(Contents())
      ensures var db := old(Contents());
        if !ValidReceipt(receipt) then r == Err(StorageFailure)
        else if receipt.scope != scope then r == Err(AccessDenied)
        else if ReplayedBefore(db, receipt, restoreId) then
          r.Ok? && r.value in db.replays && r.value.receipt == receipt && r.value.restoreId == restoreId
        else if BoundElsewhere(db, receipt) then r == Err(IdempotencyConflict)
        else if !ListsCleanly(db, scope) then r == Err(InvalidEvent)
        else var stream := StreamOf(db, scope);
          && r == Ok(DeletionReplay(receipt, restoreId, stream, |stream|, replayedAt))
          && receipts == db.receipts + {receipt} && replays == db.replays + {r.value} && nextSequence == db.nextSequence
          && scope !in streams && forall s :: StreamOf(Contents(), s) == if s == scope then [] else StreamOf(db, s)
    {
      if !ValidReceipt(receipt) {
        return Err(StorageFailure);
      }
      if receipt.scope != scope {
        return Err(AccessDenied);
      }
      if prior :| prior in replays && prior.receipt == receipt && prior.restoreId == restoreId {
        return Ok(prior);
      }
      var priorReceipt := FindReceipt(receipts, scope, receipt.operationKey);
      if priorReceipt.Some? && priorReceipt.value != receipt {
        return Err(IdempotencyConflict);
      }
      var events := List(Contents(), scope);
      if events.Err? {
        return Err(events.error);
      }
      var replay := DeletionReplay(receipt, restoreId, events.value, |events.value|, replayedAt);
      ReplayBatchEffect(Contents(), replay);
      assert receipt in receipts || !exists s :: s in receipts && SameOperation(s, receipt);
      ClearedTokens(Contents(), scope, nextToken);
      RunReplayBatch(replay);
      return Ok(replay);
    }
  }
}
