/** The four tables of the SQL event store and the effect of each atomic batch on them
    (src/sql-learning-event-store.ts, migrations/0008_authoritative_learning_events.sql). */
module EventTables {
  import opened Wrappers
  import opened LearningEvents

  type Token = nat

  datatype StreamRow = StreamRow(revision: int, writeToken: Option<Token>)
  datatype EventRow = EventRow(event: Event, token: Token)

  // A receipt's identifier and digest are those of its other fields, so the record stands for them.
  datatype DeletionReceipt = DeletionReceipt(
    operationKey: Id, scope: Scope, sourceRevision: int, eventCount: int, eventDigest: seq<Event>, deletedAt: Time)

  datatype DeletionReplay = DeletionReplay(
    receipt: DeletionReceipt, restoreId: Id, preReplayEventDigest: seq<Event>, deletedEventCount: int, replayedAt: Time)

  // The rows of learning_events stand in the order of their sequence numbers.
  datatype Database = Database(
    streams: map<Scope, StreamRow>, rows: seq<EventRow>, nextSequence: int,
    receipts: set<DeletionReceipt>, replays: set<DeletionReplay>)

  const EMPTY_DATABASE := Database(map[], [], 1, {}, {})

  function AttemptOf(body: Candidate): Option<Id> {
    if body.payload.AssessmentRecorded? then Some(body.payload.attemptId) else None
  }

  function CorrectionOf(body: Candidate): Option<Id> {
    if body.payload.AssessmentCorrected? then Some(body.payload.correctionId) else None
  }

  // The evidence identifier that must be unique for a learner is already taken.
  predicate SameEvidence(a: Candidate, b: Candidate) {
    || (AttemptOf(a).Some? && AttemptOf(a) == AttemptOf(b))
    || (CorrectionOf(a).Some? && CorrectionOf(a) == CorrectionOf(b))
  }

  // Two rows that the unique indexes of learning_events do not allow together.
  predicate Clash(a: EventRow, b: EventRow) {
    || a.event.body.id == b.event.body.id
    || a.token == b.token
    || (a.event.body.scope == b.event.body.scope
        && (a.event.body.key == b.event.body.key || SameEvidence(a.event.body, b.event.body)))
  }

  // SELECT ... WHERE installation_id = ? AND user_id = ? ORDER BY sequence ASC
  function Stream(rows: seq<EventRow>, scope: Scope): seq<Event> {
    if rows == [] then []
    else
      var last := rows[|rows| - 1];
      var before := Stream(rows[..|rows| - 1], scope);
      if last.event.body.scope == scope then before + [last.event] else before
  }

  // DELETE FROM learning_events WHERE installation_id = ? AND user_id = ?
  function Without(rows: seq<EventRow>, scope: Scope): seq<EventRow> {
    if rows == [] then []
    else
      var last := rows[|rows| - 1];
      var before := Without(rows[..|rows| - 1], scope);
      if last.event.body.scope == scope then before else before + [last]
  }

  // SELECT ... WHERE installation_id = ? AND user_id = ? AND idempotency_key = ?
  function FindRow(rows: seq<EventRow>, scope: Scope, key: Id): Option<EventRow> {
    if rows == [] then None
    else if rows[0].event.body.scope == scope && rows[0].event.body.key == key then Some(rows[0])
    else FindRow(rows[1..], scope, key)
  }

  function StreamOf(db: Database, scope: Scope): seq<Event> {
    Stream(db.rows, scope)
  }

  // list(): every row read is validated.
  function List(db: Database, scope: Scope): Result<seq<Event>, ErrorCode> {
    var events := StreamOf(db, scope);
    if forall e :: e in events ==> ValidEvent(e) then Ok(events) else Err(InvalidEvent)
  }

  // findByIdempotencyKey(): the row read is validated.
  function Find(db: Database, scope: Scope, key: Id): Result<Option<EventRow>, ErrorCode> {
    match FindRow(db.rows, scope, key)
    case None => Ok(None)
    case Some(row) => if ValidEvent(row.event) then Ok(Some(row)) else Err(InvalidEvent)
  }

  // throwDuplicateEvidence(): the error it raises, if any.
  function DuplicateEvidence(db: Database, c: Candidate): Option<ErrorCode> {
    if exists row :: row in db.rows && row.event.body.scope == c.scope && SameEvidence(row.event.body, c) then
      Some(if c.payload.AssessmentRecorded? then DuplicateAttemptId else DuplicateCorrectionId)
    else None
  }

  // The three statements of the append batch. None means a unique index stopped it and nothing was kept.
  function AppendBatch(db: Database, c: Candidate, expectedRevision: int, token: Token): Option<Database> {
    var streams0 := if c.scope in db.streams then db.streams else db.streams[c.scope := StreamRow(0, None)];
    var streams1 := if streams0[c.scope].revision == expectedRevision
                    then streams0[c.scope := StreamRow(expectedRevision + 1, Some(token))] else streams0;
    if streams1[c.scope] == StreamRow(expectedRevision + 1, Some(token)) then
      var row := EventRow(Event(db.nextSequence, c), token);
      if exists r :: r in db.rows && Clash(r, row) then None
      else Some(db.(streams := streams1, rows := db.rows + [row], nextSequence := db.nextSequence + 1))
    else Some(db.(streams := streams1))
  }

  function Cleared(db: Database, scope: Scope): Database {
    db.(streams := db.streams - {scope}, rows := Without(db.rows, scope))
  }

  predicate SameOperation(a: DeletionReceipt, b: DeletionReceipt) {
    a.scope == b.scope && a.operationKey == b.operationKey
  }

  // The stream still has the revision the receipt was made from.
  predicate StillAt(db: Database, scope: Scope, count: int) {
    || (scope in db.streams && db.streams[scope].revision == count)
    || (count == 0 && scope !in db.streams)
  }

  // The batch of deleteVerified: store the receipt if the revision still matches, then delete what a stored receipt covers.
  function DeleteVerifiedBatch(db: Database, receipt: DeletionReceipt): Database {
    var stored := if StillAt(db, receipt.scope, receipt.eventCount)
                     && !(exists r :: r in db.receipts && SameOperation(r, receipt))
                  then db.(receipts := db.receipts + {receipt}) else db;
    if receipt in stored.receipts then Cleared(stored, receipt.scope) else stored
  }

  predicate SameRestore(a: DeletionReplay, b: DeletionReplay) {
    a.receipt == b.receipt && a.restoreId == b.restoreId
  }

  // The batch of replayDeletion. None means the operation key is bound to another receipt.
  function ReplayBatch(db: Database, replay: DeletionReplay): Option<Database> {
    if replay.receipt !in db.receipts && exists r :: r in db.receipts && SameOperation(r, replay.receipt) then None
    else
      var receipts := db.receipts + {replay.receipt};
      var replays := if exists r :: r in db.replays && SameRestore(r, replay) then db.replays
                     else db.replays + {replay};
      var stored := db.(receipts := receipts, replays := replays);
      Some(if replay in replays then Cleared(stored, replay.receipt.scope) else stored)
  }

  // Invariants of the tables.

  ghost predicate RevisionsCount(db: Database) {
    && (forall s :: s in db.streams ==> db.streams[s].revision == |StreamOf(db, s)|)
    && (forall s :: s !in db.streams ==> StreamOf(db, s) == [])
  }

  ghost predicate RowsAscend(db: Database) {
    && 1 <= db.nextSequence
    && (forall i :: 0 <= i < |db.rows| ==> 1 <= db.rows[i].event.sequence < db.nextSequence)
    && Ascending(db.rows)
  }

  ghost predicate Ascending(rows: seq<EventRow>) {
    forall i, j :: 0 <= i < j < |rows| ==> rows[i].event.sequence < rows[j].event.sequence
  }

  ghost predicate Unclashed(rows: seq<EventRow>) {
    forall i, j :: 0 <= i < j < |rows| ==> !Clash(rows[i], rows[j])
  }

  ghost predicate RowsUnique(db: Database) {
    Unclashed(db.rows)
  }

  ghost predicate ReceiptsUnique(db: Database) {
    forall r, s :: r in db.receipts && s in db.receipts && SameOperation(r, s) ==> r == s
  }

  ghost predicate Sound(db: Database) {
    RevisionsCount(db) && RowsAscend(db) && RowsUnique(db) && ReceiptsUnique(db)
  }

  // Every stored event was built by the engine from a valid command.
  ghost predicate EngineRows(db: Database) {
    forall row :: row in db.rows ==> EngineBuilt(row.event.body)
  }

  predicate FreshToken(db: Database, token: Token) {
    && (forall s :: s in db.streams ==> db.streams[s].writeToken != Some(token))
    && (forall row :: row in db.rows ==> row.token != token)
  }

  // Tokens are drawn in order: every stored token is below the supply.
  ghost predicate TokensBelow(db: Database, supply: Token) {
    && (forall s :: s in db.streams && db.streams[s].writeToken.Some? ==> db.streams[s].writeToken.value < supply)
    && (forall row :: row in db.rows ==> row.token < supply)
  }

  // Facts about the queries.

  lemma StreamAppend(rows: seq<EventRow>, row: EventRow, scope: Scope)
    ensures Stream(rows + [row], scope)
         == if row.event.body.scope == scope then Stream(rows, scope) + [row.event] else Stream(rows, scope)
  {
    assert (rows + [row])[..|rows|] == rows;
  }

  lemma {:induction false} StreamElements(rows: seq<EventRow>, scope: Scope)
    ensures forall e :: e in Stream(rows, scope)
                   <==> exists i :: 0 <= i < |rows| && rows[i].event == e && e.body.scope == scope
  {
    if rows != [] {
      var n := |rows| - 1;
      StreamElements(rows[..n], scope);
      assert rows == rows[..n] + [rows[n]];
      forall e | e in Stream(rows, scope)
        ensures exists i :: 0 <= i < |rows| && rows[i].event == e && e.body.scope == scope
      {
        if e in Stream(rows[..n], scope) {
          var i :| 0 <= i < n && rows[..n][i].event == e && e.body.scope == scope;
          assert rows[i].event == e;
        } else {
          assert rows[n].event == e;
        }
      }
      forall e, i | 0 <= i < |rows| && rows[i].event == e && e.body.scope == scope
        ensures e in Stream(rows, scope)
      {
        if i < n {
          assert rows[..n][i].event == e;
        }
      }
    }
  }

  lemma {:induction false} StreamAscends(rows: seq<EventRow>, scope: Scope)
    requires forall i :: 0 <= i < |rows| ==> 1 <= rows[i].event.sequence
    requires Ascending(rows)
    ensures Increasing(Stream(rows, scope))
  {
    if rows != [] {
      var n := |rows| - 1;
      StreamAscends(rows[..n], scope);
      StreamElements(rows[..n], scope);
      var before := Stream(rows[..n], scope);
      forall e | e in before ensures e.sequence < rows[n].event.sequence {
        var i :| 0 <= i < n && rows[..n][i].event == e;
        assert rows[i].event == e;
      }
    }
  }

  lemma {:induction false} WithoutSplitsStreams(rows: seq<EventRow>, scope: Scope, other: Scope)
    ensures Stream(Without(rows, scope), other) == if other == scope then [] else Stream(rows, other)
  {
    if rows != [] {
      var n := |rows| - 1;
      WithoutSplitsStreams(rows[..n], scope, other);
      if rows[n].event.body.scope != scope {
        StreamAppend(Without(rows[..n], scope), rows[n], other);
      }
    }
  }

  lemma {:induction false} WithoutElements(rows: seq<EventRow>, scope: Scope)
    ensures forall row :: row in Without(rows, scope) <==> row in rows && row.event.body.scope != scope
  {
    if rows != [] {
      var n := |rows| - 1;
      WithoutElements(rows[..n], scope);
      assert rows == rows[..n] + [rows[n]];
      assert forall row :: row in rows <==> row in rows[..n] || row == rows[n];
    }
  }

  lemma {:induction false} WithoutAscends(rows: seq<EventRow>, scope: Scope)
    requires Ascending(rows)
    ensures Ascending(Without(rows, scope))
  {
    if rows != [] {
      var n := |rows| - 1;
      WithoutAscends(rows[..n], scope);
      var before := Without(rows[..n], scope);
      WithoutElements(rows[..n], scope);
      forall k | 0 <= k < |before| ensures before[k].event.sequence < rows[n].event.sequence {
        assert before[k] in rows[..n];
      }
    }
  }

  lemma {:induction false} WithoutUnclashed(rows: seq<EventRow>, scope: Scope)
    requires Unclashed(rows)
    ensures Unclashed(Without(rows, scope))
  {
    if rows != [] {
      var n := |rows| - 1;
      WithoutUnclashed(rows[..n], scope);
      var before := Without(rows[..n], scope);
      WithoutElements(rows[..n], scope);
      forall k | 0 <= k < |before| ensures !Clash(before[k], rows[n]) {
        assert before[k] in rows[..n];
      }
    }
  }

  lemma {:induction false} FindRowMeaning(rows: seq<EventRow>, scope: Scope, key: Id)
    ensures match FindRow(rows, scope, key)
            case None => forall row :: row in rows ==> !(row.event.body.scope == scope && row.event.body.key == key)
            case Some(r) => r in rows && r.event.body.scope == scope && r.event.body.key == key
  {
    if rows != [] {
      FindRowMeaning(rows[1..], scope, key);
      assert forall row :: row in rows <==> row == rows[0] || row in rows[1..] by { assert rows == [rows[0]] + rows[1..]; }
    }
  }

  lemma FindRowIsUnique(db: Database, row: EventRow)
    requires RowsUnique(db) && row in db.rows
    ensures FindRow(db.rows, row.event.body.scope, row.event.body.key) == Some(row)
  {
    FindRowMeaning(db.rows, row.event.body.scope, row.event.body.key);
    var r := FindRow(db.rows, row.event.body.scope, row.event.body.key).value;
    var i :| 0 <= i < |db.rows| && db.rows[i] == row;
    var j :| 0 <= j < |db.rows| && db.rows[j] == r;
    assert i < j ==> Clash(db.rows[i], db.rows[j]);
    assert j < i ==> Clash(db.rows[j], db.rows[i]);
  }

  // Effects of the batches.

  predicate Inserted(db: Database, after: Database, c: Candidate, token: Token) {
    after.rows == db.rows + [EventRow(Event(db.nextSequence, c), token)]
  }

  lemma AddedRow(rows: seq<EventRow>, row: EventRow)
    requires Ascending(rows) && Unclashed(rows)
    requires forall r :: r in rows ==> r.event.sequence < row.event.sequence && !Clash(r, row)
    ensures Ascending(rows + [row]) && Unclashed(rows + [row])
  {
  }

  lemma StreamsAfterAppend(db: Database, after: Database, c: Candidate, token: Token)
    requires Inserted(db, after, c, token)
    ensures forall s :: StreamOf(after, s) == if s == c.scope then StreamOf(db, s) + [Event(db.nextSequence, c)]
                                              else StreamOf(db, s)
  {
    forall s: Scope
      ensures StreamOf(after, s) == if s == c.scope then StreamOf(db, s) + [Event(db.nextSequence, c)] else StreamOf(db, s)
    {
      StreamAppend(db.rows, EventRow(Event(db.nextSequence, c), token), s);
    }
  }

  // An append batch adds one event and one revision, or it adds neither.
  lemma AppendBatchEffect(db: Database, c: Candidate, expectedRevision: int, token: Token)
    requires Sound(db) && FreshToken(db, token)
    ensures match AppendBatch(db, c, expectedRevision, token)
            case None =>
              && |StreamOf(db, c.scope)| == expectedRevision
              && exists r :: r in db.rows && Clash(r, EventRow(Event(db.nextSequence, c), token))
            case Some(after) =>
              && Sound(after) && after.receipts == db.receipts && after.replays == db.replays
              && (forall s :: s != c.scope ==> StreamOf(after, s) == StreamOf(db, s))
              && (if |StreamOf(db, c.scope)| == expectedRevision
                  then Inserted(db, after, c, token)
                       && StreamOf(after, c.scope) == StreamOf(db, c.scope) + [Event(db.nextSequence, c)]
                  else after.rows == db.rows && StreamOf(after, c.scope) == StreamOf(db, c.scope)
                       && after.nextSequence == db.nextSequence)
  {
    match AppendBatch(db, c, expectedRevision, token)
    case None =>
    case Some(after) =>
      if |StreamOf(db, c.scope)| == expectedRevision {
        StreamsAfterAppend(db, after, c, token);
        AddedRow(db.rows, EventRow(Event(db.nextSequence, c), token));
      }
  }

  lemma AppendBatchTokens(db: Database, c: Candidate, expectedRevision: int, token: Token)
    requires TokensBelow(db, token) && AppendBatch(db, c, expectedRevision, token).Some?
    ensures TokensBelow(AppendBatch(db, c, expectedRevision, token).value, token + 1)
  {
  }

  lemma ClearedTokens(db: Database, scope: Scope, supply: Token)
    requires TokensBelow(db, supply)
    ensures TokensBelow(Cleared(db, scope), supply)
  {
    WithoutElements(db.rows, scope);
  }

  lemma ClearedEffect(db: Database, scope: Scope)
    requires Sound(db)
    ensures Sound(Cleared(db, scope))
    ensures forall s :: StreamOf(Cleared(db, scope), s) == if s == scope then [] else StreamOf(db, s)
    ensures EngineRows(db) ==> EngineRows(Cleared(db, scope))
  {
    var after := Cleared(db, scope);
    forall s: Scope ensures StreamOf(after, s) == if s == scope then [] else StreamOf(db, s) {
      WithoutSplitsStreams(db.rows, scope, s);
    }
    assert RevisionsCount(after);
    WithoutElements(db.rows, scope);
    WithoutAscends(db.rows, scope);
    WithoutUnclashed(db.rows, scope);
    forall i | 0 <= i < |after.rows| ensures 1 <= after.rows[i].event.sequence < db.nextSequence {
      assert after.rows[i] in db.rows;
    }
  }

  // With the receipt's identifier not stored before, either the receipt is stored and as many events as it
  // counts are gone, or nothing changes at all.
  lemma DeleteVerifiedIsAllOrNothing(db: Database, receipt: DeletionReceipt)
    requires Sound(db) && receipt !in db.receipts
    ensures var after := DeleteVerifiedBatch(db, receipt);
            && Sound(after)
            && (if receipt in after.receipts
                then after.receipts == db.receipts + {receipt} && |StreamOf(db, receipt.scope)| == receipt.eventCount
                     && StreamOf(after, receipt.scope) == [] && receipt.scope !in after.streams
                else after == db)
            && (forall s :: s != receipt.scope ==> StreamOf(after, s) == StreamOf(db, s))
            && (receipt in after.receipts <==>
                  && |StreamOf(db, receipt.scope)| == receipt.eventCount
                  && !exists r :: r in db.receipts && SameOperation(r, receipt))
  {
    if DeleteVerifiedBatch(db, receipt) != db {
      ClearedEffect(db.(receipts := db.receipts + {receipt}), receipt.scope);
    }
  }

  // Whatever was stored before, the batch either clears the stream or changes nothing.
  lemma DeleteVerifiedShape(db: Database, receipt: DeletionReceipt)
    requires Sound(db)
    ensures var after := DeleteVerifiedBatch(db, receipt);
            && Sound(after)
            && (if receipt in after.receipts
                then after.rows == Without(db.rows, receipt.scope) && after.streams == db.streams - {receipt.scope}
                else after == db)
  {
    if receipt in db.receipts {
      ClearedEffect(db, receipt.scope);
    } else {
      DeleteVerifiedIsAllOrNothing(db, receipt);
    }
  }

  // The guard that fails: when the very receipt is already stored, the batch clears the stream whatever it holds.
  lemma StoredReceiptClearsAnything(db: Database, receipt: DeletionReceipt)
    requires Sound(db) && receipt in db.receipts
    ensures DeleteVerifiedBatch(db, receipt) == Cleared(db, receipt.scope)
    ensures StreamOf(DeleteVerifiedBatch(db, receipt), receipt.scope) == []
  {
    ClearedEffect(db, receipt.scope);
  }

  // The batch removes exactly the events that a stored receipt covers, or it changes nothing.
  ghost predicate RemovalIsCovered(db: Database, receipt: DeletionReceipt) {
    var after := DeleteVerifiedBatch(db, receipt);
    || (after.receipts == db.receipts && StreamOf(after, receipt.scope) == StreamOf(db, receipt.scope))
    || (receipt in after.receipts && receipt.eventDigest == StreamOf(db, receipt.scope))
  }

  predicate OperationTaken(db: Database, receipt: DeletionReceipt) {
    exists r :: r in db.receipts && SameOperation(r, receipt)
  }

  // When that holds, in terms of the tables the batch finds: an equal receipt is stored already and the stream
  // is empty or still the covered one, or the receipt is new and it is refused or covers the stream. The guard
  // of the batch compares the number of events only.
  lemma RemovalIsCoveredExactly(db: Database, receipt: DeletionReceipt)
    requires Sound(db)
    ensures RemovalIsCovered(db, receipt) <==>
      var stream := StreamOf(db, receipt.scope);
      if receipt in db.receipts then stream == [] || stream == receipt.eventDigest
      else |stream| != receipt.eventCount || OperationTaken(db, receipt) || stream == receipt.eventDigest
  {
    if receipt in db.receipts {
      StoredReceiptClearsAnything(db, receipt);
    } else {
      DeleteVerifiedIsAllOrNothing(db, receipt);
    }
  }

  lemma ReplayBatchEffect(db: Database, replay: DeletionReplay)
    requires Sound(db)
    ensures match ReplayBatch(db, replay)
            case None => replay.receipt !in db.receipts && OperationTaken(db, replay.receipt)
            case Some(after) =>
              && (replay.receipt in db.receipts || !OperationTaken(db, replay.receipt))
              && Sound(after) && after.receipts == db.receipts + {replay.receipt}
              && (replay in after.replays <==> replay in db.replays || !exists r :: r in db.replays && SameRestore(r, replay))
              && after.replays == db.replays + (if replay in after.replays then {replay} else {})
              && db.replays <= after.replays && (exists r :: r in after.replays && r.receipt == replay.receipt)
              && (forall s :: s != replay.receipt.scope ==> StreamOf(after, s) == StreamOf(db, s))
              && (if replay in after.replays
                  then StreamOf(after, replay.receipt.scope) == [] && after.rows == Without(db.rows, replay.receipt.scope)
                       && after.streams == db.streams - {replay.receipt.scope}
                  else StreamOf(after, replay.receipt.scope) == StreamOf(db, replay.receipt.scope)
                       && after.rows == db.rows && after.streams == db.streams)
  {
    if ReplayBatch(db, replay).Some? {
      var receipts := db.receipts + {replay.receipt};
      var replays := if exists r :: r in db.replays && SameRestore(r, replay) then db.replays else db.replays + {replay};
      var stored := db.(receipts := receipts, replays := replays);
      assert RevisionsCount(stored) && RowsAscend(stored) && RowsUnique(stored);
      ClearedEffect(stored, replay.receipt.scope);
      if r :| r in db.replays && SameRestore(r, replay) {
        assert r in stored.replays && r.receipt == replay.receipt;
      } else {
        assert replay in stored.replays;
      }
    }
  }
}
