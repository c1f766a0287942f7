/** What one `execute` call does, in terms of its stream: the outcome of a call that runs alone, and when a call
    that lost a race lists its stream again (src/learning-event-engine.ts:288-316, 398-440). */
module ExecuteAlone {
  import opened Wrappers
  import opened LearningEvents
  import opened Projection
  import opened ProjectionTheory
  import opened ProjectionEngine
  import opened EventTables
  import opened MemoryStore
  import opened SqlStore
  import opened StoreRefinement
  import opened AppendProtocol
  import opened AppendInvariants
  import opened AppendTheorems

  // The key is stored: the event again, if it is of the same command.
  function KnownOutcome(e: Event, c: Candidate): Outcome {
    if e.body.digest == c.digest then Succeeded(e, true) else Failed(IdempotencyConflict)
  }

  // The outcome of a command for a stream, and the tables afterwards: the stored event of the key if its command is
  // the same, the error with which the stream followed by the event fails to replay, the duplicate evidence, or the
  // event itself, under the next number of the tables.
  ghost predicate ExecutedOn(db: Database, after: Database, c: Candidate, outcome: Outcome) {
    var stream, added := StreamOf(db, c.scope), Event(db.nextSequence, c);
    var replay := ReplayFrom(EMPTY_REPLAY, stream + [added], c.scope);
    if KeyTaken(stream, c.key) then
      && after == db
      && exists e :: e in stream && e.body.key == c.key && outcome == KnownOutcome(e, c)
    else if replay.Err? then after == db && outcome == Failed(replay.error)
    else if AttemptTaken(stream, c) then after == db && outcome == Failed(DuplicateAttemptId)
    else if CorrectionTaken(stream, c) then after == db && outcome == Failed(DuplicateCorrectionId)
    else
      && outcome == Succeeded(added, false)
      && (forall s :: StreamOf(after, s) == if s == c.scope then stream + [added] else StreamOf(db, s))
  }

  lemma EvidenceTaken(db: Database, c: Candidate)
    ensures DuplicateEvidence(db, c) ==
      if AttemptTaken(StreamOf(db, c.scope), c) then Some(DuplicateAttemptId)
      else if CorrectionTaken(StreamOf(db, c.scope), c) then Some(DuplicateCorrectionId)
      else None
  {
    var stream := StreamOf(db, c.scope);
    if row :| row in db.rows && row.event.body.scope == c.scope && SameEvidence(row.event.body, c) {
      RowOfEvent(db, c.scope, row.event);
      assert row.event in stream;
    }
    if e :| e in stream && SameEvidence(e.body, c) {
      RowOfEvent(db, c.scope, e);
      var row :| row in db.rows && row.event == e;
    }
  }

  lemma ReportEnds(db: Database, call: Call, now: nat, supply: Token, n: nat)
    requires Sound(db) && EngineRows(db) && call.pc.Reporting? && n > 0 && Replays(StreamOf(db, call.c.scope), call.c.scope)
    ensures var (after, end) := Alone(db, call, now, supply, n);
      after == db && end.pc == Done(Succeeded(call.pc.event, call.pc.replayed))
  {
    SoundListing(db, call.c.scope);
    StreamAscends(db.rows, call.c.scope);
    AscendingLogsAreSorted(StreamOf(db, call.c.scope));
    AloneUnfolds(db, call, now, supply, n);
    DoneStays(db, ReportStep(db, call), now, supply + 1, n - 1);
  }

  // The guard judges the stream followed by the event under the number the tables will give it.
  lemma GuardIsTheReplay(db: Database, c: Candidate)
    requires Sound(db)
    ensures var replay := ReplayFrom(EMPTY_REPLAY, StreamOf(db, c.scope) + [Event(db.nextSequence, c)], c.scope);
      var guard := Guard(StreamOf(db, c.scope), c);
      && (guard.Err? <==> replay.Err?) && (guard.Err? ==> guard.error == replay.error)
  {
    var stream := StreamOf(db, c.scope);
    StreamAscends(db.rows, c.scope);
    MaxIsLast(stream);
    var provisional, final := stream + [Event(MaxSequence(stream) + 1, c)], stream + [Event(db.nextSequence, c)];
    assert Increasing(provisional);
    StreamBelowNext(db, c.scope);
    assert Increasing(final);
    AscendingLogsAreSorted(provisional);
    assert Bodies(provisional) == Bodies(stream) + [c] == Bodies(final);
    RenumberingFrom(EMPTY_REPLAY, EMPTY_REPLAY, provisional, final, c.scope);
  }

  lemma StreamBelowNext(db: Database, scope: Scope)
    requires Sound(db)
    ensures 1 <= db.nextSequence && forall e :: e in StreamOf(db, scope) ==> 1 <= e.sequence < db.nextSequence
  {
    forall e | e in StreamOf(db, scope) ensures 1 <= e.sequence < db.nextSequence { RowOfEvent(db, scope, e); }
  }

  // ---------------------------------------------------------------------------------- alone, step by step

  lemma OneStepAlone(db: Database, call: Call, now: nat, supply: Token, n: nat, after: Database, next: Call)
    requires Tokened(call) && n > 0 && CallStep(db, call, now, supply) == (after, next) && Tokened(next)
    ensures Alone(db, call, now, supply, n) == Alone(after, next, now, supply + 1, n - 1)
  {
    AloneUnfolds(db, call, now, supply, n);
  }

  // The key is found stored.
  lemma KnownEnds(db: Database, call: Call, now: nat, supply: Token, n: nat)
    requires Sound(db) && EngineRows(db) && call.pc.Finding? && n > 1 && Replays(StreamOf(db, call.c.scope), call.c.scope)
    requires KeyTaken(StreamOf(db, call.c.scope), call.c.key)
    ensures var (after, end) := Alone(db, call, now, supply, n);
      after == db && exists e :: e in StreamOf(db, call.c.scope) && e.body.key == call.c.key && end.pc == Done(KnownOutcome(e, call.c))
  {
    KeyLookup(db, call.c.scope, call.c.key);
    var row := FindRow(db.rows, call.c.scope, call.c.key).value;
    var found := FindStep(db, call, supply);
    OneStepAlone(db, call, now, supply, n, db, found);
    if row.event.body.digest == call.c.digest {
      ReportEnds(db, found, now, supply + 1, n - 1);
    } else {
      DoneStays(db, found, now, supply + 1, n - 1);
    }
    assert KnownOutcome(row.event, call.c) == if row.event.body.digest == call.c.digest then Succeeded(row.event, true) else Failed(IdempotencyConflict);
  }

  lemma ClashStopsTheBatch(db: Database, c: Candidate, expectedRevision: int, token: Token)
    requires Sound(db) && |StreamOf(db, c.scope)| == expectedRevision
    requires exists r :: r in db.rows && Clash(r, EventRow(Event(db.nextSequence, c), token))
    ensures AppendBatch(db, c, expectedRevision, token) == None
  {
  }

  lemma StoppedBatch(db: Database, call: Call, code: ErrorCode)
    requires Sound(db) && EngineRows(db) && call.pc == Batching(true) && call.token.Some? && FreshToken(db, call.token.value) && EngineBuilt(call.c)
    requires |StreamOf(db, call.c.scope)| == |call.listed| && !KeyTaken(StreamOf(db, call.c.scope), call.c.key)
    requires DuplicateEvidence(db, call.c) == Some(code)
    ensures BatchStep(db, call) == (db, call.(pc := ReadingBack(true, true)))
    ensures ReadBackStep(db, call.(pc := ReadingBack(true, true))) == call.(pc := Explaining(true, true))
    ensures ExplainStep(db, call.(pc := Explaining(true, true))) == call.(pc := Done(Failed(code)))
  {
    KeyLookup(db, call.c.scope, call.c.key);
    OnlyEvidenceClashes(db, call.c, call.token.value);
    ClashStopsTheBatch(db, call.c, |call.listed|, call.token.value);
  }

  // The batch is stopped by the evidence of another event.
  lemma StoppedEnds(db: Database, call: Call, now: nat, supply: Token, code: ErrorCode)
    requires Sound(db) && EngineRows(db) && call.pc == Batching(true) && call.token.Some? && FreshToken(db, call.token.value) && EngineBuilt(call.c)
    requires |StreamOf(db, call.c.scope)| == |call.listed| && !KeyTaken(StreamOf(db, call.c.scope), call.c.key)
    requires DuplicateEvidence(db, call.c) == Some(code)
    ensures Alone(db, call, now, supply, 4) == (db, call.(pc := Done(Failed(code))))
  {
    StoppedBatch(db, call, code);
    OneStepAlone(db, call, now, supply, 4, db, call.(pc := ReadingBack(true, true)));
    OneStepAlone(db, call.(pc := ReadingBack(true, true)), now, supply + 1, 3, db, call.(pc := Explaining(true, true)));
    OneStepAlone(db, call.(pc := Explaining(true, true)), now, supply + 2, 2, db, call.(pc := Done(Failed(code))));
    DoneStays(db, call.(pc := Done(Failed(code))), now, supply + 3, 1);
  }

  // The batch commits, and the call reads its own event back.
  lemma CommittedBatch(db: Database, call: Call) returns (after: Database, batched: Call)
    requires Sound(db) && EngineRows(db) && call.pc == Batching(true) && call.token.Some? && FreshToken(db, call.token.value) && EngineBuilt(call.c)
    requires |StreamOf(db, call.c.scope)| == |call.listed| && !KeyTaken(StreamOf(db, call.c.scope), call.c.key)
    requires DuplicateEvidence(db, call.c).None?
    ensures BatchStep(db, call) == (after, batched) && Sound(after) && EngineRows(after)
    ensures batched == call.(pc := ReadingBack(true, false))
    ensures ReadBackStep(after, batched).pc == Reporting(Event(db.nextSequence, call.c), false)
    ensures forall s :: StreamOf(after, s) == if s == call.c.scope then StreamOf(db, s) + [Event(db.nextSequence, call.c)] else StreamOf(db, s)
  {
    KeyLookup(db, call.c.scope, call.c.key);
    OnlyEvidenceClashes(db, call.c, call.token.value);
    AppendBatchEffect(db, call.c, |call.listed|, call.token.value);
    after, batched := BatchStep(db, call).0, BatchStep(db, call).1;
    EngineRowsAfter(db, after, call.c, call.token.value);
    CommittedRowIsFound(db, after, call.c, call.token.value);
    KeyLookup(after, call.c.scope, call.c.key);
  }

  lemma CommittedEnds(db: Database, call: Call, now: nat, supply: Token)
    requires Sound(db) && EngineRows(db) && call.pc == Batching(true) && call.token.Some? && FreshToken(db, call.token.value) && EngineBuilt(call.c)
    requires |StreamOf(db, call.c.scope)| == |call.listed| && !KeyTaken(StreamOf(db, call.c.scope), call.c.key)
    requires DuplicateEvidence(db, call.c).None?
    requires Replays(StreamOf(db, call.c.scope) + [Event(db.nextSequence, call.c)], call.c.scope)
    ensures var (after, end) := Alone(db, call, now, supply, 4); var added := Event(db.nextSequence, call.c);
      && end.pc == Done(Succeeded(added, false))
      && forall s :: StreamOf(after, s) == if s == call.c.scope then StreamOf(db, s) + [added] else StreamOf(db, s)
  {
    var after, batched := CommittedBatch(db, call);
    OneStepAlone(db, call, now, supply, 4, after, batched);
    var read := ReadBackStep(after, batched);
    OneStepAlone(after, batched, now, supply + 1, 3, after, read);
    ReportEnds(after, read, now, supply + 2, 2);
  }

  lemma EngineRowsAfter(db: Database, after: Database, c: Candidate, token: Token)
    requires EngineRows(db) && EngineBuilt(c) && Inserted(db, after, c, token)
    ensures EngineRows(after)
  {
  }

  // A call that runs alone ends within six steps with the outcome of its command for its stream.
  lemma ExecuteAloneExactly(db: Database, call: Call, now: nat, supply: Token)
    requires Sound(db) && EngineRows(db) && TokensBelow(db, supply) && EngineBuilt(call.c) && call.pc.Listing?
    requires Replays(StreamOf(db, call.c.scope), call.c.scope)
    ensures var (after, end) := Alone(db, call, now, supply, 6);
      end.pc.Done? && ExecutedOn(db, after, call.c, end.pc.outcome)
  {
    var stream := StreamOf(db, call.c.scope);
    var listed := ListStep(db, call, now);
    SoundListing(db, call.c.scope);
    FindByKeyMeaning(stream, call.c.key);
    GuardIsTheReplay(db, call.c);
    OneStepAlone(db, call, now, supply, 6, db, listed);
    if KeyTaken(stream, call.c.key) {
      KnownEnds(db, listed, now, supply + 1, 5);
    } else if listed.pc.Done? {
      DoneStays(db, listed, now, supply + 1, 5);
    } else {
      GuardedEnds(db, listed, now, supply + 1);
    }
  }

  lemma GuardedEnds(db: Database, call: Call, now: nat, supply: Token)
    requires Sound(db) && EngineRows(db) && TokensBelow(db, supply) && EngineBuilt(call.c) && call.pc == Finding(true)
    requires call.listed == StreamOf(db, call.c.scope) && !KeyTaken(StreamOf(db, call.c.scope), call.c.key)
    requires Replays(StreamOf(db, call.c.scope) + [Event(db.nextSequence, call.c)], call.c.scope)
    ensures var (after, end) := Alone(db, call, now, supply, 5);
      end.pc.Done? && ExecutedOn(db, after, call.c, end.pc.outcome)
  {
    KeyLookup(db, call.c.scope, call.c.key);
    EvidenceTaken(db, call.c);
    var batching := FindStep(db, call, supply);
    assert batching.pc == Batching(true) && batching.token == Some(supply) && batching.c == call.c && batching.listed == call.listed;
    OneStepAlone(db, call, now, supply, 5, db, batching);
    if DuplicateEvidence(db, call.c).Some? {
      StoppedEnds(db, batching, now, supply + 1, DuplicateEvidence(db, call.c).value);
    } else {
      CommittedEnds(db, batching, now, supply + 1);
    }
  }

  // ------------------------------------------------------------------------------- losing a race

  // A guarded call that finds another revision than the one it listed, no event of its key afterwards and its evidence
  // free, lists its stream again, or gives up with a conflict after the fifth attempt. Other calls may step in between.
  lemma LosersListAgain(db: Database, later: Database, last: Database, call: Call, now: nat, supply: Token)
    requires call.pc == Batching(true) && call.token.Some? && Sound(db) && FreshToken(db, call.token.value)
    requires |StreamOf(db, call.c.scope)| != |call.listed|
    requires Sound(later) && EngineRows(later) && !KeyTaken(StreamOf(later, call.c.scope), call.c.key)
    requires !AttemptTaken(StreamOf(last, call.c.scope), call.c) && !CorrectionTaken(StreamOf(last, call.c.scope), call.c)
    ensures var batched := CallStep(db, call, now, supply).1;
      batched.pc == ReadingBack(true, false) && Tokened(batched)
      && var read := CallStep(later, batched, now, supply).1;
         read.pc == Explaining(true, false)
         && CallStep(last, read, now, supply).1 ==
              read.(attempt := call.attempt + 1, pc := if call.attempt < 4 then Listing else Done(Failed(ConcurrencyConflict)))
  {
    AppendBatchEffect(db, call.c, |call.listed|, call.token.value);
    KeyLookup(later, call.c.scope, call.c.key);
    EvidenceTaken(last, call.c);
  }

  // And a call lists again only then.
  lemma OnlyLosersListAgain(db: Database, call: Call, now: nat, supply: Token)
    requires Tokened(call) && !call.pc.Listing? && CallStep(db, call, now, supply).1.pc.Listing?
    ensures call.pc == Explaining(true, false) && call.attempt < 4 && CallStep(db, call, now, supply).1.attempt == call.attempt + 1
    ensures !AttemptTaken(StreamOf(db, call.c.scope), call.c) && !CorrectionTaken(StreamOf(db, call.c.scope), call.c)
  {
    EvidenceTaken(db, call.c);
  }

  lemma ListingFails(db: Database, call: Call, now: nat, code: ErrorCode)
    requires Sound(db) && EngineRows(db) && call.pc.Listing? && ListStep(db, call, now).pc == Done(Failed(code))
    ensures var stream := StreamOf(db, call.c.scope);
      !KeyTaken(stream, call.c.key) && ReplayFrom(EMPTY_REPLAY, stream + [Event(db.nextSequence, call.c)], call.c.scope) == Err(code)
  {
    SoundListing(db, call.c.scope);
    FindByKeyMeaning(StreamOf(db, call.c.scope), call.c.key);
    GuardIsTheReplay(db, call.c);
  }

  lemma ReportingFails(db: Database, call: Call, code: ErrorCode)
    requires Sound(db) && EngineRows(db) && call.pc.Reporting? && ReportStep(db, call).pc == Done(Failed(code))
    ensures ReplayFrom(EMPTY_REPLAY, StreamOf(db, call.c.scope), call.c.scope) == Err(code)
  {
    SoundListing(db, call.c.scope);
    StreamAscends(db.rows, call.c.scope);
    AscendingLogsAreSorted(StreamOf(db, call.c.scope));
  }

  // Why a step ends a call with an error, in terms of the stream it finds.
  lemma FailuresHaveTheirReasons(db: Database, call: Call, now: nat, supply: Token, code: ErrorCode)
    requires Sound(db) && EngineRows(db) && Tokened(call) && !call.pc.Done? && CallStep(db, call, now, supply).1.pc == Done(Failed(code))
    ensures var stream := StreamOf(db, call.c.scope); var added := Event(db.nextSequence, call.c);
      match call.pc
      case Listing => !KeyTaken(stream, call.c.key) && ReplayFrom(EMPTY_REPLAY, stream + [added], call.c.scope) == Err(code)
      case Finding(_) => code == IdempotencyConflict && BoundToAnother(stream, call.c)
      case ReadingBack(_, _) => code == IdempotencyConflict && BoundToAnother(stream, call.c)
      case Explaining(guarded, threw) =>
        || (code == DuplicateAttemptId && AttemptTaken(stream, call.c))
        || (code == DuplicateCorrectionId && CorrectionTaken(stream, call.c))
        || (code == StorageFailure && threw)
        || (code == ConcurrencyConflict && !threw && (guarded ==> call.attempt >= 4))
      case Reporting(_, _) => ReplayFrom(EMPTY_REPLAY, stream, call.c.scope) == Err(code)
      case _ => false
  {
    match call.pc
    case Listing => ListingFails(db, call, now, code);
    case Finding(_) => KeyLookup(db, call.c.scope, call.c.key);
    case ReadingBack(_, _) => KeyLookup(db, call.c.scope, call.c.key);
    case Explaining(_, _) => EvidenceTaken(db, call.c);
    case Reporting(_, _) => ReportingFails(db, call, code);
    case _ =>
  }

  predicate BoundToAnother(stream: seq<Event>, c: Candidate) {
    exists e :: e in stream && e.body.key == c.key && e.body.digest != c.digest
  }
}
