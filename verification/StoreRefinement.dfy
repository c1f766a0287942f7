/** The SQL store refines the in-memory log: the same successes, the same resulting logs up to sequence
    numbers, and the exact condition under which the reported errors differ. */
module StoreRefinement {
  import opened Wrappers
  import opened LearningEvents
  import opened EventTables
  import opened SqlStore
  import opened MemoryStore

  // The log a learner's rows stand for.
  ghost predicate Represents(db: Database, scope: Scope, log: seq<Event>) {
    Increasing(log) && Bodies(log) == Bodies(StreamOf(db, scope))
  }

  predicate SameUpToSequence(r: Result<AppendResult, ErrorCode>, s: Result<AppendResult, ErrorCode>) {
    match (r, s)
    case (Ok(x), Ok(y)) => x.event.body == y.event.body && x.replayed == y.replayed
    case (Err(_), Err(_)) => true
    case _ => false
  }

  lemma RowOfEvent(db: Database, scope: Scope, e: Event)
    ensures e in StreamOf(db, scope)
       <==> exists row :: row in db.rows && row.event == e && e.body.scope == scope
  {
    StreamElements(db.rows, scope);
    if e in StreamOf(db, scope) {
      var i :| 0 <= i < |db.rows| && db.rows[i].event == e;
      assert db.rows[i] in db.rows;
    }
    if row :| row in db.rows && row.event == e && e.body.scope == scope {
      var i :| 0 <= i < |db.rows| && db.rows[i] == row;
    }
  }

  lemma BodiesMatch(log: seq<Event>, stream: seq<Event>, b: Candidate)
    requires Bodies(log) == Bodies(stream)
    ensures (exists e :: e in log && e.body == b) <==> (exists e :: e in stream && e.body == b)
  {
    if e :| e in log && e.body == b {
      var i :| 0 <= i < |log| && log[i] == e;
      assert Bodies(stream)[i] == b;
      assert stream[i] in stream && stream[i].body == b;
    }
    if e :| e in stream && e.body == b {
      var i :| 0 <= i < |stream| && stream[i] == e;
      assert Bodies(log)[i] == b;
      assert log[i] in log && log[i].body == b;
    }
  }

  // The key lookups of the two stores find the same event, or both find none.
  lemma SameLookup(db: Database, log: seq<Event>, scope: Scope, key: Id)
    requires Sound(db) && Represents(db, scope, log)
    ensures FindByKey(log, key).Some? <==> FindRow(db.rows, scope, key).Some?
    ensures FindByKey(log, key).Some? ==> FindByKey(log, key).value.body == FindRow(db.rows, scope, key).value.event.body
  {
    FindByKeyMeaning(log, key);
    FindRowMeaning(db.rows, scope, key);
    var stream := StreamOf(db, scope);
    if FindByKey(log, key).Some? {
      BodiesMatch(log, stream, FindByKey(log, key).value.body);
      var e :| e in stream && e.body == FindByKey(log, key).value.body;
      RowOfEvent(db, scope, e);
      var row :| row in db.rows && row.event == e;
      FindRowIsUnique(db, row);
    }
    if FindRow(db.rows, scope, key).Some? {
      var row := FindRow(db.rows, scope, key).value;
      RowOfEvent(db, scope, row.event);
      BodiesMatch(log, stream, row.event.body);
    }
  }

  lemma SameDuplicates(db: Database, log: seq<Event>, c: Candidate)
    requires Represents(db, c.scope, log)
    ensures HasEvidence(log, c) <==> DuplicateEvidence(db, c).Some?
    ensures DuplicateEvidence(db, c).Some? ==> DuplicateEvidence(db, c).value == DuplicateCode(c)
  {
    var stream := StreamOf(db, c.scope);
    if e :| e in log && SameEvidence(e.body, c) {
      BodiesMatch(log, stream, e.body);
      var f :| f in stream && f.body == e.body;
      RowOfEvent(db, c.scope, f);
    }
    if row :| row in db.rows && row.event.body.scope == c.scope && SameEvidence(row.event.body, c) {
      RowOfEvent(db, c.scope, row.event);
      BodiesMatch(log, stream, row.event.body);
      var e :| e in log && e.body == row.event.body;
      assert SameEvidence(e.body, c);
    }
  }

  // For rows built by the engine, a unique index can only be violated by the evidence identifier,
  // once the key is known to be unused.
  lemma OnlyEvidenceClashes(db: Database, c: Candidate, token: Token)
    requires EngineRows(db) && EngineBuilt(c) && FreshToken(db, token)
    requires FindRow(db.rows, c.scope, c.key).None?
    ensures (exists r :: r in db.rows && Clash(r, EventRow(Event(db.nextSequence, c), token)))
       <==> DuplicateEvidence(db, c).Some?
  {
    FindRowMeaning(db.rows, c.scope, c.key);
    var row := EventRow(Event(db.nextSequence, c), token);
    if r :| r in db.rows && Clash(r, row) {
      assert EngineBuilt(r.event.body);
      assert SameEvidence(r.event.body, c);
    }
    if r :| r in db.rows && r.event.body.scope == c.scope && SameEvidence(r.event.body, c) {
      assert Clash(r, row);
    }
  }

  lemma CommittedRowIsFound(db: Database, after: Database, c: Candidate, token: Token)
    requires Sound(after) && Inserted(db, after, c, token)
    ensures FindRow(after.rows, c.scope, c.key) == Some(EventRow(Event(db.nextSequence, c), token))
  {
    var row := EventRow(Event(db.nextSequence, c), token);
    assert row in after.rows;
    FindRowIsUnique(after, row);
  }

  predicate Stale(log: seq<Event>, expectedRevision: int) {
    |log| != expectedRevision
  }

  lemma LogLength(db: Database, scope: Scope, log: seq<Event>)
    requires Represents(db, scope, log)
    ensures |log| == |StreamOf(db, scope)|
  {
    assert |Bodies(log)| == |Bodies(StreamOf(db, scope))|;
  }

  lemma RepresentsGrows(db: Database, after: Database, log: seq<Event>, c: Candidate)
    requires Represents(db, c.scope, log)
    requires StreamOf(after, c.scope) == StreamOf(db, c.scope) + [Event(db.nextSequence, c)]
    ensures Represents(after, c.scope, log + [Event(MaxSequence(log) + 1, c)])
  {
    MaxIsLast(log);
    assert Bodies(log + [Event(MaxSequence(log) + 1, c)]) == Bodies(log) + [c];
    assert Bodies(StreamOf(after, c.scope)) == Bodies(StreamOf(db, c.scope)) + [c];
  }

  // The key is unused: what the batch does, and what it is read back as.
  lemma FreshAppendRefines(db: Database, log: seq<Event>, c: Candidate, expectedRevision: int, token: Token)
    requires Sound(db) && EngineRows(db) && EngineBuilt(c) && FreshToken(db, token)
    requires Represents(db, c.scope, log) && FindByKey(log, c.key).None?
    ensures var (after, r) := AppendCall(db, c, expectedRevision, token);
            && Sound(after) && EngineRows(after)
            && (forall other :: other != c.scope ==> StreamOf(after, other) == StreamOf(db, other))
            && (if HasEvidence(log, c) then r == Err(DuplicateCode(c)) && after.rows == db.rows
                else if Stale(log, expectedRevision) then r == Err(ConcurrencyConflict) && after.rows == db.rows
                else r == Ok(AppendResult(Event(db.nextSequence, c), false))
                     && StreamOf(after, c.scope) == StreamOf(db, c.scope) + [Event(db.nextSequence, c)]
                     && after.nextSequence == db.nextSequence + 1)
  {
    SameLookup(db, log, c.scope, c.key);
    SameDuplicates(db, log, c);
    FindRowMeaning(db.rows, c.scope, c.key);
    LogLength(db, c.scope, log);
    OnlyEvidenceClashes(db, c, token);
    AppendBatchEffect(db, c, expectedRevision, token);
    var batch := AppendBatch(db, c, expectedRevision, token);
    if batch.Some? && !Stale(log, expectedRevision) {
      CommittedRowIsFound(db, batch.value, c, token);
    }
  }

  // The SQL call and the in-memory call agree: the tables stand for the log before and after, the
  // results are equal up to sequence numbers, and error codes differ only where two errors apply.
  ghost predicate CallsAgree(db: Database, log: seq<Event>, c: Candidate, expectedRevision: int, token: Token) {
    var (after, r) := AppendCall(db, c, expectedRevision, token);
    var (log', s) := MemoryAppend(log, c, expectedRevision);
    Agree(db, after, r, c, log', s, FindByKey(log, c.key).None? && Stale(log, expectedRevision) && HasEvidence(log, c))
  }

  ghost predicate Agree(
    db: Database, after: Database, r: Result<AppendResult, ErrorCode>, c: Candidate, log': seq<Event>,
    s: Result<AppendResult, ErrorCode>, twoErrors: bool)
  {
    && Sound(after) && EngineRows(after)
    && Represents(after, c.scope, log')
    && (forall other :: other != c.scope ==> StreamOf(after, other) == StreamOf(db, other))
    && SameUpToSequence(r, s)
    && (r.Err? ==> (r.error == s.error <==> !twoErrors))
  }

  lemma NewKeyAgrees(db: Database, log: seq<Event>, c: Candidate, expectedRevision: int, token: Token)
    requires Sound(db) && EngineRows(db) && EngineBuilt(c) && FreshToken(db, token)
    requires Represents(db, c.scope, log) && FindByKey(log, c.key).None?
    ensures CallsAgree(db, log, c, expectedRevision, token)
  {
    FreshAppendRefines(db, log, c, expectedRevision, token);
    var (after, r) := AppendCall(db, c, expectedRevision, token);
    var (log', s) := MemoryAppend(log, c, expectedRevision);
    MaxIsLast(log);
    if HasEvidence(log, c) || Stale(log, expectedRevision) {
      RefusalsAgree(db, after, log, c);
    } else {
      RepresentsGrows(db, after, log, c);
    }
  }

  lemma RefusalsAgree(db: Database, after: Database, log: seq<Event>, c: Candidate)
    requires Represents(db, c.scope, log) && after.rows == db.rows
    ensures Represents(after, c.scope, log)
  {
  }

  lemma KnownKeyAgrees(db: Database, log: seq<Event>, c: Candidate, expectedRevision: int, token: Token)
    requires Sound(db) && EngineRows(db) && EngineBuilt(c) && FreshToken(db, token)
    requires Represents(db, c.scope, log) && FindByKey(log, c.key).Some?
    ensures CallsAgree(db, log, c, expectedRevision, token)
  {
    SameLookup(db, log, c.scope, c.key);
    FindRowMeaning(db.rows, c.scope, c.key);
  }

  // One SQL append against one in-memory append of the same candidate.
  lemma AppendRefines(db: Database, log: seq<Event>, c: Candidate, expectedRevision: int, token: Token)
    requires Sound(db) && EngineRows(db) && EngineBuilt(c) && FreshToken(db, token)
    requires Represents(db, c.scope, log)
    ensures CallsAgree(db, log, c, expectedRevision, token)
  {
    if FindByKey(log, c.key).None? {
      NewKeyAgrees(db, log, c, expectedRevision, token);
    } else {
      KnownKeyAgrees(db, log, c, expectedRevision, token);
    }
  }

  // An invalid candidate separates the stores: the log refuses it, the SQL store keeps its row and every
  // later read of the stream fails.
  lemma InvalidCandidateIsKeptBySql(db: Database, log: seq<Event>, c: Candidate, token: Token)
    requires Sound(db) && EngineRows(db) && FreshToken(db, token) && Represents(db, c.scope, log)
    requires !ValidBody(c) && c.id == EventId(c.scope, c.key)
    requires FindByKey(log, c.key).None? && !HasEvidence(log, c)
    ensures var (after, r) := AppendCall(db, c, |log|, token);
            && r == Err(InvalidEvent) && |StreamOf(after, c.scope)| == |log| + 1
            && List(after, c.scope) == Err(InvalidEvent)
    ensures MemoryAppend(log, c, |log|) == (log, Err(InvalidEvent))
  {
    SameLookup(db, log, c.scope, c.key);
    SameDuplicates(db, log, c);
    FindRowMeaning(db.rows, c.scope, c.key);
    assert |log| == |StreamOf(db, c.scope)| by { assert |Bodies(log)| == |Bodies(StreamOf(db, c.scope))|; }
    var row := EventRow(Event(db.nextSequence, c), token);
    assert forall r :: r in db.rows ==> EngineBuilt(r.event.body) && !Clash(r, row);
    AppendBatchEffect(db, c, |log|, token);
    var after := AppendBatch(db, c, |log|, token).value;
    CommittedRowIsFound(db, after, c, token);
    var stream := StreamOf(after, c.scope);
    assert stream[|stream| - 1] == row.event;
    assert row.event in stream;
  }
}
