/** Restoring a verified export into an empty stream (src/learning-record-recovery.ts:84-138, 585-639). */
module RecordRecovery {
  import opened Wrappers
  import opened LearningEvents
  import opened Projection
  import opened ProjectionTheory
  import opened EventTables
  import opened RecordReceipts
  import opened MemoryStore
  import opened SqlStore
  import opened StoreRefinement
  import opened AppendProtocol
  import opened AppendInvariants
  import opened AppendTheorems

  // What is known of any stream the engine wrote: enough for its export to be restored.
  ghost predicate Restorable(scope: Scope, events: seq<Event>) {
    InScope(scope, events) && KeysUnique(events) && forall e :: e in events ==> EngineBuilt(e.body)
  }

  lemma AppendCallFrame(db: Database, c: Candidate, expectedRevision: int, token: Token)
    requires Sound(db) && FreshToken(db, token)
    ensures var after := AppendCall(db, c, expectedRevision, token).0;
            Sound(after) && forall s :: s != c.scope ==> StreamOf(after, s) == StreamOf(db, s)
  {
    AppendBatchEffect(db, c, expectedRevision, token);
  }

  // The events under consecutive numbers from the given one on.
  function Renumbered(events: seq<Event>, first: int): (r: seq<Event>)
    ensures |r| == |events| && forall i :: 0 <= i < |r| ==> r[i] == Event(first + i, events[i].body)
  {
    seq(|events|, i requires 0 <= i < |events| => Event(first + i, events[i].body))
  }

  lemma RenumberedBodies(events: seq<Event>, first: int)
    ensures Bodies(Renumbered(events, first)) == Bodies(events)
    ensures 1 <= first ==> Increasing(Renumbered(events, first))
  {
  }

  // Two events that cannot both be stored.
  predicate Exclude(a: Candidate, b: Candidate) {
    a.id == b.id || (a.scope == b.scope && (a.key == b.key || SameEvidence(a, b)))
  }

  // What the tables need for events to be restored into them: valid events of which no two exclude each other, and
  // none excludes a stored one.
  ghost predicate FitsInto(db: Database, events: seq<Event>) {
    && (forall i :: 0 <= i < |events| ==> ValidBody(events[i].body))
    && (forall i, j :: 0 <= i < j < |events| ==> !Exclude(events[i].body, events[j].body))
    && (forall i, row :: 0 <= i < |events| && row in db.rows ==> !Exclude(row.event.body, events[i].body))
  }

  // Events of the engine fit into tables of the engine whose stream is empty.
  lemma RestorableFitsInto(db: Database, scope: Scope, events: seq<Event>)
    requires Restorable(scope, events) && EngineRows(db) && StreamOf(db, scope) == []
    ensures FitsInto(db, events)
  {
    forall i | 0 <= i < |events| ensures EngineBuilt(events[i].body) && events[i].body.scope == scope {
      assert events[i] in events;
    }
    forall row | row in db.rows ensures row.event.body.scope != scope {
      RowOfEvent(db, scope, row.event);
      assert row.event !in StreamOf(db, scope);
    }
  }

  // An event with an unused key is appended as new exactly if it is valid and no stored event excludes it.
  predicate Appendable(db: Database, c: Candidate) {
    ValidBody(c) && forall row :: row in db.rows ==> !Exclude(row.event.body, c)
  }

  lemma AppendedAsNewExactly(db: Database, c: Candidate, token: Token)
    requires Sound(db) && FreshToken(db, token)
    ensures var (after, r) := AppendCall(db, c, |StreamOf(db, c.scope)|, token);
      && (r.Ok? && !r.value.replayed <==> Appendable(db, c))
      && (Appendable(db, c) ==>
            && r == Ok(AppendResult(Event(db.nextSequence, c), false)) && Sound(after) && after.nextSequence == db.nextSequence + 1
            && Inserted(db, after, c, token) && StreamOf(after, c.scope) == StreamOf(db, c.scope) + [Event(db.nextSequence, c)])
  {
    var row := EventRow(Event(db.nextSequence, c), token);
    FindRowMeaning(db.rows, c.scope, c.key);
    AppendBatchEffect(db, c, |StreamOf(db, c.scope)|, token);
    if FindRow(db.rows, c.scope, c.key).Some? {
      var stored := FindRow(db.rows, c.scope, c.key).value;
      assert stored in db.rows && Exclude(stored.event.body, c);
    } else if AppendBatch(db, c, |StreamOf(db, c.scope)|, token).Some? {
      var after := AppendBatch(db, c, |StreamOf(db, c.scope)|, token).value;
      CommittedRowIsFound(db, after, c, token);
      assert forall r :: r in db.rows ==> !Clash(r, row) by { NoClash(db, after, c, token); }
    } else {
      var r :| r in db.rows && Clash(r, row);
      assert Exclude(r.event.body, c);
    }
  }

  lemma NoClash(db: Database, after: Database, c: Candidate, token: Token)
    requires Sound(after) && Inserted(db, after, c, token)
    ensures forall r :: r in db.rows ==> !Clash(r, EventRow(Event(db.nextSequence, c), token))
  {
    var n := |db.rows|;
    forall r | r in db.rows ensures !Clash(r, EventRow(Event(db.nextSequence, c), token)) {
      var i :| 0 <= i < n && db.rows[i] == r;
      assert after.rows[i] == r && after.rows[n] == EventRow(Event(db.nextSequence, c), token);
    }
  }

  method AssertRestoredEventSemantics(expected: seq<Event>, actual: seq<Event>) returns (ok: bool)
    ensures ok <==> Bodies(expected) == Bodies(actual)
  {
    if |actual| != |expected| {
      assert |Bodies(actual)| != |Bodies(expected)|;
      return false;
    }
    var i := 0;
    while i < |expected|
      invariant 0 <= i <= |expected|
      invariant forall j :: 0 <= j < i ==> expected[j].body == actual[j].body
    {
      if actual[i].body != expected[i].body {
        assert Bodies(actual)[i] != Bodies(expected)[i];
        return false;
      }
      i := i + 1;
    }
    assert Bodies(expected) == Bodies(actual);
    return true;
  }

  // The first i events are stored after the rows there were, numbered from the target's next number on.
  ghost predicate RestoredSoFar(before: Database, db: Database, scope: Scope, events: seq<Event>, i: nat)
    requires i <= |events|
  {
    && db.nextSequence == before.nextSequence + i && |db.rows| == |before.rows| + i && before.rows <= db.rows
    && (forall k :: 0 <= k < i ==> db.rows[|before.rows| + k].event == Event(before.nextSequence + k, events[k].body))
    && StreamOf(db, scope) == Renumbered(events[..i], before.nextSequence)
  }

  lemma FitsOneMore(before: Database, db: Database, scope: Scope, events: seq<Event>, i: nat)
    requires i < |events| && RestoredSoFar(before, db, scope, events, i) && FitsInto(before, events[..i])
    ensures FitsInto(before, events[..i + 1]) <==> Appendable(db, events[i].body)
  {
    var c, n := events[i].body, |before.rows|;
    var now := events[..i + 1];
    assert forall k :: 0 <= k <= i ==> now[k] == events[k];
    assert forall k :: 0 <= k < i ==> events[..i][k] == events[k];
    if FitsInto(before, now) {
      forall row | row in db.rows ensures !Exclude(row.event.body, c) {
        var k :| 0 <= k < |db.rows| && db.rows[k] == row;
        if k < n { assert before.rows[k] == row; } else { assert row.event.body == now[k - n].body; }
      }
    }
    if Appendable(db, c) {
      forall k | 0 <= k < i ensures !Exclude(events[k].body, c) {
        assert db.rows[n + k] in db.rows && db.rows[n + k].event.body == events[k].body;
      }
      forall row | row in before.rows ensures !Exclude(row.event.body, c) {
        var k :| 0 <= k < n && before.rows[k] == row;
        assert db.rows[k] == row;
      }
    }
  }

  lemma OneMoreRestored(before: Database, db: Database, after: Database, scope: Scope, events: seq<Event>, i: nat, token: Token)
    requires i < |events| && RestoredSoFar(before, db, scope, events, i)
    requires Inserted(db, after, events[i].body, token) && after.nextSequence == db.nextSequence + 1
    requires StreamOf(after, scope) == StreamOf(db, scope) + [Event(db.nextSequence, events[i].body)]
    ensures RestoredSoFar(before, after, scope, events, i + 1)
  {
    assert Renumbered(events[..i + 1], before.nextSequence)
        == Renumbered(events[..i], before.nextSequence) + [Event(before.nextSequence + i, events[i].body)];
  }

  lemma PrefixFits(db: Database, events: seq<Event>, i: nat)
    requires i <= |events| && FitsInto(db, events)
    ensures FitsInto(db, events[..i])
  {
  }

  // The append loop: it stops at the first result that does not reproduce the order.
  method AppendAll(store: SqlLearningEventStore, scope: Scope, events: seq<Event>) returns (failure: Option<ErrorCode>)
    requires store.Valid() && StreamOf(store.Contents(), scope) == [] && forall e :: e in events ==> e.body.scope == scope
    modifies store
    ensures store.Valid()
    ensures forall s :: s != scope ==> StreamOf(store.Contents(), s) == StreamOf(old(store.Contents()), s)
    ensures failure.None? <==> FitsInto(old(store.Contents()), events)
    ensures failure.None? ==> RestoredSoFar(old(store.Contents()), store.Contents(), scope, events, |events|)
  {
    ghost var start := store.Contents();
    var previousSequence := 0;
    var i := 0;
    while i < |events|
      invariant 0 <= i <= |events| && store.Valid()
      invariant forall s :: s != scope ==> StreamOf(store.Contents(), s) == StreamOf(start, s)
      invariant RestoredSoFar(start, store.Contents(), scope, events, i) && FitsInto(start, events[..i])
      invariant previousSequence < store.nextSequence
    {
      ghost var before, token := store.Contents(), store.nextToken;
      assert events[i] in events;
      FitsOneMore(start, before, scope, events, i);
      AppendedAsNewExactly(before, events[i].body, token);
      AppendCallFrame(before, events[i].body, i, token);
      if FitsInto(start, events) { PrefixFits(start, events, i + 1); }
      var result := store.Append(events[i].body, i);
      if result.Err? {
        return Some(result.error);
      }
      if result.value.replayed || result.value.event.sequence <= previousSequence {
        return Some(StorageFailure);
      }
      OneMoreRestored(start, before, store.Contents(), scope, events, i, token);
      previousSequence := result.value.event.sequence;
      i := i + 1;
    }
    assert events[..|events|] == events;
    return None;
  }

  lemma RestoredRowsOfTheEngine(before: Database, db: Database, scope: Scope, events: seq<Event>)
    requires RestoredSoFar(before, db, scope, events, |events|) && EngineRows(before) && Restorable(scope, events)
    ensures EngineRows(db)
  {
    forall row | row in db.rows ensures EngineBuilt(row.event.body) {
      var k :| 0 <= k < |db.rows| && db.rows[k] == row;
      if k < |before.rows| { assert before.rows[k] == row; } else { assert events[k - |before.rows|] in events; }
    }
  }

  // A restore succeeds exactly if the export verifies, the target is empty and the events fit into its tables; it then
  // stores them under the target's next numbers. Otherwise it leaves the target stream empty, or, when the export does
  // not verify or the target is not empty, changes nothing.
  method RestoreVerifiedExport(store: SqlLearningEventStore, exported: VerifiedExport)
    returns (r: Result<nat, ErrorCode>)
    requires store.Valid()
    modifies store
    ensures store.Valid()
    ensures forall s :: s != exported.scope ==> StreamOf(store.Contents(), s) == StreamOf(old(store.Contents()), s)
    ensures StreamOf(old(store.Contents()), exported.scope) != [] || !Verified(exported) ==> store.Contents() == old(store.Contents())
    ensures r.Ok? <==> Verified(exported) && StreamOf(old(store.Contents()), exported.scope) == []
                       && FitsInto(old(store.Contents()), exported.events)
    ensures r.Ok? ==> r.value == |exported.events|
                      && StreamOf(store.Contents(), exported.scope) == Renumbered(exported.events, old(store.nextSequence))
                      && Bodies(StreamOf(store.Contents(), exported.scope)) == Bodies(exported.events)
    ensures r.Err? && Verified(exported) && StreamOf(old(store.Contents()), exported.scope) == []
            ==> StreamOf(store.Contents(), exported.scope) == []
    ensures Verified(exported) && StreamOf(old(store.Contents()), exported.scope) == []
            && EngineRows(old(store.Contents())) && Restorable(exported.scope, exported.events)
            ==> r.Ok? && EngineRows(store.Contents())
  {
    var scope, events := exported.scope, exported.events;
    var valid := VerifyExport(exported);
    if !valid {
      return Err(StorageFailure);
    }
    var current := List(store.Contents(), scope);
    if current.Err? {
      assert StreamOf(store.Contents(), scope) != [];
      return Err(current.error);
    }
    if |current.value| != 0 {
      return Err(StorageFailure);
    }
    ghost var start := store.Contents();
    if EngineRows(start) && Restorable(scope, events) { RestorableFitsInto(start, scope, events); }
    var failure := AppendAll(store, scope, events);
    if failure.None? {
      assert events[..|events|] == events;
      RenumberedBodies(events, start.nextSequence);
      if EngineRows(start) && Restorable(scope, events) { RestoredRowsOfTheEngine(start, store.Contents(), scope, events); }
      var restored := List(store.Contents(), scope);
      if restored.Ok? {
        var same := AssertRestoredEventSemantics(events, restored.value);
        if same {
          assert |Bodies(events)| == |Bodies(restored.value)|;
          return Ok(|restored.value|);
        }
      }
      failure := Some(StorageFailure);
    }
    ClearedEffect(store.Contents(), scope);
    var removed := store.Delete(scope);
    return Err(failure.value);
  }

  ghost predicate Verified(exported: VerifiedExport) {
    && InScope(exported.scope, exported.events)
    && exists at :: exported == Exported(exported.scope, exported.events, at)
  }

  // Every stream a run of the engine leaves behind can be restored.
  lemma ReachableStreamsAreRestorable(states: seq<System>, actions: seq<Action>, i: nat, scope: Scope)
    requires IsRun(states, actions) && i < |states|
    ensures Restorable(scope, StreamOf(states[i].db, scope))
  {
    RevisionCountsEvents(states, actions, i, scope);
    RunsKeepInvariant(states, actions, i);
    var db := states[i].db;
    forall e | e in StreamOf(db, scope) ensures EngineBuilt(e.body) && e.body.scope == scope {
      RowOfEvent(db, scope, e);
    }
  }

  // The sequence number of the last import, or zero.
  function LastImport(events: seq<Event>): int {
    if events == [] then 0
    else
      var last := events[|events| - 1];
      if last.body.payload.ProgressImported? then last.sequence else LastImport(events[..|events| - 1])
  }

  lemma {:induction false} SnapshotNumber(events: seq<Event>, scope: Scope)
    requires Replays(events, scope)
    ensures ReplayFrom(EMPTY_REPLAY, events, scope).value.snapshotSequence == LastImport(events)
    decreases |events|
  {
    if events != [] {
      var n := |events| - 1;
      assert events == events[..n] + [events[n]];
      ReplaySnoc(EMPTY_REPLAY, events[..n], events[n], scope);
      SnapshotNumber(events[..n], scope);
    }
  }

  // The comparison of assertProjectionMatch, which leaves out the last sequence number only.
  ghost predicate ProjectionsMatch(expected: Projected, actual: Projected) {
    expected.(lastSequence := 0) == actual.(lastSequence := 0)
  }

  // The restored projection is the source projection, except for the two sequence numbers it remembers. The
  // comparison therefore accepts it exactly when the last import, if there is one, kept its number.
  lemma RestoredProjection(source: seq<Event>, restored: seq<Event>, scope: Scope)
    requires Increasing(source) && Increasing(restored) && Bodies(source) == Bodies(restored)
    requires Replays(source, scope)
    ensures Replays(restored, scope)
    ensures var expected := Project(source, scope).value; var actual := Project(restored, scope).value;
            && actual == expected.(lastSequence := actual.lastSequence, snapshotSequence := actual.snapshotSequence)
            && (ProjectionsMatch(expected, actual) <==> LastImport(source) == LastImport(restored))
            && (NoImport(source) ==> ProjectionsMatch(expected, actual))
  {
    ReplayDependsOnlyOnOrder(source, restored, scope);
    SnapshotNumber(source, scope);
    SnapshotNumber(restored, scope);
    assert |source| == |restored| by { assert |Bodies(source)| == |Bodies(restored)|; }
    if NoImport(source) {
      forall i | 0 <= i < |restored| ensures !restored[i].body.payload.ProgressImported? {
        assert Bodies(source)[i] == Bodies(restored)[i];
      }
      NoImportNoNumber(source);
      NoImportNoNumber(restored);
    }
  }

  lemma {:induction false} NoImportNoNumber(events: seq<Event>)
    requires NoImport(events)
    ensures LastImport(events) == 0
  {
    if events != [] {
      NoImportNoNumber(events[..|events| - 1]);
    }
  }

  // Where the last import stands, if there is one.
  function LastImportAt(events: seq<Event>): (r: Option<nat>)
    ensures r.Some? ==> r.value < |events| && events[r.value].body.payload.ProgressImported?
  {
    if events == [] then None
    else if events[|events| - 1].body.payload.ProgressImported? then Some(|events| - 1)
    else LastImportAt(events[..|events| - 1])
  }

  lemma {:induction false} LastImportIsThere(events: seq<Event>)
    ensures LastImport(events) == if LastImportAt(events).Some? then events[LastImportAt(events).value].sequence else 0
  {
    if events != [] { LastImportIsThere(events[..|events| - 1]); }
  }

  lemma {:induction false} LastImportOfBodies(events: seq<Event>, others: seq<Event>)
    requires Bodies(events) == Bodies(others)
    ensures LastImportAt(events) == LastImportAt(others)
    decreases |events|
  {
    assert |events| == |others| by { assert |Bodies(events)| == |Bodies(others)|; }
    if events != [] {
      var n := |events| - 1;
      assert events[n].body == Bodies(events)[n] == others[n].body;
      assert Bodies(events[..n]) == Bodies(events)[..n] == Bodies(others)[..n] == Bodies(others[..n]);
      LastImportOfBodies(events[..n], others[..n]);
    }
  }

  // Known before the restore: the comparison will accept the restored projection exactly if the export holds no
  // import, or its last import, the event at place k, has the number the target will give it, its next number plus k.
  lemma RestoreMatchesExactly(source: seq<Event>, next: int, scope: Scope)
    requires Increasing(source) && Replays(source, scope) && 1 <= next
    ensures var restored := Renumbered(source, next);
      && Replays(restored, scope)
      && (ProjectionsMatch(Project(source, scope).value, Project(restored, scope).value) <==>
            var k := LastImportAt(source); k.Some? ==> source[k.value].sequence == next + k.value)
  {
    var restored := Renumbered(source, next);
    RenumberedBodies(source, next);
    RestoredProjection(source, restored, scope);
    LastImportIsThere(source);
    LastImportIsThere(restored);
    LastImportOfBodies(source, restored);
  }

  const IMPORT := Candidate(EventId(Scope(0, 0), 1), Scope(0, 0), 1, V1_1, 0, 1, 0, 0,
                            Actor(LearnerActor, Some(0)), ProgressImported(0, 0))

  lemma ImportLog(n: int)
    requires 1 <= n
    ensures Increasing([Event(n, IMPORT)]) && Replays([Event(n, IMPORT)], IMPORT.scope)
    ensures Restorable(IMPORT.scope, [Event(n, IMPORT)])
    ensures LastImportAt([Event(n, IMPORT)]) == Some(0)
  {
    var log := [Event(n, IMPORT)];
    ReplaySnoc(EMPTY_REPLAY, [], log[0], IMPORT.scope);
    assert [] + [log[0]] == log;
  }

  // A verified export of one import whose number is not one, restored into a new store: the restore succeeds and
  // reproduces the event, and yet the comparison of the projections fails.
  method FaithfulRestoreCanFailTheComparison()
    returns (source: seq<Event>, restored: seq<Event>, r: Result<nat, ErrorCode>)
    ensures Verified(Exported(IMPORT.scope, source, 0)) && |source| == 1
    ensures r == Ok(1) && restored == Renumbered(source, 1) && Bodies(source) == Bodies(restored)
    ensures Project(source, IMPORT.scope).Ok? && Project(restored, IMPORT.scope).Ok?
    ensures !ProjectionsMatch(Project(source, IMPORT.scope).value, Project(restored, IMPORT.scope).value)
  {
    source := [Event(2, IMPORT)];
    ImportLog(2);
    var exported := Exported(IMPORT.scope, source, 0);
    var target := new SqlLearningEventStore();
    r := RestoreVerifiedExport(target, exported);
    restored := StreamOf(target.Contents(), IMPORT.scope);
    RestoreMatchesExactly(source, 1, IMPORT.scope);
  }
}
