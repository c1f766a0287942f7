/** The promises of the event log over whole runs of concurrent calls. */
module AppendTheorems {
  import opened Wrappers
  import opened LearningEvents
  import opened Projection
  import opened ProjectionTheory
  import opened ProjectionEngine
  import opened EventTables
  import opened RecordReceipts
  import opened MemoryStore
  import opened SqlStore
  import opened StoreRefinement
  import opened AppendProtocol
  import opened AppendInvariants

  lemma {:induction false} RunsKeepInvariant(states: seq<System>, actions: seq<Action>, i: nat)
    requires IsRun(states, actions) && i < |states|
    ensures Invariant(states[i])
  {
    if i > 0 {
      RunsKeepInvariant(states, actions, i - 1);
      StepHolds(states[i - 1], actions[i - 1]);
    }
  }

  // In every reachable state, deletions of all kinds included, a stream's revision is the number of its events,
  // no key or evidence identifier occurs twice, and listing a stream succeeds in ascending order.
  lemma RevisionCountsEvents(states: seq<System>, actions: seq<Action>, i: nat, scope: Scope)
    requires IsRun(states, actions) && i < |states|
    ensures var db := states[i].db; var stream := StreamOf(db, scope);
            && (if scope in db.streams then db.streams[scope].revision == |stream| else stream == [])
            && List(db, scope) == Ok(stream) && Increasing(stream)
            && KeysUnique(stream)
  {
    RunsKeepInvariant(states, actions, i);
    var db := states[i].db;
    SoundListing(db, scope);
    StreamAscends(db.rows, scope);
    StreamUnclashed(db.rows, scope);
  }

  lemma {:induction false} StreamUnclashed(rows: seq<EventRow>, scope: Scope)
    requires Unclashed(rows)
    ensures KeysUnique(Stream(rows, scope))
  {
    if rows != [] {
      var n := |rows| - 1;
      StreamUnclashed(rows[..n], scope);
      StreamElements(rows[..n], scope);
      var before := Stream(rows[..n], scope);
      if rows[n].event.body.scope == scope {
        forall j | 0 <= j < |before|
          ensures before[j].body.key != rows[n].event.body.key && !SameEvidence(before[j].body, rows[n].event.body)
        {
          assert before[j] in before;
          var i :| 0 <= i < n && rows[..n][i].event == before[j];
          assert !Clash(rows[i], rows[n]);
        }
      }
    }
  }

  // Replayability.

  ghost predicate AllReplay(s: System) {
    StreamsReplay(s.db)
  }

  lemma ProvisionalNumber(stream: seq<Event>, c: Candidate, sequence: int)
    requires Increasing(stream) && Increasing(stream + [Event(sequence, c)])
    ensures Guard(stream, c).Ok? <==> Replays(stream + [Event(sequence, c)], c.scope)
  {
    MaxIsLast(stream);
    var provisional := stream + [Event(MaxSequence(stream) + 1, c)];
    assert Increasing(provisional);
    AscendingLogsAreSorted(provisional);
    assert Bodies(provisional) == Bodies(stream) + [c] == Bodies(stream + [Event(sequence, c)]);
    ReplayDependsOnlyOnOrder(provisional, stream + [Event(sequence, c)], c.scope);
  }

  ghost predicate StreamsReplay(db: Database) {
    forall scope: Scope :: Replays(StreamOf(db, scope), scope)
  }

  // The batch commits an event that does not replay after the log it is appended to: the revision is the listed
  // one, but the stream is another.
  predicate UncheckedCommit(db: Database, call: Call)
    requires call.pc.Batching? && call.token.Some?
  {
    && AppendBatch(db, call.c, |call.listed|, call.token.value).Some?
    && |StreamOf(db, call.c.scope)| == |call.listed|
    && Guard(StreamOf(db, call.c.scope), call.c).Err?
  }

  // A batch keeps the streams replayable exactly if it is stopped, finds another revision, or finds a stream
  // that the candidate replays after.
  lemma BatchReplaysExactly(db: Database, call: Call)
    requires Sound(db) && call.pc.Batching? && call.token.Some? && FreshToken(db, call.token.value) && StreamsReplay(db)
    ensures StreamsReplay(BatchStep(db, call).0) <==> !UncheckedCommit(db, call)
  {
    var after := BatchStep(db, call).0;
    var scope, stream := call.c.scope, StreamOf(db, call.c.scope);
    AppendBatchEffect(db, call.c, |call.listed|, call.token.value);
    if AppendBatch(db, call.c, |call.listed|, call.token.value).Some? && |stream| == |call.listed| {
      StreamAscends(db.rows, scope);
      StreamAscends(after.rows, scope);
      ProvisionalNumber(stream, call.c, db.nextSequence);
      assert Replays(StreamOf(after, scope), scope) <==> !UncheckedCommit(db, call);
    }
    forall other: Scope | other != scope || StreamOf(after, other) == StreamOf(db, other)
      ensures Replays(StreamOf(after, other), other)
    {
      assert Replays(StreamOf(db, other), other);
    }
  }

  lemma SameRowsReplay(s: System, t: System)
    requires AllReplay(s) && t.db.rows == s.db.rows
    ensures AllReplay(t)
  {
    forall scope: Scope ensures Replays(StreamOf(t.db, scope), scope) {
      assert Replays(StreamOf(s.db, scope), scope);
    }
  }

  lemma DeletionReplays(s: System, id: nat)
    requires Invariant(s) && AllReplay(s) && Enabled(s, AdvanceDeletion(id))
    ensures AllReplay(Perform(s, AdvanceDeletion(id)))
  {
    var t := Perform(s, AdvanceDeletion(id));
    if s.deletions[id].pc.Deleting? {
      var receipt := s.deletions[id].pc.receipt;
      DeleteVerifiedShape(s.db, receipt);
      if receipt in t.db.receipts {
        ClearedReplays(s, t, receipt.scope);
      } else {
        SameRowsReplay(s, t);
      }
    } else {
      SameRowsReplay(s, t);
    }
  }

  // The step that breaks replay: a batch that commits an event its stream does not support.
  predicate BreaksReplay(s: System, a: Action) {
    && a.Advance? && a.id in s.calls && s.calls[a.id].pc.Batching? && s.calls[a.id].token.Some?
    && UncheckedCommit(s.db, s.calls[a.id])
  }

  lemma StepReplaysExactly(s: System, a: Action)
    requires Invariant(s) && AllReplay(s) && Enabled(s, a)
    ensures AllReplay(Perform(s, a)) <==> !BreaksReplay(s, a)
  {
    match a
    case Advance(id) => AdvanceReplaysExactly(s, id);
    case AdvanceDeletion(id) => DeletionReplays(s, id);
    case ClearStream(scope) => ClearedReplays(s, Perform(s, a), scope);
    case ReplayDeletion(replay) => ReplayedDeletionReplays(s, replay);
    case _ => SameRowsReplay(s, Perform(s, a));
  }

  lemma AdvanceReplaysExactly(s: System, id: nat)
    requires Invariant(s) && AllReplay(s) && Enabled(s, Advance(id))
    ensures AllReplay(Perform(s, Advance(id))) <==> !BreaksReplay(s, Advance(id))
  {
    var call := s.calls[id];
    var now := EpochOf(s, call.c.scope);
    assert Perform(s, Advance(id)).db == CallStep(s.db, call, now, s.supply).0;
    if call.pc.Batching? {
      assert CallHolds(s.db, now, s.supply, call);
      BatchReplaysExactly(s.db, call);
    } else {
      StepKeepsIdentity(s.db, call, now, s.supply);
      SameRowsReplay(s, Perform(s, Advance(id)));
    }
  }

  lemma ReplayedDeletionReplays(s: System, replay: DeletionReplay)
    requires Invariant(s) && AllReplay(s)
    ensures AllReplay(Perform(s, ReplayDeletion(replay)))
  {
    ReplayBatchEffect(s.db, replay);
    var t := Perform(s, ReplayDeletion(replay));
    if t.db.rows == s.db.rows {
      SameRowsReplay(s, t);
    } else {
      ClearedReplays(s, t, replay.receipt.scope);
    }
  }

  lemma ClearedReplays(s: System, t: System, cleared: Scope)
    requires AllReplay(s) && t.db.rows == Without(s.db.rows, cleared)
    ensures AllReplay(t)
  {
    forall scope: Scope ensures Replays(StreamOf(t.db, scope), scope) {
      WithoutSplitsStreams(s.db.rows, cleared, scope);
      assert Replays(StreamOf(s.db, scope), scope);
      assert Replays([], scope);
    }
  }

  lemma {:induction false} UnbrokenExactly(fine: seq<bool>, broken: seq<bool>, n: nat)
    requires |fine| == |broken| + 1 && n <= |broken| && fine[0]
    requires forall i :: 0 <= i < |broken| && fine[i] ==> (fine[i + 1] <==> !broken[i])
    ensures (forall i :: 0 <= i <= n ==> fine[i]) <==> (forall i :: 0 <= i < n ==> !broken[i])
  {
    if n > 0 {
      UnbrokenExactly(fine, broken, n - 1);
      assert fine[n - 1] ==> (fine[n - 1 + 1] <==> !broken[n - 1]);
    }
  }

  lemma RunStepReplaysExactly(states: seq<System>, actions: seq<Action>, i: nat)
    requires IsRun(states, actions) && i < |actions| && AllReplay(states[i])
    ensures AllReplay(states[i + 1]) <==> !BreaksReplay(states[i], actions[i])
  {
    RunsKeepInvariant(states, actions, i);
    StepReplaysExactly(states[i], actions[i]);
  }

  // In every run whatever: all streams replay at all moments exactly if no step is such a batch.
  lemma RunReplaysExactly(states: seq<System>, actions: seq<Action>, n: nat)
    requires IsRun(states, actions) && n < |states|
    ensures (forall i :: 0 <= i <= n ==> AllReplay(states[i])) <==> (forall i :: 0 <= i < n ==> !BreaksReplay(states[i], actions[i]))
  {
    var fine := seq(|states|, i requires 0 <= i < |states| => AllReplay(states[i]));
    var broken := seq(|actions|, i requires 0 <= i < |actions| && i < |states| => BreaksReplay(states[i], actions[i]));
    assert fine[0] by { forall scope: Scope ensures Replays(StreamOf(INITIAL.db, scope), scope) {} }
    forall i | 0 <= i < |broken| && fine[i] ensures fine[i + 1] <==> !broken[i] {
      RunStepReplaysExactly(states, actions, i);
    }
    UnbrokenExactly(fine, broken, n);
    assert forall i :: 0 <= i < |states| ==> fine[i] == AllReplay(states[i]);
    assert forall i :: 0 <= i < |actions| ==> broken[i] == BreaksReplay(states[i], actions[i]);
  }

  // So the first state that fails to replay comes directly after such a batch, and every such batch on
  // replayable streams makes a state fail.
  lemma FirstFailureIsAnUncheckedCommit(states: seq<System>, actions: seq<Action>, n: nat)
    requires IsRun(states, actions) && n < |actions| && forall i :: 0 <= i <= n ==> AllReplay(states[i])
    ensures !AllReplay(states[n + 1]) <==> BreaksReplay(states[n], actions[n])
  {
    RunStepReplaysExactly(states, actions, n);
  }

  // A call whose stream was not cleared since it listed it commits nothing unchecked: the event was checked
  // against exactly the log it is appended to, whatever number it receives.
  lemma KeptEpochIsChecked(s: System, a: Action)
    requires Invariant(s) && Enabled(s, a) && KeepsEpoch(s, a)
    ensures !BreaksReplay(s, a)
  {
    if a.Advance? && s.calls[a.id].pc.Batching? {
      var call := s.calls[a.id];
      assert CallHolds(s.db, EpochOf(s, call.c.scope), s.supply, call);
      assert ListedHolds(s.db, call);
      assert |StreamOf(s.db, call.c.scope)| == |call.listed| ==> call.listed == StreamOf(s.db, call.c.scope);
    }
  }

  // In every interleaving in which no stream is cleared between a call's listing and its append,
  // every stored stream replays without error at every moment.
  lemma StoredStreamsAlwaysReplay(states: seq<System>, actions: seq<Action>, i: nat)
    requires UndisturbedRun(states, actions) && i < |states|
    ensures AllReplay(states[i])
  {
    forall k | 0 <= k < i ensures !BreaksReplay(states[k], actions[k]) {
      RunsKeepInvariant(states, actions, k);
      KeptEpochIsChecked(states[k], actions[k]);
    }
    RunReplaysExactly(states, actions, i);
  }

  // So the projection a successful call returns never fails to build.
  lemma ReportsNeverFail(states: seq<System>, actions: seq<Action>, i: nat, id: nat)
    requires UndisturbedRun(states, actions) && i < |states|
    requires id in states[i].calls && states[i].calls[id].pc.Reporting?
    ensures var call := states[i].calls[id];
            ReportStep(states[i].db, call).pc == Done(Succeeded(call.pc.event, call.pc.replayed))
  {
    StoredStreamsAlwaysReplay(states, actions, i);
    RevisionCountsEvents(states, actions, i, states[i].calls[id].c.scope);
    AscendingLogsAreSorted(StreamOf(states[i].db, states[i].calls[id].c.scope));
  }

  // Runs without deletions.

  lemma {:induction false} DeleteFreeKeepsEpochs(states: seq<System>, actions: seq<Action>, i: nat)
    requires DeleteFreeRun(states, actions) && i < |states|
    ensures states[i].epochs == map[]
  {
    if i > 0 {
      DeleteFreeKeepsEpochs(states, actions, i - 1);
    }
  }

  lemma CallSinceBirth(states: seq<System>, actions: seq<Action>, i: nat, id: nat)
    requires DeleteFreeRun(states, actions) && i < |states| && id in states[i].calls
    ensures Invariant(states[i]) && BornHolds(states[i].db, states[i].calls[id])
  {
    DeleteFreeKeepsEpochs(states, actions, i);
    RunsKeepInvariant(states, actions, i);
  }

  predicate Returned(s: System, id: nat) {
    id in s.calls && s.calls[id].pc.Done? && s.calls[id].pc.outcome.Succeeded?
  }

  // Exactly once: all returning calls for a key return the one stored event, at most one of them says that it
  // was not replayed, and they all carry the digest that is stored.
  lemma ExactlyOnce(states: seq<System>, actions: seq<Action>, i: nat, a: nat, b: nat)
    requires DeleteFreeRun(states, actions) && i < |states| && Returned(states[i], a) && Returned(states[i], b)
    requires states[i].calls[a].c.scope == states[i].calls[b].c.scope
    requires states[i].calls[a].c.key == states[i].calls[b].c.key
    ensures var x := states[i].calls[a].pc.outcome; var y := states[i].calls[b].pc.outcome;
            && x.event == y.event && x.event in StreamOf(states[i].db, states[i].calls[a].c.scope)
            && (a != b ==> x.replayed || y.replayed)
            && states[i].calls[a].c.digest == x.event.body.digest == states[i].calls[b].c.digest
  {
    var s := states[i];
    CallSinceBirth(states, actions, i, a);
    CallSinceBirth(states, actions, i, b);
    var scope, x, y := s.calls[a].c.scope, s.calls[a].pc.outcome, s.calls[b].pc.outcome;
    RowOfEvent(s.db, scope, x.event);
    RowOfEvent(s.db, scope, y.event);
    var r :| r in s.db.rows && r.event == x.event;
    var q :| q in s.db.rows && q.event == y.event;
    FindRowIsUnique(s.db, r);
    FindRowIsUnique(s.db, q);
    if !x.replayed && !y.replayed {
      FindRowIsUnique(s.db, EventRow(x.event, s.calls[a].token.value));
      FindRowIsUnique(s.db, EventRow(y.event, s.calls[b].token.value));
    }
  }

  // Lock-freedom: a call gives up only after five other events were committed to its stream while it ran.
  lemma GivingUpMeansFiveOthers(states: seq<System>, actions: seq<Action>, i: nat, id: nat)
    requires DeleteFreeRun(states, actions) && i < |states|
    requires id in states[i].calls && states[i].calls[id].pc == Done(Failed(ConcurrencyConflict))
    ensures var call := states[i].calls[id]; var stream := StreamOf(states[i].db, call.c.scope);
            && call.began <= stream && |call.began| + 5 <= |stream|
            && forall j :: |call.began| <= j < |call.began| + 5 ==> stream[j].body.key != call.c.key
  {
    CallSinceBirth(states, actions, i, id);
  }

  // A call that runs alone, n steps of it.
  function Alone(db: Database, call: Call, now: nat, supply: Token, n: nat): (Database, Call)
    requires Tokened(call)
    decreases n
  {
    if n == 0 then (db, call)
    else
      var (after, next) := CallStep(db, call, now, supply);
      if Tokened(next) then Alone(after, next, now, supply + 1, n - 1) else (after, next)
  }

  // Finished in the given attempt, and not with a conflict.
  predicate FinishedWell(call: Call, attempt: nat) {
    call.pc.Done? && call.attempt == attempt && call.pc.outcome != Failed(ConcurrencyConflict)
  }

  lemma AloneUnfolds(db: Database, call: Call, now: nat, supply: Token, n: nat)
    requires Tokened(call) && n > 0 && Tokened(CallStep(db, call, now, supply).1)
    ensures var (after, next) := CallStep(db, call, now, supply);
            Alone(db, call, now, supply, n) == Alone(after, next, now, supply + 1, n - 1)
  {
  }

  lemma {:induction false} DoneStays(db: Database, call: Call, now: nat, supply: Token, n: nat)
    requires call.pc.Done?
    ensures Alone(db, call, now, supply, n) == (db, call)
    decreases n
  {
    if n > 0 {
      DoneStays(db, call, now, supply + 1, n - 1);
    }
  }

  // A call that runs alone is finished within six steps, in its first attempt, and never with a conflict.
  lemma AloneNeverRetries(db: Database, call: Call, now: nat, supply: Token)
    requires Sound(db) && EngineRows(db) && TokensBelow(db, supply)
    requires CallHolds(db, now, supply, call) && call.pc.Listing?
    ensures FinishedWell(Alone(db, call, now, supply, 6).1, call.attempt)
  {
    var listed := ListStep(db, call, now);
    ListStepHolds(db, call, now, supply);
    SoundListing(db, call.c.scope);
    GuardNeverConflicts(StreamOf(db, call.c.scope), call.c);
    AloneUnfolds(db, call, now, supply, 6);
    AloneFromListed(db, listed, now, supply + 1);
  }

  lemma AloneFromListed(db: Database, call: Call, now: nat, supply: Token)
    requires Sound(db) && EngineRows(db) && TokensBelow(db, supply) && CallHolds(db, now, supply, call)
    requires FinishedWell(call, call.attempt) || (call.pc.Finding? && call.listed == StreamOf(db, call.c.scope))
    ensures FinishedWell(Alone(db, call, now, supply, 5).1, call.attempt)
  {
    if call.pc.Done? {
      DoneStays(db, call, now, supply, 5);
    } else {
      AloneFromFinding(db, call, now, supply);
    }
  }

  lemma AloneFromFinding(db: Database, call: Call, now: nat, supply: Token)
    requires Sound(db) && EngineRows(db) && TokensBelow(db, supply)
    requires CallHolds(db, now, supply, call) && call.pc.Finding? && call.listed == StreamOf(db, call.c.scope)
    ensures FinishedWell(Alone(db, call, now, supply, 5).1, call.attempt)
  {
    var found := FindStep(db, call, supply);
    FindStepHolds(db, call, now, supply);
    KeyLookup(db, call.c.scope, call.c.key);
    AloneUnfolds(db, call, now, supply, 5);
    if found.pc.Done? {
      DoneStays(db, found, now, supply + 1, 4);
    } else if found.pc.Reporting? {
      AloneFromReporting(db, found, now, supply + 1, 4);
    } else {
      AloneBatch(db, found, now, supply + 1);
      AloneFromBatching(db, found, now, supply + 1);
    }
  }

  ghost predicate ReadsBack(db: Database, call: Call) {
    && Sound(db) && EngineRows(db) && call.pc.ReadingBack? && call.token.Some?
    && (if call.pc.threw then DuplicateEvidence(db, call.c).Some? else FindRow(db.rows, call.c.scope, call.c.key).Some?)
  }

  // Alone, the batch is stopped only by a duplicate attempt or correction, and otherwise stores the event.
  lemma AloneBatch(db: Database, call: Call, now: nat, supply: Token)
    requires Sound(db) && EngineRows(db) && TokensBelow(db, supply)
    requires CallHolds(db, now, supply, call) && call.pc.Batching? && call.listed == StreamOf(db, call.c.scope)
    requires FindRow(db.rows, call.c.scope, call.c.key).None?
    ensures var (after, batched) := BatchStep(db, call);
            ReadsBack(after, batched) && batched.attempt == call.attempt
  {
    var after := BatchStep(db, call).0;
    AppendBatchEffect(db, call.c, |call.listed|, call.token.value);
    BatchTables(db, call, supply);
    OnlyEvidenceClashes(db, call.c, call.token.value);
    if AppendBatch(db, call.c, |call.listed|, call.token.value).Some? {
      CommittedRowIsFound(db, after, call.c, call.token.value);
    }
  }

  lemma AloneFromBatching(db: Database, call: Call, now: nat, supply: Token)
    requires call.pc.Batching? && call.token.Some?
    requires ReadsBack(BatchStep(db, call).0, BatchStep(db, call).1)
    ensures FinishedWell(Alone(db, call, now, supply, 4).1, call.attempt)
  {
    var (after, batched) := BatchStep(db, call);
    assert CallStep(db, call, now, supply) == (after, batched);
    AloneUnfolds(db, call, now, supply, 4);
    AloneFromReadingBack(after, batched, now, supply + 1);
  }

  lemma AloneFromReadingBack(db: Database, call: Call, now: nat, supply: Token)
    requires ReadsBack(db, call)
    ensures FinishedWell(Alone(db, call, now, supply, 3).1, call.attempt)
  {
    KeyLookup(db, call.c.scope, call.c.key);
    var read := ReadBackStep(db, call);
    AloneUnfolds(db, call, now, supply, 3);
    if read.pc.Explaining? {
      AloneUnfolds(db, read, now, supply + 1, 2);
      DoneStays(db, ExplainStep(db, read), now, supply + 2, 1);
    } else if read.pc.Reporting? {
      AloneFromReporting(db, read, now, supply + 1, 2);
    } else {
      DoneStays(db, read, now, supply + 1, 2);
    }
  }

  lemma AloneFromReporting(db: Database, call: Call, now: nat, supply: Token, n: nat)
    requires Sound(db) && EngineRows(db) && call.pc.Reporting? && n > 0
    ensures FinishedWell(Alone(db, call, now, supply, n).1, call.attempt)
  {
    SoundListing(db, call.c.scope);
    ReplayNeverConflicts(EMPTY_REPLAY, SortedEvents(StreamOf(db, call.c.scope)), call.c.scope);
    AloneUnfolds(db, call, now, supply, n);
    DoneStays(db, ReportStep(db, call), now, supply + 1, n - 1);
  }
}
