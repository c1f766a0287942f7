/** Concurrent calls on the SQL tables, seen as calls on the in-memory log: every run of the one is a run of
    the other, and what the calls report is what the log reports. */
module StoreSimulation {
  import opened Wrappers
  import opened LearningEvents
  import opened EventTables
  import opened MemoryStore
  import opened SqlStore
  import opened StoreRefinement
  import opened AppendProtocol
  import opened AppendInvariants
  import opened AppendTheorems

  type Logs = map<Scope, seq<Event>>

  function LogAt(logs: Logs, scope: Scope): seq<Event> {
    if scope in logs then logs[scope] else []
  }

  ghost predicate Simulates(db: Database, logs: Logs) {
    forall scope: Scope :: Represents(db, scope, LogAt(logs, scope))
  }

  // The call on the in-memory store that a step stands for.
  datatype MemoryCall = NoCall | AppendTo(c: Candidate, revision: int) | DeleteOf(scope: Scope)

  ghost function MemoryCallOf(s: System, a: Action): MemoryCall
    requires Enabled(s, a)
  {
    match a
    case Advance(id) =>
      var call := s.calls[id];
      if call.pc.Batching? && AppendBatch(s.db, call.c, |call.listed|, call.token.value).Some?
         && |StreamOf(s.db, call.c.scope)| == |call.listed|
      then AppendTo(call.c, |call.listed|) else NoCall
    case AdvanceDeletion(id) =>
      var pc := s.deletions[id].pc;
      if pc.Deleting? && pc.receipt in DeleteVerifiedBatch(s.db, pc.receipt).receipts then DeleteOf(pc.receipt.scope) else NoCall
    case ClearStream(scope) => DeleteOf(scope)
    case ReplayDeletion(replay) =>
      var after := ReplayBatch(s.db, replay);
      if after.Some? && replay in after.value.replays then DeleteOf(replay.receipt.scope) else NoCall
    case _ => NoCall
  }

  function MemoryStep(logs: Logs, m: MemoryCall): Logs {
    match m
    case NoCall => logs
    case AppendTo(c, revision) => logs[c.scope := MemoryAppend(LogAt(logs, c.scope), c, revision).0]
    case DeleteOf(scope) => logs[scope := []]
  }

  // ----------------------------------------------------------------------------------- single steps

  lemma SameRowsSimulate(db: Database, after: Database, logs: Logs)
    requires Simulates(db, logs) && after.rows == db.rows
    ensures Simulates(after, logs)
  {
    forall scope: Scope ensures Represents(after, scope, LogAt(logs, scope)) {
      assert Represents(db, scope, LogAt(logs, scope));
    }
  }

  lemma ClearingSimulates(db: Database, after: Database, logs: Logs, cleared: Scope)
    requires Simulates(db, logs) && after.rows == Without(db.rows, cleared)
    ensures Simulates(after, MemoryStep(logs, DeleteOf(cleared)))
  {
    forall scope: Scope ensures Represents(after, scope, LogAt(MemoryStep(logs, DeleteOf(cleared)), scope)) {
      WithoutSplitsStreams(db.rows, cleared, scope);
      assert Represents(db, scope, LogAt(logs, scope));
    }
  }

  // The in-memory log takes the candidate as a new event.
  predicate TakesAsNew(log: seq<Event>, c: Candidate, revision: int) {
    var (after, r) := MemoryAppend(log, c, revision);
    r == Ok(AppendResult(Event(MaxSequence(log) + 1, c), false)) && after == log + [Event(MaxSequence(log) + 1, c)]
  }

  // A row that the unique indexes accept has a key and evidence the log does not hold.
  lemma AcceptedRowIsNew(db: Database, log: seq<Event>, c: Candidate, token: Token)
    requires Sound(db) && Represents(db, c.scope, log) && EngineBuilt(c)
    requires forall r :: r in db.rows ==> !Clash(r, EventRow(Event(db.nextSequence, c), token))
    ensures TakesAsNew(log, c, |log|)
  {
    SameLookup(db, log, c.scope, c.key);
    SameDuplicates(db, log, c);
    FindRowMeaning(db.rows, c.scope, c.key);
    MaxIsLast(log);
  }

  // The batch of a call that commits its event is an in-memory append that takes it as new.
  lemma BatchSimulates(db: Database, call: Call, logs: Logs)
    requires Sound(db) && Simulates(db, logs) && EngineBuilt(call.c)
    requires call.pc.Batching? && call.token.Some? && FreshToken(db, call.token.value)
    ensures var after := BatchStep(db, call).0; var log := LogAt(logs, call.c.scope);
      if AppendBatch(db, call.c, |call.listed|, call.token.value).Some? && |StreamOf(db, call.c.scope)| == |call.listed|
      then |log| == |call.listed| && TakesAsNew(log, call.c, |log|) && Simulates(after, MemoryStep(logs, AppendTo(call.c, |call.listed|)))
      else Simulates(after, logs)
  {
    var after, scope := BatchStep(db, call).0, call.c.scope;
    var log := LogAt(logs, scope);
    AppendBatchEffect(db, call.c, |call.listed|, call.token.value);
    if AppendBatch(db, call.c, |call.listed|, call.token.value).Some? && |StreamOf(db, scope)| == |call.listed| {
      assert Represents(db, scope, log);
      LogLength(db, scope, log);
      AcceptedRowIsNew(db, log, call.c, call.token.value);
      var logs' := MemoryStep(logs, AppendTo(call.c, |call.listed|));
      forall other: Scope ensures Represents(after, other, LogAt(logs', other)) {
        assert Represents(db, other, LogAt(logs, other));
        if other == scope { RepresentsGrows(db, after, log, call.c); }
      }
    } else {
      SameRowsSimulate(db, after, logs);
    }
  }

  lemma DeletionSimulates(s: System, id: nat, logs: Logs)
    requires Sound(s.db) && Simulates(s.db, logs) && Enabled(s, AdvanceDeletion(id))
    ensures Simulates(Perform(s, AdvanceDeletion(id)).db, MemoryStep(logs, MemoryCallOf(s, AdvanceDeletion(id))))
  {
    var t, pc := Perform(s, AdvanceDeletion(id)), s.deletions[id].pc;
    if pc.Deleting? {
      DeleteVerifiedShape(s.db, pc.receipt);
      if pc.receipt in t.db.receipts {
        ClearingSimulates(s.db, t.db, logs, pc.receipt.scope);
      } else {
        SameRowsSimulate(s.db, t.db, logs);
      }
    } else {
      SameRowsSimulate(s.db, t.db, logs);
    }
  }

  lemma ReplaySimulates(s: System, replay: DeletionReplay, logs: Logs)
    requires Sound(s.db) && Simulates(s.db, logs)
    ensures Simulates(Perform(s, ReplayDeletion(replay)).db, MemoryStep(logs, MemoryCallOf(s, ReplayDeletion(replay))))
  {
    ReplayBatchEffect(s.db, replay);
    var t, after := Perform(s, ReplayDeletion(replay)), ReplayBatch(s.db, replay);
    if after.Some? && replay in after.value.replays {
      ClearingSimulates(s.db, t.db, logs, replay.receipt.scope);
    } else {
      SameRowsSimulate(s.db, t.db, logs);
    }
  }

  lemma CallSimulates(s: System, id: nat, logs: Logs)
    requires Invariant(s) && Simulates(s.db, logs) && Enabled(s, Advance(id))
    ensures var m := MemoryCallOf(s, Advance(id));
      && Simulates(Perform(s, Advance(id)).db, MemoryStep(logs, m))
      && (m.AppendTo? ==> m.c == s.calls[id].c && m.revision == |LogAt(logs, m.c.scope)| && TakesAsNew(LogAt(logs, m.c.scope), m.c, m.revision))
  {
    var call := s.calls[id];
    var now := EpochOf(s, call.c.scope);
    assert CallHolds(s.db, now, s.supply, call);
    assert Perform(s, Advance(id)).db == CallStep(s.db, call, now, s.supply).0;
    if call.pc.Batching? {
      BatchSimulates(s.db, call, logs);
    } else {
      StepKeepsIdentity(s.db, call, now, s.supply);
      SameRowsSimulate(s.db, Perform(s, Advance(id)).db, logs);
    }
  }

  lemma StepSimulates(s: System, a: Action, logs: Logs)
    requires Invariant(s) && Simulates(s.db, logs) && Enabled(s, a)
    ensures var m := MemoryCallOf(s, a);
      && Simulates(Perform(s, a).db, MemoryStep(logs, m))
      && (m.AppendTo? ==> m.revision == |LogAt(logs, m.c.scope)| && TakesAsNew(LogAt(logs, m.c.scope), m.c, m.revision))
  {
    match a
    case Advance(id) => CallSimulates(s, id, logs);
    case AdvanceDeletion(id) => DeletionSimulates(s, id, logs);
    case ClearStream(scope) => ClearingSimulates(s.db, Perform(s, a).db, logs, scope);
    case ReplayDeletion(replay) => ReplaySimulates(s, replay, logs);
    case _ => SameRowsSimulate(s.db, Perform(s, a).db, logs);
  }

  // ------------------------------------------------------------------------------------ whole runs

  // The in-memory logs after the first n steps of a run.
  ghost function LogsAfter(states: seq<System>, actions: seq<Action>, n: nat): Logs
    requires IsRun(states, actions) && n < |states|
  {
    if n == 0 then map[] else MemoryStep(LogsAfter(states, actions, n - 1), MemoryCallOf(states[n - 1], actions[n - 1]))
  }

  // Every run on the tables is a run on the in-memory store: the rows of each learner stand for its log at every
  // moment, a batch that commits is an append the log takes as new, the three deletions are deletions, and no
  // other step changes anything.
  lemma {:induction false} RunsSimulateTheLog(states: seq<System>, actions: seq<Action>, n: nat)
    requires IsRun(states, actions) && n < |states|
    ensures Simulates(states[n].db, LogsAfter(states, actions, n))
  {
    if n > 0 {
      RunsSimulateTheLog(states, actions, n - 1);
      RunsKeepInvariant(states, actions, n - 1);
      StepSimulates(states[n - 1], actions[n - 1], LogsAfter(states, actions, n - 1));
    } else {
      forall scope: Scope ensures Represents(INITIAL.db, scope, LogAt(map[], scope)) {}
    }
  }

  lemma CommitsAreAppends(states: seq<System>, actions: seq<Action>, n: nat)
    requires IsRun(states, actions) && n < |actions| && MemoryCallOf(states[n], actions[n]).AppendTo?
    ensures var m := MemoryCallOf(states[n], actions[n]); var log := LogAt(LogsAfter(states, actions, n), m.c.scope);
      m.revision == |log| && TakesAsNew(log, m.c, |log|)
  {
    RunsSimulateTheLog(states, actions, n);
    RunsKeepInvariant(states, actions, n);
    StepSimulates(states[n], actions[n], LogsAfter(states, actions, n));
  }

  // The in-memory log, asked for the same key under any revision, replays an event with the same body.
  ghost predicate LogReplays(logs: Logs, c: Candidate, e: Event) {
    forall revision: int :: ReplaysFrom(LogAt(logs, c.scope), c, revision, e)
  }

  predicate ReplaysFrom(log: seq<Event>, c: Candidate, revision: int, e: Event) {
    var (after, r) := MemoryAppend(log, c, revision);
    after == log && r.Ok? && r.value.replayed && r.value.event.body == e.body
  }

  // A call that finds its key reports what the log replays.
  lemma FoundKeyIsReplayed(db: Database, logs: Logs, c: Candidate, e: Event)
    requires Sound(db) && EngineRows(db) && Simulates(db, logs)
    requires FindRow(db.rows, c.scope, c.key).Some? && FindRow(db.rows, c.scope, c.key).value.event == e
    requires e.body.digest == c.digest
    ensures LogReplays(logs, c, e)
  {
    assert Represents(db, c.scope, LogAt(logs, c.scope));
    SameLookup(db, LogAt(logs, c.scope), c.scope, c.key);
    forall revision: int ensures ReplaysFrom(LogAt(logs, c.scope), c, revision, e) {}
  }

  // Some earlier step of the call committed this candidate.
  ghost predicate Committed(states: seq<System>, actions: seq<Action>, n: nat, id: nat, c: Candidate)
    requires IsRun(states, actions) && n < |states|
  {
    exists k :: 0 <= k < n && CommitsAt(states, actions, k, id, c)
  }

  ghost predicate CommitsAt(states: seq<System>, actions: seq<Action>, k: nat, id: nat, c: Candidate)
    requires IsRun(states, actions) && k < |actions|
  {
    actions[k] == Advance(id) && MemoryCallOf(states[k], actions[k]).AppendTo? && MemoryCallOf(states[k], actions[k]).c == c
  }

  // A row that carries the token of a call was committed by that call.
  ghost predicate OwnRowsCommitted(states: seq<System>, actions: seq<Action>, n: nat)
    requires IsRun(states, actions) && n < |states|
  {
    forall id, row :: id in states[n].calls && row in states[n].db.rows && states[n].calls[id].token == Some(row.token)
      ==> Committed(states, actions, n, id, row.event.body)
  }

  // Rows and tokens after a step: a new row has the token and candidate of the call that stepped, and a new
  // token is one that no row carries.
  lemma RowsAfterStep(s: System, a: Action, id: nat, row: EventRow)
    requires Invariant(s) && Enabled(s, a)
    requires id in Perform(s, a).calls && row in Perform(s, a).db.rows && Perform(s, a).calls[id].token == Some(row.token)
    ensures || (id in s.calls && row in s.db.rows && s.calls[id].token == Some(row.token))
            || (a == Advance(id) && MemoryCallOf(s, a).AppendTo? && MemoryCallOf(s, a).c == row.event.body)
  {
    if a.Advance? {
      RowsAfterCallStep(s, a.id, id, row);
    } else {
      OtherStepsAddNoRows(s, a);
    }
  }

  lemma OtherStepsAddNoRows(s: System, a: Action)
    requires Sound(s.db) && Enabled(s, a) && !a.Advance?
    ensures forall row :: row in Perform(s, a).db.rows ==> row in s.db.rows
    ensures forall id :: id in Perform(s, a).calls && Perform(s, a).calls[id].token.Some? ==>
      id in s.calls && Perform(s, a).calls[id] == s.calls[id]
  {
    match a
    case AdvanceDeletion(id) => DeletionAddsNoRows(s, id);
    case ClearStream(scope) => WithoutElements(s.db.rows, scope);
    case ReplayDeletion(replay) =>
      ReplayBatchEffect(s.db, replay);
      WithoutElements(s.db.rows, replay.receipt.scope);
    case _ =>
  }

  lemma DeletionAddsNoRows(s: System, id: nat)
    requires Sound(s.db) && Enabled(s, AdvanceDeletion(id))
    ensures forall row :: row in Perform(s, AdvanceDeletion(id)).db.rows ==> row in s.db.rows
  {
    var pc := s.deletions[id].pc;
    if pc.Deleting? {
      DeleteVerifiedShape(s.db, pc.receipt);
      WithoutElements(s.db.rows, pc.receipt.scope);
    }
  }

  lemma RowsAfterCallStep(s: System, other: nat, id: nat, row: EventRow)
    requires Invariant(s) && Enabled(s, Advance(other))
    requires var t := Perform(s, Advance(other)); id in t.calls && row in t.db.rows && t.calls[id].token == Some(row.token)
    ensures || (id in s.calls && row in s.db.rows && s.calls[id].token == Some(row.token))
            || (other == id && MemoryCallOf(s, Advance(other)).AppendTo? && MemoryCallOf(s, Advance(other)).c == row.event.body)
  {
    var call := s.calls[other];
    var now := EpochOf(s, call.c.scope);
    assert CallHolds(s.db, now, s.supply, call);
    var (after, next) := CallStep(s.db, call, now, s.supply);
    assert Perform(s, Advance(other)).db == after && Perform(s, Advance(other)).calls == s.calls[other := next];
    StepKeepsIdentity(s.db, call, now, s.supply);
    if call.pc.Batching? { NewRowIsTheCalls(s.db, call, row); }
  }

  lemma NewRowIsTheCalls(db: Database, call: Call, row: EventRow)
    requires Sound(db) && call.pc.Batching? && call.token.Some? && FreshToken(db, call.token.value)
    requires row in BatchStep(db, call).0.rows
    ensures BatchStep(db, call).1.token == call.token
    ensures row !in db.rows ==>
      && AppendBatch(db, call.c, |call.listed|, call.token.value).Some? && |StreamOf(db, call.c.scope)| == |call.listed|
      && row.event.body == call.c && Some(row.token) == call.token
  {
    AppendBatchEffect(db, call.c, |call.listed|, call.token.value);
  }

  lemma {:induction false} RunsCommitOwnRows(states: seq<System>, actions: seq<Action>, n: nat)
    requires IsRun(states, actions) && n < |states|
    ensures OwnRowsCommitted(states, actions, n)
  {
    if n > 0 {
      RunsCommitOwnRows(states, actions, n - 1);
      RunsKeepInvariant(states, actions, n - 1);
      var s, a, t := states[n - 1], actions[n - 1], states[n];
      forall id, row | id in t.calls && row in t.db.rows && t.calls[id].token == Some(row.token)
        ensures Committed(states, actions, n, id, row.event.body)
      {
        RowsAfterStep(s, a, id, row);
        if id in s.calls && row in s.db.rows && s.calls[id].token == Some(row.token) {
          LaterCommitted(states, actions, n - 1, n, id, row.event.body);
        } else {
          assert CommitsAt(states, actions, n - 1, id, row.event.body);
        }
      }
    }
  }

  lemma LaterCommitted(states: seq<System>, actions: seq<Action>, m: nat, n: nat, id: nat, c: Candidate)
    requires IsRun(states, actions) && m <= n < |states| && Committed(states, actions, m, id, c)
    ensures Committed(states, actions, n, id, c)
  {
    var k :| 0 <= k < m && CommitsAt(states, actions, k, id, c);
  }

  // What a call has to report, or has reported.
  predicate Reports(pc: Pc, e: Event, replayed: bool) {
    pc == Reporting(e, replayed) || pc == Done(Succeeded(e, replayed))
  }

  // At some earlier step of the call the in-memory log replayed this event for it.
  ghost predicate ReplayedEarlier(states: seq<System>, actions: seq<Action>, n: nat, id: nat, c: Candidate, e: Event)
    requires IsRun(states, actions) && n < |states|
  {
    exists k :: 0 <= k < n && actions[k] == Advance(id) && LogReplays(LogsAfter(states, actions, k), c, e)
  }

  ghost predicate ReportMatches(states: seq<System>, actions: seq<Action>, n: nat, id: nat, c: Candidate, e: Event, replayed: bool)
    requires IsRun(states, actions) && n < |states|
  {
    if replayed then ReplayedEarlier(states, actions, n, id, c, e)
    else e.body.key == c.key && e.body.digest == c.digest && Committed(states, actions, n, id, e.body)
  }

  lemma LaterMatches(states: seq<System>, actions: seq<Action>, n: nat, id: nat, c: Candidate, e: Event, replayed: bool)
    requires IsRun(states, actions) && n + 1 < |states| && ReportMatches(states, actions, n, id, c, e, replayed)
    ensures ReportMatches(states, actions, n + 1, id, c, e, replayed)
  {
    if replayed {
      var k :| 0 <= k < n && actions[k] == Advance(id) && LogReplays(LogsAfter(states, actions, k), c, e);
    } else {
      LaterCommitted(states, actions, n, n + 1, id, e.body);
    }
  }

  lemma FindReports(db: Database, logs: Logs, call: Call, drawn: Token, e: Event, replayed: bool)
    requires Sound(db) && EngineRows(db) && Simulates(db, logs) && call.pc.Finding?
    requires Reports(FindStep(db, call, drawn).pc, e, replayed)
    ensures replayed && LogReplays(logs, call.c, e)
  {
    KeyLookup(db, call.c.scope, call.c.key);
    FoundKeyIsReplayed(db, logs, call.c, e);
  }

  // The row of the event carries the call's own token.
  predicate OwnEvent(db: Database, call: Call, e: Event) {
    call.token.Some? && EventRow(e, call.token.value) in db.rows && e.body.key == call.c.key && e.body.digest == call.c.digest
  }

  lemma ReadBackReports(db: Database, logs: Logs, call: Call, e: Event, replayed: bool)
    requires Sound(db) && EngineRows(db) && Simulates(db, logs) && call.pc.ReadingBack? && call.token.Some?
    requires Reports(ReadBackStep(db, call).pc, e, replayed)
    ensures if replayed then LogReplays(logs, call.c, e) else OwnEvent(db, call, e)
  {
    KeyLookup(db, call.c.scope, call.c.key);
    FoundKeyIsReplayed(db, logs, call.c, e);
  }

  // The step at which a call comes to its report.
  lemma ReportingStep(db: Database, logs: Logs, call: Call, now: nat, supply: Token, e: Event, replayed: bool)
    requires Sound(db) && EngineRows(db) && Simulates(db, logs) && Tokened(call) && !Reports(call.pc, e, replayed)
    requires Reports(CallStep(db, call, now, supply).1.pc, e, replayed)
    ensures if replayed then LogReplays(logs, call.c, e) else OwnEvent(db, call, e)
  {
    match call.pc
    case Finding(_) => FindReports(db, logs, call, supply, e, replayed);
    case ReadingBack(_, _) => ReadBackReports(db, logs, call, e, replayed);
    case _ =>
  }

  // Whatever a call reports in any run, the in-memory log reported for the same candidate: a replayed event is
  // one that the log replays at the step where the call found it, and a new event is one that the log took as
  // new at the step where this very call committed it.
  lemma {:induction false} SuccessesMatchTheLog(states: seq<System>, actions: seq<Action>, n: nat, id: nat, e: Event, replayed: bool)
    requires IsRun(states, actions) && n < |states| && id in states[n].calls && Reports(states[n].calls[id].pc, e, replayed)
    ensures ReportMatches(states, actions, n, id, states[n].calls[id].c, e, replayed)
  {
    if n > 0 {
      var s, a := states[n - 1], actions[n - 1];
      if id in s.calls && Reports(s.calls[id].pc, e, replayed) {
        KeepsCandidate(s, a, id);
        SuccessesMatchTheLog(states, actions, n - 1, id, e, replayed);
        LaterMatches(states, actions, n - 1, id, s.calls[id].c, e, replayed);
      } else {
        NewReportMatches(states, actions, n - 1, id, e, replayed);
      }
    }
  }

  lemma KeepsCandidate(s: System, a: Action, id: nat)
    requires Enabled(s, a) && id in s.calls
    ensures id in Perform(s, a).calls && Perform(s, a).calls[id].c == s.calls[id].c
    ensures a != Advance(id) ==> Perform(s, a).calls[id] == s.calls[id]
  {
    if a.Advance? {
      StepKeepsIdentity(s.db, s.calls[a.id], EpochOf(s, s.calls[a.id].c.scope), s.supply);
    }
  }

  // A call that has something to report after a step and had not before took that step.
  lemma OwnStepReports(s: System, a: Action, id: nat, e: Event, replayed: bool)
    requires Enabled(s, a) && id in Perform(s, a).calls && Reports(Perform(s, a).calls[id].pc, e, replayed)
    requires id in s.calls ==> !Reports(s.calls[id].pc, e, replayed)
    ensures a == Advance(id) && id in s.calls && Tokened(s.calls[id])
    ensures Perform(s, a).calls[id] == CallStep(s.db, s.calls[id], EpochOf(s, s.calls[id].c.scope), s.supply).1
    ensures Perform(s, a).calls[id].c == s.calls[id].c
  {
    if a.Advance? && a.id in s.calls {
      StepKeepsIdentity(s.db, s.calls[a.id], EpochOf(s, s.calls[a.id].c.scope), s.supply);
    }
  }

  lemma NewReportMatches(states: seq<System>, actions: seq<Action>, n: nat, id: nat, e: Event, replayed: bool)
    requires IsRun(states, actions) && n + 1 < |states| && id in states[n + 1].calls
    requires Reports(states[n + 1].calls[id].pc, e, replayed)
    requires id in states[n].calls ==> !Reports(states[n].calls[id].pc, e, replayed)
    ensures ReportMatches(states, actions, n + 1, id, states[n + 1].calls[id].c, e, replayed)
  {
    var s := states[n];
    var logs := LogsAfter(states, actions, n);
    OwnStepReports(s, actions[n], id, e, replayed);
    RunsKeepInvariant(states, actions, n);
    RunsSimulateTheLog(states, actions, n);
    ReportingStep(s.db, logs, s.calls[id], EpochOf(s, s.calls[id].c.scope), s.supply, e, replayed);
    if replayed {
      assert actions[n] == Advance(id) && LogReplays(LogsAfter(states, actions, n), s.calls[id].c, e);
    } else {
      OwnEventIsCommitted(states, actions, n, id, e);
    }
  }

  lemma OwnEventIsCommitted(states: seq<System>, actions: seq<Action>, n: nat, id: nat, e: Event)
    requires IsRun(states, actions) && n + 1 < |states| && id in states[n].calls && OwnEvent(states[n].db, states[n].calls[id], e)
    ensures Committed(states, actions, n + 1, id, e.body)
  {
    RunsCommitOwnRows(states, actions, n);
    var row := EventRow(e, states[n].calls[id].token.value);
    assert Committed(states, actions, n, id, row.event.body);
    LaterCommitted(states, actions, n, n + 1, id, e.body);
  }
}
