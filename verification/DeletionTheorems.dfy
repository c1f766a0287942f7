/** Verified deletion while appends interleave, and the two runs that show which conditions are needed. */
module DeletionTheorems {
  import opened Wrappers
  import Sequences
  import opened LearningEvents
  import opened Projection
  import opened ProjectionEngine
  import opened EventTables
  import opened RecordReceipts
  import opened MemoryStore
  import opened SqlStore
  import opened StoreRefinement
  import opened AppendProtocol
  import opened AppendInvariants
  import opened AppendTheorems

  predicate NoReceiptFor(db: Database, scope: Scope, operationKey: Id) {
    forall r :: r in db.receipts ==> !(r.scope == scope && r.operationKey == operationKey)
  }

  ghost predicate DeletionKnows(db: Database, d: Deletion) {
    match d.pc
    case Reading => NoReceiptFor(db, d.scope, d.operationKey)
    case Deleting(receipt) =>
      && receipt == ReceiptFor(d.scope, receipt.eventDigest, d.operationKey, d.deletedAt)
      && receipt.eventDigest <= StreamOf(db, d.scope)
      && NoReceiptFor(db, d.scope, d.operationKey)
    case _ => true
  }

  ghost predicate DeletionsApart(s: System) {
    forall i, j :: i in s.deletions && j in s.deletions && i != j
                   && !s.deletions[i].pc.Ended? && !s.deletions[j].pc.Ended?
                   ==> s.deletions[i].scope != s.deletions[j].scope
  }

  // The receipt came with a replayed deletion and covers what was removed where it was made.
  predicate CameWithAReplay(db: Database, r: DeletionReceipt) {
    exists p :: p in db.replays && p.receipt == r
  }

  // Every other stored receipt's digest and count are those of the events its batch removed.
  ghost predicate ReceiptsCover(s: System) {
    forall r :: r in s.db.receipts ==> CameWithAReplay(s.db, r) || OwnReceiptCovers(s, r)
  }

  ghost predicate OwnReceiptCovers(s: System, r: DeletionReceipt) {
    r in s.removed && s.removed[r] == r.eventDigest && r.eventCount == |r.eventDigest|
  }

  ghost predicate DeletionsHold(s: System) {
    && DeletionsApart(s) && ReceiptsCover(s)
    && forall id :: id in s.deletions ==> DeletionKnows(s.db, s.deletions[id])
  }

  lemma CallsKeepReceipts(db: Database, call: Call, now: nat, supply: Token)
    requires Tokened(call)
    ensures CallStep(db, call, now, supply).0.receipts == db.receipts
  {
  }

  lemma AdvanceKeepsDeletions(s: System, id: nat)
    requires Invariant(s) && DeletionsHold(s) && Enabled(s, Advance(id))
    ensures DeletionsHold(Perform(s, Advance(id)))
  {
    var t := Perform(s, Advance(id));
    var call := s.calls[id];
    CallStepHolds(s.db, call, EpochOf(s, call.c.scope), s.supply);
    CallsKeepReceipts(s.db, call, EpochOf(s, call.c.scope), s.supply);
    forall d | d in t.deletions ensures DeletionKnows(t.db, t.deletions[d]) {
      assert DeletionKnows(s.db, s.deletions[d]);
      assert Grown(s.db, t.db, s.deletions[d].scope);
    }
  }

  // The deletion batch, for the only deletion in flight on its stream, covers exactly what it removes.
  lemma DeletingStep(s: System, id: nat)
    requires Sound(s.db) && DeletionsHold(s) && Enabled(s, AdvanceDeletion(id)) && s.deletions[id].pc.Deleting?
    ensures var d := s.deletions[id]; var receipt := d.pc.receipt; var t := Perform(s, AdvanceDeletion(id));
            && receipt !in s.db.receipts && t.deletions == s.deletions[id := d.(pc := Confirming(receipt))]
            && (forall scope :: scope != d.scope ==> StreamOf(t.db, scope) == StreamOf(s.db, scope))
            && (if receipt in t.db.receipts
                then t.db.receipts == s.db.receipts + {receipt} && t.removed == s.removed[receipt := StreamOf(s.db, d.scope)]
                     && StreamOf(s.db, d.scope) == receipt.eventDigest && receipt.eventCount == |receipt.eventDigest|
                     && StreamOf(t.db, d.scope) == [] && t.db.replays == s.db.replays
                else t.db == s.db && t.removed == s.removed)
  {
    DeleteVerifiedIsAllOrNothing(s.db, s.deletions[id].pc.receipt);
  }

  lemma ReadingStepKnows(db: Database, d: Deletion, now: nat)
    requires Sound(db) && EngineRows(db) && DeletionKnows(db, d) && !d.pc.Deleting?
    ensures var (after, next) := DeletionStep(db, d, now);
            after == db && next.scope == d.scope && DeletionKnows(db, next) && (d.pc.Ended? ==> next.pc.Ended?)
  {
    SoundListing(db, d.scope);
  }

  lemma OthersKnow(db: Database, after: Database, other: Deletion, scope: Scope)
    requires DeletionKnows(db, other) && other.scope != scope
    requires StreamOf(after, other.scope) == StreamOf(db, other.scope)
    requires forall r :: r in after.receipts ==> r in db.receipts || r.scope == scope
    ensures DeletionKnows(after, other)
  {
  }

  lemma ConfirmedDeletionsHold(s: System, t: System, id: nat, receipt: DeletionReceipt)
    requires DeletionsHold(s) && id in s.deletions && s.deletions[id].pc == Deleting(receipt)
    requires t.deletions == s.deletions[id := s.deletions[id].(pc := Confirming(receipt))]
    requires forall scope :: scope != s.deletions[id].scope ==> StreamOf(t.db, scope) == StreamOf(s.db, scope)
    requires t.db.replays == s.db.replays
    requires || (t.db.receipts == s.db.receipts && t.removed == s.removed)
             || (t.db.receipts == s.db.receipts + {receipt} && t.removed == s.removed[receipt := receipt.eventDigest])
    ensures DeletionsHold(t)
  {
    assert DeletionKnows(s.db, s.deletions[id]);
    forall other | other in t.deletions ensures DeletionKnows(t.db, t.deletions[other]) {
      assert DeletionKnows(s.db, s.deletions[other]);
      if other != id && !s.deletions[other].pc.Ended? {
        OthersKnow(s.db, t.db, s.deletions[other], s.deletions[id].scope);
      }
    }
  }

  lemma DeletingKeepsDeletions(s: System, id: nat)
    requires Sound(s.db) && DeletionsHold(s) && Enabled(s, AdvanceDeletion(id)) && s.deletions[id].pc.Deleting?
    ensures DeletionsHold(Perform(s, AdvanceDeletion(id)))
  {
    DeletingStep(s, id);
    ConfirmedDeletionsHold(s, Perform(s, AdvanceDeletion(id)), id, s.deletions[id].pc.receipt);
  }

  lemma DeletionKeepsDeletions(s: System, id: nat)
    requires Invariant(s) && DeletionsHold(s) && Enabled(s, AdvanceDeletion(id))
    ensures DeletionsHold(Perform(s, AdvanceDeletion(id)))
  {
    if s.deletions[id].pc.Deleting? {
      DeletingKeepsDeletions(s, id);
    } else {
      var d := s.deletions[id];
      ReadingStepKnows(s.db, d, EpochOf(s, d.scope));
      var next := DeletionStep(s.db, d, EpochOf(s, d.scope)).1;
      assert Perform(s, AdvanceDeletion(id)) == s.(deletions := s.deletions[id := next]);
    }
  }

  lemma ClearKeepsDeletions(s: System, scope: Scope)
    requires DeletionsHold(s) && !InFlight(s, scope)
    ensures DeletionsHold(Perform(s, ClearStream(scope)))
  {
    var t := Perform(s, ClearStream(scope));
    forall id | id in t.deletions ensures DeletionKnows(t.db, t.deletions[id]) {
      var d := s.deletions[id];
      if !d.pc.Ended? {
        WithoutSplitsStreams(s.db.rows, scope, d.scope);
      }
    }
  }

  lemma ReplayKeepsDeletions(s: System, replay: DeletionReplay)
    requires Sound(s.db) && DeletionsHold(s) && !InFlight(s, replay.receipt.scope)
    ensures DeletionsHold(Perform(s, ReplayDeletion(replay)))
  {
    var t := Perform(s, ReplayDeletion(replay));
    ReplayBatchEffect(s.db, replay);
    if t.db != s.db {
      forall id | id in t.deletions ensures DeletionKnows(t.db, t.deletions[id]) {
        assert DeletionKnows(s.db, s.deletions[id]);
        if !s.deletions[id].pc.Ended? { OthersKnow(s.db, t.db, s.deletions[id], replay.receipt.scope); }
      }
      forall r | r in t.db.receipts ensures CameWithAReplay(t.db, r) || OwnReceiptCovers(t, r) {
        if r in s.db.receipts && CameWithAReplay(s.db, r) {
          var p :| p in s.db.replays && p.receipt == r;
          assert p in t.db.replays;
        }
      }
    }
  }

  lemma {:induction false} RunsKeepDeletions(states: seq<System>, actions: seq<Action>, i: nat)
    requires SingleDeletionRun(states, actions) && i < |states|
    ensures Invariant(states[i]) && DeletionsHold(states[i])
  {
    RunsKeepInvariant(states, actions, i);
    if i > 0 {
      RunsKeepDeletions(states, actions, i - 1);
      var s, a := states[i - 1], actions[i - 1];
      match a
      case Begin(_, _) =>
      case Advance(id) => AdvanceKeepsDeletions(s, id);
      case BeginDeletion(id, scope, _, _) =>
      case AdvanceDeletion(id) => DeletionKeepsDeletions(s, id);
      case ClearStream(scope) => ClearKeepsDeletions(s, scope);
      case ReplayDeletion(replay) => ReplayKeepsDeletions(s, replay);
      case SkipSequence(_) =>
    }
  }

  // All or nothing, while appends interleave: with one deletion in flight per learner, every stored receipt
  // covers exactly the events its batch removed, and a batch that stores no receipt changes nothing.
  lemma VerifiedDeletionIsAllOrNothing(states: seq<System>, actions: seq<Action>, i: nat)
    requires SingleDeletionRun(states, actions) && i < |actions|
    requires actions[i].AdvanceDeletion? && states[i].deletions[actions[i].id].pc.Deleting?
    ensures ReceiptsCover(states[i + 1])
    ensures var d := states[i].deletions[actions[i].id];
            var before := StreamOf(states[i].db, d.scope);
            && (d.pc.receipt in states[i + 1].db.receipts ==>
                  d.pc.receipt.eventDigest == before && d.pc.receipt.eventCount == |before|
                  && StreamOf(states[i + 1].db, d.scope) == [])
            && (d.pc.receipt !in states[i + 1].db.receipts ==> states[i + 1].db == states[i].db)
  {
    RunsKeepDeletions(states, actions, i);
    RunsKeepDeletions(states, actions, i + 1);
    DeletingStep(states[i], actions[i].id);
  }

  lemma StepKeepsReceipts(s: System, a: Action)
    requires Enabled(s, a)
    ensures s.db.receipts <= Perform(s, a).db.receipts
  {
    if a.Advance? {
      var call := s.calls[a.id];
      CallsKeepReceipts(s.db, call, EpochOf(s, call.c.scope), s.supply);
    }
  }

  lemma RunStepKeepsReceipts(states: seq<System>, actions: seq<Action>, i: nat)
    requires IsRun(states, actions) && i < |actions|
    ensures states[i].db.receipts <= states[i + 1].db.receipts
  {
    StepKeepsReceipts(states[i], actions[i]);
  }

  lemma ReceiptsAreKept(states: seq<System>, actions: seq<Action>, i: nat, j: nat)
    requires IsRun(states, actions) && i <= j < |states|
    ensures states[i].db.receipts <= states[j].db.receipts
  {
    var stored := seq(|states|, k requires 0 <= k < |states| => states[k].db.receipts);
    forall k | 0 <= k < |stored| - 1 ensures stored[k] <= stored[k + 1] {
      RunStepKeepsReceipts(states, actions, k);
    }
    Sequences.NeighboursChain(stored, (a: set<DeletionReceipt>, b: set<DeletionReceipt>) => a <= b, i, j);
  }

  // A retry of the operation key, at any later moment of any run, returns the first receipt and removes nothing.
  lemma RetryReturnsTheFirstReceipt(states: seq<System>, actions: seq<Action>, i: nat, j: nat, id: nat,
                                    first: DeletionReceipt)
    requires IsRun(states, actions) && i <= j < |states| && first in states[i].db.receipts
    requires id in states[j].deletions && states[j].deletions[id].pc == Seeking
    requires states[j].deletions[id].scope == first.scope && states[j].deletions[id].operationKey == first.operationKey
    ensures Enabled(states[j], AdvanceDeletion(id))
    ensures var t := Perform(states[j], AdvanceDeletion(id));
            t.db == states[j].db && t.deletions[id].pc == Ended(Ok(first))
  {
    RunsKeepInvariant(states, actions, j);
    ReceiptsAreKept(states, actions, i, j);
    var found := FindReceipt(states[j].db.receipts, first.scope, first.operationKey);
    assert SameOperation(found.value, first);
  }

  // Reaching states by explicit actions.

  ghost predicate Reachable(s: System) {
    exists states, actions :: IsRun(states, actions) && states[|states| - 1] == s
  }

  lemma StartIsReachable()
    ensures Reachable(INITIAL)
  {
    assert IsRun([INITIAL], []);
  }

  lemma StepReaches(s: System, a: Action)
    requires Reachable(s) && Enabled(s, a)
    ensures Reachable(Perform(s, a))
  {
    var states, actions :| IsRun(states, actions) && states[|states| - 1] == s;
    var longer, more := states + [Perform(s, a)], actions + [a];
    forall i | 0 <= i < |more|
      ensures Enabled(longer[i], more[i]) && longer[i + 1] == Perform(longer[i], more[i])
    {
      if i < |actions| {
        assert longer[i] == states[i] && longer[i + 1] == states[i + 1];
      }
    }
    assert IsRun(longer, more);
  }

  lemma ReachableTables(s: System)
    requires Reachable(s)
    ensures Sound(s.db) && EngineRows(s.db)
    ensures forall id :: id in s.calls ==> Tokened(s.calls[id]) && EngineBuilt(s.calls[id].c)
    ensures forall id :: id in s.calls && s.calls[id].pc.Batching? ==>
              s.calls[id].token.Some? && FreshToken(s.db, s.calls[id].token.value)
  {
    var states, actions :| IsRun(states, actions) && states[|states| - 1] == s;
    RunsKeepInvariant(states, actions, |states| - 1);
    forall id | id in s.calls
      ensures Tokened(s.calls[id]) && EngineBuilt(s.calls[id].c)
              && (s.calls[id].pc.Batching? ==> FreshToken(s.db, s.calls[id].token.value))
    {
      assert CallHolds(s.db, EpochOf(s, s.calls[id].c.scope), s.supply, s.calls[id]);
    }
  }

  // One step of a call that is not at its batch.
  lemma Quiet(s: System, id: nat, next: Call) returns (t: System)
    requires Reachable(s) && id in s.calls && Tokened(s.calls[id])
    requires CallStep(s.db, s.calls[id], EpochOf(s, s.calls[id].c.scope), s.supply) == (s.db, next)
    ensures Reachable(t) && t == s.(calls := s.calls[id := next], supply := s.supply + 1)
  {
    StepReaches(s, Advance(id));
    t := Perform(s, Advance(id));
  }

  lemma ListThenFind(db: Database, call: Call, now: nat, supply: Token)
    requires Sound(db) && EngineRows(db) && call.pc.Listing?
    requires FindRow(db.rows, call.c.scope, call.c.key).None? && Guard(StreamOf(db, call.c.scope), call.c).Ok?
    ensures var listed := call.(listed := StreamOf(db, call.c.scope), epoch := now, pc := Finding(true));
            && ListStep(db, call, now) == listed
            && FindStep(db, listed, supply) == listed.(pc := Batching(true), token := Some(supply))
  {
    SoundListing(db, call.c.scope);
    KeyLookup(db, call.c.scope, call.c.key);
    FindByKeyMeaning(StreamOf(db, call.c.scope), call.c.key);
  }

  // A call that begins, lists and looks its key up stands before its batch.
  lemma Prepare(s: System, id: nat, c: Candidate) returns (t: System)
    requires Reachable(s) && id !in s.calls && EngineBuilt(c)
    requires FindRow(s.db.rows, c.scope, c.key).None? && Guard(StreamOf(s.db, c.scope), c).Ok?
    ensures Reachable(t) && t.db == s.db && t.deletions == s.deletions
    ensures t.calls.Keys == s.calls.Keys + {id} && forall other :: other in s.calls ==> t.calls[other] == s.calls[other]
    ensures t.calls[id].pc == Batching(true) && t.calls[id].c == c && t.calls[id].listed == StreamOf(s.db, c.scope)
  {
    ReachableTables(s);
    StepReaches(s, Begin(id, c));
    var begun := Perform(s, Begin(id, c));
    var call := begun.calls[id];
    var now := EpochOf(s, c.scope);
    ListThenFind(s.db, call, now, begun.supply + 1);
    var listed := ListStep(s.db, call, now);
    var t1 := Quiet(begun, id, listed);
    t := Quiet(t1, id, FindStep(s.db, listed, begun.supply + 1));
  }

  predicate WithoutEvidence(c: Candidate) {
    AttemptOf(c).None? && CorrectionOf(c).None?
  }

  lemma CommitBatch(db: Database, call: Call)
    requires Sound(db) && EngineRows(db) && EngineBuilt(call.c) && WithoutEvidence(call.c)
    requires call.pc.Batching? && call.token.Some? && FreshToken(db, call.token.value)
    requires |call.listed| == |StreamOf(db, call.c.scope)| && FindRow(db.rows, call.c.scope, call.c.key).None?
    ensures var after := BatchStep(db, call).0;
            after.rows == db.rows + [EventRow(Event(db.nextSequence, call.c), call.token.value)]
            && after.receipts == db.receipts
  {
    OnlyEvidenceClashes(db, call.c, call.token.value);
    AppendBatchEffect(db, call.c, |call.listed|, call.token.value);
  }

  // One more step commits its event.
  lemma Commit(s: System, id: nat) returns (t: System)
    requires Reachable(s) && id in s.calls && s.calls[id].pc.Batching? && WithoutEvidence(s.calls[id].c)
    requires |s.calls[id].listed| == |StreamOf(s.db, s.calls[id].c.scope)|
    requires FindRow(s.db.rows, s.calls[id].c.scope, s.calls[id].c.key).None?
    ensures Reachable(t) && t.deletions == s.deletions && t.db.receipts == s.db.receipts
    ensures |t.db.rows| == |s.db.rows| + 1 && s.db.rows <= t.db.rows
    ensures t.db.rows[|s.db.rows|].event == Event(s.db.nextSequence, s.calls[id].c)
    ensures t.calls.Keys == s.calls.Keys && forall other :: other in s.calls && other != id ==> t.calls[other] == s.calls[other]
  {
    ReachableTables(s);
    CommitBatch(s.db, s.calls[id]);
    StepReaches(s, Advance(id));
    t := Perform(s, Advance(id));
    assert t.db == BatchStep(s.db, s.calls[id]).0;
  }

  const HERE := Scope(0, 0)

  function Sample(key: Id, payload: Payload): Candidate {
    Candidate(EventId(HERE, key), HERE, key, V1_1, 0, key, 0, 0, Actor(LearnerActor, Some(0)), payload)
  }

  const ENROLL_A := Sample(1, PathEnrolled(1, 0, [10], BadgeDefinition(0, 0, 0)))
  const VISIT_A := Sample(2, ModuleVisited(1, 10))
  const ENROLL_B := Sample(3, PathEnrolled(2, 0, [20], BadgeDefinition(0, 0, 0)))

  lemma EnrollGuard(c: Candidate)
    requires ValidBody(c) && c.payload.PathEnrolled?
    ensures Guard([], c).Ok?
  {
    var log := [Event(1, c)];
    assert [] + [Event(MaxSequence([]) + 1, c)] == log;
    AscendingLogsAreSorted(log);
    assert ReplayFrom(EMPTY_REPLAY, log, c.scope) == Step(EMPTY_REPLAY, log[0], c.scope);
  }

  // A visit replays after an enrollment exactly when it names a module of that enrollment.
  lemma VisitAfterEnrollment(enroll: Candidate, visit: Candidate, m: int, n: int)
    requires ValidBody(enroll) && ValidBody(visit) && 1 <= m < n && enroll.scope == visit.scope
    requires enroll.payload.PathEnrolled? && visit.payload.ModuleVisited?
    ensures Replays([Event(m, enroll), Event(n, visit)], enroll.scope)
       <==> enroll.payload.pathId == visit.payload.pathId && enroll.contentVersion == visit.contentVersion
            && visit.payload.moduleId in enroll.payload.moduleIds
  {
    var first, second := Event(m, enroll), Event(n, visit);
    ProjectionTheory.ReplaySnoc(EMPTY_REPLAY, [first], second, enroll.scope);
    ProjectionTheory.ReplaySnoc(EMPTY_REPLAY, [], first, enroll.scope);
    assert [] + [first] == [first] && [first] + [second] == [first, second];
  }

  lemma VisitGuard(n: int)
    requires 1 <= n
    ensures Guard([Event(n, ENROLL_A)], VISIT_A).Ok?
  {
    var log := [Event(n, ENROLL_A), Event(n + 1, VISIT_A)];
    assert MaxSequence([Event(n, ENROLL_A)]) == n;
    assert [Event(n, ENROLL_A)] + [Event(n + 1, VISIT_A)] == log;
    AscendingLogsAreSorted(log);
    VisitAfterEnrollment(ENROLL_A, VISIT_A, n, n + 1);
  }

  // A table with the one row of body c.
  ghost predicate OneRow(db: Database, c: Candidate) {
    |db.rows| == 1 && db.rows[0].event.body == c
  }

  lemma OneRowQueries(db: Database, c: Candidate, key: Id)
    requires OneRow(db, c)
    ensures StreamOf(db, c.scope) == [db.rows[0].event] && Without(db.rows, c.scope) == []
    ensures key != c.key ==> FindRow(db.rows, c.scope, key).None?
  {
    assert db.rows == [] + [db.rows[0]] && db.rows[..0] == [] && db.rows[1..] == [];
    StreamAppend([], db.rows[0], c.scope);
  }

  lemma FirstEnrollment(s: System, id: nat, c: Candidate) returns (t: System)
    requires Reachable(s) && id !in s.calls && s.db.rows == []
    requires EngineBuilt(c) && c.payload.PathEnrolled?
    ensures Reachable(t) && OneRow(t.db, c) && t.calls.Keys == s.calls.Keys + {id}
    ensures t.deletions == s.deletions && t.db.receipts == s.db.receipts
    ensures forall other :: other in s.calls ==> t.calls[other] == s.calls[other]
  {
    EnrollGuard(c);
    var prepared := Prepare(s, id, c);
    t := Commit(prepared, id);
  }

  lemma ListedVisit() returns (s: System)
    ensures Reachable(s) && s.calls.Keys == {0, 1} && OneRow(s.db, ENROLL_A)
    ensures s.calls[1].pc == Batching(true) && s.calls[1].c == VISIT_A && |s.calls[1].listed| == 1
  {
    StartIsReachable();
    var enrolled := FirstEnrollment(INITIAL, 0, ENROLL_A);
    OneRowQueries(enrolled.db, ENROLL_A, VISIT_A.key);
    ReachableTables(enrolled);
    VisitGuard(enrolled.db.rows[0].event.sequence);
    assert StreamOf(enrolled.db, HERE) == [Event(enrolled.db.rows[0].event.sequence, ENROLL_A)];
    s := Prepare(enrolled, 1, VISIT_A);
  }

  lemma ClearAndRefill(s: System) returns (t: System)
    requires Reachable(s) && s.calls.Keys == {0, 1} && OneRow(s.db, ENROLL_A)
    ensures Reachable(t) && 1 in t.calls && t.calls[1] == s.calls[1] && OneRow(t.db, ENROLL_B)
  {
    StepReaches(s, ClearStream(HERE));
    OneRowQueries(s.db, ENROLL_A, 0);
    t := FirstEnrollment(Perform(s, ClearStream(HERE)), 2, ENROLL_B);
  }

  // Why the runs above must not clear a stream between a listing and its append: a deletion and a refill bring
  // the revision back to the listed one, and an event that was checked against the old log is committed to the new.
  lemma ClearedAndRefilledStreamBreaksReplay()
    ensures exists s :: Reachable(s) && !Replays(StreamOf(s.db, HERE), HERE)
  {
    var listed := ListedVisit();
    var refilled := ClearAndRefill(listed);
    OneRowQueries(refilled.db, ENROLL_B, VISIT_A.key);
    ReachableTables(refilled);
    var broken := Commit(refilled, 1);
    var first, last := refilled.db.rows[0], broken.db.rows[1];
    assert broken.db.rows == refilled.db.rows + [last];
    StreamAppend(refilled.db.rows, last, HERE);
    assert StreamOf(broken.db, HERE) == [first.event, last.event];
    VisitAfterEnrollment(ENROLL_B, VISIT_A, first.event.sequence, last.event.sequence);
  }

  lemma FirstDeletion() returns (s: System)
    ensures Reachable(s) && s.calls == map[] && s.db.rows == [] && s.db.receipts == {ReceiptFor(HERE, [], 7, 0)}
    ensures 1 in s.deletions && s.deletions[1].pc == Deleting(ReceiptFor(HERE, [], 7, 0)) && s.deletions[1].scope == HERE
  {
    StartIsReachable();
    StepReaches(INITIAL, BeginDeletion(0, HERE, 7, 0));
    var s1 := Perform(INITIAL, BeginDeletion(0, HERE, 7, 0));
    StepReaches(s1, BeginDeletion(1, HERE, 7, 0));
    var s2 := Perform(s1, BeginDeletion(1, HERE, 7, 0));
    var s3 := SeekAndRead(s2, 0);
    var s4 := SeekAndRead(s3, 1);
    ReachableTables(s4);
    StepReaches(s4, AdvanceDeletion(0));
    s := Perform(s4, AdvanceDeletion(0));
  }

  lemma SeekAndRead(s: System, id: nat) returns (t: System)
    requires Reachable(s) && s.db.receipts == {}
    requires id in s.deletions && s.deletions[id].pc == Seeking && s.deletions[id].scope == HERE
    ensures Reachable(t) && t.db == s.db && t.calls == s.calls && t.deletions.Keys == s.deletions.Keys
    ensures forall other :: other in s.deletions && other != id ==> t.deletions[other] == s.deletions[other]
    ensures var d := s.deletions[id];
            t.deletions[id].pc == Deleting(ReceiptFor(HERE, StreamOf(s.db, HERE), d.operationKey, d.deletedAt))
            && t.deletions[id].scope == HERE
  {
    ReachableTables(s);
    SoundListing(s.db, HERE);
    StepReaches(s, AdvanceDeletion(id));
    var read := Perform(s, AdvanceDeletion(id));
    assert read == s.(deletions := s.deletions[id := s.deletions[id].(pc := Reading)]);
    StepReaches(read, AdvanceDeletion(id));
    t := Perform(read, AdvanceDeletion(id));
  }

  // Why one deletion at a time: two deletions that build the same receipt can remove an event no receipt covers.
  lemma TwoDeletionsCanLoseAnEvent()
    ensures exists s ::
              && Reachable(s) && Enabled(s, AdvanceDeletion(1)) && |StreamOf(s.db, HERE)| == 1
              && StreamOf(Perform(s, AdvanceDeletion(1)).db, HERE) == []
              && forall r :: r in Perform(s, AdvanceDeletion(1)).db.receipts ==> r.eventCount == 0
  {
    var deleted := FirstDeletion();
    var s := FirstEnrollment(deleted, 0, ENROLL_A);
    OneRowQueries(s.db, ENROLL_A, 0);
    ReachableTables(s);
    StoredReceiptClearsAnything(s.db, ReceiptFor(HERE, [], 7, 0));
  }
}
