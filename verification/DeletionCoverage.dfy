/** When a verified deletion removes just what its receipt covers, for any number of deletions in flight. */
module DeletionCoverage {
  import opened Wrappers
  import opened LearningEvents
  import opened EventTables
  import opened RecordReceipts
  import opened SqlStore
  import opened StoreRefinement
  import opened AppendProtocol
  import opened AppendInvariants
  import opened AppendTheorems
  import opened DeletionTheorems

  // A step leaves a stream as a beginning of itself, or it starts a new epoch for it.
  ghost predicate GrowsOrClears(s: System, t: System, scope: Scope) {
    || (EpochOf(t, scope) == EpochOf(s, scope) && StreamOf(s.db, scope) <= StreamOf(t.db, scope))
    || (EpochOf(t, scope) == EpochOf(s, scope) + 1 && StreamOf(t.db, scope) == [])
  }

  lemma ClearingClears(s: System, t: System, cleared: Scope, scope: Scope)
    requires t.db.rows == Without(s.db.rows, cleared) && t.epochs == Bumped(s, cleared)
    ensures GrowsOrClears(s, t, scope)
  {
    WithoutSplitsStreams(s.db.rows, cleared, scope);
  }

  lemma SameRowsGrow(s: System, t: System, scope: Scope)
    requires t.db.rows == s.db.rows && t.epochs == s.epochs
    ensures GrowsOrClears(s, t, scope)
  {
  }

  lemma DeletingGrowsOrClears(s: System, id: nat, scope: Scope)
    requires Sound(s.db) && Enabled(s, AdvanceDeletion(id))
    ensures GrowsOrClears(s, Perform(s, AdvanceDeletion(id)), scope)
  {
    var t, d := Perform(s, AdvanceDeletion(id)), s.deletions[id];
    if d.pc.Deleting? {
      DeleteVerifiedShape(s.db, d.pc.receipt);
      if d.pc.receipt in t.db.receipts {
        ClearingClears(s, t, d.pc.receipt.scope, scope);
      } else {
        SameRowsGrow(s, t, scope);
      }
    } else {
      SameRowsGrow(s, t, scope);
    }
  }

  lemma CallGrows(s: System, id: nat, scope: Scope)
    requires Invariant(s) && Enabled(s, Advance(id))
    ensures GrowsOrClears(s, Perform(s, Advance(id)), scope)
  {
    var call := s.calls[id];
    CallStepHolds(s.db, call, EpochOf(s, call.c.scope), s.supply);
    assert Grown(s.db, Perform(s, Advance(id)).db, scope);
  }

  lemma ReplayGrowsOrClears(s: System, replay: DeletionReplay, scope: Scope)
    requires Sound(s.db)
    ensures GrowsOrClears(s, Perform(s, ReplayDeletion(replay)), scope)
  {
    ReplayBatchEffect(s.db, replay);
    var t := Perform(s, ReplayDeletion(replay));
    if t.epochs == s.epochs {
      SameRowsGrow(s, t, scope);
    } else {
      ClearingClears(s, t, replay.receipt.scope, scope);
    }
  }

  lemma StepGrowsOrClears(s: System, a: Action, scope: Scope)
    requires Invariant(s) && Enabled(s, a)
    ensures GrowsOrClears(s, Perform(s, a), scope)
  {
    match a
    case Advance(id) => CallGrows(s, id, scope);
    case AdvanceDeletion(id) => DeletingGrowsOrClears(s, id, scope);
    case ClearStream(cleared) => ClearingClears(s, Perform(s, a), cleared, scope);
    case ReplayDeletion(replay) => ReplayGrowsOrClears(s, replay, scope);
    case _ => SameRowsGrow(s, Perform(s, a), scope);
  }

  // The receipt a deletion is about to store covers what it read, and while the stream has not been cleared
  // since, that is a beginning of the stream.
  ghost predicate ReadingHolds(s: System, d: Deletion) {
    d.pc.Deleting? ==>
      && d.pc.receipt.scope == d.scope && d.pc.receipt.eventCount == |d.pc.receipt.eventDigest|
      && d.epoch <= EpochOf(s, d.scope)
      && (d.epoch == EpochOf(s, d.scope) ==> d.pc.receipt.eventDigest <= StreamOf(s.db, d.scope))
  }

  lemma ReadingSurvives(s: System, t: System, d: Deletion)
    requires ReadingHolds(s, d) && GrowsOrClears(s, t, d.scope)
    ensures ReadingHolds(t, d)
  {
  }

  lemma ReadingStep(db: Database, d: Deletion, now: nat)
    requires Sound(db) && EngineRows(db)
    ensures var (after, next) := DeletionStep(db, d, now);
      next.pc.Deleting? ==>
        && d.pc.Reading? && after == db && next.scope == d.scope && next.epoch == now
        && next.pc.receipt == ReceiptFor(d.scope, StreamOf(db, d.scope), d.operationKey, d.deletedAt)
  {
    SoundListing(db, d.scope);
  }

  lemma ReadStepHolds(s: System, id: nat)
    requires Sound(s.db) && EngineRows(s.db) && Enabled(s, AdvanceDeletion(id))
    ensures ReadingHolds(Perform(s, AdvanceDeletion(id)), Perform(s, AdvanceDeletion(id)).deletions[id])
  {
    var d, t := s.deletions[id], Perform(s, AdvanceDeletion(id));
    var now := EpochOf(s, d.scope);
    ReadingStep(s.db, d, now);
    var (after, next) := DeletionStep(s.db, d, now);
    assert t.deletions[id] == next && t.db == after;
    if next.pc.Deleting? { assert t.epochs == s.epochs; }
  }

  lemma StepKeepsReadings(s: System, a: Action)
    requires Invariant(s) && Enabled(s, a)
    requires forall id :: id in s.deletions ==> ReadingHolds(s, s.deletions[id])
    ensures forall id :: id in Perform(s, a).deletions ==> ReadingHolds(Perform(s, a), Perform(s, a).deletions[id])
  {
    var t := Perform(s, a);
    forall id | id in t.deletions ensures ReadingHolds(t, t.deletions[id]) {
      if a.AdvanceDeletion? && a.id == id {
        ReadStepHolds(s, id);
      } else if id in s.deletions {
        StepGrowsOrClears(s, a, s.deletions[id].scope);
        ReadingSurvives(s, t, s.deletions[id]);
      }
    }
  }

  lemma {:induction false} RunsKeepReadings(states: seq<System>, actions: seq<Action>, i: nat)
    requires IsRun(states, actions) && i < |states|
    ensures Invariant(states[i]) && forall id :: id in states[i].deletions ==> ReadingHolds(states[i], states[i].deletions[id])
  {
    RunsKeepInvariant(states, actions, i);
    if i > 0 {
      RunsKeepReadings(states, actions, i - 1);
      StepKeepsReadings(states[i - 1], actions[i - 1]);
    }
  }

  // In every run, with any number of deletions of any kind in flight: the batch of a verified deletion removes
  // just what its receipt covers, or changes nothing, exactly if an equal receipt is stored already and the
  // stream is empty or the covered one, or the receipt is new and the count differs, the operation is taken or
  // the stream is the covered one. For a new receipt and a stream not cleared since the reading it always is.
  lemma DeletionCoversExactly(states: seq<System>, actions: seq<Action>, i: nat)
    requires IsRun(states, actions) && i < |actions|
    requires actions[i].AdvanceDeletion? && states[i].deletions[actions[i].id].pc.Deleting?
    ensures var db := states[i].db; var d := states[i].deletions[actions[i].id]; var receipt := d.pc.receipt;
      var stream := StreamOf(db, d.scope);
      && states[i + 1].db == DeleteVerifiedBatch(db, receipt) && receipt.scope == d.scope
      && (RemovalIsCovered(db, receipt) <==>
            if receipt in db.receipts then stream == [] || stream == receipt.eventDigest
            else |stream| != |receipt.eventDigest| || OperationTaken(db, receipt) || stream == receipt.eventDigest)
      && (receipt !in db.receipts && d.epoch == EpochOf(states[i], d.scope) ==> RemovalIsCovered(db, receipt))
  {
    RunsKeepReadings(states, actions, i);
    assert ReadingHolds(states[i], states[i].deletions[actions[i].id]);
    RemovalIsCoveredExactly(states[i].db, states[i].deletions[actions[i].id].pc.receipt);
  }

  // A deletion works on a receipt of its own scope and operation.
  predicate KnowsItsReceipt(d: Deletion) {
    && (d.pc.Deleting? ==> d.pc.receipt.scope == d.scope && d.pc.receipt.operationKey == d.operationKey)
    && (d.pc.Confirming? ==> d.pc.receipt.scope == d.scope && d.pc.receipt.operationKey == d.operationKey)
  }

  lemma StepKnowsItsReceipt(s: System, a: Action)
    requires Enabled(s, a) && forall id :: id in s.deletions ==> KnowsItsReceipt(s.deletions[id])
    ensures forall id :: id in Perform(s, a).deletions ==> KnowsItsReceipt(Perform(s, a).deletions[id])
  {
    if a.AdvanceDeletion? { assert KnowsItsReceipt(s.deletions[a.id]); }
  }

  lemma {:induction false} RunsKnowTheirReceipts(states: seq<System>, actions: seq<Action>, i: nat)
    requires IsRun(states, actions) && i < |states|
    ensures forall id :: id in states[i].deletions ==> KnowsItsReceipt(states[i].deletions[id])
  {
    if i > 0 {
      RunsKnowTheirReceipts(states, actions, i - 1);
      StepKnowsItsReceipt(states[i - 1], actions[i - 1]);
    }
  }

  lemma EndingStep(db: Database, d: Deletion, now: nat)
    requires Sound(db) && EngineRows(db) && KnowsItsReceipt(d) && !d.pc.Ended? && DeletionStep(db, d, now).1.pc.Ended?
    ensures match DeletionStep(db, d, now).1.pc.result
      case Ok(r) => r in db.receipts && r.scope == d.scope && r.operationKey == d.operationKey
      case Err(code) => d.pc.Confirming? && d.pc.receipt !in db.receipts
                        && code == if OperationUsed(db, d.scope, d.operationKey) then IdempotencyConflict else ConcurrencyConflict
    ensures d.pc.Confirming? && d.pc.receipt in db.receipts ==> DeletionStep(db, d, now).1.pc.result == Ok(d.pc.receipt)
  {
    SoundListing(db, d.scope);
    if d.pc.Confirming? && d.pc.receipt in db.receipts {
      assert OperationUsed(db, d.scope, d.operationKey);
      var stored := FindReceipt(db.receipts, d.scope, d.operationKey).value;
      assert SameOperation(stored, d.pc.receipt);
    }
  }

  // In every run: a verified deletion ends with a receipt exactly of its learner and operation that is stored, its own
  // if that is, and otherwise, once its batch has run, with the error that fits what is stored.
  lemma DeletionEndsExactly(states: seq<System>, actions: seq<Action>, i: nat, id: nat)
    requires IsRun(states, actions) && i < |actions| && actions[i] == AdvanceDeletion(id) && id in states[i].deletions
    requires !states[i].deletions[id].pc.Ended? && id in states[i + 1].deletions && states[i + 1].deletions[id].pc.Ended?
    ensures var db, d := states[i].db, states[i].deletions[id];
      match states[i + 1].deletions[id].pc.result
      case Ok(r) =>
        && r in states[i + 1].db.receipts && r.scope == d.scope && r.operationKey == d.operationKey
        && (d.pc.Confirming? && d.pc.receipt in db.receipts ==> r == d.pc.receipt)
      case Err(code) =>
        && d.pc.Confirming? && d.pc.receipt !in db.receipts
        && code == if OperationUsed(db, d.scope, d.operationKey) then IdempotencyConflict else ConcurrencyConflict
  {
    RunsKeepInvariant(states, actions, i);
    RunsKnowTheirReceipts(states, actions, i);
    var s, d := states[i], states[i].deletions[id];
    assert KnowsItsReceipt(d);
    EndingStep(s.db, d, EpochOf(s, d.scope));
    assert states[i + 1].deletions[id] == DeletionStep(s.db, d, EpochOf(s, d.scope)).1;
    assert d.pc.Seeking? || d.pc.Confirming? ==> states[i + 1].db == s.db;
  }

  // One that runs alone stores a new receipt for all of the stream, or returns the one its operation has.
  lemma DeletionAloneExactly(db: Database, d: Deletion, now: nat)
    requires Sound(db) && d.pc.Seeking? && ListsCleanly(db, d.scope)
    ensures var seeking := DeletionStep(db, d, now);
      if OperationUsed(db, d.scope, d.operationKey) then
        && seeking.0 == db && seeking.1.pc.Ended? && seeking.1.pc.result.Ok?
        && (var r := seeking.1.pc.result.value; r in db.receipts && r.scope == d.scope && r.operationKey == d.operationKey)
      else
        var reading := DeletionStep(db, seeking.1, now);
        var deleting := DeletionStep(db, reading.1, now);
        var receipt := ReceiptFor(d.scope, StreamOf(db, d.scope), d.operationKey, d.deletedAt);
        && seeking.0 == db && reading.0 == db && Sound(deleting.0) && deleting.0.receipts == db.receipts + {receipt}
        && DeletionStep(deleting.0, deleting.1, now) == (deleting.0, deleting.1.(pc := Ended(Ok(receipt))))
        && forall s :: StreamOf(deleting.0, s) == if s == d.scope then [] else StreamOf(db, s)
  {
    if !OperationUsed(db, d.scope, d.operationKey) {
      AloneTheReceiptIsStored(db, d.scope, d.operationKey, d.deletedAt);
      DeleteVerifiedIsAllOrNothing(db, ReceiptFor(d.scope, StreamOf(db, d.scope), d.operationKey, d.deletedAt));
    }
  }

  // An enrollment is read, the stream is deleted and filled with another one.
  lemma ReadThenRefilled() returns (s: System, receipt: DeletionReceipt)
    ensures Reachable(s) && OneRow(s.db, ENROLL_B) && s.db.receipts == {} && 0 in s.deletions
    ensures s.deletions[0].pc == Deleting(receipt) && s.deletions[0].scope == HERE
    ensures |receipt.eventDigest| == 1 && receipt.eventDigest[0].body == ENROLL_A
    ensures receipt == ReceiptFor(HERE, receipt.eventDigest, 7, 0)
  {
    StartIsReachable();
    var enrolled := FirstEnrollment(INITIAL, 0, ENROLL_A);
    OneRowQueries(enrolled.db, ENROLL_A, 0);
    StepReaches(enrolled, BeginDeletion(0, HERE, 7, 0));
    var read := SeekAndRead(Perform(enrolled, BeginDeletion(0, HERE, 7, 0)), 0);
    receipt := read.deletions[0].pc.receipt;
    StepReaches(read, ClearStream(HERE));
    s := FirstEnrollment(Perform(read, ClearStream(HERE)), 1, ENROLL_B);
  }

  // One verified deletion is enough for the condition to fail: a plain deletion and a refill to the same count
  // between its reading and its batch leave a stored receipt that covers other events than those removed.
  lemma RefilledStreamIsRemovedUncovered()
    ensures exists s, receipt ::
              && Reachable(s) && Enabled(s, AdvanceDeletion(0)) && s.deletions[0].pc == Deleting(receipt)
              && receipt !in s.db.receipts && !RemovalIsCovered(s.db, receipt)
              && receipt in Perform(s, AdvanceDeletion(0)).db.receipts
              && StreamOf(s.db, HERE) != receipt.eventDigest && StreamOf(Perform(s, AdvanceDeletion(0)).db, HERE) == []
  {
    var s, receipt := ReadThenRefilled();
    OneRowQueries(s.db, ENROLL_B, 0);
    ReachableTables(s);
    assert StreamOf(s.db, HERE)[0].body == ENROLL_B;
    RemovalIsCoveredExactly(s.db, receipt);
    DeleteVerifiedIsAllOrNothing(s.db, receipt);
  }
}
