/** Concurrent execute calls and deletions over one set of tables, as interleaved steps
    (src/learning-event-engine.ts:273-313, 398-440, src/sql-learning-event-store.ts:100-219, 240-509).

    A call lists its stream, replays it with the candidate added, and appends under the listed
    revision, up to five times. Between any two of its steps other calls may take theirs. */
module AppendProtocol {
  import opened Wrappers
  import opened LearningEvents
  import opened Projection
  import opened ProjectionEngine
  import opened EventTables
  import opened RecordReceipts
  import opened MemoryStore
  import opened SqlStore

  const MAX_ATTEMPTS: nat := 5

  datatype Outcome = Succeeded(event: Event, replayed: bool) | Failed(code: ErrorCode)

  // Where a call stands. `guarded` is false when the listed stream already held the key.
  datatype Pc =
    | Listing
    | Finding(guarded: bool)
    | Batching(guarded: bool)
    | ReadingBack(guarded: bool, threw: bool)
    | Explaining(guarded: bool, threw: bool)
    | Reporting(event: Event, replayed: bool)
    | Done(outcome: Outcome)

  // `began` and `born` record the stream and its epoch when the call started, `listed` and `epoch` those of
  // its latest listing, for the sake of the proofs; the call itself uses only |listed|.
  datatype Call = Call(c: Candidate, pc: Pc, attempt: nat, token: Option<Token>,
                       listed: seq<Event>, epoch: nat, began: seq<Event>, born: nat)

  datatype DeletionPc =
    | Seeking
    | Reading
    | Deleting(receipt: DeletionReceipt)
    | Confirming(receipt: DeletionReceipt)
    | Ended(result: Result<DeletionReceipt, ErrorCode>)

  datatype Deletion = Deletion(scope: Scope, operationKey: Id, deletedAt: Time, pc: DeletionPc, epoch: nat)

  // `epochs` counts how often a stream was cleared; `removed` records what each stored receipt's batch removed.
  datatype System = System(
    db: Database, calls: map<nat, Call>, deletions: map<nat, Deletion>, supply: Token,
    epochs: map<Scope, nat>, removed: map<DeletionReceipt, seq<Event>>)

  datatype Action =
    | Begin(id: nat, c: Candidate)
    | Advance(id: nat)
    | BeginDeletion(id: nat, scope: Scope, operationKey: Id, deletedAt: Time)
    | AdvanceDeletion(id: nat)
    | ClearStream(scope: Scope)
    | ReplayDeletion(replay: DeletionReplay)
    | SkipSequence(next: int)

  const INITIAL := System(EMPTY_DATABASE, map[], map[], 0, map[], map[])

  function EpochOf(s: System, scope: Scope): nat {
    if scope in s.epochs then s.epochs[scope] else 0
  }

  // The projection guard: the listed stream with the candidate under a provisional number must replay.
  function Guard(current: seq<Event>, c: Candidate): Result<Replay, ErrorCode> {
    ReplayFrom(EMPTY_REPLAY, SortedEvents(current + [Event(MaxSequence(current) + 1, c)]), c.scope)
  }

  function Retry(call: Call): Call {
    if call.attempt + 1 < MAX_ATTEMPTS then call.(pc := Listing, attempt := call.attempt + 1)
    else call.(pc := Done(Failed(ConcurrencyConflict)), attempt := call.attempt + 1)
  }

  function Settle(call: Call, r: Result<AppendResult, ErrorCode>): Call {
    match r
    case Ok(result) => call.(pc := Reporting(result.event, result.replayed))
    case Err(code) => call.(pc := Done(Failed(code)))
  }

  function ListStep(db: Database, call: Call, now: nat): Call {
    match List(db, call.c.scope)
    case Err(code) => call.(pc := Done(Failed(code)))
    case Ok(current) =>
      var at := call.(listed := current, epoch := now);
      if FindByKey(current, call.c.key).Some? then at.(pc := Finding(false))
      else
        match Guard(current, call.c)
        case Err(code) => at.(pc := Done(Failed(code)))
        case Ok(_) => at.(pc := Finding(true))
  }

  function FindStep(db: Database, call: Call, drawn: Token): Call
    requires call.pc.Finding?
  {
    match Find(db, call.c.scope, call.c.key)
    case Err(code) => call.(pc := Done(Failed(code)))
    case Ok(Some(existing)) => Settle(call, CompareIdempotent(existing, call.c))
    case Ok(None) => call.(pc := Batching(call.pc.guarded), token := Some(drawn))
  }

  function BatchStep(db: Database, call: Call): (Database, Call)
    requires call.pc.Batching? && call.token.Some?
  {
    match AppendBatch(db, call.c, |call.listed|, call.token.value)
    case None => (db, call.(pc := ReadingBack(call.pc.guarded, true)))
    case Some(after) => (after, call.(pc := ReadingBack(call.pc.guarded, false)))
  }

  function ReadBackStep(db: Database, call: Call): Call
    requires call.pc.ReadingBack? && call.token.Some?
  {
    match Find(db, call.c.scope, call.c.key)
    case Err(code) => call.(pc := Done(Failed(code)))
    case Ok(None) => call.(pc := Explaining(call.pc.guarded, call.pc.threw))
    case Ok(Some(stored)) =>
      if call.pc.threw then Settle(call, CompareIdempotent(stored, call.c))
      else if stored.event.body.digest != call.c.digest then call.(pc := Done(Failed(IdempotencyConflict)))
      else call.(pc := Reporting(stored.event, stored.token != call.token.value))
  }

  function ExplainStep(db: Database, call: Call): Call
    requires call.pc.Explaining?
  {
    match DuplicateEvidence(db, call.c)
    case Some(code) => call.(pc := Done(Failed(code)))
    case None =>
      if call.pc.threw then call.(pc := Done(Failed(StorageFailure)))
      else if call.pc.guarded then Retry(call)
      else call.(pc := Done(Failed(ConcurrencyConflict)))
  }

  function ReportStep(db: Database, call: Call): Call
    requires call.pc.Reporting?
  {
    match List(db, call.c.scope)
    case Err(code) => call.(pc := Done(Failed(code)))
    case Ok(events) =>
      match ReplayFrom(EMPTY_REPLAY, SortedEvents(events), call.c.scope)
      case Err(code) => call.(pc := Done(Failed(code)))
      case Ok(_) => call.(pc := Done(Succeeded(call.pc.event, call.pc.replayed)))
  }

  predicate Tokened(call: Call) {
    call.pc.Batching? || call.pc.ReadingBack? ==> call.token.Some?
  }

  // One step of a call. Only the batch changes the tables.
  function CallStep(db: Database, call: Call, now: nat, drawn: Token): (Database, Call)
    requires Tokened(call)
  {
    match call.pc
    case Listing => (db, ListStep(db, call, now))
    case Finding(_) => (db, FindStep(db, call, drawn))
    case Batching(_) => BatchStep(db, call)
    case ReadingBack(_, _) => (db, ReadBackStep(db, call))
    case Explaining(_, _) => (db, ExplainStep(db, call))
    case Reporting(_, _) => (db, ReportStep(db, call))
    case Done(_) => (db, call)
  }

  // One step of a verified deletion, with what it removed from the stream.
  function DeletionStep(db: Database, d: Deletion, now: nat): (Database, Deletion)
    requires Sound(db)
  {
    match d.pc
    case Seeking =>
      (match FindReceipt(db.receipts, d.scope, d.operationKey)
       case Some(existing) => (db, d.(pc := Ended(Ok(existing))))
       case None => (db, d.(pc := Reading)))
    case Reading =>
      (match List(db, d.scope)
       case Err(code) => (db, d.(pc := Ended(Err(code))))
       case Ok(events) =>
         (db, d.(pc := Deleting(ReceiptFor(d.scope, events, d.operationKey, d.deletedAt)), epoch := now)))
    case Deleting(receipt) => (DeleteVerifiedBatch(db, receipt), d.(pc := Confirming(receipt)))
    case Confirming(receipt) =>
      (match FindReceipt(db.receipts, d.scope, d.operationKey)
       case None => (db, d.(pc := Ended(Err(ConcurrencyConflict))))
       case Some(stored) => (db, d.(pc := Ended(if stored != receipt then Err(IdempotencyConflict) else Ok(stored)))))
    case Ended(_) => (db, d)
  }

  ghost predicate Enabled(s: System, a: Action) {
    match a
    case Begin(id, c) => id !in s.calls && EngineBuilt(c)
    case Advance(id) => id in s.calls && Tokened(s.calls[id])
    case BeginDeletion(id, _, _, _) => id !in s.deletions
    case AdvanceDeletion(id) => id in s.deletions && Sound(s.db)
    case ClearStream(_) => true
    case ReplayDeletion(_) => true
    case SkipSequence(next) => s.db.nextSequence <= next
  }

  function Bumped(s: System, scope: Scope): map<Scope, nat> {
    s.epochs[scope := EpochOf(s, scope) + 1]
  }

  ghost function Perform(s: System, a: Action): System
    requires Enabled(s, a)
  {
    match a
    case Begin(id, c) =>
      var now := EpochOf(s, c.scope);
      s.(calls := s.calls[id := Call(c, Listing, 0, None, [], now, StreamOf(s.db, c.scope), now)])
    case Advance(id) =>
      var call := s.calls[id];
      var (db, next) := CallStep(s.db, call, EpochOf(s, call.c.scope), s.supply);
      s.(db := db, calls := s.calls[id := next], supply := s.supply + 1)
    case BeginDeletion(id, scope, operationKey, deletedAt) =>
      s.(deletions := s.deletions[id := Deletion(scope, operationKey, deletedAt, Seeking, EpochOf(s, scope))])
    case AdvanceDeletion(id) =>
      var d := s.deletions[id];
      var (db, next) := DeletionStep(s.db, d, EpochOf(s, d.scope));
      var moved := s.(db := db, deletions := s.deletions[id := next]);
      if d.pc.Deleting? && d.pc.receipt in db.receipts then
        moved.(epochs := Bumped(s, d.pc.receipt.scope),
               removed := if d.pc.receipt in s.db.receipts then s.removed
                          else s.removed[d.pc.receipt := StreamOf(s.db, d.pc.receipt.scope)])
      else moved
    case ClearStream(scope) => s.(db := Cleared(s.db, scope), epochs := Bumped(s, scope))
    case ReplayDeletion(replay) =>
      // The batch of a replayed deletion, whatever its call listed before: the listing only fills in the evidence.
      (match ReplayBatch(s.db, replay)
       case None => s
       case Some(after) =>
         s.(db := after, epochs := if replay in after.replays then Bumped(s, replay.receipt.scope) else s.epochs))
    case SkipSequence(next) => s.(db := s.db.(nextSequence := next))
  }

  // A run: the states visited and the actions between them.
  ghost predicate IsRun(states: seq<System>, actions: seq<Action>) {
    && |states| == |actions| + 1 && states[0] == INITIAL
    && forall i :: 0 <= i < |actions| ==> Enabled(states[i], actions[i]) && states[i + 1] == Perform(states[i], actions[i])
  }

  // No stream is cleared between a call's listing and its append batch.
  predicate KeepsEpoch(s: System, a: Action) {
    a.Advance? && a.id in s.calls && s.calls[a.id].pc.Batching?
    ==> s.calls[a.id].epoch == EpochOf(s, s.calls[a.id].c.scope)
  }

  ghost predicate UndisturbedRun(states: seq<System>, actions: seq<Action>) {
    IsRun(states, actions) && forall i :: 0 <= i < |actions| ==> KeepsEpoch(states[i], actions[i])
  }

  predicate DeleteFree(a: Action) {
    a.Begin? || a.Advance? || a.SkipSequence?
  }

  ghost predicate DeleteFreeRun(states: seq<System>, actions: seq<Action>) {
    IsRun(states, actions) && forall i :: 0 <= i < |actions| ==> DeleteFree(actions[i])
  }

  predicate InFlight(s: System, scope: Scope) {
    exists d :: d in s.deletions && s.deletions[d].scope == scope && !s.deletions[d].pc.Ended?
  }

  // At most one deletion of a learner's stream is in flight at a time.
  predicate SingleDeletion(s: System, a: Action) {
    match a
    case BeginDeletion(_, scope, _, _) => !InFlight(s, scope)
    case ClearStream(scope) => !InFlight(s, scope)
    case ReplayDeletion(replay) => !InFlight(s, replay.receipt.scope)
    case _ => true
  }

  ghost predicate SingleDeletionRun(states: seq<System>, actions: seq<Action>) {
    IsRun(states, actions) && forall i :: 0 <= i < |actions| ==> SingleDeletion(states[i], actions[i])
  }
}
