/** What every interleaving of appends and deletions keeps. */
module AppendInvariants {
  import opened Wrappers
  import opened LearningEvents
  import opened Projection
  import opened EventTables
  import opened RecordReceipts
  import opened MemoryStore
  import opened SqlStore
  import opened StoreRefinement
  import opened AppendProtocol

  // Since the call began, n events under other keys have been committed to its stream.
  ghost predicate Ahead(stream: seq<Event>, call: Call, n: nat) {
    && |call.began| + n <= |stream|
    && forall i :: |call.began| <= i < |call.began| + n ==> stream[i].body.key != call.c.key
  }

  ghost predicate OwnRow(db: Database, call: Call) {
    call.token.Some? && exists row :: row in db.rows && row.token == call.token.value
                                      && row.event.body.scope == call.c.scope && row.event.body.key == call.c.key
  }

  // The event a successful call reports is stored under the call's key and digest, and a call that says it
  // was not replayed is the one whose token the row carries.
  ghost predicate ResultStored(db: Database, call: Call, e: Event, replayed: bool) {
    && e in StreamOf(db, call.c.scope)
    && e.body.key == call.c.key && e.body.digest == call.c.digest
    && (!replayed ==> call.token.Some? && EventRow(e, call.token.value) in db.rows)
  }

  // What a call knows while its stream has not been cleared since it was listed.
  ghost predicate ListedHolds(db: Database, call: Call) {
    match call.pc
    case Finding(guarded) =>
      && call.listed <= StreamOf(db, call.c.scope)
      && (if guarded then Guard(call.listed, call.c).Ok? else FindByKey(call.listed, call.c.key).Some?)
    case Batching(guarded) =>
      guarded && call.listed <= StreamOf(db, call.c.scope) && Guard(call.listed, call.c).Ok?
    case ReadingBack(guarded, _) => guarded
    case Explaining(guarded, _) => guarded
    case _ => true
  }

  // What a call knows while its stream has not been cleared since it began.
  ghost predicate BornHolds(db: Database, call: Call) {
    var stream := StreamOf(db, call.c.scope);
    && call.began <= stream
    && match call.pc
       case Listing => Ahead(stream, call, call.attempt)
       case Finding(_) => Ahead(stream, call, call.attempt) && |call.began| + call.attempt <= |call.listed|
       case Batching(_) => Ahead(stream, call, call.attempt) && |call.began| + call.attempt <= |call.listed|
       case ReadingBack(_, threw) =>
         Ahead(stream, call, call.attempt) && (threw || OwnRow(db, call) || |call.began| + call.attempt + 1 <= |stream|)
       case Explaining(_, threw) => threw || Ahead(stream, call, call.attempt + 1)
       case Reporting(e, replayed) => ResultStored(db, call, e, replayed)
       case Done(Succeeded(e, replayed)) => ResultStored(db, call, e, replayed)
       case Done(Failed(code)) => code == ConcurrencyConflict ==> Ahead(stream, call, MAX_ATTEMPTS)
  }

  ghost predicate CallHolds(db: Database, now: nat, supply: Token, call: Call) {
    && EngineBuilt(call.c) && Tokened(call) && call.born <= call.epoch <= now
    && (call.token.Some? ==> call.token.value < supply)
    && (call.pc.Done? || call.attempt < MAX_ATTEMPTS)
    && (call.pc.Batching? ==> FreshToken(db, call.token.value))
    && (call.epoch == now ==> ListedHolds(db, call))
    && (call.born == now ==> BornHolds(db, call))
  }

  ghost predicate TokensApart(calls: map<nat, Call>) {
    forall i, j :: i in calls && j in calls && i != j && calls[i].token.Some? ==> calls[i].token != calls[j].token
  }

  ghost predicate TablesHold(s: System) {
    Sound(s.db) && EngineRows(s.db) && TokensBelow(s.db, s.supply)
  }

  ghost predicate CallsHold(s: System) {
    && TokensApart(s.calls)
    && forall id :: id in s.calls ==> CallHolds(s.db, EpochOf(s, s.calls[id].c.scope), s.supply, s.calls[id])
  }

  ghost predicate Invariant(s: System) {
    TablesHold(s) && CallsHold(s)
  }

  // How the tables may change under a call without disturbing what it knows.
  ghost predicate Grown(db: Database, after: Database, scope: Scope) {
    && StreamOf(db, scope) <= StreamOf(after, scope)
    && forall row :: row in db.rows && row.event.body.scope == scope ==> row in after.rows
  }

  lemma AheadGrows(stream: seq<Event>, longer: seq<Event>, call: Call, n: nat)
    requires stream <= longer && Ahead(stream, call, n)
    ensures Ahead(longer, call, n)
  {
  }

  lemma ResultSurvives(db: Database, after: Database, call: Call, e: Event, replayed: bool)
    requires Grown(db, after, call.c.scope) && ResultStored(db, call, e, replayed)
    ensures ResultStored(after, call, e, replayed)
  {
    RowOfEvent(db, call.c.scope, e);
    RowOfEvent(after, call.c.scope, e);
  }

  lemma BornSurvives(db: Database, after: Database, call: Call)
    requires Grown(db, after, call.c.scope) && BornHolds(db, call)
    ensures BornHolds(after, call)
  {
    var stream, longer := StreamOf(db, call.c.scope), StreamOf(after, call.c.scope);
    match call.pc
    case Listing => AheadGrows(stream, longer, call, call.attempt);
    case Finding(_) => AheadGrows(stream, longer, call, call.attempt);
    case Batching(_) => AheadGrows(stream, longer, call, call.attempt);
    case ReadingBack(_, _) => AheadGrows(stream, longer, call, call.attempt);
    case Explaining(_, threw) => if !threw { AheadGrows(stream, longer, call, call.attempt + 1); }
    case Reporting(e, replayed) => ResultSurvives(db, after, call, e, replayed);
    case Done(Succeeded(e, replayed)) => ResultSurvives(db, after, call, e, replayed);
    case Done(Failed(code)) => if code == ConcurrencyConflict { AheadGrows(stream, longer, call, MAX_ATTEMPTS); }
  }

  lemma CallSurvives(db: Database, after: Database, now: nat, supply: Token, supply': Token, call: Call)
    requires CallHolds(db, now, supply, call) && Grown(db, after, call.c.scope) && supply <= supply'
    requires call.pc.Batching? ==> FreshToken(after, call.token.value)
    ensures CallHolds(after, now, supply', call)
  {
    if call.born == now {
      BornSurvives(db, after, call);
    }
  }

  lemma SoundListing(db: Database, scope: Scope)
    requires Sound(db) && EngineRows(db)
    ensures List(db, scope) == Ok(StreamOf(db, scope))
  {
    forall e | e in StreamOf(db, scope) ensures ValidEvent(e) {
      RowOfEvent(db, scope, e);
    }
  }

  // Looking a key up in the rows and looking it up in the stream agree.
  lemma KeyLookup(db: Database, scope: Scope, key: Id)
    requires Sound(db) && EngineRows(db)
    ensures Find(db, scope, key) == Ok(FindRow(db.rows, scope, key))
    ensures match FindRow(db.rows, scope, key)
            case None => forall e :: e in StreamOf(db, scope) ==> e.body.key != key
            case Some(row) => row in db.rows && row.event in StreamOf(db, scope)
                              && row.event.body.scope == scope && row.event.body.key == key
  {
    FindRowMeaning(db.rows, scope, key);
    match FindRow(db.rows, scope, key)
    case None =>
      forall e | e in StreamOf(db, scope) ensures e.body.key != key { RowOfEvent(db, scope, e); }
    case Some(row) =>
      RowOfEvent(db, scope, row.event);
      var i :| 0 <= i < |db.rows| && db.rows[i] == row;
  }

  lemma FindStepHolds(db: Database, call: Call, now: nat, supply: Token)
    requires Sound(db) && EngineRows(db) && TokensBelow(db, supply)
    requires CallHolds(db, now, supply, call) && call.pc.Finding?
    ensures CallHolds(db, now, supply + 1, FindStep(db, call, supply))
  {
    KeyLookup(db, call.c.scope, call.c.key);
    if call.epoch == now && !call.pc.guarded { UnguardedKeyIsStored(db, call); }
    if FindRow(db.rows, call.c.scope, call.c.key).None? {
      UnusedKeyGoesOn(db, call, now, supply);
    }
  }

  lemma UnusedKeyGoesOn(db: Database, call: Call, now: nat, supply: Token)
    requires TokensBelow(db, supply) && CallHolds(db, now, supply, call) && call.pc.Finding?
    requires call.epoch == now ==> call.pc.guarded
    ensures CallHolds(db, now, supply + 1, call.(pc := Batching(call.pc.guarded), token := Some(supply)))
  {
    assert forall row :: row in db.rows ==> row.token != supply;
  }

  lemma UnguardedKeyIsStored(db: Database, call: Call)
    requires call.listed <= StreamOf(db, call.c.scope) && FindByKey(call.listed, call.c.key).Some?
    ensures exists e :: e in StreamOf(db, call.c.scope) && e.body.key == call.c.key
  {
    FindByKeyMeaning(call.listed, call.c.key);
    var e := FindByKey(call.listed, call.c.key).value;
    assert e in StreamOf(db, call.c.scope);
  }

  lemma ListStepHolds(db: Database, call: Call, now: nat, supply: Token)
    requires Sound(db) && EngineRows(db)
    requires CallHolds(db, now, supply, call) && call.pc.Listing?
    ensures CallHolds(db, now, supply + 1, ListStep(db, call, now))
  {
    SoundListing(db, call.c.scope);
    GuardNeverConflicts(StreamOf(db, call.c.scope), call.c);
  }

  lemma {:induction false} ReplayNeverConflicts(r: Replay, events: seq<Event>, scope: Scope)
    ensures ReplayFrom(r, events, scope) != Err(ConcurrencyConflict)
    decreases |events|
  {
    if events != [] && Step(r, events[0], scope).Ok? {
      ReplayNeverConflicts(Step(r, events[0], scope).value, events[1..], scope);
    }
  }

  lemma GuardNeverConflicts(current: seq<Event>, c: Candidate)
    ensures Guard(current, c) != Err(ConcurrencyConflict)
  {
    ReplayNeverConflicts(EMPTY_REPLAY,
      ProjectionEngine.SortedEvents(current + [Event(MaxSequence(current) + 1, c)]), c.scope);
  }

  ghost predicate TablesStep(db: Database, after: Database, supply: Token) {
    && Sound(after) && EngineRows(after) && TokensBelow(after, supply + 1)
    && forall scope :: Grown(db, after, scope)
  }

  lemma BatchTables(db: Database, call: Call, supply: Token)
    requires Sound(db) && EngineRows(db) && TokensBelow(db, supply) && EngineBuilt(call.c)
    requires call.pc.Batching? && call.token.Some? && FreshToken(db, call.token.value) && call.token.value < supply
    ensures TablesStep(db, BatchStep(db, call).0, supply)
  {
    AppendBatchEffect(db, call.c, |call.listed|, call.token.value);
    var after := BatchStep(db, call).0;
    forall scope: Scope ensures StreamOf(db, scope) <= StreamOf(after, scope) {
    }
  }

  lemma BatchOutcome(db: Database, call: Call, supply: Token)
    requires Sound(db) && call.pc.Batching? && call.token.Some? && FreshToken(db, call.token.value)
    ensures var (after, next) := BatchStep(db, call);
            && next == call.(pc := next.pc) && next.pc.ReadingBack? && next.pc.guarded == call.pc.guarded
            && (next.pc.threw || OwnRow(after, next) || |StreamOf(after, call.c.scope)| != |call.listed|)
  {
    AppendBatchEffect(db, call.c, |call.listed|, call.token.value);
    var (after, next) := BatchStep(db, call);
    if after.rows != db.rows {
      assert EventRow(Event(db.nextSequence, call.c), call.token.value) in after.rows;
    }
  }

  lemma BatchStepHolds(db: Database, call: Call, now: nat, supply: Token)
    requires Sound(db) && EngineRows(db) && TokensBelow(db, supply)
    requires CallHolds(db, now, supply, call) && call.pc.Batching?
    ensures var (after, next) := BatchStep(db, call);
            TablesStep(db, after, supply) && CallHolds(after, now, supply + 1, next)
  {
    BatchTables(db, call, supply);
    BatchOutcome(db, call, supply);
    if call.born == now {
      BornSurvives(db, BatchStep(db, call).0, call);
    }
  }

  lemma ReadBackStepHolds(db: Database, call: Call, now: nat, supply: Token)
    requires Sound(db) && EngineRows(db)
    requires CallHolds(db, now, supply, call) && call.pc.ReadingBack?
    ensures CallHolds(db, now, supply + 1, ReadBackStep(db, call))
  {
    KeyLookup(db, call.c.scope, call.c.key);
    var found := FindRow(db.rows, call.c.scope, call.c.key);
    if found.None? && OwnRow(db, call) {
      var row :| row in db.rows && row.token == call.token.value
                 && row.event.body.scope == call.c.scope && row.event.body.key == call.c.key;
      FindRowIsUnique(db, row);
    }
  }

  lemma ExplainStepHolds(db: Database, call: Call, now: nat, supply: Token)
    requires CallHolds(db, now, supply, call) && call.pc.Explaining?
    ensures CallHolds(db, now, supply + 1, ExplainStep(db, call))
  {
  }

  lemma ReportStepHolds(db: Database, call: Call, now: nat, supply: Token)
    requires Sound(db) && EngineRows(db)
    requires CallHolds(db, now, supply, call) && call.pc.Reporting?
    ensures CallHolds(db, now, supply + 1, ReportStep(db, call))
  {
    SoundListing(db, call.c.scope);
    ReplayNeverConflicts(EMPTY_REPLAY, ProjectionEngine.SortedEvents(StreamOf(db, call.c.scope)), call.c.scope);
  }

  lemma SameTables(db: Database, supply: Token)
    requires Sound(db) && EngineRows(db) && TokensBelow(db, supply)
    ensures TablesStep(db, db, supply)
  {
  }

  lemma StepKeepsIdentity(db: Database, call: Call, now: nat, supply: Token)
    requires Tokened(call)
    ensures var (after, next) := CallStep(db, call, now, supply);
            && next.c == call.c && (next.token == call.token || next.token == Some(supply))
            && (!call.pc.Batching? ==> after == db)
  {
  }

  lemma CallStepHolds(db: Database, call: Call, now: nat, supply: Token)
    requires Sound(db) && EngineRows(db) && TokensBelow(db, supply)
    requires CallHolds(db, now, supply, call)
    ensures var (after, next) := CallStep(db, call, now, supply);
            TablesStep(db, after, supply) && CallHolds(after, now, supply + 1, next)
  {
    SameTables(db, supply);
    match call.pc
    case Listing => ListStepHolds(db, call, now, supply);
    case Finding(_) => FindStepHolds(db, call, now, supply);
    case Batching(_) => BatchStepHolds(db, call, now, supply);
    case ReadingBack(_, _) => ReadBackStepHolds(db, call, now, supply);
    case Explaining(_, _) => ExplainStepHolds(db, call, now, supply);
    case Reporting(_, _) => ReportStepHolds(db, call, now, supply);
    case Done(_) =>
  }

  // Tokens other than the one of the call that steps stay unused.
  lemma FreshnessSurvives(db: Database, call: Call, now: nat, supply: Token, token: Token)
    requires Sound(db) && Tokened(call) && FreshToken(db, token) && call.token != Some(token)
    ensures FreshToken(CallStep(db, call, now, supply).0, token)
  {
  }

  lemma BystanderHolds(s: System, id: nat, other: nat)
    requires Invariant(s) && id in s.calls && other in s.calls && other != id
    requires Tokened(s.calls[id])
    requires TablesStep(s.db, CallStep(s.db, s.calls[id], EpochOf(s, s.calls[id].c.scope), s.supply).0, s.supply)
    ensures var bystander := s.calls[other];
            CallHolds(CallStep(s.db, s.calls[id], EpochOf(s, s.calls[id].c.scope), s.supply).0,
                      EpochOf(s, bystander.c.scope), s.supply + 1, bystander)
  {
    var call, bystander := s.calls[id], s.calls[other];
    var now := EpochOf(s, call.c.scope);
    if bystander.pc.Batching? {
      FreshnessSurvives(s.db, call, now, s.supply, bystander.token.value);
    }
    CallSurvives(s.db, CallStep(s.db, call, now, s.supply).0, EpochOf(s, bystander.c.scope),
                 s.supply, s.supply + 1, bystander);
  }

  lemma TokensStayApart(calls: map<nat, Call>, id: nat, next: Call, supply: Token)
    requires TokensApart(calls) && id in calls && (next.token == calls[id].token || next.token == Some(supply))
    requires forall i :: i in calls && calls[i].token.Some? ==> calls[i].token.value < supply
    ensures TokensApart(calls[id := next])
  {
  }

  lemma AdvanceHolds(s: System, id: nat)
    requires Invariant(s) && Enabled(s, Advance(id))
    ensures Invariant(Perform(s, Advance(id)))
  {
    var call := s.calls[id];
    var now := EpochOf(s, call.c.scope);
    var (db, next) := CallStep(s.db, call, now, s.supply);
    CallStepHolds(s.db, call, now, s.supply);
    StepKeepsIdentity(s.db, call, now, s.supply);
    var t := s.(db := db, calls := s.calls[id := next], supply := s.supply + 1);
    assert t == Perform(s, Advance(id));
    forall other | other in t.calls
      ensures CallHolds(t.db, EpochOf(t, t.calls[other].c.scope), t.supply, t.calls[other])
    {
      if other != id {
        BystanderHolds(s, id, other);
      }
    }
    TokensStayApart(s.calls, id, next, s.supply);
  }

  // Clearing a stream starts a new epoch for it, and only the calls on it forget what they knew.
  lemma ClearingHolds(s: System, t: System, scope: Scope)
    requires Invariant(s) && t.calls == s.calls && t.supply == s.supply && t.epochs == Bumped(s, scope)
    requires t.db.rows == Without(s.db.rows, scope) && t.db.streams == s.db.streams - {scope}
    requires Sound(t.db)
    ensures Invariant(t)
  {
    WithoutElements(s.db.rows, scope);
    ClearedTokens(s.db, scope, s.supply);
    forall id | id in t.calls
      ensures CallHolds(t.db, EpochOf(t, t.calls[id].c.scope), t.supply, t.calls[id])
    {
      var call := s.calls[id];
      if call.c.scope != scope {
        WithoutSplitsStreams(s.db.rows, scope, call.c.scope);
        CallSurvives(s.db, t.db, EpochOf(s, call.c.scope), s.supply, t.supply, call);
      }
    }
  }

  lemma SameRowsHold(s: System, t: System)
    requires Invariant(s) && t.calls == s.calls && t.supply == s.supply && t.epochs == s.epochs
    requires t.db.rows == s.db.rows && t.db.streams == s.db.streams
    requires Sound(t.db)
    ensures Invariant(t)
  {
    forall id | id in t.calls
      ensures CallHolds(t.db, EpochOf(t, t.calls[id].c.scope), t.supply, t.calls[id])
    {
      CallSurvives(s.db, t.db, EpochOf(s, s.calls[id].c.scope), s.supply, t.supply, s.calls[id]);
    }
  }

  lemma DeletingHolds(s: System, id: nat)
    requires Invariant(s) && Enabled(s, AdvanceDeletion(id)) && s.deletions[id].pc.Deleting?
    ensures Invariant(Perform(s, AdvanceDeletion(id)))
  {
    var t := Perform(s, AdvanceDeletion(id));
    var receipt := s.deletions[id].pc.receipt;
    DeleteVerifiedShape(s.db, receipt);
    if receipt in t.db.receipts {
      ClearingHolds(s, t, receipt.scope);
    } else {
      SameRowsHold(s, t);
    }
  }

  lemma DeletionHolds(s: System, id: nat)
    requires Invariant(s) && Enabled(s, AdvanceDeletion(id))
    ensures Invariant(Perform(s, AdvanceDeletion(id)))
  {
    if s.deletions[id].pc.Deleting? {
      DeletingHolds(s, id);
    } else {
      SameRowsHold(s, Perform(s, AdvanceDeletion(id)));
    }
  }

  lemma BeginHolds(s: System, id: nat, c: Candidate)
    requires Invariant(s) && Enabled(s, Begin(id, c))
    ensures Invariant(Perform(s, Begin(id, c)))
  {
  }

  lemma ClearStreamHolds(s: System, scope: Scope)
    requires Invariant(s) && Enabled(s, ClearStream(scope))
    ensures Invariant(Perform(s, ClearStream(scope)))
  {
    ClearedEffect(s.db, scope);
    ClearingHolds(s, Perform(s, ClearStream(scope)), scope);
  }

  lemma ReplayHolds(s: System, replay: DeletionReplay)
    requires Invariant(s)
    ensures Invariant(Perform(s, ReplayDeletion(replay)))
  {
    ReplayBatchEffect(s.db, replay);
    var t := Perform(s, ReplayDeletion(replay));
    if t.db.rows == s.db.rows && t.db.streams == s.db.streams && t.epochs == s.epochs {
      SameRowsHold(s, t);
    } else {
      ClearingHolds(s, t, replay.receipt.scope);
    }
  }

  lemma StepHolds(s: System, a: Action)
    requires Invariant(s) && Enabled(s, a)
    ensures Invariant(Perform(s, a))
  {
    match a
    case Begin(id, c) => BeginHolds(s, id, c);
    case Advance(id) => AdvanceHolds(s, id);
    case BeginDeletion(_, _, _, _) => SameRowsHold(s, Perform(s, a));
    case AdvanceDeletion(id) => DeletionHolds(s, id);
    case ClearStream(scope) => ClearStreamHolds(s, scope);
    case ReplayDeletion(replay) => ReplayHolds(s, replay);
    case SkipSequence(_) => SameRowsHold(s, Perform(s, a));
  }
}
