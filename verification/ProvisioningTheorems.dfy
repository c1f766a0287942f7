/** What the record store holds in every run of the provisioning protocol. */
module ProvisioningTheorems {
  import opened Wrappers
  import Sequences
  import opened IdentityProvisioning
  import opened IdentityEngine
  import opened ProvisioningProtocol

  // ------------------------------------------------------------------------------- one key's log

  // The first version of an operation: begun, or refused before anything was written.
  predicate FirstVersion(r: Record) {
    && r.attempt == 1 && r.startedAt == r.updatedAt && |r.audit| == 1 && TrailOk(r)
    && (r.state == Preflight || (r.state == Failed && !Retryable(r)))
  }

  predicate EntryOk(e: Entry, key: Id, clock: Time) {
    e.record.key == key && e.record.state != Planned && e.record.updatedAt <= clock
  }

  // Each version follows the one before it.
  predicate Chain(log: seq<Entry>) {
    && (log != [] ==> FirstVersion(log[0].record))
    && forall i :: 0 < i < |log| ==> Follows(log[i - 1].record, log[i].record)
  }

  predicate LogOk(log: seq<Entry>, key: Id, clock: Time) {
    log != [] && Chain(log) && forall i :: 0 <= i < |log| ==> EntryOk(log[i], key, clock)
  }

  // Along a chain the version times rise and the audit trail only grows at its end.
  lemma {:induction false} ChainRises(log: seq<Entry>, i: nat, j: nat)
    requires Chain(log) && i < j < |log|
    ensures log[i].record.updatedAt < log[j].record.updatedAt
    ensures log[i].record.audit < log[j].record.audit
    ensures SameOperation(log[i].record, log[j].record)
    ensures log[i].record.attempt <= log[j].record.attempt
    ensures !Final(log[i].record)
    decreases j - i
  {
    assert Follows(log[i].record, log[i + 1].record);
    if i + 1 < j { ChainRises(log, i + 1, j); }
  }

  // ----------------------------------------------------------------------------------- invariant

  ghost predicate InLog(log: seq<Entry>, r: Record) {
    exists i :: 0 <= i < |log| && log[i].record == r
  }

  // A call that works on a version works on one that was stored, in a state it may act on.
  ghost predicate BaseOk(s: System, r: Record) {
    InLog(LogOf(s, r.key), r)
  }

  ghost predicate PcOk(s: System, pc: Pc) {
    match pc
    case WantRecovery(r) => BaseOk(s, r) && Retryable(r)
    case WantAuthorization(r) => BaseOk(s, r) && Executable(r.state)
    case InAdapter(r) => BaseOk(s, r) && Executable(r.state)
    case WantDenial(r) => BaseOk(s, r) && r.state == AwaitingAuthority
    case WantProof(r) => BaseOk(s, r) && r.state == AwaitingAuthority
    case WantDecision(r) => BaseOk(s, r) && r.state == AwaitingAuthority
    case WantPreflight(r) => BaseOk(s, r) && Executable(r.state)
    case _ => true
  }

  ghost predicate StoreOk(s: System) {
    && s.clock >= 0
    && (forall k :: k in s.logs <==> k in s.records)
    && (forall k :: k in s.logs ==> LogOk(s.logs[k], k, s.clock) && s.records[k] == s.logs[k][|s.logs[k]| - 1].record)
  }

  ghost predicate Invariant(s: System) {
    StoreOk(s) && forall c :: c in s.calls ==> PcOk(s, s.calls[c].pc)
  }

  // ------------------------------------------------------------------------------ a single save

  // Compare-and-set on the version time finds exactly the version the call is based on.
  lemma UnchangedTimeIsUnchangedVersion(log: seq<Entry>, base: Record)
    requires Chain(log) && InLog(log, base) && log[|log| - 1].record.updatedAt == base.updatedAt
    ensures log[|log| - 1].record == base
  {
    var i :| 0 <= i < |log| && log[i].record == base;
    if i < |log| - 1 { ChainRises(log, i, |log| - 1); }
  }

  lemma LogGrows(log: seq<Entry>, entry: Entry, key: Id, clock: Time, now: Time)
    requires LogOk(log, key, clock) && clock <= now
    requires Follows(log[|log| - 1].record, entry.record) && EntryOk(entry, key, now)
    ensures LogOk(log + [entry], key, now)
  {
    var longer := log + [entry];
    forall i | 0 < i < |longer| ensures Follows(longer[i - 1].record, longer[i].record) {
      assert i < |log| ==> longer[i] == log[i] && longer[i - 1] == log[i - 1];
    }
    assert forall i :: 0 <= i < |log| ==> EntryOk(log[i], key, now);
  }

  // The clock only moves forward, so what was fine stays fine.
  lemma LaterClock(s: System, now: Time)
    requires StoreOk(s) && s.clock <= now
    ensures StoreOk(s.(clock := now))
  {
    forall k | k in s.logs ensures LogOk(s.logs[k], k, now) {
      assert forall i :: 0 <= i < |s.logs[k]| ==> EntryOk(s.logs[k][i], k, now);
    }
  }

  predicate SavedNext(s: System, t: System, entry: Entry, now: Time) {
    var key := entry.record.key;
    && t.clock == now
    && t.records == s.records[key := entry.record]
    && t.logs == s.logs[key := LogOf(s, key) + [entry]]
  }

  // What a save does: it is refused and the call ends, or the version it expects is replaced.
  predicate StoreEffect(s: System, t: System, c: Id, now: Time, expected: Option<Time>, entry: Entry, pc: Pc)
    requires c in s.calls
  {
    var key := entry.record.key;
    || (t.clock == now && t.records == s.records && t.logs == s.logs && t.calls == s.calls[c := s.calls[c].(pc := Done)])
    || (SavedNext(s, t, entry, now) && t.calls == s.calls[c := s.calls[c].(pc := pc)]
        && (if expected.Some? then key in s.records && s.records[key].updatedAt == expected.value else key !in s.records))
  }

  lemma StoreHasThatEffect(s: System, c: Id, now: Time, expected: Option<Time>, entry: Entry, pc: Pc)
    requires c in s.calls
    ensures StoreEffect(s, Store(s, c, now, expected, entry, pc), c, now, expected, entry, pc)
  {
  }

  lemma StoredVersionIsOk(s: System, t: System, base: Record, entry: Entry, now: Time)
    requires StoreOk(s) && BaseOk(s, base) && s.clock <= now && SavedNext(s, t, entry, now)
    requires base.key in s.records && s.records[base.key].updatedAt == base.updatedAt
    requires Follows(base, entry.record) && entry.record.updatedAt <= now
    ensures StoreOk(t)
  {
    var key := base.key;
    UnchangedTimeIsUnchangedVersion(s.logs[key], base);
    LogGrows(s.logs[key], entry, key, s.clock, now);
    OneLogChanged(s, t, entry, now);
  }

  lemma OneLogChanged(s: System, t: System, entry: Entry, now: Time)
    requires StoreOk(s) && s.clock <= now && SavedNext(s, t, entry, now)
    requires LogOk(LogOf(s, entry.record.key) + [entry], entry.record.key, now)
    ensures StoreOk(t)
  {
    LaterClock(s, now);
    var log := LogOf(s, entry.record.key) + [entry];
    assert log[|log| - 1] == entry;
  }

  lemma FirstVersionIsOk(s: System, t: System, entry: Entry, now: Time)
    requires StoreOk(s) && s.clock <= now && SavedNext(s, t, entry, now)
    requires entry.record.key !in s.records
    requires FirstVersion(entry.record) && entry.record.updatedAt <= now
    ensures StoreOk(t)
  {
    assert LogOf(s, entry.record.key) + [entry] == [entry];
    OneLogChanged(s, t, entry, now);
  }

  // Logs only grow, so the versions other calls work on stay in them.
  ghost predicate LogsGrow(s: System, t: System) {
    forall k :: LogOf(s, k) <= LogOf(t, k)
  }

  lemma PcStaysOk(s: System, t: System, pc: Pc)
    requires PcOk(s, pc) && LogsGrow(s, t)
    ensures PcOk(t, pc)
  {
    forall r: Record | BaseOk(s, r) ensures BaseOk(t, r) {
      var i :| 0 <= i < |LogOf(s, r.key)| && LogOf(s, r.key)[i].record == r;
      assert LogOf(t, r.key)[i].record == r;
    }
  }

  lemma CallsStayOk(s: System, t: System, c: Id)
    requires Invariant(s) && StoreOk(t) && LogsGrow(s, t)
    requires c in t.calls && PcOk(t, t.calls[c].pc)
    requires forall d :: d in t.calls && d != c ==> d in s.calls && s.calls[d] == t.calls[d]
    ensures Invariant(t)
  {
    forall d | d in t.calls ensures PcOk(t, t.calls[d].pc) {
      if d != c { PcStaysOk(s, t, s.calls[d].pc); }
    }
  }

  // Where a call goes on after its version was stored.
  predicate NextPc(pc: Pc, r: Record) {
    || pc == Done
    || (Executable(r.state) && (pc == WantAuthorization(r) || pc == InAdapter(r) || pc == WantPreflight(r)))
  }

  lemma AfterSave(s: System, t: System, c: Id, entry: Entry, pc: Pc, now: Time)
    requires Invariant(s) && StoreOk(t) && c in s.calls && NextPc(pc, entry.record)
    requires t.calls == s.calls[c := s.calls[c].(pc := pc)] && SavedNext(s, t, entry, now)
    ensures Invariant(t)
  {
    SavedIsInLog(s, t, entry, now);
    CallsStayOk(s, t, c);
  }

  lemma SavedIsInLog(s: System, t: System, entry: Entry, now: Time)
    requires SavedNext(s, t, entry, now)
    ensures BaseOk(t, entry.record) && LogsGrow(s, t)
  {
    var log := LogOf(t, entry.record.key);
    assert log[|log| - 1].record == entry.record;
  }

  lemma RefusedSaveKeeps(s: System, t: System, c: Id, now: Time)
    requires Invariant(s) && c in s.calls && s.clock <= now
    requires t == s.(clock := now, calls := s.calls[c := s.calls[c].(pc := Done)])
    ensures Invariant(t)
  {
    LaterClock(s, now);
    CallsStayOk(s, t, c);
  }

  lemma EffectKeeps(s: System, t: System, c: Id, now: Time, base: Record, entry: Entry, pc: Pc)
    requires Invariant(s) && c in s.calls && s.clock < now && BaseOk(s, base)
    requires Follows(base, entry.record) && entry.record.updatedAt <= now && NextPc(pc, entry.record)
    requires StoreEffect(s, t, c, now, Some(base.updatedAt), entry, pc)
    ensures Invariant(t)
  {
    if SavedNext(s, t, entry, now) && t.calls == s.calls[c := s.calls[c].(pc := pc)]
       && base.key in s.records && s.records[base.key].updatedAt == base.updatedAt {
      StoredVersionIsOk(s, t, base, entry, now);
      AfterSave(s, t, c, entry, pc, now);
    } else {
      RefusedSaveKeeps(s, t, c, now);
    }
  }

  // A save that follows the version the call is based on keeps the invariant.
  lemma StoreKeeps(s: System, c: Id, now: Time, base: Record, entry: Entry, pc: Pc)
    requires Invariant(s) && c in s.calls && s.clock < now && BaseOk(s, base)
    requires Follows(base, entry.record) && entry.record.updatedAt <= now && NextPc(pc, entry.record)
    ensures Invariant(Store(s, c, now, Some(base.updatedAt), entry, pc))
  {
    StoreHasThatEffect(s, c, now, Some(base.updatedAt), entry, pc);
    EffectKeeps(s, Store(s, c, now, Some(base.updatedAt), entry, pc), c, now, base, entry, pc);
  }

  lemma FirstEffectKeeps(s: System, t: System, c: Id, now: Time, entry: Entry, pc: Pc)
    requires Invariant(s) && c in s.calls && s.clock < now
    requires FirstVersion(entry.record) && entry.record.updatedAt <= now && NextPc(pc, entry.record)
    requires StoreEffect(s, t, c, now, None, entry, pc)
    ensures Invariant(t)
  {
    if SavedNext(s, t, entry, now) && t.calls == s.calls[c := s.calls[c].(pc := pc)] && entry.record.key !in s.records {
      FirstVersionIsOk(s, t, entry, now);
      AfterSave(s, t, c, entry, pc, now);
    } else {
      RefusedSaveKeeps(s, t, c, now);
    }
  }

  lemma FirstStoreKeeps(s: System, c: Id, now: Time, entry: Entry, pc: Pc)
    requires Invariant(s) && c in s.calls && s.clock < now
    requires FirstVersion(entry.record) && entry.record.updatedAt <= now && NextPc(pc, entry.record)
    ensures Invariant(Store(s, c, now, None, entry, pc))
  {
    StoreHasThatEffect(s, c, now, None, entry, pc);
    FirstEffectKeeps(s, Store(s, c, now, None, entry, pc), c, now, entry, pc);
  }

  lemma SetPcKeeps(s: System, c: Id, pc: Pc)
    requires Invariant(s) && c in s.calls && PcOk(s, pc)
    ensures Invariant(SetPc(s, c, pc))
  {
    CallsStayOk(s, SetPc(s, c, pc), c);
  }

  // ------------------------------------------------------------------------------------ the steps

  lemma StoredIsInLog(s: System, key: Id)
    requires StoreOk(s) && key in s.records
    ensures s.records[key].key == key && BaseOk(s, s.records[key]) && s.records[key].state != Planned
  {
    var log := s.logs[key];
    assert EntryOk(log[|log| - 1], key, s.clock);
  }

  lemma BaseIsOld(s: System, r: Record)
    requires StoreOk(s) && BaseOk(s, r)
    ensures r.updatedAt <= s.clock
  {
    var log := LogOf(s, r.key);
    var i :| 0 <= i < |log| && log[i].record == r;
    assert EntryOk(log[i], r.key, s.clock);
  }

  lemma AfterReadIsOk(s: System, request: Request, found: Option<Record>)
    requires found.Some? ==> BaseOk(s, found.value) && found.value.state != Planned
    ensures PcOk(s, AfterRead(request, found))
  {
  }

  lemma ReadKeeps(s: System, c: Id)
    requires Invariant(s) && Enabled(s, Read(c))
    ensures Invariant(Perform(s, Read(c)))
  {
    var q := s.calls[c].request;
    var found := if q.key in s.records then Some(s.records[q.key]) else None;
    if found.Some? { StoredIsInLog(s, q.key); }
    AfterReadIsOk(s, q, found);
    SetPcKeeps(s, c, AfterRead(q, found));
  }

  lemma RecoverKeeps(s: System, c: Id, stamp: Stamp)
    requires Invariant(s) && Enabled(s, Recover(c, stamp))
    ensures Invariant(Perform(s, Recover(c, stamp)))
  {
    var base, q := s.calls[c].pc.base, s.calls[c].request;
    assert PcOk(s, s.calls[c].pc);
    BaseIsOld(s, base);
    RecoveryFollows(base, stamp, q.actor);
    var r := RecoveringRecord(base, stamp, q.actor).value;
    StoreKeeps(s, c, stamp.at, base, Entry(r, q.plan, false), WantAuthorization(r));
  }

  lemma AuthorizeKeeps(s: System, c: Id, stamp: Stamp)
    requires Invariant(s) && Enabled(s, Authorize(c, stamp))
    ensures Invariant(Perform(s, Authorize(c, stamp)))
  {
    var base, q := s.calls[c].pc.base, s.calls[c].request;
    assert PcOk(s, s.calls[c].pc);
    BaseIsOld(s, base);
    if base.state == Preflight && q.plan.mode != ResumableOwnerGate {
      AuthorizationFollows(base, stamp, q.actor, "preflight-completed", "provider-write-authorized");
      var r := TransitionAt(base, Provisioning, stamp, q.actor, "preflight-completed", "provider-write-authorized").value;
      StoreKeeps(s, c, stamp.at, base, Entry(r, q.plan, false), InAdapter(r));
    } else {
      SetPcKeeps(s, c, InAdapter(base));
    }
  }

  lemma AnswerKeeps(s: System, c: Id, result: AdapterResult, stamp: Stamp, later: Stamp)
    requires Invariant(s) && Enabled(s, Answer(c, result, stamp, later))
    ensures Invariant(Perform(s, Answer(c, result, stamp, later)))
  {
    var base, q := s.calls[c].pc.base, s.calls[c].request;
    assert PcOk(s, s.calls[c].pc);
    BaseIsOld(s, base);
    AnswerFollows(q.plan, base, result, q.actor, stamp, later);
    StoreKeeps(s, c, later.at, base,
      Entry(Applied(q.plan, base, result, q.actor, stamp, later), q.plan, result.nextState == Ready), Done);
  }

  lemma ThrowKeeps(s: System, c: Id, stamp: Stamp)
    requires Invariant(s) && Enabled(s, Throw(c, stamp))
    ensures Invariant(Perform(s, Throw(c, stamp)))
  {
    var base, q := s.calls[c].pc.base, s.calls[c].request;
    assert PcOk(s, s.calls[c].pc);
    BaseIsOld(s, base);
    FailureFollows(base, stamp, q.actor, "adapter-execution-failed", true, "provider-error");
    StoreKeeps(s, c, stamp.at, base,
      Entry(FailAt(base, stamp, q.actor, "adapter-execution-failed", true, "provider-error"), q.plan, false), Done);
  }

  lemma RejectKeeps(s: System, c: Id, stamp: Stamp)
    requires Invariant(s) && Enabled(s, Reject(c, stamp))
    ensures Invariant(Perform(s, Reject(c, stamp)))
  {
    var base, q := s.calls[c].pc.base, s.calls[c].request;
    assert PcOk(s, s.calls[c].pc);
    BaseIsOld(s, base);
    RejectionFollows(base, stamp, q.actor, "rejected");
    StoreKeeps(s, c, stamp.at, base,
      Entry(AppendAuditAt(base, stamp, q.actor, "authority-decision-rejected", Failure, "rejected"), q.plan, false), Done);
  }

  lemma DecideStores(s: System, c: Id, stamp: Stamp, r: Record)
    requires Enabled(s, Decide(c, stamp))
    requires DecidedRecord(s.calls[c].pc.base, s.calls[c].request.decision, s.calls[c].request.actor, stamp) == Ok(r)
    ensures Perform(s, Decide(c, stamp)) ==
      Store(s, c, stamp.at, Some(s.calls[c].pc.base.updatedAt), Entry(r, s.calls[c].request.plan, false),
            if r.state == Provisioning then WantPreflight(r) else Done)
  {
  }

  lemma DecideKeeps(s: System, c: Id, stamp: Stamp)
    requires Invariant(s) && Enabled(s, Decide(c, stamp))
    ensures Invariant(Perform(s, Decide(c, stamp)))
  {
    var base, q := s.calls[c].pc.base, s.calls[c].request;
    assert PcOk(s, s.calls[c].pc);
    BaseIsOld(s, base);
    DecisionFollows(base, q.decision, q.actor, stamp);
    var r := DecidedRecord(base, q.decision, q.actor, stamp).value;
    DecideStores(s, c, stamp, r);
    StoreKeeps(s, c, stamp.at, base, Entry(r, q.plan, false), if r.state == Provisioning then WantPreflight(r) else Done);
  }

  lemma FirstStepsKeep(s: System, c: Id, stamp: Stamp, operationId: Id)
    requires Invariant(s)
    ensures Enabled(s, Refuse(c, stamp, operationId)) ==> Invariant(Perform(s, Refuse(c, stamp, operationId)))
    ensures Enabled(s, Start(c, stamp, operationId)) ==> Invariant(Perform(s, Start(c, stamp, operationId)))
  {
    if Enabled(s, Refuse(c, stamp, operationId)) {
      var q := s.calls[c].request;
      FirstStoreKeeps(s, c, stamp.at,
        Entry(RefusedRecord(q.wellFormed, q.plan, q.operation, q.key, q.actor, operationId, stamp), q.plan, false), Done);
    }
    if Enabled(s, Start(c, stamp, operationId)) {
      var q, previous := s.calls[c].request, s.calls[c].pc.previous;
      var r := StartedRecord(q.wellFormed, q.plan, q.operation, q.key, q.actor, operationId,
                             if previous.Some? then previous.value.secret else None, stamp);
      FirstStoreKeeps(s, c, stamp.at, Entry(r, q.plan, false), WantAuthorization(r));
    }
  }

  lemma InvokeKeeps(s: System, c: Id, request: Request)
    requires Invariant(s) && Enabled(s, Invoke(c, request))
    ensures Invariant(Perform(s, Invoke(c, request)))
  {
    CallsStayOk(s, Perform(s, Invoke(c, request)), c);
  }

  lemma LatestKeeps(s: System, c: Id, previous: Option<Record>)
    requires Invariant(s) && Enabled(s, Latest(c, previous))
    ensures Invariant(Perform(s, Latest(c, previous)))
  {
    SetPcKeeps(s, c, WantRefusal);
    SetPcKeeps(s, c, WantStart(previous));
  }

  lemma CheckProofKeeps(s: System, c: Id)
    requires Invariant(s) && Enabled(s, CheckProof(c))
    ensures Invariant(Perform(s, CheckProof(c)))
  {
    var pc := s.calls[c].pc;
    assert PcOk(s, pc);
    SetPcKeeps(s, c, WantDecision(pc.base));
    SetPcKeeps(s, c, WantDenial(pc.base));
  }

  lemma PassPreflightKeeps(s: System, c: Id)
    requires Invariant(s) && Enabled(s, PassPreflight(c))
    ensures Invariant(Perform(s, PassPreflight(c)))
  {
    var pc := s.calls[c].pc;
    assert PcOk(s, pc);
    SetPcKeeps(s, c, WantAuthorization(pc.base));
  }

  lemma StepKeeps(s: System, a: Action)
    requires Invariant(s) && Enabled(s, a)
    ensures Invariant(Perform(s, a))
  {
    match a
    case Invoke(c, request) => InvokeKeeps(s, c, request);
    case Read(c) => ReadKeeps(s, c);
    case Latest(c, previous) => LatestKeeps(s, c, previous);
    case Refuse(c, stamp, operationId) => FirstStepsKeep(s, c, stamp, operationId);
    case Start(c, stamp, operationId) => FirstStepsKeep(s, c, stamp, operationId);
    case Recover(c, stamp) => RecoverKeeps(s, c, stamp);
    case Authorize(c, stamp) => AuthorizeKeeps(s, c, stamp);
    case Answer(c, result, stamp, later) => AnswerKeeps(s, c, result, stamp, later);
    case Throw(c, stamp) => ThrowKeeps(s, c, stamp);
    case Reject(c, stamp) => RejectKeeps(s, c, stamp);
    case CheckProof(c) => CheckProofKeeps(s, c);
    case Decide(c, stamp) => DecideKeeps(s, c, stamp);
    case PassPreflight(c) => PassPreflightKeeps(s, c);
    case GiveUp(c) => SetPcKeeps(s, c, Done);
  }

  lemma {:induction false} RunsKeepInvariant(states: seq<System>, actions: seq<Action>, i: nat)
    requires IsRun(states, actions) && i < |states|
    ensures Invariant(states[i])
  {
    if i > 0 {
      RunsKeepInvariant(states, actions, i - 1);
      StepKeeps(states[i - 1], actions[i - 1]);
    }
  }

  // -------------------------------------------------------------------- what is put into the logs

  // Stored versions are valid, and the ready ones pass the readiness evaluation for the plan of the
  // call that stored them, unless the adapter itself had answered that the client is ready.
  predicate Sound(e: Entry) {
    ValidRecord(e.record) && (e.record.state == Ready && !e.claimedReady ==> PassesReadiness(e.plan, e.record))
  }

  // The logs afterwards: as before, or one version longer.
  ghost predicate OneEntryAtMost(s: System, t: System, a: Action) {
    t.logs == s.logs
    || exists e: Entry :: Added(s, t, e) && Sound(e) && (e.claimedReady ==> a.Answer? && a.result.nextState == Ready)
  }

  predicate Added(s: System, t: System, e: Entry) {
    t.logs == s.logs[e.record.key := LogOf(s, e.record.key) + [e]]
  }

  lemma StoreAdds(s: System, c: Id, now: Time, expected: Option<Time>, entry: Entry, pc: Pc, a: Action)
    requires c in s.calls
    requires entry.record.state == Ready && !entry.claimedReady ==> PassesReadiness(entry.plan, entry.record)
    requires entry.claimedReady ==> a.Answer? && a.result.nextState == Ready
    ensures OneEntryAtMost(s, Store(s, c, now, expected, entry, pc), a)
  {
    if Saved(s.records, entry.record, expected).Ok? {
      assert ValidRecord(entry.record) && Sound(entry);
      assert Added(s, Store(s, c, now, expected, entry, pc), entry);
    }
  }

  lemma AnswerAdds(s: System, a: Action)
    requires Invariant(s) && Enabled(s, a) && a.Answer?
    ensures OneEntryAtMost(s, Perform(s, a), a)
  {
    var base, q := s.calls[a.c].pc.base, s.calls[a.c].request;
    assert PcOk(s, s.calls[a.c].pc);
    BaseIsOld(s, base);
    AnswerFollows(q.plan, base, a.result, q.actor, a.stamp, a.later);
    StoreAdds(s, a.c, a.later.at, Some(base.updatedAt),
      Entry(Applied(q.plan, base, a.result, q.actor, a.stamp, a.later), q.plan, a.result.nextState == Ready), Done, a);
  }

  lemma FirstVersionAdds(s: System, a: Action)
    requires Enabled(s, a) && (a.Refuse? || a.Start?)
    ensures OneEntryAtMost(s, Perform(s, a), a)
  {
    var q, pc := s.calls[a.c].request, s.calls[a.c].pc;
    if a.Refuse? {
      StoreAdds(s, a.c, a.stamp.at, None,
        Entry(RefusedRecord(q.wellFormed, q.plan, q.operation, q.key, q.actor, a.operationId, a.stamp), q.plan, false), Done, a);
    } else {
      var r := StartedRecord(q.wellFormed, q.plan, q.operation, q.key, q.actor, a.operationId,
                             if pc.previous.Some? then pc.previous.value.secret else None, a.stamp);
      StoreAdds(s, a.c, a.stamp.at, None, Entry(r, q.plan, false), WantAuthorization(r), a);
    }
  }

  lemma RecoverAdds(s: System, a: Action)
    requires Invariant(s) && Enabled(s, a) && a.Recover?
    ensures OneEntryAtMost(s, Perform(s, a), a)
  {
    var base, q := s.calls[a.c].pc.base, s.calls[a.c].request;
    assert PcOk(s, s.calls[a.c].pc);
    BaseIsOld(s, base);
    RecoveryFollows(base, a.stamp, q.actor);
    var r := RecoveringRecord(base, a.stamp, q.actor).value;
    StoreAdds(s, a.c, a.stamp.at, Some(base.updatedAt), Entry(r, q.plan, false), WantAuthorization(r), a);
  }

  lemma AuthorizeAdds(s: System, a: Action)
    requires Invariant(s) && Enabled(s, a) && a.Authorize?
    ensures OneEntryAtMost(s, Perform(s, a), a)
  {
    var base, q := s.calls[a.c].pc.base, s.calls[a.c].request;
    assert PcOk(s, s.calls[a.c].pc);
    BaseIsOld(s, base);
    if base.state == Preflight {
      AuthorizationFollows(base, a.stamp, q.actor, "preflight-completed", "provider-write-authorized");
      var r := TransitionAt(base, Provisioning, a.stamp, q.actor, "preflight-completed", "provider-write-authorized").value;
      StoreAdds(s, a.c, a.stamp.at, Some(base.updatedAt), Entry(r, q.plan, false), InAdapter(r), a);
    }
  }

  lemma DecideAdds(s: System, a: Action)
    requires Invariant(s) && Enabled(s, a) && a.Decide?
    ensures OneEntryAtMost(s, Perform(s, a), a)
  {
    var base, q := s.calls[a.c].pc.base, s.calls[a.c].request;
    assert PcOk(s, s.calls[a.c].pc);
    BaseIsOld(s, base);
    DecisionFollows(base, q.decision, q.actor, a.stamp);
    var r := DecidedRecord(base, q.decision, q.actor, a.stamp).value;
    StoreAdds(s, a.c, a.stamp.at, Some(base.updatedAt), Entry(r, q.plan, false),
      if r.state == Provisioning then WantPreflight(r) else Done, a);
  }

  lemma FailingStepAdds(s: System, a: Action)
    requires Invariant(s) && Enabled(s, a) && (a.Throw? || a.Reject?)
    ensures OneEntryAtMost(s, Perform(s, a), a)
  {
    var base, q := s.calls[a.c].pc.base, s.calls[a.c].request;
    assert PcOk(s, s.calls[a.c].pc);
    if a.Throw? {
      StoreAdds(s, a.c, a.stamp.at, Some(base.updatedAt),
        Entry(FailAt(base, a.stamp, q.actor, "adapter-execution-failed", true, "provider-error"), q.plan, false), Done, a);
    } else {
      StoreAdds(s, a.c, a.stamp.at, Some(base.updatedAt),
        Entry(AppendAuditAt(base, a.stamp, q.actor, "authority-decision-rejected", Failure, "rejected"), q.plan, false), Done, a);
    }
  }

  lemma StepAddsAtMostOne(s: System, a: Action)
    requires Invariant(s) && Enabled(s, a)
    ensures OneEntryAtMost(s, Perform(s, a), a)
  {
    match a
    case Refuse(_, _, _) => FirstVersionAdds(s, a);
    case Start(_, _, _) => FirstVersionAdds(s, a);
    case Recover(_, _) => RecoverAdds(s, a);
    case Authorize(_, _) => AuthorizeAdds(s, a);
    case Answer(_, _, _, _) => AnswerAdds(s, a);
    case Throw(_, _) => FailingStepAdds(s, a);
    case Reject(_, _) => FailingStepAdds(s, a);
    case Decide(_, _) => DecideAdds(s, a);
    case Invoke(_, _) =>
    case Read(_) =>
    case Latest(_, _) =>
    case CheckProof(_) =>
    case PassPreflight(_) =>
    case GiveUp(_) =>
  }

  ghost predicate AllSound(s: System, claims: bool) {
    forall k :: k in s.logs ==> forall i :: 0 <= i < |s.logs[k]| ==>
      Sound(s.logs[k][i]) && (s.logs[k][i].claimedReady ==> claims)
  }

  // The adapter never answers that a client is ready; it only reports what it did.
  predicate AdapterLeavesReadinessToTheEngine(actions: seq<Action>) {
    forall i :: 0 <= i < |actions| && actions[i].Answer? ==> actions[i].result.nextState != Ready
  }

  lemma AdditionStaysSound(s: System, t: System, a: Action, claims: bool)
    requires AllSound(s, claims) && OneEntryAtMost(s, t, a) && (claims || !a.Answer? || a.result.nextState != Ready)
    ensures AllSound(t, claims) && LogsGrow(s, t)
  {
    if t.logs != s.logs {
      var e: Entry :| Added(s, t, e) && Sound(e) && (e.claimedReady ==> a.Answer? && a.result.nextState == Ready);
      var log := t.logs[e.record.key];
      forall i | 0 <= i < |log| ensures Sound(log[i]) && (log[i].claimedReady ==> claims) {
        if i < |log| - 1 { assert log[i] == s.logs[e.record.key][i]; }
      }
    }
  }

  lemma {:induction false} RunsStaySound(states: seq<System>, actions: seq<Action>, i: nat, claims: bool)
    requires IsRun(states, actions) && i < |states| && (claims || AdapterLeavesReadinessToTheEngine(actions))
    ensures AllSound(states[i], claims)
  {
    if i > 0 {
      RunsStaySound(states, actions, i - 1, claims);
      RunsKeepInvariant(states, actions, i - 1);
      StepAddsAtMostOne(states[i - 1], actions[i - 1]);
      AdditionStaysSound(states[i - 1], states[i], actions[i - 1], claims);
    }
  }

  // ------------------------------------------------------------------------------------ theorems

  // What is said about one version in the log of a key, the last of which is the stored record.
  ghost predicate WalkAt(s: System, key: Id, j: nat)
    requires key in s.logs && j < |s.logs[key]|
  {
    var log := s.logs[key];
    var r := log[j].record;
    && key in s.records && s.records[key] == log[|log| - 1].record
    && (if j == 0 then FirstVersion(r) else Follows(log[j - 1].record, r))
    && ValidRecord(r) && ValidAudit(r.audit)
    && (forall k :: j < k < |log| ==> r.audit < log[k].record.audit)
    && (Final(r) ==> j == |log| - 1)
  }

  // In every interleaving, for every adapter: the stored versions of an operation form a walk in the
  // lifecycle, each version extends the audit trail of the one before, keeps the identity of the
  // operation, and counts one more attempt exactly when it leaves a failure; a final version is
  // never replaced; and the sequence numbers of each trail count from one without gaps.
  lemma StoredVersionsFormAWalk(states: seq<System>, actions: seq<Action>, i: nat, key: Id, j: nat)
    requires IsRun(states, actions) && i < |states|
    requires key in states[i].logs && j < |states[i].logs[key]|
    ensures WalkAt(states[i], key, j)
  {
    RunsKeepInvariant(states, actions, i);
    RunsStaySound(states, actions, i, true);
    WalkOfLog(states[i], key, j);
  }

  lemma WalkOfLog(s: System, key: Id, j: nat)
    requires StoreOk(s) && AllSound(s, true) && key in s.logs && j < |s.logs[key]|
    ensures WalkAt(s, key, j)
  {
    var log := s.logs[key];
    assert Sound(log[j]);
    WalkOfChain(log, j);
  }

  lemma WalkOfChain(log: seq<Entry>, j: nat)
    requires Chain(log) && j < |log|
    ensures if j == 0 then FirstVersion(log[0].record) else Follows(log[j - 1].record, log[j].record)
    ensures forall k :: j < k < |log| ==> log[j].record.audit < log[k].record.audit
    ensures Final(log[j].record) ==> j == |log| - 1
  {
    forall k | j < k < |log| ensures log[j].record.audit < log[k].record.audit { ChainRises(log, j, k); }
    if j < |log| - 1 { ChainRises(log, j, |log| - 1); }
  }

  // When the adapter leaves the decision to the engine, every version that was ever stored as ready
  // passes the readiness evaluation for the plan of the call that stored it.
  lemma ReadyMeansPassesReadiness(states: seq<System>, actions: seq<Action>, i: nat, key: Id, j: nat)
    requires IsRun(states, actions) && i < |states| && AdapterLeavesReadinessToTheEngine(actions)
    requires key in states[i].logs && j < |states[i].logs[key]|
    requires states[i].logs[key][j].record.state == Ready
    ensures PassesReadiness(states[i].logs[key][j].plan, states[i].logs[key][j].record)
  {
    RunsStaySound(states, actions, i, false);
    assert Sound(states[i].logs[key][j]);
  }

  lemma StepOnlyAppends(states: seq<System>, actions: seq<Action>, i: nat)
    requires IsRun(states, actions) && i < |actions|
    ensures LogsGrow(states[i], states[i + 1])
  {
    RunsStaySound(states, actions, i, true);
    RunsKeepInvariant(states, actions, i);
    StepAddsAtMostOne(states[i], actions[i]);
    AdditionStaysSound(states[i], states[i + 1], actions[i], true);
  }

  // Versions that were stored stay in the log, at their place.
  lemma LogOnlyGrows(states: seq<System>, actions: seq<Action>, key: Id, i: nat, j: nat)
    requires IsRun(states, actions) && i <= j < |states|
    ensures LogOf(states[i], key) <= LogOf(states[j], key)
  {
    var logs := seq(|states|, k requires 0 <= k < |states| => LogOf(states[k], key));
    forall k | 0 <= k < |logs| - 1 ensures logs[k] <= logs[k + 1] {
      StepOnlyAppends(states, actions, k);
    }
    Sequences.NeighboursChain(logs, (a: seq<Entry>, b: seq<Entry>) => a <= b, i, j);
  }

  // Once an operation is ready, disabled, retired or failed for good, its record never changes.
  lemma FinalRecordsStay(states: seq<System>, actions: seq<Action>, i: nat, j: nat, key: Id)
    requires IsRun(states, actions) && i <= j < |states|
    requires key in states[i].records && Final(states[i].records[key])
    ensures key in states[j].records && states[j].records[key] == states[i].records[key]
  {
    RunsKeepInvariant(states, actions, i);
    RunsKeepInvariant(states, actions, j);
    LogOnlyGrows(states, actions, key, i, j);
    var before, after := LogOf(states[i], key), LogOf(states[j], key);
    assert before <= after;
    if |before| < |after| { ChainRises(after, |before| - 1, |after| - 1); }
  }

  // ------------------------------------------------------------------------- the authority gate

  // A call that may decide holds the authority the gate requires, and then also the proof.
  predicate GateOk(call: Call) {
    match call.pc
    case WantProof(r) =>
      call.request.DecisionRequest? && r.continuation.Some? && r.continuation.value.requiredAuthority == call.request.actor
    case WantDecision(r) =>
      call.request.DecisionRequest? && r.continuation.Some? && r.continuation.value.requiredAuthority == call.request.actor
      && r.continuation.value.proof == call.request.proof
    case _ => true
  }

  ghost predicate GatesOk(s: System) {
    forall c :: c in s.calls ==> GateOk(s.calls[c])
  }

  predicate BeforeTheGate(pc: Pc) {
    !pc.WantProof? && !pc.WantDecision?
  }

  // Only call c moved, and not to the gate.
  predicate MovedOne(s: System, t: System, c: Id) {
    c in t.calls && t.calls == s.calls[c := t.calls[c]] && BeforeTheGate(t.calls[c].pc)
  }

  lemma SavingStepMoves(s: System, a: Action)
    requires Enabled(s, a) && (a.Refuse? || a.Start? || a.Answer? || a.Throw? || a.Reject?)
    ensures MovedOne(s, Perform(s, a), a.c)
  {
  }

  lemma RecoveryStepMoves(s: System, a: Action)
    requires Enabled(s, a) && (a.Recover? || a.Authorize?)
    ensures MovedOne(s, Perform(s, a), a.c)
  {
  }

  lemma DecisionStepMoves(s: System, a: Action)
    requires Enabled(s, a) && a.Decide?
    ensures MovedOne(s, Perform(s, a), a.c)
  {
  }

  // A step moves its own call only, and brings it to the gate only by reading or checking the proof.
  lemma OneCallMoves(s: System, a: Action)
    requires Enabled(s, a)
    ensures var t := Perform(s, a); a.c in t.calls && t.calls == s.calls[a.c := t.calls[a.c]]
    ensures !a.Read? && !a.CheckProof? ==> BeforeTheGate(Perform(s, a).calls[a.c].pc)
  {
    if a.Refuse? || a.Start? || a.Answer? || a.Throw? || a.Reject? {
      SavingStepMoves(s, a);
    } else if a.Recover? || a.Authorize? {
      RecoveryStepMoves(s, a);
    } else if a.Decide? {
      DecisionStepMoves(s, a);
    }
  }

  lemma ReadingKeepsGate(s: System, a: Action)
    requires GatesOk(s) && Enabled(s, a) && (a.Read? || a.CheckProof?)
    ensures a.c in Perform(s, a).calls && GateOk(Perform(s, a).calls[a.c])
  {
    assert GateOk(s.calls[a.c]);
  }

  lemma StepKeepsGates(s: System, a: Action)
    requires GatesOk(s) && Enabled(s, a)
    ensures GatesOk(Perform(s, a))
  {
    OneCallMoves(s, a);
    if a.Read? || a.CheckProof? { ReadingKeepsGate(s, a); }
  }

  lemma {:induction false} RunsKeepGates(states: seq<System>, actions: seq<Action>, i: nat)
    requires IsRun(states, actions) && i < |states|
    ensures GatesOk(states[i])
  {
    if i > 0 {
      RunsKeepGates(states, actions, i - 1);
      StepKeepsGates(states[i - 1], actions[i - 1]);
    }
  }

  // A save changes no version but the one it is based on.
  lemma OnlyItsBaseIsReplaced(s: System, c: Id, now: Time, base: Record, entry: Entry, pc: Pc, key: Id)
    requires StoreOk(s) && c in s.calls && BaseOk(s, base) && entry.record.key == base.key && key in s.records
    ensures var t := Store(s, c, now, Some(base.updatedAt), entry, pc);
      key in t.records && (t.records[key] == s.records[key] || (s.records[key] == base && t.records[key] == entry.record))
  {
    StoreHasThatEffect(s, c, now, Some(base.updatedAt), entry, pc);
    if key == base.key && s.records[key].updatedAt == base.updatedAt {
      UnchangedTimeIsUnchangedVersion(s.logs[key], base);
    }
  }

  // Steps that work on a version in another state leave a pending gate as it is.
  lemma OtherStepsKeepPendingGates(s: System, a: Action, key: Id)
    requires Invariant(s) && Enabled(s, a) && !a.Decide? && !a.Reject?
    requires key in s.records && s.records[key].state == AwaitingAuthority
    ensures var t := Perform(s, a); key in t.records && t.records[key] == s.records[key]
  {
    if a.Recover? { RecoverKeepsPendingGates(s, a, key); }
    if a.Authorize? { AuthorizeKeepsPendingGates(s, a, key); }
    if a.Answer? || a.Throw? { AdapterKeepsPendingGates(s, a, key); }
  }

  lemma RecoverKeepsPendingGates(s: System, a: Action, key: Id)
    requires Invariant(s) && Enabled(s, a) && a.Recover?
    requires key in s.records && s.records[key].state == AwaitingAuthority
    ensures var t := Perform(s, a); key in t.records && t.records[key] == s.records[key]
  {
    var base, q := s.calls[a.c].pc.base, s.calls[a.c].request;
    assert PcOk(s, s.calls[a.c].pc);
    RecoveryKeepsKey(s, base, a.stamp, q.actor);
    var r := RecoveringRecord(base, a.stamp, q.actor).value;
    OnlyItsBaseIsReplaced(s, a.c, a.stamp.at, base, Entry(r, q.plan, false), WantAuthorization(r), key);
  }

  lemma AdapterKeepsPendingGates(s: System, a: Action, key: Id)
    requires Invariant(s) && Enabled(s, a) && (a.Answer? || a.Throw?)
    requires key in s.records && s.records[key].state == AwaitingAuthority
    ensures var t := Perform(s, a); key in t.records && t.records[key] == s.records[key]
  {
    var base, q := s.calls[a.c].pc.base, s.calls[a.c].request;
    assert PcOk(s, s.calls[a.c].pc);
    BaseIsOld(s, base);
    if a.Answer? {
      AnswerFollows(q.plan, base, a.result, q.actor, a.stamp, a.later);
      OnlyItsBaseIsReplaced(s, a.c, a.later.at, base,
        Entry(Applied(q.plan, base, a.result, q.actor, a.stamp, a.later), q.plan, a.result.nextState == Ready), Done, key);
    } else {
      OnlyItsBaseIsReplaced(s, a.c, a.stamp.at, base,
        Entry(FailAt(base, a.stamp, q.actor, "adapter-execution-failed", true, "provider-error"), q.plan, false), Done, key);
    }
  }

  lemma RecoveryKeepsKey(s: System, base: Record, stamp: Stamp, actor: Actor)
    requires StoreOk(s) && BaseOk(s, base) && Retryable(base) && s.clock < stamp.at
    ensures RecoveringRecord(base, stamp, actor).Ok? && RecoveringRecord(base, stamp, actor).value.key == base.key
  {
    BaseIsOld(s, base);
    RecoveryFollows(base, stamp, actor);
  }

  lemma AuthorizeKeepsPendingGates(s: System, a: Action, key: Id)
    requires Invariant(s) && Enabled(s, a) && a.Authorize?
    requires key in s.records && s.records[key].state == AwaitingAuthority
    ensures var t := Perform(s, a); key in t.records && t.records[key] == s.records[key]
  {
    var base, q := s.calls[a.c].pc.base, s.calls[a.c].request;
    assert PcOk(s, s.calls[a.c].pc);
    BaseIsOld(s, base);
    if base.state == Preflight {
      AuthorizationFollows(base, a.stamp, q.actor, "preflight-completed", "provider-write-authorized");
      var r := TransitionAt(base, Provisioning, a.stamp, q.actor, "preflight-completed", "provider-write-authorized").value;
      OnlyItsBaseIsReplaced(s, a.c, a.stamp.at, base, Entry(r, q.plan, false), InAdapter(r), key);
    }
  }

  // Nothing leaves a pending gate for provisioning but the approval of the required authority, with the
  // right proof and before the gate expires: in every run and whatever the adapter does.
  lemma OnlyApprovalPassesTheGate(states: seq<System>, actions: seq<Action>, i: nat, key: Id)
    requires IsRun(states, actions) && i < |actions|
    requires key in states[i].records && states[i].records[key].state == AwaitingAuthority
    requires key in states[i + 1].records && states[i + 1].records[key].state != AwaitingAuthority
    ensures actions[i].Decide? && actions[i].c in states[i].calls
    ensures var q := states[i].calls[actions[i].c].request; var gate := states[i].records[key].continuation;
      && q.DecisionRequest? && gate.Some? && q.actor == gate.value.requiredAuthority && q.proof == gate.value.proof
      && (states[i + 1].records[key].state == Provisioning <==> q.decision == Approve && actions[i].stamp.at < gate.value.expiresAt)
  {
    var s, a := states[i], actions[i];
    RunsKeepInvariant(states, actions, i);
    RunsKeepGates(states, actions, i);
    if a.Decide? {
      DecisionAtTheGate(s, a, key);
    } else if a.Reject? {
      RejectionAtTheGate(s, a, key);
    } else {
      OtherStepsKeepPendingGates(s, a, key);
    }
  }

  lemma DecisionAtTheGate(s: System, a: Action, key: Id)
    requires Invariant(s) && GatesOk(s) && Enabled(s, a) && a.Decide?
    requires key in s.records && s.records[key].state == AwaitingAuthority
    ensures var t := Perform(s, a); var q := s.calls[a.c].request; var gate := s.records[key].continuation;
      key in t.records && (t.records[key] == s.records[key]
        || (q.DecisionRequest? && gate.Some? && q.actor == gate.value.requiredAuthority && q.proof == gate.value.proof
            && (t.records[key].state == Provisioning <==> q.decision == Approve && a.stamp.at < gate.value.expiresAt)))
  {
    var base, q := s.calls[a.c].pc.base, s.calls[a.c].request;
    assert PcOk(s, s.calls[a.c].pc) && GateOk(s.calls[a.c]);
    BaseIsOld(s, base);
    DecisionFollows(base, q.decision, q.actor, a.stamp);
    DecisionOutcome(base, q.decision, q.actor, a.stamp);
    var r := DecidedRecord(base, q.decision, q.actor, a.stamp).value;
    DecideStores(s, a.c, a.stamp, r);
    OnlyItsBaseIsReplaced(s, a.c, a.stamp.at, base, Entry(r, q.plan, false),
      if r.state == Provisioning then WantPreflight(r) else Done, key);
  }

  lemma RejectionAtTheGate(s: System, a: Action, key: Id)
    requires Invariant(s) && Enabled(s, a) && a.Reject?
    requires key in s.records && s.records[key].state == AwaitingAuthority
    ensures var t := Perform(s, a); key in t.records && t.records[key].state == AwaitingAuthority
  {
    var base, q := s.calls[a.c].pc.base, s.calls[a.c].request;
    assert PcOk(s, s.calls[a.c].pc);
    OnlyItsBaseIsReplaced(s, a.c, a.stamp.at, base,
      Entry(AppendAuditAt(base, a.stamp, q.actor, "authority-decision-rejected", Failure, "rejected"), q.plan, false), Done, key);
  }

  // A malformed answer never gets lost: what is stored for it is always a valid record.
  lemma AnswersAreAlwaysStorable(plan: Plan, r: Record, result: AdapterResult, actor: Actor, stamp: Stamp, later: Stamp)
    requires ValidRecord(r) && Executable(r.state) && TrailOk(r) && r.updatedAt < stamp.at < later.at
    ensures ValidRecord(Applied(plan, r, result, actor, stamp, later))
  {
    FailureIsValid(r, stamp, actor, "adapter-transition-invalid", false, "invalid-adapter-result");
    FailureIsValid(r, stamp, actor, "adapter-result-invalid", false, "invalid-adapter-result");
    FailureIsValid(r, later, actor, "adapter-result-invalid", false, "invalid-adapter-result");
  }

  lemma FailureIsValid(r: Record, stamp: Stamp, actor: Actor, code: string, retryable: bool, detail: string)
    requires ValidRecord(r) && TrailOk(r) && r.updatedAt < stamp.at
    ensures ValidRecord(FailAt(r, stamp, actor, code, retryable, detail))
  {
    var failed := FailAt(r, stamp, actor, code, retryable, detail);
    OneMoreAuditEvent(r.audit, failed.audit[|r.audit|]);
  }
}
