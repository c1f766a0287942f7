/** The authority gate of owner-gated plans: how a version comes to be stored as provisioning, and when the gate
    that an adapter asks for is opened. */
module ProvisioningGates {
  import opened Wrappers
  import opened IdentityProvisioning
  import opened IdentityEngine
  import opened ProvisioningProtocol
  import opened ProvisioningTheorems
  import opened ProvisioningExactness

  // ------------------------------------------------------------------------- entering provisioning

  // How a stored version that is provisioning came after the versions before it: authorized under a plan without
  // an owner gate, approved at its pending gate, or on the adapter's word.
  predicate EntersProvisioning(log: seq<Entry>, e: Entry, a: Action) {
    e.record.state == Provisioning ==>
      && log != []
      && var before := log[|log| - 1].record;
         || (a.Authorize? && before.state == Preflight && e.plan.mode != ResumableOwnerGate)
         || (a.Decide? && Approves(before, e.record))
         || (a.Answer? && a.result.nextState == Provisioning && before.state == Preflight)
  }

  // A pending gate, and the same gate approved.
  predicate Approves(before: Record, r: Record) {
    && before.state == AwaitingAuthority && before.continuation.Some?
    && r.continuation == Some(before.continuation.value.(status := Approved))
  }

  ghost predicate AddsEntering(s: System, t: System, a: Action) {
    t.logs == s.logs || exists e: Entry :: Added(s, t, e) && EntersProvisioning(LogOf(s, e.record.key), e, a)
  }

  // A save over a version that was stored adds after exactly that version.
  lemma StoreEnters(s: System, c: Id, now: Time, base: Record, entry: Entry, pc: Pc, a: Action)
    requires StoreOk(s) && c in s.calls && BaseOk(s, base) && entry.record.key == base.key
    requires LastIs(LogOf(s, base.key), base) ==> EntersProvisioning(LogOf(s, base.key), entry, a)
    ensures AddsEntering(s, Store(s, c, now, Some(base.updatedAt), entry, pc), a)
  {
    var t := Store(s, c, now, Some(base.updatedAt), entry, pc);
    StoreHasThatEffect(s, c, now, Some(base.updatedAt), entry, pc);
    EffectEnters(s, t, c, now, base, entry, pc, a);
  }

  lemma EffectEnters(s: System, t: System, c: Id, now: Time, base: Record, entry: Entry, pc: Pc, a: Action)
    requires StoreOk(s) && c in s.calls && BaseOk(s, base) && entry.record.key == base.key
    requires LastIs(LogOf(s, base.key), base) ==> EntersProvisioning(LogOf(s, base.key), entry, a)
    requires StoreEffect(s, t, c, now, Some(base.updatedAt), entry, pc)
    ensures AddsEntering(s, t, a)
  {
    if SavedNext(s, t, entry, now) && base.key in s.records && s.records[base.key].updatedAt == base.updatedAt {
      BaseIsLast(s, base);
      assert Added(s, t, entry);
    } else {
      assert t.logs == s.logs;
    }
  }

  lemma BaseIsLast(s: System, base: Record)
    requires StoreOk(s) && BaseOk(s, base) && base.key in s.records && s.records[base.key].updatedAt == base.updatedAt
    ensures LastIs(LogOf(s, base.key), base)
  {
    UnchangedTimeIsUnchangedVersion(s.logs[base.key], base);
  }

  predicate LastIs(log: seq<Entry>, r: Record) {
    log != [] && log[|log| - 1].record == r
  }

  lemma FirstVersionEnters(s: System, a: Action)
    requires Enabled(s, a) && (a.Refuse? || a.Start?)
    ensures AddsEntering(s, Perform(s, a), a)
  {
    var q, pc := s.calls[a.c].request, s.calls[a.c].pc;
    var entry := if a.Refuse?
      then Entry(RefusedRecord(q.wellFormed, q.plan, q.operation, q.key, q.actor, a.operationId, a.stamp), q.plan, false)
      else Entry(StartedRecord(q.wellFormed, q.plan, q.operation, q.key, q.actor, a.operationId,
                               if pc.previous.Some? then pc.previous.value.secret else None, a.stamp), q.plan, false);
    assert entry.record.state != Provisioning;
    if Perform(s, a).logs != s.logs { assert Added(s, Perform(s, a), entry); }
  }

  lemma RecoveryEnters(s: System, a: Action)
    requires Invariant(s) && Enabled(s, a) && a.Recover?
    ensures AddsEntering(s, Perform(s, a), a)
  {
    var base, q := s.calls[a.c].pc.base, s.calls[a.c].request;
    assert PcOk(s, s.calls[a.c].pc);
    BaseIsOld(s, base);
    RecoveryFollows(base, a.stamp, q.actor);
    var r := RecoveringRecord(base, a.stamp, q.actor).value;
    StoreEnters(s, a.c, a.stamp.at, base, Entry(r, q.plan, false), WantAuthorization(r), a);
  }

  lemma AuthorizationEnters(s: System, a: Action)
    requires Invariant(s) && Enabled(s, a) && a.Authorize?
    ensures AddsEntering(s, Perform(s, a), a)
  {
    var base, q := s.calls[a.c].pc.base, s.calls[a.c].request;
    assert PcOk(s, s.calls[a.c].pc);
    BaseIsOld(s, base);
    if base.state == Preflight && q.plan.mode != ResumableOwnerGate {
      AuthorizationFollows(base, a.stamp, q.actor, "preflight-completed", "provider-write-authorized");
      var r := TransitionAt(base, Provisioning, a.stamp, q.actor, "preflight-completed", "provider-write-authorized").value;
      StoreEnters(s, a.c, a.stamp.at, base, Entry(r, q.plan, false), InAdapter(r), a);
    }
  }

  lemma AnswersStayUnprovisioned(plan: Plan, r: Record, result: AdapterResult, actor: Actor, stamp: Stamp, later: Stamp)
    requires Executable(r.state) && stamp.at < later.at && Applied(plan, r, result, actor, stamp, later).state == Provisioning
    ensures result.nextState == Provisioning && r.state == Preflight
  {
    AnswerCases(plan, r, result, actor, stamp, later);
    ClaimKeepsOperation(r, result, stamp);
    var claimed := Claimed(r, result, stamp);
    if claimed.state == Validating && claimed.observation.Some? { JudgementOutcome(plan, claimed, stamp); }
  }

  lemma AnswerEnters(s: System, a: Action)
    requires Invariant(s) && Enabled(s, a) && a.Answer?
    ensures AddsEntering(s, Perform(s, a), a)
  {
    var base, q := s.calls[a.c].pc.base, s.calls[a.c].request;
    assert PcOk(s, s.calls[a.c].pc);
    BaseIsOld(s, base);
    AnswerFollows(q.plan, base, a.result, q.actor, a.stamp, a.later);
    var r := Applied(q.plan, base, a.result, q.actor, a.stamp, a.later);
    if r.state == Provisioning { AnswersStayUnprovisioned(q.plan, base, a.result, q.actor, a.stamp, a.later); }
    StoreEnters(s, a.c, a.later.at, base, Entry(r, q.plan, a.result.nextState == Ready), Done, a);
  }

  lemma DecisionEnters(s: System, a: Action)
    requires Invariant(s) && Enabled(s, a) && a.Decide?
    ensures AddsEntering(s, Perform(s, a), a)
  {
    var base, q := s.calls[a.c].pc.base, s.calls[a.c].request;
    assert PcOk(s, s.calls[a.c].pc);
    BaseIsOld(s, base);
    DecisionFollows(base, q.decision, q.actor, a.stamp);
    DecisionOutcome(base, q.decision, q.actor, a.stamp);
    var r := DecidedRecord(base, q.decision, q.actor, a.stamp).value;
    DecideStores(s, a.c, a.stamp, r);
    StoreEnters(s, a.c, a.stamp.at, base, Entry(r, q.plan, false), if r.state == Provisioning then WantPreflight(r) else Done, a);
  }

  lemma FailingStepEnters(s: System, a: Action)
    requires Invariant(s) && Enabled(s, a) && (a.Throw? || a.Reject?)
    ensures AddsEntering(s, Perform(s, a), a)
  {
    var base, q := s.calls[a.c].pc.base, s.calls[a.c].request;
    assert PcOk(s, s.calls[a.c].pc);
    if a.Throw? {
      StoreEnters(s, a.c, a.stamp.at, base,
        Entry(FailAt(base, a.stamp, q.actor, "adapter-execution-failed", true, "provider-error"), q.plan, false), Done, a);
    } else {
      StoreEnters(s, a.c, a.stamp.at, base,
        Entry(AppendAuditAt(base, a.stamp, q.actor, "authority-decision-rejected", Failure, "rejected"), q.plan, false), Done, a);
    }
  }

  lemma StepEnters(s: System, a: Action)
    requires Invariant(s) && Enabled(s, a)
    ensures AddsEntering(s, Perform(s, a), a)
  {
    match a
    case Refuse(_, _, _) => FirstVersionEnters(s, a);
    case Start(_, _, _) => FirstVersionEnters(s, a);
    case Recover(_, _) => RecoveryEnters(s, a);
    case Authorize(_, _) => AuthorizationEnters(s, a);
    case Answer(_, _, _, _) => AnswerEnters(s, a);
    case Throw(_, _) => FailingStepEnters(s, a);
    case Reject(_, _) => FailingStepEnters(s, a);
    case Decide(_, _) => DecisionEnters(s, a);
    case _ => QuietStepLogsNothing(s, a);
  }

  lemma QuietStepLogsNothing(s: System, a: Action)
    requires Enabled(s, a)
    requires a.Invoke? || a.Read? || a.Latest? || a.CheckProof? || a.PassPreflight? || a.GiveUp?
    ensures Perform(s, a).logs == s.logs
  {
  }

  // Under an owner-gated plan a provisioning version comes right after its pending gate and carries that gate, approved.
  predicate GatedAt(log: seq<Entry>, j: nat)
    requires j < |log|
  {
    log[j].record.state == Provisioning && log[j].plan.mode == ResumableOwnerGate ==>
      j > 0 && Approves(log[j - 1].record, log[j].record)
  }

  ghost predicate AllGated(s: System) {
    forall k :: k in s.logs ==> forall j :: 0 <= j < |s.logs[k]| ==> GatedAt(s.logs[k], j)
  }

  lemma AdditionStaysGated(s: System, t: System, a: Action)
    requires AllGated(s) && AddsEntering(s, t, a) && (a.Answer? ==> a.result.nextState != Provisioning)
    ensures AllGated(t)
  {
    if t.logs != s.logs {
      var e: Entry :| Added(s, t, e) && EntersProvisioning(LogOf(s, e.record.key), e, a);
      var before, log := LogOf(s, e.record.key), t.logs[e.record.key];
      forall j | 0 <= j < |log| ensures GatedAt(log, j) {
        if j < |before| { assert GatedAt(before, j); }
      }
    }
  }

  // The adapter never answers that a client is being provisioned; that is for the engine to say.
  predicate AdapterNeverProvisions(actions: seq<Action>) {
    forall i :: 0 <= i < |actions| && actions[i].Answer? ==> actions[i].result.nextState != Provisioning
  }

  lemma {:induction false} RunsStayGated(states: seq<System>, actions: seq<Action>, i: nat)
    requires IsRun(states, actions) && i < |states| && AdapterNeverProvisions(actions)
    ensures AllGated(states[i])
  {
    if i > 0 {
      RunsStayGated(states, actions, i - 1);
      RunsKeepInvariant(states, actions, i - 1);
      StepEnters(states[i - 1], actions[i - 1]);
      AdditionStaysGated(states[i - 1], states[i], actions[i - 1]);
    }
  }

  // In every run whose adapter does not itself answer provisioning: every version that was ever stored as
  // provisioning under an owner-gated plan directly follows a pending gate and carries it approved.
  lemma OwnerGatedPlansWaitForTheirAuthority(states: seq<System>, actions: seq<Action>, i: nat, key: Id, j: nat)
    requires IsRun(states, actions) && i < |states| && AdapterNeverProvisions(actions)
    requires key in states[i].logs && j < |states[i].logs[key]|
    requires states[i].logs[key][j].record.state == Provisioning && states[i].logs[key][j].plan.mode == ResumableOwnerGate
    ensures j > 0
    ensures var before, r := states[i].logs[key][j - 1].record, states[i].logs[key][j].record;
      && before.state == AwaitingAuthority && before.continuation.Some?
      && r.continuation == Some(before.continuation.value.(status := Approved))
  {
    RunsStayGated(states, actions, i);
    assert GatedAt(states[i].logs[key], j);
  }

  // And in every run, for any adapter: how the step from one stored version to a provisioning one was made. Under an
  // owner-gated plan it is an approval exactly if it is not the adapter's own word.
  lemma ProvisioningIsEnteredOnlyBy(states: seq<System>, actions: seq<Action>, i: nat, key: Id)
    requires IsRun(states, actions) && i < |actions| && Replaced(states[i], states[i + 1], key)
    requires states[i + 1].records[key].state == Provisioning
    ensures var s, a := states[i], actions[i]; var before, r := s.records[key], states[i + 1].records[key];
      || (a.Authorize? && before.state == Preflight && s.calls[a.c].request.plan.mode != ResumableOwnerGate)
      || (a.Decide? && Approves(before, r))
      || (a.Answer? && a.result.nextState == Provisioning && before.state == Preflight)
    ensures var s, a := states[i], actions[i];
      s.calls[a.c].request.plan.mode == ResumableOwnerGate ==>
        (Approves(s.records[key], states[i + 1].records[key]) <==> !(a.Answer? && a.result.nextState == Provisioning))
  {
    var s, a, t := states[i], actions[i], states[i + 1];
    RunsKeepInvariant(states, actions, i);
    RunsKeepInvariant(states, actions, i + 1);
    StepEnters(s, a);
    ReplacedMeansLonger(s, t, key);
    var e: Entry :| Added(s, t, e) && EntersProvisioning(LogOf(s, e.record.key), e, a);
    if a.Authorize? { AuthorizationReplaced(s, a, key); }
  }

  lemma ReplacedMeansLonger(s: System, t: System, key: Id)
    requires StoreOk(s) && StoreOk(t) && Replaced(s, t, key)
    ensures t.logs[key] != s.logs[key]
    ensures forall e: Entry :: Added(s, t, e) ==> e.record.key == key && t.records[key] == e.record
  {
  }

  lemma AuthorizationReplaced(s: System, a: Action, key: Id)
    requires Invariant(s) && Enabled(s, a) && a.Authorize? && key in s.records && Replaced(s, Perform(s, a), key)
    ensures s.calls[a.c].request.plan.mode != ResumableOwnerGate
  {
  }

  // ------------------------------------------------------------------------------- opening the gate

  // An answer that asks for an authority: a pending gate, everything well formed, and no error.
  predicate AsksForAuthority(result: AdapterResult) {
    && result.nextState == AwaitingAuthority && result.continuation.Some? && result.continuation.value.status == Pending
    && result.error.None? && WellFormedResult(result)
  }

  lemma GateClaimValidExactly(r: Record, result: AdapterResult, stamp: Stamp)
    requires StoredVersion(r) && r.updatedAt < stamp.at && result.nextState == AwaitingAuthority
    ensures ValidRecord(Claimed(r, result, stamp)) <==> AsksForAuthority(result)
  {
    var claimed := Claimed(r, result, stamp);
    OneMoreAuditEvent(r.audit, claimed.audit[|r.audit|]);
    assert ValidAudit(claimed.audit);
  }

  // Such an answer opens the gate exactly from preflight; another answer never does.
  lemma AnswerOpensTheGateExactly(plan: Plan, r: Record, result: AdapterResult, actor: Actor, stamp: Stamp, later: Stamp)
    requires StoredVersion(r) && Executable(r.state) && r.updatedAt < stamp.at < later.at
    ensures var next := Applied(plan, r, result, actor, stamp, later);
      && (next.state == AwaitingAuthority <==> r.state == Preflight && AsksForAuthority(result))
      && (next.state == AwaitingAuthority ==> next.continuation == result.continuation)
  {
    var next := Applied(plan, r, result, actor, stamp, later);
    if result.nextState == AwaitingAuthority {
      GateClaimValidExactly(r, result, stamp);
      FailureKeepsOperation(r, stamp, actor, "adapter-transition-invalid", false, "invalid-adapter-result");
      FailureKeepsOperation(r, stamp, actor, "adapter-result-invalid", false, "invalid-adapter-result");
    } else {
      OtherAnswersOpenNoGate(plan, r, result, actor, stamp, later);
    }
  }

  lemma OtherAnswersOpenNoGate(plan: Plan, r: Record, result: AdapterResult, actor: Actor, stamp: Stamp, later: Stamp)
    requires stamp.at < later.at && result.nextState != AwaitingAuthority
    ensures Applied(plan, r, result, actor, stamp, later).state != AwaitingAuthority
  {
    AnswerCases(plan, r, result, actor, stamp, later);
    ClaimKeepsOperation(r, result, stamp);
    var claimed := Claimed(r, result, stamp);
    if claimed.state == Validating && claimed.observation.Some? { JudgementOutcome(plan, claimed, stamp); }
  }

  // ------------------------------------------------------------------------------ one call of a run

  // The steps of other calls leave a call where it is.
  lemma OthersLeaveIt(states: seq<System>, actions: seq<Action>, c: Id, i: nat)
    requires IsRun(states, actions) && i < |actions| && actions[i].c != c && c in states[i].calls
    ensures c in states[i + 1].calls && states[i + 1].calls[c] == states[i].calls[c]
  {
    OneCallMoves(states[i], actions[i]);
  }

  lemma {:induction false} ItWaits(states: seq<System>, actions: seq<Action>, c: Id, i: nat, j: nat)
    requires IsRun(states, actions) && i <= j < |states| && c in states[i].calls
    requires forall m :: i <= m < j ==> actions[m].c != c
    ensures c in states[j].calls && states[j].calls[c] == states[i].calls[c]
    decreases j
  {
    if i < j {
      ItWaits(states, actions, c, i, j - 1);
      OthersLeaveIt(states, actions, c, j - 1);
    }
  }

  // A call starts a record at step i, is let on at step j and gets its answer at step k.
  ghost predicate StartedRun(states: seq<System>, actions: seq<Action>, c: Id, i: nat, j: nat, k: nat) {
    && IsRun(states, actions) && i < j < k < |actions|
    && actions[i].Start? && actions[i].c == c && actions[j].Authorize? && actions[j].c == c && actions[k].Answer? && actions[k].c == c
    && forall m :: i < m < k && m != j ==> actions[m].c != c
  }

  lemma StartWaitsForAuthorization(s: System, a: Action)
    requires Enabled(s, a) && a.Start?
    ensures var t := Perform(s, a);
      && a.c in t.calls && t.calls[a.c].request == s.calls[a.c].request
      && (t.calls[a.c].pc == Done || (t.calls[a.c].pc.WantAuthorization? && t.calls[a.c].pc.base.state == Preflight))
  {
  }

  lemma AuthorizationAsksTheAdapter(s: System, a: Action)
    requires Enabled(s, a) && a.Authorize? && s.calls[a.c].pc.base.state == Preflight
    ensures var t := Perform(s, a);
      && a.c in t.calls && t.calls[a.c].request == s.calls[a.c].request
      && (t.calls[a.c].pc == Done || (t.calls[a.c].pc.InAdapter?
            && t.calls[a.c].pc.base.state == if s.calls[a.c].request.plan.mode == ResumableOwnerGate then Preflight else Provisioning))
  {
  }

  // The adapter of such a call is asked about a version that is still in preflight exactly under an owner-gated plan.
  lemma StartedRunAsks(states: seq<System>, actions: seq<Action>, c: Id, i: nat, j: nat, k: nat)
    requires StartedRun(states, actions, c, i, j, k)
    ensures c in states[k].calls && states[k].calls[c].request == states[i].calls[c].request && states[k].calls[c].pc.InAdapter?
    ensures states[k].calls[c].pc.base.state == if states[i].calls[c].request.plan.mode == ResumableOwnerGate then Preflight else Provisioning
  {
    StartWaitsForAuthorization(states[i], actions[i]);
    ItWaits(states, actions, c, i + 1, j);
    assert Enabled(states[j], actions[j]);
    AuthorizationAsksTheAdapter(states[j], actions[j]);
    ItWaits(states, actions, c, j + 1, k);
    assert Enabled(states[k], actions[k]);
  }

  // The run that started a record opens the gate its adapter asks for exactly if the plan is owner-gated and the
  // answer asks for an authority in good form, as long as the record was not changed meanwhile.
  lemma StartedRunOpensItsGateExactly(states: seq<System>, actions: seq<Action>, c: Id, i: nat, j: nat, k: nat, key: Id)
    requires StartedRun(states, actions, c, i, j, k) && key in states[k].records && actions[k].result.nextState == AwaitingAuthority
    requires c in states[k].calls && states[k].calls[c].pc == InAdapter(states[k].records[key])
    ensures key in states[k + 1].records
    ensures var r := states[k + 1].records[key];
      && (r.state == AwaitingAuthority <==>
            states[i].calls[c].request.plan.mode == ResumableOwnerGate && AsksForAuthority(actions[k].result))
      && (r.state == AwaitingAuthority ==> r.continuation == actions[k].result.continuation)
  {
    StartedRunAsks(states, actions, c, i, j, k);
    RunsKeepInvariant(states, actions, k);
    var s, a, base := states[k], actions[k], states[k].records[key];
    assert PcOk(s, s.calls[c].pc);
    BaseIsStored(states, actions, k, base);
    AnswerOverTheStored(s, a, key);
    AnswerOpensTheGateExactly(s.calls[c].request.plan, base, a.result, s.calls[c].request.actor, a.stamp, a.later);
  }

  // An answer about the stored version always stores what becomes of it.
  lemma AnswerOverTheStored(s: System, a: Action, key: Id)
    requires Invariant(s) && Enabled(s, a) && a.Answer? && key in s.records && s.calls[a.c].pc == InAdapter(s.records[key])
    requires StoredVersion(s.records[key]) && s.records[key].updatedAt <= s.clock
    ensures var q := s.calls[a.c].request; var t := Perform(s, a);
      key in t.records && t.records[key] == Applied(q.plan, s.records[key], a.result, q.actor, a.stamp, a.later)
  {
    var q, base := s.calls[a.c].request, s.records[key];
    assert PcOk(s, s.calls[a.c].pc);
    StoredIsInLog(s, key);
    AnswersAreAlwaysStorable(q.plan, base, a.result, q.actor, a.stamp, a.later);
    AnswerFollows(q.plan, base, a.result, q.actor, a.stamp, a.later);
    var r := Applied(q.plan, base, a.result, q.actor, a.stamp, a.later);
    SaveOverTheStored(s.records, base, r);
  }

  lemma SaveOverTheStored(records: Records, base: Record, r: Record)
    requires base.key in records && records[base.key] == base && SameOperation(base, r) && ValidRecord(r)
    ensures Saved(records, r, Some(base.updatedAt)) == Ok(records[base.key := r])
  {
  }
}
