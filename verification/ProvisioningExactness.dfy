/** Exactly when a stored version is not an entry of the lifecycle table, and exactly when a version that is
    stored as ready passes the readiness evaluation, in terms of the version and the adapter's answer. */
module ProvisioningExactness {
  import opened Wrappers
  import opened IdentityProvisioning
  import opened IdentityEngine
  import opened ProvisioningProtocol
  import opened ProvisioningTheorems

  // The parts of an answer that are copied into the record are well formed.
  predicate WellFormedResult(result: AdapterResult) {
    && (result.continuation.Some? ==> result.continuation.value.wellFormed)
    && ValidSecret(result.secret)
    && (result.observation.Some? ==> result.observation.value.wellFormed)
    && ValidRollback(result.rollback)
  }

  predicate ActiveSecret(secret: Option<Secret>) {
    secret.Some? && secret.value.status == SecretActive
  }

  // The answer shows the client of the plan as planned, with no gate left open and the secret it needs, new or
  // kept from the version.
  predicate ShownAsPlanned(plan: Plan, r: Record, result: AdapterResult) {
    && r.planId == plan.planId && r.clientRef == plan.clientRef
    && result.observation.Some? && AsPlanned(plan, result.observation.value)
    && (result.continuation.Some? ==> result.continuation.value.status == Approved)
    && (plan.secretRequired ==> ActiveSecret(if result.secret.Some? then result.secret else r.secret))
  }

  // A finished registration that the adapter hands over for validation without fault.
  predicate CleanHandover(plan: Plan, r: Record, result: AdapterResult) {
    && result.nextState == Validating && r.operation != DisableOp && r.operation != RetireOp
    && result.error.None? && ShownAsPlanned(plan, r, result) && WellFormedResult(result)
  }

  // A version as the engine stores it.
  predicate StoredVersion(r: Record) {
    ValidRecord(r) && TrailOk(r)
  }

  // The judgement of a claim is ready exactly if the answer shows the client as planned and has no error.
  lemma JudgedReadyExactly(plan: Plan, r: Record, result: AdapterResult, stamp: Stamp)
    requires result.nextState == Validating && result.observation.Some?
    ensures Judged(plan, Claimed(r, result, stamp), stamp).state == Ready <==> result.error.None? && ShownAsPlanned(plan, r, result)
  {
    NoDriftExactlyAsPlanned(plan, result.observation.value);
  }

  lemma JudgedReadyValidExactly(plan: Plan, r: Record, result: AdapterResult, stamp: Stamp)
    requires StoredVersion(r) && r.updatedAt < stamp.at && result.nextState == Validating && result.observation.Some?
    requires Judged(plan, Claimed(r, result, stamp), stamp).state == Ready
    ensures ValidRecord(Judged(plan, Claimed(r, result, stamp), stamp)) <==> WellFormedResult(result)
  {
    var claimed := Claimed(r, result, stamp);
    var next := Judged(plan, claimed, stamp);
    NoDriftExactlyAsPlanned(plan, result.observation.value);
    OneMoreAuditEvent(r.audit, claimed.audit[|r.audit|]);
    OneMoreAuditEvent(claimed.audit, next.audit[|claimed.audit|]);
    assert ValidAudit(next.audit) && ValidDrift(next.drift);
  }

  // The stored step is not an entry of the lifecycle table exactly for a clean handover from preflight,
  // provisioning or secret-pending: the version in which it is validated is not stored.
  lemma AnswerLeavesTheTableExactly(plan: Plan, r: Record, result: AdapterResult, actor: Actor, stamp: Stamp, later: Stamp)
    requires StoredVersion(r) && Executable(r.state) && r.updatedAt < stamp.at < later.at
    ensures !CanTransition(r.state, Applied(plan, r, result, actor, stamp, later).state) <==>
      (r.state == Preflight || r.state == Provisioning || r.state == SecretPending) && CleanHandover(plan, r, result)
  {
    var next := Applied(plan, r, result, actor, stamp, later);
    AnswerFollows(plan, r, result, actor, stamp, later);
    StepsOutsideTheTable(r.state, next.state);
    if r.state == Preflight || r.state == Provisioning || r.state == SecretPending {
      ReadyFromUnfinishedExactly(plan, r, result, actor, stamp, later);
    }
  }

  lemma StepsOutsideTheTable(x: State, y: State)
    requires Executable(x) && LifecycleStep(x, y)
    ensures CanTransition(x, y) <==> !(y == Ready && (x == Preflight || x == Provisioning || x == SecretPending))
  {
  }

  // The engine judges the answer itself.
  predicate IsJudged(r: Record, result: AdapterResult) {
    result.nextState == Validating && result.observation.Some? && r.operation != DisableOp && r.operation != RetireOp
  }

  lemma JudgedAnswerIsApplied(plan: Plan, r: Record, result: AdapterResult, actor: Actor, stamp: Stamp, later: Stamp)
    requires IsJudged(r, result) && CanTransition(r.state, Validating)
    ensures Applied(plan, r, result, actor, stamp, later) == ValidOrFail(r, Judged(plan, Claimed(r, result, stamp), stamp), actor, later)
  {
  }

  lemma UnjudgedAnswerIsNotReady(plan: Plan, r: Record, result: AdapterResult, actor: Actor, stamp: Stamp, later: Stamp)
    requires !IsJudged(r, result) && !CanTransition(r.state, Ready) && stamp.at < later.at
    ensures Applied(plan, r, result, actor, stamp, later).state != Ready
  {
    FailureKeepsOperation(r, later, actor, "adapter-result-invalid", false, "invalid-adapter-result");
  }

  lemma ReadyFromUnfinishedExactly(plan: Plan, r: Record, result: AdapterResult, actor: Actor, stamp: Stamp, later: Stamp)
    requires StoredVersion(r) && (r.state == Preflight || r.state == Provisioning || r.state == SecretPending)
    requires r.updatedAt < stamp.at < later.at
    ensures Applied(plan, r, result, actor, stamp, later).state == Ready <==> CleanHandover(plan, r, result)
  {
    if IsJudged(r, result) {
      JudgedAnswerIsApplied(plan, r, result, actor, stamp, later);
      JudgedReadyExactly(plan, r, result, stamp);
      FailureKeepsOperation(r, later, actor, "adapter-result-invalid", false, "invalid-adapter-result");
      if Judged(plan, Claimed(r, result, stamp), stamp).state == Ready { JudgedReadyValidExactly(plan, r, result, stamp); }
    } else {
      UnjudgedAnswerIsNotReady(plan, r, result, actor, stamp, later);
    }
  }

  // Where the adapter itself answers ready: it is stored as ready exactly if the answer is well formed, has an
  // observation and no error, and the table allows it.
  lemma ClaimedReadyIsStoredExactly(plan: Plan, r: Record, result: AdapterResult, actor: Actor, stamp: Stamp, later: Stamp)
    requires StoredVersion(r) && Executable(r.state) && r.updatedAt < stamp.at < later.at && result.nextState == Ready
    ensures Applied(plan, r, result, actor, stamp, later).state == Ready <==>
      && (r.state == Validating || r.state == Rotating || r.state == Recovering)
      && result.error.None? && result.observation.Some? && WellFormedResult(result)
    ensures Applied(plan, r, result, actor, stamp, later).state == Ready ==>
      Applied(plan, r, result, actor, stamp, later) == Claimed(r, result, stamp)
  {
    var claimed := Claimed(r, result, stamp);
    FailureKeepsOperation(r, stamp, actor, "adapter-transition-invalid", false, "invalid-adapter-result");
    FailureKeepsOperation(r, later, actor, "adapter-result-invalid", false, "invalid-adapter-result");
    if CanTransition(r.state, Ready) {
      ClaimValidExactly(r, result, stamp);
      assert Applied(plan, r, result, actor, stamp, later) == ValidOrFail(r, claimed, actor, later);
    }
  }

  lemma ClaimValidExactly(r: Record, result: AdapterResult, stamp: Stamp)
    requires StoredVersion(r) && r.updatedAt < stamp.at && result.nextState == Ready
    ensures ValidRecord(Claimed(r, result, stamp)) <==>
      result.error.None? && result.observation.Some? && WellFormedResult(result)
  {
    var claimed := Claimed(r, result, stamp);
    OneMoreAuditEvent(r.audit, claimed.audit[|r.audit|]);
    assert ValidAudit(claimed.audit);
  }

  // A version stored as ready passes the readiness evaluation exactly if the adapter left the decision to the
  // engine or its answer shows the client as planned.
  lemma ReadyPassesExactly(plan: Plan, r: Record, result: AdapterResult, actor: Actor, stamp: Stamp, later: Stamp)
    requires StoredVersion(r) && Executable(r.state) && r.updatedAt < stamp.at < later.at
    requires Applied(plan, r, result, actor, stamp, later).state == Ready
    ensures PassesReadiness(plan, Applied(plan, r, result, actor, stamp, later)) <==>
      result.nextState != Ready || ShownAsPlanned(plan, r, result)
  {
    AnswerFollows(plan, r, result, actor, stamp, later);
    if result.nextState == Ready { ClaimedReadyIsStoredExactly(plan, r, result, actor, stamp, later); }
  }

  // ------------------------------------------------------------------------------------ whole runs

  lemma BaseIsStored(states: seq<System>, actions: seq<Action>, i: nat, base: Record)
    requires IsRun(states, actions) && i < |states| && BaseOk(states[i], base)
    ensures StoredVersion(base) && base.updatedAt <= states[i].clock
  {
    RunsKeepInvariant(states, actions, i);
    RunsStaySound(states, actions, i, true);
    var log := LogOf(states[i], base.key);
    var k :| 0 <= k < |log| && log[k].record == base;
    assert Sound(log[k]) && LogOk(log, base.key, states[i].clock);
    assert if k == 0 then FirstVersion(log[0].record) else Follows(log[k - 1].record, log[k].record);
    BaseIsOld(states[i], base);
  }

  // The stored version of a key was replaced by a step.
  predicate Replaced(s: System, t: System, key: Id) {
    key in s.records && key in t.records && t.records[key] != s.records[key]
  }

  // Which step replaced it, and by what.
  predicate AnsweredOver(s: System, t: System, a: Action, key: Id)
    requires key in s.records && key in t.records
  {
    && a.Answer? && a.c in s.calls && s.calls[a.c].pc == InAdapter(s.records[key])
    && t.records[key] == Applied(s.calls[a.c].request.plan, s.records[key], a.result, s.calls[a.c].request.actor, a.stamp, a.later)
  }

  lemma ReplacingStep(s: System, a: Action, key: Id)
    requires Invariant(s) && Enabled(s, a) && key in s.records && Replaced(s, Perform(s, a), key)
    ensures var before, after := s.records[key], Perform(s, a).records[key];
      || AnsweredOver(s, Perform(s, a), a, key)
      || (a.Reject? && before.state == AwaitingAuthority && after.state == AwaitingAuthority)
      || (!a.Answer? && !a.Reject? && CanTransition(before.state, after.state) && after.state != Ready)
  {
    match a
    case Answer(_, _, _, _) => AnswerReplaces(s, a, key);
    case Reject(_, _) => RejectReplaces(s, a, key);
    case Decide(_, _) => DecisionReplaces(s, a, key);
    case Recover(_, _) => RecoveryReplaces(s, a, key);
    case Authorize(_, _) => AuthorizationReplaces(s, a, key);
    case Throw(_, _) => ThrowReplaces(s, a, key);
    case Refuse(_, _, _) => FirstVersionReplacesNothing(s, a, key);
    case Start(_, _, _) => FirstVersionReplacesNothing(s, a, key);
    case _ => QuietStepStoresNothing(s, a);
  }

  lemma FirstVersionReplacesNothing(s: System, a: Action, key: Id)
    requires Enabled(s, a) && (a.Refuse? || a.Start?) && key in s.records
    ensures !Replaced(s, Perform(s, a), key)
  {
  }

  lemma AnswerReplaces(s: System, a: Action, key: Id)
    requires Invariant(s) && Enabled(s, a) && a.Answer? && key in s.records && Replaced(s, Perform(s, a), key)
    ensures AnsweredOver(s, Perform(s, a), a, key)
  {
    var base, q := s.calls[a.c].pc.base, s.calls[a.c].request;
    assert PcOk(s, s.calls[a.c].pc);
    BaseIsOld(s, base);
    AnswerFollows(q.plan, base, a.result, q.actor, a.stamp, a.later);
    OnlyItsBaseIsReplaced(s, a.c, a.later.at, base,
      Entry(Applied(q.plan, base, a.result, q.actor, a.stamp, a.later), q.plan, a.result.nextState == Ready), Done, key);
  }

  lemma RejectReplaces(s: System, a: Action, key: Id)
    requires Invariant(s) && Enabled(s, a) && a.Reject? && key in s.records && Replaced(s, Perform(s, a), key)
    ensures s.records[key].state == AwaitingAuthority && Perform(s, a).records[key].state == AwaitingAuthority
  {
    var base, q := s.calls[a.c].pc.base, s.calls[a.c].request;
    assert PcOk(s, s.calls[a.c].pc);
    OnlyItsBaseIsReplaced(s, a.c, a.stamp.at, base,
      Entry(AppendAuditAt(base, a.stamp, q.actor, "authority-decision-rejected", Failure, "rejected"), q.plan, false), Done, key);
  }

  lemma DecisionReplaces(s: System, a: Action, key: Id)
    requires Invariant(s) && Enabled(s, a) && a.Decide? && key in s.records && Replaced(s, Perform(s, a), key)
    ensures CanTransition(s.records[key].state, Perform(s, a).records[key].state) && Perform(s, a).records[key].state != Ready
  {
    var base, q := s.calls[a.c].pc.base, s.calls[a.c].request;
    assert PcOk(s, s.calls[a.c].pc);
    BaseIsOld(s, base);
    DecisionFollows(base, q.decision, q.actor, a.stamp);
    var r := DecidedRecord(base, q.decision, q.actor, a.stamp).value;
    DecideStores(s, a.c, a.stamp, r);
    OnlyItsBaseIsReplaced(s, a.c, a.stamp.at, base, Entry(r, q.plan, false),
      if r.state == Provisioning then WantPreflight(r) else Done, key);
  }

  lemma RecoveryReplaces(s: System, a: Action, key: Id)
    requires Invariant(s) && Enabled(s, a) && a.Recover? && key in s.records && Replaced(s, Perform(s, a), key)
    ensures CanTransition(s.records[key].state, Perform(s, a).records[key].state) && Perform(s, a).records[key].state != Ready
  {
    var base, q := s.calls[a.c].pc.base, s.calls[a.c].request;
    assert PcOk(s, s.calls[a.c].pc);
    BaseIsOld(s, base);
    RecoveryFollows(base, a.stamp, q.actor);
    var r := RecoveringRecord(base, a.stamp, q.actor).value;
    OnlyItsBaseIsReplaced(s, a.c, a.stamp.at, base, Entry(r, q.plan, false), WantAuthorization(r), key);
  }

  lemma AuthorizationReplaces(s: System, a: Action, key: Id)
    requires Invariant(s) && Enabled(s, a) && a.Authorize? && key in s.records && Replaced(s, Perform(s, a), key)
    ensures CanTransition(s.records[key].state, Perform(s, a).records[key].state) && Perform(s, a).records[key].state != Ready
  {
    var base, q := s.calls[a.c].pc.base, s.calls[a.c].request;
    assert PcOk(s, s.calls[a.c].pc);
    BaseIsOld(s, base);
    if base.state == Preflight {
      AuthorizationFollows(base, a.stamp, q.actor, "preflight-completed", "provider-write-authorized");
      var r := TransitionAt(base, Provisioning, a.stamp, q.actor, "preflight-completed", "provider-write-authorized").value;
      OnlyItsBaseIsReplaced(s, a.c, a.stamp.at, base, Entry(r, q.plan, false), InAdapter(r), key);
    }
  }

  lemma ThrowReplaces(s: System, a: Action, key: Id)
    requires Invariant(s) && Enabled(s, a) && a.Throw? && key in s.records && Replaced(s, Perform(s, a), key)
    ensures CanTransition(s.records[key].state, Perform(s, a).records[key].state) && Perform(s, a).records[key].state != Ready
  {
    var base, q := s.calls[a.c].pc.base, s.calls[a.c].request;
    assert PcOk(s, s.calls[a.c].pc);
    OnlyItsBaseIsReplaced(s, a.c, a.stamp.at, base,
      Entry(FailAt(base, a.stamp, q.actor, "adapter-execution-failed", true, "provider-error"), q.plan, false), Done, key);
  }

  // In every run: the step from one stored version to the next is not an entry of the lifecycle table exactly
  // if it records a rejected decision on a pending gate, or an adapter's clean handover of a registration that
  // was not being validated yet.
  lemma StoredStepLeavesTheTableExactly(states: seq<System>, actions: seq<Action>, i: nat, key: Id)
    requires IsRun(states, actions) && i < |actions| && Replaced(states[i], states[i + 1], key)
    ensures var s, a := states[i], actions[i]; var before := s.records[key];
      !CanTransition(before.state, states[i + 1].records[key].state) <==>
        || a.Reject?
        || (AnsweredOver(s, states[i + 1], a, key)
            && (before.state == Preflight || before.state == Provisioning || before.state == SecretPending)
            && CleanHandover(s.calls[a.c].request.plan, before, a.result))
  {
    var s, a := states[i], actions[i];
    RunsKeepInvariant(states, actions, i);
    ReplacingStep(s, a, key);
    if AnsweredOver(s, states[i + 1], a, key) {
      assert PcOk(s, s.calls[a.c].pc);
      BaseIsStored(states, actions, i, s.records[key]);
      AnswerLeavesTheTableExactly(s.calls[a.c].request.plan, s.records[key], a.result, s.calls[a.c].request.actor, a.stamp, a.later);
    }
  }

  // In every run and for every adapter: a version stored as ready comes from an answer, and it passes the
  // readiness evaluation for the plan of the call that stored it exactly if the adapter left the decision to
  // the engine or its answer shows the client as planned.
  lemma StoredReadyPassesExactly(states: seq<System>, actions: seq<Action>, i: nat, key: Id)
    requires IsRun(states, actions) && i < |actions| && Replaced(states[i], states[i + 1], key)
    requires states[i + 1].records[key].state == Ready
    ensures var s, a := states[i], actions[i];
      && AnsweredOver(s, states[i + 1], a, key)
      && (PassesReadiness(s.calls[a.c].request.plan, states[i + 1].records[key]) <==>
            a.result.nextState != Ready || ShownAsPlanned(s.calls[a.c].request.plan, s.records[key], a.result))
  {
    var s, a := states[i], actions[i];
    RunsKeepInvariant(states, actions, i);
    ReplacingStep(s, a, key);
    assert PcOk(s, s.calls[a.c].pc);
    BaseIsStored(states, actions, i, s.records[key]);
    ReadyPassesExactly(s.calls[a.c].request.plan, s.records[key], a.result, s.calls[a.c].request.actor, a.stamp, a.later);
  }
}
