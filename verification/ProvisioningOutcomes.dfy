/** What becomes of an operation: the state and the retryability of every answer in terms of the answer, and that a
    call only ever works on the record its request is bound to. */
module ProvisioningOutcomes {
  import opened Wrappers
  import opened IdentityProvisioning
  import opened IdentityEngine
  import opened ProvisioningProtocol
  import opened ProvisioningTheorems
  import opened ProvisioningExactness
  import opened ProvisioningGates

  // ----------------------------------------------------------------------------------- the answers

  function SecretAfter(r: Record, result: AdapterResult): Option<Secret> {
    if result.secret.Some? then result.secret else r.secret
  }

  // The gate that goes with the answer: its own, or one that was approved before.
  function GateAfter(r: Record, result: AdapterResult): Option<Continuation> {
    if result.continuation.Some? then result.continuation
    else if r.continuation.Some? && r.continuation.value.status == Approved then r.continuation
    else None
  }

  // The version holds what the answer brought, and what it left out is as it was.
  predicate BroughtBy(r: Record, result: AdapterResult, next: Record) {
    && next.secret == SecretAfter(r, result) && next.continuation == GateAfter(r, result)
    && next.observation == result.observation && next.rollback == result.rollback
  }

  predicate NothingBrought(r: Record, next: Record) {
    && next.secret == r.secret && next.continuation == r.continuation
    && next.observation == r.observation && next.rollback == r.rollback
  }

  // What the answer must hold for the state it names.
  predicate FitsItsState(r: Record, result: AdapterResult) {
    && (result.nextState == Ready ==> result.observation.Some?)
    && (result.nextState == AwaitingAuthority ==> result.continuation.Some? && result.continuation.value.status == Pending)
    && (result.nextState == Retired ==> SecretAfter(r, result).Some? && SecretAfter(r, result).value.status == SecretRevoked)
    && (result.error.Some? ==> result.error.value.wellFormed && (result.nextState == Failed || result.nextState == Recovering))
  }

  // The answer is stored as the state it names.
  predicate TakenAsAnswered(r: Record, result: AdapterResult) {
    CanTransition(r.state, result.nextState) && !IsJudged(r, result) && WellFormedResult(result) && FitsItsState(r, result)
  }

  // The version becomes ready by the engine's judgement, or fails it.
  predicate PassesJudgement(plan: Plan, r: Record, result: AdapterResult) {
    CanTransition(r.state, Validating) && IsJudged(r, result) && WellFormedResult(result)
    && result.error.None? && ShownAsPlanned(plan, r, result)
  }

  predicate FailsJudgement(plan: Plan, r: Record, result: AdapterResult) {
    CanTransition(r.state, Validating) && IsJudged(r, result) && WellFormedResult(result)
    && !(result.error.None? && ShownAsPlanned(plan, r, result))
  }

  // The claim as it is stored, with an explanation if it failed without one.
  function ClaimToStore(r: Record, result: AdapterResult, stamp: Stamp): Record {
    var claimed := Claimed(r, result, stamp);
    if (result.nextState == Failed || result.nextState == Recovering) && result.error.None?
    then claimed.(error := Some(OperationError(true, "provider-operation-failed", result.nextState == Recovering)))
    else claimed
  }

  lemma ClaimTrailIsValid(r: Record, result: AdapterResult, stamp: Stamp)
    requires StoredVersion(r) && r.updatedAt < stamp.at
    ensures ValidAudit(Claimed(r, result, stamp).audit) && ValidDrift(Claimed(r, result, stamp).drift)
  {
    OneMoreAuditEvent(r.audit, Claimed(r, result, stamp).audit[|r.audit|]);
  }

  lemma ClaimToStoreValidExactly(r: Record, result: AdapterResult, stamp: Stamp)
    requires StoredVersion(r) && r.updatedAt < stamp.at
    ensures ValidRecord(ClaimToStore(r, result, stamp)) <==> WellFormedResult(result) && FitsItsState(r, result)
  {
    ClaimTrailIsValid(r, result, stamp);
  }

  lemma UnjudgedIsApplied(plan: Plan, r: Record, result: AdapterResult, actor: Actor, stamp: Stamp, later: Stamp)
    requires CanTransition(r.state, result.nextState) && !IsJudged(r, result)
    ensures Applied(plan, r, result, actor, stamp, later) ==
      ValidOrFail(r, ClaimToStore(r, result, stamp), actor, if result.nextState == AwaitingAuthority then stamp else later)
  {
  }

  lemma UnfitJudgement(plan: Plan, r: Record, result: AdapterResult, stamp: Stamp)
    requires StoredVersion(r) && r.updatedAt < stamp.at && result.nextState == Validating && result.observation.Some?
    ensures var judged := Judged(plan, Claimed(r, result, stamp), stamp);
      && (ValidRecord(judged) <==> WellFormedResult(result))
      && (judged.state == Ready <==> result.error.None? && ShownAsPlanned(plan, r, result))
      && (judged.state != Ready ==> judged.state == Failed && judged.error.Some? && judged.error.value.retryable)
  {
    var claimed := Claimed(r, result, stamp);
    var judged := Judged(plan, claimed, stamp);
    JudgedReadyExactly(plan, r, result, stamp);
    NoDriftExactlyAsPlanned(plan, result.observation.value);
    OneMoreAuditEvent(r.audit, claimed.audit[|r.audit|]);
    OneMoreAuditEvent(claimed.audit, judged.audit[|claimed.audit|]);
    assert ValidAudit(judged.audit) && ValidDrift(judged.drift);
  }

  // For any answer, the state that is stored and whether the operation may be run again.
  lemma AnswerOutcome(plan: Plan, r: Record, result: AdapterResult, actor: Actor, stamp: Stamp, later: Stamp)
    requires StoredVersion(r) && Executable(r.state) && r.updatedAt < stamp.at < later.at
    ensures var next := Applied(plan, r, result, actor, stamp, later);
      && next.state == (if TakenAsAnswered(r, result) then result.nextState
                        else if PassesJudgement(plan, r, result) then Ready
                        else Failed)
      && (Retryable(next) <==>
            || FailsJudgement(plan, r, result)
            || (TakenAsAnswered(r, result) && result.nextState == Failed && result.error.Some? && result.error.value.retryable))
      && (next.error.Some? <==> next.state == Failed || next.state == Recovering)
      && (if TakenAsAnswered(r, result) || PassesJudgement(plan, r, result) || FailsJudgement(plan, r, result)
          then BroughtBy(r, result, next) else NothingBrought(r, next))
  {
    if !CanTransition(r.state, result.nextState) {
      RefusedAnswer(plan, r, result, actor, stamp, later);
    } else if IsJudged(r, result) {
      JudgedOutcome(plan, r, result, actor, stamp, later);
    } else {
      UnjudgedOutcome(plan, r, result, actor, stamp, later);
    }
  }

  lemma RefusedAnswer(plan: Plan, r: Record, result: AdapterResult, actor: Actor, stamp: Stamp, later: Stamp)
    requires !CanTransition(r.state, result.nextState)
    ensures FailedForGood(r, Applied(plan, r, result, actor, stamp, later))
  {
  }

  // The version as it was, failed, with an error that may not be retried.
  predicate FailedForGood(r: Record, next: Record) {
    && next.state == Failed && next.error.Some? && !next.error.value.retryable
    && NothingBrought(r, next)
  }

  lemma InvalidFailsForGood(r: Record, next: Record, actor: Actor, later: Stamp)
    ensures if ValidRecord(next) then ValidOrFail(r, next, actor, later) == next
            else FailedForGood(r, ValidOrFail(r, next, actor, later))
  {
  }

  lemma JudgedOutcome(plan: Plan, r: Record, result: AdapterResult, actor: Actor, stamp: Stamp, later: Stamp)
    requires StoredVersion(r) && CanTransition(r.state, result.nextState) && IsJudged(r, result) && r.updatedAt < stamp.at
    ensures var next := Applied(plan, r, result, actor, stamp, later);
      if !WellFormedResult(result) then FailedForGood(r, next)
      else
        && next.state == (if PassesJudgement(plan, r, result) then Ready else Failed)
        && (if next.state == Failed then next.error.Some? && next.error.value.retryable else next.error.None?)
        && BroughtBy(r, result, next)
  {
    var judged := Judged(plan, Claimed(r, result, stamp), stamp);
    JudgedAnswerIsApplied(plan, r, result, actor, stamp, later);
    UnfitJudgement(plan, r, result, stamp);
    InvalidFailsForGood(r, judged, actor, later);
    JudgementKeepsTheRest(plan, Claimed(r, result, stamp), stamp);
  }

  lemma JudgementKeepsTheRest(plan: Plan, r: Record, stamp: Stamp)
    requires r.state == Validating && r.observation.Some?
    ensures var next := Judged(plan, r, stamp);
      NothingBrought(r, next) && (next.state == Ready ==> next.error.None?)
  {
  }

  lemma UnjudgedOutcome(plan: Plan, r: Record, result: AdapterResult, actor: Actor, stamp: Stamp, later: Stamp)
    requires StoredVersion(r) && CanTransition(r.state, result.nextState) && !IsJudged(r, result) && r.updatedAt < stamp.at
    ensures var next := Applied(plan, r, result, actor, stamp, later);
      if TakenAsAnswered(r, result) then next == ClaimToStore(r, result, stamp) else FailedForGood(r, next)
  {
    UnjudgedIsApplied(plan, r, result, actor, stamp, later);
    ClaimToStoreValidExactly(r, result, stamp);
    InvalidFailsForGood(r, ClaimToStore(r, result, stamp), actor, if result.nextState == AwaitingAuthority then stamp else later);
  }

  // --------------------------------------------------------------------------- one record, one call

  // The version a call works on.
  function BaseOf(pc: Pc): Option<Record> {
    match pc
    case WantRecovery(r) => Some(r)
    case WantAuthorization(r) => Some(r)
    case InAdapter(r) => Some(r)
    case WantDenial(r) => Some(r)
    case WantProof(r) => Some(r)
    case WantDecision(r) => Some(r)
    case WantPreflight(r) => Some(r)
    case _ => None
  }

  // It is one of the key, the plan and the client of the request, and of the operation that is to be run.
  predicate IsBound(q: Request, r: Record) {
    && r.key == q.key && r.planId == q.plan.planId && r.clientRef == q.plan.clientRef
    && (q.RunRequest? ==> r.operation == q.operation)
  }

  predicate BoundOk(call: Call) {
    BaseOf(call.pc).Some? ==> IsBound(call.request, BaseOf(call.pc).value)
  }

  ghost predicate CallsBound(s: System) {
    forall c :: c in s.calls ==> BoundOk(s.calls[c])
  }

  lemma ReadBinds(s: System, a: Action)
    requires Enabled(s, a) && a.Read?
    requires s.calls[a.c].request.key in s.records ==> s.records[s.calls[a.c].request.key].key == s.calls[a.c].request.key
    ensures BoundOk(Perform(s, a).calls[a.c])
  {
  }

  lemma FirstVersionBinds(s: System, a: Action)
    requires Enabled(s, a) && (a.Start? || a.Refuse?)
    ensures BoundOk(Perform(s, a).calls[a.c])
  {
  }

  lemma RecoveryBinds(s: System, a: Action)
    requires Enabled(s, a) && a.Recover? && BoundOk(s.calls[a.c])
    ensures BoundOk(Perform(s, a).calls[a.c])
  {
    var base, q := s.calls[a.c].pc.base, s.calls[a.c].request;
    if RecoveringRecord(base, a.stamp, q.actor).Ok? {
      var r := RecoveringRecord(base, a.stamp, q.actor).value;
      StoreBinds(s, a.c, a.stamp.at, Some(base.updatedAt), Entry(r, q.plan, false), WantAuthorization(r));
    }
  }

  lemma AuthorizationBinds(s: System, a: Action)
    requires Enabled(s, a) && a.Authorize? && BoundOk(s.calls[a.c])
    ensures BoundOk(Perform(s, a).calls[a.c])
  {
    var base, q := s.calls[a.c].pc.base, s.calls[a.c].request;
    if base.state == Preflight {
      var r := TransitionAt(base, Provisioning, a.stamp, q.actor, "preflight-completed", "provider-write-authorized").value;
      StoreBinds(s, a.c, a.stamp.at, Some(base.updatedAt), Entry(r, q.plan, false), InAdapter(r));
    }
  }

  lemma DecidedIsBound(q: Request, base: Record, stamp: Stamp) returns (r: Record)
    requires q.DecisionRequest? && IsBound(q, base) && base.state == AwaitingAuthority && base.continuation.Some?
    ensures DecidedRecord(base, q.decision, q.actor, stamp) == Ok(r) && IsBound(q, r)
  {
    DecisionShape(base, q.decision, q.actor, stamp);
    r := DecidedRecord(base, q.decision, q.actor, stamp).value;
  }

  lemma DecisionBinds(s: System, a: Action)
    requires Enabled(s, a) && a.Decide? && BoundOk(s.calls[a.c]) && s.calls[a.c].pc.base.state == AwaitingAuthority
    ensures BoundOk(Perform(s, a).calls[a.c])
  {
    var base, q := s.calls[a.c].pc.base, s.calls[a.c].request;
    var r := DecidedIsBound(q, base, a.stamp);
    var pc := if r.state == Provisioning then WantPreflight(r) else Done;
    DecideStores(s, a.c, a.stamp, r);
    StoreBinds(s, a.c, a.stamp.at, Some(base.updatedAt), Entry(r, q.plan, false), pc);
  }

  lemma StoreBinds(s: System, c: Id, now: Time, expected: Option<Time>, entry: Entry, pc: Pc)
    requires c in s.calls && BoundOk(s.calls[c].(pc := pc))
    ensures var t := Store(s, c, now, expected, entry, pc); c in t.calls && BoundOk(t.calls[c])
  {
    StoreHasThatEffect(s, c, now, expected, entry, pc);
  }

  lemma QuietStepBinds(s: System, a: Action)
    requires Enabled(s, a) && (a.Invoke? || a.Latest? || a.CheckProof? || a.PassPreflight? || a.GiveUp?)
    requires a.c in s.calls ==> BoundOk(s.calls[a.c])
    ensures BoundOk(Perform(s, a).calls[a.c])
  {
  }

  lemma AnswerBinds(s: System, a: Action)
    requires Enabled(s, a) && a.Answer?
    ensures BoundOk(Perform(s, a).calls[a.c])
  {
  }

  lemma FailingStepBinds(s: System, a: Action)
    requires Enabled(s, a) && (a.Throw? || a.Reject?)
    ensures BoundOk(Perform(s, a).calls[a.c])
  {
  }

  lemma StepBinds(s: System, a: Action)
    requires Invariant(s) && Enabled(s, a) && CallsBound(s)
    ensures CallsBound(Perform(s, a))
  {
    OneCallMoves(s, a);
    StepBindsItsCall(s, a);
  }

  lemma StepBindsItsCall(s: System, a: Action)
    requires Invariant(s) && Enabled(s, a) && (a.c in s.calls ==> BoundOk(s.calls[a.c]))
    ensures a.c in Perform(s, a).calls && BoundOk(Perform(s, a).calls[a.c])
  {
    OneCallMoves(s, a);
    match a
    case Read(_) =>
      if s.calls[a.c].request.key in s.records { StoredIsInLog(s, s.calls[a.c].request.key); }
      ReadBinds(s, a);
    case Start(_, _, _) => FirstVersionBinds(s, a);
    case Refuse(_, _, _) => FirstVersionBinds(s, a);
    case Recover(_, _) => RecoveryBinds(s, a);
    case Authorize(_, _) => AuthorizationBinds(s, a);
    case Decide(_, _) =>
      assert PcOk(s, s.calls[a.c].pc);
      DecisionBinds(s, a);
    case Answer(_, _, _, _) => AnswerBinds(s, a);
    case Throw(_, _) => FailingStepBinds(s, a);
    case Reject(_, _) => FailingStepBinds(s, a);
    case _ => QuietStepBinds(s, a);
  }

  // In every run: a call only ever works on versions of its own key, plan, client and operation, that were stored.
  lemma {:induction false} CallsWorkOnTheirOwn(states: seq<System>, actions: seq<Action>, i: nat)
    requires IsRun(states, actions) && i < |states|
    ensures forall c :: c in states[i].calls && BaseOf(states[i].calls[c].pc).Some? ==>
      var r := BaseOf(states[i].calls[c].pc).value; IsBound(states[i].calls[c].request, r) && InLog(LogOf(states[i], r.key), r)
  {
    RunsBind(states, actions, i);
    RunsKeepInvariant(states, actions, i);
    forall c | c in states[i].calls && BaseOf(states[i].calls[c].pc).Some?
      ensures var r := BaseOf(states[i].calls[c].pc).value; IsBound(states[i].calls[c].request, r) && InLog(LogOf(states[i], r.key), r)
    {
      assert BoundOk(states[i].calls[c]) && PcOk(states[i], states[i].calls[c].pc);
    }
  }

  lemma {:induction false} RunsBind(states: seq<System>, actions: seq<Action>, i: nat)
    requires IsRun(states, actions) && i < |states|
    ensures CallsBound(states[i])
  {
    if i > 0 {
      RunsBind(states, actions, i - 1);
      RunsKeepInvariant(states, actions, i - 1);
      StepBinds(states[i - 1], actions[i - 1]);
    }
  }

  // ---------------------------------------------------------------------------------- whole runs

  // In every run: a version that is stored as failed over another may be run again exactly if the adapter threw,
  // the gate had expired or its decision was cancelled, the client failed the judgement, or the adapter said so.
  lemma FailuresAreRetryableExactly(states: seq<System>, actions: seq<Action>, i: nat, key: Id)
    requires IsRun(states, actions) && i < |actions| && Replaced(states[i], states[i + 1], key)
    requires states[i + 1].records[key].state == Failed
    ensures var s, a, before := states[i], actions[i], states[i].records[key]; var q := s.calls[a.c].request;
      Retryable(states[i + 1].records[key]) <==>
        || a.Throw?
        || (a.Decide? && q.DecisionRequest? && before.continuation.Some?
            && (before.continuation.value.expiresAt <= a.stamp.at || q.decision == Cancel))
        || (a.Answer? && (FailsJudgement(q.plan, before, a.result)
                          || (TakenAsAnswered(before, a.result) && a.result.error.Some? && a.result.error.value.retryable)))
  {
    var s, a := states[i], actions[i];
    RunsKeepInvariant(states, actions, i);
    ReplacingStep(s, a, key);
    match a
    case Answer(_, _, _, _) => AnsweredFailure(states, actions, i, key);
    case Throw(_, _) => ThrownFailure(s, a, key);
    case Decide(_, _) => DecidedFailure(s, a, key);
    case Recover(_, _) => RecoveredFailure(s, a, key);
    case Authorize(_, _) => AuthorizedFailure(s, a, key);
    case Refuse(_, _, _) => FirstVersionReplacesNothing(s, a, key);
    case Start(_, _, _) => FirstVersionReplacesNothing(s, a, key);
    case Reject(_, _) =>
    case _ => QuietStepStoresNothing(s, a);
  }

  lemma AnsweredFailure(states: seq<System>, actions: seq<Action>, i: nat, key: Id)
    requires IsRun(states, actions) && i < |actions| && Replaced(states[i], states[i + 1], key) && actions[i].Answer?
    requires AnsweredOver(states[i], states[i + 1], actions[i], key) && states[i + 1].records[key].state == Failed
    ensures var s, a, before := states[i], actions[i], states[i].records[key]; var q := s.calls[a.c].request;
      Retryable(states[i + 1].records[key]) <==>
        || FailsJudgement(q.plan, before, a.result)
        || (TakenAsAnswered(before, a.result) && a.result.error.Some? && a.result.error.value.retryable)
  {
    var s, a := states[i], actions[i];
    RunsKeepInvariant(states, actions, i);
    assert PcOk(s, s.calls[a.c].pc);
    BaseIsStored(states, actions, i, s.records[key]);
    AnswerOutcome(s.calls[a.c].request.plan, s.records[key], a.result, s.calls[a.c].request.actor, a.stamp, a.later);
  }

  lemma ThrownFailure(s: System, a: Action, key: Id)
    requires Invariant(s) && Enabled(s, a) && a.Throw? && key in s.records && Replaced(s, Perform(s, a), key)
    ensures Retryable(Perform(s, a).records[key])
  {
    var base, q := s.calls[a.c].pc.base, s.calls[a.c].request;
    assert PcOk(s, s.calls[a.c].pc);
    OnlyItsBaseIsReplaced(s, a.c, a.stamp.at, base,
      Entry(FailAt(base, a.stamp, q.actor, "adapter-execution-failed", true, "provider-error"), q.plan, false), Done, key);
  }

  lemma DecidedFailure(s: System, a: Action, key: Id)
    requires Invariant(s) && Enabled(s, a) && a.Decide? && key in s.records && Replaced(s, Perform(s, a), key)
    ensures var q, before := s.calls[a.c].request, s.records[key];
      && before.continuation.Some?
      && (Retryable(Perform(s, a).records[key]) <==> before.continuation.value.expiresAt <= a.stamp.at || q.decision == Cancel)
  {
    var base, q := s.calls[a.c].pc.base, s.calls[a.c].request;
    assert PcOk(s, s.calls[a.c].pc);
    BaseIsOld(s, base);
    DecisionFollows(base, q.decision, q.actor, a.stamp);
    DecisionOutcome(base, q.decision, q.actor, a.stamp);
    var r := DecidedRecord(base, q.decision, q.actor, a.stamp).value;
    DecideStores(s, a.c, a.stamp, r);
    OnlyItsBaseIsReplaced(s, a.c, a.stamp.at, base, Entry(r, q.plan, false), if r.state == Provisioning then WantPreflight(r) else Done, key);
  }

  lemma RecoveredFailure(s: System, a: Action, key: Id)
    requires Invariant(s) && Enabled(s, a) && a.Recover? && key in s.records && Replaced(s, Perform(s, a), key)
    ensures Perform(s, a).records[key].state != Failed
  {
    var base, q := s.calls[a.c].pc.base, s.calls[a.c].request;
    assert PcOk(s, s.calls[a.c].pc);
    BaseIsOld(s, base);
    RecoveryFollows(base, a.stamp, q.actor);
    var r := RecoveringRecord(base, a.stamp, q.actor).value;
    OnlyItsBaseIsReplaced(s, a.c, a.stamp.at, base, Entry(r, q.plan, false), WantAuthorization(r), key);
  }

  lemma AuthorizedFailure(s: System, a: Action, key: Id)
    requires Invariant(s) && Enabled(s, a) && a.Authorize? && key in s.records && Replaced(s, Perform(s, a), key)
    ensures Perform(s, a).records[key].state != Failed
  {
    var base, q := s.calls[a.c].pc.base, s.calls[a.c].request;
    assert PcOk(s, s.calls[a.c].pc);
    BaseIsOld(s, base);
    if base.state == Preflight {
      AuthorizationFollows(base, a.stamp, q.actor, "preflight-completed", "provider-write-authorized");
      var r := TransitionAt(base, Provisioning, a.stamp, q.actor, "preflight-completed", "provider-write-authorized").value;
      OnlyItsBaseIsReplaced(s, a.c, a.stamp.at, base, Entry(r, q.plan, false), InAdapter(r), key);
    }
  }

  // A rejected decision leaves the gate as it is and is only noted in the audit trail.
  lemma RejectionsLeaveTheGate(states: seq<System>, actions: seq<Action>, i: nat, key: Id)
    requires IsRun(states, actions) && i < |actions| && Replaced(states[i], states[i + 1], key) && actions[i].Reject?
    ensures var before, after := states[i].records[key], states[i + 1].records[key];
      && before.state == AwaitingAuthority && |after.audit| == |before.audit| + 1 && before.audit < after.audit
      && after == before.(updatedAt := after.updatedAt, audit := after.audit)
      && after.audit[|before.audit|].actor == states[i].calls[actions[i].c].request.actor
      && after.audit[|before.audit|].result == Failure
  {
    var s, a := states[i], actions[i];
    RunsKeepInvariant(states, actions, i);
    var base, q := s.calls[a.c].pc.base, s.calls[a.c].request;
    assert PcOk(s, s.calls[a.c].pc);
    OnlyItsBaseIsReplaced(s, a.c, a.stamp.at, base,
      Entry(AppendAuditAt(base, a.stamp, q.actor, "authority-decision-rejected", Failure, "rejected"), q.plan, false), Done, key);
  }

  // ------------------------------------------------------------------------------ the first version

  lemma LatestIsKeptForTheStart(s: System, a: Action)
    requires Enabled(s, a) && a.Latest?
    ensures var t := Perform(s, a);
      && a.c in t.calls && t.calls[a.c].request == s.calls[a.c].request
      && (t.calls[a.c].pc == WantRefusal || t.calls[a.c].pc == WantStart(a.previous))
  {
  }

  // What is stored first for a call that was let through at step i: the operation of the request in preflight,
  // with no secret for a create and with the secret of the client's newest version for everything else.
  lemma StartInheritsTheSecret(states: seq<System>, actions: seq<Action>, c: Id, i: nat, j: nat, key: Id)
    requires IsRun(states, actions) && i < j < |actions| && actions[i].Latest? && actions[i].c == c && actions[j].Start? && actions[j].c == c
    requires forall m :: i < m < j ==> actions[m].c != c
    requires key !in states[j].records && key in states[j + 1].records
    ensures var q, previous, r := states[i].calls[c].request, actions[i].previous, states[j + 1].records[key];
      && IsLatest(states[i].records, q.plan.clientRef, previous)
      && q.RunRequest? && IsBound(q, r) && r.state == Preflight && r.error.None? && r.continuation.None? && r.observation.None?
      && r.secret == if q.operation == CreateOp || previous.None? then None else previous.value.secret
  {
    LatestIsKeptForTheStart(states[i], actions[i]);
    ItWaits(states, actions, c, i + 1, j);
    assert Enabled(states[j], actions[j]) && Enabled(states[i], actions[i]);
    StartStores(states[j], actions[j], key);
  }

  lemma StartStores(s: System, a: Action, key: Id)
    requires Enabled(s, a) && a.Start? && key !in s.records && key in Perform(s, a).records
    ensures var q, previous := s.calls[a.c].request, s.calls[a.c].pc.previous;
      Perform(s, a).records[key] == StartedRecord(q.wellFormed, q.plan, q.operation, q.key, q.actor, a.operationId,
        if previous.Some? then previous.value.secret else None, a.stamp)
  {
  }

  // A refused create leaves a failure that never changes again.
  lemma RefusedCreateStaysRefused(states: seq<System>, actions: seq<Action>, i: nat, j: nat, key: Id)
    requires IsRun(states, actions) && i < j < |states| && actions[i].Refuse? && key !in states[i].records && key in states[i + 1].records
    ensures key in states[j].records
    ensures var r := states[j].records[key];
      && IsBound(states[i].calls[actions[i].c].request, r) && r.state == Failed && r.secret.None?
      && r.error.Some? && !r.error.value.retryable && r.error.value.code == "client-already-provisioned"
  {
    RefusalStores(states[i], actions[i], key);
    FinalRecordsStay(states, actions, i + 1, j, key);
  }

  lemma RefusalStores(s: System, a: Action, key: Id)
    requires Enabled(s, a) && a.Refuse? && key !in s.records && key in Perform(s, a).records
    ensures var q := s.calls[a.c].request;
      Perform(s, a).records[key] == RefusedRecord(q.wellFormed, q.plan, q.operation, q.key, q.actor, a.operationId, a.stamp)
  {
  }
}
