/** Any number of concurrent `run` and `decideAuthority` calls over one record store, with an adapter
    that may answer anything (src/identity-provisioning-engine.ts:181-411, 479-662). A call advances
    between the points where it awaits the store, the adapter or a digest. */
module ProvisioningProtocol {
  import opened Wrappers
  import opened IdentityProvisioning
  import opened IdentityEngine

  datatype Request =
    | RunRequest(wellFormed: bool, plan: Plan, operation: Operation, key: Id, actor: Actor)
    | DecisionRequest(plan: Plan, key: Id, actor: Actor, decision: Decision, proof: Id)

  datatype Pc =
    | Begin
    | NoRecord
    | WantRefusal
    | WantStart(previous: Option<Record>)
    | WantRecovery(base: Record)
    | WantAuthorization(base: Record)
    | InAdapter(base: Record)
    | WantDenial(base: Record)
    | WantProof(base: Record)
    | WantDecision(base: Record)
    | WantPreflight(base: Record)
    | Done

  datatype Call = Call(request: Request, pc: Pc)

  // One stored version, the plan of the call that stored it, and whether the adapter itself had
  // answered that the client is ready.
  datatype Entry = Entry(record: Record, plan: Plan, claimedReady: bool)

  datatype System = System(clock: Time, records: Records, logs: map<Id, seq<Entry>>, calls: map<Id, Call>)

  datatype Action =
    | Invoke(c: Id, request: Request)
    | Read(c: Id)
    | Latest(c: Id, previous: Option<Record>)
    | Refuse(c: Id, stamp: Stamp, operationId: Id)
    | Start(c: Id, stamp: Stamp, operationId: Id)
    | Recover(c: Id, stamp: Stamp)
    | Authorize(c: Id, stamp: Stamp)
    | Answer(c: Id, result: AdapterResult, stamp: Stamp, later: Stamp)
    | Throw(c: Id, stamp: Stamp)
    | Reject(c: Id, stamp: Stamp)
    | CheckProof(c: Id)
    | Decide(c: Id, stamp: Stamp)
    | PassPreflight(c: Id)
    | GiveUp(c: Id)

  function LogOf(s: System, key: Id): seq<Entry> {
    if key in s.logs then s.logs[key] else []
  }

  // States in which the engine hands the record to the adapter.
  predicate Executable(state: State) {
    state == Preflight || state == Provisioning || state == SecretPending || state == Validating
    || state == Rotating || state == Recovering
  }

  predicate Retryable(r: Record) {
    r.state == Failed && r.error.Some? && r.error.value.retryable
  }

  // No call changes such a record any more.
  predicate Final(r: Record) {
    r.state == Ready || r.state == Disabled || r.state == Retired || (r.state == Failed && !Retryable(r))
  }

  // What a call does after it has read the record of its key.
  function AfterRead(request: Request, found: Option<Record>): Pc {
    match request
    case RunRequest(_, plan, operation, _, _) =>
      (match found
       case None => NoRecord
       case Some(r) =>
         if r.planId != plan.planId || r.clientRef != plan.clientRef || r.operation != operation then Done
         else if Final(r) || r.state == AwaitingAuthority then Done
         else if Retryable(r) then WantRecovery(r)
         else WantAuthorization(r))
    case DecisionRequest(plan, _, actor, _, _) =>
      (match found
       case None => Done
       case Some(r) =>
         if r.planId != plan.planId || r.clientRef != plan.clientRef then Done
         else if r.state != AwaitingAuthority || r.continuation.None? then Done
         else if r.continuation.value.requiredAuthority != actor then WantDenial(r)
         else WantProof(r))
  }

  function SetPc(s: System, c: Id, pc: Pc): System
    requires c in s.calls
  {
    s.(calls := s.calls[c := s.calls[c].(pc := pc)])
  }

  // Tries to store a new version; a refused save ends the call.
  function Store(s: System, c: Id, now: Time, expected: Option<Time>, entry: Entry, pc: Pc): System
    requires c in s.calls
  {
    match Saved(s.records, entry.record, expected)
    case Err(_) => SetPc(s, c, Done).(clock := now)
    case Ok(after) =>
      SetPc(s, c, pc).(clock := now, records := after,
                       logs := s.logs[entry.record.key := LogOf(s, entry.record.key) + [entry]])
  }

  predicate At(s: System, c: Id) { c in s.calls }

  ghost predicate Enabled(s: System, a: Action) {
    match a
    case Invoke(c, request) => c !in s.calls
    case Read(c) => At(s, c) && s.calls[c].pc == Begin
    case Latest(c, previous) =>
      At(s, c) && s.calls[c].pc == NoRecord && s.calls[c].request.RunRequest?
      && IsLatest(s.records, s.calls[c].request.plan.clientRef, previous)
    case Refuse(c, stamp, _) =>
      At(s, c) && s.calls[c].pc == WantRefusal && s.calls[c].request.RunRequest? && s.clock < stamp.at
    case Start(c, stamp, _) =>
      At(s, c) && s.calls[c].pc.WantStart? && s.calls[c].request.RunRequest? && s.clock < stamp.at
    case Recover(c, stamp) => At(s, c) && s.calls[c].pc.WantRecovery? && s.clock < stamp.at
    case Authorize(c, stamp) => At(s, c) && s.calls[c].pc.WantAuthorization? && s.clock < stamp.at
    case Answer(c, _, stamp, later) => At(s, c) && s.calls[c].pc.InAdapter? && s.clock < stamp.at < later.at
    case Throw(c, stamp) => At(s, c) && s.calls[c].pc.InAdapter? && s.clock < stamp.at
    case Reject(c, stamp) => At(s, c) && s.calls[c].pc.WantDenial? && s.clock < stamp.at
    case CheckProof(c) => At(s, c) && s.calls[c].pc.WantProof? && s.calls[c].request.DecisionRequest?
    case Decide(c, stamp) =>
      At(s, c) && s.calls[c].pc.WantDecision? && s.calls[c].request.DecisionRequest?
      && s.calls[c].pc.base.continuation.Some? && s.clock < stamp.at
    case PassPreflight(c) => At(s, c) && s.calls[c].pc.WantPreflight?
    case GiveUp(c) => At(s, c)
  }

  function Perform(s: System, a: Action): System
    requires Enabled(s, a)
  {
    if a.Invoke? then s.(calls := s.calls[a.c := Call(a.request, Begin)])
    else
      var call := s.calls[a.c];
      var q := call.request;
      match a
      case Invoke(_, _) => s
      case Read(c) =>
        SetPc(s, c, AfterRead(q, if q.key in s.records then Some(s.records[q.key]) else None))
      case Latest(c, previous) =>
        SetPc(s, c, if q.operation == CreateOp && previous.Some? && previous.value.state != Retired
                    then WantRefusal else WantStart(previous))
      case Refuse(c, stamp, operationId) =>
        Store(s, c, stamp.at, None,
          Entry(RefusedRecord(q.wellFormed, q.plan, q.operation, q.key, q.actor, operationId, stamp), q.plan, false), Done)
      case Start(c, stamp, operationId) =>
        var secret := if call.pc.previous.Some? then call.pc.previous.value.secret else None;
        var r := StartedRecord(q.wellFormed, q.plan, q.operation, q.key, q.actor, operationId, secret, stamp);
        Store(s, c, stamp.at, None, Entry(r, q.plan, false), WantAuthorization(r))
      case Recover(c, stamp) =>
        (match RecoveringRecord(call.pc.base, stamp, q.actor)
         case Err(_) => SetPc(s, c, Done)
         case Ok(r) => Store(s, c, stamp.at, Some(call.pc.base.updatedAt), Entry(r, q.plan, false), WantAuthorization(r)))
      case Authorize(c, stamp) =>
        var base := call.pc.base;
        if base.state == Preflight && q.plan.mode != ResumableOwnerGate then
          (match TransitionAt(base, Provisioning, stamp, q.actor, "preflight-completed", "provider-write-authorized")
           case Err(_) => SetPc(s, c, Done)
           case Ok(r) => Store(s, c, stamp.at, Some(base.updatedAt), Entry(r, q.plan, false), InAdapter(r)))
        else SetPc(s, c, InAdapter(base))
      case Answer(c, result, stamp, later) =>
        var base := call.pc.base;
        var r := Applied(q.plan, base, result, q.actor, stamp, later);
        Store(s, c, later.at, Some(base.updatedAt), Entry(r, q.plan, result.nextState == Ready), Done)
      case Throw(c, stamp) =>
        var base := call.pc.base;
        Store(s, c, stamp.at, Some(base.updatedAt),
          Entry(FailAt(base, stamp, q.actor, "adapter-execution-failed", true, "provider-error"), q.plan, false), Done)
      case Reject(c, stamp) =>
        var base := call.pc.base;
        Store(s, c, stamp.at, Some(base.updatedAt),
          Entry(AppendAuditAt(base, stamp, q.actor, "authority-decision-rejected", Failure, "rejected"), q.plan, false), Done)
      case CheckProof(c) =>
        var base := call.pc.base;
        SetPc(s, c, if base.continuation.Some? && base.continuation.value.proof == q.proof
                    then WantDecision(base) else WantDenial(base))
      case Decide(c, stamp) =>
        var base := call.pc.base;
        (match DecidedRecord(base, q.decision, q.actor, stamp)
         case Err(_) => SetPc(s, c, Done)
         case Ok(r) =>
           Store(s, c, stamp.at, Some(base.updatedAt), Entry(r, q.plan, false),
                 if r.state == Provisioning then WantPreflight(r) else Done))
      case PassPreflight(c) => SetPc(s, c, WantAuthorization(call.pc.base))
      case GiveUp(c) => SetPc(s, c, Done)
  }

  ghost predicate Init(s: System) {
    s.clock >= 0 && s.records == map[] && s.logs == map[] && s.calls == map[]
  }

  // A run that starts from an empty store, with a clock that only moves forward.
  ghost predicate IsRun(states: seq<System>, actions: seq<Action>) {
    && |states| == |actions| + 1
    && Init(states[0])
    && forall i :: 0 <= i < |actions| ==> Enabled(states[i], actions[i]) && states[i + 1] == Perform(states[i], actions[i])
  }

  lemma QuietStepStoresNothing(s: System, a: Action)
    requires Enabled(s, a)
    requires a.Invoke? || a.Read? || a.Latest? || a.CheckProof? || a.PassPreflight? || a.GiveUp?
    ensures Perform(s, a).records == s.records && Perform(s, a).clock == s.clock
  {
  }

  // ------------------------------------------------------------------ what one version may become

  // The same operation on the same client.
  predicate SameOperation(a: Record, b: Record) {
    a.operationId == b.operationId && a.planId == b.planId && a.clientRef == b.clientRef && a.key == b.key
    && a.operation == b.operation && a.startedAt == b.startedAt
  }

  // An entry of the table, an audit-only version of a pending gate, or a finished registration that
  // is stored as ready without the version in which it was being validated.
  predicate LifecycleStep(x: State, y: State) {
    || CanTransition(x, y)
    || (x == AwaitingAuthority && y == AwaitingAuthority)
    || (y == Ready && CanTransition(x, Validating))
  }

  // The audit trail ends with the event of the version.
  predicate TrailOk(r: Record) {
    r.audit != [] && r.audit[|r.audit| - 1].occurredAt == r.updatedAt
  }

  predicate Follows(a: Record, b: Record) {
    && SameOperation(a, b)
    && a.updatedAt < b.updatedAt
    && a.audit < b.audit
    && b.attempt == a.attempt + (if a.state == Failed then 1 else 0)
    && TrailOk(b)
    && !Final(a)
    && LifecycleStep(a.state, b.state) && b.state != Planned
  }

  lemma FailureFollows(r: Record, stamp: Stamp, actor: Actor, code: string, retryable: bool, detail: string)
    requires Executable(r.state) && r.updatedAt < stamp.at
    ensures Follows(r, FailAt(r, stamp, actor, code, retryable, detail))
  {
  }

  lemma RecoveryFollows(r: Record, stamp: Stamp, actor: Actor)
    requires Retryable(r) && r.updatedAt < stamp.at
    ensures RecoveringRecord(r, stamp, actor).Ok?
    ensures var next := RecoveringRecord(r, stamp, actor).value; Follows(r, next) && next.state == Recovering
  {
  }

  lemma AuthorizationFollows(r: Record, stamp: Stamp, actor: Actor, eventType: string, detail: string)
    requires r.state == Preflight && r.updatedAt < stamp.at
    ensures TransitionAt(r, Provisioning, stamp, actor, eventType, detail).Ok?
    ensures var next := TransitionAt(r, Provisioning, stamp, actor, eventType, detail).value;
      Follows(r, next) && next.state == Provisioning
  {
  }

  lemma RejectionFollows(r: Record, stamp: Stamp, actor: Actor, detail: string)
    requires r.state == AwaitingAuthority && r.updatedAt < stamp.at
    ensures Follows(r, AppendAuditAt(r, stamp, actor, "authority-decision-rejected", Failure, detail))
  {
  }

  lemma DecisionFollows(r: Record, decision: Decision, actor: Actor, stamp: Stamp)
    requires r.state == AwaitingAuthority && r.continuation.Some? && r.updatedAt < stamp.at
    ensures DecidedRecord(r, decision, actor, stamp).Ok?
    ensures var next := DecidedRecord(r, decision, actor, stamp).value;
      Follows(r, next) && (next.state == Provisioning || next.state == Failed)
  {
    DecisionShape(r, decision, actor, stamp);
  }

  // An approval before the gate expires leads to provisioning and everything else to failure, which may
  // be retried exactly if the gate expired or the decision was cancelled.
  lemma DecisionOutcome(r: Record, decision: Decision, actor: Actor, stamp: Stamp)
    requires r.state == AwaitingAuthority && r.continuation.Some?
    ensures DecidedRecord(r, decision, actor, stamp).Ok?
    ensures var next := DecidedRecord(r, decision, actor, stamp).value; var expired := stamp.at >= r.continuation.value.expiresAt;
      && (next.state == Provisioning <==> decision == Approve && !expired)
      && (next.state == Failed <==> decision != Approve || expired)
      && (Retryable(next) <==> expired || decision == Cancel)
      && next.continuation == Some(r.continuation.value.(status := if expired then GateExpired else StatusOf(decision)))
  {
    assert CanTransition(r.state, Provisioning);
  }

  lemma DecisionShape(r: Record, decision: Decision, actor: Actor, stamp: Stamp)
    requires r.state == AwaitingAuthority && r.continuation.Some?
    ensures DecidedRecord(r, decision, actor, stamp).Ok?
    ensures var next := DecidedRecord(r, decision, actor, stamp).value;
      && SameOperation(r, next) && r.audit < next.audit && TrailOk(next) && next.attempt == r.attempt && next.updatedAt == stamp.at
      && (next.state == Provisioning || next.state == Failed)
  {
    var gate := r.continuation.value;
    var status := if stamp.at >= gate.expiresAt then GateExpired else StatusOf(decision);
    var decided := r.(updatedAt := stamp.at, continuation := Some(gate.(status := status)));
    assert SameOperation(r, decided) && decided.audit == r.audit && decided.attempt == r.attempt;
    assert CanTransition(decided.state, Provisioning);
  }

  lemma JudgementOutcome(plan: Plan, r: Record, stamp: Stamp)
    requires r.state == Validating && r.observation.Some?
    ensures var next := Judged(plan, r, stamp);
      && SameOperation(r, next) && r.audit < next.audit && TrailOk(next) && next.updatedAt == stamp.at && next.attempt == r.attempt
      && (next.state == Ready || next.state == Failed)
      && (next.state == Ready ==> PassesReadiness(plan, next))
  {
  }

  // Whatever the adapter answers, the version stored for it follows the one it was asked about, and
  // is only ready if it passes the readiness check or the adapter itself said so.
  lemma AnswerFollows(plan: Plan, r: Record, result: AdapterResult, actor: Actor, stamp: Stamp, later: Stamp)
    requires Executable(r.state) && r.updatedAt < stamp.at < later.at
    ensures var next := Applied(plan, r, result, actor, stamp, later);
      && Follows(r, next) && stamp.at <= next.updatedAt <= later.at
      && (next.state == Ready && result.nextState != Ready ==> PassesReadiness(plan, next))
  {
    AnswerCases(plan, r, result, actor, stamp, later);
    ClaimKeepsOperation(r, result, stamp);
    CasesFollow(plan, r, Claimed(r, result, stamp), Applied(plan, r, result, actor, stamp, later), stamp, later);
  }

  // Each case of an answer is a step of the lifecycle.
  lemma CasesFollow(plan: Plan, r: Record, claimed: Record, next: Record, stamp: Stamp, later: Stamp)
    requires Executable(r.state) && r.updatedAt < stamp.at < later.at
    requires SameOperation(r, claimed) && r.audit < claimed.audit && TrailOk(claimed) && claimed.attempt == r.attempt && claimed.updatedAt == stamp.at
    requires AnswerCase(plan, r, claimed, next, stamp, later)
    ensures Follows(r, next) && stamp.at <= next.updatedAt <= later.at
    ensures next.state == Ready && claimed.state != Ready ==> PassesReadiness(plan, next)
  {
    if claimed.state == Validating && claimed.observation.Some? { JudgementOutcome(plan, claimed, stamp); }
  }

  ghost predicate AnswerCase(plan: Plan, r: Record, claimed: Record, next: Record, stamp: Stamp, later: Stamp) {
    || (next.state == Failed && SameOperation(r, next) && r.audit < next.audit && TrailOk(next) && next.attempt == r.attempt
        && (next.updatedAt == stamp.at || next.updatedAt == later.at))
    || (CanTransition(r.state, claimed.state)
        && (next == claimed || next == claimed.(error := next.error)
            || (claimed.state == Validating && claimed.observation.Some? && next == Judged(plan, claimed, stamp))))
  }

  lemma ClaimKeepsOperation(r: Record, result: AdapterResult, stamp: Stamp)
    ensures var next := Claimed(r, result, stamp);
      SameOperation(r, next) && r.audit < next.audit && TrailOk(next) && next.attempt == r.attempt && next.updatedAt == stamp.at
      && next.state == result.nextState
  {
  }

  lemma FailureKeepsOperation(r: Record, stamp: Stamp, actor: Actor, code: string, retryable: bool, detail: string)
    ensures var next := FailAt(r, stamp, actor, code, retryable, detail);
      SameOperation(r, next) && r.audit < next.audit && TrailOk(next) && next.attempt == r.attempt && next.updatedAt == stamp.at
      && next.state == Failed
  {
  }

  // The version is a failure, the claim (perhaps with its error filled in), or the judged claim.
  lemma AnswerCases(plan: Plan, r: Record, result: AdapterResult, actor: Actor, stamp: Stamp, later: Stamp)
    requires stamp.at < later.at
    ensures AnswerCase(plan, r, Claimed(r, result, stamp), Applied(plan, r, result, actor, stamp, later), stamp, later)
  {
    FailureKeepsOperation(r, stamp, actor, "adapter-transition-invalid", false, "invalid-adapter-result");
    FailureKeepsOperation(r, stamp, actor, "adapter-result-invalid", false, "invalid-adapter-result");
    FailureKeepsOperation(r, later, actor, "adapter-result-invalid", false, "invalid-adapter-result");
  }
}
