/** Provisioning records of identity-provider clients: the lifecycle table, drift, readiness and the
    rules a stored record obeys (src/identity-provisioning.ts).

    A field `wellFormed` says whether the texts of the value (identifiers, digests, addresses, dates)
    pass their format checks, which are not modelled themselves. */
module IdentityProvisioning {
  import opened Wrappers

  type Id = nat
  type Time = int

  datatype State =
    | Planned | Preflight | AwaitingAuthority | Provisioning | SecretPending | Validating
    | Ready | Rotating | Disabled | Failed | Recovering | Retired

  datatype Operation =
    CreateOp | ValidateOp | ObserveOp | ReconcileOp | RotateOp | RecoverOp | DisableOp | RetireOp

  datatype Mode = Api | ResumableOwnerGate | Preconfigured

  datatype Actor = Automation | DeploymentOwner | TenantAdmin | OrganizationAdmin | ProviderAccountHolder | Operator

  datatype Plan = Plan(
    planId: Id, clientRef: Id, mode: Mode, desiredStateDigest: Id, secretRequired: bool)

  datatype GateStatus = Pending | Approved | Denied | GateExpired | Cancelled

  // The digest of the continuation value is represented by the value.
  datatype Continuation = Continuation(
    wellFormed: bool, gateId: Id, requiredAuthority: Actor, proof: Id, expiresAt: Time, status: GateStatus)

  datatype SecretStatus = SecretNew | SecretActive | SecretRetiring | SecretRevoked

  datatype Secret = Secret(
    wellFormed: bool, secretRef: Id, versionRef: Id, status: SecretStatus, createdAt: Time, expiresAt: Option<Time>)

  datatype Observation = Observation(
    wellFormed: bool, observedAt: Time, stateDigest: Id, ownershipVerified: bool, issuerVerified: bool,
    callbacksVerified: bool, permissionsVerified: bool, credentialVerified: bool, clientEnabled: bool)

  datatype DriftCode =
    | StateDigestMismatch | OwnershipUnverified | IssuerMismatch | CallbackMismatch
    | PermissionMismatch | CredentialUnusable | ClientDisabled

  datatype Severity = Informational | Operational | Security

  datatype Drift = Drift(code: DriftCode, severity: Severity, securityCritical: bool)

  datatype AuditResult = Started | Succeeded | Failure | Cancellation

  datatype AuditEvent = AuditEvent(
    sequence: int, occurredAt: Time, eventType: string, actor: Actor, result: AuditResult,
    correlationId: Id, detailCode: string)

  datatype Rollback = Rollback(
    wellFormed: bool, allowed: bool, restoreState: Option<State>, reasonCode: string, snapshotDigest: Option<Id>)

  datatype OperationError = OperationError(wellFormed: bool, code: string, retryable: bool)

  datatype Record = Record(
    wellFormed: bool, operationId: Id, planId: Id, clientRef: Id, key: Id, operation: Operation, state: State,
    attempt: int, startedAt: Time, updatedAt: Time, continuation: Option<Continuation>, secret: Option<Secret>,
    observation: Option<Observation>, drift: seq<Drift>, audit: seq<AuditEvent>, rollback: Rollback,
    error: Option<OperationError>)

  // ------------------------------------------------------------------------------ the lifecycle

  predicate CanTransition(from: State, to: State) {
    match from
    case Planned => to == Preflight || to == Retired
    case Preflight => to == AwaitingAuthority || to == Provisioning || to == Validating || to == Failed || to == Retired
    case AwaitingAuthority => to == Provisioning || to == Failed || to == Retired
    case Provisioning =>
      to == SecretPending || to == Validating || to == Disabled || to == Failed || to == Recovering || to == Retired
    case SecretPending => to == Validating || to == Failed || to == Recovering
    case Validating => to == Ready || to == Disabled || to == Failed || to == Recovering
    case Ready => to == Validating || to == Rotating || to == Disabled || to == Failed || to == Retired
    case Rotating => to == Validating || to == Ready || to == Failed || to == Recovering
    case Disabled => to == Validating || to == Ready || to == Recovering || to == Retired
    case Failed => to == Preflight || to == Recovering || to == Retired
    case Recovering => to == Preflight || to == Validating || to == Ready || to == Failed || to == Retired
    case Retired => false
  }

  // -------------------------------------------------------------------------------------- drift

  datatype Check = Check(found: bool, drift: Drift)

  function Verification(verified: bool, code: DriftCode): Check {
    Check(!verified, Drift(code, Security, true))
  }

  // The checks in the order they are made.
  function Checks(plan: Plan, o: Observation): (r: seq<Check>) {
    [ Check(plan.desiredStateDigest != o.stateDigest, Drift(StateDigestMismatch, Operational, false)),
      Verification(o.ownershipVerified, OwnershipUnverified),
      Verification(o.issuerVerified, IssuerMismatch),
      Verification(o.callbacksVerified, CallbackMismatch),
      Verification(o.permissionsVerified, PermissionMismatch),
      Verification(o.credentialVerified, CredentialUnusable),
      Check(!o.clientEnabled, Drift(ClientDisabled, Operational, false)) ]
  }

  function Findings(checks: seq<Check>): seq<Drift> {
    if checks == [] then []
    else if checks[0].found then [checks[0].drift] + Findings(checks[1..])
    else Findings(checks[1..])
  }

  function AssessDrift(plan: Plan, o: Observation): seq<Drift> {
    Findings(Checks(plan, o))
  }

  // The provider shows the client just as planned.
  predicate AsPlanned(plan: Plan, o: Observation) {
    && plan.desiredStateDigest == o.stateDigest
    && o.ownershipVerified && o.issuerVerified && o.callbacksVerified && o.permissionsVerified
    && o.credentialVerified && o.clientEnabled
  }

  predicate HasCritical(drift: seq<Drift>) {
    exists d :: d in drift && d.securityCritical
  }

  lemma {:induction false} FindingsExactly(checks: seq<Check>)
    requires forall i, j :: 0 <= i < j < |checks| ==> checks[i].drift.code != checks[j].drift.code
    requires forall c :: c in checks ==> (c.drift.securityCritical <==> c.drift.severity == Security)
    ensures forall d :: d in Findings(checks) <==> exists c :: c in checks && c.found && c.drift == d
    ensures ValidDrift(Findings(checks))
  {
    if checks != [] {
      var first, rest := checks[0], checks[1..];
      assert checks == [first] + rest;
      FindingsExactly(rest);
      forall d | d in Findings(rest) ensures d.code != first.drift.code {
        var c :| c in rest && c.found && c.drift == d;
      }
    }
  }

  lemma {:induction false} NoFindingsExactly(checks: seq<Check>)
    ensures Findings(checks) == [] <==> forall i :: 0 <= i < |checks| ==> !checks[i].found
  {
    if checks != [] {
      NoFindingsExactly(checks[1..]);
      assert forall i :: 1 <= i < |checks| ==> checks[i] == checks[1..][i - 1];
    }
  }

  // Nothing is found exactly if the client is as planned, and something critical exactly if one of
  // the verifications failed.
  lemma NoDriftExactlyAsPlanned(plan: Plan, o: Observation)
    ensures AssessDrift(plan, o) == [] <==> AsPlanned(plan, o)
    ensures HasCritical(AssessDrift(plan, o)) <==>
      !(o.ownershipVerified && o.issuerVerified && o.callbacksVerified && o.permissionsVerified && o.credentialVerified)
    ensures ValidDrift(AssessDrift(plan, o))
  {
    var checks := Checks(plan, o);
    FindingsExactly(checks);
    NoFindingsExactly(checks);
    CriticalAmong(checks);
  }

  predicate Found(drift: seq<Drift>, code: DriftCode) {
    exists d :: d in drift && d.code == code
  }

  // Each finding is made exactly for its own reason, and is critical exactly if a verification failed.
  predicate Reason(plan: Plan, o: Observation, code: DriftCode) {
    match code
    case StateDigestMismatch => plan.desiredStateDigest != o.stateDigest
    case OwnershipUnverified => !o.ownershipVerified
    case IssuerMismatch => !o.issuerVerified
    case CallbackMismatch => !o.callbacksVerified
    case PermissionMismatch => !o.permissionsVerified
    case CredentialUnusable => !o.credentialVerified
    case ClientDisabled => !o.clientEnabled
  }

  function CheckNumber(code: DriftCode): nat {
    match code
    case StateDigestMismatch => 0
    case OwnershipUnverified => 1
    case IssuerMismatch => 2
    case CallbackMismatch => 3
    case PermissionMismatch => 4
    case CredentialUnusable => 5
    case ClientDisabled => 6
  }

  lemma CheckOfCode(plan: Plan, o: Observation, code: DriftCode)
    ensures |Checks(plan, o)| == 7
    ensures var check := Checks(plan, o)[CheckNumber(code)];
      check.drift.code == code && (check.found <==> Reason(plan, o, code))
      && (check.drift.securityCritical <==> code != StateDigestMismatch && code != ClientDisabled)
  {
  }

  lemma FindingsHaveTheirReasons(plan: Plan, o: Observation, code: DriftCode)
    ensures Found(AssessDrift(plan, o), code) <==> Reason(plan, o, code)
    ensures forall d :: d in AssessDrift(plan, o) && d.code == code ==>
      (d.securityCritical <==> code != StateDigestMismatch && code != ClientDisabled)
  {
    var checks := Checks(plan, o);
    FindingsExactly(checks);
    CheckOfCode(plan, o, code);
    var mine := checks[CheckNumber(code)];
    if mine.found { assert mine in checks && mine.drift in AssessDrift(plan, o); }
    forall d | d in AssessDrift(plan, o) && d.code == code ensures d == mine.drift && mine.found {
      var c :| c in checks && c.found && c.drift == d;
    }
  }

  lemma CriticalAmong(checks: seq<Check>)
    requires forall d :: d in Findings(checks) <==> exists c :: c in checks && c.found && c.drift == d
    ensures HasCritical(Findings(checks)) <==> exists i :: 0 <= i < |checks| && checks[i].found && checks[i].drift.securityCritical
  {
    if HasCritical(Findings(checks)) {
      var d :| d in Findings(checks) && d.securityCritical;
      var c :| c in checks && c.found && c.drift == d;
    }
    if i :| 0 <= i < |checks| && checks[i].found && checks[i].drift.securityCritical {
      assert checks[i] in checks;
      assert checks[i].drift in Findings(checks);
    }
  }

  predicate ValidDrift(drift: seq<Drift>) {
    && (forall i, j :: 0 <= i < j < |drift| ==> drift[i].code != drift[j].code)
    && (forall d :: d in drift ==> (d.securityCritical <==> d.severity == Security))
  }

  // ---------------------------------------------------------------------------------- readiness

  predicate PassesReadiness(plan: Plan, r: Record) {
    && r.planId == plan.planId && r.clientRef == plan.clientRef
    && r.state == Ready
    && r.error.None?
    && r.observation.Some? && AsPlanned(plan, r.observation.value)
    && (r.continuation.Some? ==> r.continuation.value.status == Approved)
    && (plan.secretRequired ==> r.secret.Some? && r.secret.value.status == SecretActive)
    && (forall d :: d in r.drift ==> !d.securityCritical)
  }

  datatype Blocker =
    | OtherPlan | NotReady(state: State) | HasError(code: string) | NoObservation | Drifted(drift: DriftCode)
    | GateNotApproved(status: GateStatus) | NoActiveSecret | CriticalDrift

  // What blocks a record, one reason each.
  predicate Blocks(plan: Plan, r: Record, b: Blocker) {
    match b
    case OtherPlan => r.planId != plan.planId || r.clientRef != plan.clientRef
    case NotReady(state) => state == r.state != Ready
    case HasError(code) => r.error.Some? && r.error.value.code == code
    case NoObservation => r.observation.None?
    case Drifted(code) => r.observation.Some? && Found(AssessDrift(plan, r.observation.value), code)
    case GateNotApproved(status) => r.continuation.Some? && r.continuation.value.status == status != Approved
    case NoActiveSecret => plan.secretRequired && (r.secret.None? || r.secret.value.status != SecretActive)
    case CriticalDrift => HasCritical(r.drift)
  }

  // The order in which the reasons are looked for.
  function Place(b: Blocker): nat {
    match b
    case OtherPlan => 0
    case NotReady(_) => 1
    case HasError(_) => 2
    case NoObservation => 3
    case Drifted(_) => 3
    case GateNotApproved(_) => 4
    case NoActiveSecret => 5
    case CriticalDrift => 6
  }

  function DriftBlockers(drift: seq<Drift>): (r: seq<Blocker>)
    ensures forall b :: b in r <==> b.Drifted? && Found(drift, b.drift)
  {
    var r := seq(|drift|, i requires 0 <= i < |drift| => Drifted(drift[i].code));
    assert forall i :: 0 <= i < |drift| ==> r[i] == Drifted(drift[i].code) && drift[i] in drift;
    r
  }

  lemma NothingBlocksExactly(plan: Plan, r: Record, blockers: seq<Blocker>)
    requires forall b: Blocker :: b in blockers <==> Blocks(plan, r, b)
    ensures blockers == [] <==> PassesReadiness(plan, r)
  {
    if r.observation.Some? {
      var drift := AssessDrift(plan, r.observation.value);
      NoDriftExactlyAsPlanned(plan, r.observation.value);
      if drift != [] {
        assert drift[0] in drift;
        assert Blocks(plan, r, Drifted(drift[0].code));
        assert Drifted(drift[0].code) in blockers;
      }
    }
    if blockers != [] {
      var b := blockers[0];
      assert b in blockers && Blocks(plan, r, b);
    }
    if blockers == [] {
      assert OtherPlan !in blockers && NotReady(r.state) !in blockers && NoObservation !in blockers && NoActiveSecret !in blockers;
      assert CriticalDrift !in blockers && (r.error.Some? ==> HasError(r.error.value.code) !in blockers);
      assert r.continuation.Some? ==> GateNotApproved(r.continuation.value.status) !in blockers;
    }
  }

  function When(blocked: bool, b: Blocker): (r: seq<Blocker>)
    ensures forall x :: x in r <==> blocked && x == b
  {
    if blocked then [b] else []
  }

  function ObservationReasons(plan: Plan, r: Record): (found: seq<Blocker>)
    ensures forall b :: b in found <==> Place(b) == 3 && Blocks(plan, r, b)
  {
    if r.observation.None? then [NoObservation] else DriftBlockers(AssessDrift(plan, r.observation.value))
  }

  function GateReasons(plan: Plan, r: Record): (found: seq<Blocker>)
    ensures forall b :: b in found <==> Place(b) == 4 && Blocks(plan, r, b)
  {
    if r.continuation.None? then [] else When(r.continuation.value.status != Approved, GateNotApproved(r.continuation.value.status))
  }

  function RecordReasons(plan: Plan, r: Record): (found: seq<Blocker>)
    ensures forall b :: b in found <==> Place(b) < 3 && Blocks(plan, r, b)
  {
    When(r.planId != plan.planId || r.clientRef != plan.clientRef, OtherPlan) + When(r.state != Ready, NotReady(r.state))
    + if r.error.Some? then [HasError(r.error.value.code)] else []
  }

  function LastReasons(plan: Plan, r: Record): (found: seq<Blocker>)
    ensures forall b :: b in found <==> Place(b) > 4 && Blocks(plan, r, b)
  {
    When(plan.secretRequired && (r.secret.None? || r.secret.value.status != SecretActive), NoActiveSecret)
    + When(exists d :: d in r.drift && d.securityCritical, CriticalDrift)
  }

  // Every reason that blocks the record is listed, and no other.
  method EvaluateReadiness(plan: Plan, r: Record) returns (blockers: seq<Blocker>)
    ensures blockers == [] <==> PassesReadiness(plan, r)
    ensures forall b :: b in blockers <==> Blocks(plan, r, b)
  {
    blockers := RecordReasons(plan, r);
    blockers := blockers + ObservationReasons(plan, r);
    blockers := blockers + GateReasons(plan, r);
    blockers := blockers + LastReasons(plan, r);
    NothingBlocksExactly(plan, r, blockers);
  }

  // ------------------------------------------------------------------------------ record validity

  // Sequence numbers count from one without gaps, and times never go back.
  predicate ValidAudit(audit: seq<AuditEvent>) {
    && (forall i :: 0 <= i < |audit| ==> audit[i].sequence == i + 1 && 0 <= audit[i].occurredAt)
    && (forall i, j :: 0 <= i < j < |audit| ==> audit[i].occurredAt <= audit[j].occurredAt)
  }

  method ValidateAudit(audit: seq<AuditEvent>) returns (valid: bool)
    ensures valid <==> ValidAudit(audit)
  {
    valid := true;
    var priorSequence, priorTime := 0, 0;
    for i := 0 to |audit|
      invariant i > 0 ==> priorSequence == audit[i - 1].sequence && priorTime == audit[i - 1].occurredAt
      invariant i == 0 ==> priorSequence == 0 && priorTime == 0
      invariant valid <==> ValidAudit(audit[..i])
    {
      assert audit[..i + 1] == audit[..i] + [audit[i]];
      OneMoreAuditEvent(audit[..i], audit[i]);
      if audit[i].sequence != priorSequence + 1 { valid := false; }
      priorSequence := audit[i].sequence;
      if audit[i].occurredAt < priorTime { valid := false; }
      priorTime := audit[i].occurredAt;
    }
    assert audit[..|audit|] == audit;
  }

  lemma OneMoreAuditEvent(audit: seq<AuditEvent>, e: AuditEvent)
    ensures ValidAudit(audit + [e]) <==>
      && ValidAudit(audit)
      && e.sequence == (if audit == [] then 0 else audit[|audit| - 1].sequence) + 1
      && e.occurredAt >= (if audit == [] then 0 else audit[|audit| - 1].occurredAt)
  {
    var longer, n := audit + [e], |audit|;
    assert forall i :: 0 <= i < n ==> longer[i] == audit[i];
    assert longer[n] == e;
    if ValidAudit(longer) {
      assert ValidAudit(audit);
      assert n > 0 ==> longer[n - 1].occurredAt <= longer[n].occurredAt;
      assert n > 0 ==> longer[n - 1].sequence == n;
    }
    assert ValidAudit(audit) && n > 0 ==> forall i :: 0 <= i < n ==> audit[i].occurredAt <= audit[n - 1].occurredAt;
  }

  predicate ValidContinuation(c: Option<Continuation>, state: State) {
    c.Some? ==> c.value.wellFormed && (state == AwaitingAuthority ==> c.value.status == Pending)
  }

  predicate ValidSecret(s: Option<Secret>) {
    s.Some? ==> s.value.wellFormed && (s.value.expiresAt.Some? ==> s.value.createdAt < s.value.expiresAt.value)
  }

  predicate ValidRollback(r: Rollback) {
    r.wellFormed && (r.allowed ==> r.restoreState.Some? && r.snapshotDigest.Some?)
  }

  predicate ValidError(e: Option<OperationError>, state: State) {
    e.Some? ==> e.value.wellFormed && (state == Failed || state == Recovering)
  }

  predicate ValidRecord(r: Record) {
    && r.wellFormed && r.attempt >= 1 && r.startedAt <= r.updatedAt
    && ValidContinuation(r.continuation, r.state)
    && ValidSecret(r.secret)
    && (r.observation.Some? ==> r.observation.value.wellFormed)
    && ValidDrift(r.drift) && ValidAudit(r.audit) && ValidRollback(r.rollback)
    && ValidError(r.error, r.state)
    && (r.state == Ready ==> r.observation.Some?)
    && (r.state == AwaitingAuthority ==> r.continuation.Some?)
    && (r.state == Failed ==> r.error.Some?)
    && (r.state == Retired ==> r.secret.Some? && r.secret.value.status == SecretRevoked)
  }
}
