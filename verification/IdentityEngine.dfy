/** The provisioning engine's record algebra and its in-memory store with compare-and-set
    (src/identity-provisioning-engine.ts). */
module IdentityEngine {
  import opened Wrappers
  import opened IdentityProvisioning

  datatype EngineError =
    | InvalidRecord | RecordConflict | BindingConflict | InvalidTransition

  // One reading of the clock, with an identifier that may be needed at that moment.
  datatype Stamp = Stamp(at: Time, newId: Id)

  // ------------------------------------------------------------------------- new record versions

  function AppendAuditAt(r: Record, stamp: Stamp, actor: Actor, eventType: string, result: AuditResult, detailCode: string): Record {
    r.(updatedAt := stamp.at,
       audit := r.audit + [AuditEvent(|r.audit| + 1, stamp.at, eventType, actor, result,
                                      if r.audit == [] then stamp.newId else r.audit[0].correlationId, detailCode)])
  }

  function TransitionAt(r: Record, state: State, stamp: Stamp, actor: Actor, eventType: string, detailCode: string): Result<Record, EngineError> {
    if !CanTransition(r.state, state) then Err(InvalidTransition)
    else Ok(AppendAuditAt(
      r.(state := state, updatedAt := stamp.at,
         error := if state == Failed || state == Recovering then r.error else None),
      stamp, actor, eventType, Succeeded, detailCode))
  }

  function FailAt(r: Record, stamp: Stamp, actor: Actor, code: string, retryable: bool, detailCode: string): Record {
    AppendAuditAt(
      r.(state := Failed, updatedAt := stamp.at, error := Some(OperationError(true, code, retryable))),
      stamp, actor, code, Failure, detailCode)
  }

  datatype AdapterResult = AdapterResult(
    nextState: State, continuation: Option<Continuation>, secret: Option<Secret>, observation: Option<Observation>,
    rollback: Rollback, error: Option<OperationError>, detailCode: string)

  // What the adapter claims, written into the record.
  function Claimed(r: Record, result: AdapterResult, stamp: Stamp): Record {
    AppendAuditAt(
      r.(state := result.nextState, updatedAt := stamp.at,
         continuation := if result.continuation.Some? then result.continuation
                         else if r.continuation.Some? && r.continuation.value.status == Approved then r.continuation
                         else None,
         secret := if result.secret.Some? then result.secret else r.secret,
         observation := result.observation, drift := [], rollback := result.rollback, error := result.error),
      stamp, Automation, "adapter-operation-completed",
      if result.error.Some? then Failure else Succeeded, result.detailCode)
  }

  function ValidOrFail(r: Record, next: Record, actor: Actor, later: Stamp): Record {
    if ValidRecord(next) then next
    else FailAt(r, later, actor, "adapter-result-invalid", false, "invalid-adapter-result")
  }

  // The record that is stored for an adapter result: the claim is checked against the lifecycle, a
  // finished registration against the plan, and an invalid record becomes a failure.
  function Applied(plan: Plan, r: Record, result: AdapterResult, actor: Actor, stamp: Stamp, later: Stamp): Record {
    var next := Claimed(r, result, stamp);
    if !CanTransition(r.state, result.nextState) then
      FailAt(r, stamp, actor, "adapter-transition-invalid", false, "invalid-adapter-result")
    else if next.state == AwaitingAuthority then
      if ValidRecord(next) then next
      else FailAt(r, stamp, actor, "adapter-result-invalid", false, "invalid-adapter-result")
    else if next.state == Failed || next.state == Recovering then
      var explained :=
        if next.error.Some? then next
        else next.(error := Some(OperationError(true, "provider-operation-failed", next.state == Recovering)));
      ValidOrFail(r, explained, actor, later)
    else if next.state == Validating && next.observation.Some? && next.operation != DisableOp && next.operation != RetireOp then
      ValidOrFail(r, Judged(plan, next, stamp), actor, later)
    else ValidOrFail(r, next, actor, later)
  }

  // The readiness decision after a registration was validated.
  function Judged(plan: Plan, r: Record, stamp: Stamp): Record
    requires r.state == Validating && r.observation.Some?
  {
    var assessed := r.(drift := AssessDrift(plan, r.observation.value));
    if PassesReadiness(plan, assessed.(state := Ready)) then
      TransitionAt(assessed, Ready, stamp, Automation, "post-registration-validation", "client-ready").value
    else
      FailAt(assessed, stamp, Automation, "post-registration-validation-failed", true, "readiness-blocked")
  }

  const NO_ROLLBACK := Rollback(true, false, None, "no-provider-write", None)

  function StartedRecord(
    wellFormed: bool, plan: Plan, operation: Operation, key: Id, actor: Actor, operationId: Id,
    secret: Option<Secret>, stamp: Stamp): Record
  {
    Record(wellFormed, operationId, plan.planId, plan.clientRef, key, operation, Preflight, 1, stamp.at, stamp.at,
           None, if operation == CreateOp then None else secret, None, [],
           [AuditEvent(1, stamp.at, "operation-started", actor, Started, stamp.newId, "requested")],
           Rollback(true, false, None, "preflight-not-complete", None), None)
  }

  function RefusedRecord(
    wellFormed: bool, plan: Plan, operation: Operation, key: Id, actor: Actor, operationId: Id, stamp: Stamp): Record
  {
    Record(wellFormed, operationId, plan.planId, plan.clientRef, key, operation, Failed, 1, stamp.at, stamp.at,
           None, None, None, [],
           [AuditEvent(1, stamp.at, "preflight-failed", actor, Failure, stamp.newId, "client-already-provisioned")],
           NO_ROLLBACK, Some(OperationError(true, "client-already-provisioned", false)))
  }

  function RecoveringRecord(r: Record, stamp: Stamp, actor: Actor): Result<Record, EngineError> {
    match TransitionAt(r, Recovering, stamp, actor, "operation-recovery-started", "retrying-failed-operation")
    case Err(e) => Err(e)
    case Ok(next) => Ok(next.(attempt := r.attempt + 1))
  }

  datatype Decision = Approve | Deny | Cancel

  function StatusOf(decision: Decision): GateStatus {
    match decision case Approve => Approved case Deny => Denied case Cancel => Cancelled
  }

  // The record after an authority decided, or after the gate expired.
  function DecidedRecord(r: Record, decision: Decision, actor: Actor, stamp: Stamp): Result<Record, EngineError>
    requires r.continuation.Some?
  {
    var gate := r.continuation.value;
    var status := if stamp.at >= gate.expiresAt then GateExpired else StatusOf(decision);
    var decided := r.(updatedAt := stamp.at, continuation := Some(gate.(status := status)));
    if status != Approved then
      Ok(AppendAuditAt(
        decided.(state := Failed, rollback := NO_ROLLBACK,
                 error := Some(OperationError(true, "authority-gate", status == GateExpired || status == Cancelled))),
        stamp, actor, "authority-gate-completed", if status == Cancelled then Cancellation else Failure, "authority-decided"))
    else TransitionAt(decided, Provisioning, stamp, actor, "authority-gate-completed", "authority-approved")
  }

  // --------------------------------------------------------------------------------- the store

  type Records = map<Id, Record>

  // A save replaces the version it is based on, or adds the first one.
  function Saved(records: Records, r: Record, expected: Option<Time>): Result<Records, EngineError> {
    if !ValidRecord(r) then Err(InvalidRecord)
    else if r.key !in records && expected.Some? then Err(RecordConflict)
    else if r.key in records && expected.None? then Err(RecordConflict)
    else if r.key in records && records[r.key].updatedAt != expected.value then Err(RecordConflict)
    else if r.key in records
         && (records[r.key].operationId != r.operationId || records[r.key].planId != r.planId
             || records[r.key].clientRef != r.clientRef) then Err(BindingConflict)
    else Ok(records[r.key := r])
  }

  predicate NotLater(a: Record, b: Record) {
    a.updatedAt < b.updatedAt || (a.updatedAt == b.updatedAt && a.operationId <= b.operationId)
  }

  // The version of a client that was updated last, the larger operation identifier breaking ties.
  ghost predicate IsLatest(records: Records, clientRef: Id, latest: Option<Record>) {
    match latest
    case None => forall k :: k in records ==> records[k].clientRef != clientRef
    case Some(r) =>
      && r.clientRef == clientRef && r in records.Values
      && forall k :: k in records && records[k].clientRef == clientRef ==> NotLater(records[k], r)
  }

  class InMemoryRecordStore {
    var records: Records

    constructor ()
      ensures records == map[]
    {
      records := map[];
    }

    method GetByIdempotencyKey(key: Id) returns (r: Option<Record>)
      ensures r == if key in records then Some(records[key]) else None
    {
      r := if key in records then Some(records[key]) else None;
    }

    method GetLatestByClientRef(clientRef: Id) returns (latest: Option<Record>)
      ensures IsLatest(records, clientRef, latest)
    {
      latest := None;
      var rest := records.Keys;
      while rest != {}
        invariant rest <= records.Keys
        invariant latest.None? ==> forall k :: k in records && k !in rest ==> records[k].clientRef != clientRef
        invariant latest.Some? ==> latest.value.clientRef == clientRef && latest.value in records.Values
        invariant latest.Some? ==> forall k :: k in records && k !in rest && records[k].clientRef == clientRef ==>
          NotLater(records[k], latest.value)
        decreases rest
      {
        var k :| k in rest;
        rest := rest - {k};
        var r := records[k];
        if r.clientRef == clientRef && (latest.None? || !NotLater(r, latest.value)) {
          latest := Some(r);
        }
      }
    }

    method Save(r: Record, expected: Option<Time>) returns (error: Option<EngineError>)
      modifies this
      ensures match Saved(old(records), r, expected)
        case Ok(after) => error == None && records == after
        case Err(e) => error == Some(e) && records == old(records)
      ensures error.None? <==>
        && ValidRecord(r)
        && (if r.key !in old(records) then expected.None?
            else var current := old(records)[r.key];
              && expected == Some(current.updatedAt)
              && r.operationId == current.operationId && r.planId == current.planId && r.clientRef == current.clientRef)
      ensures records == if error.None? then old(records)[r.key := r] else old(records)
    {
      if !ValidRecord(r) { return Some(InvalidRecord); }
      if r.key !in records {
        if expected.Some? { return Some(RecordConflict); }
      } else {
        var current := records[r.key];
        if expected.None? || current.updatedAt != expected.value { return Some(RecordConflict); }
        if current.operationId != r.operationId || current.planId != r.planId || current.clientRef != r.clientRef {
          return Some(BindingConflict);
        }
      }
      records := records[r.key := r];
      error := None;
    }

    // Stores what becomes of an adapter result.
    method ApplyAdapterResult(plan: Plan, r: Record, result: AdapterResult, actor: Actor, stamp: Stamp, later: Stamp)
      returns (error: Option<EngineError>)
      modifies this
      ensures match Saved(old(records), Applied(plan, r, result, actor, stamp, later), Some(r.updatedAt))
        case Ok(after) => error == None && records == after
        case Err(e) => error == Some(e) && records == old(records)
    {
      var next := NextVersion(plan, r, result, actor, stamp, later);
      error := Save(next, Some(r.updatedAt));
    }
  }

  method Judge(plan: Plan, r: Record, stamp: Stamp) returns (next: Record)
    requires r.state == Validating && r.observation.Some?
    ensures next == Judged(plan, r, stamp)
  {
    next := r.(drift := AssessDrift(plan, r.observation.value));
    var blockers := EvaluateReadiness(plan, next.(state := Ready));
    if blockers == [] {
      next := TransitionAt(next, Ready, stamp, Automation, "post-registration-validation", "client-ready").value;
    } else {
      next := FailAt(next, stamp, Automation, "post-registration-validation-failed", true, "readiness-blocked");
    }
  }

  // The version to store, step by step.
  method NextVersion(plan: Plan, r: Record, result: AdapterResult, actor: Actor, stamp: Stamp, later: Stamp)
    returns (next: Record)
    ensures next == Applied(plan, r, result, actor, stamp, later)
  {
    if !CanTransition(r.state, result.nextState) {
      return FailAt(r, stamp, actor, "adapter-transition-invalid", false, "invalid-adapter-result");
    }
    next := Claimed(r, result, stamp);
    if next.state == AwaitingAuthority {
      if !ValidRecord(next) {
        next := FailAt(r, stamp, actor, "adapter-result-invalid", false, "invalid-adapter-result");
      }
      return;
    }
    if next.state == Failed || next.state == Recovering {
      if next.error.None? {
        next := next.(error := Some(OperationError(true, "provider-operation-failed", next.state == Recovering)));
      }
    } else if next.state == Validating && next.observation.Some? && next.operation != DisableOp && next.operation != RetireOp {
      next := Judge(plan, next, stamp);
    }
    if !ValidRecord(next) {
      next := FailAt(r, later, actor, "adapter-result-invalid", false, "invalid-adapter-result");
    }
  }
}
