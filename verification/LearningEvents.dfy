/** The shapes of learning commands and events, and the validity rule every reader
    and writer of the event log relies on (src/learning-events.ts).

    Identifiers are opaque: a number stands for a text, and its order for the text order.
    A SHA-256 digest is represented by the value that is hashed, or, for a whole command,
    by a number that is different for different commands. */
module LearningEvents {
  import opened Wrappers
  import opened Sequences

  type Id = nat
  type Time = int

  // The installation and the learner whose stream an event belongs to.
  datatype Scope = Scope(installationId: Id, learnerId: Id)

  // An event identifier is the digest of the scope and the idempotency key.
  datatype EventId = EventId(scope: Scope, key: Id)

  datatype ActorType = LearnerActor | OwnerActor | SystemActor
  datatype Actor = Actor(kind: ActorType, userId: Option<Id>)

  datatype BadgeDefinition = BadgeDefinition(id: Id, name: Id, description: Id)

  datatype Payload =
    | PathEnrolled(pathId: Id, pathTitle: Id, moduleIds: seq<Id>, badge: BadgeDefinition)
    | ModuleVisited(pathId: Id, moduleId: Id)
    | AssessmentRecorded(attemptId: Id, pathId: Id, moduleId: Id, assessmentVersion: Id,
                         answers: map<Id, Option<int>>, scorePercent: int, passed: bool)
    | ModuleCompleted(pathId: Id, moduleId: Id, evidenceRefs: seq<Id>)
    | AssessmentCorrected(correctionId: Id, attemptId: Id, assessmentVersion: Id,
                          scorePercent: int, passed: bool, reason: Id)
    | ProgressImported(progress: Id, synchronizedAt: Time)

  datatype ContractVersion = V1_0 | V1_1

  // An event before the store has given it a sequence number.
  datatype Candidate = Candidate(
    id: EventId, scope: Scope, key: Id, schemaVersion: ContractVersion, contentVersion: Id, digest: Id,
    occurredAt: Time, recordedAt: Time, actor: Actor, payload: Payload)

  datatype Event = Event(sequence: int, body: Candidate)

  datatype AppendResult = AppendResult(event: Event, replayed: bool)

  datatype ErrorCode =
    | InvalidEvent
    | IdempotencyConflict
    | DuplicateAttemptId
    | DuplicateCorrectionId
    | ProjectionConflict
    | ConcurrencyConflict
    | AccessDenied
    | StorageFailure

  predicate ValidScore(score: int) {
    0 <= score <= 100
  }

  predicate ValidActor(actor: Actor) {
    actor.kind == SystemActor <==> actor.userId == None
  }

  predicate ValidPayload(payload: Payload) {
    match payload
    case PathEnrolled(_, _, moduleIds, _) => Distinct(moduleIds) && moduleIds != []
    case ModuleVisited(_, _) => true
    case AssessmentRecorded(_, _, _, _, answers, score, _) =>
      && 1 <= |answers| <= 500
      && (forall q :: q in answers ==> answers[q] == None || 0 <= answers[q].value <= 1000)
      && ValidScore(score)
    case ModuleCompleted(_, _, evidenceRefs) => Distinct(evidenceRefs) && evidenceRefs != []
    case AssessmentCorrected(_, _, _, score, _, _) => ValidScore(score)
    case ProgressImported(_, _) => true
  }

  predicate ValidBody(body: Candidate) {
    && body.occurredAt <= body.recordedAt
    && ValidActor(body.actor)
    && (body.payload.ProgressImported? ==> body.schemaVersion == V1_1)
    && ValidPayload(body.payload)
  }

  predicate ValidEvent(event: Event) {
    1 <= event.sequence && ValidBody(event.body)
  }

  // The candidate the engine builds for a valid command carries the derived event identifier.
  predicate EngineBuilt(body: Candidate) {
    ValidBody(body) && body.id == EventId(body.scope, body.key)
  }

  function Bodies(events: seq<Event>): (r: seq<Candidate>)
    ensures |r| == |events| && forall i :: 0 <= i < |r| ==> r[i] == events[i].body
  {
    seq(|events|, i requires 0 <= i < |events| => events[i].body)
  }

  ghost predicate Increasing(events: seq<Event>) {
    && (forall i :: 0 <= i < |events| ==> 1 <= events[i].sequence)
    && (forall i, j :: 0 <= i < j < |events| ==> events[i].sequence < events[j].sequence)
  }
}
