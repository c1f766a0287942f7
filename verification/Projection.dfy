/** What a learner's event log means: the fold behind projectLearningEvents
    (src/learning-event-engine.ts), as functions on values. */
module Projection {
  import opened Wrappers
  import opened LearningEvents

  datatype PathKey = PathKey(pathId: Id, contentVersion: Id)
  datatype ModuleKey = ModuleKey(pathId: Id, moduleId: Id, contentVersion: Id)

  datatype Enrollment = Enrollment(pathId: Id, pathTitle: Id, contentVersion: Id, moduleIds: seq<Id>,
                                   badge: BadgeDefinition, enrolledAt: Time)

  // The source keeps the evidence references of a module as the sorted list of this set.
  datatype ModuleState = ModuleState(completed: bool, firstVisitedAt: Option<Time>,
                                     completedAt: Option<Time>, evidenceRefs: set<Id>)

  datatype Correction = Correction(correctionId: Id, assessmentVersion: Id, scorePercent: int, passed: bool,
                                   reason: Id, correctedAt: Time, actor: Actor)

  datatype Attempt = Attempt(
    attemptId: Id, pathId: Id, moduleId: Id, contentVersion: Id, assessmentVersion: Id,
    answers: map<Id, Option<int>>, originalScorePercent: int, originalPassed: bool,
    effectiveScorePercent: int, effectivePassed: bool, completedAt: Time, corrections: seq<Correction>)

  // The four collections the replay fills in.
  datatype Tables = Tables(enrollments: map<PathKey, Enrollment>, modules: map<ModuleKey, ModuleState>,
                           attempts: map<Id, Attempt>, correctionIds: set<Id>)

  // Everything the replay carries from one event to the next.
  datatype Replay = Replay(tables: Tables, snapshot: Option<Id>, snapshotSequence: int,
                           synchronizedAt: Option<Time>, lastSequence: int)

  const EMPTY_TABLES := Tables(map[], map[], map[], {})
  const EMPTY_REPLAY := Replay(EMPTY_TABLES, None, 0, None, 0)

  function Elements(s: seq<Id>): (r: set<Id>)
    ensures forall x :: x in r <==> x in s
  {
    set x | x in s
  }

  function Earlier(current: Option<Time>, at: Time): Option<Time> {
    if current == None || at < current.value then Some(at) else current
  }

  function ApplyEnrollment(t: Tables, e: Candidate): Result<Tables, ErrorCode>
    requires e.payload.PathEnrolled?
  {
    var p := e.payload;
    var key := PathKey(p.pathId, e.contentVersion);
    var enrollment := Enrollment(p.pathId, p.pathTitle, e.contentVersion, p.moduleIds, p.badge, e.occurredAt);
    if key !in t.enrollments then Ok(t.(enrollments := t.enrollments[key := enrollment]))
    else if t.enrollments[key] != enrollment then Err(ProjectionConflict)
    else Ok(t)
  }

  predicate EnrolledModule(t: Tables, pathId: Id, moduleId: Id, contentVersion: Id) {
    var key := PathKey(pathId, contentVersion);
    key in t.enrollments && moduleId in t.enrollments[key].moduleIds
  }

  const NO_ACTIVITY := ModuleState(false, None, None, {})

  function VisitModule(m: ModuleState, at: Time): ModuleState {
    m.(firstVisitedAt := Earlier(m.firstVisitedAt, at))
  }

  function CompleteModule(m: ModuleState, at: Time, refs: seq<Id>): ModuleState {
    m.(completed := true, completedAt := Earlier(m.completedAt, at), evidenceRefs := m.evidenceRefs + Elements(refs))
  }

  function ModuleAt(t: Tables, key: ModuleKey): ModuleState {
    if key in t.modules then t.modules[key] else NO_ACTIVITY
  }

  function ApplyVisit(t: Tables, e: Candidate): Tables
    requires e.payload.ModuleVisited?
  {
    var key := ModuleKey(e.payload.pathId, e.payload.moduleId, e.contentVersion);
    t.(modules := t.modules[key := VisitModule(ModuleAt(t, key), e.occurredAt)])
  }

  function ApplyCompletion(t: Tables, e: Candidate): Tables
    requires e.payload.ModuleCompleted?
  {
    var key := ModuleKey(e.payload.pathId, e.payload.moduleId, e.contentVersion);
    t.(modules := t.modules[key := CompleteModule(ModuleAt(t, key), e.occurredAt, e.payload.evidenceRefs)])
  }

  function ApplyAssessment(t: Tables, e: Candidate): Result<Tables, ErrorCode>
    requires e.payload.AssessmentRecorded?
  {
    var p := e.payload;
    if p.attemptId in t.attempts then Err(DuplicateAttemptId)
    else
      var attempt := Attempt(p.attemptId, p.pathId, p.moduleId, e.contentVersion, p.assessmentVersion, p.answers,
                             p.scorePercent, p.passed, p.scorePercent, p.passed, e.occurredAt, []);
      Ok(t.(attempts := t.attempts[p.attemptId := attempt]))
  }

  function ApplyCorrection(t: Tables, e: Candidate): Result<Tables, ErrorCode>
    requires e.payload.AssessmentCorrected?
  {
    var p := e.payload;
    if p.attemptId !in t.attempts then Err(ProjectionConflict)
    else if p.correctionId in t.correctionIds then Err(DuplicateCorrectionId)
    else
      var a := t.attempts[p.attemptId];
      if e.contentVersion != a.contentVersion || p.assessmentVersion != a.assessmentVersion
      then Err(ProjectionConflict)
      else
        var c := Correction(p.correctionId, p.assessmentVersion, p.scorePercent, p.passed, p.reason,
                            e.occurredAt, e.actor);
        var corrected := a.(corrections := a.corrections + [c],
                            effectiveScorePercent := p.scorePercent, effectivePassed := p.passed);
        Ok(t.(attempts := t.attempts[p.attemptId := corrected], correctionIds := t.correctionIds + {p.correctionId}))
  }

  // The dispatch of applyEvent. An import never reaches it.
  function Apply(t: Tables, e: Candidate): Result<Tables, ErrorCode> {
    match e.payload
    case PathEnrolled(_, _, _, _) => ApplyEnrollment(t, e)
    case ModuleVisited(pathId, moduleId) =>
      if EnrolledModule(t, pathId, moduleId, e.contentVersion) then Ok(ApplyVisit(t, e)) else Err(ProjectionConflict)
    case AssessmentRecorded(_, pathId, moduleId, _, _, _, _) =>
      if EnrolledModule(t, pathId, moduleId, e.contentVersion) then ApplyAssessment(t, e) else Err(ProjectionConflict)
    case ModuleCompleted(pathId, moduleId, _) =>
      if EnrolledModule(t, pathId, moduleId, e.contentVersion) then Ok(ApplyCompletion(t, e)) else Err(ProjectionConflict)
    case AssessmentCorrected(_, _, _, _, _, _) => ApplyCorrection(t, e)
    case ProgressImported(_, _) => Ok(t)
  }

  // One turn of the replay loop.
  function Step(r: Replay, e: Event, scope: Scope): Result<Replay, ErrorCode> {
    if !ValidEvent(e) then Err(InvalidEvent)
    else if e.body.scope != scope then Err(ProjectionConflict)
    else if e.sequence <= r.lastSequence then Err(ProjectionConflict)
    else if e.body.payload.ProgressImported? then
      Ok(Replay(EMPTY_TABLES, Some(e.body.payload.progress), e.sequence,
                Some(e.body.payload.synchronizedAt), e.sequence))
    else
      match Apply(r.tables, e.body)
      case Err(code) => Err(code)
      case Ok(tables) => Ok(r.(tables := tables, lastSequence := e.sequence))
  }

  function ReplayFrom(r: Replay, events: seq<Event>, scope: Scope): Result<Replay, ErrorCode>
    decreases |events|
  {
    if events == [] then Ok(r)
    else
      match Step(r, events[0], scope)
      case Err(code) => Err(code)
      case Ok(next) => ReplayFrom(next, events[1..], scope)
  }

  // A log replays when projecting it raises no error.
  predicate Replays(events: seq<Event>, scope: Scope) {
    ReplayFrom(EMPTY_REPLAY, events, scope).Ok?
  }

  // Derived views of the final tables.

  datatype Transcript = Transcript(pathTitle: Id, completedModules: nat, totalModules: nat,
                                   completionPercent: int, bestScorePercent: Option<int>)

  datatype Badge = Badge(badge: BadgeDefinition, earnedAt: Time, evidenceModuleIds: seq<Id>)

  // Math.round of a non-negative fraction of one hundred.
  function Percent(part: nat, whole: nat): int {
    if whole == 0 then 0 else (200 * part + whole) / (2 * whole)
  }

  function CompletedOf(t: Tables, e: Enrollment): set<ModuleKey> {
    set k | k in t.modules && k.pathId == e.pathId && k.contentVersion == e.contentVersion
            && t.modules[k].completed && k.moduleId in e.moduleIds
  }

  function AttemptsOf(t: Tables, e: Enrollment): set<Id> {
    set a | a in t.attempts && t.attempts[a].pathId == e.pathId && t.attempts[a].contentVersion == e.contentVersion
  }

  ghost predicate IsBest(best: Option<int>, attempts: map<Id, Attempt>, ids: set<Id>)
    requires ids <= attempts.Keys
  {
    match best
    case None => ids == {}
    case Some(b) =>
      && (exists a :: a in ids && attempts[a].effectiveScorePercent == b)
      && (forall a :: a in ids ==> attempts[a].effectiveScorePercent <= b)
  }

  lemma BestExists(attempts: map<Id, Attempt>, ids: set<Id>) returns (best: Option<int>)
    requires ids <= attempts.Keys
    ensures IsBest(best, attempts, ids)
  {
    if ids == {} {
      return None;
    }
    var a :| a in ids;
    var score := attempts[a].effectiveScorePercent;
    var rest := BestExists(attempts, ids - {a});
    best := if rest == None || rest.value < score then Some(score) else rest;
    forall x | x in ids ensures attempts[x].effectiveScorePercent <= best.value {
      assert x == a || x in ids - {a};
    }
  }

  ghost function Best(attempts: map<Id, Attempt>, ids: set<Id>): (best: Option<int>)
    requires ids <= attempts.Keys
    ensures IsBest(best, attempts, ids)
  {
    assert exists b :: IsBest(b, attempts, ids) by { var b := BestExists(attempts, ids); }
    var best :| IsBest(best, attempts, ids);
    best
  }

  ghost function BuildTranscript(t: Tables, e: Enrollment): Transcript {
    var done := |CompletedOf(t, e)|;
    Transcript(e.pathTitle, done, |e.moduleIds|, Percent(done, |e.moduleIds|), Best(t.attempts, AttemptsOf(t, e)))
  }

  function Later(a: Option<Time>, b: Option<Time>): Option<Time> {
    if a == None then b else if b == None || b.value <= a.value then a else b
  }

  // The completion times of the listed modules, or None when one of them is not completed.
  function LatestCompletion(t: Tables, pathId: Id, contentVersion: Id, moduleIds: seq<Id>): (r: Option<Option<Time>>) {
    if moduleIds == [] then Some(None)
    else
      var m := ModuleAt(t, ModuleKey(pathId, moduleIds[0], contentVersion));
      var rest := LatestCompletion(t, pathId, contentVersion, moduleIds[1..]);
      if !m.completed || rest == None then None else Some(Later(m.completedAt, rest.value))
  }

  function DeriveBadge(t: Tables, e: Enrollment): Option<Badge> {
    match LatestCompletion(t, e.pathId, e.contentVersion, e.moduleIds)
    case Some(Some(at)) => Some(Badge(e.badge, at, e.moduleIds))
    case _ => None
  }

  // The projection handed to callers. Its lists are sorted by the keys of these maps.
  datatype Projected = Projected(
    scope: Scope, revision: nat, lastSequence: int, tables: Tables,
    transcript: map<PathKey, Transcript>, badges: map<PathKey, Badge>,
    snapshot: Option<Id>, snapshotSequence: int, synchronizedAt: Option<Time>)

  ghost function Finish(r: Replay, count: nat, scope: Scope): Projected {
    var t := r.tables;
    Projected(scope, count, r.lastSequence, t,
              map k | k in t.enrollments :: BuildTranscript(t, t.enrollments[k]),
              map k | k in t.enrollments && DeriveBadge(t, t.enrollments[k]).Some?
                :: DeriveBadge(t, t.enrollments[k]).value,
              r.snapshot, r.snapshotSequence, r.synchronizedAt)
  }

  ghost function Project(events: seq<Event>, scope: Scope): Result<Projected, ErrorCode> {
    match ReplayFrom(EMPTY_REPLAY, events, scope)
    case Err(code) => Err(code)
    case Ok(r) => Ok(Finish(r, |events|, scope))
  }
}
