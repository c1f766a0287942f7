/** projectLearningEvents in the form the source gives it: four collections that are filled in
    place while one loop walks the sorted events (src/learning-event-engine.ts:461-813). */
module ProjectionEngine {
  import opened Wrappers
  import opened LearningEvents
  import opened Projection
  import opened ProjectionTheory
  import opened Sorting

  predicate IdLe(a: EventId, b: EventId) {
    if a.scope.installationId != b.scope.installationId then a.scope.installationId < b.scope.installationId
    else if a.scope.learnerId != b.scope.learnerId then a.scope.learnerId < b.scope.learnerId
    else a.key <= b.key
  }

  // The comparison of the sort: by sequence, then by event identifier.
  predicate EventLe(a: Event, b: Event) {
    a.sequence < b.sequence || (a.sequence == b.sequence && IdLe(a.body.id, b.body.id))
  }

  function SortedEvents(events: seq<Event>): seq<Event> {
    Sort(events, EventLe)
  }

  lemma EventLeIsTotal()
    ensures TotalPreorder(EventLe)
  {
  }

  lemma AscendingLogsAreSorted(events: seq<Event>)
    requires Increasing(events)
    ensures SortedEvents(events) == events
  {
    SortOfSorted(events, EventLe);
  }

  // Callers may hand the events over in any order.
  lemma InputOrderIsIrrelevant(events: seq<Event>, shuffled: seq<Event>)
    requires Increasing(events) && multiset(events) == multiset(shuffled)
    ensures SortedEvents(shuffled) == events
  {
    EventLeIsTotal();
    assert Separates(EventLe, events);
    SortOfPermutation(events, shuffled, EventLe);
    AscendingLogsAreSorted(events);
  }

  class ReplayState {
    var enrollments: map<PathKey, Enrollment>
    var modules: map<ModuleKey, ModuleState>
    var attempts: map<Id, Attempt>
    var correctionIds: set<Id>

    constructor ()
      ensures Value() == EMPTY_TABLES
    {
      enrollments, modules, attempts, correctionIds := map[], map[], map[], {};
    }

    function Value(): Tables
      reads this
    {
      Tables(enrollments, modules, attempts, correctionIds)
    }

    method Clear()
      modifies this
      ensures Value() == EMPTY_TABLES
    {
      enrollments, modules, attempts, correctionIds := map[], map[], map[], {};
    }

    method ApplyEnrollment(e: Candidate) returns (error: Option<ErrorCode>)
      requires e.payload.PathEnrolled?
      modifies this
      ensures error.None? ==> Projection.ApplyEnrollment(old(Value()), e) == Ok(Value())
      ensures error.Some? ==> Projection.ApplyEnrollment(old(Value()), e) == Err(error.value) && Value() == old(Value())
    {
      var p := e.payload;
      var key := PathKey(p.pathId, e.contentVersion);
      var projection := Enrollment(p.pathId, p.pathTitle, e.contentVersion, p.moduleIds, p.badge, e.occurredAt);
      if key in enrollments && enrollments[key] != projection {
        return Some(ProjectionConflict);
      }
      if key !in enrollments {
        enrollments := enrollments[key := projection];
      }
      error := None;
    }

    method ApplyModuleVisit(e: Candidate)
      requires e.payload.ModuleVisited?
      modifies this
      ensures Value() == ApplyVisit(old(Value()), e)
    {
      var key := ModuleKey(e.payload.pathId, e.payload.moduleId, e.contentVersion);
      if key !in modules {
        modules := modules[key := ModuleState(false, Some(e.occurredAt), None, {})];
      } else {
        var existing := modules[key];
        if existing.firstVisitedAt == None || e.occurredAt < existing.firstVisitedAt.value {
          modules := modules[key := existing.(firstVisitedAt := Some(e.occurredAt))];
        } else {
          assert modules == modules[key := existing];
        }
      }
    }

    method ApplyModuleCompletion(e: Candidate)
      requires e.payload.ModuleCompleted?
      modifies this
      ensures Value() == ApplyCompletion(old(Value()), e)
    {
      var key := ModuleKey(e.payload.pathId, e.payload.moduleId, e.contentVersion);
      var existing := if key in modules then modules[key] else ModuleState(false, None, None, {});
      existing := existing.(completed := true);
      if existing.completedAt == None || e.occurredAt < existing.completedAt.value {
        existing := existing.(completedAt := Some(e.occurredAt));
      }
      existing := existing.(evidenceRefs := existing.evidenceRefs + Elements(e.payload.evidenceRefs));
      modules := modules[key := existing];
    }

    method ApplyAssessment(e: Candidate) returns (error: Option<ErrorCode>)
      requires e.payload.AssessmentRecorded?
      modifies this
      ensures error.None? ==> Projection.ApplyAssessment(old(Value()), e) == Ok(Value())
      ensures error.Some? ==> Projection.ApplyAssessment(old(Value()), e) == Err(error.value) && Value() == old(Value())
    {
      var p := e.payload;
      if p.attemptId in attempts {
        return Some(DuplicateAttemptId);
      }
      attempts := attempts[p.attemptId :=
        Attempt(p.attemptId, p.pathId, p.moduleId, e.contentVersion, p.assessmentVersion, p.answers,
                p.scorePercent, p.passed, p.scorePercent, p.passed, e.occurredAt, [])];
      error := None;
    }

    method ApplyCorrection(e: Candidate) returns (error: Option<ErrorCode>)
      requires e.payload.AssessmentCorrected?
      modifies this
      ensures error.None? ==> Projection.ApplyCorrection(old(Value()), e) == Ok(Value())
      ensures error.Some? ==> Projection.ApplyCorrection(old(Value()), e) == Err(error.value) && Value() == old(Value())
    {
      var p := e.payload;
      if p.attemptId !in attempts {
        return Some(ProjectionConflict);
      }
      if p.correctionId in correctionIds {
        return Some(DuplicateCorrectionId);
      }
      var attempt := attempts[p.attemptId];
      if e.contentVersion != attempt.contentVersion || p.assessmentVersion != attempt.assessmentVersion {
        return Some(ProjectionConflict);
      }
      correctionIds := correctionIds + {p.correctionId};
      var correction := Correction(p.correctionId, p.assessmentVersion, p.scorePercent, p.passed, p.reason,
                                   e.occurredAt, e.actor);
      attempt := attempt.(corrections := attempt.corrections + [correction]);
      attempt := attempt.(effectiveScorePercent := correction.scorePercent);
      attempt := attempt.(effectivePassed := correction.passed);
      attempts := attempts[p.attemptId := attempt];
      error := None;
    }

    method ApplyEvent(e: Candidate) returns (error: Option<ErrorCode>)
      modifies this
      ensures error.None? ==> Apply(old(Value()), e) == Ok(Value())
      ensures error.Some? ==> Apply(old(Value()), e) == Err(error.value) && Value() == old(Value())
    {
      error := None;
      match e.payload
      case PathEnrolled(_, _, _, _) => error := ApplyEnrollment(e);
      case ModuleVisited(pathId, moduleId) =>
        if !EnrolledModule(Value(), pathId, moduleId, e.contentVersion) { return Some(ProjectionConflict); }
        ApplyModuleVisit(e);
      case AssessmentRecorded(_, pathId, moduleId, _, _, _, _) =>
        if !EnrolledModule(Value(), pathId, moduleId, e.contentVersion) { return Some(ProjectionConflict); }
        error := ApplyAssessment(e);
      case ModuleCompleted(pathId, moduleId, _) =>
        if !EnrolledModule(Value(), pathId, moduleId, e.contentVersion) { return Some(ProjectionConflict); }
        ApplyModuleCompletion(e);
      case AssessmentCorrected(_, _, _, _, _, _) => error := ApplyCorrection(e);
      case ProgressImported(_, _) =>
    }
  }

  lemma BestIsUnique(x: Option<int>, y: Option<int>, attempts: map<Id, Attempt>, ids: set<Id>)
    requires ids <= attempts.Keys && IsBest(x, attempts, ids) && IsBest(y, attempts, ids)
    ensures x == y
  {
  }

  // The best effective score among the attempts of a path, if there is one.
  method BestScore(attempts: map<Id, Attempt>, ids: set<Id>) returns (best: Option<int>)
    requires ids <= attempts.Keys
    ensures best == Best(attempts, ids)
  {
    best := None;
    var rest := ids;
    while rest != {}
      invariant rest <= ids && IsBest(best, attempts, ids - rest)
      decreases rest
    {
      var a :| a in rest;
      var score := attempts[a].effectiveScorePercent;
      ghost var seen := ids - rest;
      rest := rest - {a};
      assert ids - rest == seen + {a};
      if best == None || best.value < score { best := Some(score); }
    }
    assert ids - rest == ids;
    BestIsUnique(best, Best(attempts, ids), attempts, ids);
  }

  method BuildTranscriptEntry(t: Tables, e: Enrollment) returns (entry: Transcript)
    ensures entry == BuildTranscript(t, e)
  {
    var completedModules := |CompletedOf(t, e)|;
    var best := BestScore(t.attempts, AttemptsOf(t, e));
    entry := Transcript(e.pathTitle, completedModules, |e.moduleIds|, Percent(completedModules, |e.moduleIds|), best);
  }

  // The views of the final collections: a transcript entry for each enrollment, and the badges that are earned.
  method ListProjection(r: Replay, count: nat, scope: Scope) returns (projection: Projected)
    ensures projection == Finish(r, count, scope)
  {
    var t := r.tables;
    var transcript: map<PathKey, Transcript> := map[];
    var badges: map<PathKey, Badge> := map[];
    var rest := t.enrollments.Keys;
    while rest != {}
      invariant rest <= t.enrollments.Keys
      invariant transcript == map k | k in t.enrollments && k !in rest :: BuildTranscript(t, t.enrollments[k])
      invariant badges == map k | k in t.enrollments && k !in rest && DeriveBadge(t, t.enrollments[k]).Some?
                            :: DeriveBadge(t, t.enrollments[k]).value
      decreases rest
    {
      var k :| k in rest;
      rest := rest - {k};
      var entry := BuildTranscriptEntry(t, t.enrollments[k]);
      transcript := transcript[k := entry];
      var badge := DeriveBadge(t, t.enrollments[k]);
      if badge.Some? { badges := badges[k := badge.value]; }
    }
    projection := Projected(scope, count, r.lastSequence, t, transcript, badges,
                            r.snapshot, r.snapshotSequence, r.synchronizedAt);
  }

  method ProjectLearningEvents(sourceEvents: seq<Event>, scope: Scope) returns (r: Result<Projected, ErrorCode>)
    ensures r == Project(SortedEvents(sourceEvents), scope)
  {
    var events := SortedEvents(sourceEvents);
    var state := new ReplayState();
    var progressSnapshot: Option<Id> := None;
    var progressSnapshotSequence := 0;
    var progressSynchronizedAt: Option<Time> := None;
    var lastSequence := 0;
    var i := 0;
    while i < |events|
      invariant 0 <= i <= |events|
      invariant ReplayFrom(EMPTY_REPLAY, events, scope)
             == ReplayFrom(Replay(state.Value(), progressSnapshot, progressSnapshotSequence,
                                  progressSynchronizedAt, lastSequence), events[i..], scope)
    {
      var event := events[i];
      assert events[i..][0] == event && events[i..][1..] == events[i + 1..];
      if !ValidEvent(event) {
        return Err(InvalidEvent);
      }
      if event.body.scope != scope {
        return Err(ProjectionConflict);
      }
      if event.sequence <= lastSequence {
        return Err(ProjectionConflict);
      }
      lastSequence := event.sequence;
      if event.body.payload.ProgressImported? {
        state.Clear();
        progressSnapshot := Some(event.body.payload.progress);
        progressSnapshotSequence := event.sequence;
        progressSynchronizedAt := Some(event.body.payload.synchronizedAt);
      } else {
        var error := state.ApplyEvent(event.body);
        if error.Some? {
          return Err(error.value);
        }
      }
      i := i + 1;
    }
    var projection := ListProjection(
      Replay(state.Value(), progressSnapshot, progressSnapshotSequence, progressSynchronizedAt, lastSequence), |events|, scope);
    return Ok(projection);
  }
}
