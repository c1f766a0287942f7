/** Which logs replay, which error the others end with, and what the tables hold afterwards, said about the events
    of the log alone (src/learning-event-engine.ts:461-727). */
module ProjectionLog {
  import opened Wrappers
  import opened LearningEvents
  import opened Projection
  import opened ProjectionTheory

  // The event at j still counts before place i: no import stands between them, and it is none itself.
  predicate InForce(events: seq<Event>, j: int, i: int)
    requires i <= |events|
  {
    0 <= j < i && forall m :: j <= m < i ==> !events[m].body.payload.ProgressImported?
  }

  function EnrollmentOf(b: Candidate): Enrollment
    requires b.payload.PathEnrolled?
  {
    Enrollment(b.payload.pathId, b.payload.pathTitle, b.contentVersion, b.payload.moduleIds, b.payload.badge, b.occurredAt)
  }

  predicate Enrolls(b: Candidate, key: PathKey) {
    b.payload.PathEnrolled? && key == PathKey(b.payload.pathId, b.contentVersion)
  }

  predicate RecordsAttempt(b: Candidate, attemptId: Id) {
    b.payload.AssessmentRecorded? && b.payload.attemptId == attemptId
  }

  predicate Corrects(b: Candidate, correctionId: Id) {
    b.payload.AssessmentCorrected? && b.payload.correctionId == correctionId
  }

  // An event in force enrolls the learner in a path with the module.
  ghost predicate ModuleInForce(events: seq<Event>, i: int, pathId: Id, moduleId: Id, contentVersion: Id)
    requires i <= |events|
  {
    exists j :: InForce(events, j, i) && Enrolls(events[j].body, PathKey(pathId, contentVersion)) && moduleId in events[j].body.payload.moduleIds
  }

  ghost predicate AttemptInForce(events: seq<Event>, i: int, attemptId: Id)
    requires i <= |events|
  {
    exists j :: InForce(events, j, i) && RecordsAttempt(events[j].body, attemptId)
  }

  // The attempt in force was made in the content version and under the assessment version.
  ghost predicate VersionsInForce(events: seq<Event>, i: int, attemptId: Id, contentVersion: Id, assessmentVersion: Id)
    requires i <= |events|
  {
    exists j :: InForce(events, j, i) && RecordsAttempt(events[j].body, attemptId)
                && events[j].body.contentVersion == contentVersion && events[j].body.payload.assessmentVersion == assessmentVersion
  }

  ghost predicate CorrectionInForce(events: seq<Event>, i: int, correctionId: Id)
    requires i <= |events|
  {
    exists j :: InForce(events, j, i) && Corrects(events[j].body, correctionId)
  }

  // The path was enrolled otherwise in the content version.
  ghost predicate RedefinedInForce(events: seq<Event>, i: int, e: Enrollment)
    requires i <= |events|
  {
    exists j :: InForce(events, j, i) && Enrolls(events[j].body, PathKey(e.pathId, e.contentVersion)) && EnrollmentOf(events[j].body) != e
  }

  // What is wrong with the event at place i, after the events before it.
  ghost function Fault(events: seq<Event>, scope: Scope, i: nat): Option<ErrorCode>
    requires i < |events|
  {
    var e, b := events[i], events[i].body;
    if !ValidEvent(e) then Some(InvalidEvent)
    else if b.scope != scope then Some(ProjectionConflict)
    else if i > 0 && e.sequence <= events[i - 1].sequence then Some(ProjectionConflict)
    else BodyFault(events, i, b)
  }

  ghost function BodyFault(events: seq<Event>, i: nat, b: Candidate): Option<ErrorCode>
    requires i <= |events|
  {
    match b.payload
    case ProgressImported(_, _) => None
    case PathEnrolled(_, _, _, _) =>
      if RedefinedInForce(events, i, EnrollmentOf(b)) then Some(ProjectionConflict) else None
    case ModuleVisited(pathId, moduleId) =>
      if ModuleInForce(events, i, pathId, moduleId, b.contentVersion) then None else Some(ProjectionConflict)
    case ModuleCompleted(pathId, moduleId, _) =>
      if ModuleInForce(events, i, pathId, moduleId, b.contentVersion) then None else Some(ProjectionConflict)
    case AssessmentRecorded(attemptId, pathId, moduleId, _, _, _, _) =>
      if !ModuleInForce(events, i, pathId, moduleId, b.contentVersion) then Some(ProjectionConflict)
      else if AttemptInForce(events, i, attemptId) then Some(DuplicateAttemptId)
      else None
    case AssessmentCorrected(correctionId, attemptId, assessmentVersion, _, _, _) =>
      if !AttemptInForce(events, i, attemptId) then Some(ProjectionConflict)
      else if CorrectionInForce(events, i, correctionId) then Some(DuplicateCorrectionId)
      else if VersionsInForce(events, i, attemptId, b.contentVersion, assessmentVersion) then None
      else Some(ProjectionConflict)
  }

  // The correction of an attempt that an event makes, if it makes one.
  function CorrectionIn(b: Candidate, attemptId: Id): seq<Correction> {
    var p := b.payload;
    if p.AssessmentCorrected? && p.attemptId == attemptId
    then [Correction(p.correctionId, p.assessmentVersion, p.scorePercent, p.passed, p.reason, b.occurredAt, b.actor)]
    else []
  }

  // The corrections of an attempt since the last import, in their order.
  function CorrectionsOf(events: seq<Event>, attemptId: Id): seq<Correction> {
    if events == [] || events[|events| - 1].body.payload.ProgressImported? then []
    else CorrectionsOf(events[..|events| - 1], attemptId) + CorrectionIn(events[|events| - 1].body, attemptId)
  }

  // The attempt holds what its event recorded.
  predicate IsRecorded(a: Attempt, b: Candidate)
    requires b.payload.AssessmentRecorded?
  {
    var p := b.payload;
    && a.attemptId == p.attemptId && a.pathId == p.pathId && a.moduleId == p.moduleId && a.contentVersion == b.contentVersion
    && a.assessmentVersion == p.assessmentVersion && a.answers == p.answers && a.completedAt == b.occurredAt
    && a.originalScorePercent == p.scorePercent && a.originalPassed == p.passed
  }

  predicate HoldsAttempt(t: Tables, b: Candidate) {
    b.payload.AssessmentRecorded? ==> b.payload.attemptId in t.attempts && IsRecorded(t.attempts[b.payload.attemptId], b)
  }

  ghost predicate EnrollmentsAreOf(events: seq<Event>, t: Tables) {
    && (forall key :: key in t.enrollments ==> exists j :: InForce(events, j, |events|) && Enrolls(events[j].body, key))
    && (forall j :: InForce(events, j, |events|) ==> IsEnrolled(t, events[j].body))
  }

  // What an event enrolls stands in the table.
  predicate IsEnrolled(t: Tables, b: Candidate) {
    b.payload.PathEnrolled? ==>
      var key := PathKey(b.payload.pathId, b.contentVersion); key in t.enrollments && t.enrollments[key] == EnrollmentOf(b)
  }

  ghost predicate AttemptsRecorded(events: seq<Event>, t: Tables) {
    && (forall a :: a in t.attempts ==> exists j :: InForce(events, j, |events|) && RecordsAttempt(events[j].body, a))
    && (forall j :: InForce(events, j, |events|) ==> HoldsAttempt(t, events[j].body))
  }

  // Each attempt has its corrections, and there is none of another.
  ghost predicate AttemptsCorrected(events: seq<Event>, t: Tables) {
    forall a :: CorrectionsOf(events, a) == if a in t.attempts then t.attempts[a].corrections else []
  }

  ghost predicate AttemptsAreOf(events: seq<Event>, t: Tables) {
    AttemptsRecorded(events, t) && AttemptsCorrected(events, t)
  }

  ghost predicate CorrectionsAreOf(events: seq<Event>, t: Tables) {
    forall c :: c in t.correctionIds <==> exists j :: InForce(events, j, |events|) && Corrects(events[j].body, c)
  }

  ghost predicate TablesOf(events: seq<Event>, t: Tables) {
    EnrollmentsAreOf(events, t) && AttemptsAreOf(events, t) && CorrectionsAreOf(events, t)
  }

  // ------------------------------------------------------------------------------- one event more

  lemma InForceSnoc(events: seq<Event>, e: Event, j: int, i: int)
    requires i <= |events|
    ensures InForce(events + [e], j, i) <==> InForce(events, j, i)
    ensures !e.body.payload.ProgressImported? ==>
      (InForce(events + [e], j, |events| + 1) <==> j == |events| || InForce(events, j, |events|))
    ensures e.body.payload.ProgressImported? ==> !InForce(events + [e], j, |events| + 1)
  {
    var more := events + [e];
    assert forall m :: 0 <= m < |events| ==> more[m] == events[m];
    assert more[|events|] == e;
  }

  // What was in force before the end of a log does not depend on a further event.
  lemma SameInForce(events: seq<Event>, e: Event, i: int)
    requires i <= |events|
    ensures forall p, m, v :: ModuleInForce(events + [e], i, p, m, v) <==> ModuleInForce(events, i, p, m, v)
    ensures forall a :: AttemptInForce(events + [e], i, a) <==> AttemptInForce(events, i, a)
    ensures forall a, v, w :: VersionsInForce(events + [e], i, a, v, w) <==> VersionsInForce(events, i, a, v, w)
    ensures forall c :: CorrectionInForce(events + [e], i, c) <==> CorrectionInForce(events, i, c)
    ensures forall x :: RedefinedInForce(events + [e], i, x) <==> RedefinedInForce(events, i, x)
  {
    var more := events + [e];
    forall j ensures InForce(more, j, i) <==> InForce(events, j, i) { InForceSnoc(events, e, j, i); }
    assert forall j :: InForce(events, j, i) ==> more[j] == events[j];
    forall p, m, v ensures ModuleInForce(more, i, p, m, v) <==> ModuleInForce(events, i, p, m, v) {
      if j :| InForce(events, j, i) && Enrolls(events[j].body, PathKey(p, v)) && m in events[j].body.payload.moduleIds { assert InForce(more, j, i); }
    }
    forall a ensures AttemptInForce(more, i, a) <==> AttemptInForce(events, i, a) {
      if j :| InForce(events, j, i) && RecordsAttempt(events[j].body, a) { assert InForce(more, j, i); }
    }
    forall a, v, w ensures VersionsInForce(more, i, a, v, w) <==> VersionsInForce(events, i, a, v, w) {
      if j :| InForce(events, j, i) && RecordsAttempt(events[j].body, a)
              && events[j].body.contentVersion == v && events[j].body.payload.assessmentVersion == w { assert InForce(more, j, i); }
    }
    forall c ensures CorrectionInForce(more, i, c) <==> CorrectionInForce(events, i, c) {
      if j :| InForce(events, j, i) && Corrects(events[j].body, c) { assert InForce(more, j, i); }
    }
    forall x ensures RedefinedInForce(more, i, x) <==> RedefinedInForce(events, i, x) {
      if j :| InForce(events, j, i) && Enrolls(events[j].body, PathKey(x.pathId, x.contentVersion)) && EnrollmentOf(events[j].body) != x { assert InForce(more, j, i); }
    }
  }

  lemma FaultSnoc(events: seq<Event>, e: Event, scope: Scope, i: nat)
    requires i < |events|
    ensures Fault(events + [e], scope, i) == Fault(events, scope, i)
  {
    SameInForce(events, e, i);
    assert (events + [e])[i] == events[i];
    assert i > 0 ==> (events + [e])[i - 1] == events[i - 1];
  }

  // What the tables say is in force is in force.
  lemma ModuleOfTheTable(events: seq<Event>, t: Tables, p: Id, m: Id, v: Id)
    requires EnrollmentsAreOf(events, t)
    ensures EnrolledModule(t, p, m, v) <==> ModuleInForce(events, |events|, p, m, v)
  {
    var key := PathKey(p, v);
    if key in t.enrollments {
      var j :| InForce(events, j, |events|) && Enrolls(events[j].body, key);
      assert IsEnrolled(t, events[j].body);
    }
    if ModuleInForce(events, |events|, p, m, v) {
      var j :| InForce(events, j, |events|) && Enrolls(events[j].body, key) && m in events[j].body.payload.moduleIds;
      assert IsEnrolled(t, events[j].body);
    }
  }

  lemma EnrollmentOfTheTable(events: seq<Event>, t: Tables, x: Enrollment)
    requires EnrollmentsAreOf(events, t)
    ensures RedefinedInForce(events, |events|, x) <==>
      PathKey(x.pathId, x.contentVersion) in t.enrollments && t.enrollments[PathKey(x.pathId, x.contentVersion)] != x
  {
    var key := PathKey(x.pathId, x.contentVersion);
    if key in t.enrollments {
      var j :| InForce(events, j, |events|) && Enrolls(events[j].body, key);
      assert IsEnrolled(t, events[j].body);
    }
    if RedefinedInForce(events, |events|, x) {
      var j :| InForce(events, j, |events|) && Enrolls(events[j].body, key) && EnrollmentOf(events[j].body) != x;
      assert IsEnrolled(t, events[j].body);
    }
  }

  lemma AttemptsInForce(events: seq<Event>, t: Tables)
    requires AttemptsAreOf(events, t)
    ensures forall a :: a in t.attempts <==> AttemptInForce(events, |events|, a)
    ensures forall a, v, w :: a in t.attempts ==>
      (VersionsInForce(events, |events|, a, v, w) <==> t.attempts[a].contentVersion == v && t.attempts[a].assessmentVersion == w)
  {
    var n := |events|;
    forall a ensures a in t.attempts <==> AttemptInForce(events, n, a) {
      if j :| InForce(events, j, n) && RecordsAttempt(events[j].body, a) { assert HoldsAttempt(t, events[j].body); }
    }
    forall a, v, w | a in t.attempts
      ensures VersionsInForce(events, n, a, v, w) <==> t.attempts[a].contentVersion == v && t.attempts[a].assessmentVersion == w
    {
      var j :| InForce(events, j, n) && RecordsAttempt(events[j].body, a);
      assert HoldsAttempt(t, events[j].body);
    }
  }

  lemma ActivityFault(events: seq<Event>, t: Tables, b: Candidate)
    requires EnrollmentsAreOf(events, t) && (b.payload.PathEnrolled? || b.payload.ModuleVisited? || b.payload.ModuleCompleted?)
    ensures BodyFault(events, |events|, b) == if Apply(t, b).Err? then Some(Apply(t, b).error) else None
  {
    if b.payload.PathEnrolled? {
      EnrollmentOfTheTable(events, t, EnrollmentOf(b));
    } else {
      ModuleOfTheTable(events, t, b.payload.pathId, b.payload.moduleId, b.contentVersion);
    }
  }

  lemma AssessmentFault(events: seq<Event>, t: Tables, b: Candidate)
    requires EnrollmentsAreOf(events, t) && AttemptsAreOf(events, t) && b.payload.AssessmentRecorded?
    ensures BodyFault(events, |events|, b) == if Apply(t, b).Err? then Some(Apply(t, b).error) else None
  {
    ModuleOfTheTable(events, t, b.payload.pathId, b.payload.moduleId, b.contentVersion);
    AttemptsInForce(events, t);
  }

  lemma CorrectionFault(events: seq<Event>, t: Tables, b: Candidate)
    requires AttemptsAreOf(events, t) && CorrectionsAreOf(events, t) && b.payload.AssessmentCorrected?
    ensures BodyFault(events, |events|, b) == if Apply(t, b).Err? then Some(Apply(t, b).error) else None
  {
    AttemptsInForce(events, t);
    assert b.payload.correctionId in t.correctionIds <==> CorrectionInForce(events, |events|, b.payload.correctionId);
  }

  lemma BodyFaultSnoc(events: seq<Event>, e: Event, b: Candidate)
    ensures BodyFault(events + [e], |events|, b) == BodyFault(events, |events|, b)
  {
    SameInForce(events, e, |events|);
  }

  // The next event fails exactly as it is at fault.
  lemma NextFault(events: seq<Event>, r: Replay, e: Event, scope: Scope)
    requires TablesOf(events, r.tables)
    requires r.lastSequence == if events == [] then 0 else events[|events| - 1].sequence
    ensures Fault(events + [e], scope, |events|) == if Step(r, e, scope).Err? then Some(Step(r, e, scope).error) else None
  {
    BodyFaultSnoc(events, e, e.body);
    assert (events + [e])[|events|] == e;
    assert events != [] ==> (events + [e])[|events| - 1] == events[|events| - 1];
    match e.body.payload
    case ProgressImported(_, _) =>
    case AssessmentRecorded(_, _, _, _, _, _, _) => AssessmentFault(events, r.tables, e.body);
    case AssessmentCorrected(_, _, _, _, _, _) => CorrectionFault(events, r.tables, e.body);
    case _ => ActivityFault(events, r.tables, e.body);
  }

  // ------------------------------------------------------------------------------ the tables after it

  lemma EnrollmentsAfter(events: seq<Event>, t: Tables, e: Event)
    requires EnrollmentsAreOf(events, t) && !e.body.payload.ProgressImported? && Apply(t, e.body).Ok?
    ensures EnrollmentsAreOf(events + [e], Apply(t, e.body).value)
  {
    var more, after, n := events + [e], Apply(t, e.body).value, |events|;
    forall j ensures InForce(more, j, n + 1) <==> j == n || InForce(events, j, n) { InForceSnoc(events, e, j, n); }
    forall key | key in after.enrollments ensures exists j :: InForce(more, j, n + 1) && Enrolls(more[j].body, key) {
      if key in t.enrollments {
        var j :| InForce(events, j, n) && Enrolls(events[j].body, key);
        assert InForce(more, j, n + 1) && more[j] == events[j];
      } else {
        assert InForce(more, n, n + 1) && more[n] == e;
      }
    }
    forall j | InForce(more, j, n + 1) ensures IsEnrolled(after, more[j].body) {
      if j < n { assert InForce(events, j, n) && events[j] == more[j] && IsEnrolled(t, events[j].body); }
    }
  }

  lemma CorrectionsAfter(events: seq<Event>, t: Tables, e: Event)
    requires CorrectionsAreOf(events, t) && !e.body.payload.ProgressImported? && Apply(t, e.body).Ok?
    ensures CorrectionsAreOf(events + [e], Apply(t, e.body).value)
  {
    var more, after, n := events + [e], Apply(t, e.body).value, |events|;
    forall j ensures InForce(more, j, n + 1) <==> j == n || InForce(events, j, n) { InForceSnoc(events, e, j, n); }
    forall c | c in after.correctionIds ensures exists j :: InForce(more, j, n + 1) && Corrects(more[j].body, c) {
      if c in t.correctionIds {
        var j :| InForce(events, j, n) && Corrects(events[j].body, c);
        assert InForce(more, j, n + 1) && more[j] == events[j];
      } else {
        assert InForce(more, n, n + 1) && more[n] == e;
      }
    }
    forall c, j | InForce(more, j, n + 1) && Corrects(more[j].body, c) ensures c in after.correctionIds {
      if j < n { assert InForce(events, j, n) && Corrects(events[j].body, c); }
    }
  }

  lemma CorrectionsSnoc(events: seq<Event>, e: Event, a: Id)
    ensures CorrectionsOf(events + [e], a) ==
      if e.body.payload.ProgressImported? then [] else CorrectionsOf(events, a) + CorrectionIn(e.body, a)
  {
    assert (events + [e])[..|events|] == events;
  }

  lemma AttemptsAfter(events: seq<Event>, t: Tables, e: Event)
    requires AttemptsRecorded(events, t) && !e.body.payload.ProgressImported? && Apply(t, e.body).Ok?
    ensures AttemptsRecorded(events + [e], Apply(t, e.body).value)
  {
    var more, after, n := events + [e], Apply(t, e.body).value, |events|;
    forall j ensures InForce(more, j, n + 1) <==> j == n || InForce(events, j, n) { InForceSnoc(events, e, j, n); }
    forall a | a in after.attempts ensures exists j :: InForce(more, j, n + 1) && RecordsAttempt(more[j].body, a) {
      if a in t.attempts {
        var j :| InForce(events, j, n) && RecordsAttempt(events[j].body, a);
        assert InForce(more, j, n + 1) && more[j] == events[j];
      } else {
        assert InForce(more, n, n + 1) && more[n] == e;
      }
    }
    forall j | InForce(more, j, n + 1) ensures HoldsAttempt(after, more[j].body) {
      if j < n { assert InForce(events, j, n) && events[j] == more[j] && HoldsAttempt(t, events[j].body); }
    }
  }

  lemma AttemptCorrectionsAfter(events: seq<Event>, t: Tables, e: Event)
    requires AttemptsCorrected(events, t) && !e.body.payload.ProgressImported? && Apply(t, e.body).Ok?
    ensures AttemptsCorrected(events + [e], Apply(t, e.body).value)
  {
    var after := Apply(t, e.body).value;
    forall a ensures CorrectionsOf(events + [e], a) == if a in after.attempts then after.attempts[a].corrections else [] {
      CorrectionsSnoc(events, e, a);
      CorrectedAttempt(t, e.body, a);
      assert CorrectionsOf(events, a) == if a in t.attempts then t.attempts[a].corrections else [];
    }
  }

  lemma CorrectedAttempt(t: Tables, b: Candidate, a: Id)
    requires !b.payload.ProgressImported? && Apply(t, b).Ok?
    ensures var after := Apply(t, b).value; var before := if a in t.attempts then t.attempts[a].corrections else [];
      (if a in after.attempts then after.attempts[a].corrections else []) == before + CorrectionIn(b, a)
  {
  }

  lemma NothingInForce(events: seq<Event>)
    requires events == [] || events[|events| - 1].body.payload.ProgressImported?
    ensures TablesOf(events, EMPTY_TABLES)
  {
    assert forall j :: !InForce(events, j, |events|);
    forall a ensures CorrectionsOf(events, a) == [] {}
  }

  // ------------------------------------------------------------------------------------- theorems

  // After every log that replays, the tables are those of the events since the last import.
  lemma {:induction false} TablesAreTheLog(events: seq<Event>, scope: Scope)
    requires Replays(events, scope)
    ensures TablesOf(events, ReplayFrom(EMPTY_REPLAY, events, scope).value.tables)
    decreases |events|
  {
    if events == [] {
      NothingInForce(events);
    } else {
      var n := |events| - 1;
      var prior, e := events[..n], events[n];
      assert events == prior + [e];
      ReplaySnoc(EMPTY_REPLAY, prior, e, scope);
      TablesAreTheLog(prior, scope);
      var t := ReplayFrom(EMPTY_REPLAY, prior, scope).value.tables;
      if e.body.payload.ProgressImported? {
        NothingInForce(events);
      } else {
        EnrollmentsAfter(prior, t, e);
        AttemptsAfter(prior, t, e);
        AttemptCorrectionsAfter(prior, t, e);
        CorrectionsAfter(prior, t, e);
      }
    }
  }

  ghost predicate Faultless(events: seq<Event>, scope: Scope) {
    forall i :: 0 <= i < |events| ==> Fault(events, scope, i) == None
  }

  // The event at place i is the first at fault.
  ghost predicate FirstFault(events: seq<Event>, scope: Scope, i: nat, code: ErrorCode) {
    i < |events| && Fault(events, scope, i) == Some(code) && forall j :: 0 <= j < i ==> Fault(events, scope, j) == None
  }

  lemma FaultlessSnoc(events: seq<Event>, e: Event, scope: Scope)
    ensures Faultless(events + [e], scope) <==> Faultless(events, scope) && Fault(events + [e], scope, |events|) == None
    ensures forall i: nat, code :: i < |events| && FirstFault(events, scope, i, code) ==> FirstFault(events + [e], scope, i, code)
    ensures Faultless(events, scope) && Fault(events + [e], scope, |events|).Some? ==>
      FirstFault(events + [e], scope, |events|, Fault(events + [e], scope, |events|).value)
  {
    forall i: nat | i < |events| ensures Fault(events + [e], scope, i) == Fault(events, scope, i) { FaultSnoc(events, e, scope, i); }
  }

  // A log replays exactly if none of its events is at fault, and otherwise fails as the first one that is.
  lemma {:induction false} ReplaysExactly(events: seq<Event>, scope: Scope)
    ensures Replays(events, scope) <==> Faultless(events, scope)
    ensures ReplayFrom(EMPTY_REPLAY, events, scope).Err? ==>
      exists i: nat :: FirstFault(events, scope, i, ReplayFrom(EMPTY_REPLAY, events, scope).error)
    decreases |events|
  {
    if events != [] {
      var n := |events| - 1;
      var prior, e := events[..n], events[n];
      assert events == prior + [e];
      ReplaySnoc(EMPTY_REPLAY, prior, e, scope);
      ReplaysExactly(prior, scope);
      FaultlessSnoc(prior, e, scope);
      if Replays(prior, scope) {
        TablesAreTheLog(prior, scope);
        LastSequence(EMPTY_REPLAY, prior, scope);
        NextFault(prior, ReplayFrom(EMPTY_REPLAY, prior, scope).value, e, scope);
        if !Replays(events, scope) { assert FirstFault(events, scope, n, ReplayFrom(EMPTY_REPLAY, events, scope).error); }
      }
    }
  }
}
