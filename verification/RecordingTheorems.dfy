/** What recording writes into a record, said about the inputs: the attempts and submissions of a history, the score of
    a submission, and which badges a step awards (src/progress.ts:595-832). */
module RecordingTheorems {
  import opened Wrappers
  import opened Sequences
  import opened Rounding
  import opened Progress
  import opened ProgressRuns

  // ------------------------------------------------------------------------------------- badges

  // The path is completed and is the first completed one with its badge, which was not held before.
  predicate Awards(paths: seq<LearningPath>, completed: seq<Id>, existing: seq<Badge>, k: nat)
    requires k < |paths|
  {
    && PathCompleted(paths[k], completed) && !HoldsBadge(existing, paths[k].badge.id)
    && forall j :: 0 <= j < k && paths[j].badge.id == paths[k].badge.id ==> !PathCompleted(paths[j], completed)
  }

  function BadgeOf(path: LearningPath, earnedAt: Time): Badge {
    Badge(path.badge.id, path.badge.name, path.badge.description, earnedAt, path.moduleIds)
  }

  // The places of the awarding paths, in the order of the catalogue.
  ghost predicate AreTheAwards(at: seq<nat>, paths: seq<LearningPath>, completed: seq<Id>, existing: seq<Badge>) {
    && (forall i :: 0 <= i < |at| ==> at[i] < |paths|)
    && (forall i, j :: 0 <= i < j < |at| ==> at[i] < at[j])
    && (forall k: nat :: k < |paths| ==> (k in at <==> Awards(paths, completed, existing, k)))
  }

  lemma AwardsSnoc(paths: seq<LearningPath>, path: LearningPath, completed: seq<Id>, existing: seq<Badge>, at: seq<nat>)
    requires AreTheAwards(at, paths, completed, existing)
    ensures AreTheAwards(if Awards(paths + [path], completed, existing, |paths|) then at + [|paths|] else at,
                         paths + [path], completed, existing)
  {
    var more := paths + [path];
    forall k: nat | k < |paths| ensures Awards(more, completed, existing, k) <==> Awards(paths, completed, existing, k) {
      assert forall j :: 0 <= j <= k ==> more[j] == paths[j];
    }
  }

  lemma {:induction false} WithBadgesSnoc(paths: seq<LearningPath>, path: LearningPath, completed: seq<Id>, badges: seq<Badge>, earnedAt: Time)
    ensures var before := WithBadges(paths, completed, badges, earnedAt);
      WithBadges(paths + [path], completed, badges, earnedAt) ==
        if PathCompleted(path, completed) && !HoldsBadge(before, path.badge.id) then before + [BadgeOf(path, earnedAt)] else before
    decreases |paths|
  {
    if paths == [] {
      assert paths + [path] == [path];
    } else {
      assert (paths + [path])[0] == paths[0] && (paths + [path])[1..] == paths[1..] + [path];
      var badges' := if PathCompleted(paths[0], completed) && !HoldsBadge(badges, paths[0].badge.id) then badges + [BadgeOf(paths[0], earnedAt)] else badges;
      WithBadgesSnoc(paths[1..], path, completed, badges', earnedAt);
    }
  }

  // The badges held before, and then one for each of the places.
  ghost predicate Awarded(r: seq<Badge>, paths: seq<LearningPath>, existing: seq<Badge>, earnedAt: Time, at: seq<nat>) {
    && |r| == |existing| + |at| && existing <= r
    && forall i :: 0 <= i < |at| ==> at[i] < |paths| && r[|existing| + i] == BadgeOf(paths[at[i]], earnedAt)
  }

  lemma AwardedSnoc(r: seq<Badge>, paths: seq<LearningPath>, path: LearningPath, existing: seq<Badge>, earnedAt: Time, at: seq<nat>)
    requires Awarded(r, paths, existing, earnedAt, at)
    ensures Awarded(r, paths + [path], existing, earnedAt, at)
    ensures Awarded(r + [BadgeOf(path, earnedAt)], paths + [path], existing, earnedAt, at + [|paths|])
  {
  }

  // Exactly the completed paths whose badge is not held get one, each badge once, at the time of the step, in the
  // order of the catalogue.
  lemma {:induction false} NewBadgesExactly(paths: seq<LearningPath>, completed: seq<Id>, existing: seq<Badge>, earnedAt: Time)
    returns (at: seq<nat>)
    ensures AreTheAwards(at, paths, completed, existing)
    ensures Awarded(WithBadges(paths, completed, existing, earnedAt), paths, existing, earnedAt, at)
    decreases |paths|
  {
    if paths == [] {
      at := [];
    } else {
      var n := |paths| - 1;
      var front, path := paths[..n], paths[n];
      assert paths == front + [path];
      var before := NewBadgesExactly(front, completed, existing, earnedAt);
      WithBadgesSnoc(front, path, completed, existing, earnedAt);
      AwardsSnoc(front, path, completed, existing, before);
      HeldExactly(front, completed, existing, earnedAt, before, path);
      AwardedSnoc(WithBadges(front, completed, existing, earnedAt), front, path, existing, earnedAt, before);
      at := if Awards(front + [path], completed, existing, n) then before + [n] else before;
    }
  }

  lemma HeldExactly(paths: seq<LearningPath>, completed: seq<Id>, existing: seq<Badge>, earnedAt: Time, at: seq<nat>, path: LearningPath)
    requires AreTheAwards(at, paths, completed, existing)
    requires Awarded(WithBadges(paths, completed, existing, earnedAt), paths, existing, earnedAt, at)
    ensures PathCompleted(path, completed) ==>
      (Awards(paths + [path], completed, existing, |paths|) <==> !HoldsBadge(WithBadges(paths, completed, existing, earnedAt), path.badge.id))
  {
    var r, more := WithBadges(paths, completed, existing, earnedAt), paths + [path];
    if HoldsBadge(r, path.badge.id) && !HoldsBadge(existing, path.badge.id) {
      var b :| b in r && b.id == path.badge.id;
      var i :| 0 <= i < |r| && r[i] == b;
      assert r[..|existing|] == existing && forall e :: e in r[..|existing|] ==> e.id != path.badge.id;
      assert i >= |existing|;
      var k := at[i - |existing|];
      assert k in at && Awards(paths, completed, existing, k) && more[k] == paths[k];
    }
    if HoldsBadge(existing, path.badge.id) {
      var b :| b in existing && b.id == path.badge.id;
      var i :| 0 <= i < |existing| && existing[i] == b;
      assert r[i] == b;
    }
    if j :| 0 <= j < |paths| && paths[j].badge.id == path.badge.id && PathCompleted(paths[j], completed) {
      if !HoldsBadge(existing, path.badge.id) {
        var k := FirstCompleted(paths, completed, path.badge.id, j);
        assert Awards(paths, completed, existing, k) && k in at;
        var i :| 0 <= i < |at| && at[i] == k;
        assert r[|existing| + i].id == path.badge.id;
      }
      assert more[j] == paths[j];
    }
  }

  lemma {:induction false} FirstCompleted(paths: seq<LearningPath>, completed: seq<Id>, badgeId: Id, j: nat) returns (k: nat)
    requires j < |paths| && paths[j].badge.id == badgeId && PathCompleted(paths[j], completed)
    ensures k < |paths| && paths[k].badge.id == badgeId && PathCompleted(paths[k], completed)
    ensures forall i :: 0 <= i < k && paths[i].badge.id == badgeId ==> !PathCompleted(paths[i], completed)
  {
    if i: nat :| i < j && paths[i].badge.id == badgeId && PathCompleted(paths[i], completed) {
      k := FirstCompleted(paths, completed, badgeId, i);
    } else {
      k := j;
    }
  }

  // ------------------------------------------------------------------------------------- scores

  // What is wrong with the score of a criterion.
  function CriterionFault(spec: CapstoneSpec, i: nat, scores: seq<CriterionScore>, allowed: set<string>): Option<RecordError>
    requires i < |spec.criteria|
  {
    var score := ScoreFor(scores, spec.criteria[i].id);
    if score.None? || !(0 <= score.value.pointsAwarded <= spec.criteria[i].maxPoints) then Some(InvalidScore(spec.criteria[i].id))
    else if spec.requiresCriterionEvidence && !EvidenceMapped(score.value, allowed) then Some(UnmappedEvidence(spec.criteria[i].id))
    else None
  }

  // The points awarded and available for the criteria from place i on.
  function PointsFrom(criteria: seq<Criterion>, i: nat, scores: seq<CriterionScore>): Points
    requires i <= |criteria|
    decreases |criteria| - i
  {
    if i == |criteria| then Points(0, 0)
    else
      var rest, score := PointsFrom(criteria, i + 1, scores), ScoreFor(scores, criteria[i].id);
      Points(rest.awarded + (if score.Some? then score.value.pointsAwarded else 0), rest.available + criteria[i].maxPoints)
  }

  lemma {:induction false} ScoreFromExactly(spec: CapstoneSpec, i: nat, scores: seq<CriterionScore>, allowed: set<string>, total: Points)
    requires i <= |spec.criteria|
    ensures var r := ScoreCriteria(spec, spec.criteria[i..], scores, allowed, total); var rest := PointsFrom(spec.criteria, i, scores);
      && (r.Ok? <==> forall k :: i <= k < |spec.criteria| ==> CriterionFault(spec, k, scores, allowed) == None)
      && (r.Ok? ==> r.value == Points(total.awarded + rest.awarded, total.available + rest.available))
      && (r.Err? ==> exists k: nat :: i <= k < |spec.criteria| && CriterionFault(spec, k, scores, allowed) == Some(r.error)
                                      && forall j :: i <= j < k ==> CriterionFault(spec, j, scores, allowed) == None)
    decreases |spec.criteria| - i
  {
    if i < |spec.criteria| {
      assert spec.criteria[i..][0] == spec.criteria[i] && spec.criteria[i..][1..] == spec.criteria[i + 1..];
      if CriterionFault(spec, i, scores, allowed) == None {
        var score := ScoreFor(scores, spec.criteria[i].id);
        ScoreFromExactly(spec, i + 1, scores, allowed,
          Points(total.awarded + score.value.pointsAwarded, total.available + spec.criteria[i].maxPoints));
      }
    }
  }

  // A rubric is scored exactly if no criterion is at fault, with the sum of the points, and otherwise the first
  // fault is reported.
  lemma ScoreExactly(spec: CapstoneSpec, scores: seq<CriterionScore>, allowed: set<string>)
    ensures var r := ScoreCriteria(spec, spec.criteria, scores, allowed, Points(0, 0));
      && (r.Ok? <==> forall k :: 0 <= k < |spec.criteria| ==> CriterionFault(spec, k, scores, allowed) == None)
      && (r.Ok? ==> r.value == PointsFrom(spec.criteria, 0, scores))
      && (r.Err? ==> exists k: nat :: k < |spec.criteria| && CriterionFault(spec, k, scores, allowed) == Some(r.error)
                                      && forall j :: 0 <= j < k ==> CriterionFault(spec, j, scores, allowed) == None)
  {
    assert spec.criteria[0..] == spec.criteria;
    ScoreFromExactly(spec, 0, scores, allowed, Points(0, 0));
  }

  // The submission that is recorded has the nearest percentage of the points of its rubric as its score, and is
  // passed exactly if that reaches the pass mark.
  lemma SubmissionScoreExactly(p: LearnerProgress, catalog: Catalog, input: CapstoneInput)
    requires Submission(p, catalog, input).Ok?
    ensures CapstoneOf(catalog, input.moduleId).Some?
    ensures var spec, c := CapstoneOf(catalog, input.moduleId).value, Submission(p, catalog, input).value;
      var points := PointsFrom(spec.criteria, 0, input.criterionScores);
      && (c.scorePercent.Some? <==> points.available > 0)
      && (c.scorePercent.Some? ==> NearestPercent(c.scorePercent.value, points.awarded, points.available))
      && (c.passed <==> c.scorePercent.Some? && c.scorePercent.value >= spec.passPercent)
  {
    var spec := CapstoneOf(catalog, input.moduleId).value;
    ScoreExactly(spec, input.criterionScores, AllowedRefs(p.attempts, input.pathId, input.moduleId, input.artifactRefs));
    var points := PointsFrom(spec.criteria, 0, input.criterionScores);
    if points.available > 0 { QuotientIsNearest(points.awarded, points.available); }
  }

  // ------------------------------------------------------------------------------- whole histories

  // The attempts of a history without merges: its checks in modules of the catalogue, in their order, the first of
  // each identifier.
  function ChecksOf(catalog: Catalog, h: History): seq<Attempt>
    requires MergeFree(h)
  {
    match h
    case Start(_) => []
    case Submit(before, _) => ChecksOf(catalog, before)
    case Visit(before, _) => ChecksOf(catalog, before)
    case Assess(before, a) =>
      var checks := ChecksOf(catalog, before);
      if (exists c :: c in checks && c.id == a.attemptId) || FindModule(catalog.modules, a.moduleId).None? || !Placed(catalog, a.pathId, a.moduleId)
      then checks
      else checks + [Attempt(a.attemptId, a.pathId, a.moduleId, catalog.contentVersion, a.scorePercent, a.passed, a.completedAt)]
  }

  // The submissions of a history, the first of each identifier among those that could be accepted when they were made.
  function WorkOf(catalog: Catalog, h: History): seq<Capstone>
    requires MergeFree(h)
  {
    match h
    case Start(_) => []
    case Assess(before, _) => WorkOf(catalog, before)
    case Visit(before, _) => WorkOf(catalog, before)
    case Submit(before, c) =>
      var work := WorkOf(catalog, before);
      if (exists w :: w in work && w.id == c.submissionId) || Submission(Outcome(catalog, before), catalog, c).Err? then work
      else work + [Submission(Outcome(catalog, before), catalog, c).value]
  }

  // The last visit to a module of the catalogue.
  function LastVisit(catalog: Catalog, h: History): Option<RecentModule>
    requires MergeFree(h)
  {
    match h
    case Start(_) => None
    case Assess(before, _) => LastVisit(catalog, before)
    case Submit(before, _) => LastVisit(catalog, before)
    case Visit(before, v) =>
      if Placed(catalog, v.pathId, v.moduleId) then Some(RecentModule(v.pathId, v.moduleId, v.visitedAt)) else LastVisit(catalog, before)
  }

  function NameOf(h: History): string
    requires MergeFree(h)
  {
    match h
    case Start(name) => name
    case Assess(before, _) => NameOf(before)
    case Submit(before, _) => NameOf(before)
    case Visit(before, _) => NameOf(before)
  }

  // The paths of the steps that were taken up, in the order of their first.
  function StartedBy(catalog: Catalog, h: History): seq<Id>
    requires MergeFree(h)
  {
    match h
    case Start(_) => []
    case Assess(before, a) => Begun(StartedBy(catalog, before), a.pathId, TakenUp(catalog, h))
    case Submit(before, c) => Begun(StartedBy(catalog, before), c.pathId, TakenUp(catalog, h))
    case Visit(before, v) => Begun(StartedBy(catalog, before), v.pathId, TakenUp(catalog, h))
  }

  function Begun(started: seq<Id>, pathId: Id, taken: bool): seq<Id> {
    if taken && pathId !in started then started + [pathId] else started
  }

  // A record that was made without merges holds just the checks, the submissions, the started paths and the last
  // visit of its history.
  lemma {:induction false} TheRecordIsItsHistory(catalog: Catalog, h: History)
    requires MergeFree(h)
    ensures var p := Outcome(catalog, h);
      && p.attempts == ChecksOf(catalog, h) && Capstones(p) == WorkOf(catalog, h)
      && p.startedPathIds == StartedBy(catalog, h) && p.recentModule == LastVisit(catalog, h) && p.displayName == NameOf(h)
  {
    match h
    case Start(_) =>
    case Assess(before, _) => TheRecordIsItsHistory(catalog, before);
    case Submit(before, _) => TheRecordIsItsHistory(catalog, before);
    case Visit(before, _) => TheRecordIsItsHistory(catalog, before);
  }

  // When an input was recorded.
  function TimeOf(h: History): Time
    requires h.Assess? || h.Submit? || h.Visit?
  {
    if h.Assess? then h.assessment.completedAt else if h.Submit? then h.capstone.submittedAt else h.visit.visitedAt
  }

  // The step is taken up: its identifier is new and it is accepted.
  predicate TakenUp(catalog: Catalog, h: History)
    requires h.Assess? || h.Submit? || h.Visit?
  {
    var p := Outcome(catalog, h.before);
    if h.Assess? then |Outcome(catalog, h).attempts| > |p.attempts|
    else if h.Submit? then |Capstones(Outcome(catalog, h))| > |Capstones(p)|
    else Placed(catalog, h.visit.pathId, h.visit.moduleId)
  }

  // A step that is taken up dates the record, and a check or submission awards exactly the badges of the paths that
  // are completed after it; another step changes nothing of either.
  lemma StepsAwardExactly(catalog: Catalog, h: History) returns (at: seq<nat>)
    requires h.Assess? || h.Submit? || h.Visit?
    ensures var p, q := Outcome(catalog, h.before), Outcome(catalog, h);
      && q.updatedAt == (if TakenUp(catalog, h) then TimeOf(h) else p.updatedAt)
      && (if TakenUp(catalog, h) && !h.Visit?
          then AreTheAwards(at, catalog.paths, q.completedModuleIds, p.badges) && Awarded(q.badges, catalog.paths, p.badges, TimeOf(h), at)
          else q.badges == p.badges)
  {
    var p, q := Outcome(catalog, h.before), Outcome(catalog, h);
    if h.Visit? { at := []; } else { at := NewBadgesExactly(catalog.paths, q.completedModuleIds, p.badges, TimeOf(h)); }
  }
}
