/** Export then restore: the validator, which recomputes scores, passes and evidence on its own, accepts
    whatever the recording functions produce from well-formed inputs. */
module PortableTheorems {
  import opened Wrappers
  import opened Sequences
  import opened Rounding
  import opened Progress
  import opened ProgressMerge
  import opened MergeTheorems
  import opened ProgressRuns
  import opened PortableRecord

  // ------------------------------------------------------------------------------- well-formedness

  predicate WellFormedSpec(spec: CapstoneSpec) {
    && spec.requiredArtifacts != []
    && (forall i, j :: 0 <= i < j < |spec.criteria| ==> spec.criteria[i].id != spec.criteria[j].id)
    && (forall c :: c in spec.criteria ==> !Blank(c.id))
    && TotalAvailable(spec.criteria) > 0
  }

  predicate WellFormedPath(path: LearningPath) {
    && !Blank(path.id) && !Blank(path.title)
    && path.moduleIds != [] && UniqueNames(path.moduleIds)
    && !Blank(path.badge.id) && !Blank(path.badge.name) && !Blank(path.badge.description)
  }

  // Each path has one identifier, and each module is in one path.
  predicate WellFormedCatalog(catalog: Catalog) {
    && !Blank(catalog.contentVersion)
    && (forall p :: p in catalog.paths ==> WellFormedPath(p))
    && (forall i, j :: 0 <= i < j < |catalog.paths| ==>
          catalog.paths[i].id != catalog.paths[j].id
          && forall m :: m in catalog.paths[i].moduleIds ==> m !in catalog.paths[j].moduleIds)
    && (forall m :: m in catalog.modules ==> m.capstone.Some? ==> WellFormedSpec(m.capstone.value))
  }

  predicate WellFormedAssessment(input: AssessmentInput) {
    !Blank(input.attemptId) && InPercentRange(input.scorePercent)
  }

  predicate WellFormedSubmission(input: CapstoneInput) {
    && !Blank(input.submissionId)
    && Distinct(input.artifactRefs)
    && forall s :: s in input.criterionScores && s.evidenceRefs.Some? ==> UniqueNames(s.evidenceRefs.value)
  }

  // ----------------------------------------------------------------------- what can be restored

  predicate StartedFit(catalog: Catalog, ids: seq<Id>) {
    UniqueNames(ids) && forall id :: id in ids ==> KnownPath(catalog, id)
  }

  predicate CompletedFit(catalog: Catalog, ids: seq<Id>) {
    UniqueNames(ids) && forall m :: m in ids ==> PathOf(catalog.paths, m).Some?
  }

  predicate AttemptsFit(catalog: Catalog, attempts: seq<Attempt>) {
    ValidAttempts(attempts) && forall a :: a in attempts ==> AttemptFits(catalog, a)
  }

  predicate CapstonesFit(catalog: Catalog, attempts: seq<Attempt>, capstones: seq<Capstone>) {
    ValidCapstones(capstones) && forall c :: c in capstones ==> CapstoneFits(catalog, attempts, c)
  }

  predicate RecentFits(catalog: Catalog, recent: Option<RecentModule>) {
    recent.Some? ==>
      && !Blank(recent.value.pathId) && !Blank(recent.value.moduleId)
      && InItsPath(catalog, recent.value.pathId, recent.value.moduleId)
  }

  predicate Restorable(catalog: Catalog, p: LearnerProgress) {
    && |p.displayName| <= 80
    && StartedFit(catalog, p.startedPathIds) && CompletedFit(catalog, p.completedModuleIds)
    && AttemptsFit(catalog, p.attempts)
    && p.capstoneSubmissions.Some? && CapstonesFit(catalog, p.attempts, Capstones(p))
    && ValidBadges(p.badges) && RecentFits(catalog, p.recentModule)
  }

  lemma PlacedModulesHaveTheirPath(catalog: Catalog, pathId: Id, moduleId: Id)
    requires WellFormedCatalog(catalog) && Placed(catalog, pathId, moduleId)
    ensures InItsPath(catalog, pathId, moduleId) && KnownPath(catalog, pathId)
    ensures !Blank(pathId) && !Blank(moduleId)
  {
    var path := FindPath(catalog.paths, pathId).value;
    assert WellFormedPath(path);
    PathOfUnique(catalog.paths, path, moduleId);
  }

  lemma {:induction false} PathOfUnique(paths: seq<LearningPath>, path: LearningPath, moduleId: Id)
    requires path in paths && moduleId in path.moduleIds
    requires forall i, j :: 0 <= i < j < |paths| ==> forall m :: m in paths[i].moduleIds ==> m !in paths[j].moduleIds
    ensures PathOf(paths, moduleId) == Some(path.id)
  {
    var last := |paths| - 1;
    var k :| 0 <= k < |paths| && paths[k] == path;
    if k < last {
      assert moduleId in paths[k].moduleIds && moduleId !in paths[last].moduleIds;
      assert paths[..last][k] == path;
      PathOfUnique(paths[..last], path, moduleId);
    }
  }

  // ----------------------------------------------------------------------------- recomputed scores

  predicate UniqueRubric(criteria: seq<Criterion>) {
    forall i, j :: 0 <= i < j < |criteria| ==> criteria[i].id != criteria[j].id
  }

  // Every criterion has a score within its range.
  predicate Scored(criteria: seq<Criterion>, scores: seq<CriterionScore>) {
    forall i :: 0 <= i < |criteria| ==>
      var s := ScoreFor(scores, criteria[i].id); s.Some? && 0 <= s.value.pointsAwarded <= criteria[i].maxPoints
  }

  // The scores in the order of the criteria.
  function Aligned(criteria: seq<Criterion>, scores: seq<CriterionScore>): (r: seq<CriterionScore>)
    requires Scored(criteria, scores)
    ensures |r| == |criteria|
    ensures forall i :: 0 <= i < |r| ==>
      r[i] in scores && r[i].criterionId == criteria[i].id && 0 <= r[i].pointsAwarded <= criteria[i].maxPoints
  {
    seq(|criteria|, i requires 0 <= i < |criteria| => ScoreFor(scores, criteria[i].id).value)
  }

  lemma ScoredCons(criteria: seq<Criterion>, scores: seq<CriterionScore>)
    requires criteria != [] && Scored(criteria[1..], scores)
    requires var s := ScoreFor(scores, criteria[0].id); s.Some? && 0 <= s.value.pointsAwarded <= criteria[0].maxPoints
    ensures Scored(criteria, scores)
    ensures Aligned(criteria, scores) == [ScoreFor(scores, criteria[0].id).value] + Aligned(criteria[1..], scores)
  {
    forall i | 0 <= i < |criteria|
      ensures var s := ScoreFor(scores, criteria[i].id); s.Some? && 0 <= s.value.pointsAwarded <= criteria[i].maxPoints
    {
      assert i > 0 ==> criteria[i] == criteria[1..][i - 1];
    }
  }

  // The totals after the first criterion.
  function Next(total: Points, criterion: Criterion, score: CriterionScore): Points {
    Points(total.awarded + score.pointsAwarded, total.available + criterion.maxPoints)
  }

  lemma {:induction false} PassedCriteriaAreScored(
    spec: CapstoneSpec, criteria: seq<Criterion>, scores: seq<CriterionScore>, allowed: set<string>, total: Points)
    requires ScoreCriteria(spec, criteria, scores, allowed, total).Ok?
    ensures Scored(criteria, scores)
    decreases |criteria|
  {
    if criteria != [] {
      PassedCriteriaAreScored(spec, criteria[1..], scores, allowed, Next(total, criteria[0], ScoreFor(scores, criteria[0].id).value));
      ScoredCons(criteria, scores);
    }
  }

  lemma {:induction false} PassedCriteriaAddUp(
    spec: CapstoneSpec, criteria: seq<Criterion>, scores: seq<CriterionScore>, allowed: set<string>, total: Points)
    requires ScoreCriteria(spec, criteria, scores, allowed, total).Ok? && Scored(criteria, scores)
    ensures ScoreCriteria(spec, criteria, scores, allowed, total).value
         == Points(total.awarded + TotalAwarded(Aligned(criteria, scores)), total.available + TotalAvailable(criteria))
    decreases |criteria|
  {
    if criteria != [] {
      ScoredTail(criteria, scores);
      ScoredCons(criteria, scores);
      PassedCriteriaAddUp(spec, criteria[1..], scores, allowed, Next(total, criteria[0], ScoreFor(scores, criteria[0].id).value));
    }
  }

  lemma ScoredTail(criteria: seq<Criterion>, scores: seq<CriterionScore>)
    requires criteria != [] && Scored(criteria, scores)
    ensures Scored(criteria[1..], scores)
  {
    assert forall i :: 0 <= i < |criteria| - 1 ==> criteria[1..][i] == criteria[i + 1];
  }

  lemma {:induction false} PassedCriteriaAreMapped(
    spec: CapstoneSpec, criteria: seq<Criterion>, scores: seq<CriterionScore>, allowed: set<string>, total: Points)
    requires ScoreCriteria(spec, criteria, scores, allowed, total).Ok? && Scored(criteria, scores)
    requires spec.requiresCriterionEvidence
    ensures forall s :: s in Aligned(criteria, scores) ==> EvidenceMapped(s, allowed)
    decreases |criteria|
  {
    if criteria != [] {
      ScoredTail(criteria, scores);
      ScoredCons(criteria, scores);
      PassedCriteriaAreMapped(spec, criteria[1..], scores, allowed, Next(total, criteria[0], ScoreFor(scores, criteria[0].id).value));
    }
  }

  lemma {:induction false} AwardedOfConcat(s: seq<CriterionScore>, t: seq<CriterionScore>)
    ensures TotalAwarded(s + t) == TotalAwarded(s) + TotalAwarded(t)
  {
    if s == [] {
      assert s + t == t;
    } else {
      assert (s + t)[1..] == s[1..] + t;
      AwardedOfConcat(s[1..], t);
    }
  }

  lemma {:induction false} AwardedOfPermutation(s: seq<CriterionScore>, t: seq<CriterionScore>)
    requires Permutation(s, t)
    ensures TotalAwarded(s) == TotalAwarded(t)
    decreases |s|
  {
    assert |s| == |multiset(s)| == |multiset(t)| == |t|;
    if s != [] {
      assert s[0] in multiset(t);
      var k := Extract(t, s[0]);
      var head, tail := t[..k], t[k + 1..];
      assert s == [s[0]] + s[1..];
      assert multiset(s[1..]) == multiset(s) - multiset{s[0]};
      AwardedOfPermutation(s[1..], head + tail);
      AwardedOfConcat(head, tail);
      AwardedOfConcat(head + [s[0]], tail);
      AwardedOfConcat(head, [s[0]]);
    }
  }

  // With as many scores as criteria, every score is the score of one criterion.
  lemma AlignmentIsAPermutation(criteria: seq<Criterion>, scores: seq<CriterionScore>)
    requires Scored(criteria, scores) && UniqueRubric(criteria) && |criteria| == |scores|
    ensures Permutation(Aligned(criteria, scores), scores)
    ensures forall s :: s in scores ==> s in Aligned(criteria, scores)
  {
    var aligned := Aligned(criteria, scores);
    forall i, j | 0 <= i < j < |aligned| ensures aligned[i] != aligned[j] {
      assert criteria[i].id != criteria[j].id;
    }
    DistinctSublistIsPermutation(aligned, scores);
    forall s | s in scores ensures s in aligned { assert s in multiset(scores); }
  }

  lemma {:induction false} AwardedAtMostAvailable(criteria: seq<Criterion>, aligned: seq<CriterionScore>)
    requires |aligned| == |criteria|
    requires forall i :: 0 <= i < |criteria| ==> 0 <= aligned[i].pointsAwarded <= criteria[i].maxPoints
    ensures 0 <= TotalAwarded(aligned) <= TotalAvailable(criteria)
    decreases |criteria|
  {
    if criteria != [] { AwardedAtMostAvailable(criteria[1..], aligned[1..]); }
  }

  lemma QuotientAtMost(n: int, d: int, k: nat)
    requires d > 0 && 0 <= n < (k + 1) * d
    ensures 0 <= n / d <= k
  {
    var q := n / d;
    assert n == q * d + n % d;
    assert q > k ==> q * d >= (k + 1) * d;
  }

  lemma PercentInRange(points: Points)
    requires 0 <= points.awarded <= points.available && points.available > 0
    ensures Percent(points).Some? && InPercentRange(Percent(points).value)
  {
    QuotientAtMost(200 * points.awarded + points.available, 2 * points.available, 100);
  }

  lemma IdsOfConcat(scores: seq<CriterionScore>)
    requires scores != []
    ensures CriterionIds(scores) == CriterionIds(scores[1..]) + {scores[0].criterionId}
    ensures scores[0].criterionId in CriterionIds(scores[1..]) ==> CriterionIds(scores) == CriterionIds(scores[1..])
  {
    assert scores == [scores[0]] + scores[1..];
  }

  lemma {:induction false} DistinctIdsMeanUniqueCriteria(scores: seq<CriterionScore>)
    ensures |CriterionIds(scores)| <= |scores|
    ensures |CriterionIds(scores)| == |scores| ==> UniqueCriteria(scores)
  {
    if scores != [] {
      var first, rest := scores[0], scores[1..];
      DistinctIdsMeanUniqueCriteria(rest);
      IdsOfConcat(scores);
      if first.criterionId !in CriterionIds(rest) {
        forall j | 1 <= j < |scores| ensures scores[j].criterionId != first.criterionId {
          assert scores[j] == rest[j - 1] && scores[j] in rest;
        }
        if UniqueCriteria(rest) { UniqueCons(scores); }
      }
    }
  }

  lemma UniqueCons(scores: seq<CriterionScore>)
    requires scores != [] && UniqueCriteria(scores[1..])
    requires forall j :: 1 <= j < |scores| ==> scores[j].criterionId != scores[0].criterionId
    ensures UniqueCriteria(scores)
  {
    forall i, j | 0 <= i < j < |scores| ensures scores[i].criterionId != scores[j].criterionId {
      if i > 0 { assert scores[1..][i - 1].criterionId != scores[1..][j - 1].criterionId; }
    }
  }

  lemma {:induction false} RubricSize(criteria: seq<Criterion>)
    requires UniqueRubric(criteria)
    ensures |RubricIds(criteria)| == |criteria|
  {
    if criteria != [] {
      RubricSize(criteria[1..]);
      assert criteria == [criteria[0]] + criteria[1..];
      assert RubricIds(criteria) == RubricIds(criteria[1..]) + {criteria[0].id};
      assert criteria[0].id !in RubricIds(criteria[1..]);
    }
  }

  lemma CriterionForMember(criteria: seq<Criterion>, c: Criterion)
    requires UniqueRubric(criteria) && c in criteria
    ensures CriterionFor(criteria, c.id) == Some(c)
  {
    var r := CriterionFor(criteria, c.id).value;
    var i :| 0 <= i < |criteria| && criteria[i] == c;
    var j :| 0 <= j < |criteria| && criteria[j] == r;
  }

  lemma ScoresFitRubric(spec: CapstoneSpec, scores: seq<CriterionScore>)
    requires WellFormedSpec(spec) && Scored(spec.criteria, scores) && |spec.criteria| == |scores|
    requires forall s :: s in scores ==> s in Aligned(spec.criteria, scores)
    ensures FitsRubric(spec.criteria, scores)
    ensures forall s :: s in scores ==> !Blank(s.criterionId) && s.pointsAwarded >= 0
  {
    var aligned := Aligned(spec.criteria, scores);
    RubricSize(spec.criteria);
    forall s | s in scores
      ensures !Blank(s.criterionId)
      ensures var c := CriterionFor(spec.criteria, s.criterionId); c.Some? && 0 <= s.pointsAwarded <= c.value.maxPoints
    {
      var i :| 0 <= i < |aligned| && aligned[i] == s;
      CriterionForMember(spec.criteria, spec.criteria[i]);
    }
  }

  // Scores that pass the recorder's check add up to what the validator adds up.
  lemma AcceptedTotals(spec: CapstoneSpec, scores: seq<CriterionScore>, allowed: set<string>)
    requires WellFormedSpec(spec) && |spec.criteria| == |scores|
    requires ScoreCriteria(spec, spec.criteria, scores, allowed, Points(0, 0)).Ok?
    ensures Scored(spec.criteria, scores) && forall s :: s in scores ==> s in Aligned(spec.criteria, scores)
    ensures ScoreCriteria(spec, spec.criteria, scores, allowed, Points(0, 0)).value
         == Points(TotalAwarded(scores), TotalAvailable(spec.criteria))
    ensures 0 <= TotalAwarded(scores) <= TotalAvailable(spec.criteria)
  {
    PassedCriteriaAreScored(spec, spec.criteria, scores, allowed, Points(0, 0));
    PassedCriteriaAddUp(spec, spec.criteria, scores, allowed, Points(0, 0));
    AlignmentIsAPermutation(spec.criteria, scores);
    AwardedOfPermutation(Aligned(spec.criteria, scores), scores);
    AwardedAtMostAvailable(spec.criteria, Aligned(spec.criteria, scores));
  }

  // And they fit the rubric as the validator looks at it.
  lemma AcceptedScores(spec: CapstoneSpec, scores: seq<CriterionScore>, allowed: set<string>)
    requires WellFormedSpec(spec)
    requires |CriterionIds(scores)| == |spec.criteria| == |scores|
    requires ScoreCriteria(spec, spec.criteria, scores, allowed, Points(0, 0)).Ok?
    ensures ScoreCriteria(spec, spec.criteria, scores, allowed, Points(0, 0)).value
         == Points(TotalAwarded(scores), TotalAvailable(spec.criteria))
    ensures var score := Percent(Points(TotalAwarded(scores), TotalAvailable(spec.criteria)));
      score.Some? && InPercentRange(score.value)
    ensures UniqueCriteria(scores) && scores != [] && FitsRubric(spec.criteria, scores)
    ensures forall s :: s in scores ==> !Blank(s.criterionId) && s.pointsAwarded >= 0
    ensures spec.requiresCriterionEvidence ==> forall s :: s in scores ==> EvidenceMapped(s, allowed)
  {
    assert spec.criteria != [];
    DistinctIdsMeanUniqueCriteria(scores);
    AcceptedTotals(spec, scores, allowed);
    PercentInRange(Points(TotalAwarded(scores), TotalAvailable(spec.criteria)));
    ScoresFitRubric(spec, scores);
    if spec.requiresCriterionEvidence {
      PassedCriteriaAreMapped(spec, spec.criteria, scores, allowed, Points(0, 0));
    }
  }

  // The submission the recorder accepts is the one the validator recomputes.
  lemma RecordedSubmissionAgrees(catalog: Catalog, p: LearnerProgress, input: CapstoneInput)
    requires WellFormedCatalog(catalog) && Submission(p, catalog, input).Ok?
    ensures var c := Submission(p, catalog, input).value;
      CapstoneFits(catalog, p.attempts, c) && (ValidCapstone(c) <==> WellFormedSubmission(input))
  {
    var c := Submission(p, catalog, input).value;
    var spec := CapstoneOf(catalog, input.moduleId).value;
    SpecIsWellFormed(catalog, input.moduleId);
    PlacedModulesHaveTheirPath(catalog, input.pathId, input.moduleId);
    AcceptedScores(spec, input.criterionScores, AllowedRefs(p.attempts, input.pathId, input.moduleId, input.artifactRefs));
    SubmissionValidExactly(spec, input, c);
    assert AgreesWithSpec(spec, p.attempts, c);
  }

  lemma SpecIsWellFormed(catalog: Catalog, moduleId: Id)
    requires WellFormedCatalog(catalog) && CapstoneOf(catalog, moduleId).Some?
    ensures WellFormedSpec(CapstoneOf(catalog, moduleId).value)
  {
  }

  lemma SubmissionValidExactly(spec: CapstoneSpec, input: CapstoneInput, c: Capstone)
    requires c.id == input.submissionId && c.artifactRefs == input.artifactRefs
    requires c.criterionScores == input.criterionScores && c.reflection == input.reflection
    requires !Blank(c.pathId) && !Blank(c.moduleId) && !Blank(c.contentVersion)
    requires c.scorePercent.Some? && InPercentRange(c.scorePercent.value)
    requires spec.requiredArtifacts != [] && !CapstoneTextsMissing(spec, input)
    requires UniqueCriteria(c.criterionScores) && c.criterionScores != []
    requires forall s :: s in c.criterionScores ==> !Blank(s.criterionId) && s.pointsAwarded >= 0
    ensures ValidCapstone(c) <==> WellFormedSubmission(input)
  {
    assert UniqueNames(c.artifactRefs) <==> Distinct(input.artifactRefs);
    assert (forall s :: s in c.criterionScores ==> ValidCriterionScore(s)) <==>
      (forall s :: s in input.criterionScores && s.evidenceRefs.Some? ==> UniqueNames(s.evidenceRefs.value));
  }

  // --------------------------------------------------------------------------- keeping restorable

  // More attempts only widen the evidence a capstone may name.
  lemma CapstoneStillFits(catalog: Catalog, attempts: seq<Attempt>, more: seq<Attempt>, c: Capstone)
    requires CapstoneFits(catalog, attempts, c) && forall a :: a in attempts ==> a in more
    ensures CapstoneFits(catalog, more, c)
  {
    var allowed, wider := AllowedRefs(attempts, c.pathId, c.moduleId, c.artifactRefs), AllowedRefs(more, c.pathId, c.moduleId, c.artifactRefs);
    forall r | r in allowed ensures r in wider {
      if r !in c.artifactRefs {
        var a :| a in attempts && a.pathId == c.pathId && a.moduleId == c.moduleId && r == "assessment:" + a.id;
        assert a in more;
      }
    }
    assert forall s :: EvidenceMapped(s, allowed) ==> EvidenceMapped(s, wider);
  }

  lemma AddedOnceKeepsNames(names: seq<string>, name: string)
    requires UniqueNames(names) && !Blank(name)
    ensures UniqueNames(AddedOnce(names, name))
  {
  }

  lemma {:induction false} NewBadgesAreValid(paths: seq<LearningPath>, completed: seq<Id>, badges: seq<Badge>, at: Time)
    requires ValidBadges(badges) && forall p :: p in paths ==> WellFormedPath(p)
    ensures ValidBadges(WithBadges(paths, completed, badges, at))
    decreases |paths|
  {
    if paths != [] {
      var b := paths[0].badge;
      assert WellFormedPath(paths[0]);
      var next := if PathCompleted(paths[0], completed) && !HoldsBadge(badges, b.id)
                  then badges + [Badge(b.id, b.name, b.description, at, paths[0].moduleIds)] else badges;
      assert ValidBadges(next);
      NewBadgesAreValid(paths[1..], completed, next, at);
    }
  }

  lemma StartedStayFit(catalog: Catalog, ids: seq<Id>, pathId: Id)
    requires StartedFit(catalog, ids) && KnownPath(catalog, pathId) && !Blank(pathId)
    ensures StartedFit(catalog, AddedOnce(ids, pathId))
  {
    AddedOnceKeepsNames(ids, pathId);
  }

  lemma CompletedStayFit(catalog: Catalog, ids: seq<Id>, moduleId: Id)
    requires CompletedFit(catalog, ids) && PathOf(catalog.paths, moduleId).Some? && !Blank(moduleId)
    ensures CompletedFit(catalog, AddedOnce(ids, moduleId))
  {
    AddedOnceKeepsNames(ids, moduleId);
  }

  // What recording changes besides the attempts and submissions stays in order.
  lemma RestorableExactly(catalog: Catalog, p: LearnerProgress, q: LearnerProgress, pathId: Id, moduleId: Id, at: Time)
    requires WellFormedCatalog(catalog) && Restorable(catalog, p) && Placed(catalog, pathId, moduleId)
    requires q.displayName == p.displayName && q.recentModule == p.recentModule
    requires q.startedPathIds == AddedOnce(p.startedPathIds, pathId)
    requires q.completedModuleIds == p.completedModuleIds || q.completedModuleIds == AddedOnce(p.completedModuleIds, moduleId)
    requires q.badges == WithBadges(catalog.paths, q.completedModuleIds, p.badges, at)
    requires q.capstoneSubmissions.Some?
    ensures Restorable(catalog, q) <==> AttemptsFit(catalog, q.attempts) && CapstonesFit(catalog, q.attempts, Capstones(q))
  {
    PlacedModulesHaveTheirPath(catalog, pathId, moduleId);
    StartedStayFit(catalog, p.startedPathIds, pathId);
    CompletedStayFit(catalog, p.completedModuleIds, moduleId);
    NewBadgesAreValid(catalog.paths, q.completedModuleIds, p.badges, at);
  }

  lemma OneMoreAttempt(catalog: Catalog, attempts: seq<Attempt>, a: Attempt, capstones: seq<Capstone>)
    requires AttemptsFit(catalog, attempts) && CapstonesFit(catalog, attempts, capstones)
    requires AttemptFits(catalog, a) && forall b :: b in attempts ==> b.id != a.id
    ensures AttemptsFit(catalog, attempts + [a]) <==> ValidAttempt(a)
    ensures CapstonesFit(catalog, attempts + [a], capstones)
  {
    assert a in attempts + [a];
    forall c | c in capstones ensures CapstoneFits(catalog, attempts + [a], c) {
      CapstoneStillFits(catalog, attempts, attempts + [a], c);
    }
  }

  lemma OneMoreCapstone(catalog: Catalog, attempts: seq<Attempt>, capstones: seq<Capstone>, c: Capstone)
    requires CapstonesFit(catalog, attempts, capstones) && CapstoneFits(catalog, attempts, c)
    requires forall b :: b in capstones ==> b.id != c.id
    ensures CapstonesFit(catalog, attempts, capstones + [c]) <==> ValidCapstone(c)
  {
    assert c in capstones + [c];
  }

  // A newly recorded attempt keeps the record restorable exactly if the input is well formed.
  lemma AssessmentRestorableExactly(catalog: Catalog, p: LearnerProgress, input: AssessmentInput)
    requires WellFormedCatalog(catalog) && Restorable(catalog, p)
    requires RecordAssessmentAttempt(p, catalog, input).Ok?
    requires forall a :: a in p.attempts ==> a.id != input.attemptId
    ensures Restorable(catalog, RecordAssessmentAttempt(p, catalog, input).value) <==> WellFormedAssessment(input)
  {
    var q := RecordAssessmentAttempt(p, catalog, input).value;
    var a := Attempt(input.attemptId, input.pathId, input.moduleId, catalog.contentVersion,
                     input.scorePercent, input.passed, input.completedAt);
    PlacedModulesHaveTheirPath(catalog, input.pathId, input.moduleId);
    OneMoreAttempt(catalog, p.attempts, a, Capstones(p));
    RestorableExactly(catalog, p, q, input.pathId, input.moduleId, input.completedAt);
  }

  lemma RecordedSubmissionShape(catalog: Catalog, p: LearnerProgress, input: CapstoneInput)
    requires RecordCapstoneSubmission(p, catalog, input).Ok?
    requires forall c :: c in Capstones(p) ==> c.id != input.submissionId
    ensures Submission(p, catalog, input).Ok? && Submission(p, catalog, input).value.id == input.submissionId
    ensures Placed(catalog, input.pathId, input.moduleId)
    ensures var q := RecordCapstoneSubmission(p, catalog, input).value;
      && q.displayName == p.displayName && q.recentModule == p.recentModule && q.attempts == p.attempts
      && q.startedPathIds == AddedOnce(p.startedPathIds, input.pathId)
      && (q.completedModuleIds == p.completedModuleIds || q.completedModuleIds == AddedOnce(p.completedModuleIds, input.moduleId))
      && q.badges == WithBadges(catalog.paths, q.completedModuleIds, p.badges, input.submittedAt)
      && q.capstoneSubmissions == Some(Capstones(p) + [Submission(p, catalog, input).value])
  {
  }

  // The same for a newly recorded capstone submission.
  lemma SubmissionRestorableExactly(catalog: Catalog, p: LearnerProgress, input: CapstoneInput)
    requires WellFormedCatalog(catalog) && Restorable(catalog, p)
    requires RecordCapstoneSubmission(p, catalog, input).Ok?
    requires forall c :: c in Capstones(p) ==> c.id != input.submissionId
    ensures Restorable(catalog, RecordCapstoneSubmission(p, catalog, input).value) <==> WellFormedSubmission(input)
  {
    var q := RecordCapstoneSubmission(p, catalog, input).value;
    RecordedSubmissionShape(catalog, p, input);
    RecordedSubmissionAgrees(catalog, p, input);
    OneMoreCapstone(catalog, p.attempts, Capstones(p), Submission(p, catalog, input).value);
    RestorableExactly(catalog, p, q, input.pathId, input.moduleId, input.submittedAt);
  }

  lemma VisitKeepsRestorable(catalog: Catalog, p: LearnerProgress, input: VisitInput)
    requires WellFormedCatalog(catalog) && Restorable(catalog, p)
    requires RecordModuleVisit(p, catalog, input).Ok?
    ensures Restorable(catalog, RecordModuleVisit(p, catalog, input).value)
  {
    PlacedModulesHaveTheirPath(catalog, input.pathId, input.moduleId);
    StartedStayFit(catalog, p.startedPathIds, input.pathId);
  }

  // A run without merges whose inputs are well formed.
  predicate WellFormedRun(h: History) {
    match h
    case Start(name) => |name| <= 80
    case Assess(before, input) => WellFormedRun(before) && WellFormedAssessment(input)
    case Submit(before, input) => WellFormedRun(before) && WellFormedSubmission(input)
    case Visit(before, _) => WellFormedRun(before)
    case Merge(_, _, _, _) => false
  }

  lemma {:induction false} RunsAreRestorable(catalog: Catalog, h: History)
    requires WellFormedCatalog(catalog) && WellFormedRun(h)
    ensures Restorable(catalog, Outcome(catalog, h))
  {
    match h
    case Start(name) =>
    case Assess(before, input) =>
      RunsAreRestorable(catalog, before);
      var p := Outcome(catalog, before);
      if Outcome(catalog, h) != p { AssessmentRestorableExactly(catalog, p, input); }
    case Submit(before, input) =>
      RunsAreRestorable(catalog, before);
      var p := Outcome(catalog, before);
      if Outcome(catalog, h) != p { SubmissionRestorableExactly(catalog, p, input); }
    case Visit(before, input) =>
      RunsAreRestorable(catalog, before);
      var p := Outcome(catalog, before);
      if Outcome(catalog, h) != p { VisitKeepsRestorable(catalog, p, input); }
  }

  // --------------------------------------------------------------------------------- the round trip

  lemma TranscriptIsValid(catalog: Catalog, p: LearnerProgress)
    requires WellFormedCatalog(catalog) && ValidAttempts(p.attempts)
    ensures forall e :: e in BuildTranscript(catalog, p) ==> ValidEntry(e)
  {
    forall path | path in catalog.paths ensures ValidEntry(EntryFor(path, p)) {
      assert WellFormedPath(path);
      PercentInRange(Points(Count(path.moduleIds, p.completedModuleIds), |path.moduleIds|));
    }
  }

  // A record is accepted back exactly if it is restorable, and then it comes back as it was.
  lemma ExportIsAcceptedExactly(catalog: Catalog, p: LearnerProgress, at: Time)
    requires WellFormedCatalog(catalog) && p.capstoneSubmissions.Some?
    ensures var record := Build(catalog, p, at);
      ValidRecord(record) && FitsCatalog(catalog, record.learner) <==> Restorable(catalog, p)
  {
    if ValidLearner(p) { TranscriptIsValid(catalog, p); }
  }

  // Restoring the export of anything recorded from well-formed inputs gives back the same record.
  method ExportThenRestore(catalog: Catalog, h: History, at: Time) returns (restored: Result<LearnerProgress, seq<Fault>>)
    requires WellFormedCatalog(catalog) && WellFormedRun(h)
    ensures restored == Ok(Outcome(catalog, h))
  {
    var p := Outcome(catalog, h);
    RunsAreRestorable(catalog, h);
    ExportIsAcceptedExactly(catalog, p, at);
    restored := Restore(Build(catalog, p, at), catalog);
  }

  // -------------------------------------------------------------------------------- the transcript

  // The places of a path's module list whose modules are completed.
  ghost function CompletedPlaces(path: LearningPath, p: LearnerProgress): set<nat> {
    set i: nat | i < |path.moduleIds| && path.moduleIds[i] in p.completedModuleIds
  }

  lemma {:induction false} CountIsOfPlaces(moduleIds: seq<Id>, completed: seq<Id>)
    ensures Count(moduleIds, completed) == |set i: nat | i < |moduleIds| && moduleIds[i] in completed|
    decreases |moduleIds|
  {
    var now := set i: nat | i < |moduleIds| && moduleIds[i] in completed;
    if moduleIds == [] {
      assert now == {};
    } else {
      var n := |moduleIds| - 1;
      var front, last := moduleIds[..n], moduleIds[n];
      CountIsOfPlaces(front, completed);
      var before := set i: nat | i < |front| && front[i] in completed;
      assert now == before + if last in completed then {n} else {};
      CountSnoc(front, last, completed);
      assert moduleIds == front + [last];
    }
  }

  lemma {:induction false} CountSnoc(moduleIds: seq<Id>, last: Id, completed: seq<Id>)
    ensures Count(moduleIds + [last], completed) == Count(moduleIds, completed) + if last in completed then 1 else 0
    decreases |moduleIds|
  {
    if moduleIds == [] {
      assert moduleIds + [last] == [last];
    } else {
      assert (moduleIds + [last])[0] == moduleIds[0] && (moduleIds + [last])[1..] == moduleIds[1..] + [last];
      CountSnoc(moduleIds[1..], last, completed);
    }
  }

  lemma AllPlacesExactly(path: LearningPath, p: LearnerProgress)
    ensures |CompletedPlaces(path, p)| == |path.moduleIds| <==> PathCompleted(path, p.completedModuleIds)
  {
    var places, all := CompletedPlaces(path, p), PlacesBelow(|path.moduleIds|);
    assert places <= all;
    SubsetSize(places, all);
    if |places| == |all| {
      forall m | m in path.moduleIds ensures m in p.completedModuleIds {
        var k :| 0 <= k < |path.moduleIds| && path.moduleIds[k] == m;
        assert k in all && k in places;
      }
    }
    if PathCompleted(path, p.completedModuleIds) {
      forall k | k in all ensures k in places { assert path.moduleIds[k] in path.moduleIds; }
      assert places == all;
    }
  }

  // An export holds the learner as it is, and for each path of the catalogue the number of places of its module list
  // that are completed, all of them exactly if the path is completed, their share to the nearest hundredth, and the
  // best score of its attempts.
  lemma TranscriptExactly(catalog: Catalog, p: LearnerProgress, exportedAt: Time, i: nat)
    requires i < |catalog.paths|
    ensures var r, path := Build(catalog, p, exportedAt), catalog.paths[i];
      && r.learner == p && r.exportedAt == Some(exportedAt) && r.catalogVersion == catalog.contentVersion && |r.transcript| == |catalog.paths|
    ensures var path, e := catalog.paths[i], Build(catalog, p, exportedAt).transcript[i];
      && e.pathId == path.id && e.pathTitle == path.title
      && e.completedModules == |CompletedPlaces(path, p)| && e.totalModules == |path.moduleIds|
      && (e.completedModules == e.totalModules <==> PathCompleted(path, p.completedModuleIds))
      && (e.completionPercent.Some? <==> e.totalModules > 0)
      && (e.completionPercent.Some? ==> NearestPercent(e.completionPercent.value, e.completedModules, e.totalModules))
      && (e.bestScorePercent.None? <==> forall a :: a in p.attempts ==> a.pathId != path.id)
      && (e.bestScorePercent.Some? ==>
            && (exists a :: a in p.attempts && a.pathId == path.id && a.scorePercent == e.bestScorePercent.value)
            && (forall a :: a in p.attempts && a.pathId == path.id ==> a.scorePercent <= e.bestScorePercent.value))
  {
    var path, completed := catalog.paths[i], p.completedModuleIds;
    CountIsOfPlaces(path.moduleIds, completed);
    AllPlacesExactly(path, p);
    if |path.moduleIds| > 0 { QuotientIsNearest(Count(path.moduleIds, completed), |path.moduleIds|); }
  }
}
