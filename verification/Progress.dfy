/** Learner progress and the operations that record it: an assessment attempt, a capstone submission
    and a module visit, with the badges they earn (src/progress.ts). */
module Progress {
  import opened Wrappers
  import opened Sequences

  type Id = string
  type Time = int

  datatype Attempt = Attempt(
    id: Id, pathId: Id, moduleId: Id, contentVersion: string, scorePercent: int, passed: bool, completedAt: Time)

  datatype CriterionScore = CriterionScore(criterionId: Id, pointsAwarded: int, evidenceRefs: Option<seq<string>>)

  // The score is missing where the source computes no finite number.
  datatype Capstone = Capstone(
    id: Id, pathId: Id, moduleId: Id, contentVersion: string, submittedAt: Time, artifactRefs: seq<string>,
    criterionScores: seq<CriterionScore>, scorePercent: Option<int>, passed: bool, reflection: string)

  datatype Badge = Badge(id: Id, name: string, description: string, earnedAt: Time, evidenceModuleIds: seq<Id>)

  datatype RecentModule = RecentModule(pathId: Id, moduleId: Id, visitedAt: Time)

  datatype LearnerProgress = LearnerProgress(
    displayName: string, startedPathIds: seq<Id>, completedModuleIds: seq<Id>, attempts: seq<Attempt>,
    capstoneSubmissions: Option<seq<Capstone>>, badges: seq<Badge>, recentModule: Option<RecentModule>,
    updatedAt: Time)

  function Capstones(p: LearnerProgress): seq<Capstone> {
    if p.capstoneSubmissions.Some? then p.capstoneSubmissions.value else []
  }

  function EmptyProgress(displayName: string): LearnerProgress {
    LearnerProgress(displayName, [], [], [], Some([]), [], None, 0)
  }

  // --------------------------------------------------------------------------------- the catalogue

  datatype Criterion = Criterion(id: Id, maxPoints: nat)
  datatype CapstoneSpec = CapstoneSpec(
    requiredArtifacts: seq<string>, requiresCriterionEvidence: bool, criteria: seq<Criterion>, passPercent: int)
  datatype LearningModule = LearningModule(id: Id, capstone: Option<CapstoneSpec>)
  datatype PathBadge = PathBadge(id: Id, name: string, description: string)
  datatype LearningPath = LearningPath(id: Id, title: string, moduleIds: seq<Id>, badge: PathBadge)
  datatype Catalog = Catalog(contentVersion: string, paths: seq<LearningPath>, modules: seq<LearningModule>)

  function FindPath(paths: seq<LearningPath>, id: Id): (r: Option<LearningPath>)
    ensures r.Some? ==> r.value in paths && r.value.id == id
    ensures r.None? <==> forall p :: p in paths ==> p.id != id
  {
    if paths == [] then None else if paths[0].id == id then Some(paths[0]) else FindPath(paths[1..], id)
  }

  function FindModule(modules: seq<LearningModule>, id: Id): (r: Option<LearningModule>)
    ensures r.Some? ==> r.value in modules && r.value.id == id
    ensures r.None? <==> forall m :: m in modules ==> m.id != id
  {
    if modules == [] then None else if modules[0].id == id then Some(modules[0]) else FindModule(modules[1..], id)
  }

  // The capstone of the module, where it has one.
  function CapstoneOf(catalog: Catalog, moduleId: Id): Option<CapstoneSpec> {
    match FindModule(catalog.modules, moduleId)
    case None => None
    case Some(m) => m.capstone
  }

  predicate Placed(catalog: Catalog, pathId: Id, moduleId: Id) {
    var path := FindPath(catalog.paths, pathId);
    path.Some? && moduleId in path.value.moduleIds
  }

  function AddedOnce(ids: seq<Id>, id: Id): seq<Id> {
    if id in ids then ids else ids + [id]
  }

  // ------------------------------------------------------------------------------------- evidence

  predicate HasPassingCheck(p: LearnerProgress, moduleId: Id) {
    exists a :: a in p.attempts && a.moduleId == moduleId && a.passed
  }

  predicate HasPassingCapstone(p: LearnerProgress, moduleId: Id) {
    exists c :: c in Capstones(p) && c.moduleId == moduleId && c.passed
  }

  predicate PathCompleted(path: LearningPath, completed: seq<Id>) {
    forall m :: m in path.moduleIds ==> m in completed
  }

  predicate HoldsBadge(badges: seq<Badge>, id: Id) {
    exists b :: b in badges && b.id == id
  }

  // ------------------------------------------------------------------------------ earning badges

  function WithBadges(paths: seq<LearningPath>, completed: seq<Id>, badges: seq<Badge>, earnedAt: Time): (r: seq<Badge>)
    ensures badges <= r
  {
    if paths == [] then badges
    else if PathCompleted(paths[0], completed) && !HoldsBadge(badges, paths[0].badge.id) then
      var b := paths[0].badge;
      WithBadges(paths[1..], completed,
        badges + [Badge(b.id, b.name, b.description, earnedAt, paths[0].moduleIds)], earnedAt)
    else WithBadges(paths[1..], completed, badges, earnedAt)
  }

  method DeriveBadges(catalog: Catalog, completed: seq<Id>, existing: seq<Badge>, earnedAt: Time) returns (badges: seq<Badge>)
    ensures badges == WithBadges(catalog.paths, completed, existing, earnedAt)
  {
    badges := existing;
    var i := 0;
    while i < |catalog.paths|
      invariant 0 <= i <= |catalog.paths|
      invariant WithBadges(catalog.paths, completed, existing, earnedAt)
             == WithBadges(catalog.paths[i..], completed, badges, earnedAt)
    {
      var path := catalog.paths[i];
      assert catalog.paths[i..][1..] == catalog.paths[i + 1..];
      if PathCompleted(path, completed) && !HoldsBadge(badges, path.badge.id) {
        badges := badges + [Badge(path.badge.id, path.badge.name, path.badge.description, earnedAt, path.moduleIds)];
      }
      i := i + 1;
    }
  }

  // -------------------------------------------------------------------------- scoring a capstone

  datatype RecordError =
    | ModuleNotInPath | NotACapstone | MissingArtifactsOrReflection | CriteriaNotScoredOnce
    | InvalidScore(criterionId: Id) | UnmappedEvidence(criterionId: Id)

  predicate IsSpace(c: char) {
    || c in " \t\n\r"
    || c as int == 0xb || c as int == 0xc || c as int == 0xa0 || c as int == 0x1680
    || 0x2000 <= c as int <= 0x200a || c as int == 0x2028 || c as int == 0x2029
    || c as int == 0x202f || c as int == 0x205f || c as int == 0x3000 || c as int == 0xfeff
  }

  // Nothing is left after trimming.
  predicate Blank(s: string) {
    forall c :: c in s ==> IsSpace(c)
  }

  // The score of a criterion: the last one given, as in a map built from the list.
  function ScoreFor(scores: seq<CriterionScore>, criterionId: Id): (r: Option<CriterionScore>)
    ensures r.Some? ==> r.value in scores && r.value.criterionId == criterionId
    ensures r.None? <==> forall s :: s in scores ==> s.criterionId != criterionId
  {
    if scores == [] then None
    else if scores[|scores| - 1].criterionId == criterionId then Some(scores[|scores| - 1])
    else ScoreFor(scores[..|scores| - 1], criterionId)
  }

  function CriterionIds(scores: seq<CriterionScore>): set<Id> {
    set s | s in scores :: s.criterionId
  }

  function Elements<T(==)>(s: seq<T>): set<T> {
    set x | x in s
  }

  // The references by which a submission can name the checks taken in its module.
  function AssessmentRefs(attempts: seq<Attempt>, pathId: Id, moduleId: Id): set<string> {
    set a | a in attempts && a.pathId == pathId && a.moduleId == moduleId :: "assessment:" + a.id
  }

  predicate EvidenceMapped(score: CriterionScore, allowed: set<string>) {
    && score.evidenceRefs.Some? && score.evidenceRefs.value != []
    && Distinct(score.evidenceRefs.value)
    && forall r :: r in score.evidenceRefs.value ==> !Blank(r) && r in allowed
  }

  datatype Points = Points(awarded: int, available: int)

  // The check and the totals of one pass over the criteria of the rubric.
  function ScoreCriteria(
    spec: CapstoneSpec, criteria: seq<Criterion>, scores: seq<CriterionScore>, allowed: set<string>, total: Points)
    : Result<Points, RecordError>
  {
    if criteria == [] then Ok(total)
    else
      var score := ScoreFor(scores, criteria[0].id);
      if score.None? || score.value.pointsAwarded < 0 || score.value.pointsAwarded > criteria[0].maxPoints then
        Err(InvalidScore(criteria[0].id))
      else if spec.requiresCriterionEvidence && !EvidenceMapped(score.value, allowed) then
        Err(UnmappedEvidence(criteria[0].id))
      else ScoreCriteria(spec, criteria[1..], scores, allowed,
        Points(total.awarded + score.value.pointsAwarded, total.available + criteria[0].maxPoints))
  }

  method ScoreCapstone(spec: CapstoneSpec, scores: seq<CriterionScore>, allowed: set<string>) returns (r: Result<Points, RecordError>)
    ensures r == ScoreCriteria(spec, spec.criteria, scores, allowed, Points(0, 0))
  {
    var awarded, available := 0, 0;
    var i := 0;
    while i < |spec.criteria|
      invariant 0 <= i <= |spec.criteria|
      invariant ScoreCriteria(spec, spec.criteria, scores, allowed, Points(0, 0))
             == ScoreCriteria(spec, spec.criteria[i..], scores, allowed, Points(awarded, available))
    {
      var criterion := spec.criteria[i];
      assert spec.criteria[i..][1..] == spec.criteria[i + 1..];
      var score := ScoreFor(scores, criterion.id);
      if score.None? || score.value.pointsAwarded < 0 || score.value.pointsAwarded > criterion.maxPoints {
        return Err(InvalidScore(criterion.id));
      }
      if spec.requiresCriterionEvidence && !EvidenceMapped(score.value, allowed) {
        return Err(UnmappedEvidence(criterion.id));
      }
      awarded := awarded + score.value.pointsAwarded;
      available := available + criterion.maxPoints;
      i := i + 1;
    }
    return Ok(Points(awarded, available));
  }

  // The nearest whole percentage, halves upwards; none without points to win.
  function Percent(points: Points): Option<int> {
    if points.available <= 0 then None
    else Some((200 * points.awarded + points.available) / (2 * points.available))
  }

  predicate Reaches(score: Option<int>, passPercent: int) {
    score.Some? && score.value >= passPercent
  }

  // --------------------------------------------------------------------------------- recording

  datatype AssessmentInput = AssessmentInput(
    attemptId: Id, pathId: Id, moduleId: Id, completedAt: Time, scorePercent: int, passed: bool)

  datatype CapstoneInput = CapstoneInput(
    submissionId: Id, pathId: Id, moduleId: Id, submittedAt: Time, artifactRefs: seq<string>,
    criterionScores: seq<CriterionScore>, reflection: string)

  datatype VisitInput = VisitInput(pathId: Id, moduleId: Id, visitedAt: Time)

  function RecordAssessmentAttempt(p: LearnerProgress, catalog: Catalog, input: AssessmentInput): Result<LearnerProgress, RecordError> {
    if exists a :: a in p.attempts && a.id == input.attemptId then Ok(p)
    else if FindModule(catalog.modules, input.moduleId).None? || !Placed(catalog, input.pathId, input.moduleId) then
      Err(ModuleNotInPath)
    else
      var capstone := CapstoneOf(catalog, input.moduleId);
      var completed :=
        if input.passed && (capstone.None? || HasPassingCapstone(p, input.moduleId))
        then AddedOnce(p.completedModuleIds, input.moduleId) else p.completedModuleIds;
      Ok(p.(
        startedPathIds := AddedOnce(p.startedPathIds, input.pathId),
        completedModuleIds := completed,
        attempts := p.attempts + [Attempt(input.attemptId, input.pathId, input.moduleId, catalog.contentVersion,
                                          input.scorePercent, input.passed, input.completedAt)],
        capstoneSubmissions := Some(Capstones(p)),
        badges := WithBadges(catalog.paths, completed, p.badges, input.completedAt),
        updatedAt := input.completedAt))
  }

  predicate CapstoneTextsMissing(spec: CapstoneSpec, input: CapstoneInput) {
    || |input.artifactRefs| < |spec.requiredArtifacts|
    || (exists r :: r in input.artifactRefs && Blank(r))
    || Blank(input.reflection)
  }

  function AllowedRefs(attempts: seq<Attempt>, pathId: Id, moduleId: Id, artifactRefs: seq<string>): set<string> {
    Elements(artifactRefs) + AssessmentRefs(attempts, pathId, moduleId)
  }

  // The submission the input makes, or the reason to refuse it.
  function Submission(p: LearnerProgress, catalog: Catalog, input: CapstoneInput): Result<Capstone, RecordError> {
    var capstone := CapstoneOf(catalog, input.moduleId);
    if capstone.None? || !Placed(catalog, input.pathId, input.moduleId) then Err(NotACapstone)
    else if CapstoneTextsMissing(capstone.value, input) then Err(MissingArtifactsOrReflection)
    else if |CriterionIds(input.criterionScores)| != |capstone.value.criteria|
         || |input.criterionScores| != |capstone.value.criteria| then Err(CriteriaNotScoredOnce)
    else
      var allowed := AllowedRefs(p.attempts, input.pathId, input.moduleId, input.artifactRefs);
      match ScoreCriteria(capstone.value, capstone.value.criteria, input.criterionScores, allowed, Points(0, 0))
      case Err(error) => Err(error)
      case Ok(points) =>
        var score := Percent(points);
        Ok(Capstone(input.submissionId, input.pathId, input.moduleId, catalog.contentVersion, input.submittedAt,
                    input.artifactRefs, input.criterionScores, score, Reaches(score, capstone.value.passPercent),
                    input.reflection))
  }

  function RecordCapstoneSubmission(p: LearnerProgress, catalog: Catalog, input: CapstoneInput): Result<LearnerProgress, RecordError> {
    if exists c :: c in Capstones(p) && c.id == input.submissionId then Ok(p)
    else match Submission(p, catalog, input)
      case Err(error) => Err(error)
      case Ok(submission) =>
        var completed :=
          if submission.passed && HasPassingCheck(p, input.moduleId)
          then AddedOnce(p.completedModuleIds, input.moduleId) else p.completedModuleIds;
        Ok(p.(
          startedPathIds := AddedOnce(p.startedPathIds, input.pathId),
          completedModuleIds := completed,
          capstoneSubmissions := Some(Capstones(p) + [submission]),
          badges := WithBadges(catalog.paths, completed, p.badges, input.submittedAt),
          updatedAt := input.submittedAt))
  }

  function RecordModuleVisit(p: LearnerProgress, catalog: Catalog, input: VisitInput): Result<LearnerProgress, RecordError> {
    if !Placed(catalog, input.pathId, input.moduleId) then Err(ModuleNotInPath)
    else Ok(p.(
      startedPathIds := AddedOnce(p.startedPathIds, input.pathId),
      recentModule := Some(RecentModule(input.pathId, input.moduleId, input.visitedAt)),
      updatedAt := input.visitedAt))
  }
}
