/** The portable backup of a learner record: the builder, and the validator that is written
    independently of the recording functions (src/portable-record.ts). */
module PortableRecord {
  import opened Wrappers
  import opened Sequences
  import opened Progress

  datatype TranscriptEntry = TranscriptEntry(
    pathId: Id, pathTitle: string, completedModules: nat, totalModules: nat,
    completionPercent: Option<int>, bestScorePercent: Option<int>)

  // A date that does not parse is missing.
  datatype Portable = Portable(
    format: string, formatVersion: string, exportedAt: Option<Time>, catalogVersion: string,
    learner: LearnerProgress, transcript: seq<TranscriptEntry>)

  const FORMAT: string := "project42/learner-record"
  const VERSION: string := "1.0"

  // --------------------------------------------------------------------------------- the builder

  function Count(moduleIds: seq<Id>, completed: seq<Id>): (n: nat)
    ensures n <= |moduleIds|
  {
    if moduleIds == [] then 0 else (if moduleIds[0] in completed then 1 else 0) + Count(moduleIds[1..], completed)
  }

  // The best score among the attempts of a path, if there is one.
  function BestScore(attempts: seq<Attempt>, pathId: Id): (r: Option<int>)
    ensures r.Some? ==> exists a :: a in attempts && a.pathId == pathId && a.scorePercent == r.value
    ensures forall a :: a in attempts && a.pathId == pathId ==> r.Some? && a.scorePercent <= r.value
  {
    if attempts == [] then None
    else
      var rest := BestScore(attempts[1..], pathId);
      if attempts[0].pathId != pathId then rest
      else if rest.None? || rest.value < attempts[0].scorePercent then Some(attempts[0].scorePercent)
      else rest
  }

  function EntryFor(path: LearningPath, p: LearnerProgress): TranscriptEntry {
    var completed := Count(path.moduleIds, p.completedModuleIds);
    TranscriptEntry(path.id, path.title, completed, |path.moduleIds|,
                    Percent(Points(completed, |path.moduleIds|)), BestScore(p.attempts, path.id))
  }

  function BuildTranscript(catalog: Catalog, p: LearnerProgress): (r: seq<TranscriptEntry>)
    ensures |r| == |catalog.paths| && forall i :: 0 <= i < |r| ==> r[i] == EntryFor(catalog.paths[i], p)
  {
    seq(|catalog.paths|, i requires 0 <= i < |catalog.paths| => EntryFor(catalog.paths[i], p))
  }

  function Build(catalog: Catalog, p: LearnerProgress, exportedAt: Time): Portable {
    Portable(FORMAT, VERSION, Some(exportedAt), catalog.contentVersion, p, BuildTranscript(catalog, p))
  }

  // ------------------------------------------------------------------------------- shape checks

  predicate InPercentRange(n: int) { 0 <= n <= 100 }

  predicate UniqueNames(names: seq<string>) {
    (forall s :: s in names ==> !Blank(s)) && Distinct(names)
  }

  predicate ValidAttempt(a: Attempt) {
    !Blank(a.id) && !Blank(a.pathId) && !Blank(a.moduleId) && !Blank(a.contentVersion) && InPercentRange(a.scorePercent)
  }

  predicate ValidCriterionScore(s: CriterionScore) {
    !Blank(s.criterionId) && s.pointsAwarded >= 0 && (s.evidenceRefs.Some? ==> UniqueNames(s.evidenceRefs.value))
  }

  predicate UniqueCriteria(scores: seq<CriterionScore>) {
    forall i, j :: 0 <= i < j < |scores| ==> scores[i].criterionId != scores[j].criterionId
  }

  predicate ValidCapstone(c: Capstone) {
    && !Blank(c.id) && !Blank(c.pathId) && !Blank(c.moduleId) && !Blank(c.contentVersion)
    && UniqueNames(c.artifactRefs) && c.artifactRefs != []
    && c.criterionScores != [] && (forall s :: s in c.criterionScores ==> ValidCriterionScore(s))
    && UniqueCriteria(c.criterionScores)
    && c.scorePercent.Some? && InPercentRange(c.scorePercent.value)
    && !Blank(c.reflection)
  }

  predicate ValidBadge(b: Badge) {
    !Blank(b.id) && !Blank(b.name) && !Blank(b.description) && UniqueNames(b.evidenceModuleIds)
  }

  predicate UniqueAttemptIds(attempts: seq<Attempt>) {
    forall i, j :: 0 <= i < j < |attempts| ==> attempts[i].id != attempts[j].id
  }

  predicate UniqueCapstoneIds(capstones: seq<Capstone>) {
    forall i, j :: 0 <= i < j < |capstones| ==> capstones[i].id != capstones[j].id
  }

  predicate UniqueBadgeIds(badges: seq<Badge>) {
    forall i, j :: 0 <= i < j < |badges| ==> badges[i].id != badges[j].id
  }

  predicate ValidAttempts(attempts: seq<Attempt>) {
    (forall a :: a in attempts ==> ValidAttempt(a)) && UniqueAttemptIds(attempts)
  }

  predicate ValidCapstones(capstones: seq<Capstone>) {
    (forall c :: c in capstones ==> ValidCapstone(c)) && UniqueCapstoneIds(capstones)
  }

  predicate ValidBadges(badges: seq<Badge>) {
    (forall b :: b in badges ==> ValidBadge(b)) && UniqueBadgeIds(badges)
  }

  predicate ValidRecent(recent: Option<RecentModule>) {
    recent.Some? ==> !Blank(recent.value.pathId) && !Blank(recent.value.moduleId)
  }

  predicate ValidLearner(p: LearnerProgress) {
    && |p.displayName| <= 80
    && UniqueNames(p.startedPathIds) && UniqueNames(p.completedModuleIds)
    && ValidAttempts(p.attempts)
    && (p.capstoneSubmissions.Some? ==> ValidCapstones(p.capstoneSubmissions.value))
    && ValidBadges(p.badges)
    && ValidRecent(p.recentModule)
  }

  predicate ValidEntry(e: TranscriptEntry) {
    && !Blank(e.pathId) && !Blank(e.pathTitle)
    && e.completionPercent.Some? && InPercentRange(e.completionPercent.value)
    && (e.bestScorePercent.Some? ==> InPercentRange(e.bestScorePercent.value))
  }

  predicate ValidRecord(r: Portable) {
    && r.format == FORMAT && r.formatVersion == VERSION
    && r.exportedAt.Some? && !Blank(r.catalogVersion)
    && ValidLearner(r.learner)
    && forall e :: e in r.transcript ==> ValidEntry(e)
  }

  // ------------------------------------------------------------------------------ catalogue checks

  // The path of a module: where several hold it, the last one.
  function PathOf(paths: seq<LearningPath>, moduleId: Id): (r: Option<Id>)
    ensures r.Some? <==> exists p :: p in paths && moduleId in p.moduleIds
  {
    if paths == [] then None
    else if moduleId in paths[|paths| - 1].moduleIds then Some(paths[|paths| - 1].id)
    else PathOf(paths[..|paths| - 1], moduleId)
  }

  predicate KnownPath(catalog: Catalog, pathId: Id) {
    exists p :: p in catalog.paths && p.id == pathId
  }

  // The module's path is the stated one; an empty path identifier counts as unknown.
  predicate InItsPath(catalog: Catalog, pathId: Id, moduleId: Id) {
    PathOf(catalog.paths, moduleId) == Some(pathId) && pathId != ""
  }

  function TotalAwarded(scores: seq<CriterionScore>): int {
    if scores == [] then 0 else scores[0].pointsAwarded + TotalAwarded(scores[1..])
  }

  function TotalAvailable(criteria: seq<Criterion>): (n: nat)
    ensures forall c :: c in criteria ==> c.maxPoints <= n
  {
    if criteria == [] then 0 else criteria[0].maxPoints + TotalAvailable(criteria[1..])
  }

  // The criterion of an identifier: the last one, as in a map built from the list.
  function CriterionFor(criteria: seq<Criterion>, id: Id): (r: Option<Criterion>)
    ensures r.Some? ==> r.value in criteria && r.value.id == id
    ensures r.None? <==> forall c :: c in criteria ==> c.id != id
  {
    if criteria == [] then None
    else if criteria[|criteria| - 1].id == id then Some(criteria[|criteria| - 1])
    else CriterionFor(criteria[..|criteria| - 1], id)
  }

  function RubricIds(criteria: seq<Criterion>): set<Id> {
    set c | c in criteria :: c.id
  }

  predicate FitsRubric(criteria: seq<Criterion>, scores: seq<CriterionScore>) {
    && |scores| == |RubricIds(criteria)|
    && forall s :: s in scores ==>
         var c := CriterionFor(criteria, s.criterionId);
         c.Some? && 0 <= s.pointsAwarded <= c.value.maxPoints
  }

  predicate ScoreAgrees(spec: CapstoneSpec, c: Capstone) {
    var expected := Percent(Points(TotalAwarded(c.criterionScores), TotalAvailable(spec.criteria)));
    expected.Some? && c.scorePercent == expected && (c.passed <==> Reaches(expected, spec.passPercent))
  }

  predicate AgreesWithSpec(spec: CapstoneSpec, attempts: seq<Attempt>, c: Capstone) {
    && |c.artifactRefs| >= |spec.requiredArtifacts|
    && FitsRubric(spec.criteria, c.criterionScores)
    && (spec.requiresCriterionEvidence ==>
          forall s :: s in c.criterionScores ==>
            EvidenceMapped(s, AllowedRefs(attempts, c.pathId, c.moduleId, c.artifactRefs)))
    && ScoreAgrees(spec, c)
  }

  predicate CapstoneFits(catalog: Catalog, attempts: seq<Attempt>, c: Capstone) {
    && KnownPath(catalog, c.pathId) && InItsPath(catalog, c.pathId, c.moduleId)
    && CapstoneOf(catalog, c.moduleId).Some?
    && AgreesWithSpec(CapstoneOf(catalog, c.moduleId).value, attempts, c)
  }

  predicate AttemptFits(catalog: Catalog, a: Attempt) {
    KnownPath(catalog, a.pathId) && InItsPath(catalog, a.pathId, a.moduleId)
  }

  // The references of the record agree with the catalogue.
  predicate FitsCatalog(catalog: Catalog, p: LearnerProgress) {
    && (forall id :: id in p.startedPathIds ==> KnownPath(catalog, id))
    && (forall m :: m in p.completedModuleIds ==> PathOf(catalog.paths, m).Some?)
    && (forall a :: a in p.attempts ==> AttemptFits(catalog, a))
    && (forall c :: c in Capstones(p) ==> CapstoneFits(catalog, p.attempts, c))
    && (p.recentModule.Some? ==> InItsPath(catalog, p.recentModule.value.pathId, p.recentModule.value.moduleId))
  }

  // ------------------------------------------------------------------------------------- restoring

  datatype Fault =
    | UnsupportedFormat | UnsupportedVersion | BadExportDate | NoCatalogVersion | InvalidLearner | InvalidTranscript
    | UnknownPath(id: Id) | UnknownModule(id: Id) | OtherPath(id: Id)
    | MissingArtifact(id: Id) | OtherRubric(id: Id) | UnmappedCriterion(id: Id) | InconsistentScore(id: Id)

  method Validate(r: Portable) returns (faults: seq<Fault>)
    ensures faults == [] <==> ValidRecord(r)
  {
    faults := [];
    if r.format != FORMAT { faults := faults + [UnsupportedFormat]; }
    if r.formatVersion != VERSION { faults := faults + [UnsupportedVersion]; }
    if r.exportedAt.None? { faults := faults + [BadExportDate]; }
    if Blank(r.catalogVersion) { faults := faults + [NoCatalogVersion]; }
    if !ValidLearner(r.learner) { faults := faults + [InvalidLearner]; }
    if !(forall e :: e in r.transcript ==> ValidEntry(e)) { faults := faults + [InvalidTranscript]; }
  }

  // The module is in the stated path, which the catalogue knows.
  method CheckPlace(catalog: Catalog, pathId: Id, moduleId: Id) returns (faults: seq<Fault>)
    ensures faults == [] <==> InItsPath(catalog, pathId, moduleId)
  {
    var expected := PathOf(catalog.paths, moduleId);
    if expected.None? || expected.value == "" { return [UnknownModule(moduleId)]; }
    if pathId != expected.value { return [OtherPath(moduleId)]; }
    return [];
  }

  method CheckReferences(catalog: Catalog, p: LearnerProgress) returns (faults: seq<Fault>)
    ensures faults == [] <==>
      && (forall id :: id in p.startedPathIds ==> KnownPath(catalog, id))
      && (forall m :: m in p.completedModuleIds ==> PathOf(catalog.paths, m).Some?)
  {
    faults := [];
    for i := 0 to |p.startedPathIds|
      invariant faults == [] <==> forall k :: 0 <= k < i ==> KnownPath(catalog, p.startedPathIds[k])
    {
      if !KnownPath(catalog, p.startedPathIds[i]) { faults := faults + [UnknownPath(p.startedPathIds[i])]; }
    }
    for i := 0 to |p.completedModuleIds|
      invariant faults == [] <==>
        && (forall id :: id in p.startedPathIds ==> KnownPath(catalog, id))
        && forall k :: 0 <= k < i ==> PathOf(catalog.paths, p.completedModuleIds[k]).Some?
    {
      if PathOf(catalog.paths, p.completedModuleIds[i]).None? {
        faults := faults + [UnknownModule(p.completedModuleIds[i])];
      }
    }
  }

  method CheckAttempts(catalog: Catalog, attempts: seq<Attempt>) returns (faults: seq<Fault>)
    ensures faults == [] <==> forall a :: a in attempts ==> AttemptFits(catalog, a)
  {
    faults := [];
    for i := 0 to |attempts|
      invariant faults == [] <==> forall k :: 0 <= k < i ==> AttemptFits(catalog, attempts[k])
    {
      var a := attempts[i];
      if !KnownPath(catalog, a.pathId) { faults := faults + [UnknownPath(a.pathId)]; }
      var place := CheckPlace(catalog, a.pathId, a.moduleId);
      faults := faults + place;
    }
  }

  method CheckAgainstSpec(spec: CapstoneSpec, attempts: seq<Attempt>, c: Capstone) returns (faults: seq<Fault>)
    ensures faults == [] <==> AgreesWithSpec(spec, attempts, c)
  {
    faults := [];
    var awarded := 0;
    for i := 0 to |c.criterionScores|
      invariant TotalAwarded(c.criterionScores) == awarded + TotalAwarded(c.criterionScores[i..])
    {
      assert c.criterionScores[i..][1..] == c.criterionScores[i + 1..];
      awarded := awarded + c.criterionScores[i].pointsAwarded;
    }
    var available := 0;
    for i := 0 to |spec.criteria|
      invariant TotalAvailable(spec.criteria) == available + TotalAvailable(spec.criteria[i..])
    {
      assert spec.criteria[i..][1..] == spec.criteria[i + 1..];
      available := available + spec.criteria[i].maxPoints;
    }
    var expected := Percent(Points(awarded, available));
    var allowed := AllowedRefs(attempts, c.pathId, c.moduleId, c.artifactRefs);
    if |c.artifactRefs| < |spec.requiredArtifacts| { faults := faults + [MissingArtifact(c.id)]; }
    if !FitsRubric(spec.criteria, c.criterionScores) { faults := faults + [OtherRubric(c.id)]; }
    if spec.requiresCriterionEvidence && exists s :: s in c.criterionScores && !EvidenceMapped(s, allowed) {
      faults := faults + [UnmappedCriterion(c.id)];
    }
    if expected.None? || c.scorePercent != expected || c.passed != Reaches(expected, spec.passPercent) {
      faults := faults + [InconsistentScore(c.id)];
    }
  }

  method CheckCapstones(catalog: Catalog, attempts: seq<Attempt>, capstones: seq<Capstone>) returns (faults: seq<Fault>)
    ensures faults == [] <==> forall c :: c in capstones ==> CapstoneFits(catalog, attempts, c)
  {
    faults := [];
    for i := 0 to |capstones|
      invariant faults == [] <==> forall k :: 0 <= k < i ==> CapstoneFits(catalog, attempts, capstones[k])
    {
      var c := capstones[i];
      if !KnownPath(catalog, c.pathId) { faults := faults + [UnknownPath(c.pathId)]; }
      var place := CheckPlace(catalog, c.pathId, c.moduleId);
      var spec := CapstoneOf(catalog, c.moduleId);
      if place != [] || spec.None? {
        faults := faults + [UnknownModule(c.moduleId)];
      } else {
        var agreement := CheckAgainstSpec(spec.value, attempts, c);
        faults := faults + agreement;
      }
    }
  }

  // Accepts exactly the valid records that fit the catalogue, and returns their learner unchanged.
  method Restore(r: Portable, catalog: Catalog) returns (restored: Result<LearnerProgress, seq<Fault>>)
    ensures restored.Ok? <==> ValidRecord(r) && FitsCatalog(catalog, r.learner)
    ensures restored.Ok? ==> restored.value == r.learner.(capstoneSubmissions := Some(Capstones(r.learner)))
    ensures restored.Err? ==> restored.error != []
  {
    var shape := Validate(r);
    if shape != [] { return Err(shape); }
    var p := r.learner;
    var references := CheckReferences(catalog, p);
    var attempts := CheckAttempts(catalog, p.attempts);
    var capstones := CheckCapstones(catalog, p.attempts, Capstones(p));
    var recent := [];
    if p.recentModule.Some? {
      recent := CheckPlace(catalog, p.recentModule.value.pathId, p.recentModule.value.moduleId);
    }
    var faults := references + attempts + capstones + recent;
    if faults != [] { return Err(faults); }
    return Ok(p.(capstoneSubmissions := Some(Capstones(p))));
  }
}
