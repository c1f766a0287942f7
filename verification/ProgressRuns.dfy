/** What holds of every progress record that recording and merging can produce from empty ones. */
module ProgressRuns {
  import opened Wrappers
  import opened Sequences
  import opened Sorting
  import opened Progress
  import opened ProgressMerge
  import opened MergeTheorems

  // How a record came about. An operation that throws leaves the record as it was.
  datatype History =
    | Start(displayName: string)
    | Assess(before: History, assessment: AssessmentInput)
    | Submit(before: History, capstone: CapstoneInput)
    | Visit(before: History, visit: VisitInput)
    | Merge(survivor: History, source: History, name: string, prefix: string)

  function OrElse(r: Result<LearnerProgress, RecordError>, p: LearnerProgress): LearnerProgress {
    if r.Ok? then r.value else p
  }

  function Outcome(catalog: Catalog, h: History): LearnerProgress {
    match h
    case Start(displayName) => EmptyProgress(displayName)
    case Assess(before, input) =>
      var p := Outcome(catalog, before); OrElse(RecordAssessmentAttempt(p, catalog, input), p)
    case Submit(before, input) =>
      var p := Outcome(catalog, before); OrElse(RecordCapstoneSubmission(p, catalog, input), p)
    case Visit(before, input) =>
      var p := Outcome(catalog, before); OrElse(RecordModuleVisit(p, catalog, input), p)
    case Merge(survivor, source, name, prefix) =>
      Merged(Outcome(catalog, survivor), Outcome(catalog, source), name, prefix)
  }

  predicate MergeFree(h: History) {
    match h
    case Start(_) => true
    case Merge(_, _, _, _) => false
    case Assess(before, _) => MergeFree(before)
    case Submit(before, _) => MergeFree(before)
    case Visit(before, _) => MergeFree(before)
  }

  // ----------------------------------------------------------- completion is backed by evidence

  // A passing check, and a passing capstone where the module has one.
  predicate Proven(catalog: Catalog, p: LearnerProgress, moduleId: Id) {
    HasPassingCheck(p, moduleId) && (CapstoneOf(catalog, moduleId).Some? ==> HasPassingCapstone(p, moduleId))
  }

  predicate BadgeProven(p: LearnerProgress, b: Badge) {
    forall m :: m in b.evidenceModuleIds ==> m in p.completedModuleIds
  }

  // Every completion has its evidence, and every badge rests on completed modules.
  ghost predicate Backed(catalog: Catalog, p: LearnerProgress) {
    && (forall m :: m in p.completedModuleIds ==> Proven(catalog, p, m))
    && (forall b :: b in p.badges ==> BadgeProven(p, b))
    && OneBadgePerId(p.badges)
  }

  // What more evidence a record may have than another.
  ghost predicate Extends(q: LearnerProgress, p: LearnerProgress) {
    && (forall m :: m in p.completedModuleIds ==> m in q.completedModuleIds)
    && (forall m :: HasPassingCheck(p, m) ==> HasPassingCheck(q, m))
    && (forall m :: HasPassingCapstone(p, m) ==> HasPassingCapstone(q, m))
  }

  lemma {:induction false} NewBadgesAreProven(paths: seq<LearningPath>, completed: seq<Id>, badges: seq<Badge>, at: Time)
    requires OneBadgePerId(badges)
    requires forall b :: b in badges ==> forall m :: m in b.evidenceModuleIds ==> m in completed
    ensures var r := WithBadges(paths, completed, badges, at);
      OneBadgePerId(r) && forall b :: b in r ==> forall m :: m in b.evidenceModuleIds ==> m in completed
    decreases |paths|
  {
    if paths != [] {
      if PathCompleted(paths[0], completed) && !HoldsBadge(badges, paths[0].badge.id) {
        var b := paths[0].badge;
        NewBadgesAreProven(paths[1..], completed,
          badges + [Badge(b.id, b.name, b.description, at, paths[0].moduleIds)], at);
      } else {
        NewBadgesAreProven(paths[1..], completed, badges, at);
      }
    }
  }

  lemma RecordingKeepsBacked(catalog: Catalog, p: LearnerProgress, q: LearnerProgress, at: Time)
    requires Backed(catalog, p) && Extends(q, p)
    requires forall m :: m in q.completedModuleIds ==> m in p.completedModuleIds || Proven(catalog, q, m)
    requires q.badges == WithBadges(catalog.paths, q.completedModuleIds, p.badges, at)
    ensures Backed(catalog, q)
  {
    forall b | b in p.badges ensures forall m :: m in b.evidenceModuleIds ==> m in q.completedModuleIds {
      assert BadgeProven(p, b);
    }
    NewBadgesAreProven(catalog.paths, q.completedModuleIds, p.badges, at);
    forall m | m in q.completedModuleIds ensures Proven(catalog, q, m) {
      if m in p.completedModuleIds { assert Proven(catalog, p, m); }
    }
  }

  lemma AssessExtends(catalog: Catalog, p: LearnerProgress, input: AssessmentInput)
    ensures var q := OrElse(RecordAssessmentAttempt(p, catalog, input), p);
      && Extends(q, p)
      && (forall m :: m in q.completedModuleIds ==> m in p.completedModuleIds || Proven(catalog, q, m))
      && (forall m :: HasPassingCheck(q, m) <==> HasPassingCheck(p, m) || (q != p && m == input.moduleId && input.passed))
      && (forall m :: HasPassingCapstone(q, m) <==> HasPassingCapstone(p, m))
  {
    var q := OrElse(RecordAssessmentAttempt(p, catalog, input), p);
    if RecordAssessmentAttempt(p, catalog, input).Ok? && !(exists a :: a in p.attempts && a.id == input.attemptId) {
      var added := q.attempts[|p.attempts|];
      assert q.attempts == p.attempts + [added] && Capstones(q) == Capstones(p);
      assert added in q.attempts && added.moduleId == input.moduleId && added.passed == input.passed;
      forall m ensures HasPassingCheck(q, m) <==> HasPassingCheck(p, m) || (m == input.moduleId && input.passed) {
        if HasPassingCheck(p, m) {
          var a :| a in p.attempts && a.moduleId == m && a.passed;
          assert a in q.attempts;
        }
      }
      assert q != p by { assert |q.attempts| != |p.attempts|; }
    }
  }

  lemma SubmitExtends(catalog: Catalog, p: LearnerProgress, input: CapstoneInput)
    ensures var q := OrElse(RecordCapstoneSubmission(p, catalog, input), p);
      && Extends(q, p)
      && (forall m :: m in q.completedModuleIds ==> m in p.completedModuleIds || Proven(catalog, q, m))
      && (forall m :: HasPassingCheck(q, m) <==> HasPassingCheck(p, m))
      && (forall m :: HasPassingCapstone(q, m) ==>
            HasPassingCapstone(p, m) || (q != p && m == input.moduleId && Submission(p, catalog, input).Ok?
                                         && Submission(p, catalog, input).value.passed))
  {
    var q := OrElse(RecordCapstoneSubmission(p, catalog, input), p);
    if RecordCapstoneSubmission(p, catalog, input).Ok? && !(exists c :: c in Capstones(p) && c.id == input.submissionId) {
      var added := Submission(p, catalog, input).value;
      assert Capstones(q) == Capstones(p) + [added] && q.attempts == p.attempts;
      assert added in Capstones(q) && added.moduleId == input.moduleId;
      forall m | HasPassingCapstone(p, m) ensures HasPassingCapstone(q, m) {
        var c :| c in Capstones(p) && c.moduleId == m && c.passed;
        assert c in Capstones(q);
      }
      assert q != p by { assert |Capstones(q)| != |Capstones(p)|; }
    }
  }

  lemma MergeExtends(p: LearnerProgress, q: LearnerProgress, name: string, prefix: string)
    ensures var r := Merged(p, q, name, prefix);
      && Extends(r, p) && Extends(r, q)
      && (forall m :: HasPassingCheck(r, m) ==> HasPassingCheck(p, m) || HasPassingCheck(q, m))
      && (forall m :: HasPassingCapstone(r, m) ==> HasPassingCapstone(p, m) || HasPassingCapstone(q, m))
  {
    var r := Merged(p, q, name, prefix);
    AttemptsSurvive(p.attempts, q.attempts, prefix);
    CapstonesSurvive(Capstones(p), Capstones(q), prefix);
    ChecksMerge(p, q, r, prefix);
    CapstonesMerge(p, q, r, prefix);
  }

  lemma ChecksMerge(p: LearnerProgress, q: LearnerProgress, r: LearnerProgress, prefix: string)
    requires forall a :: a in p.attempts ==> a in r.attempts
    requires forall a :: a in q.attempts ==> KeptAttempt(r.attempts, a, prefix)
    requires forall a :: a in r.attempts ==> a in p.attempts || AttemptFrom(a, q.attempts, prefix)
    ensures forall m :: HasPassingCheck(r, m) <==> HasPassingCheck(p, m) || HasPassingCheck(q, m)
  {
    forall m ensures HasPassingCheck(r, m) <==> HasPassingCheck(p, m) || HasPassingCheck(q, m) {
      if HasPassingCheck(p, m) {
        var a :| a in p.attempts && a.moduleId == m && a.passed;
        assert a in r.attempts;
      }
      if HasPassingCheck(q, m) {
        var a :| a in q.attempts && a.moduleId == m && a.passed;
        assert KeptAttempt(r.attempts, a, prefix);
        var b := a.(id := Prefixed(prefix, a.id));
        assert b.moduleId == m && b.passed;
      }
      if HasPassingCheck(r, m) {
        var a :| a in r.attempts && a.moduleId == m && a.passed;
        if a !in p.attempts {
          assert AttemptFrom(a, q.attempts, prefix);
          var x :| x in q.attempts && (a == x || a == x.(id := Prefixed(prefix, x.id)));
          assert x.moduleId == m && x.passed;
        }
      }
    }
  }

  lemma CapstonesMerge(p: LearnerProgress, q: LearnerProgress, r: LearnerProgress, prefix: string)
    requires forall c :: c in Capstones(p) ==> c in Capstones(r)
    requires forall c :: c in Capstones(q) ==> KeptCapstone(Capstones(r), c, prefix)
    requires forall c :: c in Capstones(r) ==> c in Capstones(p) || CapstoneFrom(c, Capstones(q), prefix)
    ensures forall m :: HasPassingCapstone(r, m) <==> HasPassingCapstone(p, m) || HasPassingCapstone(q, m)
  {
    forall m ensures HasPassingCapstone(r, m) <==> HasPassingCapstone(p, m) || HasPassingCapstone(q, m) {
      if HasPassingCapstone(p, m) {
        var c :| c in Capstones(p) && c.moduleId == m && c.passed;
        assert c in Capstones(r);
      }
      if HasPassingCapstone(q, m) {
        var c :| c in Capstones(q) && c.moduleId == m && c.passed;
        assert KeptCapstone(Capstones(r), c, prefix);
        var d := c.(id := Prefixed(prefix, c.id));
        assert d.moduleId == m && d.passed;
      }
      if HasPassingCapstone(r, m) {
        var c :| c in Capstones(r) && c.moduleId == m && c.passed;
        if c !in Capstones(p) {
          assert CapstoneFrom(c, Capstones(q), prefix);
          var x :| x in Capstones(q) && (c == x || c == x.(id := Prefixed(prefix, x.id)));
          assert x.moduleId == m && x.passed;
        }
      }
    }
  }

  // A badge of a merged list joins badges of the two lists.
  ghost predicate EvidenceWithin(badges: seq<Badge>, modules: seq<Id>) {
    forall b :: b in badges ==> forall m :: m in b.evidenceModuleIds ==> m in modules
  }

  lemma {:induction false} PutAllWithin(badges: seq<Badge>, more: seq<Badge>, modules: seq<Id>)
    requires OneBadgePerId(badges) && EvidenceWithin(badges, modules) && EvidenceWithin(more, modules)
    ensures EvidenceWithin(PutAll(badges, more), modules)
    decreases |more|
  {
    if more != [] {
      assert more == [more[0]] + more[1..];
      PutMembers(badges, more[0]);
      PutAllWithin(Put(badges, more[0]), more[1..], modules);
    }
  }

  lemma {:induction false} AddAllWithin(badges: seq<Badge>, more: seq<Badge>, modules: seq<Id>)
    requires OneBadgePerId(badges) && EvidenceWithin(badges, modules) && EvidenceWithin(more, modules)
    ensures EvidenceWithin(AddAll(badges, more), modules)
    decreases |more|
  {
    if more != [] {
      assert more == [more[0]] + more[1..];
      var existing := Find(badges, BadgeId, more[0].id);
      var put := if existing.None? then more[0] else JoinedBadge(existing.value, more[0]);
      assert forall m :: m in put.evidenceModuleIds ==> m in modules;
      PutMembers(badges, put);
      AddAllWithin(AddBadge(badges, more[0]), more[1..], modules);
    }
  }

  lemma MergeKeepsBacked(catalog: Catalog, p: LearnerProgress, q: LearnerProgress, name: string, prefix: string)
    requires Backed(catalog, p) && Backed(catalog, q)
    ensures Backed(catalog, Merged(p, q, name, prefix))
  {
    var r := Merged(p, q, name, prefix);
    MergeExtends(p, q, name, prefix);
    forall m | m in r.completedModuleIds ensures Proven(catalog, r, m) {
      if m in p.completedModuleIds { assert Proven(catalog, p, m); } else { assert Proven(catalog, q, m); }
    }
    forall b | b in p.badges + q.badges ensures forall m :: m in b.evidenceModuleIds ==> m in r.completedModuleIds {
      assert b in p.badges ==> BadgeProven(p, b);
      assert b in q.badges ==> BadgeProven(q, b);
    }
    MergedBadgesWithin(p.badges, q.badges, r.completedModuleIds);
  }

  lemma MergedBadgesWithin(p: seq<Badge>, q: seq<Badge>, modules: seq<Id>)
    requires EvidenceWithin(p + q, modules)
    ensures OneBadgePerId(MergedBadges(p, q)) && EvidenceWithin(MergedBadges(p, q), modules)
  {
    assert EvidenceWithin(p, modules) && EvidenceWithin(q, modules) by {
      assert forall b :: b in p || b in q ==> b in p + q;
    }
    BadgesSurvive(p, q);
    PutAllKeepsOnePerId([], p);
    PutAllWithin([], p, modules);
    AddAllWithin(PutAll([], p), q, modules);
    AddAllCovers(PutAll([], p), q);
    SortKeepsOnePerId(AddAll(PutAll([], p), q));
  }

  // In every run of recording and merging, a completed module has a passing check and, where it has
  // a capstone, a passing one; a badge names completed modules only; and no badge appears twice.
  lemma {:induction false} CompletionIsAlwaysBacked(catalog: Catalog, h: History)
    ensures Backed(catalog, Outcome(catalog, h))
  {
    match h
    case Start(_) =>
    case Assess(before, input) =>
      CompletionIsAlwaysBacked(catalog, before);
      var p := Outcome(catalog, before);
      AssessExtends(catalog, p, input);
      var q := Outcome(catalog, h);
      if q != p { RecordingKeepsBacked(catalog, p, q, input.completedAt); }
    case Submit(before, input) =>
      CompletionIsAlwaysBacked(catalog, before);
      var p := Outcome(catalog, before);
      SubmitExtends(catalog, p, input);
      var q := Outcome(catalog, h);
      if q != p { RecordingKeepsBacked(catalog, p, q, input.submittedAt); }
    case Visit(before, input) =>
      CompletionIsAlwaysBacked(catalog, before);
      VisitKeepsEvidence(catalog, Outcome(catalog, before), input);
    case Merge(survivor, source, name, prefix) =>
      CompletionIsAlwaysBacked(catalog, survivor);
      CompletionIsAlwaysBacked(catalog, source);
      MergeKeepsBacked(catalog, Outcome(catalog, survivor), Outcome(catalog, source), name, prefix);
  }

  lemma VisitKeepsEvidence(catalog: Catalog, p: LearnerProgress, input: VisitInput)
    ensures var q := OrElse(RecordModuleVisit(p, catalog, input), p);
      && q.completedModuleIds == p.completedModuleIds && q.badges == p.badges
      && (Backed(catalog, p) ==> Backed(catalog, q))
      && (Awarded(catalog, p) ==> Awarded(catalog, q))
  {
    var q := OrElse(RecordModuleVisit(p, catalog, input), p);
    assert q.attempts == p.attempts && Capstones(q) == Capstones(p);
    forall m ensures Proven(catalog, q, m) <==> Proven(catalog, p, m) {
      assert HasPassingCheck(q, m) <==> HasPassingCheck(p, m);
      assert HasPassingCapstone(q, m) <==> HasPassingCapstone(p, m);
    }
    if Backed(catalog, p) {
      forall b | b in q.badges ensures BadgeProven(q, b) { assert BadgeProven(p, b); }
    }
  }

  // ---------------------------------------------------------------- evidence leads to completion

  // Every proven module is completed, and every completed path has its badge.
  ghost predicate Awarded(catalog: Catalog, p: LearnerProgress) {
    && (forall m :: Proven(catalog, p, m) ==> m in p.completedModuleIds)
    && (forall path :: path in catalog.paths && PathCompleted(path, p.completedModuleIds) ==> HoldsBadge(p.badges, path.badge.id))
  }

  lemma {:induction false} CompletedPathsGetBadges(paths: seq<LearningPath>, completed: seq<Id>, badges: seq<Badge>, at: Time)
    ensures forall path :: path in paths && PathCompleted(path, completed) ==>
      HoldsBadge(WithBadges(paths, completed, badges, at), path.badge.id)
    decreases |paths|
  {
    if paths != [] {
      var first := paths[0];
      assert paths == [first] + paths[1..];
      var b := Badge(first.badge.id, first.badge.name, first.badge.description, at, first.moduleIds);
      var start := if PathCompleted(first, completed) && !HoldsBadge(badges, first.badge.id) then badges + [b] else badges;
      CompletedPathsGetBadges(paths[1..], completed, start, at);
      if PathCompleted(first, completed) {
        assert HoldsBadge(start, first.badge.id) by { assert b in badges + [b]; }
        HoldsBadgeStays(start, WithBadges(paths, completed, badges, at), first.badge.id);
      }
    }
  }

  lemma HoldsBadgeStays(badges: seq<Badge>, more: seq<Badge>, id: Id)
    requires badges <= more && HoldsBadge(badges, id)
    ensures HoldsBadge(more, id)
  {
    var b :| b in badges && b.id == id;
    assert b in more;
  }

  ghost predicate PathsHaveModules(catalog: Catalog) {
    forall path :: path in catalog.paths ==> path.moduleIds != []
  }

  lemma AssessAwards(catalog: Catalog, p: LearnerProgress, input: AssessmentInput)
    requires Awarded(catalog, p)
    ensures Awarded(catalog, OrElse(RecordAssessmentAttempt(p, catalog, input), p))
  {
    var q := OrElse(RecordAssessmentAttempt(p, catalog, input), p);
    AssessExtends(catalog, p, input);
    if q != p {
      forall m | Proven(catalog, q, m) ensures m in q.completedModuleIds {
        if Proven(catalog, p, m) { assert m in p.completedModuleIds; }
      }
      CompletedPathsGetBadges(catalog.paths, q.completedModuleIds, p.badges, input.completedAt);
    }
  }

  lemma SubmitAwards(catalog: Catalog, p: LearnerProgress, input: CapstoneInput)
    requires Awarded(catalog, p)
    ensures Awarded(catalog, OrElse(RecordCapstoneSubmission(p, catalog, input), p))
  {
    var q := OrElse(RecordCapstoneSubmission(p, catalog, input), p);
    SubmitExtends(catalog, p, input);
    if q != p {
      forall m | Proven(catalog, q, m) ensures m in q.completedModuleIds {
        if Proven(catalog, p, m) { assert m in p.completedModuleIds; }
      }
      CompletedPathsGetBadges(catalog.paths, q.completedModuleIds, p.badges, input.submittedAt);
    }
  }

  // Without merges the converses hold as well, whichever of check and capstone came first.
  lemma {:induction false} EvidenceAlwaysCompletes(catalog: Catalog, h: History)
    requires MergeFree(h) && PathsHaveModules(catalog)
    ensures Awarded(catalog, Outcome(catalog, h))
  {
    match h
    case Start(displayName) =>
      forall path | path in catalog.paths ensures !PathCompleted(path, []) { assert path.moduleIds[0] in path.moduleIds; }
    case Assess(before, input) =>
      EvidenceAlwaysCompletes(catalog, before);
      AssessAwards(catalog, Outcome(catalog, before), input);
    case Submit(before, input) =>
      EvidenceAlwaysCompletes(catalog, before);
      SubmitAwards(catalog, Outcome(catalog, before), input);
    case Visit(before, input) =>
      EvidenceAlwaysCompletes(catalog, before);
      VisitKeepsEvidence(catalog, Outcome(catalog, before), input);
  }

  // The check of a module in one record and its capstone in the other, completed in neither.
  predicate SplitEvidence(catalog: Catalog, p: LearnerProgress, q: LearnerProgress, m: Id) {
    && CapstoneOf(catalog, m).Some?
    && m !in p.completedModuleIds && m !in q.completedModuleIds
    && ((HasPassingCheck(p, m) && HasPassingCapstone(q, m)) || (HasPassingCapstone(p, m) && HasPassingCheck(q, m)))
  }

  predicate SplitPath(p: LearnerProgress, q: LearnerProgress, path: LearningPath) {
    && PathCompleted(path, p.completedModuleIds + q.completedModuleIds)
    && !PathCompleted(path, p.completedModuleIds) && !PathCompleted(path, q.completedModuleIds)
    && !HoldsBadge(p.badges, path.badge.id) && !HoldsBadge(q.badges, path.badge.id)
  }

  lemma MergedBadgeIds(p: seq<Badge>, q: seq<Badge>, id: Id)
    requires OneBadgePerId(p)
    ensures HoldsBadge(MergedBadges(p, q), id) <==> HoldsBadge(p, id) || HoldsBadge(q, id)
  {
    BadgesSurvive(p, q);
    var r := MergedBadges(p, q);
    if HoldsBadge(p, id) {
      var b :| b in p && b.id == id;
      assert KeptBadge(r, b);
    }
    if HoldsBadge(q, id) {
      var b :| b in q && b.id == id;
      assert KeptBadge(r, b);
    }
    if HoldsBadge(r, id) {
      assert [] + p == p;
      PutAllOfDistinct([], p);
      AddAllCovers(p, q);
      SortKeepsOnePerId(AddAll(p, q));
      AddAllInventsNothing(p, q, id);
    }
  }

  lemma {:induction false} AddAllInventsNothing(badges: seq<Badge>, more: seq<Badge>, id: Id)
    requires OneBadgePerId(badges) && HoldsBadge(AddAll(badges, more), id)
    ensures HoldsBadge(badges, id) || HoldsBadge(more, id)
    decreases |more|
  {
    if more != [] {
      assert more == [more[0]] + more[1..];
      var existing := Find(badges, BadgeId, more[0].id);
      var put := if existing.None? then more[0] else JoinedBadge(existing.value, more[0]);
      PutMembers(badges, put);
      AddAllInventsNothing(Put(badges, put), more[1..], id);
    }
  }

  // A merge of two records that lack nothing lacks nothing exactly if no module's evidence and no
  // path's completions are split between them.
  lemma MergeAwardsExactlyWithoutSplits(catalog: Catalog, p: LearnerProgress, q: LearnerProgress, name: string, prefix: string)
    requires Awarded(catalog, p) && Awarded(catalog, q) && OneBadgePerId(p.badges)
    ensures Awarded(catalog, Merged(p, q, name, prefix)) <==>
      && (forall m :: !SplitEvidence(catalog, p, q, m))
      && (forall path :: path in catalog.paths ==> !SplitPath(p, q, path))
  {
    var r := Merged(p, q, name, prefix);
    MergeExtends(p, q, name, prefix);
    assert forall m :: m in r.completedModuleIds <==> m in p.completedModuleIds || m in q.completedModuleIds;
    forall m ensures (Proven(catalog, r, m) && m !in r.completedModuleIds) <==> SplitEvidence(catalog, p, q, m) {
      SplitMeansUnawarded(catalog, p, q, r, m);
    }
    forall path | path in catalog.paths
      ensures (PathCompleted(path, r.completedModuleIds) && !HoldsBadge(r.badges, path.badge.id)) <==> SplitPath(p, q, path)
    {
      MergedBadgeIds(p.badges, q.badges, path.badge.id);
      assert PathCompleted(path, r.completedModuleIds) <==> PathCompleted(path, p.completedModuleIds + q.completedModuleIds);
    }
  }

  lemma SplitMeansUnawarded(catalog: Catalog, p: LearnerProgress, q: LearnerProgress, r: LearnerProgress, m: Id)
    requires Proven(catalog, p, m) ==> m in p.completedModuleIds
    requires Proven(catalog, q, m) ==> m in q.completedModuleIds
    requires m in r.completedModuleIds <==> m in p.completedModuleIds || m in q.completedModuleIds
    requires HasPassingCheck(r, m) <==> HasPassingCheck(p, m) || HasPassingCheck(q, m)
    requires HasPassingCapstone(r, m) <==> HasPassingCapstone(p, m) || HasPassingCapstone(q, m)
    ensures (Proven(catalog, r, m) && m !in r.completedModuleIds) <==> SplitEvidence(catalog, p, q, m)
  {
  }

  // So a learner whose check and capstone were recorded apart has both after the merge, and yet
  // the module is not completed.
  lemma SplitWorkIsNotCompleted(catalog: Catalog, a: AssessmentInput, c: CapstoneInput, name: string, prefix: string)
    requires a.moduleId == c.moduleId && a.passed && Placed(catalog, a.pathId, a.moduleId)
    requires Submission(EmptyProgress(name), catalog, c).Ok? && Submission(EmptyProgress(name), catalog, c).value.passed
    ensures var r := Outcome(catalog, Merge(Assess(Start(name), a), Submit(Start(name), c), name, prefix));
      Proven(catalog, r, a.moduleId) && a.moduleId !in r.completedModuleIds
  {
    SubmissionNeedsACapstone(EmptyProgress(name), catalog, c);
    CheckAlone(catalog, a, name);
    CapstoneAlone(catalog, c, name);
    MergeOfHalves(catalog, Assess(Start(name), a), Submit(Start(name), c), a.moduleId, name, prefix);
  }

  // One path with one module, whose capstone has one criterion.
  const SAMPLE_SPEC := CapstoneSpec([], false, [Criterion("c", 1)], 100)
  const SAMPLE := Catalog("v", [LearningPath("p", "t", ["m"], PathBadge("b", "n", "d"))], [LearningModule("m", Some(SAMPLE_SPEC))])
  const SAMPLE_CHECK := AssessmentInput("a", "p", "m", 1, 100, true)
  const SAMPLE_WORK := CapstoneInput("s", "p", "m", 2, [], [CriterionScore("c", 1, None)], "r")

  lemma SampleWorkPasses(name: string)
    ensures Submission(EmptyProgress(name), SAMPLE, SAMPLE_WORK).Ok? && Submission(EmptyProgress(name), SAMPLE, SAMPLE_WORK).value.passed
  {
    var scores := SAMPLE_WORK.criterionScores;
    assert CapstoneOf(SAMPLE, "m") == Some(SAMPLE_SPEC) && Placed(SAMPLE, "p", "m");
    assert !Blank("r") by { assert "r"[0] in "r" && !IsSpace('r'); }
    assert CriterionIds(scores) == {"c"};
    assert ScoreFor(scores, "c") == Some(scores[0]);
    assert SAMPLE_SPEC.criteria[1..] == [];
    var allowed := AllowedRefs([], "p", "m", []);
    assert ScoreCriteria(SAMPLE_SPEC, SAMPLE_SPEC.criteria, scores, allowed, Points(0, 0)) == Ok(Points(1, 1));
    assert Percent(Points(1, 1)) == Some(100);
  }

  // For example in this catalogue, with a passed check and a passed capstone recorded apart.
  lemma SampleWorkIsNotCompleted(name: string, prefix: string)
    ensures var r := Outcome(SAMPLE, Merge(Assess(Start(name), SAMPLE_CHECK), Submit(Start(name), SAMPLE_WORK), name, prefix));
      Proven(SAMPLE, r, "m") && "m" !in r.completedModuleIds
  {
    SampleWorkPasses(name);
    assert Placed(SAMPLE, "p", "m");
    SplitWorkIsNotCompleted(SAMPLE, SAMPLE_CHECK, SAMPLE_WORK, name, prefix);
  }

  lemma MergeOfHalves(catalog: Catalog, h: History, k: History, m: Id, name: string, prefix: string)
    requires Outcome(catalog, h).completedModuleIds == [] && Outcome(catalog, k).completedModuleIds == []
    requires HasPassingCheck(Outcome(catalog, h), m) && HasPassingCapstone(Outcome(catalog, k), m)
    ensures var r := Outcome(catalog, Merge(h, k, name, prefix)); Proven(catalog, r, m) && m !in r.completedModuleIds
  {
    MergeExtends(Outcome(catalog, h), Outcome(catalog, k), name, prefix);
  }

  lemma SubmissionNeedsACapstone(p: LearnerProgress, catalog: Catalog, c: CapstoneInput)
    requires Submission(p, catalog, c).Ok?
    ensures CapstoneOf(catalog, c.moduleId).Some?
  {
  }

  lemma CheckAlone(catalog: Catalog, a: AssessmentInput, name: string)
    requires a.passed && Placed(catalog, a.pathId, a.moduleId) && CapstoneOf(catalog, a.moduleId).Some?
    ensures var p := Outcome(catalog, Assess(Start(name), a));
      p.completedModuleIds == [] && HasPassingCheck(p, a.moduleId)
  {
    var start := EmptyProgress(name);
    assert Outcome(catalog, Start(name)) == start;
    var p := Outcome(catalog, Assess(Start(name), a));
    assert !HasPassingCapstone(start, a.moduleId);
    assert p == RecordAssessmentAttempt(start, catalog, a).value;
    var attempt := Attempt(a.attemptId, a.pathId, a.moduleId, catalog.contentVersion, a.scorePercent, a.passed, a.completedAt);
    assert p.attempts == [] + [attempt] && attempt in p.attempts;
  }

  lemma CapstoneAlone(catalog: Catalog, c: CapstoneInput, name: string)
    requires Submission(EmptyProgress(name), catalog, c).Ok? && Submission(EmptyProgress(name), catalog, c).value.passed
    ensures var q := Outcome(catalog, Submit(Start(name), c));
      q.completedModuleIds == [] && HasPassingCapstone(q, c.moduleId)
  {
    var start := EmptyProgress(name);
    assert Outcome(catalog, Start(name)) == start;
    var q := Outcome(catalog, Submit(Start(name), c));
    assert !HasPassingCheck(start, c.moduleId);
    assert q == RecordCapstoneSubmission(start, catalog, c).value;
    var submission := Submission(start, catalog, c).value;
    assert Capstones(q) == [] + [submission] && submission in Capstones(q);
  }

  // -------------------------------------------------------------------------- paths that were started

  // Whatever was done in a path, the path counts as started, and none is listed twice.
  ghost predicate ActivityIsStarted(p: LearnerProgress) {
    && Distinct(p.startedPathIds) && Distinct(p.completedModuleIds)
    && (forall a :: a in p.attempts ==> a.pathId in p.startedPathIds)
    && (forall c :: c in Capstones(p) ==> c.pathId in p.startedPathIds)
    && (p.recentModule.Some? ==> p.recentModule.value.pathId in p.startedPathIds)
  }

  lemma MergeKeepsStarted(p: LearnerProgress, q: LearnerProgress, name: string, prefix: string)
    requires ActivityIsStarted(p) && ActivityIsStarted(q)
    ensures ActivityIsStarted(Merged(p, q, name, prefix))
  {
    var r := Merged(p, q, name, prefix);
    AttemptsSurvive(p.attempts, q.attempts, prefix);
    CapstonesSurvive(Capstones(p), Capstones(q), prefix);
    forall a | a in r.attempts ensures a.pathId in r.startedPathIds {
      assert a in p.attempts || AttemptFrom(a, q.attempts, prefix);
    }
    forall c | c in Capstones(r) ensures c.pathId in r.startedPathIds {
      assert c in Capstones(p) || CapstoneFrom(c, Capstones(q), prefix);
    }
  }

  lemma RecordingKeepsStarted(catalog: Catalog, h: History)
    requires !h.Start? && !h.Merge? && ActivityIsStarted(Outcome(catalog, h.before))
    ensures ActivityIsStarted(Outcome(catalog, h))
  {
    var p, q := Outcome(catalog, h.before), Outcome(catalog, h);
    if h.Assess? && q != p {
      assert Capstones(q) == Capstones(p);
    } else if h.Submit? && q != p {
      assert Capstones(q) == Capstones(p) + [Submission(p, catalog, h.capstone).value];
    } else if h.Visit? {
      assert Capstones(q) == Capstones(p);
    }
  }

  lemma {:induction false} ActivityIsAlwaysStarted(catalog: Catalog, h: History)
    ensures ActivityIsStarted(Outcome(catalog, h))
  {
    match h
    case Start(_) =>
    case Merge(survivor, source, name, prefix) =>
      ActivityIsAlwaysStarted(catalog, survivor);
      ActivityIsAlwaysStarted(catalog, source);
      MergeKeepsStarted(Outcome(catalog, survivor), Outcome(catalog, source), name, prefix);
    case _ =>
      ActivityIsAlwaysStarted(catalog, h.before);
      RecordingKeepsStarted(catalog, h);
  }

  // --------------------------------------------------------------------------------- repeated calls

  predicate HoldsAttempt(p: LearnerProgress, id: Id) { exists a :: a in p.attempts && a.id == id }
  predicate HoldsCapstone(p: LearnerProgress, id: Id) { exists c :: c in Capstones(p) && c.id == id }

  // The later history goes on from the earlier one, on its own or merged with others on either side.
  predicate Later(later: History, earlier: History) {
    later == earlier ||
    match later
    case Start(_) => false
    case Assess(before, _) => Later(before, earlier)
    case Submit(before, _) => Later(before, earlier)
    case Visit(before, _) => Later(before, earlier)
    case Merge(survivor, source, _, _) => Later(survivor, earlier) || Later(source, earlier)
  }

  lemma MergeKeepsIds(p: LearnerProgress, q: LearnerProgress, name: string, prefix: string, id: Id)
    ensures HoldsAttempt(p, id) || HoldsAttempt(q, id) ==> HoldsAttempt(Merged(p, q, name, prefix), id)
    ensures HoldsCapstone(p, id) || HoldsCapstone(q, id) ==> HoldsCapstone(Merged(p, q, name, prefix), id)
  {
    var attempts := p.attempts + Absorb(p.attempts, q.attempts, IdSet(p.attempts, AttemptId), AttemptId, RenameAttempt, prefix);
    var capstones := Capstones(p)
      + Absorb(Capstones(p), Capstones(q), IdSet(Capstones(p), CapstoneId), CapstoneId, RenameCapstone, prefix);
    TimeOrdersAreTotal();
    SortIsSortedPermutation(attempts, AttemptLe);
    SortIsSortedPermutation(capstones, CapstoneLe);
    if HoldsAttempt(p, id) || HoldsAttempt(q, id) {
      AbsorbKeepsIds(p.attempts, p.attempts, q.attempts, IdSet(p.attempts, AttemptId), AttemptId, RenameAttempt, prefix, id);
      var a :| a in attempts && AttemptId(a) == id;
      assert a in Sort(attempts, AttemptLe);
    }
    if HoldsCapstone(p, id) || HoldsCapstone(q, id) {
      AbsorbKeepsIds(Capstones(p), Capstones(p), Capstones(q), IdSet(Capstones(p), CapstoneId), CapstoneId, RenameCapstone, prefix, id);
      var c :| c in capstones && CapstoneId(c) == id;
      assert c in Sort(capstones, CapstoneLe);
    }
  }

  lemma RecordingKeepsIds(catalog: Catalog, h: History, id: Id)
    requires !h.Start? && !h.Merge?
    ensures HoldsAttempt(Outcome(catalog, h.before), id) ==> HoldsAttempt(Outcome(catalog, h), id)
    ensures HoldsCapstone(Outcome(catalog, h.before), id) ==> HoldsCapstone(Outcome(catalog, h), id)
  {
    var p, q := Outcome(catalog, h.before), Outcome(catalog, h);
    assert p.attempts <= q.attempts && Capstones(p) <= Capstones(q);
    if a :| a in p.attempts && a.id == id { assert a in q.attempts; }
    if c :| c in Capstones(p) && c.id == id { assert c in Capstones(q); }
  }

  lemma {:induction false} IdsStay(catalog: Catalog, later: History, earlier: History, id: Id)
    requires Later(later, earlier)
    ensures HoldsAttempt(Outcome(catalog, earlier), id) ==> HoldsAttempt(Outcome(catalog, later), id)
    ensures HoldsCapstone(Outcome(catalog, earlier), id) ==> HoldsCapstone(Outcome(catalog, later), id)
  {
    if later != earlier {
      match later
      case Merge(survivor, source, name, prefix) =>
        if Later(survivor, earlier) { IdsStay(catalog, survivor, earlier, id); } else { IdsStay(catalog, source, earlier, id); }
        MergeKeepsIds(Outcome(catalog, survivor), Outcome(catalog, source), name, prefix, id);
      case Start(_) =>
      case Visit(before, _) =>
        IdsStay(catalog, before, earlier, id);
        RecordingKeepsIds(catalog, later, id);
      case Assess(before, _) =>
        IdsStay(catalog, before, earlier, id);
        RecordingKeepsIds(catalog, later, id);
      case Submit(before, _) =>
        IdsStay(catalog, before, earlier, id);
        RecordingKeepsIds(catalog, later, id);
    }
  }

  // Recording the same attempt or submission again, at any later point of any history, merges included, changes
  // nothing.
  lemma RecordingIsIdempotent(catalog: Catalog, later: History, earlier: History)
    requires Later(later, earlier)
    ensures earlier.Assess? && RecordAssessmentAttempt(Outcome(catalog, earlier.before), catalog, earlier.assessment).Ok? ==>
      RecordAssessmentAttempt(Outcome(catalog, later), catalog, earlier.assessment) == Ok(Outcome(catalog, later))
    ensures earlier.Submit? && RecordCapstoneSubmission(Outcome(catalog, earlier.before), catalog, earlier.capstone).Ok? ==>
      RecordCapstoneSubmission(Outcome(catalog, later), catalog, earlier.capstone) == Ok(Outcome(catalog, later))
  {
    if earlier.Assess? && RecordAssessmentAttempt(Outcome(catalog, earlier.before), catalog, earlier.assessment).Ok? {
      AttemptIsRecorded(catalog, Outcome(catalog, earlier.before), earlier.assessment);
      IdsStay(catalog, later, earlier, earlier.assessment.attemptId);
    }
    if earlier.Submit? && RecordCapstoneSubmission(Outcome(catalog, earlier.before), catalog, earlier.capstone).Ok? {
      SubmissionIsRecorded(catalog, Outcome(catalog, earlier.before), earlier.capstone);
      IdsStay(catalog, later, earlier, earlier.capstone.submissionId);
    }
  }

  lemma AttemptIsRecorded(catalog: Catalog, p: LearnerProgress, a: AssessmentInput)
    requires RecordAssessmentAttempt(p, catalog, a).Ok?
    ensures exists x :: x in RecordAssessmentAttempt(p, catalog, a).value.attempts && x.id == a.attemptId
  {
    var q := RecordAssessmentAttempt(p, catalog, a).value;
    if !(exists x :: x in p.attempts && x.id == a.attemptId) {
      var added := q.attempts[|p.attempts|];
      assert added in q.attempts;
    }
  }

  lemma SubmissionIsRecorded(catalog: Catalog, p: LearnerProgress, c: CapstoneInput)
    requires RecordCapstoneSubmission(p, catalog, c).Ok?
    ensures exists x :: x in Capstones(RecordCapstoneSubmission(p, catalog, c).value) && x.id == c.submissionId
  {
    var q := RecordCapstoneSubmission(p, catalog, c).value;
    if !(exists x :: x in Capstones(p) && x.id == c.submissionId) {
      var added := Submission(p, catalog, c).value;
      assert Capstones(q) == Capstones(p) + [added] && added in Capstones(q);
    }
  }
}
