/** What the projection handed to callers says about the tables it is made from (src/learning-event-engine.ts:516-541,
    747-813), place by place and number by number. */
module ProjectionViews {
  import opened Wrappers
  import Sequences
  import opened Rounding
  import opened LearningEvents
  import opened Projection
  import opened ProjectionTheory

  // The module at a place of the enrollment's list is completed.
  predicate CompletedPlace(t: Tables, e: Enrollment, i: nat)
    requires i < |e.moduleIds|
  {
    var key := ModuleKey(e.pathId, e.moduleIds[i], e.contentVersion);
    key in t.modules && t.modules[key].completed
  }

  // The places of the list whose modules are completed.
  ghost function CompletedPlaces(t: Tables, e: Enrollment): set<nat> {
    set i: nat | i < |e.moduleIds| && CompletedPlace(t, e, i)
  }

  predicate AttemptOfPath(a: Attempt, pathId: Id, contentVersion: Id) {
    a.pathId == pathId && a.contentVersion == contentVersion
  }

  // The best effective score of the attempts at the path in its content version, if there are any.
  ghost predicate BestOfPath(best: Option<int>, t: Tables, pathId: Id, contentVersion: Id) {
    match best
    case None => forall a :: a in t.attempts ==> !AttemptOfPath(t.attempts[a], pathId, contentVersion)
    case Some(score) =>
      && (exists a :: a in t.attempts && AttemptOfPath(t.attempts[a], pathId, contentVersion) && t.attempts[a].effectiveScorePercent == score)
      && (forall a :: a in t.attempts && AttemptOfPath(t.attempts[a], pathId, contentVersion) ==> t.attempts[a].effectiveScorePercent <= score)
  }

  lemma {:induction false} SameSize(places: set<nat>, keys: set<ModuleKey>, e: Enrollment)
    requires forall i :: i in places ==> i < |e.moduleIds| && ModuleKey(e.pathId, e.moduleIds[i], e.contentVersion) in keys
    requires forall k :: k in keys ==> exists i :: i in places && i < |e.moduleIds| && k == ModuleKey(e.pathId, e.moduleIds[i], e.contentVersion)
    requires Sequences.Distinct(e.moduleIds)
    ensures |places| == |keys|
    decreases places
  {
    if places == {} {
      assert keys == {} by { if k :| k in keys { assert false; } }
    } else {
      var i :| i in places;
      var key := ModuleKey(e.pathId, e.moduleIds[i], e.contentVersion);
      forall j | j in places - {i} ensures j < |e.moduleIds| && ModuleKey(e.pathId, e.moduleIds[j], e.contentVersion) in keys - {key} {
        assert i < j ==> e.moduleIds[i] != e.moduleIds[j];
        assert j < i ==> e.moduleIds[j] != e.moduleIds[i];
      }
      forall k | k in keys - {key}
        ensures exists j :: j in places - {i} && j < |e.moduleIds| && k == ModuleKey(e.pathId, e.moduleIds[j], e.contentVersion)
      {
        var j :| j in places && j < |e.moduleIds| && k == ModuleKey(e.pathId, e.moduleIds[j], e.contentVersion);
        assert j in places - {i};
      }
      SameSize(places - {i}, keys - {key}, e);
    }
  }

  lemma CompletedCounted(t: Tables, e: Enrollment)
    requires Sequences.Distinct(e.moduleIds)
    ensures |CompletedOf(t, e)| == |CompletedPlaces(t, e)|
  {
    var places, keys := CompletedPlaces(t, e), CompletedOf(t, e);
    forall k | k in keys
      ensures exists i :: i in places && i < |e.moduleIds| && k == ModuleKey(e.pathId, e.moduleIds[i], e.contentVersion)
    {
      var i :| 0 <= i < |e.moduleIds| && e.moduleIds[i] == k.moduleId;
      assert k == ModuleKey(e.pathId, e.moduleIds[i], e.contentVersion);
      assert CompletedPlace(t, e, i) && i in places;
    }
    SameSize(places, keys, e);
  }

  lemma AllPlacesExactly(t: Tables, e: Enrollment)
    ensures |CompletedPlaces(t, e)| <= |e.moduleIds|
    ensures |CompletedPlaces(t, e)| == |e.moduleIds| <==> forall i :: 0 <= i < |e.moduleIds| ==> CompletedPlace(t, e, i)
  {
    var places, all := CompletedPlaces(t, e), Sequences.PlacesBelow(|e.moduleIds|);
    assert places <= all;
    Sequences.SubsetSize(places, all);
    if |places| == |all| {
      forall i | 0 <= i < |e.moduleIds| ensures CompletedPlace(t, e, i) { assert i in all; }
    } else {
      assert places != all;
      var i :| i in all && i !in places;
      assert !CompletedPlace(t, e, i);
    }
  }

  lemma PercentIsNearest(part: nat, whole: nat)
    requires whole > 0
    ensures NearestPercent(Percent(part, whole), part, whole)
  {
    QuotientIsNearest(part, whole);
  }

  // For every log that replays and every enrollment: the transcript counts the places of the module list whose
  // modules are completed, all of them exactly if the badge is earned, gives their share to the nearest hundredth,
  // and the best effective score of the path's attempts.
  lemma TranscriptExactly(events: seq<Event>, scope: Scope, key: PathKey)
    requires Replays(events, scope)
    ensures var p := Project(events, scope).value;
      p.tables == ReplayFrom(EMPTY_REPLAY, events, scope).value.tables && p.transcript.Keys == p.tables.enrollments.Keys
    ensures var p := Project(events, scope).value; key in p.transcript ==>
      var e, entry := p.tables.enrollments[key], p.transcript[key];
      && entry.pathTitle == e.pathTitle && key == PathKey(e.pathId, e.contentVersion)
      && entry.completedModules == |CompletedPlaces(p.tables, e)| && entry.totalModules == |e.moduleIds| > 0
      && (entry.completedModules == entry.totalModules <==> key in p.badges)
      && NearestPercent(entry.completionPercent, entry.completedModules, entry.totalModules)
      && BestOfPath(entry.bestScorePercent, p.tables, e.pathId, e.contentVersion)
  {
    var p := Project(events, scope).value;
    var t := p.tables;
    ReplayKeepsWellFormed(EMPTY_REPLAY, events, scope);
    if key in t.enrollments {
      var e := t.enrollments[key];
      CompletedCounted(t, e);
      AllPlacesExactly(t, e);
      BadgeExactlyWhenAllCompleted(events, scope, key);
      PercentIsNearest(|CompletedOf(t, e)|, |e.moduleIds|);
      AllInTheList(t, e);
      BestIsOfPath(t, e);
    }
  }

  lemma AllInTheList(t: Tables, e: Enrollment)
    ensures (forall i :: 0 <= i < |e.moduleIds| ==> CompletedPlace(t, e, i)) <==>
            (forall m :: m in e.moduleIds ==> ModuleAt(t, ModuleKey(e.pathId, m, e.contentVersion)).completed)
  {
    if forall m :: m in e.moduleIds ==> ModuleAt(t, ModuleKey(e.pathId, m, e.contentVersion)).completed {
      forall i | 0 <= i < |e.moduleIds| ensures CompletedPlace(t, e, i) { assert e.moduleIds[i] in e.moduleIds; }
    }
    if forall i :: 0 <= i < |e.moduleIds| ==> CompletedPlace(t, e, i) {
      forall m | m in e.moduleIds ensures ModuleAt(t, ModuleKey(e.pathId, m, e.contentVersion)).completed {
        var i :| 0 <= i < |e.moduleIds| && e.moduleIds[i] == m;
        assert CompletedPlace(t, e, i);
      }
    }
  }

  lemma BestIsOfPath(t: Tables, e: Enrollment)
    ensures BestOfPath(Best(t.attempts, AttemptsOf(t, e)), t, e.pathId, e.contentVersion)
  {
    var ids := AttemptsOf(t, e);
    assert forall a :: a in ids <==> a in t.attempts && AttemptOfPath(t.attempts[a], e.pathId, e.contentVersion);
  }

  // A badge is that of its enrollment, for all its modules, at the last of their completion times.
  lemma BadgesExactly(events: seq<Event>, scope: Scope, key: PathKey)
    requires Replays(events, scope)
    ensures var p := Project(events, scope).value;
      && (key in p.badges <==>
            && key in p.tables.enrollments
            && forall i :: 0 <= i < |p.tables.enrollments[key].moduleIds| ==> CompletedPlace(p.tables, p.tables.enrollments[key], i))
      && (key in p.badges ==>
            var e, b := p.tables.enrollments[key], p.badges[key];
            && b.badge == e.badge && b.evidenceModuleIds == e.moduleIds
            && (exists m :: m in e.moduleIds && CompletedAt(p.tables, e, m, b.earnedAt))
            && (forall m, at :: m in e.moduleIds && CompletedAt(p.tables, e, m, at) ==> at <= b.earnedAt))
  {
    var t := Project(events, scope).value.tables;
    if key in t.enrollments {
      ReplayKeepsWellFormed(EMPTY_REPLAY, events, scope);
      BadgeExactlyWhenAllCompleted(events, scope, key);
      AllInTheList(t, t.enrollments[key]);
    }
  }

  // The last import of a log, if it has one.
  predicate IsLastImport(events: seq<Event>, k: nat) {
    && k < |events| && events[k].body.payload.ProgressImported?
    && forall j :: k < j < |events| ==> !events[j].body.payload.ProgressImported?
  }

  // The snapshot is that of the last import, with its number and time; revision and last number are those of the log.
  lemma {:induction false} SnapshotExactly(events: seq<Event>, scope: Scope)
    requires Replays(events, scope)
    ensures var p := Project(events, scope).value;
      && p.scope == scope && p.revision == |events| && p.lastSequence == (if events == [] then 0 else events[|events| - 1].sequence)
      && (NoImport(events) ==> p.snapshot == None && p.snapshotSequence == 0 && p.synchronizedAt == None)
      && (forall k: nat :: IsLastImport(events, k) ==>
            && p.snapshot == Some(events[k].body.payload.progress) && p.snapshotSequence == events[k].sequence
            && p.synchronizedAt == Some(events[k].body.payload.synchronizedAt))
    decreases |events|
  {
    LastSequence(EMPTY_REPLAY, events, scope);
    if events != [] {
      var n := |events| - 1;
      var prior := events[..n];
      assert events == prior + [events[n]];
      ReplaySnoc(EMPTY_REPLAY, prior, events[n], scope);
      SnapshotExactly(prior, scope);
      forall k: nat | IsLastImport(events, k) && k < n ensures IsLastImport(prior, k) {}
    }
  }
}
