/** In which order a merged record lists what it holds, and what its remaining fields are (src/progress.ts:196-257),
    said about the times and identifiers themselves. */
module MergeOrder {
  import opened Wrappers
  import opened Sequences
  import opened Sorting
  import opened StableSorting
  import opened Progress
  import opened ProgressMerge
  import opened MergeTheorems

  // -------------------------------------------------------------------- attempts and submissions

  // The records that are added come from the source at rising places.
  ghost predicate Rising(at: seq<nat>, n: nat) {
    (forall i :: 0 <= i < |at| ==> at[i] < n) && (forall i, j :: 0 <= i < j < |at| ==> at[i] < at[j])
  }

  // The places in a list are places in the list with an element before it.
  function Shifted(at: seq<nat>): (r: seq<nat>)
    ensures |r| == |at| && forall i :: 0 <= i < |at| ==> r[i] == at[i] + 1
  {
    seq(|at|, i requires 0 <= i < |at| => at[i] + 1)
  }

  lemma ShiftedRises(at: seq<nat>, n: nat)
    requires Rising(at, n)
    ensures Rising(Shifted(at), n + 1) && Rising([0] + Shifted(at), n + 1)
  {
  }

  predicate TakenFrom<T(==)>(added: seq<T>, source: seq<T>, at: seq<nat>, id: T -> Id, rename: (T, Id) -> T, prefix: string) {
    && |at| == |added|
    && forall i :: 0 <= i < |at| ==>
         at[i] < |source| && (added[i] == source[at[i]] || added[i] == rename(source[at[i]], Prefixed(prefix, id(source[at[i]]))))
  }

  lemma TakenFromRest<T>(added: seq<T>, source: seq<T>, at: seq<nat>, id: T -> Id, rename: (T, Id) -> T, prefix: string)
    requires source != [] && TakenFrom(added, source[1..], at, id, rename, prefix)
    ensures TakenFrom(added, source, Shifted(at), id, rename, prefix)
    ensures forall x :: x == source[0] || x == rename(source[0], Prefixed(prefix, id(source[0]))) ==>
      TakenFrom([x] + added, source, [0] + Shifted(at), id, rename, prefix)
  {
    assert forall i :: 0 <= i < |at| ==> source[1..][at[i]] == source[Shifted(at)[i]];
  }

  lemma {:induction false} AbsorbFollows<T>(
    survivor: seq<T>, source: seq<T>, ids: set<Id>, id: T -> Id, rename: (T, Id) -> T, prefix: string) returns (at: seq<nat>)
    ensures TakenFrom(Absorb(survivor, source, ids, id, rename, prefix), source, at, id, rename, prefix) && Rising(at, |source|)
    decreases |source|
  {
    if source == [] {
      at := [];
    } else {
      var x := source[0];
      var known := id(x) in ids && Find(survivor, id, id(x)) == Some(x);
      var ids' := if id(x) !in ids then ids + {id(x)} else if known then ids else ids + {Prefixed(prefix, id(x))};
      var rest := AbsorbFollows(survivor, source[1..], ids', id, rename, prefix);
      ShiftedRises(rest, |source| - 1);
      TakenFromRest(Absorb(survivor, source[1..], ids', id, rename, prefix), source, rest, id, rename, prefix);
      at := if known then Shifted(rest) else [0] + Shifted(rest);
    }
  }

  function AttemptsAt(attempts: seq<Attempt>, time: Time): seq<Attempt> {
    Select(attempts, (a: Attempt) => a.completedAt == time)
  }

  function CapstonesAt(capstones: seq<Capstone>, time: Time): seq<Capstone> {
    Select(capstones, (c: Capstone) => c.submittedAt == time)
  }

  // The attempts of a merged record come in the order of their times. Those of one time are the survivor's, in its
  // order, and then those taken over from the source, in its order.
  lemma MergedAttemptsInOrder(survivor: LearnerProgress, source: LearnerProgress, name: string, prefix: string)
    returns (added: seq<Attempt>, at: seq<nat>)
    ensures var merged := Merged(survivor, source, name, prefix).attempts;
      && (forall i, j :: 0 <= i < j < |merged| ==> merged[i].completedAt <= merged[j].completedAt)
      && Permutation(merged, survivor.attempts + added)
      && (forall time :: AttemptsAt(merged, time) == AttemptsAt(survivor.attempts, time) + AttemptsAt(added, time))
    ensures |at| == |added| && Rising(at, |source.attempts|)
    ensures forall i :: 0 <= i < |at| ==> var a := source.attempts[at[i]];
      added[i] == a || added[i] == a.(id := prefix + ":" + a.id)
  {
    added := Absorb(survivor.attempts, source.attempts, IdSet(survivor.attempts, AttemptId), AttemptId, RenameAttempt, prefix);
    at := AbsorbFollows(survivor.attempts, source.attempts, IdSet(survivor.attempts, AttemptId), AttemptId, RenameAttempt, prefix);
    TimeOrdersAreTotal();
    var all := survivor.attempts + added;
    SortIsSortedPermutation(all, AttemptLe);
    var merged := Sort(all, AttemptLe);
    forall i, j | 0 <= i < j < |merged| ensures merged[i].completedAt <= merged[j].completedAt {
      assert AttemptLe(merged[i], merged[j]);
    }
    forall time ensures AttemptsAt(merged, time) == AttemptsAt(survivor.attempts, time) + AttemptsAt(added, time) {
      var then_ := (a: Attempt) => a.completedAt == time;
      SortIsStable(all, AttemptLe, then_);
      SelectOfConcat(survivor.attempts, added, then_);
    }
  }

  // The same of submissions.
  lemma MergedCapstonesInOrder(survivor: LearnerProgress, source: LearnerProgress, name: string, prefix: string)
    returns (added: seq<Capstone>, at: seq<nat>)
    ensures var merged := Capstones(Merged(survivor, source, name, prefix));
      && (forall i, j :: 0 <= i < j < |merged| ==> merged[i].submittedAt <= merged[j].submittedAt)
      && Permutation(merged, Capstones(survivor) + added)
      && (forall time :: CapstonesAt(merged, time) == CapstonesAt(Capstones(survivor), time) + CapstonesAt(added, time))
    ensures |at| == |added| && Rising(at, |Capstones(source)|)
    ensures forall i :: 0 <= i < |at| ==> var c := Capstones(source)[at[i]];
      added[i] == c || added[i] == c.(id := prefix + ":" + c.id)
  {
    var mine, theirs := Capstones(survivor), Capstones(source);
    added := Absorb(mine, theirs, IdSet(mine, CapstoneId), CapstoneId, RenameCapstone, prefix);
    at := AbsorbFollows(mine, theirs, IdSet(mine, CapstoneId), CapstoneId, RenameCapstone, prefix);
    TimeOrdersAreTotal();
    var all := mine + added;
    SortIsSortedPermutation(all, CapstoneLe);
    var merged := Sort(all, CapstoneLe);
    forall i, j | 0 <= i < j < |merged| ensures merged[i].submittedAt <= merged[j].submittedAt {
      assert CapstoneLe(merged[i], merged[j]);
    }
    forall time ensures CapstonesAt(merged, time) == CapstonesAt(mine, time) + CapstonesAt(added, time) {
      var then_ := (c: Capstone) => c.submittedAt == time;
      SortIsStable(all, CapstoneLe, then_);
      SelectOfConcat(mine, added, then_);
    }
  }

  // -------------------------------------------------------------------------------------- badges

  // A badge with its time and each of its modules taken from badges of its identifier in the pool.
  predicate DrawnFrom(e: Badge, pool: seq<Badge>) {
    && (exists b :: b in pool && b.id == e.id && b.earnedAt == e.earnedAt)
    && (exists b :: b in pool && b.id == e.id && b.name == e.name && b.description == e.description)
    && (forall m :: m in e.evidenceModuleIds ==> exists b :: b in pool && b.id == e.id && m in b.evidenceModuleIds)
  }

  ghost predicate AllDrawnFrom(badges: seq<Badge>, pool: seq<Badge>) {
    forall e :: e in badges ==> DrawnFrom(e, pool)
  }

  lemma {:induction false} PutHolds(badges: seq<Badge>, b: Badge, e: Badge)
    requires e in Put(badges, b)
    ensures e == b || e in badges
  {
    if badges != [] && badges[0].id != b.id && e != badges[0] { PutHolds(badges[1..], b, e); }
  }

  lemma JoinedIsDrawn(existing: Badge, b: Badge, pool: seq<Badge>)
    requires DrawnFrom(existing, pool) && b in pool && existing.id == b.id
    ensures DrawnFrom(JoinedBadge(existing, b), pool)
  {
    var joined := JoinedBadge(existing, b);
    forall m | m in joined.evidenceModuleIds ensures exists c :: c in pool && c.id == joined.id && m in c.evidenceModuleIds {
      assert m in existing.evidenceModuleIds + b.evidenceModuleIds;
    }
  }

  lemma {:induction false} AddAllDraws(badges: seq<Badge>, more: seq<Badge>, pool: seq<Badge>)
    requires AllDrawnFrom(badges, pool) && forall b :: b in more ==> b in pool
    ensures AllDrawnFrom(AddAll(badges, more), pool)
    decreases |more|
  {
    if more != [] {
      var b := more[0];
      assert b in pool && DrawnFrom(b, pool);
      var existing := Find(badges, BadgeId, b.id);
      if existing.Some? { JoinedIsDrawn(existing.value, b, pool); }
      var next := AddBadge(badges, b);
      forall e | e in next ensures DrawnFrom(e, pool) {
        PutHolds(badges, if existing.Some? then JoinedBadge(existing.value, b) else b, e);
      }
      AddAllDraws(next, more[1..], pool);
    }
  }

  lemma {:induction false} PutAllDraws(badges: seq<Badge>, more: seq<Badge>, pool: seq<Badge>)
    requires AllDrawnFrom(badges, pool) && forall b :: b in more ==> b in pool
    ensures AllDrawnFrom(PutAll(badges, more), pool)
    decreases |more|
  {
    if more != [] {
      assert more[0] in pool && DrawnFrom(more[0], pool);
      forall e | e in Put(badges, more[0]) ensures DrawnFrom(e, pool) { PutHolds(badges, more[0], e); }
      PutAllDraws(Put(badges, more[0]), more[1..], pool);
    }
  }

  // The merged badges come in the order of their times, one for each identifier of the two records, with the
  // earliest of its times, all the modules of both and nothing that neither holds.
  lemma MergedBadgesExactly(survivor: LearnerProgress, source: LearnerProgress, name: string, prefix: string)
    requires OneBadgePerId(survivor.badges)
    ensures var merged, pool := Merged(survivor, source, name, prefix).badges, survivor.badges + source.badges;
      && (forall i, j :: 0 <= i < j < |merged| ==> merged[i].earnedAt <= merged[j].earnedAt && merged[i].id != merged[j].id)
      && (forall b :: b in pool ==> exists e :: e in merged && CoversBadge(e, b))
      && AllDrawnFrom(merged, pool)
  {
    var merged, pool := Merged(survivor, source, name, prefix).badges, survivor.badges + source.badges;
    BadgesSurvive(survivor.badges, source.badges);
    TimeOrdersAreTotal();
    var all := AddAll(PutAll([], survivor.badges), source.badges);
    SortIsSortedPermutation(all, BadgeLe);
    PutAllDraws([], survivor.badges, pool);
    AddAllDraws(PutAll([], survivor.badges), source.badges, pool);
    forall i, j | 0 <= i < j < |merged| ensures merged[i].earnedAt <= merged[j].earnedAt && merged[i].id != merged[j].id {
      assert BadgeLe(merged[i], merged[j]);
    }
    forall b | b in pool ensures exists e :: e in merged && CoversBadge(e, b) {
      assert KeptBadge(merged, b);
    }
  }

  // ------------------------------------------------------------------------------ the other fields

  predicate FirstAt(ids: seq<Id>, k: nat) {
    k < |ids| && ids[k] !in ids[..k]
  }

  // Each identifier once, in the order of first appearance.
  // The places of the first appearances.
  ghost predicate Firsts(r: seq<Id>, ids: seq<Id>, at: seq<nat>) {
    && |at| == |r| && Rising(at, |ids|)
    && (forall i :: 0 <= i < |at| ==> FirstAt(ids, at[i]) && r[i] == ids[at[i]])
    && (forall k: nat :: FirstAt(ids, k) ==> k in at)
  }

  lemma FirstsSnoc(r: seq<Id>, ids: seq<Id>, at: seq<nat>, x: Id)
    requires Firsts(r, ids, at)
    ensures if x in ids then Firsts(r, ids + [x], at) else Firsts(r + [x], ids + [x], at + [|ids|])
  {
    var more := ids + [x];
    forall k: nat | k < |ids| ensures FirstAt(more, k) <==> FirstAt(ids, k) { assert more[..k] == ids[..k]; }
    assert more[..|ids|] == ids && more[|ids|] == x;
    forall k: nat | FirstAt(more, k) ensures if x in ids then k in at else k in at + [|ids|] {
      if k < |ids| { assert k in at; }
    }
    forall i | 0 <= i < |at| ensures FirstAt(more, at[i]) && r[i] == more[at[i]] {}
  }

  lemma {:induction false} UniqueInOrder(ids: seq<Id>) returns (at: seq<nat>)
    ensures Firsts(Unique(ids), ids, at)
  {
    if ids == [] {
      at := [];
    } else {
      var n := |ids| - 1;
      var front := UniqueInOrder(ids[..n]);
      FirstsSnoc(Unique(ids[..n]), ids[..n], front, ids[n]);
      assert ids == ids[..n] + [ids[n]];
      at := if ids[n] in ids[..n] then front else front + [n];
    }
  }

  // The remaining fields of a merged record.
  lemma MergedFields(survivor: LearnerProgress, source: LearnerProgress, name: string, prefix: string)
    returns (started: seq<nat>, completed: seq<nat>)
    ensures var r := Merged(survivor, source, name, prefix);
      && r.displayName == name && r.capstoneSubmissions.Some?
      && (r.updatedAt == survivor.updatedAt >= source.updatedAt || r.updatedAt == source.updatedAt >= survivor.updatedAt)
      && (r.recentModule.None? <==> survivor.recentModule.None? && source.recentModule.None?)
      && (r.recentModule == survivor.recentModule <==>
            source.recentModule.None? || source.recentModule == survivor.recentModule
            || (survivor.recentModule.Some? && source.recentModule.value.visitedAt <= survivor.recentModule.value.visitedAt))
      && (r.recentModule == survivor.recentModule || r.recentModule == source.recentModule)
    ensures var r := Merged(survivor, source, name, prefix);
      && Firsts(r.startedPathIds, survivor.startedPathIds + source.startedPathIds, started)
      && Firsts(r.completedModuleIds, survivor.completedModuleIds + source.completedModuleIds, completed)
  {
    started := UniqueInOrder(survivor.startedPathIds + source.startedPathIds);
    completed := UniqueInOrder(survivor.completedModuleIds + source.completedModuleIds);
  }
}
