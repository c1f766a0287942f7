/** Laws of the merge: nothing is lost, identifiers stay unique exactly when no prefixed identifier is
    taken, and merging the same source again changes nothing exactly when nothing clashed. */
module MergeTheorems {
  import opened Wrappers
  import opened Sequences
  import opened Sorting
  import opened Progress
  import opened ProgressMerge

  // ------------------------------------------------------------------------------ nothing is lost

  // Each record of the source is absorbed as it is, under the prefix, or was there already.
  lemma {:induction false} AbsorbLosesNothing<T>(
    survivor: seq<T>, source: seq<T>, ids: set<Id>, id: T -> Id, rename: (T, Id) -> T, prefix: string, x: T)
    requires x in source
    ensures var added := Absorb(survivor, source, ids, id, rename, prefix);
      x in survivor || x in added || rename(x, Prefixed(prefix, id(x))) in added
  {
    var y := source[0];
    var ids' := if id(y) !in ids then ids + {id(y)}
                else if Find(survivor, id, id(y)) == Some(y) then ids
                else ids + {Prefixed(prefix, id(y))};
    if x != y {
      assert x in source[1..];
      AbsorbLosesNothing(survivor, source[1..], ids', id, rename, prefix, x);
    }
  }

  lemma {:induction false} AbsorbInventsNothing<T>(
    survivor: seq<T>, source: seq<T>, ids: set<Id>, id: T -> Id, rename: (T, Id) -> T, prefix: string, r: T)
    requires r in Absorb(survivor, source, ids, id, rename, prefix)
    ensures exists x :: x in source && (r == x || r == rename(x, Prefixed(prefix, id(x))))
  {
    var y := source[0];
    var ids' := if id(y) !in ids then ids + {id(y)}
                else if Find(survivor, id, id(y)) == Some(y) then ids
                else ids + {Prefixed(prefix, id(y))};
    if r != y && r != rename(y, Prefixed(prefix, id(y))) {
      AbsorbInventsNothing(survivor, source[1..], ids', id, rename, prefix, r);
      var x :| x in source[1..] && (r == x || r == rename(x, Prefixed(prefix, id(x))));
      assert x in source;
    }
  }

  lemma TimeOrdersAreTotal()
    ensures TotalPreorder(AttemptLe) && TotalPreorder(CapstoneLe) && TotalPreorder(BadgeLe)
  {
  }

  // The attempt itself, or its copy under the prefix.
  predicate KeptAttempt(attempts: seq<Attempt>, a: Attempt, prefix: string) {
    a in attempts || a.(id := Prefixed(prefix, a.id)) in attempts
  }

  predicate KeptCapstone(capstones: seq<Capstone>, c: Capstone, prefix: string) {
    c in capstones || c.(id := Prefixed(prefix, c.id)) in capstones
  }

  predicate CoversBadge(e: Badge, b: Badge) {
    e.id == b.id && e.earnedAt <= b.earnedAt && forall m :: m in b.evidenceModuleIds ==> m in e.evidenceModuleIds
  }

  predicate KeptBadge(badges: seq<Badge>, b: Badge) {
    exists e :: e in badges && CoversBadge(e, b)
  }

  predicate KeptVisit(recent: Option<RecentModule>, visit: Option<RecentModule>) {
    visit.Some? ==> recent.Some? && recent.value.visitedAt >= visit.value.visitedAt
  }

  // The record holds all the evidence of the other, clashing attempts and capstones under the prefix.
  ghost predicate KeepsEvidence(r: LearnerProgress, p: LearnerProgress, prefix: string) {
    && (forall x :: x in p.startedPathIds ==> x in r.startedPathIds)
    && (forall x :: x in p.completedModuleIds ==> x in r.completedModuleIds)
    && (forall a :: a in p.attempts ==> KeptAttempt(r.attempts, a, prefix))
    && (forall c :: c in Capstones(p) ==> KeptCapstone(Capstones(r), c, prefix))
    && (forall b :: b in p.badges ==> KeptBadge(r.badges, b))
    && KeptVisit(r.recentModule, p.recentModule)
    && r.updatedAt >= p.updatedAt
  }

  // Every attempt and capstone comes from one of the two records.
  ghost predicate OnlyFrom(r: LearnerProgress, p: LearnerProgress, q: LearnerProgress, prefix: string) {
    && (forall x :: x in r.startedPathIds ==> x in p.startedPathIds || x in q.startedPathIds)
    && (forall x :: x in r.completedModuleIds ==> x in p.completedModuleIds || x in q.completedModuleIds)
    && (forall a :: a in r.attempts ==> a in p.attempts || AttemptFrom(a, q.attempts, prefix))
    && (forall c :: c in Capstones(r) ==> c in Capstones(p) || CapstoneFrom(c, Capstones(q), prefix))
  }

  predicate AttemptFrom(a: Attempt, source: seq<Attempt>, prefix: string) {
    exists x :: x in source && (a == x || a == x.(id := Prefixed(prefix, x.id)))
  }

  predicate CapstoneFrom(c: Capstone, source: seq<Capstone>, prefix: string) {
    exists x :: x in source && (c == x || c == x.(id := Prefixed(prefix, x.id)))
  }

  lemma AttemptsSurvive(survivor: seq<Attempt>, source: seq<Attempt>, prefix: string)
    ensures var r := MergedAttempts(survivor, source, prefix);
      && (forall a :: a in survivor ==> a in r)
      && (forall a :: a in source ==> KeptAttempt(r, a, prefix))
      && (forall a :: a in r ==> a in survivor || AttemptFrom(a, source, prefix))
  {
    var added := Absorb(survivor, source, IdSet(survivor, AttemptId), AttemptId, RenameAttempt, prefix);
    TimeOrdersAreTotal();
    SortIsSortedPermutation(survivor + added, AttemptLe);
    forall a | a in source ensures KeptAttempt(Sort(survivor + added, AttemptLe), a, prefix) {
      AbsorbLosesNothing(survivor, source, IdSet(survivor, AttemptId), AttemptId, RenameAttempt, prefix, a);
    }
    forall a | a in added ensures AttemptFrom(a, source, prefix) {
      AbsorbInventsNothing(survivor, source, IdSet(survivor, AttemptId), AttemptId, RenameAttempt, prefix, a);
    }
  }

  lemma CapstonesSurvive(survivor: seq<Capstone>, source: seq<Capstone>, prefix: string)
    ensures var r := MergedCapstones(survivor, source, prefix);
      && (forall c :: c in survivor ==> c in r)
      && (forall c :: c in source ==> KeptCapstone(r, c, prefix))
      && (forall c :: c in r ==> c in survivor || CapstoneFrom(c, source, prefix))
  {
    var added := Absorb(survivor, source, IdSet(survivor, CapstoneId), CapstoneId, RenameCapstone, prefix);
    TimeOrdersAreTotal();
    SortIsSortedPermutation(survivor + added, CapstoneLe);
    forall c | c in source ensures KeptCapstone(Sort(survivor + added, CapstoneLe), c, prefix) {
      AbsorbLosesNothing(survivor, source, IdSet(survivor, CapstoneId), CapstoneId, RenameCapstone, prefix, c);
    }
    forall c | c in added ensures CapstoneFrom(c, source, prefix) {
      AbsorbInventsNothing(survivor, source, IdSet(survivor, CapstoneId), CapstoneId, RenameCapstone, prefix, c);
    }
  }

  // ---------------------------------------------------------------------------------------- badges

  ghost predicate OneBadgePerId(badges: seq<Badge>) {
    forall i, j :: 0 <= i < j < |badges| ==> badges[i].id != badges[j].id
  }

  lemma {:induction false} PutMembers(badges: seq<Badge>, b: Badge)
    requires OneBadgePerId(badges)
    ensures OneBadgePerId(Put(badges, b))
    ensures forall x :: x in Put(badges, b) <==> x == b || (x in badges && x.id != b.id)
  {
    if badges != [] {
      var first, rest := badges[0], badges[1..];
      assert badges == [first] + rest;
      if first.id == b.id {
        assert forall x :: x in rest ==> x.id != b.id;
      } else {
        PutMembers(rest, b);
        var r := Put(rest, b);
        assert forall x :: x in r ==> x.id != first.id;
      }
    }
  }

  lemma {:induction false} PutOfMember(badges: seq<Badge>, b: Badge)
    requires OneBadgePerId(badges) && b in badges
    ensures Put(badges, b) == badges && Find(badges, BadgeId, b.id) == Some(b)
  {
    if badges[0] != b {
      assert badges == [badges[0]] + badges[1..] && b in badges[1..];
      PutOfMember(badges[1..], b);
    } else {
      assert badges == [b] + badges[1..];
    }
  }

  lemma {:induction false} PutAllOfDistinct(badges: seq<Badge>, more: seq<Badge>)
    requires OneBadgePerId(badges + more)
    ensures PutAll(badges, more) == badges + more
    decreases |more|
  {
    if more != [] {
      assert (badges + [more[0]]) + more[1..] == badges + more;
      assert forall i :: 0 <= i < |badges| ==> badges[i] == (badges + more)[i];
      assert (badges + more)[|badges|] == more[0];
      PutNew(badges, more[0]);
      PutAllOfDistinct(badges + [more[0]], more[1..]);
    } else {
      assert badges + more == badges;
    }
  }

  lemma {:induction false} PutNew(badges: seq<Badge>, b: Badge)
    requires forall i :: 0 <= i < |badges| ==> badges[i].id != b.id
    ensures Put(badges, b) == badges + [b]
  {
    if badges != [] {
      PutNew(badges[1..], b);
      assert badges + [b] == [badges[0]] + (badges[1..] + [b]);
    }
  }

  lemma {:induction false} PutAllKeepsOnePerId(badges: seq<Badge>, more: seq<Badge>)
    requires OneBadgePerId(badges)
    ensures OneBadgePerId(PutAll(badges, more))
    decreases |more|
  {
    if more != [] {
      PutMembers(badges, more[0]);
      PutAllKeepsOnePerId(Put(badges, more[0]), more[1..]);
    }
  }

  // Adding a badge covers it, and covers whatever was covered before.
  lemma AddBadgeCovers(badges: seq<Badge>, b: Badge)
    requires OneBadgePerId(badges)
    ensures var r := AddBadge(badges, b);
      OneBadgePerId(r) && KeptBadge(r, b) && forall c :: KeptBadge(badges, c) ==> KeptBadge(r, c)
  {
    var existing := Find(badges, BadgeId, b.id);
    var put := if existing.None? then b else JoinedBadge(existing.value, b);
    var r := Put(badges, put);
    PutMembers(badges, put);
    assert put in r && CoversBadge(put, b);
    forall c | KeptBadge(badges, c) ensures KeptBadge(r, c) {
      var e :| e in badges && CoversBadge(e, c);
      if e.id == b.id {
        PutOfMember(badges, e);
        assert CoversBadge(put, c);
      } else {
        assert e in r;
      }
    }
  }

  // Whatever the one list covers, the other covers too.
  ghost predicate CoversAsMuch(r: seq<Badge>, s: seq<Badge>) {
    forall c :: KeptBadge(s, c) ==> KeptBadge(r, c)
  }

  lemma {:induction false} AddAllCovers(badges: seq<Badge>, more: seq<Badge>)
    requires OneBadgePerId(badges)
    ensures OneBadgePerId(AddAll(badges, more)) && CoversAsMuch(AddAll(badges, more), badges)
    ensures forall b :: b in more ==> KeptBadge(AddAll(badges, more), b)
    decreases |more|
  {
    if more != [] {
      var next := AddBadge(badges, more[0]);
      AddBadgeCovers(badges, more[0]);
      AddAllCovers(next, more[1..]);
      assert KeptBadge(AddAll(badges, more), more[0]);
      assert more == [more[0]] + more[1..];
    }
  }

  lemma SortKeepsOnePerId(badges: seq<Badge>)
    requires OneBadgePerId(badges)
    ensures OneBadgePerId(Sort(badges, BadgeLe)) && SortedBy(Sort(badges, BadgeLe), BadgeLe)
    ensures forall b :: b in Sort(badges, BadgeLe) <==> b in badges
  {
    TimeOrdersAreTotal();
    SortIsSortedPermutation(badges, BadgeLe);
    var sorted := Sort(badges, BadgeLe);
    ImageOfPermutation(badges, sorted, BadgeId);
    DistinctOfPermutation(Image(badges, BadgeId), Image(sorted, BadgeId));
    forall i, j | 0 <= i < j < |sorted| ensures sorted[i].id != sorted[j].id {
      assert Image(sorted, BadgeId)[i] != Image(sorted, BadgeId)[j];
    }
  }

  lemma BadgesSurvive(survivor: seq<Badge>, source: seq<Badge>)
    ensures OneBadgePerId(MergedBadges(survivor, source))
    ensures forall b :: b in source ==> KeptBadge(MergedBadges(survivor, source), b)
    ensures OneBadgePerId(survivor) ==> forall b :: b in survivor ==> KeptBadge(MergedBadges(survivor, source), b)
  {
    PutAllKeepsOnePerId([], survivor);
    var start := PutAll([], survivor);
    AddAllCovers(start, source);
    var all := AddAll(start, source);
    SortKeepsOnePerId(all);
    SortKeepsCoverage(all);
    if OneBadgePerId(survivor) {
      assert [] + survivor == survivor;
      PutAllOfDistinct([], survivor);
      forall b | b in survivor ensures KeptBadge(all, b) { assert CoversBadge(b, b) && KeptBadge(start, b); }
    }
  }

  lemma SortKeepsCoverage(badges: seq<Badge>)
    requires forall b :: b in Sort(badges, BadgeLe) <==> b in badges
    ensures forall b :: KeptBadge(badges, b) <==> KeptBadge(Sort(badges, BadgeLe), b)
  {
    var sorted := Sort(badges, BadgeLe);
    forall b ensures KeptBadge(badges, b) <==> KeptBadge(sorted, b) {
      if KeptBadge(badges, b) {
        var e :| e in badges && CoversBadge(e, b);
        assert e in sorted;
      }
      if KeptBadge(sorted, b) {
        var e :| e in sorted && CoversBadge(e, b);
        assert e in badges;
      }
    }
  }

  // Merging loses nothing of either record.
  lemma MergeLosesNothing(survivor: LearnerProgress, source: LearnerProgress, displayName: string, prefix: string)
    requires OneBadgePerId(survivor.badges)
    ensures var r := Merged(survivor, source, displayName, prefix);
      && KeepsEvidence(r, survivor, prefix) && KeepsEvidence(r, source, prefix)
      && OnlyFrom(r, survivor, source, prefix)
      && (forall a :: a in survivor.attempts ==> a in r.attempts)
      && (forall c :: c in Capstones(survivor) ==> c in Capstones(r))
  {
    AttemptsSurvive(survivor.attempts, source.attempts, prefix);
    CapstonesSurvive(Capstones(survivor), Capstones(source), prefix);
    BadgesSurvive(survivor.badges, source.badges);
  }

  // There is nothing in the record that a learner could have worked for.
  predicate HoldsNothing(p: LearnerProgress) {
    && p.startedPathIds == [] && p.completedModuleIds == [] && p.attempts == [] && Capstones(p) == [] && p.badges == []
    && p.recentModule.None?
  }

  // A read of the account keeps the evidence of both records unless a replacement is pending; then
  // the record of the session stands unchanged.
  lemma HydrationLosesNothing(account: LearnerProgress, pendingReplacement: bool, pendingName: Option<string>, local: LearnerProgress)
    requires OneBadgePerId(account.badges)
    ensures var r := PlanAccountProgressHydration(account, pendingReplacement, pendingName, local);
      && (pendingReplacement ==> r == local)
      && (!pendingReplacement ==>
            && KeepsEvidence(r, account, UNSYNCED)
            && (!HoldsNothing(local) ==> KeepsEvidence(r, local, UNSYNCED))
            && (HoldsNothing(local) ==> r == account.(displayName := r.displayName))
            && r.displayName == (if pendingName.Some? then pendingName.value else account.displayName))
      && (!pendingReplacement && pendingName.None? && HoldsNothing(local) ==> r == account)
  {
    if !pendingReplacement {
      if HasLearningEvidence(local) {
        MergeLosesNothing(account, local, PlanAccountProgressHydration(account, false, pendingName, local).displayName, UNSYNCED);
      } else {
        assert forall b :: b in account.badges ==> CoversBadge(b, b);
      }
    }
  }

  // A flush never loses evidence of the record, and it takes over all of the buffer unless it waits,
  // a replacement is pending, or the buffer is what was last synchronized.
  lemma FlushLosesNothing(
    hydrated: LearnerProgress, writable: bool, flushInFlight: bool, unsynced: Option<LearnerProgress>,
    lastSynchronized: Option<LearnerProgress>, pendingReplacement: bool)
    requires OneBadgePerId(hydrated.badges)
    ensures var plan := PlanUnsyncedProgressFlush(writable, flushInFlight, unsynced, lastSynchronized, pendingReplacement);
      var r := Flushed(hydrated, unsynced, plan);
      && KeepsEvidence(r, hydrated, UNSYNCED) && r.displayName == hydrated.displayName
      && (unsynced.Some? && writable && !flushInFlight && !pendingReplacement && unsynced != lastSynchronized ==>
            KeepsEvidence(r, unsynced.value, UNSYNCED))
      && (plan != MergeInto ==> r == hydrated)
      && (plan == Discard <==> unsynced.Some? && writable && !flushInFlight && (pendingReplacement || unsynced == lastSynchronized))
  {
    if unsynced.Some? {
      MergeLosesNothing(hydrated, unsynced.value, hydrated.displayName, UNSYNCED);
    }
    assert forall b :: b in hydrated.badges ==> CoversBadge(b, b);
  }

  // ------------------------------------------------------------------------- unique identifiers

  ghost predicate Renames<T(!new)>(id: T -> Id, rename: (T, Id) -> T) {
    forall x, i :: id(rename(x, i)) == i
  }

  // Whenever the merge falls back to a prefixed identifier, that identifier is still free.
  predicate PrefixedIdsFree<T(==)>(
    survivor: seq<T>, source: seq<T>, ids: set<Id>, id: T -> Id, prefix: string)
  {
    source == [] ||
    var x := source[0];
    if id(x) !in ids then PrefixedIdsFree(survivor, source[1..], ids + {id(x)}, id, prefix)
    else if Find(survivor, id, id(x)) == Some(x) then PrefixedIdsFree(survivor, source[1..], ids, id, prefix)
    else
      Prefixed(prefix, id(x)) !in ids
      && PrefixedIdsFree(survivor, source[1..], ids + {Prefixed(prefix, id(x))}, id, prefix)
  }

  lemma DistinctSnoc<T>(held: seq<T>, x: T, id: T -> Id)
    requires Distinct(Image(held, id))
    ensures Distinct(Image(held + [x], id)) <==> id(x) !in IdSet(held, id)
    ensures IdSet(held + [x], id) == IdSet(held, id) + {id(x)}
  {
    ImageOfConcat(held, [x], id);
    var image := Image(held, id);
    assert Image(held + [x], id) == image + [id(x)];
    if id(x) in IdSet(held, id) {
      var y :| y in held && id(y) == id(x);
      var k :| 0 <= k < |held| && held[k] == y;
      assert (image + [id(x)])[k] == (image + [id(x)])[|held|];
    } else {
      forall k | 0 <= k < |held| ensures image[k] != id(x) { assert held[k] in held; }
    }
  }

  lemma DistinctOfPrefix<T>(held: seq<T>, more: seq<T>, id: T -> Id)
    requires Distinct(Image(held + more, id))
    ensures Distinct(Image(held, id))
  {
    assert forall i :: 0 <= i < |held| ==> Image(held, id)[i] == Image(held + more, id)[i];
  }

  lemma {:induction false} AbsorbedIdsAreUniqueExactly<T(!new)>(
    survivor: seq<T>, held: seq<T>, source: seq<T>, ids: set<Id>, id: T -> Id, rename: (T, Id) -> T, prefix: string)
    requires Renames(id, rename) && ids == IdSet(held, id) && Distinct(Image(held, id))
    ensures Distinct(Image(held + Absorb(survivor, source, ids, id, rename, prefix), id))
       <==> PrefixedIdsFree(survivor, source, ids, id, prefix)
    decreases |source|
  {
    var added := Absorb(survivor, source, ids, id, rename, prefix);
    if source == [] {
      assert held + added == held;
    } else {
      var x := source[0];
      if id(x) in ids && Find(survivor, id, id(x)) == Some(x) {
        AbsorbedIdsAreUniqueExactly(survivor, held, source[1..], ids, id, rename, prefix);
      } else {
        var y := if id(x) !in ids then x else rename(x, Prefixed(prefix, id(x)));
        var rest := Absorb(survivor, source[1..], ids + {id(y)}, id, rename, prefix);
        DistinctSnoc(held, y, id);
        assert added == [y] + rest && held + added == (held + [y]) + rest;
        if id(y) !in ids {
          AbsorbedIdsAreUniqueExactly(survivor, held + [y], source[1..], ids + {id(y)}, id, rename, prefix);
        } else if Distinct(Image(held + added, id)) {
          DistinctOfPrefix(held + [y], rest, id);
        }
      }
    }
  }

  // An identifier that the prefix starts.
  predicate CarriesPrefix(prefix: string, id: Id) {
    prefix + ":" <= id
  }

  lemma PrefixingIsInjective(prefix: string, a: Id, b: Id)
    ensures CarriesPrefix(prefix, Prefixed(prefix, a))
    ensures Prefixed(prefix, a) == Prefixed(prefix, b) ==> a == b
  {
    var p := prefix + ":";
    assert Prefixed(prefix, a)[|p|..] == a && Prefixed(prefix, b)[|p|..] == b;
  }

  predicate Clashes<T(==)>(survivor: seq<T>, x: T, id: T -> Id) {
    id(x) in IdSet(survivor, id) && Find(survivor, id, id(x)) != Some(x)
  }

  // What the identifiers seen so far may be.
  ghost predicate SeenSoFar(survivorIds: set<Id>, done: set<Id>, ids: set<Id>, prefix: string) {
    && survivorIds <= ids
    && forall i :: i in ids ==> i in survivorIds || i in done || exists d :: d in done && i == Prefixed(prefix, d)
  }

  lemma {:induction false} PrefixedIdsFreeExactly<T(!new)>(
    survivor: seq<T>, source: seq<T>, done: set<Id>, ids: set<Id>, id: T -> Id, prefix: string)
    requires SeenSoFar(IdSet(survivor, id), done, ids, prefix)
    requires Distinct(Image(source, id))
    requires forall x :: x in source ==> id(x) !in done && !CarriesPrefix(prefix, id(x))
    requires forall d :: d in done ==> !CarriesPrefix(prefix, d)
    ensures PrefixedIdsFree(survivor, source, ids, id, prefix)
       <==> forall x :: x in source && Clashes(survivor, x, id) ==> Prefixed(prefix, id(x)) !in IdSet(survivor, id)
    decreases |source|
  {
    if source != [] {
      var x, rest := source[0], source[1..];
      assert source == [x] + rest && x in source;
      DistinctTail(source, id);
      NewIdsOnly(IdSet(survivor, id), done, ids, prefix, id(x));
      if id(x) !in ids {
        SeenOneMore(IdSet(survivor, id), done, ids, prefix, id(x), id(x));
        PrefixedIdsFreeExactly(survivor, rest, done + {id(x)}, ids + {id(x)}, id, prefix);
      } else if Find(survivor, id, id(x)) == Some(x) {
        SeenOneMore(IdSet(survivor, id), done, ids, prefix, id(x), id(x));
        assert ids + {id(x)} == ids;
        PrefixedIdsFreeExactly(survivor, rest, done + {id(x)}, ids, id, prefix);
      } else {
        SeenOneMore(IdSet(survivor, id), done, ids, prefix, id(x), Prefixed(prefix, id(x)));
        PrefixedIdsFreeExactly(survivor, rest, done + {id(x)}, ids + {Prefixed(prefix, id(x))}, id, prefix);
      }
    }
  }

  lemma DistinctTail<T>(source: seq<T>, id: T -> Id)
    requires source != [] && Distinct(Image(source, id))
    ensures Distinct(Image(source[1..], id)) && forall y :: y in source[1..] ==> id(y) != id(source[0])
  {
    var image, rest := Image(source, id), source[1..];
    assert forall i :: 0 <= i < |rest| ==> Image(rest, id)[i] == image[i + 1];
    forall y | y in rest ensures id(y) != id(source[0]) {
      var k :| 0 <= k < |rest| && rest[k] == y;
      assert image[0] != image[k + 1];
    }
  }

  lemma SeenOneMore(survivorIds: set<Id>, done: set<Id>, ids: set<Id>, prefix: string, d: Id, i: Id)
    requires SeenSoFar(survivorIds, done, ids, prefix) && (i == d || i == Prefixed(prefix, d))
    ensures SeenSoFar(survivorIds, done + {d}, ids + {i}, prefix)
  {
    var done' := done + {d};
    forall j | j in ids + {i}
      ensures j in survivorIds || j in done' || exists e :: e in done' && j == Prefixed(prefix, e)
    {
      if j in ids && j !in survivorIds && j !in done {
        var e :| e in done && j == Prefixed(prefix, e);
        assert e in done';
      } else {
        assert d in done';
      }
    }
  }

  // An identifier not yet done and without the prefix is taken exactly if the survivor has it.
  lemma NewIdsOnly(survivorIds: set<Id>, done: set<Id>, ids: set<Id>, prefix: string, i: Id)
    requires SeenSoFar(survivorIds, done, ids, prefix)
    requires i !in done && !CarriesPrefix(prefix, i) && forall d :: d in done ==> !CarriesPrefix(prefix, d)
    ensures i in ids <==> i in survivorIds
    ensures Prefixed(prefix, i) in ids <==> Prefixed(prefix, i) in survivorIds
  {
    forall d | d in done ensures i != Prefixed(prefix, d) { PrefixingIsInjective(prefix, d, d); }
    PrefixingIsInjective(prefix, i, i);
    if Prefixed(prefix, i) in ids && Prefixed(prefix, i) !in survivorIds {
      var d :| d in done && Prefixed(prefix, i) == Prefixed(prefix, d);
      PrefixingIsInjective(prefix, i, d);
    }
  }

  // The merged attempts have unique identifiers exactly when, for every attempt of the source that
  // clashes, the survivor does not already hold the prefixed identifier.
  lemma MergedAttemptIdsAreUniqueExactly(survivor: seq<Attempt>, source: seq<Attempt>, prefix: string)
    requires Distinct(Image(survivor, AttemptId)) && Distinct(Image(source, AttemptId))
    requires forall a :: a in source ==> !CarriesPrefix(prefix, a.id)
    ensures Distinct(Image(MergedAttempts(survivor, source, prefix), AttemptId))
       <==> forall a :: a in source && Clashes(survivor, a, AttemptId) ==>
              Prefixed(prefix, a.id) !in IdSet(survivor, AttemptId)
  {
    var ids := IdSet(survivor, AttemptId);
    PrefixedIdsFreeExactly(survivor, source, {}, ids, AttemptId, prefix);
    AttemptIdsUniqueWhenFree(survivor, source, prefix);
  }

  // The same for any source, by the guard of the prefix branch.
  lemma AttemptIdsUniqueWhenFree(survivor: seq<Attempt>, source: seq<Attempt>, prefix: string)
    requires Distinct(Image(survivor, AttemptId))
    ensures Distinct(Image(MergedAttempts(survivor, source, prefix), AttemptId))
       <==> PrefixedIdsFree(survivor, source, IdSet(survivor, AttemptId), AttemptId, prefix)
  {
    var ids := IdSet(survivor, AttemptId);
    var all := survivor + Absorb(survivor, source, ids, AttemptId, RenameAttempt, prefix);
    AbsorbedIdsAreUniqueExactly(survivor, survivor, source, ids, AttemptId, RenameAttempt, prefix);
    TimeOrdersAreTotal();
    SortIsSortedPermutation(all, AttemptLe);
    var sorted := Sort(all, AttemptLe);
    ImageOfPermutation(all, sorted, AttemptId);
    if Distinct(Image(all, AttemptId)) {
      DistinctOfPermutation(Image(all, AttemptId), Image(sorted, AttemptId));
    } else if Distinct(Image(sorted, AttemptId)) {
      DistinctOfPermutation(Image(sorted, AttemptId), Image(all, AttemptId));
    }
  }

  lemma CapstoneIdsUniqueWhenFree(survivor: seq<Capstone>, source: seq<Capstone>, prefix: string)
    requires Distinct(Image(survivor, CapstoneId))
    ensures Distinct(Image(MergedCapstones(survivor, source, prefix), CapstoneId))
       <==> PrefixedIdsFree(survivor, source, IdSet(survivor, CapstoneId), CapstoneId, prefix)
  {
    var ids := IdSet(survivor, CapstoneId);
    var all := survivor + Absorb(survivor, source, ids, CapstoneId, RenameCapstone, prefix);
    AbsorbedIdsAreUniqueExactly(survivor, survivor, source, ids, CapstoneId, RenameCapstone, prefix);
    TimeOrdersAreTotal();
    SortIsSortedPermutation(all, CapstoneLe);
    var sorted := Sort(all, CapstoneLe);
    ImageOfPermutation(all, sorted, CapstoneId);
    if Distinct(Image(all, CapstoneId)) {
      DistinctOfPermutation(Image(all, CapstoneId), Image(sorted, CapstoneId));
    } else if Distinct(Image(sorted, CapstoneId)) {
      DistinctOfPermutation(Image(sorted, CapstoneId), Image(all, CapstoneId));
    }
  }

  // A survivor that already holds the prefixed identifier ends up with it twice.
  lemma TakenPrefixRepeatsAnId(a: Attempt, b: Attempt, held: Attempt, prefix: string)
    requires a.id == b.id && a != b && held.id == Prefixed(prefix, a.id)
    ensures !Distinct(Image(MergedAttempts([a, held], [b], prefix), AttemptId))
  {
    var survivor := [a, held];
    assert held.id != a.id by { assert |held.id| > |a.id|; }
    assert survivor[0] in survivor && survivor[1] in survivor;
    assert a.id in IdSet(survivor, AttemptId) && held.id in IdSet(survivor, AttemptId);
    assert Find(survivor, AttemptId, b.id) == Some(a);
    assert !PrefixedIdsFree(survivor, [b], IdSet(survivor, AttemptId), AttemptId, prefix);
    AttemptIdsUniqueWhenFree(survivor, [b], prefix);
  }

  // --------------------------------------------------------------------- which records are prefixed

  // What the source adds, judged record by record against the survivor alone: new identifiers as they are,
  // clashing ones under the prefix, copies of what the survivor holds not at all.
  function TakenOver<T(==)>(survivor: seq<T>, source: seq<T>, id: T -> Id, rename: (T, Id) -> T, prefix: string): seq<T> {
    if source == [] then []
    else
      var x := source[0];
      var taken :=
        if id(x) !in IdSet(survivor, id) then [x]
        else if Clashes(survivor, x, id) then [rename(x, Prefixed(prefix, id(x)))]
        else [];
      taken + TakenOver(survivor, source[1..], id, rename, prefix)
  }

  lemma {:induction false} AbsorbIsTakingOver<T(!new)>(
    survivor: seq<T>, source: seq<T>, done: set<Id>, ids: set<Id>, id: T -> Id, rename: (T, Id) -> T, prefix: string)
    requires SeenSoFar(IdSet(survivor, id), done, ids, prefix)
    requires Distinct(Image(source, id))
    requires forall x :: x in source ==> id(x) !in done && !CarriesPrefix(prefix, id(x))
    requires forall d :: d in done ==> !CarriesPrefix(prefix, d)
    ensures Absorb(survivor, source, ids, id, rename, prefix) == TakenOver(survivor, source, id, rename, prefix)
    decreases |source|
  {
    if source != [] {
      var x, rest := source[0], source[1..];
      assert source == [x] + rest && x in source;
      DistinctTail(source, id);
      NewIdsOnly(IdSet(survivor, id), done, ids, prefix, id(x));
      if id(x) !in ids {
        SeenOneMore(IdSet(survivor, id), done, ids, prefix, id(x), id(x));
        AbsorbIsTakingOver(survivor, rest, done + {id(x)}, ids + {id(x)}, id, rename, prefix);
      } else if Find(survivor, id, id(x)) == Some(x) {
        SeenOneMore(IdSet(survivor, id), done, ids, prefix, id(x), id(x));
        assert ids + {id(x)} == ids;
        AbsorbIsTakingOver(survivor, rest, done + {id(x)}, ids, id, rename, prefix);
      } else {
        SeenOneMore(IdSet(survivor, id), done, ids, prefix, id(x), Prefixed(prefix, id(x)));
        AbsorbIsTakingOver(survivor, rest, done + {id(x)}, ids + {Prefixed(prefix, id(x))}, id, rename, prefix);
      }
    }
  }

  // The merged attempts are those of the survivor and what is taken over, each once: a source attempt is kept as
  // it is exactly if its identifier is new, kept under the prefix exactly if it clashes, and not repeated if the
  // survivor holds the same attempt.
  lemma MergedAttemptsExactly(survivor: seq<Attempt>, source: seq<Attempt>, prefix: string)
    requires Distinct(Image(source, AttemptId)) && forall a :: a in source ==> !CarriesPrefix(prefix, a.id)
    ensures Permutation(MergedAttempts(survivor, source, prefix),
                        survivor + TakenOver(survivor, source, AttemptId, RenameAttempt, prefix))
  {
    var ids := IdSet(survivor, AttemptId);
    AbsorbIsTakingOver(survivor, source, {}, ids, AttemptId, RenameAttempt, prefix);
    TimeOrdersAreTotal();
    SortIsSortedPermutation(survivor + Absorb(survivor, source, ids, AttemptId, RenameAttempt, prefix), AttemptLe);
  }

  lemma MergedCapstonesExactly(survivor: seq<Capstone>, source: seq<Capstone>, prefix: string)
    requires Distinct(Image(source, CapstoneId)) && forall c :: c in source ==> !CarriesPrefix(prefix, c.id)
    ensures Permutation(MergedCapstones(survivor, source, prefix),
                        survivor + TakenOver(survivor, source, CapstoneId, RenameCapstone, prefix))
  {
    var ids := IdSet(survivor, CapstoneId);
    AbsorbIsTakingOver(survivor, source, {}, ids, CapstoneId, RenameCapstone, prefix);
    TimeOrdersAreTotal();
    SortIsSortedPermutation(survivor + Absorb(survivor, source, ids, CapstoneId, RenameCapstone, prefix), CapstoneLe);
  }

  // An identifier that one of two merged lists holds is held by the result.
  lemma {:induction false} AbsorbKeepsIds<T(!new)>(
    survivor: seq<T>, held: seq<T>, source: seq<T>, ids: set<Id>, id: T -> Id, rename: (T, Id) -> T, prefix: string, i: Id)
    requires Renames(id, rename) && ids == IdSet(held, id) && i in IdSet(held, id) + IdSet(source, id)
    ensures i in IdSet(held + Absorb(survivor, source, ids, id, rename, prefix), id)
    decreases |source|
  {
    if source == [] {
      assert held + Absorb(survivor, source, ids, id, rename, prefix) == held;
    } else {
      var x := source[0];
      assert source == [x] + source[1..];
      if id(x) in ids && Find(survivor, id, id(x)) == Some(x) {
        AbsorbKeepsIds(survivor, held, source[1..], ids, id, rename, prefix, i);
      } else {
        var y := if id(x) !in ids then x else rename(x, Prefixed(prefix, id(x)));
        var rest := Absorb(survivor, source[1..], ids + {id(y)}, id, rename, prefix);
        assert held + ([y] + rest) == (held + [y]) + rest;
        assert IdSet(held + [y], id) == IdSet(held, id) + {id(y)};
        AbsorbKeepsIds(survivor, held + [y], source[1..], ids + {id(y)}, id, rename, prefix, i);
      }
    }
  }

  // ------------------------------------------------------------------------------- merging twice

  predicate NoClash<T(==)>(survivor: seq<T>, source: seq<T>, id: T -> Id) {
    forall x :: x in source ==> !Clashes(survivor, x, id)
  }

  lemma {:induction false} AbsorbNothingExactly<T(!new)>(
    survivor: seq<T>, source: seq<T>, ids: set<Id>, id: T -> Id, rename: (T, Id) -> T, prefix: string)
    requires ids == IdSet(survivor, id) && Distinct(Image(survivor, id))
    ensures Absorb(survivor, source, ids, id, rename, prefix) == [] <==> forall x :: x in source ==> x in survivor
  {
    if source != [] {
      assert source == [source[0]] + source[1..];
      AbsorbNothingExactly(survivor, source[1..], ids, id, rename, prefix);
      if source[0] in survivor { FindOfMember(survivor, id, source[0]); }
    }
  }

  lemma {:induction false} FindOfMember<T>(records: seq<T>, id: T -> Id, x: T)
    requires x in records && Distinct(Image(records, id))
    ensures Find(records, id, id(x)) == Some(x)
  {
    var image := Image(records, id);
    if records[0] == x {
    } else {
      var k :| 1 <= k < |records| && records[k] == x;
      assert image[0] != image[k];
      assert forall i :: 0 <= i < |records| - 1 ==> Image(records[1..], id)[i] == image[i + 1];
      assert x in records[1..];
      FindOfMember(records[1..], id, x);
    }
  }

  // Without clashes every record of the source is taken over as it is.
  lemma {:induction false} NoClashTakesAll<T(!new)>(
    survivor: seq<T>, source: seq<T>, done: set<Id>, ids: set<Id>, id: T -> Id, rename: (T, Id) -> T, prefix: string)
    requires NoClash(survivor, source, id) && ids == IdSet(survivor, id) + done
    requires Distinct(Image(source, id)) && forall x :: x in source ==> id(x) !in done
    ensures forall x :: x in source ==> x in survivor || x in Absorb(survivor, source, ids, id, rename, prefix)
    ensures PrefixedIdsFree(survivor, source, ids, id, prefix)
    decreases |source|
  {
    if source != [] {
      var x, rest := source[0], source[1..];
      assert source == [x] + rest && x in source;
      DistinctTail(source, id);
      assert !Clashes(survivor, x, id);
      if id(x) !in ids {
        assert ids + {id(x)} == IdSet(survivor, id) + (done + {id(x)});
        NoClashTakesAll(survivor, rest, done + {id(x)}, ids + {id(x)}, id, rename, prefix);
      } else {
        assert Find(survivor, id, id(x)) == Some(x);
        NoClashTakesAll(survivor, rest, done, ids, id, rename, prefix);
      }
    }
  }

  // With unique identifiers, the merged list holds the whole source exactly if nothing clashed.
  lemma HoldsSourceExactlyWithoutClash<T(!new)>(
    survivor: seq<T>, source: seq<T>, merged: seq<T>, id: T -> Id, rename: (T, Id) -> T, prefix: string)
    requires Permutation(merged, survivor + Absorb(survivor, source, IdSet(survivor, id), id, rename, prefix))
    requires Distinct(Image(merged, id)) && Distinct(Image(source, id))
    ensures (forall x :: x in source ==> x in merged) <==> NoClash(survivor, source, id)
  {
    var added := Absorb(survivor, source, IdSet(survivor, id), id, rename, prefix);
    forall x ensures x in merged <==> x in survivor || x in added {
      assert x in multiset(merged) <==> x in multiset(survivor + added);
    }
    if NoClash(survivor, source, id) {
      NoClashTakesAll(survivor, source, {}, IdSet(survivor, id), id, rename, prefix);
    } else {
      var x :| x in source && Clashes(survivor, x, id);
      var e := Find(survivor, id, id(x)).value;
      assert e in merged;
      if x in merged {
        FindOfMember(merged, id, x);
        FindOfMember(merged, id, e);
      }
    }
  }

  lemma MergingAttemptsAgain(survivor: seq<Attempt>, source: seq<Attempt>, prefix: string)
    requires Distinct(Image(survivor, AttemptId)) && Distinct(Image(source, AttemptId))
    requires PrefixedIdsFree(survivor, source, IdSet(survivor, AttemptId), AttemptId, prefix)
    ensures var once := MergedAttempts(survivor, source, prefix);
      MergedAttempts(once, source, prefix) == once <==> NoClash(survivor, source, AttemptId)
  {
    var once := MergedAttempts(survivor, source, prefix);
    AttemptIdsUniqueWhenFree(survivor, source, prefix);
    TimeOrdersAreTotal();
    SortIsSortedPermutation(survivor + Absorb(survivor, source, IdSet(survivor, AttemptId), AttemptId, RenameAttempt, prefix), AttemptLe);
    HoldsSourceExactlyWithoutClash(survivor, source, once, AttemptId, RenameAttempt, prefix);
    var added := Absorb(once, source, IdSet(once, AttemptId), AttemptId, RenameAttempt, prefix);
    AbsorbNothingExactly(once, source, IdSet(once, AttemptId), AttemptId, RenameAttempt, prefix);
    SortIsSortedPermutation(once + added, AttemptLe);
    if added == [] {
      assert once + added == once;
      SortOfSorted(once, AttemptLe);
    }
  }

  lemma MergingCapstonesAgain(survivor: seq<Capstone>, source: seq<Capstone>, prefix: string)
    requires Distinct(Image(survivor, CapstoneId)) && Distinct(Image(source, CapstoneId))
    requires PrefixedIdsFree(survivor, source, IdSet(survivor, CapstoneId), CapstoneId, prefix)
    ensures var once := MergedCapstones(survivor, source, prefix);
      MergedCapstones(once, source, prefix) == once <==> NoClash(survivor, source, CapstoneId)
  {
    var once := MergedCapstones(survivor, source, prefix);
    CapstoneIdsUniqueWhenFree(survivor, source, prefix);
    TimeOrdersAreTotal();
    SortIsSortedPermutation(survivor + Absorb(survivor, source, IdSet(survivor, CapstoneId), CapstoneId, RenameCapstone, prefix), CapstoneLe);
    HoldsSourceExactlyWithoutClash(survivor, source, once, CapstoneId, RenameCapstone, prefix);
    var added := Absorb(once, source, IdSet(once, CapstoneId), CapstoneId, RenameCapstone, prefix);
    AbsorbNothingExactly(once, source, IdSet(once, CapstoneId), CapstoneId, RenameCapstone, prefix);
    SortIsSortedPermutation(once + added, CapstoneLe);
    if added == [] {
      assert once + added == once;
      SortOfSorted(once, CapstoneLe);
    }
  }

  // A badge that another join with this one would not change.
  predicate Settled(e: Badge, b: Badge) {
    CoversBadge(e, b) && Distinct(e.evidenceModuleIds)
  }

  predicate SettledIn(badges: seq<Badge>, b: Badge) {
    exists e :: e in badges && Settled(e, b)
  }

  lemma {:induction false} UniqueOfDistinct(ids: seq<Id>)
    requires Distinct(ids)
    ensures Unique(ids) == ids
  {
    if ids != [] {
      var front, last := ids[..|ids| - 1], ids[|ids| - 1];
      assert ids == front + [last];
      UniqueOfDistinct(front);
      assert last !in front;
    }
  }

  lemma {:induction false} UniqueOfCovered(ids: seq<Id>, more: seq<Id>)
    requires Distinct(ids) && forall m :: m in more ==> m in ids
    ensures Unique(ids + more) == ids
    decreases |more|
  {
    if more == [] {
      assert ids + more == ids;
      UniqueOfDistinct(ids);
    } else {
      var front, last := more[..|more| - 1], more[|more| - 1];
      assert more == front + [last] && last in more;
      assert (ids + more)[..|ids + more| - 1] == ids + front;
      UniqueOfCovered(ids, front);
    }
  }

  lemma AddBadgeSettles(badges: seq<Badge>, b: Badge)
    requires OneBadgePerId(badges) && Distinct(b.evidenceModuleIds)
    ensures var r := AddBadge(badges, b);
      OneBadgePerId(r) && SettledIn(r, b) && forall c :: SettledIn(badges, c) ==> SettledIn(r, c)
  {
    var existing := Find(badges, BadgeId, b.id);
    var put := if existing.None? then b else JoinedBadge(existing.value, b);
    var r := Put(badges, put);
    PutMembers(badges, put);
    assert put in r && Settled(put, b);
    forall c | SettledIn(badges, c) ensures SettledIn(r, c) {
      var e :| e in badges && Settled(e, c);
      if e.id == b.id {
        PutOfMember(badges, e);
        assert Settled(put, c);
      } else {
        assert e in r;
      }
    }
  }

  lemma {:induction false} AddAllSettles(badges: seq<Badge>, more: seq<Badge>)
    requires OneBadgePerId(badges) && forall b :: b in more ==> Distinct(b.evidenceModuleIds)
    ensures var r := AddAll(badges, more);
      OneBadgePerId(r) && (forall b :: b in more ==> SettledIn(r, b)) && (forall c :: SettledIn(badges, c) ==> SettledIn(r, c))
    decreases |more|
  {
    if more != [] {
      assert more == [more[0]] + more[1..];
      AddBadgeSettles(badges, more[0]);
      AddAllSettles(AddBadge(badges, more[0]), more[1..]);
    }
  }

  lemma {:induction false} AddAllOfSettled(badges: seq<Badge>, more: seq<Badge>)
    requires OneBadgePerId(badges) && forall b :: b in more ==> SettledIn(badges, b)
    ensures AddAll(badges, more) == badges
    decreases |more|
  {
    if more != [] {
      assert more == [more[0]] + more[1..];
      assert SettledIn(badges, more[0]);
      var e :| e in badges && Settled(e, more[0]);
      PutOfMember(badges, e);
      UniqueOfCovered(e.evidenceModuleIds, more[0].evidenceModuleIds);
      assert JoinedBadge(e, more[0]) == e;
      AddAllOfSettled(badges, more[1..]);
    }
  }

  lemma MergedBadgesAreSettled(survivor: seq<Badge>, source: seq<Badge>)
    requires forall b :: b in source ==> Distinct(b.evidenceModuleIds)
    ensures var once := MergedBadges(survivor, source);
      OneBadgePerId(once) && SortedBy(once, BadgeLe) && forall b :: b in source ==> SettledIn(once, b)
  {
    PutAllKeepsOnePerId([], survivor);
    var all := AddAll(PutAll([], survivor), source);
    AddAllSettles(PutAll([], survivor), source);
    SortKeepsOnePerId(all);
    forall b | b in source ensures SettledIn(Sort(all, BadgeLe), b) {
      var e :| e in all && Settled(e, b);
      assert e in Sort(all, BadgeLe);
    }
  }

  lemma SettledBadgesStay(once: seq<Badge>, source: seq<Badge>)
    requires OneBadgePerId(once) && SortedBy(once, BadgeLe) && forall b :: b in source ==> SettledIn(once, b)
    ensures MergedBadges(once, source) == once
  {
    assert [] + once == once;
    PutAllOfDistinct([], once);
    AddAllOfSettled(once, source);
    SortOfSorted(once, BadgeLe);
  }

  lemma MergingBadgesAgain(survivor: seq<Badge>, source: seq<Badge>)
    requires forall b :: b in source ==> Distinct(b.evidenceModuleIds)
    ensures MergedBadges(MergedBadges(survivor, source), source) == MergedBadges(survivor, source)
  {
    MergedBadgesAreSettled(survivor, source);
    SettledBadgesStay(MergedBadges(survivor, source), source);
  }

  lemma UniqueAgain(ids: seq<Id>, more: seq<Id>)
    ensures Unique(Unique(ids + more) + more) == Unique(ids + more)
  {
    UniqueOfCovered(Unique(ids + more), more);
  }

  ghost predicate DistinctIds(p: LearnerProgress) {
    Distinct(Image(p.attempts, AttemptId)) && Distinct(Image(Capstones(p), CapstoneId))
  }

  // Merging the same source a second time changes nothing exactly if no record of it clashed.
  lemma MergingAgainIsANoOpExactlyWithoutClash(survivor: LearnerProgress, source: LearnerProgress, displayName: string, prefix: string)
    requires DistinctIds(survivor) && DistinctIds(source)
    requires PrefixedIdsFree(survivor.attempts, source.attempts, IdSet(survivor.attempts, AttemptId), AttemptId, prefix)
    requires PrefixedIdsFree(Capstones(survivor), Capstones(source), IdSet(Capstones(survivor), CapstoneId), CapstoneId, prefix)
    requires forall b :: b in source.badges ==> Distinct(b.evidenceModuleIds)
    ensures var once := Merged(survivor, source, displayName, prefix);
      Merged(once, source, displayName, prefix) == once <==>
        NoClash(survivor.attempts, source.attempts, AttemptId) && NoClash(Capstones(survivor), Capstones(source), CapstoneId)
  {
    var once := Merged(survivor, source, displayName, prefix);
    var twice := Merged(once, source, displayName, prefix);
    MergingAttemptsAgain(survivor.attempts, source.attempts, prefix);
    MergingCapstonesAgain(Capstones(survivor), Capstones(source), prefix);
    MergingBadgesAgain(survivor.badges, source.badges);
    UniqueAgain(survivor.startedPathIds, source.startedPathIds);
    UniqueAgain(survivor.completedModuleIds, source.completedModuleIds);
    assert twice == once.(attempts := twice.attempts, capstoneSubmissions := twice.capstoneSubmissions);
  }
}
