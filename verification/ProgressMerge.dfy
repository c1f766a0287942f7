/** Merging two progress records, and the two plans of the front end that use the merge
    (src/progress.ts:154-257, 283-335, 419-483). */
module ProgressMerge {
  import opened Wrappers
  import opened Sequences
  import opened Sorting
  import opened Progress

  // -------------------------------------------------------------- absorbing attempts and capstones

  function Find<T>(records: seq<T>, id: T -> Id, wanted: Id): (r: Option<T>)
    ensures r.Some? ==> r.value in records && id(r.value) == wanted
    ensures r.None? <==> forall x :: x in records ==> id(x) != wanted
  {
    if records == [] then None
    else if id(records[0]) == wanted then Some(records[0])
    else Find(records[1..], id, wanted)
  }

  function Prefixed(prefix: string, id: Id): Id {
    prefix + ":" + id
  }

  function IdSet<T(==)>(records: seq<T>, id: T -> Id): set<Id> {
    set x | x in records :: id(x)
  }

  // What the source adds to the survivor: records with a new identifier as they are, clashing ones
  // under the prefix, and nothing for copies of what the survivor holds.
  function Absorb<T(==)>(
    survivor: seq<T>, source: seq<T>, ids: set<Id>, id: T -> Id, rename: (T, Id) -> T, prefix: string): seq<T>
  {
    if source == [] then []
    else
      var x := source[0];
      if id(x) !in ids then
        [x] + Absorb(survivor, source[1..], ids + {id(x)}, id, rename, prefix)
      else if Find(survivor, id, id(x)) == Some(x) then
        Absorb(survivor, source[1..], ids, id, rename, prefix)
      else
        var freshId := Prefixed(prefix, id(x));
        [rename(x, freshId)] + Absorb(survivor, source[1..], ids + {freshId}, id, rename, prefix)
  }

  // One record of the source at a time.
  lemma AbsorbOne<T>(
    survivor: seq<T>, source: seq<T>, i: nat, ids: set<Id>, id: T -> Id, rename: (T, Id) -> T, prefix: string, added: seq<T>)
    requires i < |source|
    ensures var x := source[i]; var freshId := Prefixed(prefix, id(x));
      added + Absorb(survivor, source[i..], ids, id, rename, prefix) ==
        if id(x) !in ids then (added + [x]) + Absorb(survivor, source[i + 1..], ids + {id(x)}, id, rename, prefix)
        else if Find(survivor, id, id(x)) == Some(x) then added + Absorb(survivor, source[i + 1..], ids, id, rename, prefix)
        else (added + [rename(x, freshId)]) + Absorb(survivor, source[i + 1..], ids + {freshId}, id, rename, prefix)
  {
    assert source[i..][0] == source[i] && source[i..][1..] == source[i + 1..];
  }

  method AbsorbRecords<T(==)>(survivor: seq<T>, source: seq<T>, id: T -> Id, rename: (T, Id) -> T, prefix: string)
    returns (added: seq<T>)
    ensures added == Absorb(survivor, source, IdSet(survivor, id), id, rename, prefix)
  {
    var ids := IdSet(survivor, id);
    ghost var all := Absorb(survivor, source, ids, id, rename, prefix);
    added := [];
    var i := 0;
    assert source[0..] == source;
    while i < |source|
      invariant 0 <= i <= |source|
      invariant all == added + Absorb(survivor, source[i..], ids, id, rename, prefix)
    {
      var x := source[i];
      AbsorbOne(survivor, source, i, ids, id, rename, prefix, added);
      if id(x) !in ids {
        ids := ids + {id(x)};
        added := added + [x];
      } else if Find(survivor, id, id(x)) != Some(x) {
        var freshId := Prefixed(prefix, id(x));
        ids := ids + {freshId};
        added := added + [rename(x, freshId)];
      }
      i := i + 1;
    }
  }

  // -------------------------------------------------------------------------------- merging badges

  // An insertion-ordered map from badge identifiers: a known identifier keeps its place.
  function Put(badges: seq<Badge>, b: Badge): seq<Badge> {
    if badges == [] then [b]
    else if badges[0].id == b.id then [b] + badges[1..]
    else [badges[0]] + Put(badges[1..], b)
  }

  function BadgeId(b: Badge): Id { b.id }

  function Earliest(a: Time, b: Time): Time { if a <= b then a else b }

  // Every identifier once, in the order of first appearance.
  function Unique(ids: seq<Id>): (r: seq<Id>)
    ensures forall x :: x in r <==> x in ids
    ensures Distinct(r)
  {
    if ids == [] then [] else AddedOnce(Unique(ids[..|ids| - 1]), ids[|ids| - 1])
  }

  function JoinedBadge(existing: Badge, b: Badge): Badge {
    existing.(earnedAt := Earliest(existing.earnedAt, b.earnedAt),
              evidenceModuleIds := Unique(existing.evidenceModuleIds + b.evidenceModuleIds))
  }

  function AddBadge(badges: seq<Badge>, b: Badge): seq<Badge> {
    match Find(badges, BadgeId, b.id)
    case None => Put(badges, b)
    case Some(existing) => Put(badges, JoinedBadge(existing, b))
  }

  function PutAll(badges: seq<Badge>, more: seq<Badge>): seq<Badge>
    decreases |more|
  {
    if more == [] then badges else PutAll(Put(badges, more[0]), more[1..])
  }

  function AddAll(badges: seq<Badge>, more: seq<Badge>): seq<Badge>
    decreases |more|
  {
    if more == [] then badges else AddAll(AddBadge(badges, more[0]), more[1..])
  }

  lemma OneBadge(badges: seq<Badge>, more: seq<Badge>, i: nat)
    requires i < |more|
    ensures PutAll(badges, more[i..]) == PutAll(Put(badges, more[i]), more[i + 1..])
    ensures AddAll(badges, more[i..]) == AddAll(AddBadge(badges, more[i]), more[i + 1..])
  {
    assert more[i..][0] == more[i] && more[i..][1..] == more[i + 1..];
  }

  method CollectBadges(survivor: seq<Badge>) returns (badges: seq<Badge>)
    ensures badges == PutAll([], survivor)
  {
    badges := [];
    var i := 0;
    assert survivor[0..] == survivor;
    while i < |survivor|
      invariant 0 <= i <= |survivor|
      invariant PutAll([], survivor) == PutAll(badges, survivor[i..])
    {
      OneBadge(badges, survivor, i);
      badges := Put(badges, survivor[i]);
      i := i + 1;
    }
  }

  method MergeBadge(badges: seq<Badge>, b: Badge) returns (merged: seq<Badge>)
    ensures merged == AddBadge(badges, b)
  {
    var existing := Find(badges, BadgeId, b.id);
    if existing.None? { return Put(badges, b); }
    return Put(badges, JoinedBadge(existing.value, b));
  }

  method MergeBadges(survivor: seq<Badge>, source: seq<Badge>) returns (badges: seq<Badge>)
    ensures badges == AddAll(PutAll([], survivor), source)
  {
    badges := CollectBadges(survivor);
    ghost var all := AddAll(badges, source);
    var i := 0;
    assert source[0..] == source;
    while i < |source|
      invariant 0 <= i <= |source|
      invariant all == AddAll(badges, source[i..])
    {
      OneBadge(badges, source, i);
      badges := MergeBadge(badges, source[i]);
      i := i + 1;
    }
  }

  // -------------------------------------------------------------------------------- the whole merge

  function AttemptId(a: Attempt): Id { a.id }
  function CapstoneId(c: Capstone): Id { c.id }
  function RenameAttempt(a: Attempt, id: Id): Attempt { a.(id := id) }
  function RenameCapstone(c: Capstone, id: Id): Capstone { c.(id := id) }

  predicate AttemptLe(a: Attempt, b: Attempt) { a.completedAt <= b.completedAt }
  predicate CapstoneLe(a: Capstone, b: Capstone) { a.submittedAt <= b.submittedAt }
  predicate BadgeLe(a: Badge, b: Badge) { a.earnedAt <= b.earnedAt }

  function LaterVisit(survivor: Option<RecentModule>, source: Option<RecentModule>): Option<RecentModule> {
    if survivor.None? then source
    else if source.None? || source.value.visitedAt <= survivor.value.visitedAt then survivor
    else source
  }

  function MergedAttempts(survivor: seq<Attempt>, source: seq<Attempt>, prefix: string): seq<Attempt> {
    Sort(survivor + Absorb(survivor, source, IdSet(survivor, AttemptId), AttemptId, RenameAttempt, prefix), AttemptLe)
  }

  function MergedCapstones(survivor: seq<Capstone>, source: seq<Capstone>, prefix: string): seq<Capstone> {
    Sort(survivor + Absorb(survivor, source, IdSet(survivor, CapstoneId), CapstoneId, RenameCapstone, prefix), CapstoneLe)
  }

  function MergedBadges(survivor: seq<Badge>, source: seq<Badge>): seq<Badge> {
    Sort(AddAll(PutAll([], survivor), source), BadgeLe)
  }

  function Merged(survivor: LearnerProgress, source: LearnerProgress, displayName: string, prefix: string): LearnerProgress {
    LearnerProgress(
      displayName,
      Unique(survivor.startedPathIds + source.startedPathIds),
      Unique(survivor.completedModuleIds + source.completedModuleIds),
      MergedAttempts(survivor.attempts, source.attempts, prefix),
      Some(MergedCapstones(Capstones(survivor), Capstones(source), prefix)),
      MergedBadges(survivor.badges, source.badges),
      LaterVisit(survivor.recentModule, source.recentModule),
      if survivor.updatedAt >= source.updatedAt then survivor.updatedAt else source.updatedAt)
  }

  method MergeLearnerProgress(survivor: LearnerProgress, source: LearnerProgress, displayName: string, prefix: string)
    returns (merged: LearnerProgress)
    ensures merged == Merged(survivor, source, displayName, prefix)
  {
    var attempts := AbsorbRecords(survivor.attempts, source.attempts, AttemptId, RenameAttempt, prefix);
    var capstones := AbsorbRecords(Capstones(survivor), Capstones(source), CapstoneId, RenameCapstone, prefix);
    var badges := MergeBadges(survivor.badges, source.badges);
    merged := LearnerProgress(
      displayName,
      Unique(survivor.startedPathIds + source.startedPathIds),
      Unique(survivor.completedModuleIds + source.completedModuleIds),
      Sort(survivor.attempts + attempts, AttemptLe),
      Some(Sort(Capstones(survivor) + capstones, CapstoneLe)),
      Sort(badges, BadgeLe),
      LaterVisit(survivor.recentModule, source.recentModule),
      if survivor.updatedAt >= source.updatedAt then survivor.updatedAt else source.updatedAt);
  }

  // ------------------------------------------------------------------------------------- the plans

  const UNSYNCED: string := "unsynced"

  datatype FlushPlan = Wait | Discard | MergeInto

  // The last synchronized record is compared by its text, so records stand for their texts.
  function PlanUnsyncedProgressFlush(
    writable: bool, flushInFlight: bool, unsynced: Option<LearnerProgress>,
    lastSynchronized: Option<LearnerProgress>, pendingReplacement: bool): (plan: FlushPlan)
    ensures plan == MergeInto ==> unsynced.Some?
  {
    if !writable || flushInFlight || unsynced.None? then Wait
    else if pendingReplacement then Discard
    else if unsynced == lastSynchronized then Discard
    else MergeInto
  }

  function ApplyFlush(hydrated: LearnerProgress, unsynced: LearnerProgress): LearnerProgress {
    Merged(hydrated, unsynced, hydrated.displayName, UNSYNCED)
  }

  // The record of the session after the plan was carried out.
  function Flushed(hydrated: LearnerProgress, unsynced: Option<LearnerProgress>, plan: FlushPlan): LearnerProgress
    requires plan == MergeInto ==> unsynced.Some?
  {
    if plan == MergeInto then ApplyFlush(hydrated, unsynced.value) else hydrated
  }

  predicate HasLearningEvidence(p: LearnerProgress) {
    p.startedPathIds != [] || p.completedModuleIds != [] || p.attempts != []
    || Capstones(p) != [] || p.badges != [] || p.recentModule.Some?
  }

  function PlanAccountProgressHydration(
    account: LearnerProgress, pendingReplacement: bool, pendingDisplayName: Option<string>, local: LearnerProgress): LearnerProgress
  {
    var displayName := if pendingDisplayName.Some? then pendingDisplayName.value else account.displayName;
    if pendingReplacement then local
    else if !HasLearningEvidence(local) then account.(displayName := displayName)
    else Merged(account, local, displayName, UNSYNCED)
  }
}
