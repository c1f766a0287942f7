/** The badge credential lifecycle: definitions and events are checked on the way in, the events are
    sorted by sequence, and one loop folds them into a projection per credential
    (src/badge-credentials.ts). */
module BadgeCredentials {
  import opened Wrappers
  import opened Sequences
  import opened Sorting

  type Id = nat
  type Time = int

  datatype BadgeClass = Participation | Completion | Mastery
  datatype EvidenceKind = ModuleVisited | ModuleCompleted | AssessmentPassed | CapstonePassed | HumanReviewApproved
  datatype EvidenceResult = Visited | Completed | Passed | Approved
  datatype ExpirationPolicy = Never | AfterDays(days: int)

  datatype DefinitionKey = DefinitionKey(id: Id, version: Id)

  datatype Requirement = Requirement(
    id: Id, kind: EvidenceKind, subjectId: Id, subjectVersion: Id, contentVersion: Id,
    requiredResult: EvidenceResult, minimumScore: Option<real>)

  datatype Definition = Definition(
    key: DefinitionKey, badgeClass: BadgeClass, issuerId: Id, requirements: seq<Requirement>,
    expiration: ExpirationPolicy)

  datatype Evidence = Evidence(
    id: Id, kind: EvidenceKind, subjectId: Id, subjectVersion: Id, contentVersion: Id,
    result: EvidenceResult, score: Option<real>, occurredAt: Time, refs: seq<Id>)

  datatype Lifecycle =
    | Issued(definition: DefinitionKey, subjectId: Id, issuerId: Id, evidence: seq<Evidence>)
    | Corrected(supersedes: Id, reason: Id, replacement: seq<Evidence>)
    | Revoked(supersedes: Id, reason: Id)
    | Expired(supersedes: Id, reason: Id)

  datatype Event = Event(
    eventId: Id, sequence: int, credentialId: Id, occurredAt: Time, actor: Id, change: Lifecycle)

  datatype Status = Active | RevokedStatus | ExpiredStatus

  datatype Projection = Projection(
    credentialId: Id, definition: DefinitionKey, badgeClass: BadgeClass, subjectId: Id, issuerId: Id,
    issuedAt: Time, status: Status, originalIssuance: Event, effectiveEvidence: seq<Evidence>,
    corrections: seq<Event>, revocation: Option<Event>, expiration: Option<Event>,
    lastEventId: Id, lastSequence: int)

  datatype ErrorCode =
    | InvalidDefinition | DuplicateDefinition
    | InvalidEvent | DuplicateEvent | DuplicateSequence
    | MissingDefinition | DuplicateIssuance | MissingIssuance | InvalidEvidence | IssuerMismatch
    | InvalidLifecycleTransition | InvalidLifecycleChain | PrematureExpiration

  const MAX_SAFE_INTEGER: int := 9007199254740991
  const DAY: int := 24 * 60 * 60 * 1000

  // ------------------------------------------------------------------- what a definition demands

  function ResultOfKind(kind: EvidenceKind): EvidenceResult {
    match kind
    case ModuleVisited => Visited
    case ModuleCompleted => Completed
    case AssessmentPassed => Passed
    case CapstonePassed => Passed
    case HumanReviewApproved => Approved
  }

  predicate ValidScore(score: Option<real>) {
    score.Some? ==> 0.0 <= score.value <= 100.0
  }

  predicate Scorable(kind: EvidenceKind) {
    kind == AssessmentPassed || kind == CapstonePassed
  }

  predicate ValidRequirement(r: Requirement) {
    && r.requiredResult == ResultOfKind(r.kind)
    && ValidScore(r.minimumScore)
    && (r.minimumScore.Some? ==> Scorable(r.kind))
  }

  predicate DistinctRequirements(requirements: seq<Requirement>) {
    forall i, j :: 0 <= i < j < |requirements| ==> requirements[i].id != requirements[j].id
  }

  predicate ValidDefinition(d: Definition) {
    && d.requirements != []
    && (forall r :: r in d.requirements ==> ValidRequirement(r))
    && DistinctRequirements(d.requirements)
    && (d.badgeClass == Completion ==> exists r :: r in d.requirements && r.kind != ModuleVisited)
    && (d.badgeClass == Mastery ==>
          && (forall r :: r in d.requirements ==> r.kind != ModuleVisited)
          && (exists r :: r in d.requirements && r.kind == AssessmentPassed)
          && (forall r :: r in d.requirements && r.kind == AssessmentPassed ==> r.minimumScore.Some?))
    && (d.expiration.AfterDays? ==> 0 < d.expiration.days <= MAX_SAFE_INTEGER)
  }

  predicate ValidItem(e: Evidence) {
    && e.result == ResultOfKind(e.kind)
    && ValidScore(e.score)
    && (e.score.Some? ==> Scorable(e.kind))
    && e.refs != [] && Distinct(e.refs)
  }

  predicate DistinctEvidence(evidence: seq<Evidence>) {
    forall i, j :: 0 <= i < j < |evidence| ==> evidence[i].id != evidence[j].id
  }

  predicate ValidEvidence(evidence: seq<Evidence>) {
    && evidence != []
    && (forall e :: e in evidence ==> ValidItem(e))
    && DistinctEvidence(evidence)
  }

  // One item that is bound to the versions the requirement names and scores high enough.
  predicate Meets(e: Evidence, r: Requirement) {
    && e.kind == r.kind && e.subjectId == r.subjectId
    && e.subjectVersion == r.subjectVersion && e.contentVersion == r.contentVersion
    && e.result == r.requiredResult
    && (r.minimumScore.Some? ==> e.score.Some? && e.score.value >= r.minimumScore.value)
  }

  predicate MetBy(evidence: seq<Evidence>, r: Requirement) {
    exists e :: e in evidence && Meets(e, r)
  }

  predicate PassedAssessment(e: Evidence) {
    e.kind == AssessmentPassed && e.result == Passed
  }

  // The evidence is enough for the definition.
  predicate Supports(d: Definition, evidence: seq<Evidence>) {
    && ValidDefinition(d)
    && ValidEvidence(evidence)
    && (forall r :: r in d.requirements ==> MetBy(evidence, r))
  }

  predicate Sufficient(d: Definition, evidence: seq<Evidence>, availableAt: Time) {
    Supports(d, evidence) && forall e :: e in evidence ==> e.occurredAt <= availableAt
  }

  predicate ExpirationDue(d: Definition, issuedAt: Time, at: Time) {
    d.expiration.AfterDays? && at >= issuedAt + d.expiration.days * DAY
  }

  // A mastery badge always rests on an assessment that was passed with a declared minimum score.
  lemma MasteryRestsOnAScoredAssessment(d: Definition, evidence: seq<Evidence>)
    requires Supports(d, evidence) && d.badgeClass == Mastery
    ensures exists e, r :: e in evidence && r in d.requirements && PassedAssessment(e) && Meets(e, r)
                           && r.minimumScore.Some? && e.score.Some? && e.score.value >= r.minimumScore.value
  {
    var r :| r in d.requirements && r.kind == AssessmentPassed;
    assert ValidRequirement(r) && MetBy(evidence, r);
    var e :| e in evidence && Meets(e, r);
    assert PassedAssessment(e);
  }

  // ------------------------------------------------------------------------ the checks as loops

  datatype EvidenceFault =
    | NoEvidence | DuplicateItem(id: Id) | WrongResult(at: nat) | ScoreOutOfRange(at: nat)
    | ScoreNotAllowed(at: nat) | BadReferences(at: nat)

  datatype Issue = BadDefinition | BadEvidence(fault: EvidenceFault) | Unmet(requirement: Id) | NoPassedAssessment

  method ValidateEvidenceArray(evidence: seq<Evidence>) returns (faults: seq<EvidenceFault>)
    ensures faults == [] <==> ValidEvidence(evidence)
  {
    if evidence == [] { return [NoEvidence]; }
    faults := [];
    var ids: set<Id> := {};
    var i := 0;
    while i < |evidence|
      invariant 0 <= i <= |evidence|
      invariant forall id :: id in ids <==> exists k :: 0 <= k < i && evidence[k].id == id
      invariant faults == [] <==> DistinctEvidence(evidence[..i]) && forall k :: 0 <= k < i ==> ValidItem(evidence[k])
    {
      var e := evidence[i];
      ghost var wasClean, wasDistinct := faults == [], DistinctEvidence(evidence[..i]);
      if e.id in ids { faults := faults + [DuplicateItem(e.id)]; } else { ids := ids + {e.id}; }
      DistinctUpTo(evidence, i);
      if e.result != ResultOfKind(e.kind) { faults := faults + [WrongResult(i)]; }
      if !ValidScore(e.score) { faults := faults + [ScoreOutOfRange(i)]; }
      if e.score.Some? && !Scorable(e.kind) { faults := faults + [ScoreNotAllowed(i)]; }
      if e.refs == [] || !Distinct(e.refs) { faults := faults + [BadReferences(i)]; }
      i := i + 1;
    }
    assert evidence[..i] == evidence;
  }

  lemma DistinctUpTo(evidence: seq<Evidence>, i: nat)
    requires i < |evidence|
    ensures DistinctEvidence(evidence[..i + 1]) <==>
      DistinctEvidence(evidence[..i]) && forall k :: 0 <= k < i ==> evidence[k].id != evidence[i].id
  {
    var longer, shorter := evidence[..i + 1], evidence[..i];
    assert longer == shorter + [evidence[i]];
    if DistinctEvidence(longer) {
      forall k | 0 <= k < i ensures evidence[k].id != evidence[i].id {
        assert longer[k].id != longer[i].id;
      }
    }
  }

  // Says which requirements the evidence leaves open.
  method ValidateBadgeIssuanceEvidence(d: Definition, evidence: seq<Evidence>) returns (issues: seq<Issue>)
    ensures issues == [] <==> Supports(d, evidence)
    ensures ValidDefinition(d) && ValidEvidence(evidence) ==>
      forall r :: r in d.requirements ==> (Unmet(r.id) in issues <==> !MetBy(evidence, r))
  {
    issues := [];
    if !ValidDefinition(d) { return [BadDefinition]; }
    var faults := ValidateEvidenceArray(evidence);
    if faults != [] {
      return Image(faults, f => BadEvidence(f));
    }
    var i := 0;
    while i < |d.requirements|
      invariant 0 <= i <= |d.requirements|
      invariant issues == [] <==> forall k :: 0 <= k < i ==> MetBy(evidence, d.requirements[k])
      invariant forall k :: 0 <= k < i ==> (Unmet(d.requirements[k].id) in issues <==> !MetBy(evidence, d.requirements[k]))
      invariant forall id :: Unmet(id) in issues ==> exists k :: 0 <= k < i && d.requirements[k].id == id
    {
      if !MetBy(evidence, d.requirements[i]) {
        issues := issues + [Unmet(d.requirements[i].id)];
      }
      i := i + 1;
    }
    if d.badgeClass == Mastery && !(exists e :: e in evidence && PassedAssessment(e)) {
      assert !Supports(d, evidence) by {
        if Supports(d, evidence) { MasteryRestsOnAScoredAssessment(d, evidence); }
      }
      issues := issues + [NoPassedAssessment];
    }
  }

  method AssertEvidence(d: Definition, evidence: seq<Evidence>, availableAt: Time) returns (error: Option<ErrorCode>)
    ensures error == if Sufficient(d, evidence, availableAt) then None else Some(InvalidEvidence)
  {
    var issues := ValidateBadgeIssuanceEvidence(d, evidence);
    if issues != [] { return Some(InvalidEvidence); }
    if exists e :: e in evidence && e.occurredAt > availableAt { return Some(InvalidEvidence); }
    return None;
  }

  method AssertExpirationEligible(d: Definition, issuedAt: Time, at: Time) returns (error: Option<ErrorCode>)
    ensures error.None? <==> ExpirationDue(d, issuedAt, at)
    ensures error.Some? ==> error.value == if d.expiration.Never? then InvalidLifecycleTransition else PrematureExpiration
  {
    if d.expiration.Never? { return Some(InvalidLifecycleTransition); }
    var eligibleAt := issuedAt + d.expiration.days * DAY;
    if at < eligibleAt { return Some(PrematureExpiration); }
    return None;
  }

  // ------------------------------------------------------------------------------- the intake

  type Definitions = map<DefinitionKey, Definition>

  function Index(definitions: seq<Definition>, index: Definitions): Result<Definitions, ErrorCode> {
    if definitions == [] then Ok(index)
    else if !ValidDefinition(definitions[0]) then Err(InvalidDefinition)
    else if definitions[0].key in index then Err(DuplicateDefinition)
    else Index(definitions[1..], index[definitions[0].key := definitions[0]])
  }

  function KeyOf(d: Definition): DefinitionKey { d.key }

  // Every definition is valid, and no two share an identifier and version.
  ghost predicate WellDefined(definitions: seq<Definition>) {
    (forall d :: d in definitions ==> ValidDefinition(d)) && Distinct(Image(definitions, KeyOf))
  }

  lemma WellDefinedCons(d: Definition, rest: seq<Definition>)
    ensures WellDefined([d] + rest) <==> (ValidDefinition(d) && WellDefined(rest) && forall x :: x in rest ==> x.key != d.key)
  {
    DistinctCons(d, rest, KeyOf);
    assert forall x :: x in [d] + rest <==> x == d || x in rest;
  }

  // The table holds exactly the given definitions, each under its key.
  ghost predicate Indexes(index: Definitions, definitions: seq<Definition>) {
    && (forall d :: d in definitions ==> d.key in index && index[d.key] == d)
    && (forall k :: k in index ==> index[k] in definitions && index[k].key == k)
  }

  // One definition more at the end.
  lemma {:induction false} IndexSnoc(definitions: seq<Definition>, index: Definitions, d: Definition)
    ensures Index(definitions + [d], index) ==
      match Index(definitions, index)
      case Err(error) => Err(error)
      case Ok(m) =>
        if !ValidDefinition(d) then Err(InvalidDefinition) else if d.key in m then Err(DuplicateDefinition) else Ok(m[d.key := d])
    decreases |definitions|
  {
    if definitions == [] {
      assert definitions + [d] == [d] && [d][1..] == [];
    } else {
      assert (definitions + [d])[0] == definitions[0] && (definitions + [d])[1..] == definitions[1..] + [d];
      IndexSnoc(definitions[1..], index[definitions[0].key := definitions[0]], d);
    }
  }

  lemma WellDefinedSnoc(front: seq<Definition>, d: Definition)
    ensures WellDefined(front + [d]) <==> (WellDefined(front) && ValidDefinition(d) && forall x :: x in front ==> x.key != d.key)
  {
    var turned := [d] + front;
    assert multiset(front + [d]) == multiset(turned);
    assert forall x :: x in front + [d] <==> x in turned;
    ImageOfPermutation(front + [d], turned, KeyOf);
    if Distinct(Image(front + [d], KeyOf)) { DistinctOfPermutation(Image(front + [d], KeyOf), Image(turned, KeyOf)); }
    if Distinct(Image(turned, KeyOf)) { DistinctOfPermutation(Image(turned, KeyOf), Image(front + [d], KeyOf)); }
    WellDefinedCons(d, front);
  }

  // The running table refuses exactly the lists that are not well defined, and holds the others.
  lemma {:induction false} IndexExactly(definitions: seq<Definition>)
    ensures Index(definitions, map[]).Ok? <==> WellDefined(definitions)
    ensures Index(definitions, map[]).Ok? ==> Indexes(Index(definitions, map[]).value, definitions)
    decreases |definitions|
  {
    if definitions != [] {
      var front, d := definitions[..|definitions| - 1], definitions[|definitions| - 1];
      assert definitions == front + [d];
      IndexExactly(front);
      IndexSnoc(front, map[], d);
      WellDefinedSnoc(front, d);
      if Index(front, map[]).Ok? { KeyTakenExactly(front, Index(front, map[]).value, d.key); }
    }
  }

  lemma KeyTakenExactly(definitions: seq<Definition>, index: Definitions, key: DefinitionKey)
    requires Indexes(index, definitions) && WellDefined(definitions)
    ensures key in index <==> exists d :: d in definitions && d.key == key
  {
    if key in index {
      var d := index[key];
      assert d in definitions && index[d.key] == d;
    }
  }

  // The first definition at fault decides the error.
  ghost predicate FirstFault(definitions: seq<Definition>, i: nat, error: ErrorCode) {
    && i < |definitions| && WellDefined(definitions[..i])
    && if !ValidDefinition(definitions[i]) then error == InvalidDefinition
       else error == DuplicateDefinition && exists d :: d in definitions[..i] && d.key == definitions[i].key
  }

  lemma {:induction false} IndexFaults(definitions: seq<Definition>) returns (i: nat)
    requires Index(definitions, map[]).Err?
    ensures FirstFault(definitions, i, Index(definitions, map[]).error)
    decreases |definitions|
  {
    var n := |definitions| - 1;
    var front, d := definitions[..n], definitions[n];
    assert definitions == front + [d];
    IndexSnoc(front, map[], d);
    if Index(front, map[]).Err? {
      i := IndexFaults(front);
      assert definitions[..i] == front[..i];
    } else {
      i := n;
      IndexExactly(front);
      KeyTakenExactly(front, Index(front, map[]).value, d.key);
    }
  }

  predicate ValidEvent(e: Event) {
    && 0 < e.sequence <= MAX_SAFE_INTEGER
    && (e.change.Issued? ==> ValidEvidence(e.change.evidence))
    && (e.change.Corrected? ==> ValidEvidence(e.change.replacement))
  }

  datatype Slot = Slot(credentialId: Id, sequence: int)

  function SlotOf(e: Event): Slot { Slot(e.credentialId, e.sequence) }

  // The first reason to refuse the events, reading them in the order they are given.
  function Refusal(events: seq<Event>, eventIds: set<Id>, slots: set<Slot>): Option<ErrorCode> {
    if events == [] then None
    else if !ValidEvent(events[0]) then Some(InvalidEvent)
    else if events[0].eventId in eventIds then Some(DuplicateEvent)
    else if SlotOf(events[0]) in slots then Some(DuplicateSequence)
    else Refusal(events[1..], eventIds + {events[0].eventId}, slots + {SlotOf(events[0])})
  }

  function IdOf(e: Event): Id { e.eventId }

  // Every event is valid, and no two share an identifier or a place in one credential's sequence.
  ghost predicate Admissible(events: seq<Event>) {
    && (forall e :: e in events ==> ValidEvent(e))
    && Distinct(Image(events, IdOf))
    && Distinct(Image(events, SlotOf))
  }

  lemma {:induction false} RefusalExactly(events: seq<Event>, eventIds: set<Id>, slots: set<Slot>)
    ensures Refusal(events, eventIds, slots).None? <==>
      && Admissible(events)
      && (forall e :: e in events ==> e.eventId !in eventIds && SlotOf(e) !in slots)
  {
    if events != [] {
      var e, rest := events[0], events[1..];
      RefusalExactly(rest, eventIds + {e.eventId}, slots + {SlotOf(e)});
      assert events == [e] + rest;
      AdmissibleCons(e, rest);
    }
  }

  lemma AdmissibleCons(e: Event, rest: seq<Event>)
    ensures Admissible([e] + rest) <==>
      (ValidEvent(e) && Admissible(rest) && forall x :: x in rest ==> x.eventId != e.eventId && SlotOf(x) != SlotOf(e))
  {
    DistinctCons(e, rest, IdOf);
    DistinctCons(e, rest, SlotOf);
    assert forall x :: x in [e] + rest <==> x == e || x in rest;
  }

  // Whether the events are let in does not depend on their order.
  lemma AdmissionIgnoresOrder(events: seq<Event>, shuffled: seq<Event>)
    requires Permutation(events, shuffled) && Refusal(events, {}, {}).None?
    ensures Refusal(shuffled, {}, {}).None?
  {
    RefusalExactly(events, {}, {});
    RefusalExactly(shuffled, {}, {});
    ImageOfPermutation(events, shuffled, IdOf);
    ImageOfPermutation(events, shuffled, SlotOf);
    DistinctOfPermutation(Image(events, IdOf), Image(shuffled, IdOf));
    DistinctOfPermutation(Image(events, SlotOf), Image(shuffled, SlotOf));
    forall e | e in shuffled ensures ValidEvent(e) {
      assert e in multiset(events);
    }
  }

  predicate EventLe(a: Event, b: Event) {
    a.sequence < b.sequence || (a.sequence == b.sequence && a.eventId <= b.eventId)
  }

  // --------------------------------------------------------------------------------- the fold

  // What one event does to the projection of its own credential.
  function Step(index: Definitions, current: Option<Projection>, e: Event): Result<Projection, ErrorCode> {
    if e.change.Issued? then
      if current.Some? then Err(DuplicateIssuance)
      else if e.change.definition !in index then Err(MissingDefinition)
      else if e.change.issuerId != index[e.change.definition].issuerId then Err(IssuerMismatch)
      else if !Sufficient(index[e.change.definition], e.change.evidence, e.occurredAt) then Err(InvalidEvidence)
      else Ok(Projection(
        e.credentialId, e.change.definition, index[e.change.definition].badgeClass, e.change.subjectId,
        e.change.issuerId, e.occurredAt, Active, e, e.change.evidence, [], None, None, e.eventId, e.sequence))
    else if current.None? then Err(MissingIssuance)
    else if current.value.status != Active then Err(InvalidLifecycleTransition)
    else if e.change.supersedes != current.value.lastEventId then Err(InvalidLifecycleChain)
    else if current.value.definition !in index then Err(MissingDefinition)
    else
      var p := current.value.(lastEventId := e.eventId, lastSequence := e.sequence);
      var d := index[p.definition];
      match e.change
      case Corrected(_, _, replacement) =>
        if !Sufficient(d, replacement, e.occurredAt) then Err(InvalidEvidence)
        else Ok(p.(corrections := p.corrections + [e], effectiveEvidence := replacement))
      case Revoked(_, _) => Ok(p.(status := RevokedStatus, revocation := Some(e)))
      case Expired(_, _) =>
        if d.expiration.Never? then Err(InvalidLifecycleTransition)
        else if !ExpirationDue(d, p.issuedAt, e.occurredAt) then Err(PrematureExpiration)
        else Ok(p.(status := ExpiredStatus, expiration := Some(e)))
  }

  type Projections = map<Id, Projection>

  function At(projections: Projections, credentialId: Id): Option<Projection> {
    if credentialId in projections then Some(projections[credentialId]) else None
  }

  function Fold(index: Definitions, projections: Projections, events: seq<Event>): Result<Projections, ErrorCode>
    decreases |events|
  {
    if events == [] then Ok(projections)
    else match Step(index, At(projections, events[0].credentialId), events[0])
      case Err(error) => Err(error)
      case Ok(p) => Fold(index, projections[events[0].credentialId := p], events[1..])
  }

  // The whole projection, before the result is listed.
  function Projected(definitions: seq<Definition>, events: seq<Event>): Result<Projections, ErrorCode> {
    match Index(definitions, map[])
    case Err(error) => Err(error)
    case Ok(index) =>
      match Refusal(events, {}, {})
      case Some(error) => Err(error)
      case None => Fold(index, map[], Sort(events, EventLe))
  }

  function CredentialOf(p: Projection): Id { p.credentialId }

  predicate CredentialLe(a: Projection, b: Projection) { a.credentialId <= b.credentialId }

  // The list holds exactly the projections of the map, by rising credential identifier.
  ghost predicate Lists(list: seq<Projection>, projections: Projections) {
    && (forall i, j :: 0 <= i < j < |list| ==> list[i].credentialId < list[j].credentialId)
    && (forall p :: p in list <==> At(projections, p.credentialId) == Some(p))
  }

  // ------------------------------------------------------------------------ the fold as a loop

  method IndexDefinitions(definitions: seq<Definition>) returns (r: Result<Definitions, ErrorCode>)
    ensures r == Index(definitions, map[])
    ensures r.Ok? <==> WellDefined(definitions)
    ensures r.Ok? ==> Indexes(r.value, definitions)
    ensures r.Err? ==> exists i: nat :: FirstFault(definitions, i, r.error)
  {
    IndexExactly(definitions);
    if Index(definitions, map[]).Err? { ghost var fault := IndexFaults(definitions); }
    var index: Definitions := map[];
    var i := 0;
    while i < |definitions|
      invariant 0 <= i <= |definitions|
      invariant Index(definitions, map[]) == Index(definitions[i..], index)
    {
      var d := definitions[i];
      assert definitions[i..][1..] == definitions[i + 1..];
      if !ValidDefinition(d) { return Err(InvalidDefinition); }
      if d.key in index { return Err(DuplicateDefinition); }
      index := index[d.key := d];
      i := i + 1;
    }
    return Ok(index);
  }

  method AdmitEvents(events: seq<Event>) returns (error: Option<ErrorCode>)
    ensures error == Refusal(events, {}, {})
    ensures error.None? <==> Admissible(events)
  {
    RefusalExactly(events, {}, {});
    var eventIds: set<Id> := {};
    var slots: set<Slot> := {};
    var i := 0;
    while i < |events|
      invariant 0 <= i <= |events|
      invariant Refusal(events, {}, {}) == Refusal(events[i..], eventIds, slots)
    {
      var e := events[i];
      assert events[i..][1..] == events[i + 1..];
      if !ValidEvent(e) { return Some(InvalidEvent); }
      if e.eventId in eventIds { return Some(DuplicateEvent); }
      if SlotOf(e) in slots { return Some(DuplicateSequence); }
      eventIds := eventIds + {e.eventId};
      slots := slots + {SlotOf(e)};
      i := i + 1;
    }
    return None;
  }

  // One turn of the loop over the sorted events.
  method ApplyEvent(index: Definitions, current: Option<Projection>, e: Event) returns (r: Result<Projection, ErrorCode>)
    ensures r == Step(index, current, e)
  {
    if e.change.Issued? {
      if current.Some? { return Err(DuplicateIssuance); }
      if e.change.definition !in index { return Err(MissingDefinition); }
      var definition := index[e.change.definition];
      if e.change.issuerId != definition.issuerId { return Err(IssuerMismatch); }
      var error := AssertEvidence(definition, e.change.evidence, e.occurredAt);
      if error.Some? { return Err(error.value); }
      return Ok(Projection(
        e.credentialId, e.change.definition, definition.badgeClass, e.change.subjectId, e.change.issuerId,
        e.occurredAt, Active, e, e.change.evidence, [], None, None, e.eventId, e.sequence));
    }
    if current.None? { return Err(MissingIssuance); }
    var p := current.value;
    if p.status != Active { return Err(InvalidLifecycleTransition); }
    if e.change.supersedes != p.lastEventId { return Err(InvalidLifecycleChain); }
    if p.definition !in index { return Err(MissingDefinition); }
    var definition := index[p.definition];
    match e.change {
      case Corrected(_, _, replacement) =>
        var error := AssertEvidence(definition, replacement, e.occurredAt);
        if error.Some? { return Err(error.value); }
        p := p.(corrections := p.corrections + [e]);
        p := p.(effectiveEvidence := replacement);
      case Revoked(_, _) =>
        p := p.(status := RevokedStatus);
        p := p.(revocation := Some(e));
      case Expired(_, _) =>
        var error := AssertExpirationEligible(definition, p.issuedAt, e.occurredAt);
        if error.Some? { return Err(error.value); }
        p := p.(status := ExpiredStatus);
        p := p.(expiration := Some(e));
    }
    p := p.(lastEventId := e.eventId);
    p := p.(lastSequence := e.sequence);
    return Ok(p);
  }

  // The loop over the sorted events, and the listing of what it stored.
  method FoldSorted(index: Definitions, sorted: seq<Event>) returns (r: Result<seq<Projection>, ErrorCode>)
    ensures r.Err? ==> Fold(index, map[], sorted) == Err(r.error)
    ensures r.Ok? ==> exists projections :: Fold(index, map[], sorted) == Ok(projections) && Lists(r.value, projections)
  {
    var projections: Projections := map[];
    // The credentials in the order they were first stored, as the source's map keeps them.
    var order: seq<Id> := [];
    var i := 0;
    while i < |sorted|
      invariant 0 <= i <= |sorted|
      invariant Fold(index, map[], sorted) == Fold(index, projections, sorted[i..])
      invariant Distinct(order) && (forall c :: c in order <==> c in projections)
      invariant forall c :: c in projections ==> projections[c].credentialId == c
    {
      var e := sorted[i];
      assert sorted[i..][0] == e && sorted[i..][1..] == sorted[i + 1..];
      var applied := ApplyEvent(index, At(projections, e.credentialId), e);
      if applied.Err? { return Err(applied.error); }
      if e.credentialId !in projections { order := order + [e.credentialId]; }
      projections := projections[e.credentialId := applied.value];
      i := i + 1;
    }
    var values := seq(|order|, k requires 0 <= k < |order| && order[k] in projections => projections[order[k]]);
    ListingIsSorted(projections, order, values);
    return Ok(Sort(values, CredentialLe));
  }

  method ProjectBadgeLifecycle(definitions: seq<Definition>, events: seq<Event>)
    returns (r: Result<seq<Projection>, ErrorCode>)
    ensures r.Err? ==> Projected(definitions, events) == Err(r.error)
    ensures r.Ok? ==> exists projections ::
      Projected(definitions, events) == Ok(projections) && Lists(r.value, projections)
  {
    var indexed := IndexDefinitions(definitions);
    if indexed.Err? { return Err(indexed.error); }
    var refusal := AdmitEvents(events);
    if refusal.Some? { return Err(refusal.value); }
    r := FoldSorted(indexed.value, Sort(events, EventLe));
  }

  lemma ListingIsSorted(projections: Projections, order: seq<Id>, values: seq<Projection>)
    requires Distinct(order) && (forall c :: c in order <==> c in projections)
    requires forall c :: c in projections ==> projections[c].credentialId == c
    requires |values| == |order| && forall k :: 0 <= k < |order| ==> values[k] == projections[order[k]]
    ensures Lists(Sort(values, CredentialLe), projections)
  {
    var list := Sort(values, CredentialLe);
    SortIsSortedPermutation(values, CredentialLe);
    assert SortedBy(list, CredentialLe);
    RisingKeys(values, list, order);
    forall p ensures p in list <==> At(projections, p.credentialId) == Some(p) {
      assert p in list <==> p in values;
      InOrder(projections, order, values, p);
    }
  }

  lemma RisingKeys(values: seq<Projection>, list: seq<Projection>, order: seq<Id>)
    requires Permutation(values, list) && SortedBy(list, CredentialLe)
    requires Distinct(order) && |values| == |order|
    requires forall k :: 0 <= k < |order| ==> values[k].credentialId == order[k]
    ensures forall i, j :: 0 <= i < j < |list| ==> list[i].credentialId < list[j].credentialId
  {
    assert Image(values, CredentialOf) == order;
    ImageOfPermutation(values, list, CredentialOf);
    DistinctOfPermutation(order, Image(list, CredentialOf));
    forall i, j | 0 <= i < j < |list| ensures list[i].credentialId < list[j].credentialId {
      assert CredentialLe(list[i], list[j]) && Image(list, CredentialOf)[i] != Image(list, CredentialOf)[j];
    }
  }

  lemma InOrder(projections: Projections, order: seq<Id>, values: seq<Projection>, p: Projection)
    requires forall c :: c in order <==> c in projections
    requires forall c :: c in projections ==> projections[c].credentialId == c
    requires |values| == |order| && forall k :: 0 <= k < |order| ==> values[k] == projections[order[k]]
    ensures p in values <==> At(projections, p.credentialId) == Some(p)
  {
    if At(projections, p.credentialId) == Some(p) {
      var k :| 0 <= k < |order| && order[k] == p.credentialId;
      assert values[k] == p;
    }
  }
}
