/** Runs of the provisioning engine, from the empty store, that reach what its description rules out. */
module ProvisioningExamples {
  import opened Wrappers
  import opened IdentityProvisioning
  import opened IdentityEngine
  import opened ProvisioningProtocol
  import opened ProvisioningTheorems
  import opened ProvisioningExactness
  import opened ProvisioningClients
  import opened ProvisioningOutcomes

  ghost predicate Reachable(s: System) {
    exists states, actions :: IsRun(states, actions) && s == states[|actions|]
  }

  lemma EmptyIsReachable()
    ensures Reachable(EMPTY)
  {
    assert IsRun([EMPTY], []);
  }

  lemma StepReaches(s: System, a: Action)
    requires Reachable(s) && Enabled(s, a)
    ensures Reachable(Perform(s, a))
  {
    var states, actions :| IsRun(states, actions) && s == states[|actions|];
    var states', actions' := states + [Perform(s, a)], actions + [a];
    forall i | 0 <= i < |actions'|
      ensures Enabled(states'[i], actions'[i]) && states'[i + 1] == Perform(states'[i], actions'[i])
    {
      if i < |actions| { assert states'[i] == states[i] && states'[i + 1] == states[i + 1] && actions'[i] == actions[i]; }
    }
    assert IsRun(states', actions');
  }

  const EMPTY := System(0, map[], map[], map[])
  const SAMPLE_PLAN := Plan(1, 1, Api, 1, false)

  const OWNER_PLAN := SAMPLE_PLAN.(mode := ResumableOwnerGate)

  predicate OfTheClient(plan: Plan) {
    plan.planId == 1 == plan.clientRef
  }

  function Asked(plan: Plan, operation: Operation, key: Id): Request {
    RunRequest(true, plan, operation, key, Automation)
  }

  // ------------------------------------------------------------------------------- the parts of a run

  lemma FindsNoRecord(s: System, c: Id, plan: Plan, operation: Operation) returns (t: System)
    requires Reachable(s) && c !in s.calls && c !in s.records
    ensures Reachable(t) && t == s.(calls := s.calls[c := Call(Asked(plan, operation, c), NoRecord)])
  {
    var invoked := Perform(s, Invoke(c, Asked(plan, operation, c)));
    StepReaches(s, Invoke(c, Asked(plan, operation, c)));
    StepReaches(invoked, Read(c));
    t := Perform(invoked, Read(c));
    assert t.calls == s.calls[c := Call(Asked(plan, operation, c), NoRecord)];
  }

  // A call with a new key reads the store and is let through.
  lemma LetThrough(s: System, c: Id, plan: Plan, operation: Operation, previous: Option<Record>) returns (t: System)
    requires Reachable(s) && c !in s.calls && c !in s.records && IsLatest(s.records, 1, previous) && OfTheClient(plan)
    requires operation == CreateOp ==> previous.None? || previous.value.state == Retired
    ensures Reachable(t) && t == s.(calls := s.calls[c := Call(Asked(plan, operation, c), WantStart(previous))])
  {
    var read := FindsNoRecord(s, c, plan, operation);
    StepReaches(read, Latest(c, previous));
    t := Perform(read, Latest(c, previous));
    assert t.calls == s.calls[c := Call(Asked(plan, operation, c), WantStart(previous))];
  }

  // A version that a run may go on from: it was stored at the present time.
  predicate Present(s: System, key: Id, r: Record) {
    && s.clock >= 0 && key in s.records && s.records[key] == r && r.key == key && r.clientRef == 1 == r.planId
    && ValidRecord(r) && TrailOk(r) && r.updatedAt == s.clock
  }

  // A call that was let through stores its first version, one tick later.
  lemma Started(s: System, c: Id, plan: Plan, operation: Operation, previous: Option<Record>) returns (t: System, r: Record)
    requires Reachable(s) && c in s.calls && s.calls[c] == Call(Asked(plan, operation, c), WantStart(previous))
    requires c !in s.records && 0 <= s.clock && OfTheClient(plan) && (previous.Some? ==> ValidRecord(previous.value))
    ensures Reachable(t) && t.clock == s.clock + 1 && t.records == s.records[c := r]
    ensures t.calls == s.calls[c := Call(Asked(plan, operation, c), WantAuthorization(r))]
    ensures Present(t, c, r) && r.state == Preflight && r.operation == operation && |r.audit| == 1
  {
    var stamp := Stamp(s.clock + 1, 0);
    r := StartedRecord(true, plan, operation, c, Automation, 0, if previous.Some? then previous.value.secret else None, stamp);
    assert ValidRecord(r);
    assert Saved(s.records, r, None) == Ok(s.records[c := r]);
    StepReaches(s, Start(c, stamp, 0));
    t := Perform(s, Start(c, stamp, 0));
  }

  lemma AuthorizedIsStorable(r: Record, stamp: Stamp) returns (next: Record)
    requires ValidRecord(r) && TrailOk(r) && r.state == Preflight && r.updatedAt < stamp.at
    ensures TransitionAt(r, Provisioning, stamp, Automation, "preflight-completed", "provider-write-authorized") == Ok(next)
    ensures ValidRecord(next) && TrailOk(next) && SameOperation(r, next) && next.state == Provisioning && next.updatedAt == stamp.at
  {
    next := TransitionAt(r, Provisioning, stamp, Automation, "preflight-completed", "provider-write-authorized").value;
    OneMoreAuditEvent(r.audit, next.audit[|r.audit|]);
    assert ValidAudit(next.audit);
  }

  // The provider write is authorized.
  lemma Authorized(s: System, c: Id, operation: Operation, r: Record) returns (t: System, next: Record)
    requires Reachable(s) && c in s.calls && s.calls[c] == Call(Asked(SAMPLE_PLAN, operation, c), WantAuthorization(r))
    requires Present(s, c, r) && r.state == Preflight
    ensures Reachable(t) && t.clock == s.clock + 1 && t.records == s.records[c := next]
    ensures t.calls == s.calls[c := Call(Asked(SAMPLE_PLAN, operation, c), InAdapter(next))]
    ensures Present(t, c, next) && SameOperation(r, next) && next.state == Provisioning && next.operation == r.operation
  {
    var stamp := Stamp(s.clock + 1, 0);
    next := AuthorizedIsStorable(r, stamp);
    assert Saved(s.records, next, Some(r.updatedAt)) == Ok(s.records[c := next]);
    StepReaches(s, Authorize(c, stamp));
    t := Perform(s, Authorize(c, stamp));
  }

  lemma StoresOver(s: System, c: Id, now: Time, r: Record, next: Record, claimedReady: bool)
    requires c in s.calls && Present(s, r.key, r) && ValidRecord(next) && SameOperation(r, next)
    ensures var t := Store(s, c, now, Some(r.updatedAt), Entry(next, SAMPLE_PLAN, claimedReady), Done);
      t.clock == now && t.records == s.records[r.key := next] && t.calls == s.calls[c := s.calls[c].(pc := Done)]
  {
  }

  lemma AnswerIsStored(s: System, a: Action, r: Record, next: Record)
    requires Enabled(s, a) && a.Answer? && s.calls[a.c].pc == InAdapter(r)
    requires var q := s.calls[a.c].request; next == Applied(q.plan, r, a.result, q.actor, a.stamp, a.later)
    ensures var q := s.calls[a.c].request;
      Perform(s, a) == Store(s, a.c, a.later.at, Some(r.updatedAt), Entry(next, q.plan, a.result.nextState == Ready), Done)
  {
  }

  // ------------------------------------------------------------------------------- a second client

  // Two live versions of one client, each the version of its own create.
  predicate TwoLiveCreates(records: Records, k: Id, l: Id) {
    && k in records && l in records && k != l && records[k].clientRef == records[l].clientRef
    && records[k].operation == CreateOp == records[l].operation
    && records[k].state == Preflight == records[l].state
  }

  // Two creates under different keys that both read before either has stored both start.
  lemma ConcurrentCreatesCanBothStart()
    ensures exists s :: Reachable(s) && TwoLiveCreates(s.records, 1, 2)
  {
    EmptyIsReachable();
    var one := LetThrough(EMPTY, 1, SAMPLE_PLAN, CreateOp, None);
    var both := LetThrough(one, 2, SAMPLE_PLAN, CreateOp, None);
    var first, r := Started(both, 1, SAMPLE_PLAN, CreateOp, None);
    var second, q := Started(first, 2, SAMPLE_PLAN, CreateOp, None);
    assert TwoLiveCreates(second.records, 1, 2);
  }

  lemma FirstCreate() returns (s: System, live: Record)
    ensures Reachable(s) && s.records == map[1 := live] && Present(s, 1, live) && live.state == Preflight && live.operation == CreateOp
    ensures s.calls == map[1 := Call(Asked(SAMPLE_PLAN, CreateOp, 1), WantAuthorization(live))]
  {
    EmptyIsReachable();
    var read := LetThrough(EMPTY, 1, SAMPLE_PLAN, CreateOp, None);
    s, live := Started(read, 1, SAMPLE_PLAN, CreateOp, None);
  }

  lemma OnlyRecordIsNewest(live: Record)
    requires live.clientRef == 1
    ensures IsLatest(map[1 := live], 1, Some(live))
  {
    var records := map[1 := live];
    assert records[1] == live;
  }

  lemma RetirementIsNewest(live: Record, retired: Record)
    requires live.clientRef == 1 == retired.clientRef && live.updatedAt < retired.updatedAt
    ensures IsLatest(map[1 := live, 2 := retired], 1, Some(retired))
  {
    var records := map[1 := live, 2 := retired];
    assert records[2] == retired;
  }

  lemma RetirementBegun() returns (s: System, live: Record, first: Record)
    ensures Reachable(s) && s.calls.Keys == {1, 2} && s.records == map[1 := live, 2 := first]
    ensures s.calls[2] == Call(Asked(SAMPLE_PLAN, RetireOp, 2), WantAuthorization(first))
    ensures live.state == Preflight && live.operation == CreateOp && live.clientRef == 1 && live.updatedAt < s.clock
    ensures Present(s, 2, first) && first.state == Preflight && first.operation == RetireOp
  {
    var created, r := FirstCreate();
    live := r;
    OnlyRecordIsNewest(live);
    var retiring := LetThrough(created, 2, SAMPLE_PLAN, RetireOp, Some(live));
    s, first := Started(retiring, 2, SAMPLE_PLAN, RetireOp, Some(live));
  }

  // What an adapter answers that has retired a client and revoked its secret.
  predicate Retires(answer: AdapterResult) {
    && answer.nextState == Retired && answer.observation.None? && answer.error.None? && answer.rollback == NO_ROLLBACK
    && answer.secret.Some? && answer.secret.value.status == SecretRevoked && ValidSecret(answer.secret) && answer.continuation.None?
  }

  const RETIRED_ANSWER := AdapterResult(Retired, None, Some(Secret(true, 1, 1, SecretRevoked, 0, None)), None, NO_ROLLBACK, None, "retired")

  // A valid claim that needs no judgement is stored as it is.
  lemma ClaimIsKept(r: Record, answer: AdapterResult, stamp: Stamp, later: Stamp)
    requires r.state == Provisioning && CanTransition(Provisioning, answer.nextState) && !IsJudged(r, answer)
    requires answer.nextState != Failed && answer.nextState != Recovering && ValidRecord(Claimed(r, answer, stamp))
    ensures Applied(SAMPLE_PLAN, r, answer, Automation, stamp, later) == Claimed(r, answer, stamp)
  {
  }

  lemma RetiredAnswerRetires()
    ensures Retires(RETIRED_ANSWER)
  {
  }

  lemma RetirementIsStorable(r: Record, answer: AdapterResult, stamp: Stamp, later: Stamp) returns (next: Record)
    requires StoredVersion(r) && r.state == Provisioning && r.updatedAt < stamp.at && Retires(answer)
    ensures next == Applied(SAMPLE_PLAN, r, answer, Automation, stamp, later) && ValidRecord(next) && SameOperation(r, next)
    ensures next.state == Retired && next.updatedAt == stamp.at
  {
    next := Claimed(r, answer, stamp);
    ClaimIsValid(r, answer, stamp, next);
    ClaimIsKept(r, answer, stamp, later);
  }

  lemma ClaimIsValid(r: Record, answer: AdapterResult, stamp: Stamp, next: Record)
    requires StoredVersion(r) && r.state == Provisioning && r.updatedAt < stamp.at && next == Claimed(r, answer, stamp)
    requires Retires(answer) || answer == SampleAnswer(Validating, None)
    ensures StoredVersion(next)
  {
    OneMoreAuditEvent(r.audit, next.audit[|r.audit|]);
    assert ValidAudit(next.audit);
    assert ValidDrift(next.drift);
  }

  lemma RetirementAnswered(s: System, r: Record, answer: AdapterResult) returns (t: System, retired: Record)
    requires Reachable(s) && 2 in s.calls && s.calls[2] == Call(Asked(SAMPLE_PLAN, RetireOp, 2), InAdapter(r)) && Retires(answer)
    requires Present(s, 2, r) && r.state == Provisioning && r.operation == RetireOp
    ensures Reachable(t) && t.clock == s.clock + 2 && t.records == s.records[2 := retired] && t.calls.Keys == s.calls.Keys
    ensures ValidRecord(retired) && retired.state == Retired && SameOperation(r, retired) && retired.updatedAt > s.clock
  {
    var stamp, later := Stamp(s.clock + 1, 0), Stamp(s.clock + 2, 0);
    retired := RetirementIsStorable(r, answer, stamp, later);
    var a := Answer(2, answer, stamp, later);
    AnswerIsStored(s, a, r, retired);
    StoresOver(s, 2, later.at, r, retired, answer.nextState == Ready);
    StepReaches(s, a);
    t := Perform(s, a);
  }

  lemma RetirementCarriedOut(s: System, first: Record) returns (t: System, retired: Record)
    requires Reachable(s) && 2 in s.calls && s.calls[2] == Call(Asked(SAMPLE_PLAN, RetireOp, 2), WantAuthorization(first))
    requires Present(s, 2, first) && first.state == Preflight && first.operation == RetireOp
    ensures Reachable(t) && t.clock >= 0 && t.records == s.records[2 := retired] && t.calls.Keys == s.calls.Keys
    ensures ValidRecord(retired) && retired.state == Retired && retired.clientRef == 1 && retired.updatedAt > s.clock
  {
    var going, second := Authorized(s, 2, RetireOp, first);
    RetiredAnswerRetires();
    t, retired := RetirementAnswered(going, second, RETIRED_ANSWER);
  }

  // A live create, and after it a retirement of the client under another key.
  lemma RetirementAfterCreate() returns (s: System, live: Record, retired: Record)
    ensures Reachable(s) && s.clock >= 0 && s.calls.Keys == {1, 2} && s.records == map[1 := live, 2 := retired]
    ensures live.state == Preflight && live.operation == CreateOp && live.clientRef == 1
    ensures retired.state == Retired && ValidRecord(retired) && IsLatest(s.records, 1, Some(retired))
  {
    var begun, r, first := RetirementBegun();
    live := r;
    s, retired := RetirementCarriedOut(begun, first);
    RetirementIsNewest(live, retired);
  }

  // A create is let through although a live version of its client, the version of another create, is stored.
  ghost predicate LiveVersionIsOverlooked(s: System, c: Id, live: Record) {
    && Reachable(s) && live in s.records.Values && live.clientRef == 1 && live.operation == CreateOp && live.state == Preflight
    && c in s.calls && CreateCall(s.calls[c], 1)
    && exists retired: Record :: s.calls[c].pc == WantStart(Some(retired)) && retired.state == Retired && IsLatest(s.records, 1, Some(retired))
  }

  // Without any overlap: a create that reads after another one was stored is let through and starts, because the
  // newest version of the client is a retirement under a third key.
  lemma RetiredNewestLetsACreateThrough()
    ensures exists s, live :: LiveVersionIsOverlooked(s, 3, live)
    ensures exists s :: Reachable(s) && TwoLiveCreates(s.records, 1, 3)
  {
    var s, live, retired := RetirementAfterCreate();
    var read := LetThrough(s, 3, SAMPLE_PLAN, CreateOp, Some(retired));
    assert read.records[1] == live;
    assert LiveVersionIsOverlooked(read, 3, live);
    var again, r := Started(read, 3, SAMPLE_PLAN, CreateOp, Some(retired));
    assert TwoLiveCreates(again.records, 1, 3);
  }

  // ------------------------------------------------------------------------- ready without validation

  function Seen(ownershipVerified: bool): Observation {
    Observation(true, 0, 1, ownershipVerified, true, true, true, true, true)
  }

  function SampleAnswer(state: State, observation: Option<Observation>): AdapterResult {
    AdapterResult(state, None, None, observation, NO_ROLLBACK, None, "answered")
  }

  lemma Provisioned() returns (s: System, r: Record)
    ensures Reachable(s) && s.calls == map[1 := Call(Asked(SAMPLE_PLAN, CreateOp, 1), InAdapter(r))] && s.records == map[1 := r]
    ensures Present(s, 1, r) && r.state == Provisioning && r.operation == CreateOp
  {
    var created, live := FirstCreate();
    s, r := Authorized(created, 1, CreateOp, live);
  }

  lemma HandoverIsClean(r: Record)
    requires r.operation == CreateOp && r.planId == 1 == r.clientRef
    ensures CleanHandover(SAMPLE_PLAN, r, SampleAnswer(Validating, Some(Seen(true))))
  {
    assert AsPlanned(SAMPLE_PLAN, Seen(true));
  }

  lemma HandoverIsStored(r: Record, answer: AdapterResult, stamp: Stamp, later: Stamp) returns (next: Record)
    requires StoredVersion(r) && r.state == Provisioning && CleanHandover(SAMPLE_PLAN, r, answer) && r.updatedAt < stamp.at < later.at
    ensures next == Applied(SAMPLE_PLAN, r, answer, Automation, stamp, later)
    ensures ValidRecord(next) && SameOperation(r, next) && next.state == Ready
  {
    next := Applied(SAMPLE_PLAN, r, answer, Automation, stamp, later);
    ReadyFromUnfinishedExactly(SAMPLE_PLAN, r, answer, Automation, stamp, later);
    AnswersAreAlwaysStorable(SAMPLE_PLAN, r, answer, Automation, stamp, later);
    AnswerFollows(SAMPLE_PLAN, r, answer, Automation, stamp, later);
  }

  lemma HandoverReaches(s: System, r: Record, answer: AdapterResult) returns (a: Action, next: Record)
    requires Reachable(s) && s.calls == map[1 := Call(Asked(SAMPLE_PLAN, CreateOp, 1), InAdapter(r))] && s.records == map[1 := r]
    requires Present(s, 1, r) && r.state == Provisioning && CleanHandover(SAMPLE_PLAN, r, answer)
    ensures Enabled(s, a) && Perform(s, a).records == map[1 := next] && next.state == Ready
  {
    var stamp, later := Stamp(s.clock + 1, 0), Stamp(s.clock + 2, 0);
    next := HandoverIsStored(r, answer, stamp, later);
    a := Answer(1, answer, stamp, later);
    AnswerIsStored(s, a, r, next);
    StoresOver(s, 1, later.at, r, next, answer.nextState == Ready);
  }

  lemma HandedOver() returns (s: System, a: Action, r: Record, next: Record)
    ensures Reachable(s) && Enabled(s, a) && s.records == map[1 := r] && Perform(s, a).records == map[1 := next]
    ensures r.state == Provisioning && next.state == Ready
  {
    s, r := Provisioned();
    HandoverIsClean(r);
    a, next := HandoverReaches(s, r, SampleAnswer(Validating, Some(Seen(true))));
  }

  // A provisioned client that the adapter hands over for validation is stored as ready at once.
  lemma ProvisioningIsStoredAsReady()
    ensures exists s, a :: Reachable(s) && Enabled(s, a) && StoredAs(s, Perform(s, a), Provisioning, Ready)
    ensures !CanTransition(Provisioning, Ready)
  {
    var s, a, r, next := HandedOver();
    ReplacedOnly(s, Perform(s, a), r, next);
  }

  lemma ReplacedOnly(s: System, t: System, r: Record, next: Record)
    requires s.records == map[1 := r] && t.records == map[1 := next] && r.state != next.state
    ensures StoredAs(s, t, r.state, next.state)
  {
    assert Replaced(s, t, 1);
  }

  // The step replaces a version in the one state by a version in the other.
  ghost predicate StoredAs(s: System, t: System, x: State, y: State) {
    exists key :: Replaced(s, t, key) && s.records[key].state == x && t.records[key].state == y
  }

  // --------------------------------------------------------------------------------- ready as claimed

  lemma UnobservedIsStorable(r: Record, answer: AdapterResult, stamp: Stamp, later: Stamp) returns (next: Record)
    requires StoredVersion(r) && r.state == Provisioning && r.updatedAt < stamp.at && answer == SampleAnswer(Validating, None)
    ensures next == Applied(SAMPLE_PLAN, r, answer, Automation, stamp, later) && StoredVersion(next) && SameOperation(r, next)
    ensures next.state == Validating && next.updatedAt == stamp.at
  {
    next := Claimed(r, answer, stamp);
    ClaimIsValid(r, answer, stamp, next);
    ClaimIsKept(r, answer, stamp, later);
  }

  lemma UnobservedReaches(s: System, r: Record, answer: AdapterResult) returns (t: System, next: Record)
    requires Reachable(s) && s.calls == map[1 := Call(Asked(SAMPLE_PLAN, CreateOp, 1), InAdapter(r))] && s.records == map[1 := r]
    requires Present(s, 1, r) && r.state == Provisioning && answer == SampleAnswer(Validating, None)
    ensures Reachable(t) && t.calls.Keys == {1} && t.records == map[1 := next] && t.clock == s.clock + 2
    ensures StoredVersion(next) && SameOperation(r, next) && next.state == Validating && next.updatedAt == s.clock + 1
  {
    var stamp, later := Stamp(s.clock + 1, 0), Stamp(s.clock + 2, 0);
    next := UnobservedIsStorable(r, answer, stamp, later);
    var a := Answer(1, answer, stamp, later);
    AnswerIsStored(s, a, r, next);
    StoresOver(s, 1, later.at, r, next, answer.nextState == Ready);
    StepReaches(s, a);
    t := Perform(s, a);
  }

  // A client is in validation, and the call that brought it there has ended.
  lemma InValidation() returns (s: System, r: Record)
    ensures Reachable(s) && s.calls.Keys == {1} && s.records == map[1 := r] && r.updatedAt < s.clock
    ensures StoredVersion(r) && r.state == Validating && r.operation == CreateOp && r.key == r.planId == r.clientRef == 1
  {
    var before, base := Provisioned();
    s, r := UnobservedReaches(before, base, SampleAnswer(Validating, None));
  }

  // A second call under the same key asks the adapter about the stored version.
  lemma AskedAgain(s: System, c: Id, r: Record) returns (t: System)
    requires Reachable(s) && c !in s.calls && r.key in s.records && s.records[r.key] == r
    requires r.state == Validating && r.operation == CreateOp && r.planId == r.clientRef == 1
    ensures Reachable(t) && t == s.(calls := s.calls[c := Call(Asked(SAMPLE_PLAN, CreateOp, r.key), InAdapter(r))])
  {
    var asked := Asked(SAMPLE_PLAN, CreateOp, r.key);
    var invoked := Perform(s, Invoke(c, asked));
    StepReaches(s, Invoke(c, asked));
    StepReaches(invoked, Read(c));
    var read := Perform(invoked, Read(c));
    assert read.calls[c].pc == WantAuthorization(r);
    var stamp := Stamp(s.clock + 1, 0);
    StepReaches(read, Authorize(c, stamp));
    t := Perform(read, Authorize(c, stamp));
    assert t.calls == s.calls[c := Call(asked, InAdapter(r))];
  }

  lemma ClaimIsStored(r: Record, stamp: Stamp, later: Stamp) returns (next: Record)
    requires StoredVersion(r) && r.state == Validating && r.updatedAt < stamp.at < later.at
    ensures next == Applied(SAMPLE_PLAN, r, SampleAnswer(Ready, Some(Seen(false))), Automation, stamp, later)
    ensures next.state == Ready && SameOperation(r, next) && ValidRecord(next) && !PassesReadiness(SAMPLE_PLAN, next)
  {
    var answer := SampleAnswer(Ready, Some(Seen(false)));
    next := Claimed(r, answer, stamp);
    ClaimKeepsOperation(r, answer, stamp);
    ClaimValidExactly(r, answer, stamp);
    ClaimedReadyIsStoredExactly(SAMPLE_PLAN, r, answer, Automation, stamp, later);
    ReadyPassesExactly(SAMPLE_PLAN, r, answer, Automation, stamp, later);
  }

  // An adapter that answers ready about a client whose ownership it has not verified is believed.
  lemma ClaimedReadinessIsNotEvaluated()
    ensures exists s :: Reachable(s) && UnreadyIsReady(s.records)
  {
    var s, r := InValidation();
    var asked := AskedAgain(s, 2, r);
    var stamp, later := Stamp(s.clock + 1, 0), Stamp(s.clock + 2, 0);
    var next := ClaimIsStored(r, stamp, later);
    var a := Answer(2, SampleAnswer(Ready, Some(Seen(false))), stamp, later);
    AnswerIsStored(asked, a, r, next);
    StepReaches(asked, a);
    assert Saved(asked.records, next, Some(r.updatedAt)) == Ok(asked.records[1 := next]);
    assert Perform(asked, a).records[1] == next;
    assert UnreadyIsReady(Perform(asked, a).records);
  }

  // A version is stored as ready that does not pass the readiness evaluation.
  predicate UnreadyIsReady(records: Records) {
    exists key :: key in records && records[key].state == Ready && !PassesReadiness(SAMPLE_PLAN, records[key])
  }

  // ----------------------------------------------------------------------------- past the owner's gate

  // A create under an owner-gated plan is put to the adapter while it is still in preflight.
  lemma OwnerGatedCreate() returns (s: System, r: Record)
    ensures Reachable(s) && s.calls == map[1 := Call(Asked(OWNER_PLAN, CreateOp, 1), InAdapter(r))] && s.records == map[1 := r]
    ensures Present(s, 1, r) && r.state == Preflight && r.operation == CreateOp && |r.audit| == 1
  {
    EmptyIsReachable();
    var read := LetThrough(EMPTY, 1, OWNER_PLAN, CreateOp, None);
    var begun, first := Started(read, 1, OWNER_PLAN, CreateOp, None);
    var stamp := Stamp(begun.clock + 1, 0);
    StepReaches(begun, Authorize(1, stamp));
    s, r := Perform(begun, Authorize(1, stamp)), first;
  }

  lemma ProvisionedAnswerIsTaken(r: Record, stamp: Stamp, later: Stamp) returns (next: Record)
    requires StoredVersion(r) && r.state == Preflight && r.updatedAt < stamp.at < later.at
    ensures next == Applied(OWNER_PLAN, r, SampleAnswer(Provisioning, None), Automation, stamp, later)
    ensures next.state == Provisioning && ValidRecord(next) && SameOperation(r, next)
  {
    var answer := SampleAnswer(Provisioning, None);
    assert TakenAsAnswered(r, answer);
    next := Applied(OWNER_PLAN, r, answer, Automation, stamp, later);
    AnswerOutcome(OWNER_PLAN, r, answer, Automation, stamp, later);
    AnswersAreAlwaysStorable(OWNER_PLAN, r, answer, Automation, stamp, later);
    AnswerFollows(OWNER_PLAN, r, answer, Automation, stamp, later);
  }

  // An adapter that itself answers provisioning takes an owner-gated create past the gate: no authority was asked.
  lemma AdapterPassesTheOwnersGate()
    ensures exists s :: Reachable(s) && 1 in s.logs && |s.logs[1]| == 2 && s.logs[1][1].plan.mode == ResumableOwnerGate
                        && s.logs[1][0].record.state == Preflight && s.logs[1][1].record.state == Provisioning
  {
    var s, r := OwnerGatedCreate();
    var stamp, later := Stamp(s.clock + 1, 0), Stamp(s.clock + 2, 0);
    var next := ProvisionedAnswerIsTaken(r, stamp, later);
    var a := Answer(1, SampleAnswer(Provisioning, None), stamp, later);
    AnswerIsStored(s, a, r, next);
    StepReaches(s, a);
    assert Saved(s.records, next, Some(r.updatedAt)) == Ok(s.records[1 := next]);
    LogOfTheFirst(s, r);
  }

  lemma LogOfTheFirst(s: System, r: Record)
    requires Reachable(s) && s.records == map[1 := r] && |r.audit| == 1
    ensures 1 in s.logs && |s.logs[1]| == 1 && s.logs[1][0].record == r
  {
    var states, actions :| IsRun(states, actions) && s == states[|actions|];
    RunsKeepInvariant(states, actions, |actions|);
    var log := s.logs[1];
    assert LogOk(log, 1, s.clock);
    if |log| > 1 { ChainRises(log, 0, |log| - 1); }
  }
}
