/** Whether a create keeps a second provider client away: what it reads, and what may be stored before it starts. */
module ProvisioningClients {
  import opened Wrappers
  import opened IdentityProvisioning
  import opened IdentityEngine
  import opened ProvisioningProtocol
  import opened ProvisioningTheorems

  predicate CreateCall(call: Call, clientRef: Id) {
    && call.request.RunRequest? && call.request.wellFormed && call.request.operation == CreateOp
    && call.request.plan.clientRef == clientRef
  }

  // The version of the client that was updated last exists and is not retired.
  ghost predicate NewestIsLive(records: Records, clientRef: Id) {
    exists r: Record :: IsLatest(records, clientRef, Some(r)) && r.state != Retired
  }

  // No two stored versions were updated at the same time, and none after the last reading of the clock.
  ghost predicate TimesOk(s: System) {
    && (forall k, l :: k in s.records && l in s.records && k != l ==> s.records[k].updatedAt != s.records[l].updatedAt)
    && (forall k :: k in s.records ==> s.records[k].key == k && s.records[k].updatedAt <= s.clock)
  }

  lemma NewestIsUnique(s: System, clientRef: Id, x: Option<Record>, y: Option<Record>)
    requires TimesOk(s) && IsLatest(s.records, clientRef, x) && IsLatest(s.records, clientRef, y)
    ensures x == y
  {
    if x.Some? && y.Some? {
      var k :| k in s.records && s.records[k] == x.value;
      var l :| l in s.records && s.records[l] == y.value;
    }
  }

  // ------------------------------------------------------------------------------- what a step stores

  // The step stores this version: newer than all others, over an earlier version of the same client or as a first.
  predicate Stores(s: System, t: System, r: Record) {
    && t.records == s.records[r.key := r] && s.clock < r.updatedAt <= t.clock
    && (r.key in s.records ==> s.records[r.key].clientRef == r.clientRef)
  }

  ghost predicate StoresFor(s: System, t: System, clientRef: Id) {
    exists r :: Stores(s, t, r) && r.clientRef == clientRef
  }

  ghost predicate StoresLiveFor(s: System, t: System, clientRef: Id) {
    exists r :: Stores(s, t, r) && r.clientRef == clientRef && r.state != Retired
  }

  ghost predicate StoresAtMostOne(s: System, t: System) {
    (t.records == s.records && s.clock <= t.clock) || exists r :: Stores(s, t, r)
  }

  lemma StoreStores(s: System, c: Id, now: Time, expected: Option<Time>, entry: Entry, pc: Pc)
    requires c in s.calls && s.clock < entry.record.updatedAt <= now
    ensures StoresAtMostOne(s, Store(s, c, now, expected, entry, pc))
  {
    if Saved(s.records, entry.record, expected).Ok? {
      assert Stores(s, Store(s, c, now, expected, entry, pc), entry.record);
    }
  }

  lemma AnswerStores(s: System, a: Action)
    requires Invariant(s) && Enabled(s, a) && a.Answer?
    ensures StoresAtMostOne(s, Perform(s, a))
  {
    var base, q := s.calls[a.c].pc.base, s.calls[a.c].request;
    assert PcOk(s, s.calls[a.c].pc);
    BaseIsOld(s, base);
    AnswerFollows(q.plan, base, a.result, q.actor, a.stamp, a.later);
    StoreStores(s, a.c, a.later.at, Some(base.updatedAt),
      Entry(Applied(q.plan, base, a.result, q.actor, a.stamp, a.later), q.plan, a.result.nextState == Ready), Done);
  }

  lemma FirstVersionStores(s: System, a: Action)
    requires Enabled(s, a) && (a.Refuse? || a.Start?)
    ensures StoresAtMostOne(s, Perform(s, a))
  {
    var q, pc := s.calls[a.c].request, s.calls[a.c].pc;
    if a.Refuse? {
      StoreStores(s, a.c, a.stamp.at, None,
        Entry(RefusedRecord(q.wellFormed, q.plan, q.operation, q.key, q.actor, a.operationId, a.stamp), q.plan, false), Done);
    } else {
      var r := StartedRecord(q.wellFormed, q.plan, q.operation, q.key, q.actor, a.operationId,
                             if pc.previous.Some? then pc.previous.value.secret else None, a.stamp);
      StoreStores(s, a.c, a.stamp.at, None, Entry(r, q.plan, false), WantAuthorization(r));
    }
  }

  lemma RecoveryStores(s: System, a: Action)
    requires Invariant(s) && Enabled(s, a) && a.Recover?
    ensures StoresAtMostOne(s, Perform(s, a))
  {
    var base, q := s.calls[a.c].pc.base, s.calls[a.c].request;
    assert PcOk(s, s.calls[a.c].pc);
    BaseIsOld(s, base);
    RecoveryFollows(base, a.stamp, q.actor);
    var r := RecoveringRecord(base, a.stamp, q.actor).value;
    StoreStores(s, a.c, a.stamp.at, Some(base.updatedAt), Entry(r, q.plan, false), WantAuthorization(r));
  }

  lemma AuthorizationStores(s: System, a: Action)
    requires Invariant(s) && Enabled(s, a) && a.Authorize?
    ensures StoresAtMostOne(s, Perform(s, a))
  {
    var base, q := s.calls[a.c].pc.base, s.calls[a.c].request;
    assert PcOk(s, s.calls[a.c].pc);
    BaseIsOld(s, base);
    if base.state == Preflight {
      AuthorizationFollows(base, a.stamp, q.actor, "preflight-completed", "provider-write-authorized");
      var r := TransitionAt(base, Provisioning, a.stamp, q.actor, "preflight-completed", "provider-write-authorized").value;
      StoreStores(s, a.c, a.stamp.at, Some(base.updatedAt), Entry(r, q.plan, false), InAdapter(r));
    }
  }

  lemma DecisionStores(s: System, a: Action)
    requires Invariant(s) && Enabled(s, a) && a.Decide?
    ensures StoresAtMostOne(s, Perform(s, a))
  {
    var base, q := s.calls[a.c].pc.base, s.calls[a.c].request;
    assert PcOk(s, s.calls[a.c].pc);
    DecisionShape(base, q.decision, q.actor, a.stamp);
    var r := DecidedRecord(base, q.decision, q.actor, a.stamp).value;
    DecideStores(s, a.c, a.stamp, r);
    StoreStores(s, a.c, a.stamp.at, Some(base.updatedAt), Entry(r, q.plan, false),
      if r.state == Provisioning then WantPreflight(r) else Done);
  }

  lemma FailingStepStores(s: System, a: Action)
    requires Enabled(s, a) && (a.Throw? || a.Reject?)
    ensures StoresAtMostOne(s, Perform(s, a))
  {
    var base, q := s.calls[a.c].pc.base, s.calls[a.c].request;
    if a.Throw? {
      StoreStores(s, a.c, a.stamp.at, Some(base.updatedAt),
        Entry(FailAt(base, a.stamp, q.actor, "adapter-execution-failed", true, "provider-error"), q.plan, false), Done);
    } else {
      StoreStores(s, a.c, a.stamp.at, Some(base.updatedAt),
        Entry(AppendAuditAt(base, a.stamp, q.actor, "authority-decision-rejected", Failure, "rejected"), q.plan, false), Done);
    }
  }

  lemma StepStoresAtMostOne(s: System, a: Action)
    requires Invariant(s) && Enabled(s, a)
    ensures StoresAtMostOne(s, Perform(s, a))
  {
    match a
    case Refuse(_, _, _) => FirstVersionStores(s, a);
    case Start(_, _, _) => FirstVersionStores(s, a);
    case Recover(_, _) => RecoveryStores(s, a);
    case Authorize(_, _) => AuthorizationStores(s, a);
    case Answer(_, _, _, _) => AnswerStores(s, a);
    case Throw(_, _) => FailingStepStores(s, a);
    case Reject(_, _) => FailingStepStores(s, a);
    case Decide(_, _) => DecisionStores(s, a);
    case _ => QuietStepStoresNothing(s, a);
  }

  lemma StoringKeepsTimes(s: System, t: System)
    requires TimesOk(s) && StoresAtMostOne(s, t)
    ensures TimesOk(t)
  {
    if t.records != s.records {
      var r :| Stores(s, t, r);
    }
  }

  lemma {:induction false} RunsKeepTimes(states: seq<System>, actions: seq<Action>, i: nat)
    requires IsRun(states, actions) && i < |states|
    ensures Invariant(states[i]) && TimesOk(states[i])
  {
    RunsKeepInvariant(states, actions, i);
    if i > 0 {
      RunsKeepTimes(states, actions, i - 1);
      StepStoresAtMostOne(states[i - 1], actions[i - 1]);
      StoringKeepsTimes(states[i - 1], states[i]);
    }
  }

  // A stored version is the newest of its client, and the newest of any other client stays.
  lemma StoredIsNewest(s: System, t: System, r: Record, clientRef: Id)
    requires TimesOk(s) && Stores(s, t, r)
    ensures if r.clientRef == clientRef then IsLatest(t.records, clientRef, Some(r))
            else forall x :: IsLatest(s.records, clientRef, x) <==> IsLatest(t.records, clientRef, x)
  {
    if r.clientRef == clientRef {
      assert t.records[r.key] == r;
    } else {
      forall x: Option<Record> ensures IsLatest(s.records, clientRef, x) <==> IsLatest(t.records, clientRef, x) {
        OtherClientsKeepNewest(s, t, r, clientRef, x);
      }
    }
  }

  lemma OtherClientsKeepNewest(s: System, t: System, r: Record, clientRef: Id, x: Option<Record>)
    requires Stores(s, t, r) && r.clientRef != clientRef
    ensures IsLatest(s.records, clientRef, x) <==> IsLatest(t.records, clientRef, x)
  {
    forall k ensures (k in s.records && s.records[k].clientRef == clientRef) <==> (k in t.records && t.records[k].clientRef == clientRef) {}
    assert forall k :: k in s.records && s.records[k].clientRef == clientRef ==> t.records[k] == s.records[k];
    if x.Some? && x.value.clientRef == clientRef {
      assert x.value in s.records.Values <==> x.value in t.records.Values by {
        if k :| k in s.records && s.records[k] == x.value { assert t.records[k] == x.value; }
        if k :| k in t.records && t.records[k] == x.value { assert s.records[k] == x.value; }
      }
    }
  }

  // How a step changes whether the newest version of a client is live.
  lemma NewestAfterStep(s: System, a: Action, clientRef: Id)
    requires Invariant(s) && TimesOk(s) && Enabled(s, a)
    ensures var t := Perform(s, a);
      if StoresFor(s, t, clientRef) then NewestIsLive(t.records, clientRef) <==> StoresLiveFor(s, t, clientRef)
      else NewestIsLive(t.records, clientRef) <==> NewestIsLive(s.records, clientRef)
  {
    var t := Perform(s, a);
    StepStoresAtMostOne(s, a);
    StoringKeepsTimes(s, t);
    if StoresFor(s, t, clientRef) {
      var r :| Stores(s, t, r) && r.clientRef == clientRef;
      StoredIsNewest(s, t, r, clientRef);
      forall q | Stores(s, t, q) ensures q == r { StoredOnce(s, t, q, r); }
      forall q: Record | IsLatest(t.records, clientRef, Some(q)) ensures q == r { NewestIsUnique(t, clientRef, Some(q), Some(r)); }
    } else if t.records != s.records {
      var r :| Stores(s, t, r);
      StoredIsNewest(s, t, r, clientRef);
    }
  }

  lemma StoredOnce(s: System, t: System, q: Record, r: Record)
    requires TimesOk(s) && Stores(s, t, q) && Stores(s, t, r)
    ensures q == r
  {
    assert t.records[q.key] == q && t.records[r.key] == r;
  }

  // ------------------------------------------------------------------------------------- the refusal

  // A create is refused exactly if the newest version of its client exists and is not retired; a live version
  // that is not the newest does not count.
  lemma CreateIsRefusedExactly(states: seq<System>, actions: seq<Action>, i: nat, c: Id, clientRef: Id)
    requires IsRun(states, actions) && i < |actions| && actions[i].Latest? && actions[i].c == c
    requires CreateCall(states[i].calls[c], clientRef)
    ensures c in states[i + 1].calls
    ensures if NewestIsLive(states[i].records, clientRef) then states[i + 1].calls[c].pc == WantRefusal
            else states[i + 1].calls[c].pc == WantStart(actions[i].previous)
  {
    RunsKeepTimes(states, actions, i);
    var s, previous := states[i], actions[i].previous;
    assert states[i + 1] == SetPc(s, c, if previous.Some? && previous.value.state != Retired then WantRefusal else WantStart(previous));
    if NewestIsLive(s.records, clientRef) {
      var r: Record :| IsLatest(s.records, clientRef, Some(r)) && r.state != Retired;
      NewestIsUnique(s, clientRef, Some(r), previous);
    }
  }

  ghost predicate StepStoresFor(states: seq<System>, k: nat, clientRef: Id)
    requires k + 1 < |states|
  {
    StoresFor(states[k], states[k + 1], clientRef)
  }

  ghost predicate StepStoresLiveFor(states: seq<System>, k: nat, clientRef: Id)
    requires k + 1 < |states|
  {
    StoresLiveFor(states[k], states[k + 1], clientRef)
  }

  // The last version of the client that is stored after step i and before state j is stored at step k, live.
  ghost predicate LastStoredLive(states: seq<System>, i: nat, j: nat, k: nat, clientRef: Id)
    requires j < |states|
  {
    && i < k < j && StepStoresLiveFor(states, k, clientRef)
    && forall m :: k < m < j ==> !StepStoresFor(states, m, clientRef)
  }

  ghost predicate LastTrue(stores: seq<bool>, live: seq<bool>, i: nat, j: nat, k: nat)
    requires |live| == |stores| && j <= |stores|
  {
    i < k < j && live[k] && forall m :: k < m < j ==> !stores[m]
  }

  // A flag that each storing step sets and the other steps keep shows what the last storing step set.
  lemma {:induction false} LastStepDecides(flag: seq<bool>, stores: seq<bool>, live: seq<bool>, i: nat, j: nat)
    requires |flag| == |stores| + 1 && |live| == |stores| && i < j < |flag| && !flag[i + 1]
    requires forall k :: 0 <= k < |stores| ==> (live[k] ==> stores[k]) && (flag[k + 1] <==> if stores[k] then live[k] else flag[k])
    ensures flag[j] <==> exists k :: LastTrue(stores, live, i, j, k)
    decreases j - i
  {
    if j > i + 1 {
      var before := j - 1;
      LastStepDecides(flag, stores, live, i, before);
      assert flag[before + 1] <==> if stores[before] then live[before] else flag[before];
      if flag[j] {
        if stores[before] {
          assert LastTrue(stores, live, i, j, before);
        } else {
          var k :| LastTrue(stores, live, i, before, k);
          assert LastTrue(stores, live, i, j, k);
        }
      }
      if k: nat :| LastTrue(stores, live, i, j, k) {
        if k < before { assert LastTrue(stores, live, i, before, k); }
      }
    }
  }

  lemma RunNewestAfterStep(states: seq<System>, actions: seq<Action>, k: nat, clientRef: Id)
    requires IsRun(states, actions) && k < |actions|
    ensures StepStoresLiveFor(states, k, clientRef) ==> StepStoresFor(states, k, clientRef)
    ensures NewestIsLive(states[k + 1].records, clientRef) <==>
      if StepStoresFor(states, k, clientRef) then StepStoresLiveFor(states, k, clientRef)
      else NewestIsLive(states[k].records, clientRef)
  {
    RunsKeepTimes(states, actions, k);
    NewestAfterStep(states[k], actions[k], clientRef);
  }

  lemma LetThroughOverNothingLive(states: seq<System>, actions: seq<Action>, i: nat, c: Id, clientRef: Id)
    requires IsRun(states, actions) && i < |actions| && actions[i].Latest? && actions[i].c == c
    requires CreateCall(states[i].calls[c], clientRef) && c in states[i + 1].calls && states[i + 1].calls[c].pc.WantStart?
    ensures !NewestIsLive(states[i + 1].records, clientRef)
  {
    CreateIsRefusedExactly(states, actions, i, c, clientRef);
    QuietStepStoresNothing(states[i], actions[i]);
  }

  // A create that was let through finds a live newest version when it starts exactly if a version of its client
  // was stored since it read, and the last of those is live.
  lemma CreateStartsOverALiveVersionExactly(states: seq<System>, actions: seq<Action>, i: nat, j: nat, c: Id, clientRef: Id)
    requires IsRun(states, actions) && i < j < |states| && actions[i].Latest? && actions[i].c == c
    requires CreateCall(states[i].calls[c], clientRef) && c in states[i + 1].calls && states[i + 1].calls[c].pc.WantStart?
    ensures NewestIsLive(states[j].records, clientRef) <==> exists k :: LastStoredLive(states, i, j, k, clientRef)
  {
    LetThroughOverNothingLive(states, actions, i, c, clientRef);
    var n := |actions|;
    var flag := seq(n + 1, k requires 0 <= k < n + 1 && n + 1 == |states| => NewestIsLive(states[k].records, clientRef));
    var stores := seq(n, k requires 0 <= k < n && n + 1 == |states| => StepStoresFor(states, k, clientRef));
    var live := seq(n, k requires 0 <= k < n && n + 1 == |states| => StepStoresLiveFor(states, k, clientRef));
    forall k | 0 <= k < n ensures (live[k] ==> stores[k]) && (flag[k + 1] <==> if stores[k] then live[k] else flag[k]) {
      RunNewestAfterStep(states, actions, k, clientRef);
    }
    LastStepDecides(flag, stores, live, i, j);
    forall k: nat ensures LastTrue(stores, live, i, j, k) <==> LastStoredLive(states, i, j, k, clientRef) {
      FlagsMatch(states, stores, live, i, j, k, clientRef);
    }
  }

  lemma FlagsMatch(states: seq<System>, stores: seq<bool>, live: seq<bool>, i: nat, j: nat, k: nat, clientRef: Id)
    requires |states| == |stores| + 1 == |live| + 1 && j < |states|
    requires forall m :: 0 <= m < |stores| ==> stores[m] == StepStoresFor(states, m, clientRef) && live[m] == StepStoresLiveFor(states, m, clientRef)
    ensures LastTrue(stores, live, i, j, k) <==> LastStoredLive(states, i, j, k, clientRef)
  {
  }
}
