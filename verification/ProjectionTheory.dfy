/** Laws of the replay: it depends on the order of events and not on their numbers, the last
    import is a checkpoint, and module activity is a join. */
module ProjectionTheory {
  import opened Wrappers
  import Sequences
  import opened LearningEvents
  import opened Projection

  // Two replays that mean the same: they differ at most in the sequence numbers they remember.
  predicate SameMeaning(r: Replay, s: Replay) {
    r.tables == s.tables && r.snapshot == s.snapshot && r.synchronizedAt == s.synchronizedAt
  }

  predicate SameOutcome(r: Result<Replay, ErrorCode>, s: Result<Replay, ErrorCode>) {
    match (r, s)
    case (Ok(x), Ok(y)) => SameMeaning(x, y)
    case (Err(c), Err(d)) => c == d
    case _ => false
  }

  lemma {:induction false} ReplayConcat(r: Replay, a: seq<Event>, b: seq<Event>, scope: Scope)
    ensures ReplayFrom(r, a + b, scope)
         == match ReplayFrom(r, a, scope)
            case Err(code) => Err(code)
            case Ok(mid) => ReplayFrom(mid, b, scope)
    decreases |a|
  {
    if a == [] {
      assert a + b == b;
    } else {
      assert (a + b)[0] == a[0] && (a + b)[1..] == a[1..] + b;
      match Step(r, a[0], scope)
      case Err(_) =>
      case Ok(next) => ReplayConcat(next, a[1..], b, scope);
    }
  }

  lemma ReplaySnoc(r: Replay, a: seq<Event>, e: Event, scope: Scope)
    ensures ReplayFrom(r, a + [e], scope)
         == match ReplayFrom(r, a, scope)
            case Err(code) => Err(code)
            case Ok(mid) => Step(mid, e, scope)
  {
    ReplayConcat(r, a, [e], scope);
    match ReplayFrom(r, a, scope)
    case Err(_) =>
    case Ok(mid) =>
      match Step(mid, e, scope)
      case Err(_) =>
      case Ok(next) => assert ReplayFrom(next, [e][1..], scope) == Ok(next);
  }

  // The remembered sequence number never exceeds the last event's.
  lemma {:induction false} LastSequence(r: Replay, a: seq<Event>, scope: Scope)
    requires ReplayFrom(r, a, scope).Ok?
    ensures ReplayFrom(r, a, scope).value.lastSequence == if a == [] then r.lastSequence else a[|a| - 1].sequence
    decreases |a|
  {
    if a != [] {
      LastSequence(Step(r, a[0], scope).value, a[1..], scope);
    }
  }

  predicate StartsAfter(r: Replay, a: seq<Event>) {
    a == [] || r.lastSequence < a[0].sequence
  }

  // Renumbering a log, keeping its order, changes neither whether it replays, nor the error, nor the tables.
  lemma {:induction false} RenumberingFrom(r: Replay, s: Replay, a: seq<Event>, b: seq<Event>, scope: Scope)
    requires SameMeaning(r, s) && Bodies(a) == Bodies(b)
    requires Increasing(a) && Increasing(b) && StartsAfter(r, a) && StartsAfter(s, b)
    ensures SameOutcome(ReplayFrom(r, a, scope), ReplayFrom(s, b, scope))
    decreases |a|
  {
    assert |a| == |b| by { assert |Bodies(a)| == |Bodies(b)|; }
    if a != [] {
      assert a[0].body == Bodies(a)[0] == Bodies(b)[0] == b[0].body;
      var x, y := Step(r, a[0], scope), Step(s, b[0], scope);
      if x.Ok? {
        assert Bodies(a[1..]) == Bodies(a)[1..] == Bodies(b)[1..] == Bodies(b[1..]);
        RenumberingFrom(x.value, y.value, a[1..], b[1..], scope);
      }
    }
  }

  lemma ReplayDependsOnlyOnOrder(a: seq<Event>, b: seq<Event>, scope: Scope)
    requires Bodies(a) == Bodies(b) && Increasing(a) && Increasing(b)
    ensures SameOutcome(ReplayFrom(EMPTY_REPLAY, a, scope), ReplayFrom(EMPTY_REPLAY, b, scope))
    ensures Replays(a, scope) <==> Replays(b, scope)
  {
    RenumberingFrom(EMPTY_REPLAY, EMPTY_REPLAY, a, b, scope);
  }

  lemma PrefixReplays(a: seq<Event>, b: seq<Event>, scope: Scope)
    requires Replays(a + b, scope)
    ensures Replays(a, scope)
  {
    ReplayConcat(EMPTY_REPLAY, a, b, scope);
  }

  // A log that replays is ascending, belongs to the scope and holds only valid events.
  lemma {:induction false} ReplayableIsAscending(r: Replay, a: seq<Event>, scope: Scope)
    requires ReplayFrom(r, a, scope).Ok? && 0 <= r.lastSequence
    ensures Increasing(a) && forall i :: 0 <= i < |a| ==> r.lastSequence < a[i].sequence
    ensures forall i :: 0 <= i < |a| ==> ValidEvent(a[i]) && a[i].body.scope == scope
    decreases |a|
  {
    if a != [] {
      ReplayableIsAscending(Step(r, a[0], scope).value, a[1..], scope);
      assert a == [a[0]] + a[1..];
      forall i | 0 < i < |a| ensures a[0].sequence < a[i].sequence && ValidEvent(a[i]) && a[i].body.scope == scope {
        assert a[i] == a[1..][i - 1];
      }
      forall i, j | 0 < i < j < |a| ensures a[i].sequence < a[j].sequence {
        assert a[i] == a[1..][i - 1] && a[j] == a[1..][j - 1];
      }
    }
  }

  // The last import is a checkpoint: what precedes it leaves no trace but the revision count.
  lemma ImportIsACheckpoint(before: seq<Event>, imported: Event, after: seq<Event>, scope: Scope)
    requires imported.body.payload.ProgressImported?
    requires Replays(before, scope)
    requires before != [] ==> before[|before| - 1].sequence < imported.sequence
    ensures ReplayFrom(EMPTY_REPLAY, before + [imported] + after, scope)
         == ReplayFrom(EMPTY_REPLAY, [imported] + after, scope)
    ensures var whole := Project(before + [imported] + after, scope);
            var short := Project([imported] + after, scope);
            && (whole.Err? || short.Err? ==> whole == short)
            && (whole.Ok? ==> short.Ok? && whole.value == short.value.(revision := |before| + 1 + |after|))
  {
    ReplayConcat(EMPTY_REPLAY, before + [imported], after, scope);
    ReplayConcat(EMPTY_REPLAY, [imported], after, scope);
    ReplaySnoc(EMPTY_REPLAY, before, imported, scope);
    ReplaySnoc(EMPTY_REPLAY, [], imported, scope);
    assert [] + [imported] == [imported];
    LastSequence(EMPTY_REPLAY, before, scope);
    var mid := ReplayFrom(EMPTY_REPLAY, before, scope).value;
    assert Step(mid, imported, scope) == Step(EMPTY_REPLAY, imported, scope);
  }

  // Module activity.

  predicate IsActivity(b: Candidate) {
    b.payload.ModuleVisited? || b.payload.ModuleCompleted?
  }

  predicate Touches(b: Candidate, k: ModuleKey, completion: bool) {
    match b.payload
    case ModuleVisited(p, m) => !completion && k == ModuleKey(p, m, b.contentVersion)
    case ModuleCompleted(p, m, _) => completion && k == ModuleKey(p, m, b.contentVersion)
    case _ => false
  }

  ghost predicate IsEarliest(at: Option<Time>, bodies: seq<Candidate>, k: ModuleKey, completion: bool) {
    match at
    case None => forall b :: b in bodies ==> !Touches(b, k, completion)
    case Some(t) =>
      && (exists b :: b in bodies && Touches(b, k, completion) && b.occurredAt == t)
      && (forall b :: b in bodies && Touches(b, k, completion) ==> t <= b.occurredAt)
  }

  ghost function RefsOf(bodies: seq<Candidate>, k: ModuleKey): set<Id> {
    set b, r | b in bodies && Touches(b, k, true) && r in b.payload.evidenceRefs :: r
  }

  // What the events say about one module, without regard to their order or repetition.
  ghost predicate Summarises(m: ModuleState, bodies: seq<Candidate>, k: ModuleKey) {
    && IsEarliest(m.firstVisitedAt, bodies, k, false)
    && IsEarliest(m.completedAt, bodies, k, true)
    && m.completed == m.completedAt.Some?
    && m.evidenceRefs == RefsOf(bodies, k)
  }

  predicate NoImport(events: seq<Event>) {
    forall i :: 0 <= i < |events| ==> !events[i].body.payload.ProgressImported?
  }

  ghost predicate Active(bodies: seq<Candidate>, k: ModuleKey) {
    exists b :: b in bodies && (Touches(b, k, false) || Touches(b, k, true))
  }

  lemma EarliestSnoc(at: Option<Time>, bodies: seq<Candidate>, b: Candidate, k: ModuleKey, completion: bool)
    requires IsEarliest(at, bodies, k, completion)
    ensures IsEarliest(if Touches(b, k, completion) then Earlier(at, b.occurredAt) else at, bodies + [b], k, completion)
  {
    assert forall x :: x in bodies + [b] <==> x in bodies || x == b;
    if at.Some? {
      var w :| w in bodies && Touches(w, k, completion) && w.occurredAt == at.value;
      assert w in bodies + [b];
    }
    assert b in bodies + [b];
  }

  lemma RefsSnoc(bodies: seq<Candidate>, b: Candidate, k: ModuleKey)
    ensures RefsOf(bodies + [b], k)
         == RefsOf(bodies, k) + (if Touches(b, k, true) then Elements(b.payload.evidenceRefs) else {})
  {
    assert forall x :: x in bodies + [b] <==> x in bodies || x == b;
  }

  lemma UntouchedSummary(m: ModuleState, bodies: seq<Candidate>, b: Candidate, k: ModuleKey)
    requires Summarises(m, bodies, k) && !Touches(b, k, false) && !Touches(b, k, true)
    ensures Summarises(m, bodies + [b], k)
  {
    EarliestSnoc(m.firstVisitedAt, bodies, b, k, false);
    EarliestSnoc(m.completedAt, bodies, b, k, true);
    RefsSnoc(bodies, b, k);
    assert RefsOf(bodies + [b], k) == RefsOf(bodies, k);
  }

  lemma VisitedSummary(m: ModuleState, bodies: seq<Candidate>, b: Candidate, k: ModuleKey)
    requires Summarises(m, bodies, k) && Touches(b, k, false)
    ensures Summarises(VisitModule(m, b.occurredAt), bodies + [b], k)
  {
    EarliestSnoc(m.firstVisitedAt, bodies, b, k, false);
    EarliestSnoc(m.completedAt, bodies, b, k, true);
    RefsSnoc(bodies, b, k);
    assert RefsOf(bodies + [b], k) == RefsOf(bodies, k);
  }

  lemma CompletedSummary(m: ModuleState, bodies: seq<Candidate>, b: Candidate, k: ModuleKey)
    requires Summarises(m, bodies, k) && Touches(b, k, true)
    ensures Summarises(CompleteModule(m, b.occurredAt, b.payload.evidenceRefs), bodies + [b], k)
  {
    EarliestSnoc(m.firstVisitedAt, bodies, b, k, false);
    EarliestSnoc(m.completedAt, bodies, b, k, true);
    RefsSnoc(bodies, b, k);
  }

  // One applied event changes the entry of module k exactly as the event's own activity says.
  lemma ApplyAt(t: Tables, b: Candidate, k: ModuleKey)
    requires Apply(t, b).Ok?
    ensures ModuleAt(Apply(t, b).value, k)
         == if Touches(b, k, false) then VisitModule(ModuleAt(t, k), b.occurredAt)
            else if Touches(b, k, true) then CompleteModule(ModuleAt(t, k), b.occurredAt, b.payload.evidenceRefs)
            else ModuleAt(t, k)
    ensures k in Apply(t, b).value.modules <==> k in t.modules || Touches(b, k, false) || Touches(b, k, true)
  {
  }

  lemma {:induction false} ModuleActivityIsAJoin(events: seq<Event>, scope: Scope, k: ModuleKey)
    requires Replays(events, scope) && NoImport(events)
    ensures var t := ReplayFrom(EMPTY_REPLAY, events, scope).value.tables;
            && Summarises(ModuleAt(t, k), Bodies(events), k)
            && (k in t.modules <==> Active(Bodies(events), k))
    decreases |events|
  {
    if events != [] {
      var n := |events| - 1;
      var prior, last := events[..n], events[n];
      assert events == prior + [last];
      ReplaySnoc(EMPTY_REPLAY, prior, last, scope);
      ModuleActivityIsAJoin(prior, scope, k);
      var bodies := Bodies(prior);
      assert Bodies(events) == bodies + [last.body];
      assert forall x :: x in bodies + [last.body] <==> x in bodies || x == last.body;
      var t := ReplayFrom(EMPTY_REPLAY, prior, scope).value.tables;
      ApplyAt(t, last.body, k);
      if Touches(last.body, k, false) {
        VisitedSummary(ModuleAt(t, k), bodies, last.body, k);
      } else if Touches(last.body, k, true) {
        CompletedSummary(ModuleAt(t, k), bodies, last.body, k);
      } else {
        UntouchedSummary(ModuleAt(t, k), bodies, last.body, k);
      }
    }
  }

  lemma EarliestIsUnique(x: Option<Time>, y: Option<Time>, a: seq<Candidate>, b: seq<Candidate>,
                         k: ModuleKey, completion: bool)
    requires forall e :: e in a <==> e in b
    requires IsEarliest(x, a, k, completion) && IsEarliest(y, b, k, completion)
    ensures x == y
  {
    if x.Some? {
      var e :| e in a && Touches(e, k, completion) && e.occurredAt == x.value;
      assert e in b;
    }
    if y.Some? {
      var e :| e in b && Touches(e, k, completion) && e.occurredAt == y.value;
      assert e in a;
    }
  }

  // Any two orders of the same events that both replay give the same modules.
  lemma ModulesDoNotDependOnOrder(a: seq<Event>, b: seq<Event>, scope: Scope)
    requires Replays(a, scope) && Replays(b, scope) && NoImport(a) && NoImport(b)
    requires forall e :: e in Bodies(a) <==> e in Bodies(b)
    ensures ReplayFrom(EMPTY_REPLAY, a, scope).value.tables.modules
         == ReplayFrom(EMPTY_REPLAY, b, scope).value.tables.modules
  {
    var s, t := ReplayFrom(EMPTY_REPLAY, a, scope).value.tables, ReplayFrom(EMPTY_REPLAY, b, scope).value.tables;
    forall k: ModuleKey
      ensures (k in s.modules <==> k in t.modules) && ModuleAt(s, k) == ModuleAt(t, k)
    {
      ModuleActivityIsAJoin(a, scope, k);
      ModuleActivityIsAJoin(b, scope, k);
      EarliestIsUnique(ModuleAt(s, k).firstVisitedAt, ModuleAt(t, k).firstVisitedAt, Bodies(a), Bodies(b), k, false);
      EarliestIsUnique(ModuleAt(s, k).completedAt, ModuleAt(t, k).completedAt, Bodies(a), Bodies(b), k, true);
      assert RefsOf(Bodies(a), k) == RefsOf(Bodies(b), k);
    }
    assert s.modules.Keys == t.modules.Keys;
    forall k | k in s.modules ensures s.modules[k] == t.modules[k] {
      assert ModuleAt(s, k) == ModuleAt(t, k);
    }
  }

  function Touch(m: ModuleState, b: Candidate): ModuleState
    requires IsActivity(b)
  {
    if b.payload.ModuleVisited? then VisitModule(m, b.occurredAt)
    else CompleteModule(m, b.occurredAt, b.payload.evidenceRefs)
  }

  lemma TouchesCommute(m: ModuleState, x: Candidate, y: Candidate)
    requires IsActivity(x) && IsActivity(y)
    ensures Touch(Touch(m, x), y) == Touch(Touch(m, y), x)
  {
    if x.payload.ModuleCompleted? && y.payload.ModuleCompleted? {
      var p, q := Elements(x.payload.evidenceRefs), Elements(y.payload.evidenceRefs);
      assert m.evidenceRefs + p + q == m.evidenceRefs + q + p;
    }
  }

  function KeyOf(b: Candidate): ModuleKey
    requires IsActivity(b)
  {
    ModuleKey(b.payload.pathId, b.payload.moduleId, b.contentVersion)
  }

  lemma ActivityEffect(t: Tables, x: Candidate)
    requires IsActivity(x)
    ensures Apply(t, x) == if EnrolledModule(t, x.payload.pathId, x.payload.moduleId, x.contentVersion)
                           then Ok(t.(modules := t.modules[KeyOf(x) := Touch(ModuleAt(t, KeyOf(x)), x)]))
                           else Err(ProjectionConflict)
  {
  }

  // Two visits or completions have the same effect on the tables in either order.
  lemma ActivityCommutesInTables(t: Tables, x: Candidate, y: Candidate)
    requires IsActivity(x) && IsActivity(y)
    ensures var one := Apply(t, x); var two := Apply(t, y);
            && (one.Ok? && Apply(one.value, y).Ok? <==> two.Ok? && Apply(two.value, x).Ok?)
            && (one.Ok? && Apply(one.value, y).Ok? ==> Apply(one.value, y) == Apply(two.value, x))
  {
    ActivityEffect(t, x);
    ActivityEffect(t, y);
    if Apply(t, x).Ok? && Apply(t, y).Ok? {
      ActivityEffect(Apply(t, x).value, y);
      ActivityEffect(Apply(t, y).value, x);
      EntriesCommute(t.modules, KeyOf(x), KeyOf(y), x, y);
    }
  }

  // The entries of two modules, or of one module twice, in either order.
  lemma EntriesCommute(modules: map<ModuleKey, ModuleState>, k: ModuleKey, l: ModuleKey, x: Candidate, y: Candidate)
    requires IsActivity(x) && IsActivity(y)
    ensures var at := (m: map<ModuleKey, ModuleState>, key: ModuleKey) => if key in m then m[key] else NO_ACTIVITY;
      var one := modules[k := Touch(at(modules, k), x)];
      var two := modules[l := Touch(at(modules, l), y)];
      one[l := Touch(at(one, l), y)] == two[k := Touch(at(two, k), x)]
  {
    if k == l { TouchesCommute(if k in modules then modules[k] else NO_ACTIVITY, x, y); }
  }

  // Two neighbouring visits or completions can trade places without renumbering.
  lemma SwappedStepsAgree(r: Replay, x: Event, y: Event, scope: Scope)
    requires IsActivity(x.body) && IsActivity(y.body) && r.lastSequence < x.sequence < y.sequence && 1 <= x.sequence
    ensures var one, two := ReplayFrom(r, [x, y], scope), ReplayFrom(r, [Event(x.sequence, y.body), Event(y.sequence, x.body)], scope);
      if one.Ok? then one == two else two.Err?
  {
    var y', x' := Event(x.sequence, y.body), Event(y.sequence, x.body);
    TwoSteps(r, x, y, scope);
    TwoSteps(r, y', x', scope);
    ActivityCommutesInTables(r.tables, x.body, y.body);
  }

  lemma TwoSteps(r: Replay, x: Event, y: Event, scope: Scope)
    requires IsActivity(x.body) && IsActivity(y.body) && r.lastSequence < x.sequence < y.sequence && 1 <= x.sequence
    ensures ReplayFrom(r, [x, y], scope) ==
      if !ValidBody(x.body) then Err(InvalidEvent)
      else if x.body.scope != scope then Err(ProjectionConflict)
      else match Apply(r.tables, x.body)
        case Err(code) => Err(code)
        case Ok(tables) =>
          if !ValidBody(y.body) then Err(InvalidEvent)
          else if y.body.scope != scope then Err(ProjectionConflict)
          else match Apply(tables, y.body)
            case Err(code) => Err(code)
            case Ok(after) => Ok(r.(tables := after, lastSequence := y.sequence))
  {
    assert [x, y][1..] == [y] && [y][1..] == [];
    match Step(r, x, scope)
    case Err(_) =>
    case Ok(next) =>
      assert ReplayFrom(next, [y], scope) == match Step(next, y, scope) { case Err(code) => Err(code) case Ok(last) => ReplayFrom(last, [], scope) };
  }

  // The projections say the same, transcript and badges included; they may remember other sequence numbers.
  ghost predicate SameProjection(p: Result<Projected, ErrorCode>, q: Result<Projected, ErrorCode>) {
    match (p, q)
    case (Ok(x), Ok(y)) => y == x.(lastSequence := y.lastSequence, snapshotSequence := y.snapshotSequence)
    case (Err(_), Err(_)) => true
    case _ => false
  }

  // Swapping two neighbouring visit or completion events of a log, under any rising numbers, changes neither
  // whether it replays nor its modules, transcript and badges.
  lemma ActivityCommutes(a: seq<Event>, x: Event, y: Event, b: seq<Event>, swapped: seq<Event>, scope: Scope)
    requires IsActivity(x.body) && IsActivity(y.body)
    requires Increasing(a + [x, y] + b) && Increasing(swapped)
    requires Bodies(swapped) == Bodies(a) + [y.body, x.body] + Bodies(b)
    ensures Replays(a + [x, y] + b, scope) <==> Replays(swapped, scope)
    ensures SameProjection(Project(a + [x, y] + b, scope), Project(swapped, scope))
  {
    var pair, turned := [x, y], [Event(x.sequence, y.body), Event(y.sequence, x.body)];
    var log, middle := a + pair + b, a + turned + b;
    assert Increasing(middle) by { assert forall i :: 0 <= i < |log| ==> log[i].sequence == middle[i].sequence; }
    SwappedLogAgrees(a, x, y, b, scope);
    assert Bodies(middle) == Bodies(swapped);
    ReplayDependsOnlyOnOrder(middle, swapped, scope);
    assert |log| == |middle| == |swapped| by { assert |Bodies(middle)| == |Bodies(swapped)|; }
  }

  lemma SwappedLogAgrees(a: seq<Event>, x: Event, y: Event, b: seq<Event>, scope: Scope)
    requires IsActivity(x.body) && IsActivity(y.body) && Increasing(a + [x, y] + b)
    ensures var one := ReplayFrom(EMPTY_REPLAY, a + [x, y] + b, scope);
      var two := ReplayFrom(EMPTY_REPLAY, a + [Event(x.sequence, y.body), Event(y.sequence, x.body)] + b, scope);
      if one.Ok? then one == two else two.Err?
  {
    var pair, turned := [x, y], [Event(x.sequence, y.body), Event(y.sequence, x.body)];
    var log := a + pair + b;
    ReplayConcat(EMPTY_REPLAY, a + pair, b, scope);
    ReplayConcat(EMPTY_REPLAY, a, pair, scope);
    ReplayConcat(EMPTY_REPLAY, a + turned, b, scope);
    ReplayConcat(EMPTY_REPLAY, a, turned, scope);
    match ReplayFrom(EMPTY_REPLAY, a, scope)
    case Err(_) =>
    case Ok(r) =>
      LastSequence(EMPTY_REPLAY, a, scope);
      assert log[|a|] == x && log[|a| + 1] == y;
      assert a != [] ==> log[|a| - 1] == a[|a| - 1];
      SwappedStepsAgree(r, x, y, scope);
  }

  // What holds of the tables in every replay.
  ghost predicate WellFormed(t: Tables) {
    ModulesWellFormed(t) && EnrollmentsWellFormed(t) && AttemptsWellFormed(t)
  }

  ghost predicate ModulesWellFormed(t: Tables) {
    forall k :: k in t.modules ==>
      && (t.modules[k].completed <==> t.modules[k].completedAt.Some?)
      && EnrolledModule(t, k.pathId, k.moduleId, k.contentVersion)
  }

  ghost predicate EnrollmentsWellFormed(t: Tables) {
    forall k :: k in t.enrollments ==>
      var e := t.enrollments[k];
      k == PathKey(e.pathId, e.contentVersion) && e.moduleIds != [] && Sequences.Distinct(e.moduleIds)
  }

  ghost predicate AttemptsWellFormed(t: Tables) {
    forall a :: a in t.attempts ==> EffectiveIsLatest(t.attempts[a])
  }

  predicate EffectiveIsLatest(a: Attempt) {
    if a.corrections == [] then
      a.effectiveScorePercent == a.originalScorePercent && a.effectivePassed == a.originalPassed
    else
      var c := a.corrections[|a.corrections| - 1];
      && a.effectiveScorePercent == c.scorePercent && a.effectivePassed == c.passed
      && forall i :: 0 <= i < |a.corrections| ==> a.corrections[i].assessmentVersion == a.assessmentVersion
  }

  lemma ApplyKeepsEnrollments(t: Tables, b: Candidate)
    requires EnrollmentsWellFormed(t) && ValidBody(b) && Apply(t, b).Ok?
    ensures EnrollmentsWellFormed(Apply(t, b).value)
    ensures forall k :: k in t.enrollments ==> k in Apply(t, b).value.enrollments
                                               && Apply(t, b).value.enrollments[k] == t.enrollments[k]
  {
  }

  lemma ApplyKeepsAttempts(t: Tables, b: Candidate)
    requires AttemptsWellFormed(t) && Apply(t, b).Ok?
    ensures AttemptsWellFormed(Apply(t, b).value)
  {
  }

  lemma ApplyKeepsModules(t: Tables, b: Candidate)
    requires ModulesWellFormed(t) && EnrollmentsWellFormed(t) && ValidBody(b) && Apply(t, b).Ok?
    ensures ModulesWellFormed(Apply(t, b).value)
  {
    ApplyKeepsEnrollments(t, b);
    var u := Apply(t, b).value;
    forall k | k in u.modules
      ensures (u.modules[k].completed <==> u.modules[k].completedAt.Some?)
              && EnrolledModule(u, k.pathId, k.moduleId, k.contentVersion)
    {
      ApplyAt(t, b, k);
    }
  }

  lemma {:induction false} ReplayKeepsWellFormed(r: Replay, events: seq<Event>, scope: Scope)
    requires WellFormed(r.tables) && ReplayFrom(r, events, scope).Ok?
    ensures WellFormed(ReplayFrom(r, events, scope).value.tables)
    decreases |events|
  {
    if events != [] {
      var next := Step(r, events[0], scope).value;
      if !events[0].body.payload.ProgressImported? {
        ApplyKeepsEnrollments(r.tables, events[0].body);
        ApplyKeepsAttempts(r.tables, events[0].body);
        ApplyKeepsModules(r.tables, events[0].body);
      }
      ReplayKeepsWellFormed(next, events[1..], scope);
    }
  }

  ghost predicate CompletedAt(t: Tables, e: Enrollment, moduleId: Id, at: Time) {
    var m := ModuleAt(t, ModuleKey(e.pathId, moduleId, e.contentVersion));
    m.completed && m.completedAt == Some(at)
  }

  lemma {:induction false} LatestCompletionMeaning(t: Tables, e: Enrollment, ids: seq<Id>)
    requires WellFormed(t)
    ensures var r := LatestCompletion(t, e.pathId, e.contentVersion, ids);
            && (r.Some? <==> forall m :: m in ids ==> ModuleAt(t, ModuleKey(e.pathId, m, e.contentVersion)).completed)
            && (r.Some? ==> (r.value.Some? <==> ids != []))
            && (r.Some? && r.value.Some? ==>
                  && (exists m :: m in ids && CompletedAt(t, e, m, r.value.value))
                  && (forall m, at :: m in ids && CompletedAt(t, e, m, at) ==> at <= r.value.value))
    decreases |ids|
  {
    if ids != [] {
      LatestCompletionMeaning(t, e, ids[1..]);
      assert forall m :: m in ids <==> m == ids[0] || m in ids[1..] by { assert ids == [ids[0]] + ids[1..]; }
      var r := LatestCompletion(t, e.pathId, e.contentVersion, ids);
      if r.Some? {
        var rest := LatestCompletion(t, e.pathId, e.contentVersion, ids[1..]).value;
        var head := ModuleAt(t, ModuleKey(e.pathId, ids[0], e.contentVersion)).completedAt;
        assert CompletedAt(t, e, ids[0], head.value);
        if rest.Some? {
          var w :| w in ids[1..] && CompletedAt(t, e, w, rest.value);
          assert w in ids && CompletedAt(t, e, w, rest.value);
        }
      }
    }
  }

  // A badge is earned exactly when every enrolled module is completed, at the last of their completion times.
  lemma BadgeExactlyWhenAllCompleted(events: seq<Event>, scope: Scope, key: PathKey)
    requires Replays(events, scope)
    requires key in ReplayFrom(EMPTY_REPLAY, events, scope).value.tables.enrollments
    ensures var t := ReplayFrom(EMPTY_REPLAY, events, scope).value.tables;
            var e := t.enrollments[key];
            var badge := DeriveBadge(t, e);
            && (badge.Some? <==> forall m :: m in e.moduleIds ==>
                  ModuleAt(t, ModuleKey(key.pathId, m, key.contentVersion)).completed)
            && (badge.Some? ==>
                  && (exists m :: m in e.moduleIds && CompletedAt(t, e, m, badge.value.earnedAt))
                  && (forall m, at :: m in e.moduleIds && CompletedAt(t, e, m, at) ==> at <= badge.value.earnedAt))
  {
    ReplayKeepsWellFormed(EMPTY_REPLAY, events, scope);
    var t := ReplayFrom(EMPTY_REPLAY, events, scope).value.tables;
    LatestCompletionMeaning(t, t.enrollments[key], t.enrollments[key].moduleIds);
  }
}
