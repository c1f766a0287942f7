/** What the badge projection means: it does not depend on the order of its inputs, each credential is
    decided by its own events, and it accepts exactly the histories a badge may have. */
module BadgeTheorems {
  import opened Wrappers
  import opened Sequences
  import opened Sorting
  import opened BadgeCredentials

  function Belongs(credentialId: Id): Event -> bool {
    (e: Event) => e.credentialId == credentialId
  }

  // The events of one credential.
  function Own(events: seq<Event>, credentialId: Id): seq<Event> {
    Select(events, Belongs(credentialId))
  }

  // The fold restricted to one credential.
  function FoldOne(index: Definitions, current: Option<Projection>, own: seq<Event>): Result<Option<Projection>, ErrorCode>
    decreases |own|
  {
    if own == [] then Ok(current)
    else match Step(index, current, own[0])
      case Err(error) => Err(error)
      case Ok(p) => FoldOne(index, Some(p), own[1..])
  }

  // -------------------------------------------------------------------------------- separation

  // The fold interleaves all credentials, yet each one only ever sees its own events.
  lemma {:induction false} FoldKeepsCredentialsApart(index: Definitions, projections: Projections, events: seq<Event>, c: Id)
    requires Fold(index, projections, events).Ok?
    ensures FoldOne(index, At(projections, c), Own(events, c)) == Ok(At(Fold(index, projections, events).value, c))
    decreases |events|
  {
    if events != [] {
      var e := events[0];
      var p := Step(index, At(projections, e.credentialId), e).value;
      FoldKeepsCredentialsApart(index, projections[e.credentialId := p], events[1..], c);
      if e.credentialId == c {
        assert Own(events, c) == [e] + Own(events[1..], c);
      } else {
        assert Own(events, c) == Own(events[1..], c);
      }
    }
  }

  // A failure of the fold is a failure of some credential on its own.
  lemma {:induction false} FoldFailsForACredential(index: Definitions, projections: Projections, events: seq<Event>) returns (c: Id)
    requires Fold(index, projections, events).Err?
    ensures FoldOne(index, At(projections, c), Own(events, c)) == Err(Fold(index, projections, events).error)
    decreases |events|
  {
    var e := events[0];
    c := e.credentialId;
    match Step(index, At(projections, c), e)
    case Err(_) =>
      assert Own(events, c) == [e] + Own(events[1..], c);
    case Ok(p) =>
      c := FoldFailsForACredential(index, projections[e.credentialId := p], events[1..]);
      if e.credentialId == c {
        assert Own(events, c) == [e] + Own(events[1..], c);
      } else {
        assert Own(events, c) == Own(events[1..], c);
      }
  }

  lemma EventLeSeparates(events: seq<Event>)
    requires Admissible(events)
    ensures TotalPreorder(EventLe) && Separates(EventLe, events)
  {
    forall i, j | 0 <= i < |events| && 0 <= j < |events| && EventLe(events[i], events[j]) && EventLe(events[j], events[i])
      ensures events[i] == events[j]
    {
      assert Image(events, IdOf)[i] == Image(events, IdOf)[j];
    }
  }

  lemma OwnAreAdmissible(events: seq<Event>, c: Id)
    requires Admissible(events)
    ensures Admissible(Own(events, c))
  {
    var own := Own(events, c);
    forall e ensures e in own <==> e in events && e.credentialId == c { SelectMembers(events, Belongs(c), e); }
    var apart := (a: Event, b: Event) => IdOf(a) != IdOf(b) && SlotOf(a) != SlotOf(b);
    forall i, j | 0 <= i < j < |events| ensures apart(events[i], events[j]) {
      assert Image(events, IdOf)[i] != Image(events, IdOf)[j];
      assert Image(events, SlotOf)[i] != Image(events, SlotOf)[j];
    }
    SelectKeepsPairs(events, Belongs(c), apart);
  }

  // Sorting all events and picking one credential's is sorting that credential's events.
  lemma SortingCommutesWithSelection(events: seq<Event>, c: Id)
    requires Admissible(events)
    ensures Own(Sort(events, EventLe), c) == Sort(Own(events, c), EventLe)
  {
    var sorted, own := Sort(events, EventLe), Own(events, c);
    EventLeSeparates(events);
    SortIsSortedPermutation(events, EventLe);
    SelectOfPermutation(sorted, events, Belongs(c));
    SelectKeepsPairs(sorted, Belongs(c), EventLe);
    OwnAreAdmissible(events, c);
    EventLeSeparates(own);
    SortIsSortedPermutation(own, EventLe);
    SortedArrangementIsUnique(Sort(own, EventLe), Own(sorted, c), EventLe) by {
      SeparatesPermuted(own, Sort(own, EventLe));
    }
  }

  lemma SeparatesPermuted(s: seq<Event>, t: seq<Event>)
    requires Separates(EventLe, s) && forall e :: e in t ==> e in s
    ensures Separates(EventLe, t)
  {
    forall i, j | 0 <= i < |t| && 0 <= j < |t| && EventLe(t[i], t[j]) && EventLe(t[j], t[i])
      ensures t[i] == t[j]
    {
      assert t[i] in s && t[j] in s;
    }
  }

  // The result for one credential, computed from its events alone.
  function Alone(index: Definitions, events: seq<Event>, c: Id): Result<Option<Projection>, ErrorCode> {
    FoldOne(index, None, Sort(Own(events, c), EventLe))
  }

  // Projecting all events gives, for every credential, what projecting its own events gives; and
  // the whole is refused after the intake only for what one credential's events are refused for.
  lemma ProjectionSeparates(definitions: seq<Definition>, events: seq<Event>)
    requires Index(definitions, map[]).Ok? && Admissible(events)
    ensures var index := Index(definitions, map[]).value;
      match Projected(definitions, events)
      case Ok(m) => forall c :: Alone(index, events, c) == Ok(At(m, c))
      case Err(error) => exists c :: Alone(index, events, c) == Err(error)
  {
    var index := Index(definitions, map[]).value;
    RefusalExactly(events, {}, {});
    var sorted := Sort(events, EventLe);
    var result := Fold(index, map[], sorted);
    assert Projected(definitions, events) == result;
    if result.Ok? {
      forall c ensures Alone(index, events, c) == Ok(At(result.value, c)) {
        SortingCommutesWithSelection(events, c);
        FoldKeepsCredentialsApart(index, map[], sorted, c);
      }
    } else {
      var c := FoldFailsForACredential(index, map[], sorted);
      SortingCommutesWithSelection(events, c);
      assert Alone(index, events, c) == Err(result.error);
    }
  }

  lemma OwnOfOwn(events: seq<Event>, c: Id, d: Id)
    ensures Own(Own(events, c), d) == if c == d then Own(events, c) else []
  {
    if events != [] {
      OwnOfOwn(events[1..], c, d);
      var rest := Own(events[1..], c);
      if events[0].credentialId == c {
        assert Own(events, c) == [events[0]] + rest;
        assert ([events[0]] + rest)[1..] == rest;
      } else {
        assert Own(events, c) == rest;
      }
    }
  }

  // The same in terms of the public operation: handing in only one credential's events gives that
  // credential's projection and nothing else.
  lemma OwnEventsDecide(definitions: seq<Definition>, events: seq<Event>, c: Id)
    requires Projected(definitions, events).Ok?
    ensures var m := Projected(definitions, events).value;
      Projected(definitions, Own(events, c)) == Ok(if c in m then map[c := m[c]] else map[])
  {
    RefusalExactly(events, {}, {});
    var index := Index(definitions, map[]).value;
    var m := Projected(definitions, events).value;
    var own := Own(events, c);
    OwnAreAdmissible(events, c);
    ProjectionSeparates(definitions, events);
    ProjectionSeparates(definitions, own);
    forall d ensures Alone(index, own, d) == if d == c then Alone(index, events, c) else Ok(None) {
      OwnOfOwn(events, c, d);
    }
    var r := Projected(definitions, own);
    assert forall d :: Alone(index, own, d).Ok?;
    assert r.Ok?;
    forall d ensures At(r.value, d) == if d == c then At(m, c) else None {
      assert Alone(index, own, d) == Ok(At(r.value, d));
    }
    SameMap(r.value, if c in m then map[c := m[c]] else map[]);
  }

  // ----------------------------------------------------------------------------- order of input

  // Shuffled events give the same result; events refused on the way in are refused in any order.
  lemma ProjectionIgnoresOrder(definitions: seq<Definition>, events: seq<Event>, shuffled: seq<Event>)
    requires Permutation(events, shuffled)
    ensures Refusal(events, {}, {}).None? ==> Projected(definitions, shuffled) == Projected(definitions, events)
    ensures Refusal(events, {}, {}).Some? ==> Projected(definitions, shuffled).Err?
  {
    if Refusal(events, {}, {}).None? {
      AdmissionIgnoresOrder(events, shuffled);
      RefusalExactly(events, {}, {});
      EventLeSeparates(events);
      SortOfPermutation(events, shuffled, EventLe);
    } else if Refusal(shuffled, {}, {}).None? {
      AdmissionIgnoresOrder(shuffled, events);
    }
  }

  // ------------------------------------------------------------------------- accepted histories

  function EvidenceOf(e: Event): seq<Evidence> {
    if e.change.Issued? then e.change.evidence
    else if e.change.Corrected? then e.change.replacement
    else []
  }

  predicate IsTerminal(e: Event) { e.change.Revoked? || e.change.Expired? }

  // The life a badge may have: one issuance under a known definition of the same issuer, then a chain
  // in which every event supersedes the one before it, corrections only until an optional end.
  predicate History(index: Definitions, own: seq<Event>) {
    own != [] ==>
      && own[0].change.Issued?
      && own[0].change.definition in index
      && var d := index[own[0].change.definition];
      && own[0].change.issuerId == d.issuerId
      && (forall i :: 0 <= i < |own| && !IsTerminal(own[i]) ==> Sufficient(d, EvidenceOf(own[i]), own[i].occurredAt))
      && (forall i :: 0 < i < |own| ==> !own[i].change.Issued? && own[i].change.supersedes == own[i - 1].eventId)
      && (forall i :: 0 < i < |own| - 1 ==> own[i].change.Corrected?)
      && (forall i :: 0 <= i < |own| && own[i].change.Expired? ==> ExpirationDue(d, own[0].occurredAt, own[i].occurredAt))
  }

  // How many events precede the end, if there is one.
  function Live(own: seq<Event>): nat
    requires own != []
  {
    if IsTerminal(own[|own| - 1]) then |own| - 1 else |own|
  }

  // The projection read off the history without folding.
  function Summary(index: Definitions, own: seq<Event>): Projection
    requires own != [] && History(index, own)
  {
    var first, last := own[0], own[|own| - 1];
    Projection(
      first.credentialId, first.change.definition, index[first.change.definition].badgeClass,
      first.change.subjectId, first.change.issuerId, first.occurredAt,
      if last.change.Revoked? then RevokedStatus else if last.change.Expired? then ExpiredStatus else Active,
      first, EvidenceOf(own[Live(own) - 1]), own[1..Live(own)],
      if last.change.Revoked? then Some(last) else None,
      if last.change.Expired? then Some(last) else None,
      last.eventId, last.sequence)
  }

  lemma {:induction false} FoldOneAppend(index: Definitions, current: Option<Projection>, own: seq<Event>, e: Event)
    ensures FoldOne(index, current, own + [e]) ==
      match FoldOne(index, current, own)
      case Err(error) => Err(error)
      case Ok(p) => match Step(index, p, e) { case Err(error) => Err(error) case Ok(q) => Ok(Some(q)) }
    decreases |own|
  {
    if own == [] {
      assert own + [e] == [e];
    } else {
      assert (own + [e])[1..] == own[1..] + [e];
      match Step(index, current, own[0])
      case Err(_) =>
      case Ok(p) => FoldOneAppend(index, Some(p), own[1..], e);
    }
  }

  function AsProjection(index: Definitions, own: seq<Event>): Option<Projection>
    requires History(index, own)
  {
    if own == [] then None else Some(Summary(index, own))
  }

  // One more event: the history stays acceptable exactly if the step accepts it.
  lemma HistoryGrows(index: Definitions, own: seq<Event>, e: Event)
    requires History(index, own)
    ensures match Step(index, AsProjection(index, own), e)
      case Err(_) => !History(index, own + [e])
      case Ok(q) => History(index, own + [e]) && q == Summary(index, own + [e])
  {
    var longer := own + [e];
    if own != [] {
      var n := |own|;
      assert longer[0] == own[0] && longer[n] == e && longer[n - 1] == own[n - 1];
      if !IsTerminal(own[n - 1]) {
        HistoryGrowsLive(index, own, e);
        if History(index, longer) { SummaryGrows(index, own, e); }
      }
    }
  }

  lemma SummaryGrows(index: Definitions, own: seq<Event>, e: Event)
    requires own != [] && History(index, own) && !IsTerminal(own[|own| - 1]) && History(index, own + [e])
    requires Step(index, Some(Summary(index, own)), e).Ok?
    ensures Step(index, Some(Summary(index, own)), e).value == Summary(index, own + [e])
  {
    var longer, n := own + [e], |own|;
    assert longer[0] == own[0] && longer[n] == e && longer[n - 1] == own[n - 1];
    assert longer[1..n] == own[1..n] && longer[1..n + 1] == own[1..n] + [e];
  }

  lemma HistoryGrowsLive(index: Definitions, own: seq<Event>, e: Event)
    requires own != [] && History(index, own) && !IsTerminal(own[|own| - 1])
    ensures History(index, own + [e]) <==> Step(index, Some(Summary(index, own)), e).Ok?
  {
    if History(index, own + [e]) { GrownHistoryIsAccepted(index, own, e); }
    if Step(index, Some(Summary(index, own)), e).Ok? { AcceptedStepIsHistory(index, own, e); }
  }

  lemma GrownHistoryIsAccepted(index: Definitions, own: seq<Event>, e: Event)
    requires own != [] && History(index, own) && !IsTerminal(own[|own| - 1]) && History(index, own + [e])
    ensures Step(index, Some(Summary(index, own)), e).Ok?
  {
    var longer, n := own + [e], |own|;
    var d := index[own[0].change.definition];
    assert longer[0] == own[0] && longer[n] == e && longer[n - 1] == own[n - 1];
    assert !longer[n].change.Issued? && longer[n].change.supersedes == longer[n - 1].eventId;
    assert !IsTerminal(longer[n]) ==> Sufficient(d, EvidenceOf(longer[n]), longer[n].occurredAt);
    assert longer[n].change.Expired? ==> ExpirationDue(d, longer[0].occurredAt, longer[n].occurredAt);
  }

  lemma AcceptedStepIsHistory(index: Definitions, own: seq<Event>, e: Event)
    requires own != [] && History(index, own) && !IsTerminal(own[|own| - 1])
    requires Step(index, Some(Summary(index, own)), e).Ok?
    ensures History(index, own + [e])
  {
    var longer, n := own + [e], |own|;
    var d := index[own[0].change.definition];
    assert forall i :: 0 <= i < n ==> longer[i] == own[i];
    assert longer[n] == e;
    assert own[n - 1].change.Corrected? || n == 1;
    forall i | 0 <= i < |longer| && !IsTerminal(longer[i])
      ensures Sufficient(d, EvidenceOf(longer[i]), longer[i].occurredAt)
    {
      if i < n { assert !IsTerminal(own[i]); }
    }
    forall i | 0 < i < |longer|
      ensures !longer[i].change.Issued? && longer[i].change.supersedes == longer[i - 1].eventId
      ensures i < n ==> longer[i].change.Corrected?
    {
      if i < n { assert own[i].change.supersedes == own[i - 1].eventId; }
    }
  }

  lemma HistoryOfPrefix(index: Definitions, own: seq<Event>, e: Event)
    requires History(index, own + [e])
    ensures History(index, own)
  {
    assert forall i :: 0 <= i < |own| ==> (own + [e])[i] == own[i];
  }

  // The fold accepts exactly the histories, and yields their summary.
  lemma {:induction false} FoldOneExactly(index: Definitions, own: seq<Event>)
    ensures FoldOne(index, None, own).Ok? <==> History(index, own)
    ensures History(index, own) ==> FoldOne(index, None, own) == Ok(AsProjection(index, own))
    decreases |own|
  {
    if own != [] {
      var front, e := own[..|own| - 1], own[|own| - 1];
      assert own == front + [e];
      FoldOneExactly(index, front);
      FoldOneAppend(index, None, front, e);
      if History(index, front) {
        HistoryGrows(index, front, e);
      } else if History(index, own) {
        HistoryOfPrefix(index, front, e);
      }
    }
  }

  // The events that stand in the slots of a projection.
  function Slots(p: Projection): seq<Event> {
    [p.originalIssuance] + p.corrections
    + (if p.revocation.Some? then [p.revocation.value] else [])
    + (if p.expiration.Some? then [p.expiration.value] else [])
  }

  lemma SummaryHoldsEveryEvent(index: Definitions, own: seq<Event>)
    requires own != [] && History(index, own)
    ensures Slots(Summary(index, own)) == own
  {
    var n := |own|;
    if IsTerminal(own[n - 1]) {
      assert own == [own[0]] + own[1..n - 1] + [own[n - 1]];
    } else {
      assert own == [own[0]] + own[1..n];
    }
  }

  // The events of a credential in the order of their sequence numbers.
  function InSequence(events: seq<Event>, c: Id): seq<Event> {
    Sort(Own(events, c), EventLe)
  }

  // The main result: the operation accepts exactly the event sets in which every credential has an
  // acceptable history, and then shows each credential's summary.
  lemma AcceptsExactlyTheHistories(definitions: seq<Definition>, events: seq<Event>)
    requires Index(definitions, map[]).Ok?
    ensures var index := Index(definitions, map[]).value;
      Projected(definitions, events).Ok? <==>
        Admissible(events) && forall c :: History(index, InSequence(events, c))
    ensures Projected(definitions, events).Ok? ==>
      var index := Index(definitions, map[]).value;
      forall c :: History(index, InSequence(events, c))
        && At(Projected(definitions, events).value, c) == AsProjection(index, InSequence(events, c))
  {
    var index := Index(definitions, map[]).value;
    RefusalExactly(events, {}, {});
    if Admissible(events) {
      ProjectionSeparates(definitions, events);
      forall c ensures Alone(index, events, c).Ok? <==> History(index, InSequence(events, c)) {
        FoldOneExactly(index, InSequence(events, c));
      }
      if Projected(definitions, events).Ok? {
        forall c ensures History(index, InSequence(events, c))
          && At(Projected(definitions, events).value, c) == AsProjection(index, InSequence(events, c))
        {
          FoldOneExactly(index, InSequence(events, c));
        }
      }
    }
  }

  lemma InSequenceHoldsOwn(events: seq<Event>, c: Id)
    requires Admissible(events)
    ensures Permutation(InSequence(events, c), Own(events, c)) && SortedBy(InSequence(events, c), EventLe)
    ensures Distinct(Image(InSequence(events, c), IdOf))
    ensures forall e :: e in InSequence(events, c) <==> e in events && e.credentialId == c
    ensures Separates(EventLe, InSequence(events, c))
  {
    var own, sorted := Own(events, c), InSequence(events, c);
    OwnAreAdmissible(events, c);
    EventLeSeparates(own);
    SortIsSortedPermutation(own, EventLe);
    ImageOfPermutation(own, sorted, IdOf);
    DistinctOfPermutation(Image(own, IdOf), Image(sorted, IdOf));
    SeparatesPermuted(own, sorted);
    forall e ensures e in sorted <==> e in events && e.credentialId == c { SelectMembers(events, Belongs(c), e); }
  }

  // Every event of a credential stands in exactly one slot of that credential's projection, and the
  // slots hold nothing else.
  lemma EveryEventHasItsSlot(definitions: seq<Definition>, events: seq<Event>, c: Id)
    requires Projected(definitions, events).Ok?
    ensures var m := Projected(definitions, events).value;
      && (c in m <==> exists e :: e in events && e.credentialId == c)
      && (c in m ==> Permutation(Slots(m[c]), Own(events, c)) && Distinct(Image(Slots(m[c]), IdOf)))
  {
    AcceptsExactlyTheHistories(definitions, events);
    var index := Index(definitions, map[]).value;
    var sorted := InSequence(events, c);
    InSequenceHoldsOwn(events, c);
    assert History(index, sorted);
    if sorted != [] {
      SummaryHoldsEveryEvent(index, sorted);
      assert sorted[0] in sorted;
    }
  }

  // The evidence a credential shows comes from its issuance or its latest correction, was there when
  // that event happened, and meets every requirement of the definition it was issued under.
  lemma EffectiveEvidenceIsSufficient(definitions: seq<Definition>, events: seq<Event>, c: Id)
    requires Projected(definitions, events).Ok? && c in Projected(definitions, events).value
    ensures var p, index := Projected(definitions, events).value[c], Index(definitions, map[]).value;
      && p.definition in index
      && var source := if p.corrections == [] then p.originalIssuance else p.corrections[|p.corrections| - 1];
      && source in events && source.credentialId == c
      && p.effectiveEvidence == EvidenceOf(source)
      && Sufficient(index[p.definition], p.effectiveEvidence, source.occurredAt)
      && (p.status == ExpiredStatus ==>
            p.expiration.Some? && ExpirationDue(index[p.definition], p.issuedAt, p.expiration.value.occurredAt))
  {
    AcceptsExactlyTheHistories(definitions, events);
    var index := Index(definitions, map[]).value;
    var own := InSequence(events, c);
    assert History(index, own) && At(Projected(definitions, events).value, c) == AsProjection(index, own);
    SummaryIsSupported(index, own);
    InSequenceHoldsOwn(events, c);
  }

  lemma SummaryIsSupported(index: Definitions, own: seq<Event>)
    requires own != [] && History(index, own)
    ensures var p := Summary(index, own);
      && p.definition in index
      && var source := if p.corrections == [] then p.originalIssuance else p.corrections[|p.corrections| - 1];
      && source in own
      && p.effectiveEvidence == EvidenceOf(source)
      && Sufficient(index[p.definition], p.effectiveEvidence, source.occurredAt)
      && (p.status == ExpiredStatus ==>
            p.expiration.Some? && ExpirationDue(index[p.definition], p.issuedAt, p.expiration.value.occurredAt))
  {
    var p, at := Summary(index, own), Live(own) - 1;
    assert own[at] == if p.corrections == [] then p.originalIssuance else p.corrections[|p.corrections| - 1];
  }

  // ------------------------------------------------------------------------------ a later event

  lemma SortedWithALaterEvent(events: seq<Event>, e: Event)
    requires Admissible(events + [e])
    requires forall x :: x in events && x.credentialId == e.credentialId ==> x.sequence < e.sequence
    ensures InSequence(events + [e], e.credentialId) == InSequence(events, e.credentialId) + [e]
  {
    var c := e.credentialId;
    var more, own := events + [e], Own(events, c);
    SelectOfConcat(events, [e], Belongs(c));
    assert Own(more, c) == own + [e];
    AdmissibleFront(events, e);
    InSequenceHoldsOwn(more, c);
    InSequenceHoldsOwn(events, c);
    LastArrangement(InSequence(events, c), InSequence(more, c), e);
  }

  lemma LastArrangement(before: seq<Event>, after: seq<Event>, e: Event)
    requires Permutation(after, before + [e]) && Separates(EventLe, after)
    requires SortedBy(before, EventLe) && SortedBy(after, EventLe)
    requires forall x :: x in before ==> x.sequence < e.sequence
    ensures after == before + [e]
  {
    SortedArrangementIsUnique(after, before + [e], EventLe);
  }

  lemma AdmissibleFront(events: seq<Event>, e: Event)
    requires Admissible(events + [e])
    ensures Admissible(events)
  {
    ImageOfConcat(events, [e], IdOf);
    ImageOfConcat(events, [e], SlotOf);
    assert forall i :: 0 <= i < |events| ==>
      Image(events, IdOf)[i] == Image(events + [e], IdOf)[i] && Image(events, SlotOf)[i] == Image(events + [e], SlotOf)[i];
  }

  // Projecting again after one later event of a credential is one step from the projection before:
  // other credentials keep theirs, however their sequence numbers interleave with it.
  lemma LaterEventIsOneStep(definitions: seq<Definition>, events: seq<Event>, e: Event)
    requires Projected(definitions, events).Ok? && Admissible(events + [e])
    requires forall x :: x in events && x.credentialId == e.credentialId ==> x.sequence < e.sequence
    ensures var m, index := Projected(definitions, events).value, Index(definitions, map[]).value;
      Projected(definitions, events + [e]) ==
        match Step(index, At(m, e.credentialId), e) { case Err(error) => Err(error) case Ok(p) => Ok(m[e.credentialId := p]) }
  {
    var m, index := Projected(definitions, events).value, Index(definitions, map[]).value;
    var c, more := e.credentialId, events + [e];
    AdmissibleFront(events, e);
    ProjectionSeparates(definitions, events);
    ProjectionSeparates(definitions, more);
    SortedWithALaterEvent(events, e);
    FoldOneAppend(index, None, InSequence(events, c), e);
    forall d | d != c ensures Alone(index, more, d) == Ok(At(m, d)) {
      SelectOfConcat(events, [e], Belongs(d));
      assert Own(more, d) == Own(events, d);
      assert Alone(index, events, d) == Ok(At(m, d));
    }
    assert Alone(index, events, c) == Ok(At(m, c));
    var after := Projected(definitions, more);
    match Step(index, At(m, c), e) {
      case Err(error) =>
        assert Alone(index, more, c) == Err(error);
      case Ok(p) =>
        assert Alone(index, more, c) == Ok(Some(p));
        assert after.Ok?;
        SameMap(after.value, m[c := p]);
    }
  }

  lemma SameMap(m: Projections, n: Projections)
    requires forall d :: At(m, d) == At(n, d)
    ensures m == n
  {
    forall d ensures d in m <==> d in n { assert At(m, d) == At(n, d); }
    forall d | d in m ensures m[d] == n[d] { assert At(m, d) == At(n, d); }
  }
}
