/** The in-memory event store: the simple log the SQL store has to match
    (src/learning-event-engine.ts:173-259). */
module MemoryStore {
  import opened Wrappers
  import opened LearningEvents
  import opened EventTables

  function FindByKey(log: seq<Event>, key: Id): Option<Event> {
    if log == [] then None else if log[0].body.key == key then Some(log[0]) else FindByKey(log[1..], key)
  }

  function MaxSequence(log: seq<Event>): int {
    if log == [] then 0
    else
      var rest := MaxSequence(log[1..]);
      if log[0].sequence > rest then log[0].sequence else rest
  }

  predicate HasEvidence(log: seq<Event>, c: Candidate) {
    exists e :: e in log && SameEvidence(e.body, c)
  }

  function DuplicateCode(c: Candidate): ErrorCode {
    if c.payload.AssessmentRecorded? then DuplicateAttemptId else DuplicateCorrectionId
  }

  function MemoryAppend(log: seq<Event>, c: Candidate, expectedRevision: int)
    : (seq<Event>, Result<AppendResult, ErrorCode>)
  {
    match FindByKey(log, c.key)
    case Some(existing) =>
      (log, if existing.body.digest != c.digest then Err(IdempotencyConflict) else Ok(AppendResult(existing, true)))
    case None =>
      if |log| != expectedRevision then (log, Err(ConcurrencyConflict))
      else if HasEvidence(log, c) then (log, Err(DuplicateCode(c)))
      else
        var event := Event(MaxSequence(log) + 1, c);
        if !ValidEvent(event) then (log, Err(InvalidEvent)) else (log + [event], Ok(AppendResult(event, false)))
  }

  lemma {:induction false} MaxIsLast(log: seq<Event>)
    requires Increasing(log)
    ensures MaxSequence(log) == if log == [] then 0 else log[|log| - 1].sequence
  {
    if log != [] {
      MaxIsLast(log[1..]);
    }
  }

  lemma {:induction false} FindByKeyMeaning(log: seq<Event>, key: Id)
    ensures match FindByKey(log, key)
            case None => forall e :: e in log ==> e.body.key != key
            case Some(found) => found in log && found.body.key == key
  {
    if log != [] {
      FindByKeyMeaning(log[1..], key);
      assert forall e :: e in log <==> e == log[0] || e in log[1..] by { assert log == [log[0]] + log[1..]; }
    }
  }

  // The log stays ascending, at most one event is added, and no key or evidence identifier is ever repeated.
  lemma MemoryAppendKeepsTheLog(log: seq<Event>, c: Candidate, expectedRevision: int)
    requires Increasing(log) && KeysUnique(log)
    ensures var (after, r) := MemoryAppend(log, c, expectedRevision);
            && Increasing(after) && KeysUnique(after)
            && (if r.Ok? && !r.value.replayed then after == log + [r.value.event] else after == log)
            && (r.Ok? ==> r.value.event in after && r.value.event.body.key == c.key
                          && r.value.event.body.digest == c.digest)
  {
    MaxIsLast(log);
    FindByKeyMeaning(log, c.key);
  }

  // The attempt or correction of the candidate is in the log already.
  predicate AttemptTaken(log: seq<Event>, c: Candidate) {
    c.payload.AssessmentRecorded?
    && exists e :: e in log && e.body.payload.AssessmentRecorded? && e.body.payload.attemptId == c.payload.attemptId
  }

  predicate CorrectionTaken(log: seq<Event>, c: Candidate) {
    c.payload.AssessmentCorrected?
    && exists e :: e in log && e.body.payload.AssessmentCorrected? && e.body.payload.correctionId == c.payload.correctionId
  }

  predicate KeyTaken(log: seq<Event>, key: Id) {
    exists e :: e in log && e.body.key == key
  }

  // What an append does to a log, in the order of its checks.
  lemma MemoryAppendExactly(log: seq<Event>, c: Candidate, expectedRevision: int)
    requires Increasing(log)
    ensures var (after, r) := MemoryAppend(log, c, expectedRevision);
      if KeyTaken(log, c.key) then
        && after == log
        && exists e :: e in log && e.body.key == c.key
                       && r == if e.body.digest == c.digest then Ok(AppendResult(e, true)) else Err(IdempotencyConflict)
      else if |log| != expectedRevision then after == log && r == Err(ConcurrencyConflict)
      else if AttemptTaken(log, c) then after == log && r == Err(DuplicateAttemptId)
      else if CorrectionTaken(log, c) then after == log && r == Err(DuplicateCorrectionId)
      else if !ValidBody(c) then after == log && r == Err(InvalidEvent)
      else
        var added := Event(if log == [] then 1 else log[|log| - 1].sequence + 1, c);
        after == log + [added] && r == Ok(AppendResult(added, false))
  {
    MaxIsLast(log);
    FindByKeyMeaning(log, c.key);
    if FindByKey(log, c.key).Some? {
      var e := FindByKey(log, c.key).value;
      assert e in log && e.body.key == c.key;
    }
  }

  ghost predicate KeysUnique(log: seq<Event>) {
    forall i, j :: 0 <= i < j < |log| ==> log[i].body.key != log[j].body.key && !SameEvidence(log[i].body, log[j].body)
  }

  class InMemoryLearningEventStore {
    var events: map<Scope, seq<Event>>

    constructor ()
      ensures events == map[] && Valid()
    {
      events := map[];
    }

    function Log(scope: Scope): seq<Event>
      reads this
    {
      if scope in events then events[scope] else []
    }

    ghost predicate Valid()
      reads this
    {
      forall s :: s in events ==> Increasing(events[s]) && KeysUnique(events[s])
    }

    method Append(c: Candidate, expectedRevision: int) returns (r: Result<AppendResult, ErrorCode>)
      requires Valid()
      modifies this
      ensures Valid()
      ensures (Log(c.scope), r) == MemoryAppend(old(Log(c.scope)), c, expectedRevision)
      ensures forall s :: s != c.scope ==> Log(s) == old(Log(s))
    {
      var log := Log(c.scope);
      MemoryAppendKeepsTheLog(log, c, expectedRevision);
      var existing := FindByKey(log, c.key);
      if existing.Some? {
        if existing.value.body.digest != c.digest {
          return Err(IdempotencyConflict);
        }
        return Ok(AppendResult(existing.value, true));
      }
      if |log| != expectedRevision {
        return Err(ConcurrencyConflict);
      }
      if HasEvidence(log, c) {
        return Err(DuplicateCode(c));
      }
      var event := Event(MaxSequence(log) + 1, c);
      if !ValidEvent(event) {
        return Err(InvalidEvent);
      }
      events := events[c.scope := log + [event]];
      return Ok(AppendResult(event, false));
    }

    method Delete(scope: Scope) returns (count: nat)
      requires Valid()
      modifies this
      ensures Valid() && count == |old(Log(scope))| && Log(scope) == []
      ensures forall s :: s != scope ==> Log(s) == old(Log(s))
    {
      count := |Log(scope)|;
      events := events - {scope};
    }
  }
}
