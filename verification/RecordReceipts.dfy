/** Receipts over a learner's event stream (src/learning-record-receipts.ts). A digest is represented
    by the value it is taken of, so comparing digests is comparing values. */
module RecordReceipts {
  import opened Wrappers
  import opened LearningEvents
  import opened EventTables

  datatype ExportReceipt = ExportReceipt(
    scope: Scope, sourceRevision: int, eventCount: int, eventDigest: seq<Event>, exportedAt: Time)

  datatype VerifiedExport = VerifiedExport(scope: Scope, events: seq<Event>, receipt: ExportReceipt)

  // The events belong to the scope and their sequence numbers strictly increase from one.
  ghost predicate InScope(scope: Scope, events: seq<Event>) {
    Increasing(events) && forall i :: 0 <= i < |events| ==> events[i].body.scope == scope
  }

  method AssertScope(scope: Scope, events: seq<Event>) returns (ok: bool)
    ensures ok <==> InScope(scope, events)
  {
    var previousSequence := 0;
    var i := 0;
    while i < |events|
      invariant 0 <= i <= |events|
      invariant InScope(scope, events[..i])
      invariant previousSequence == if i == 0 then 0 else events[i - 1].sequence
    {
      var event := events[i];
      if event.body.scope != scope {
        return false;
      }
      if event.sequence <= previousSequence {
        assert i > 0 ==> events[i - 1].sequence >= events[i].sequence;
        return false;
      }
      assert events[..i + 1] == events[..i] + [event];
      previousSequence := event.sequence;
      i := i + 1;
    }
    assert events[..i] == events;
    return true;
  }

  method CreateVerifiedExport(scope: Scope, events: seq<Event>, exportedAt: Time)
    returns (r: Result<VerifiedExport, ErrorCode>)
    ensures r.Ok? <==> InScope(scope, events)
    ensures r.Ok? ==> r.value == Exported(scope, events, exportedAt)
    ensures r.Err? ==> r.error == StorageFailure
  {
    var ok := AssertScope(scope, events);
    if !ok {
      return Err(StorageFailure);
    }
    return Ok(VerifiedExport(scope, events, ExportReceipt(scope, |events|, |events|, events, exportedAt)));
  }

  function Exported(scope: Scope, events: seq<Event>, exportedAt: Time): VerifiedExport {
    VerifiedExport(scope, events, ExportReceipt(scope, |events|, |events|, events, exportedAt))
  }

  // An export passes verification exactly when it is one that the exporter could have produced.
  method VerifyExport(value: VerifiedExport) returns (valid: bool)
    ensures valid <==> InScope(value.scope, value.events)
                       && exists at :: value == Exported(value.scope, value.events, at)
  {
    var errors := 0;
    var inScope := AssertScope(value.scope, value.events);
    if !inScope {
      errors := errors + 1;
    }
    if value.receipt.scope != value.scope {
      errors := errors + 1;
    }
    if value.receipt.eventDigest != value.events {
      errors := errors + 1;
    }
    if value.receipt.eventCount != |value.events| || value.receipt.sourceRevision != |value.events| {
      errors := errors + 1;
    }
    valid := errors == 0;
    if valid {
      assert value == Exported(value.scope, value.events, value.receipt.exportedAt);
    }
  }

  function ReceiptFor(scope: Scope, events: seq<Event>, operationKey: Id, deletedAt: Time): DeletionReceipt {
    DeletionReceipt(operationKey, scope, |events|, |events|, events, deletedAt)
  }

  predicate ValidReceipt(receipt: DeletionReceipt) {
    0 <= receipt.sourceRevision && receipt.sourceRevision == receipt.eventCount
  }
}
