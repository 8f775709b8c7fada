/** Capacity events in internal/controller/events.go, event_recovery.go and internal/store/sqlite.go: an
    event is claimed before it is executed and completed after, and may be delivered again at any time. */
module Events {
  import opened Domain

  datatype EventResult = Pending | Applied | Duplicated | Rejected | FailedResult | Abandoned

  datatype Snapshot = Snapshot(version: string, observed: Time, instances: string)

  /** What the partner sent, without the fields the receiver fills in. */
  datatype CapacityEvent = CapacityEvent(
    eventID: string, partnerID: string, kind: string, occurredAt: Time, instance: string, graceSeconds: int,
    snapshot: Option<Snapshot>)

  /** `payload` is None when the stored text cannot be decoded. */
  datatype EventRecord = EventRecord(
    partnerID: string, kind: string, payload: Option<CapacityEvent>, occurredAt: Time, result: EventResult, reason: string)

  type EventTable = map<string, EventRecord>

  datatype EventOutcome = EventOutcome(accepted: bool, duplicate: bool, result: EventResult)

  // ---------------------------------------------------------------- the table

  function NewRecord(event: CapacityEvent, result: EventResult, reason: string): EventRecord {
    EventRecord(event.partnerID, event.kind, Some(event), event.occurredAt, result, reason)
  }

  function Claim(events: EventTable, event: CapacityEvent, result: EventResult, reason: string): EventTable {
    if event.eventID in events then events else events[event.eventID := NewRecord(event, result, reason)]
  }

  function Complete(events: EventTable, id: string, result: EventResult, reason: string): EventTable {
    if id in events then events[id := events[id].(result := result, reason := reason)] else events
  }

  // -------------------------------------------------------------- same intent

  /** A redelivery may carry new timestamps; everything else must be what was first recorded. */
  function WithoutTimes(event: CapacityEvent, dropObserved: bool): CapacityEvent {
    event.(occurredAt := ZERO_TIME,
           snapshot := if dropObserved && event.snapshot.Some? then Some(event.snapshot.value.(observed := ZERO_TIME)) else event.snapshot)
  }

  predicate SameCapacityEvent(record: EventRecord, incoming: CapacityEvent) {
    && record.partnerID == incoming.partnerID && record.kind == incoming.kind && record.payload.Some?
    && var original := record.payload.value.(partnerID := record.partnerID);
       var both := original.snapshot.Some? && incoming.snapshot.Some?;
       WithoutTimes(original, both) == WithoutTimes(incoming, both)
  }

  /** What an event does, and nothing about when it was sent. */
  predicate SameIntent(a: CapacityEvent, b: CapacityEvent) {
    && a.eventID == b.eventID && a.partnerID == b.partnerID && a.kind == b.kind && a.instance == b.instance
    && a.graceSeconds == b.graceSeconds
    && (match (a.snapshot, b.snapshot)
        case (None, None) => true
        case (Some(s), Some(t)) => s.version == t.version && s.instances == t.instances
        case _ => false)
  }

  /** A delivery matches the record its first delivery created exactly when it states the same intent. */
  lemma MatchesExactlySameIntent(first: CapacityEvent, result: EventResult, reason: string, incoming: CapacityEvent)
    ensures SameCapacityEvent(NewRecord(first, result, reason), incoming) <==> SameIntent(first, incoming)
  {
    var record := NewRecord(first, result, reason);
    assert record.payload.value.(partnerID := record.partnerID) == first;
    var both := first.snapshot.Some? && incoming.snapshot.Some?;
    var a, b := WithoutTimes(first, both), WithoutTimes(incoming, both);
    if SameIntent(first, incoming) {
      assert a == b;
    }
    if a == b {
      assert a.eventID == b.eventID && a.instance == b.instance && a.graceSeconds == b.graceSeconds && a.snapshot == b.snapshot;
      if both {
        assert a.snapshot.value == b.snapshot.value;
      }
    }
  }

  function DuplicateOutcome(record: EventRecord, incoming: CapacityEvent): EventOutcome {
    if SameCapacityEvent(record, incoming) then EventOutcome(record.result != Rejected, true, record.result)
    else EventOutcome(false, false, Rejected)
  }

  /** The event a recovery pass executes: the payload, with the recorded columns on top. */
  function Replayed(id: string, record: EventRecord): CapacityEvent
    requires record.payload.Some?
  {
    record.payload.value.(eventID := id, partnerID := record.partnerID, kind := record.kind, occurredAt := record.occurredAt)
  }

  // -------------------------------------------------------------- the methods

  /** What the handler of an event reported. */
  datatype Handling = Handling(result: EventResult, failed: bool, reason: string)

  /** An event that failed for a reason that may pass stays pending. */
  predicate StaysPending(h: Handling) { h.failed && h.result != Rejected }

  const FOREIGN_REASON := "instance belongs to another partner"

  function Reported(result: EventResult): EventOutcome { EventOutcome(result != Rejected, false, result) }

  class EventStore {
    var events: EventTable

    constructor ()
      ensures events == map[]
    {
      events := map[];
    }

    method ClaimEvent(event: CapacityEvent, result: EventResult, reason: string) returns (claimed: bool)
      modifies this
      ensures claimed <==> event.eventID !in old(events)
      ensures events == Claim(old(events), event, result, reason)
    {
      if event.eventID in events {
        return false;
      }
      events := events[event.eventID := NewRecord(event, result, reason)];
      return true;
    }

    method CompleteEvent(id: string, result: EventResult, reason: string)
      modifies this
      ensures events == Complete(old(events), id, result, reason)
    {
      if id in events {
        events := events[id := events[id].(result := result, reason := reason)];
      }
    }

    /** One delivery from the lock to its answer.  `foreign` says that the instance belongs to another
        partner, `h` what the handler would report, `ran` whether it was asked.  A store call that fails
        here has no effect, and there is no answer if it was the claim. */
    method HandleCapacityEvent(event: CapacityEvent, valid: bool, foreign: bool, h: Handling, claims: bool, completes: bool)
      returns (outcome: Option<EventOutcome>, ran: bool)
      modifies this
      ensures ran <==> valid && claims && event.eventID !in old(events) && !foreign
      ensures event.eventID in old(events) || !claims ==> events == old(events)
      ensures !valid ==> outcome == Some(EventOutcome(false, false, Rejected))
      ensures !valid && claims ==>
        events == if event.eventID in old(events) then old(events)
                  else old(events)[event.eventID :=
                         EventRecord(event.partnerID, event.kind, Some(event), event.occurredAt, Rejected, "invalid")]
      ensures valid && !claims ==> outcome == None
      ensures valid && claims && event.eventID in old(events) ==>
        var record := old(events)[event.eventID];
        outcome == Some(if SameCapacityEvent(record, event) then EventOutcome(record.result != Rejected, true, record.result)
                        else EventOutcome(false, false, Rejected))
      ensures valid && claims && event.eventID !in old(events) ==>
        var verdict := if foreign then Rejected else h.result;
        var reason := if foreign then "instance belongs to another partner" else h.reason;
        var final := completes && (foreign || !h.failed || h.result == Rejected);
        && events == old(events)[event.eventID :=
             EventRecord(event.partnerID, event.kind, Some(event), event.occurredAt,
                         if final then verdict else Pending, if final then reason else "")]
        && (outcome.Some? ==>
              && outcome.value.result == (if final then verdict else Pending) && !outcome.value.duplicate
              && (outcome.value.accepted <==> outcome.value.result != Rejected))
        && (outcome.None? <==> foreign && !completes)
    {
      ran := false;
      if !valid {
        if claims {
          var _ := ClaimEvent(event, Rejected, "invalid");
        }
        return Some(EventOutcome(false, false, Rejected)), false;
      }
      if !claims {
        return None, false;
      }
      var claimed := ClaimEvent(event, Pending, "");
      if !claimed {
        return Some(DuplicateOutcome(events[event.eventID], event)), false;
      }
      if foreign {
        if !completes {
          return None, false;
        }
        CompleteEvent(event.eventID, Rejected, FOREIGN_REASON);
        return Some(Reported(Rejected)), false;
      }
      ran := true;
      var result := h.result;
      if h.failed && result == Applied {
        result := FailedResult;
      }
      if h.failed && result != Rejected {
        result := Pending;
      } else if completes {
        CompleteEvent(event.eventID, result, h.reason);
      } else {
        result := Pending;
      }
      outcome := Some(Reported(result));
    }
  }
}
