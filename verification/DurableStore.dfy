/** The durable transition engine of internal/store/sqlite.go: one transaction decides every change
    of an instance row, whatever stale row the caller hands in. */
module DurableStore {
  import opened Domain

  // ---------------------------------------------------------- operations

  datatype OperationStatus = OpPending | OpInProgress | OpSucceeded | OpFailed

  datatype Operation = Operation(
    operationID: string, instanceID: string, kind: string, status: OperationStatus,
    attempt: int, nextRetryAt: Time, lastError: string, createdAt: Time)

  predicate Open(o: Operation) {
    o.status == OpPending || o.status == OpInProgress
  }

  // ---------------------------------------------------------- transition

  datatype Transition = Transition(
    instanceID: string,
    next: Instance,
    createOnly: bool,
    reoffer: bool,
    applyPendingUpdate: bool,
    requestRelease: bool,
    expectInstanceState: Option<InstanceState>,
    expectServiceState: Option<ServiceState>,
    expectPartnerID: string,
    expectLeaseID: Option<string>,
    expectLeaseUpdatedAt: Time,
    releaseObservedAt: Time,
    operation: Option<Operation>)

  datatype Refusal = BadRequest | NotFound | Conflict | Violation(code: Code)

  /** What a transaction did: commit a change, succeed without one, or refuse. */
  datatype Outcome = Committed | Unchanged | Rejected(why: Refusal)

  type Rows = map<string, Instance>

  type Operations = map<string, Operation>

  // -------------------------------------------------- what a commit writes

  /** The compare-and-swap guards and ownership checks that precede any change. */
  predicate GuardsHold(current: Instance, t: Transition) {
    && !t.createOnly
    && (t.expectPartnerID == "" || t.expectPartnerID == current.partnerID)
    && (t.expectLeaseID.None? || t.expectLeaseID.value == current.leaseID)
    && (t.expectLeaseUpdatedAt == ZERO_TIME || t.expectLeaseUpdatedAt == current.leaseUpdatedAt)
    && (t.requestRelease || current.partnerID == t.next.partnerID)
    && !(t.requestRelease && t.releaseObservedAt != ZERO_TIME && current.pendingUpdate.Some?
         && current.pendingUpdate.value.observedAt > t.releaseObservedAt)
  }

  predicate ReofferAllowed(current: Instance, next: Instance) {
    && current.instanceState == Released && current.serviceState == NoService
    && current.partnerID == next.partnerID && next.leaseID != "" && next.leaseID != current.leaseID
    && next.instanceState == Allocating && next.serviceState == NoService
    && !next.pendingRelease && next.role == NoRole
  }

  /** A reclaim is in force for the stored row and this transition does not end it. */
  predicate Latched(current: Instance, t: Transition) {
    !t.requestRelease && current.pendingRelease && t.next.instanceState != Released
  }

  /** States a latched row may not move to: anything that puts a model to work. */
  predicate WorkingService(s: ServiceState) {
    s.Starting? || s.Healthy? || s.Registering? || s.Serving?
  }

  predicate LatchAllows(current: Instance, next: Instance) {
    && next.endpoint == current.endpoint
    && next.serviceEndpoint == current.serviceEndpoint
    && next.leaseID == current.leaseID
    && (next.instanceState == Lost || !WorkingService(next.serviceState))
  }

  predicate UpdateApplicable(current: Instance, next: Instance) {
    && current.pendingUpdate.Some? && !current.pendingRelease && current.serviceState == Draining
    && next.serviceState == NoService && next.instanceState == Preparing
  }

  /** The row with the reclaim intent merged in. */
  function WithReclaim(current: Instance, t: Transition): Instance {
    if t.requestRelease then
      current.(pendingRelease := true,
               drainDeadlineAt := if current.drainDeadlineAt == ZERO_TIME then t.next.drainDeadlineAt
                                  else current.drainDeadlineAt)
    else if Latched(current, t) then
      t.next.(pendingRelease := true, drainDeadlineAt := current.drainDeadlineAt)
    else t.next
  }

  /** The row with the queued identity update merged in. */
  function WithQueuedUpdate(current: Instance, next: Instance, t: Transition): Instance {
    if t.applyPendingUpdate then
      if current.pendingUpdate.None? then next else
      var u := current.pendingUpdate.value;
      next.(endpoint := u.endpoint, serviceEndpoint := u.serviceEndpoint, leaseID := u.leaseID,
            spec := u.spec, leaseUpdatedAt := u.observedAt, pendingUpdate := None)
    else if t.reoffer then next
    else if next.pendingRelease || next.instanceState == Released then next.(pendingUpdate := None)
    else if current.pendingUpdate.Some?
         && (next.pendingUpdate.None? || next.pendingUpdate.value.observedAt < current.pendingUpdate.value.observedAt)
    then next.(pendingUpdate := current.pendingUpdate)
    else next
  }

  function Later(a: Time, b: Time): Time {
    if a < b then b else a
  }

  /** The row a commit stores: identity and creation time are the stored row's, observations never
      move backwards, and the row is stamped with the time of the write. */
  function Stored(current: Instance, next: Instance, now: Time): Instance {
    next.(id := current.id,
          leaseUpdatedAt := Later(next.leaseUpdatedAt, current.leaseUpdatedAt),
          lastSeenAt := Later(next.lastSeenAt, current.lastSeenAt),
          createdAt := current.createdAt,
          updatedAt := now)
  }

  datatype Decision = Write(row: Instance) | Keep | Refuse(why: Refusal)

  /** What ApplyTransition decides for a stored row. */
  function Decide(current: Instance, t: Transition, now: Time): Decision {
    if !GuardsHold(current, t) || (t.reoffer && !ReofferAllowed(current, t.next)) then Refuse(Conflict)
    else if t.requestRelease && (current.pendingRelease || current.instanceState == Released) then Keep
    else if Latched(current, t) && !LatchAllows(current, t.next) then Refuse(Conflict)
    else
      var reclaimed := WithReclaim(current, t);
      if t.applyPendingUpdate && !UpdateApplicable(current, reclaimed) then Refuse(Conflict)
      else
        var next := WithQueuedUpdate(current, reclaimed, t);
        if (t.expectInstanceState.Some? && t.expectInstanceState.value != current.instanceState)
        || (t.expectServiceState.Some? && t.expectServiceState.value != current.serviceState) then Refuse(Conflict)
        else if !t.reoffer && ValidateTransition(current, next).Some? then
          Refuse(Violation(ValidateTransition(current, next).value))
        else if !LegalRow(next) then
          Refuse(Violation(CheckCombination(next.instanceState, next.serviceState, next.role).code))
        else Write(Stored(current, next, now))
  }

  /** What ApplyTransition decides when no row is stored yet. */
  function DecideInsert(t: Transition, now: Time): Decision {
    if t.next.instanceState != Allocating then Refuse(NotFound)
    else if !LegalRow(t.next) then
      Refuse(Violation(CheckCombination(t.next.instanceState, t.next.serviceState, t.next.role).code))
    else Write(t.next.(id := t.instanceID,
                       createdAt := if t.next.createdAt == ZERO_TIME then now else t.next.createdAt,
                       updatedAt := now))
  }

  function DecideFor(rows: Rows, t: Transition, now: Time): Decision {
    if t.instanceID == "" || (t.next.id != "" && t.next.id != t.instanceID) then Refuse(BadRequest)
    else if t.instanceID in rows then Decide(rows[t.instanceID], t, now)
    else DecideInsert(t, now)
  }

  /** Every open operation of the instance is closed as superseded. */
  function CloseOpen(operations: Operations, instanceID: string): Operations {
    map k | k in operations ::
      if operations[k].instanceID == instanceID && Open(operations[k])
      then operations[k].(status := OpFailed, lastError := "superseded by a new lease") else operations[k]
  }

  /** An upsert keeps instance, kind and creation time of the operation it replaces. */
  function Upsert(operations: Operations, o: Option<Operation>, now: Time): Operations {
    if o.None? then operations
    else
      var incoming := o.value;
      if incoming.operationID in operations then
        var existing := operations[incoming.operationID];
        operations[incoming.operationID :=
          incoming.(instanceID := existing.instanceID, kind := existing.kind, createdAt := existing.createdAt)]
      else
        operations[incoming.operationID :=
          incoming.(createdAt := if incoming.createdAt == ZERO_TIME then now else incoming.createdAt)]
  }

  function OperationsAfter(rows: Rows, operations: Operations, t: Transition, now: Time): Operations {
    var superseded := if t.instanceID in rows && t.reoffer then CloseOpen(operations, t.instanceID) else operations;
    Upsert(superseded, t.operation, now)
  }

  // -------------------------------------------------- deciding, step by step

  method CheckGuards(current: Instance, t: Transition) returns (admitted: bool)
    ensures admitted <==> GuardsHold(current, t) && (t.reoffer ==> ReofferAllowed(current, t.next))
  {
    var next := t.next;
    if t.createOnly {
      return false;
    }
    if (t.expectPartnerID != "" && t.expectPartnerID != current.partnerID)
      || (t.expectLeaseID.Some? && t.expectLeaseID.value != current.leaseID)
      || (t.expectLeaseUpdatedAt != ZERO_TIME && t.expectLeaseUpdatedAt != current.leaseUpdatedAt)
    {
      return false;
    }
    if !t.requestRelease && current.partnerID != next.partnerID {
      return false;
    }
    if t.requestRelease && t.releaseObservedAt != ZERO_TIME && current.pendingUpdate.Some?
      && t.releaseObservedAt < current.pendingUpdate.value.observedAt
    {
      return false;
    }
    if t.reoffer {
      if current.instanceState != Released || current.serviceState != NoService
        || current.partnerID != next.partnerID || next.leaseID == "" || next.leaseID == current.leaseID
        || next.instanceState != Allocating || next.serviceState != NoService
        || next.pendingRelease || next.role != NoRole
      {
        return false;
      }
    }
    return true;
  }

  /** An earlier start or probe must never erase a newer reclaim request. */
  method MergeReclaim(current: Instance, t: Transition) returns (refused: bool, next: Instance)
    ensures refused <==> Latched(current, t) && !LatchAllows(current, t.next)
    ensures !refused ==> next == WithReclaim(current, t)
  {
    refused, next := false, t.next;
    if t.requestRelease {
      var deadline := next.drainDeadlineAt;
      next := current.(pendingRelease := true);
      if next.drainDeadlineAt == ZERO_TIME {
        next := next.(drainDeadlineAt := deadline);
      }
    } else if current.pendingRelease && next.instanceState != Released {
      if next.endpoint != current.endpoint || next.serviceEndpoint != current.serviceEndpoint
        || next.leaseID != current.leaseID
      {
        return true, next;
      }
      next := next.(pendingRelease := true, drainDeadlineAt := current.drainDeadlineAt);
      if next.instanceState != Lost && WorkingService(next.serviceState) {
        return true, next;
      }
    }
  }

  /** Probes and starts must not erase a concurrently queued identity update. */
  method MergeQueuedUpdate(current: Instance, merged: Instance, t: Transition) returns (refused: bool, next: Instance)
    ensures refused <==> t.applyPendingUpdate && !UpdateApplicable(current, merged)
    ensures !refused ==> next == WithQueuedUpdate(current, merged, t)
  {
    refused, next := false, merged;
    if t.applyPendingUpdate {
      if current.pendingUpdate.None? || current.pendingRelease || current.serviceState != Draining
        || next.serviceState != NoService || next.instanceState != Preparing
      {
        return true, next;
      }
      var update := current.pendingUpdate.value;
      next := next.(endpoint := update.endpoint, serviceEndpoint := update.serviceEndpoint, leaseID := update.leaseID);
      next := next.(spec := update.spec, leaseUpdatedAt := update.observedAt);
      next := next.(pendingUpdate := None);
    } else if !t.reoffer {
      if next.pendingRelease || next.instanceState == Released {
        next := next.(pendingUpdate := None);
      } else if current.pendingUpdate.Some?
        && (next.pendingUpdate.None? || next.pendingUpdate.value.observedAt < current.pendingUpdate.value.observedAt)
      {
        next := next.(pendingUpdate := current.pendingUpdate);
      }
    }
  }

  method DecideUpdate(current: Instance, t: Transition, now: Time) returns (d: Decision)
    ensures d == Decide(current, t, now)
  {
    var admitted := CheckGuards(current, t);
    if !admitted {
      return Refuse(Conflict);
    }
    if t.requestRelease && (current.pendingRelease || current.instanceState == Released) {
      return Keep;
    }
    var refused, next := MergeReclaim(current, t);
    if refused {
      return Refuse(Conflict);
    }
    refused, next := MergeQueuedUpdate(current, next, t);
    if refused {
      return Refuse(Conflict);
    }
    if (t.expectInstanceState.Some? && current.instanceState != t.expectInstanceState.value)
      || (t.expectServiceState.Some? && current.serviceState != t.expectServiceState.value)
    {
      return Refuse(Conflict);
    }
    if !t.reoffer {
      var violation := ValidateTransition(current, next);
      if violation.Some? {
        return Refuse(Violation(violation.value));
      }
    }
    var verdict := CheckCombination(next.instanceState, next.serviceState, next.role);
    if verdict.Refused? {
      return Refuse(Violation(verdict.code));
    }
    if next.leaseUpdatedAt < current.leaseUpdatedAt {
      next := next.(leaseUpdatedAt := current.leaseUpdatedAt);
    }
    if next.lastSeenAt < current.lastSeenAt {
      next := next.(lastSeenAt := current.lastSeenAt);
    }
    d := Write(next.(id := current.id, createdAt := current.createdAt, updatedAt := now));
  }

  method DecideInsertion(t: Transition, now: Time) returns (d: Decision)
    ensures d == DecideInsert(t, now)
  {
    var next := t.next.(id := t.instanceID);
    if next.instanceState != Allocating {
      return Refuse(NotFound);
    }
    var verdict := CheckCombination(next.instanceState, next.serviceState, next.role);
    if verdict.Refused? {
      return Refuse(Violation(verdict.code));
    }
    if next.createdAt == ZERO_TIME {
      next := next.(createdAt := now);
    }
    d := Write(next.(updatedAt := now));
  }

  // ----------------------------------------------------------- the store

  predicate Touchable(current: Instance, observedAt: Time) {
    && !current.pendingRelease && current.instanceState != Released && current.instanceState != Releasing
    && current.leaseUpdatedAt <= observedAt
  }

  function Touched(current: Instance, observedAt: Time, seenAt: Time): Instance {
    current.(leaseUpdatedAt := observedAt, lastSeenAt := seenAt)
  }

  class SQLiteStore {
    var instances: Rows
    var operations: Operations

    constructor ()
      ensures instances == map[] && operations == map[]
    {
      instances, operations := map[], map[];
    }

    /** One transaction: the row and the operation change together, or nothing does. */
    method ApplyTransition(t: Transition, now: Time) returns (r: Outcome)
      modifies this
      ensures match DecideFor(old(instances), t, now)
              case Refuse(why) => r == Rejected(why) && unchanged(this)
              case Keep => r == Unchanged && unchanged(this)
              case Write(row) =>
                && r == Committed
                && instances == old(instances)[t.instanceID := row]
                && operations == OperationsAfter(old(instances), old(operations), t, now)
    {
      if t.instanceID == "" || (t.next.id != "" && t.next.id != t.instanceID) {
        return Rejected(BadRequest);
      }
      var ops := operations;
      var d;
      if t.instanceID in instances {
        d := DecideUpdate(instances[t.instanceID], t, now);
        if t.reoffer {
          ops := CloseOpen(ops, t.instanceID);
        }
      } else {
        d := DecideInsertion(t, now);
      }
      match d {
        case Refuse(why) =>
          r := Rejected(why);
        case Keep =>
          r := Unchanged;
        case Write(row) =>
          instances := instances[t.instanceID := row];
          operations := Upsert(ops, t.operation, now);
          r := Committed;
      }
    }

    /** Records that the partner still reports the container, and nothing else. */
    method TouchInstanceObservation(id: string, observedAt: Time, seenAt: Time) returns (touched: bool)
      modifies this`instances
      ensures touched <==> id in old(instances) && Touchable(old(instances)[id], observedAt)
      ensures instances == if touched then old(instances)[id := Touched(old(instances)[id], observedAt, seenAt)]
                           else old(instances)
    {
      if id !in instances {
        return false;
      }
      var current := instances[id];
      if current.pendingRelease || current.instanceState == Released || current.instanceState == Releasing {
        return false;
      }
      if observedAt < current.leaseUpdatedAt {
        return false;
      }
      instances := instances[id := current.(leaseUpdatedAt := observedAt, lastSeenAt := seenAt)];
      return true;
    }
  }
}
