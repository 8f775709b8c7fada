/** Exactly when the transition engine commits, and what a commit stores, said of the columns of the row and
    the flags of the request. */
module StoreGuards {
  import opened Domain
  import opened DurableStore
  import opened StoreRuns

  // ---------------------------------------------------- the graphs, by target

  /** How a container comes to be in a state. */
  predicate MayBecome(from: InstanceState, to: InstanceState) {
    match to
    case Preparing => from in {Allocating, Idle, Lost}
    case Idle => from == Preparing
    case Releasing => from in {Allocating, Preparing, Idle, Lost}
    case Released => from in {Releasing, Lost}
    case Lost => from in {Allocating, Preparing, Idle, Releasing}
    case _ => false
  }

  /** How a service comes to be in a state. */
  predicate ServiceMayBecome(from: ServiceState, to: ServiceState) {
    match to
    case NoService => from in {Draining, Failed}
    case Starting => from in {NoService, Failed}
    case Healthy => from == Starting
    case Registering => from == Healthy
    case Serving => from == Registering
    case Draining => from in {Starting, Healthy, Registering, Serving, Failed}
    case Failed => from in {Starting, Healthy, Registering, Serving, Draining}
    case OtherServiceState(_) => false
  }

  predicate Moved(current: Instance, instance: InstanceState, service: ServiceState) {
    && (instance == current.instanceState || MayBecome(current.instanceState, instance))
    && (service == current.serviceState || ServiceMayBecome(current.serviceState, service))
  }

  lemma EdgesByTarget(from: Instance, to: Instance)
    ensures ValidateTransition(from, to).None? <==> Moved(from, to.instanceState, to.serviceState) && LegalRow(to)
  {
  }

  // ------------------------------------------------------------- the guards

  /** Whatever the request expects of the stored row is so; a request that only creates expects none. */
  predicate AsExpected(current: Instance, t: Transition) {
    && !t.createOnly
    && (t.expectPartnerID != "" ==> current.partnerID == t.expectPartnerID)
    && (t.expectLeaseID.Some? ==> current.leaseID == t.expectLeaseID.value)
    && (t.expectLeaseUpdatedAt != ZERO_TIME ==> current.leaseUpdatedAt == t.expectLeaseUpdatedAt)
    && (t.expectInstanceState.Some? ==> current.instanceState == t.expectInstanceState.value)
    && (t.expectServiceState.Some? ==> current.serviceState == t.expectServiceState.value)
  }

  /** A container is reclaimed once, while it is not released, and not over a queued identity that was
      observed after the reclaim. */
  predicate MayReclaim(current: Instance, t: Transition) {
    && !t.reoffer && !t.applyPendingUpdate && LegalRow(current)
    && !current.pendingRelease && current.instanceState != Released
    && (current.pendingUpdate.Some? && t.releaseObservedAt != ZERO_TIME ==>
          current.pendingUpdate.value.observedAt <= t.releaseObservedAt)
  }

  /** A released container is offered again by its partner, bare and under a new lease. */
  predicate MayReoffer(current: Instance, next: Instance) {
    && current.instanceState == Released && current.serviceState == NoService
    && next.leaseID != "" && next.leaseID != current.leaseID
    && next.instanceState == Allocating && next.serviceState == NoService && next.role == NoRole && !next.pendingRelease
  }

  /** While a reclaim is in force the identity stands and no model is put to work. */
  predicate RespectsReclaim(current: Instance, next: Instance) {
    current.pendingRelease && next.instanceState != Released ==>
      && next.endpoint == current.endpoint && next.serviceEndpoint == current.serviceEndpoint
      && next.leaseID == current.leaseID
      && (next.serviceState in {Starting, Healthy, Registering, Serving} ==> next.instanceState == Lost)
  }

  /** A queued identity is put in force by the end of a drain and nothing else. */
  predicate MayApply(current: Instance, next: Instance) {
    && current.pendingUpdate.Some? && !current.pendingRelease && current.serviceState == Draining
    && next.serviceState == NoService && next.instanceState == Preparing
  }

  predicate MayWrite(current: Instance, t: Transition) {
    && current.partnerID == t.next.partnerID && LegalRow(t.next) && RespectsReclaim(current, t.next)
    && (t.applyPendingUpdate ==> MayApply(current, t.next))
    && (if t.reoffer then MayReoffer(current, t.next) else Moved(current, t.next.instanceState, t.next.serviceState))
  }

  predicate MayCommit(current: Instance, t: Transition) {
    AsExpected(current, t) && if t.requestRelease then MayReclaim(current, t) else MayWrite(current, t)
  }

  /** Compare and swap: a request is committed exactly when the stored row is what it expects and the change
      is one the row may undergo. */
  lemma CommitsExactlyWhen(current: Instance, t: Transition, now: Time)
    ensures Decide(current, t, now).Write? <==> MayCommit(current, t)
  {
    var reclaimed := WithReclaim(current, t);
    var next := WithQueuedUpdate(current, reclaimed, t);
    EdgesByTarget(current, next);
    assert next.instanceState == (if t.requestRelease then current.instanceState else t.next.instanceState);
    assert next.serviceState == (if t.requestRelease then current.serviceState else t.next.serviceState);
    assert next.role == (if t.requestRelease then current.role else t.next.role);
    assert LegalRow(next) <==> LegalRow(if t.requestRelease then current else t.next);
  }

  // --------------------------------------------------------- what is stored

  /** The reclaim in force outlives the write. */
  predicate StaysReclaimed(current: Instance, next: Instance) { current.pendingRelease && next.instanceState != Released }

  function Newer(a: Time, b: Time): Time { if a <= b then b else a }

  /** A reclaim marks the row, drops a queued identity, sets a deadline where there is none, and changes
      nothing else. */
  lemma ReclaimStores(current: Instance, t: Transition, now: Time)
    requires t.requestRelease && MayCommit(current, t)
    ensures Decide(current, t, now) == Write(current.(
      pendingRelease := true, pendingUpdate := None, updatedAt := now,
      drainDeadlineAt := if current.drainDeadlineAt == ZERO_TIME then t.next.drainDeadlineAt else current.drainDeadlineAt))
  {
    CommitsExactlyWhen(current, t, now);
  }

  /** Any other write stores what it was given, but for what the store keeps: identity, creation time, the
      newer of each observation, a reclaim with its deadline, and a queued identity. */
  lemma WriteStores(current: Instance, t: Transition, now: Time)
    requires !t.requestRelease && MayCommit(current, t)
    ensures Decide(current, t, now).Write?
    ensures var row, next := Decide(current, t, now).row, t.next;
      && row.id == current.id && row.partnerID == current.partnerID && row.createdAt == current.createdAt && row.updatedAt == now
      && row.instanceState == next.instanceState && row.serviceState == next.serviceState
      && row.role == next.role && row.roleAssignedAt == next.roleAssignedAt && row.routerWorkerID == next.routerWorkerID
      && row.readinessGeneration == next.readinessGeneration && row.prepareAttempts == next.prepareAttempts
      && row.startAttempts == next.startAttempts && row.startRearms == next.startRearms
      && row.startParkedAt == next.startParkedAt && row.lastError == next.lastError
      && row.lastSeenAt == Newer(current.lastSeenAt, next.lastSeenAt)
      && row.pendingRelease == (StaysReclaimed(current, next) || next.pendingRelease)
      && row.drainDeadlineAt == (if StaysReclaimed(current, next) then current.drainDeadlineAt else next.drainDeadlineAt)
    ensures !t.applyPendingUpdate ==>
      var row, next := Decide(current, t, now).row, t.next;
      && row.endpoint == next.endpoint && row.serviceEndpoint == next.serviceEndpoint && row.leaseID == next.leaseID
      && row.spec == next.spec && row.leaseUpdatedAt == Newer(current.leaseUpdatedAt, next.leaseUpdatedAt)
    ensures t.applyPendingUpdate ==>
      var row, u := Decide(current, t, now).row, current.pendingUpdate.value;
      && row.endpoint == u.endpoint && row.serviceEndpoint == u.serviceEndpoint && row.leaseID == u.leaseID
      && row.spec == u.spec && row.leaseUpdatedAt == Newer(current.leaseUpdatedAt, u.observedAt) && row.pendingUpdate.None?
  {
    CommitsExactlyWhen(current, t, now);
  }

  /** Of two queued identities the one observed later stays; a reclaimed or released row has none. */
  lemma QueueStores(current: Instance, t: Transition, now: Time)
    requires !t.requestRelease && !t.applyPendingUpdate && !t.reoffer && MayCommit(current, t)
    ensures Decide(current, t, now).Write?
    ensures var row, queued, given := Decide(current, t, now).row, current.pendingUpdate, t.next.pendingUpdate;
      row.pendingUpdate ==
        if row.pendingRelease || row.instanceState == Released then None
        else if queued.Some? && given.Some? then (if given.value.observedAt >= queued.value.observedAt then given else queued)
        else if queued.Some? then queued else given
  {
    CommitsExactlyWhen(current, t, now);
  }

  /** The first row of an instance: it must be ALLOCATING, and nothing it expects is looked at. */
  lemma InsertsExactlyWhen(db: DB, t: Transition, now: Time)
    requires t.instanceID !in db.rows
    ensures After(db, Transact(t, now)) != db
       <==> t.instanceID != "" && t.next.id in {"", t.instanceID} && t.next.instanceState == Allocating
            && t.next.serviceState == NoService
    ensures t.instanceID in After(db, Transact(t, now)).rows ==>
      After(db, Transact(t, now)).rows[t.instanceID]
      == t.next.(id := t.instanceID, updatedAt := now,
                 createdAt := if t.next.createdAt == ZERO_TIME then now else t.next.createdAt)
  {
    if DecideInsert(t, now).Write? {
      assert t.instanceID in db.rows[t.instanceID := DecideInsert(t, now).row];
    }
  }

  // -------------------------------------------------------------- operations

  /** The request closes this operation: it offers the container again, and the old lease left it open. */
  predicate Superseded(db: DB, t: Transition, o: Operation) {
    t.reoffer && t.instanceID in db.rows && o.instanceID == t.instanceID && o.status in {OpPending, OpInProgress}
  }

  /** A commit records its own operation and leaves every other one alone, but for those it supersedes. */
  lemma CommittedOperations(db: DB, t: Transition, now: Time, key: string)
    requires DecideFor(db.rows, t, now).Write?
    ensures var before, after := db.operations, After(db, Transact(t, now)).operations;
      if t.operation.Some? && t.operation.value.operationID == key then
        var given := t.operation.value;
        && key in after
        && after[key].status == given.status && after[key].attempt == given.attempt
        && after[key].nextRetryAt == given.nextRetryAt && after[key].lastError == given.lastError
        && (if key in before
            then after[key].instanceID == before[key].instanceID && after[key].kind == before[key].kind
                 && after[key].createdAt == before[key].createdAt
            else after[key].instanceID == given.instanceID && after[key].kind == given.kind
                 && after[key].createdAt == if given.createdAt == ZERO_TIME then now else given.createdAt)
      else
        && (key in after <==> key in before)
        && (key in before ==>
              if Superseded(db, t, before[key])
              then after[key] == before[key].(status := OpFailed, lastError := "superseded by a new lease")
              else after[key] == before[key])
  {
  }

  // ------------------------------------------------------------- observations

  /** An observation is recorded exactly while the container is neither reclaimed nor on its way out, and
      only if it is no older than the one on record; it writes two columns. */
  lemma ObservedExactlyWhen(db: DB, id: string, observedAt: Time, seenAt: Time)
    ensures After(db, Touch(id, observedAt, seenAt)) ==
      if id in db.rows && !db.rows[id].pendingRelease && db.rows[id].instanceState !in {Released, Releasing}
         && db.rows[id].leaseUpdatedAt <= observedAt
      then db.(rows := db.rows[id := db.rows[id].(leaseUpdatedAt := observedAt, lastSeenAt := seenAt)]) else db
  {
  }

  // ----------------------------------------------------------- over every run

  lemma StoredNow(current: Instance, t: Transition, now: Time)
    requires Decide(current, t, now).Write?
    ensures Decide(current, t, now).row.updatedAt == now
  {
  }

  /** Over every run, a request to change a stored row changes the database only if the row was what the
      request expects and may change so; and then the row is stored as of that moment.  One that expects
      something else, or asks for a change the row may not undergo, changes nothing. */
  lemma RunIsGuarded(db: DB, steps: seq<Step>, k: nat)
    requires k < |steps| && steps[k].Transact? && steps[k].t.instanceID in At(db, steps, k).rows
    requires steps[k].t.instanceID != "" && steps[k].t.next.id in {"", steps[k].t.instanceID}
    ensures var id, before, after := steps[k].t.instanceID, At(db, steps, k), At(db, steps, k + 1);
      && id in after.rows
      && (!MayCommit(before.rows[id], steps[k].t) ==> after == before)
      && (MayCommit(before.rows[id], steps[k].t) ==> after.rows[id].updatedAt == steps[k].now)
    ensures At(db, steps, k + 1) != At(db, steps, k) ==> AsExpected(At(db, steps, k).rows[steps[k].t.instanceID], steps[k].t)
  {
    AtNext(db, steps, k);
    var t, now := steps[k].t, steps[k].now;
    var current := At(db, steps, k).rows[t.instanceID];
    CommitsExactlyWhen(current, t, now);
    if MayCommit(current, t) {
      StoredNow(current, t, now);
    }
  }

  /** Over every run, a container and its service move along the graphs, or the container is offered again. */
  lemma RunFollowsTheGraphs(db: DB, steps: seq<Step>, k: nat, id: string)
    requires k < |steps| && id in At(db, steps, k).rows
    ensures id in At(db, steps, k + 1).rows
    ensures var before, after := At(db, steps, k).rows[id], At(db, steps, k + 1).rows[id];
      || Moved(before, after.instanceState, after.serviceState)
      || (steps[k].Transact? && steps[k].t.reoffer && before.instanceState == Released && before.serviceState == NoService
          && after.instanceState == Allocating && after.serviceState == NoService)
  {
    AtNext(db, steps, k);
    var before := At(db, steps, k);
    RowsStay(before, steps[k], id);
    if steps[k].Transact? && At(db, steps, k + 1).rows[id] != before.rows[id] {
      var t, now := steps[k].t, steps[k].now;
      CommitsExactlyWhen(before.rows[id], t, now);
      if t.requestRelease {
        ReclaimStores(before.rows[id], t, now);
      } else {
        WriteStores(before.rows[id], t, now);
      }
    }
  }
}
