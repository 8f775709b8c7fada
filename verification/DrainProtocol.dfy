/** Draining one instance against Router admission: every interleaving of the controller's locked
    operations, its lock-free writers, lost Router calls, crashes, and a Router that may drop or close a
    membership by itself.  Only this controller opens admission, and a Router call acts when it is made
    or not at all. */
module DrainProtocol {
  import opened Domain
  import opened DurableStore
  import opened Lifecycle

  // ----------------------------------------------------------------- threads

  /** What the operation that holds the instance lock is doing, with the copy of the row it works on. */
  datatype Thread =
    | Free
    /** a start or a repair, from its first write until its last */
    | Opening(local: Instance)
    /** a drain that read the row and has not closed admission yet */
    | DrainRead(local: Instance, deadline: Time, release: bool)
    /** a drain that closed admission and has not written the row yet */
    | DrainClosed(local: Instance, deadline: Time, release: bool)
    /** any operation that leaves service, identity and deadline as it read them, or finishes a drain */
    | Holding(local: Instance)

  /** `stamper` is the reconcile round that found a drain without a deadline and writes without the lock. */
  datatype World = World(row: Instance, members: Members, thread: Thread, stamper: Option<Instance>)

  datatype Step =
    // the Router
    | MembershipDropped(id: string)
    | AdmissionClosed(id: string)
    // writers that do not hold the lock
    | Reclaim(t: Transition, now: Time)
    | Observe(observedAt: Time, seenAt: Time)
    | WriteElsewhere(next: Instance, reoffer: bool, now: Time)
    | StampRead(now: Time)
    | StampWrite(now: Time)
    // starts and repairs
    | BeginStart(role: Role, now: Time)
    | BeginRepair
    | Advance(state: ServiceState, now: Time)
    | DropStaleMembership
    | Register(open: bool)
    | OpenAdmission
    | WriteServing(generation: int, now: Time)
    | WriteFailed(identified: bool, message: string, maxAttempts: int, now: Time)
    // drains
    | BeginDrain(grace: int, release: bool, now: Time)
    | Close(find: Reach, call: Reach)
    | WriteDraining(now: Time)
    | Hold
    | WriteKept(next: Instance, now: Time)
    | WriteDrained(now: Time)
    // identity
    | UpdateIdentity(endpoint: string, serviceEndpoint: string, leaseID: string, observedAt: Time, now: Time)
    // the operation returns, or the process dies
    | Release

  // ------------------------------------------------------------------- steps

  /** Writes the row and keeps the lock exactly if the store accepted it. */
  function WriteAndStay(w: World, next: Instance, now: Time, thread: Thread): World {
    var (row, ok) := StoreWrite(w.row, Plain(next), now);
    w.(row := row, thread := if ok then thread else Free)
  }

  function WriteAndLeave(w: World, t: Transition, now: Time): World {
    w.(row := StoreWrite(w.row, t, now).0, thread := Free)
  }

  /** The operation changes neither service nor identity nor deadline of the row it read. */
  predicate KeepsService(local: Instance, next: Instance) {
    && next.endpoint == local.endpoint && next.serviceEndpoint == local.serviceEndpoint
    && next.routerWorkerID == local.routerWorkerID && next.serviceState == local.serviceState
    && next.drainDeadlineAt == local.drainDeadlineAt
    && (next.pendingRelease ==> local.pendingRelease || local.serviceState == Draining)
  }

  predicate Repairable(row: Instance) {
    && row.instanceState == Idle && !row.pendingRelease && row.pendingUpdate.None?
    && row.serviceState in {Failed, Healthy, Registering, Serving}
  }

  /** The row a capacity update of a container without a service writes, and whether the recorded worker
      id was cleared.  A change is looked for against the queued identity, if there is one. */
  function UpdatedRow(row: Instance, endpoint: string, serviceEndpoint: string, leaseID: string, observedAt: Time): Instance {
    var base := if row.pendingUpdate.None? then row else
      var u := row.pendingUpdate.value;
      row.(endpoint := u.endpoint, serviceEndpoint := u.serviceEndpoint, leaseID := u.leaseID, spec := u.spec, pendingUpdate := None,
           prepareAttempts := 0, startAttempts := 0, startRearms := 0, startParkedAt := ZERO_TIME);
    var changed := endpoint != base.endpoint || serviceEndpoint != base.serviceEndpoint || leaseID != base.leaseID;
    var next := base.(endpoint := endpoint, serviceEndpoint := serviceEndpoint, leaseID := leaseID, leaseUpdatedAt := observedAt);
    if changed && (row.instanceState == Idle || row.instanceState == Lost)
    then next.(instanceState := Preparing, prepareAttempts := 0, startAttempts := 0, startRearms := 0, startParkedAt := ZERO_TIME,
               routerWorkerID := "", readinessGeneration := 0)
    else next
  }

  function RouterStep(w: World, step: Step): World {
    match step
    case MembershipDropped(id) => w.(members := w.members - {id})
    case AdmissionClosed(id) => w.(members := WithReadiness(w.members, id, false))
    case _ => w
  }

  /** The recorded worker id is the one of the address in force, and what drains or is reclaimed has a deadline. */
  predicate RowSound(row: Instance) {
    && (row.routerWorkerID == "" || row.routerWorkerID == WorkerID(ServiceURL(row)))
    && (row.serviceState == Draining || row.pendingRelease ==> row.drainDeadlineAt != ZERO_TIME)
  }

  function LockFreeStep(w: World, step: Step): World {
    match step
    case Reclaim(t, now) =>
      if t.requestRelease && !t.applyPendingUpdate && !t.reoffer && t.next.drainDeadlineAt != ZERO_TIME
      then w.(row := StoreWrite(w.row, t, now).0) else w
    case Observe(observedAt, seenAt) =>
      if Touchable(w.row, observedAt) then w.(row := Touched(w.row, observedAt, seenAt)) else w
    case WriteElsewhere(next, reoffer, now) =>
      if RowSound(next) && next.serviceState != Draining
      then w.(row := StoreWrite(w.row, Plain(next).(reoffer := reoffer), now).0) else w
    case StampRead(now) =>
      if w.row.serviceState == Draining && w.row.drainDeadlineAt == ZERO_TIME then w.(stamper := Some(w.row)) else w
    case StampWrite(now) =>
      if w.stamper.Some?
      then w.(row := StoreWrite(w.row, Plain(w.stamper.value.(drainDeadlineAt := now)), now).0, stamper := None) else w
    case _ => w
  }

  /** Registration and readiness come after the REGISTERING write. */
  predicate Registers(local: Instance) { local.serviceState in {Registering, Serving} }

  function OpenerStep(w: World, step: Step): World {
    match step
    case BeginStart(role, now) =>
      if w.thread.Free? && MayStart(w.row, role)
      then WriteAndStay(w, StartingRow(w.row, role, now), now, Opening(StartingRow(w.row, role, now))) else w
    case BeginRepair =>
      if w.thread.Free? && (Repairable(w.row) || w.row.serviceState == Starting) then w.(thread := Opening(w.row)) else w
    case Advance(state, now) =>
      if w.thread.Opening? && state in {Starting, Healthy, Registering}
      then WriteAndStay(w, w.thread.local.(serviceState := state), now, Opening(w.thread.local.(serviceState := state))) else w
    case DropStaleMembership =>
      if w.thread.Opening? then w.(members := w.members - {WorkerID(ServiceURL(w.thread.local))}) else w
    case Register(open) =>
      if w.thread.Opening? && Registers(w.thread.local)
      then w.(members := w.members[WorkerID(ServiceURL(w.thread.local)) := open]) else w
    case OpenAdmission =>
      if w.thread.Opening? && Registers(w.thread.local)
      then w.(members := WithReadiness(w.members, WorkerID(ServiceURL(w.thread.local)), true)) else w
    case WriteServing(generation, now) =>
      if w.thread.Opening? && Registers(w.thread.local)
      then WriteAndLeave(w, Plain(ServingRow(w.thread.local, WorkerID(ServiceURL(w.thread.local)), generation, now)), now) else w
    case WriteFailed(identified, message, maxAttempts, now) =>
      if w.thread.Opening? then
        var local := if identified then w.thread.local.(routerWorkerID := WorkerID(ServiceURL(w.thread.local))) else w.thread.local;
        WriteAndLeave(w, Plain(FailedRow(local, message, maxAttempts, now)), now)
      else w
    case _ => w
  }

  function DrainStep(w: World, step: Step): World {
    match step
    case BeginDrain(grace, release, now) =>
      if (w.thread.Free? || w.thread.Opening?) && HasService(w.row) && w.row.serviceState != Draining && now != ZERO_TIME
      then w.(thread := DrainRead(w.row, DrainDeadline(w.row, grace, now), release)) else w
    case Close(find, call) =>
      if w.thread.DrainRead? then
        var c := CloseAdmission(w.thread.local, w.members, find, call);
        w.(members := c.members, thread := if c.ok then DrainClosed(c.row, w.thread.deadline, w.thread.release) else Free)
      else w
    case WriteDraining(now) =>
      if w.thread.DrainClosed?
      then WriteAndLeave(w, Plain(DrainingRow(w.thread.local, w.thread.deadline, w.thread.release)), now) else w
    case Hold => if w.thread.Free? then w.(thread := Holding(w.row)) else w
    case WriteKept(next, now) =>
      if w.thread.Holding? && KeepsService(w.thread.local, next) then WriteAndLeave(w, Plain(next), now) else w
    case WriteDrained(now) =>
      if w.thread.Holding? && w.thread.local.serviceState == Draining
      then WriteAndLeave(w, DrainedTransition(w.thread.local, now), now) else w
    case UpdateIdentity(endpoint, serviceEndpoint, leaseID, observedAt, now) =>
      if w.thread.Free? && !HasService(w.row) && !w.row.pendingRelease
      then WriteAndLeave(w, Plain(UpdatedRow(w.row, endpoint, serviceEndpoint, leaseID, observedAt)), now) else w
    case Release => w.(thread := Free)
    case _ => w
  }

  predicate IsRouterStep(step: Step) { step.MembershipDropped? || step.AdmissionClosed? }

  predicate IsLockFree(step: Step) {
    step.Reclaim? || step.Observe? || step.WriteElsewhere? || step.StampRead? || step.StampWrite?
  }

  predicate IsOpener(step: Step) {
    || step.BeginStart? || step.BeginRepair? || step.Advance? || step.DropStaleMembership? || step.Register?
    || step.OpenAdmission? || step.WriteServing? || step.WriteFailed?
  }

  function After(w: World, step: Step): World {
    if IsRouterStep(step) then RouterStep(w, step)
    else if IsLockFree(step) then LockFreeStep(w, step)
    else if IsOpener(step) then OpenerStep(w, step)
    else DrainStep(w, step)
  }

  function Run(w: World, steps: seq<Step>): World {
    if steps == [] then w else After(Run(w, steps[..|steps| - 1]), steps[|steps| - 1])
  }

  // --------------------------------------------------------------- invariant

  predicate DrainsClosed(row: Instance, members: Members) {
    row.serviceState == Draining ==> !Admits(members, ServiceURL(row))
  }

  predicate ThreadSound(w: World) {
    match w.thread
    case Free => true
    case Opening(local) => RowSound(local) && local.serviceState != Draining && w.row.serviceState != Draining
    case DrainRead(local, deadline, _) => RowSound(local) && deadline != ZERO_TIME
    case DrainClosed(local, deadline, _) => RowSound(local) && deadline != ZERO_TIME && !Admits(w.members, ServiceURL(local))
    case Holding(local) => RowSound(local) && DrainsClosed(local, w.members)
  }

  predicate Sound(w: World) {
    RowSound(w.row) && DrainsClosed(w.row, w.members) && ThreadSound(w) && w.stamper.None?
  }

  /** The step changes the address of a row that keeps the worker id recorded for the old one. */
  predicate LeavesStaleID(w: World, step: Step) {
    && step.UpdateIdentity?
    && var next := UpdatedRow(w.row, step.endpoint, step.serviceEndpoint, step.leaseID, step.observedAt);
       next.routerWorkerID != "" && ServiceURL(next) != ServiceURL(w.row)
  }

  /** An update of a container without a service takes effect at once; where it changes the identity last
      asked for, an IDLE or LOST container is prepared again from the start, under no worker id. */
  lemma UpdateTakesEffect(row: Instance, endpoint: string, serviceEndpoint: string, leaseID: string, observedAt: Time)
    ensures var next := UpdatedRow(row, endpoint, serviceEndpoint, leaseID, observedAt);
      var same := if row.pendingUpdate.Some?
                  then var u := row.pendingUpdate.value; u.endpoint == endpoint && u.serviceEndpoint == serviceEndpoint && u.leaseID == leaseID
                  else row.endpoint == endpoint && row.serviceEndpoint == serviceEndpoint && row.leaseID == leaseID;
      && next.endpoint == endpoint && next.serviceEndpoint == serviceEndpoint && next.leaseID == leaseID
      && next.leaseUpdatedAt == observedAt && next.pendingUpdate.None? && next.serviceState == row.serviceState
      && (if !same && row.instanceState in {Idle, Lost}
          then next.instanceState == Preparing && next.routerWorkerID == "" && next.readinessGeneration == 0
               && next.prepareAttempts == 0 && next.startAttempts == 0 && next.startRearms == 0 && next.startParkedAt == ZERO_TIME
          else next.instanceState == row.instanceState && next.routerWorkerID == row.routerWorkerID
               && next.readinessGeneration == row.readinessGeneration)
  {
  }

  /** Exactly when: an id is on record, the address changes, and either the container is neither IDLE nor
      LOST, or the identity is the one that was queued already. */
  lemma LeavesStaleIDExactlyWhen(w: World, endpoint: string, serviceEndpoint: string, leaseID: string, observedAt: Time, now: Time)
    ensures LeavesStaleID(w, UpdateIdentity(endpoint, serviceEndpoint, leaseID, observedAt, now))
       <==> && w.row.routerWorkerID != ""
            && ServiceURL(w.row.(endpoint := endpoint, serviceEndpoint := serviceEndpoint)) != ServiceURL(w.row)
            && (|| w.row.instanceState !in {Idle, Lost}
                || (w.row.pendingUpdate.Some?
                    && var u := w.row.pendingUpdate.value;
                       u.endpoint == endpoint && u.serviceEndpoint == serviceEndpoint && u.leaseID == leaseID))
  {
    var next := UpdatedRow(w.row, endpoint, serviceEndpoint, leaseID, observedAt);
    assert ServiceURL(next) == ServiceURL(w.row.(endpoint := endpoint, serviceEndpoint := serviceEndpoint));
  }

  // ------------------------------------------------------------------- proof

  /** What the store keeps of an ordinary write: service, address and worker id are the writer's; the
      deadline and the reclaim are the writer's or those of a reclaim in force. */
  lemma OrdinaryWrite(row: Instance, t: Transition, now: Time)
    requires !t.requestRelease && !t.applyPendingUpdate && Decide(row, t, now).Write?
    ensures var stored, next := Decide(row, t, now).row, t.next;
      && stored.endpoint == next.endpoint && stored.serviceEndpoint == next.serviceEndpoint
      && stored.routerWorkerID == next.routerWorkerID && stored.serviceState == next.serviceState
      && (|| (stored.drainDeadlineAt == next.drainDeadlineAt && stored.pendingRelease == next.pendingRelease)
          || (row.pendingRelease && stored.drainDeadlineAt == row.drainDeadlineAt))
  {
    var next := WithQueuedUpdate(row, WithReclaim(row, t), t);
    assert Decide(row, t, now).row == Stored(row, next, now);
  }

  lemma DrainedWrite(row: Instance, local: Instance, now: Time)
    requires Decide(row, DrainedTransition(local, now), now).Write? && RowSound(row) && RowSound(local)
    ensures RowSound(Decide(row, DrainedTransition(local, now), now).row)
    ensures Decide(row, DrainedTransition(local, now), now).row.serviceState == NoService
  {
    var t := DrainedTransition(local, now);
    if t.applyPendingUpdate {
      assert Decide(row, t, now).row == Stored(row, WithQueuedUpdate(row, WithReclaim(row, t), t), now);
    } else {
      OrdinaryWrite(row, t, now);
    }
  }

  lemma ReclaimWrite(row: Instance, t: Transition, now: Time)
    requires t.requestRelease && !t.applyPendingUpdate && !t.reoffer && t.next.drainDeadlineAt != ZERO_TIME && RowSound(row)
    ensures var stored := StoreWrite(row, t, now).0;
      && RowSound(stored) && stored.serviceState == row.serviceState
      && stored.endpoint == row.endpoint && stored.serviceEndpoint == row.serviceEndpoint
  {
    if Decide(row, t, now).Write? {
      assert Decide(row, t, now).row == Stored(row, WithQueuedUpdate(row, WithReclaim(row, t), t), now);
    }
  }

  lemma SameURL(a: Instance, b: Instance)
    requires a.endpoint == b.endpoint && a.serviceEndpoint == b.serviceEndpoint
    ensures ServiceURL(a) == ServiceURL(b)
  {
  }

  /** An ordinary write of a sound row stores a sound row. */
  lemma PlainWrite(row: Instance, next: Instance, reoffer: bool, now: Time)
    requires RowSound(row) && RowSound(next)
    ensures var (stored, ok) := StoreWrite(row, Plain(next).(reoffer := reoffer), now);
      && RowSound(stored)
      && (if ok then stored.serviceState == next.serviceState && ServiceURL(stored) == ServiceURL(next) else stored == row)
  {
    var t := Plain(next).(reoffer := reoffer);
    if Decide(row, t, now).Write? {
      OrdinaryWrite(row, t, now);
      SameURL(Decide(row, t, now).row, next);
    }
  }

  lemma RouterKeepsSound(w: World, step: Step)
    requires Sound(w) && IsRouterStep(step)
    ensures Sound(After(w, step))
  {
  }

  lemma LockFreeKeepsSound(w: World, step: Step)
    requires Sound(w) && IsLockFree(step)
    ensures Sound(After(w, step))
  {
    match step
    case Reclaim(t, now) =>
      if t.requestRelease && !t.applyPendingUpdate && !t.reoffer && t.next.drainDeadlineAt != ZERO_TIME {
        ReclaimWrite(w.row, t, now);
        SameURL(StoreWrite(w.row, t, now).0, w.row);
      }
    case Observe(observedAt, seenAt) =>
      SameURL(Touched(w.row, observedAt, seenAt), w.row);
    case WriteElsewhere(next, reoffer, now) =>
      if RowSound(next) {
        PlainWrite(w.row, next, reoffer, now);
      }
    case _ =>
  }

  /** There is no edge from DRAINING to STARTING. */
  lemma StartRefusedWhileDraining(row: Instance, role: Role, now: Time)
    ensures row.serviceState == Draining ==> !StoreWrite(row, Plain(StartingRow(row, role, now)), now).1
  {
    if row.serviceState == Draining {
      var t := Plain(StartingRow(row, role, now));
      assert ValidateTransition(row, WithQueuedUpdate(row, WithReclaim(row, t), t)).Some?;
    }
  }

  lemma BeginStartKeepsSound(w: World, role: Role, now: Time)
    requires Sound(w)
    ensures Sound(OpenerStep(w, BeginStart(role, now)))
  {
    var next := StartingRow(w.row, role, now);
    SameURL(next, w.row);
    if w.row.serviceState == Draining {
      StartRefusedWhileDraining(w.row, role, now);
    } else {
      PlainWrite(w.row, next, false, now);
    }
  }

  lemma AdvanceKeepsSound(w: World, state: ServiceState, now: Time)
    requires Sound(w) && w.thread.Opening? && state in {Starting, Healthy, Registering}
    ensures Sound(OpenerStep(w, Advance(state, now)))
  {
    var next := w.thread.local.(serviceState := state);
    SameURL(next, w.thread.local);
    PlainWrite(w.row, next, false, now);
  }

  lemma ServingKeepsSound(w: World, generation: int, now: Time)
    requires Sound(w) && w.thread.Opening?
    ensures Sound(OpenerStep(w, WriteServing(generation, now)))
  {
    var next := ServingRow(w.thread.local, WorkerID(ServiceURL(w.thread.local)), generation, now);
    SameURL(next, w.thread.local);
    if Registers(w.thread.local) {
      PlainWrite(w.row, next, false, now);
    }
  }

  lemma FailedKeepsSound(w: World, identified: bool, message: string, maxAttempts: int, now: Time)
    requires Sound(w) && w.thread.Opening?
    ensures Sound(OpenerStep(w, WriteFailed(identified, message, maxAttempts, now)))
  {
    var local := if identified then w.thread.local.(routerWorkerID := WorkerID(ServiceURL(w.thread.local))) else w.thread.local;
    var next := FailedRow(local, message, maxAttempts, now);
    SameURL(next, w.thread.local);
    PlainWrite(w.row, next, false, now);
  }

  lemma OpenerKeepsSound(w: World, step: Step)
    requires Sound(w) && IsOpener(step)
    ensures Sound(OpenerStep(w, step))
  {
    match step
    case BeginStart(role, now) => BeginStartKeepsSound(w, role, now);
    case Advance(state, now) =>
      if w.thread.Opening? && state in {Starting, Healthy, Registering} {
        AdvanceKeepsSound(w, state, now);
      }
    case WriteServing(generation, now) =>
      if w.thread.Opening? {
        ServingKeepsSound(w, generation, now);
      }
    case WriteFailed(identified, message, maxAttempts, now) =>
      if w.thread.Opening? {
        FailedKeepsSound(w, identified, message, maxAttempts, now);
      }
    case _ =>
  }

  lemma KeptKeepsSound(w: World, next: Instance, now: Time)
    requires Sound(w) && w.thread.Holding? && KeepsService(w.thread.local, next)
    ensures Sound(DrainStep(w, WriteKept(next, now)))
  {
    SameURL(next, w.thread.local);
    PlainWrite(w.row, next, false, now);
  }

  lemma WriteDrainingKeepsSound(w: World, now: Time)
    requires Sound(w) && w.thread.DrainClosed?
    ensures Sound(DrainStep(w, WriteDraining(now)))
  {
    var next := DrainingRow(w.thread.local, w.thread.deadline, w.thread.release);
    SameURL(next, w.thread.local);
    PlainWrite(w.row, next, false, now);
  }

  lemma DrainKeepsSound(w: World, step: Step)
    requires Sound(w) && !IsRouterStep(step) && !IsLockFree(step) && !IsOpener(step) && !LeavesStaleID(w, step)
    ensures Sound(After(w, step))
  {
    match step
    case Close(find, call) =>
      if w.thread.DrainRead? {
        var local := w.thread.local;
        var c := CloseAdmission(local, w.members, find, call);
        SameURL(c.row, local);
      }
    case WriteDraining(now) =>
      if w.thread.DrainClosed? {
        WriteDrainingKeepsSound(w, now);
      }
    case WriteKept(next, now) =>
      if w.thread.Holding? && KeepsService(w.thread.local, next) {
        KeptKeepsSound(w, next, now);
      }
    case WriteDrained(now) =>
      if w.thread.Holding? && Decide(w.row, DrainedTransition(w.thread.local, now), now).Write? {
        DrainedWrite(w.row, w.thread.local, now);
      }
    case UpdateIdentity(endpoint, serviceEndpoint, leaseID, observedAt, now) =>
      if !HasService(w.row) && !w.row.pendingRelease {
        PlainWrite(w.row, UpdatedRow(w.row, endpoint, serviceEndpoint, leaseID, observedAt), false, now);
      }
    case _ =>
  }

  /** No step of the run changes the address of a row that keeps the worker id of the old one. */
  ghost predicate KeepsIDsFresh(w: World, steps: seq<Step>) {
    forall k | 0 <= k < |steps| :: !LeavesStaleID(Run(w, steps[..k]), steps[k])
  }

  /** From the step that enters DRAINING until the row leaves it, its Router membership is closed or
      absent: over every run, crashes and lost calls included, in which no identity update leaves a
      stale worker id behind.  A drain is never without a deadline, so nobody writes without the lock. */
  lemma {:induction false} DrainingIsClosed(w: World, steps: seq<Step>)
    requires Sound(w) && KeepsIDsFresh(w, steps)
    ensures Sound(Run(w, steps))
    ensures var later := Run(w, steps);
      later.row.serviceState == Draining ==> !Admits(later.members, ServiceURL(later.row)) && later.row.drainDeadlineAt != ZERO_TIME
  {
    if steps != [] {
      var n := |steps| - 1;
      var front := steps[..n];
      forall k | 0 <= k < n ensures !LeavesStaleID(Run(w, front[..k]), front[k]) {
        assert front[..k] == steps[..k];
      }
      DrainingIsClosed(w, front);
      var before, step := Run(w, front), steps[n];
      if IsRouterStep(step) {
        RouterKeepsSound(before, step);
      } else if IsLockFree(step) {
        LockFreeKeepsSound(before, step);
      } else if IsOpener(step) {
        OpenerKeepsSound(before, step);
      } else {
        DrainKeepsSound(before, step);
      }
    }
  }
}
