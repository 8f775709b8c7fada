/** A drain with traffic gets its whole grace: which deadline a drain is given, that nobody moves it, and how
    long finishing the drain waits. */
module DrainGrace {
  import opened Domain
  import opened DurableStore
  import opened Lifecycle
  import opened DrainProtocol
  import opened DrainController

  // --------------------------------------------------------- which deadline

  /** The grace counted from the clock of the drain, unless the row it reads is being reclaimed by a
      deadline of its own. */
  function Granted(read: Instance, grace: int, now: Time): Time {
    if read.pendingRelease && read.drainDeadlineAt > 0 then read.drainDeadlineAt
    else if grace > 0 then now + grace else now
  }

  ghost predicate Draws(w: World) { w.thread.DrainRead? || w.thread.DrainClosed? }

  /** The deadline a drain works towards comes from the step that began it. */
  lemma {:induction false} DrainBegan(w: World, steps: seq<Step>) returns (j: nat)
    requires !Draws(w) && Draws(Run(w, steps))
    ensures j < |steps| && steps[j].BeginDrain?
    ensures Run(w, steps).thread.deadline == Granted(Run(w, steps[..j]).row, steps[j].grace, steps[j].now)
  {
    var n := |steps| - 1;
    var before := Run(w, steps[..n]);
    if steps[n].BeginDrain? && !Draws(before) {
      j := n;
    } else {
      j := DrainBegan(w, steps[..n]);
      assert steps[..n][..j] == steps[..j];
    }
  }

  /** Entering DRAINING stores the deadline of the drain, unless a reclaim is in force, whose deadline stands. */
  lemma EntersWith(row: Instance, local: Instance, deadline: Time, release: bool, now: Time)
    requires StoreWrite(row, Plain(DrainingRow(local, deadline, release)), now).0.serviceState == Draining
    requires row.serviceState != Draining
    ensures StoreWrite(row, Plain(DrainingRow(local, deadline, release)), now).0.drainDeadlineAt
         == if row.pendingRelease then row.drainDeadlineAt else deadline
  {
    var t := Plain(DrainingRow(local, deadline, release));
    assert Decide(row, t, now).Write?;
    assert Decide(row, t, now).row == Stored(row, WithQueuedUpdate(row, WithReclaim(row, t), t), now);
  }

  // ------------------------------------------------------- nobody moves it

  /** What drains or is reclaimed has a deadline. */
  predicate Dated(row: Instance) { row.serviceState == Draining || row.pendingRelease ==> row.drainDeadlineAt != ZERO_TIME }

  /** Nobody who holds the lock works on another deadline than a draining row has. */
  predicate Steady(w: World) {
    && Dated(w.row) && w.stamper.None?
    && match w.thread
       case Free => true
       case Opening(local) => Dated(local) && local.serviceState != Draining && w.row.serviceState != Draining
       case DrainRead(local, deadline, _) => deadline != ZERO_TIME && w.row.serviceState != Draining
       case DrainClosed(local, deadline, _) => deadline != ZERO_TIME && w.row.serviceState != Draining
       case Holding(local) =>
         && Dated(local)
         && (local.serviceState == Draining && w.row.serviceState == Draining ==> local.drainDeadlineAt == w.row.drainDeadlineAt)
  }

  /** The row drains before and after, by the same deadline. */
  predicate SameDeadline(before: Instance, after: Instance) {
    before.serviceState == Draining && after.serviceState == Draining ==> after.drainDeadlineAt == before.drainDeadlineAt
  }

  lemma DatedWrite(row: Instance, next: Instance, reoffer: bool, now: Time)
    requires Dated(row) && Dated(next)
    ensures var (stored, ok) := StoreWrite(row, Plain(next).(reoffer := reoffer), now);
      && Dated(stored)
      && (if ok then stored.serviceState == next.serviceState && stored.drainDeadlineAt in {next.drainDeadlineAt, row.drainDeadlineAt}
          else stored == row)
  {
    var t := Plain(next).(reoffer := reoffer);
    if Decide(row, t, now).Write? {
      OrdinaryWrite(row, t, now);
    }
  }

  lemma ReclaimKeepsDeadline(row: Instance, t: Transition, now: Time)
    requires t.requestRelease && !t.applyPendingUpdate && !t.reoffer && t.next.drainDeadlineAt != ZERO_TIME && Dated(row)
    ensures var stored := StoreWrite(row, t, now).0;
      Dated(stored) && stored.serviceState == row.serviceState && SameDeadline(row, stored)
  {
    if Decide(row, t, now).Write? {
      assert Decide(row, t, now).row == Stored(row, WithQueuedUpdate(row, WithReclaim(row, t), t), now);
    }
  }

  lemma LockFreeKeepsSteady(w: World, step: Step)
    requires Steady(w) && IsLockFree(step)
    ensures Steady(LockFreeStep(w, step)) && SameDeadline(w.row, LockFreeStep(w, step).row)
  {
    match step
    case Reclaim(t, now) =>
      if t.requestRelease && !t.applyPendingUpdate && !t.reoffer && t.next.drainDeadlineAt != ZERO_TIME {
        ReclaimKeepsDeadline(w.row, t, now);
      }
    case WriteElsewhere(next, reoffer, now) =>
      if RowSound(next) && next.serviceState != Draining {
        DatedWrite(w.row, next, reoffer, now);
      }
    case _ =>
  }

  lemma OpenerKeepsSteady(w: World, step: Step)
    requires Steady(w) && IsOpener(step)
    ensures Steady(OpenerStep(w, step)) && SameDeadline(w.row, OpenerStep(w, step).row)
  {
    match step
    case BeginStart(role, now) =>
      if w.row.serviceState == Draining {
        StartRefusedWhileDraining(w.row, role, now);
      } else {
        DatedWrite(w.row, StartingRow(w.row, role, now), false, now);
      }
    case Advance(state, now) =>
      if w.thread.Opening? && state in {Starting, Healthy, Registering} {
        DatedWrite(w.row, w.thread.local.(serviceState := state), false, now);
      }
    case WriteServing(generation, now) =>
      if w.thread.Opening? {
        DatedWrite(w.row, ServingRow(w.thread.local, WorkerID(ServiceURL(w.thread.local)), generation, now), false, now);
      }
    case WriteFailed(identified, message, maxAttempts, now) =>
      if w.thread.Opening? {
        var local := if identified then w.thread.local.(routerWorkerID := WorkerID(ServiceURL(w.thread.local))) else w.thread.local;
        DatedWrite(w.row, FailedRow(local, message, maxAttempts, now), false, now);
      }
    case _ =>
  }

  lemma DrainedWriteIsDated(row: Instance, local: Instance, now: Time)
    requires Dated(row) && Dated(local)
    ensures var stored := StoreWrite(row, DrainedTransition(local, now), now).0;
      Dated(stored) && (stored == row || stored.serviceState == NoService)
  {
    var t := DrainedTransition(local, now);
    if Decide(row, t, now).Write? {
      if t.applyPendingUpdate {
        assert Decide(row, t, now).row == Stored(row, WithQueuedUpdate(row, WithReclaim(row, t), t), now);
      } else {
        OrdinaryWrite(row, t, now);
      }
    }
  }

  lemma DrainKeepsSteady(w: World, step: Step)
    requires Steady(w)
    ensures Steady(DrainStep(w, step)) && SameDeadline(w.row, DrainStep(w, step).row)
  {
    match step
    case WriteDraining(now) =>
      if w.thread.DrainClosed? {
        DatedWrite(w.row, DrainingRow(w.thread.local, w.thread.deadline, w.thread.release), false, now);
      }
    case WriteKept(next, now) =>
      if w.thread.Holding? && KeepsService(w.thread.local, next) {
        DatedWrite(w.row, next, false, now);
      }
    case WriteDrained(now) =>
      if w.thread.Holding? {
        DrainedWriteIsDated(w.row, w.thread.local, now);
      }
    case UpdateIdentity(endpoint, serviceEndpoint, leaseID, observedAt, now) =>
      if !HasService(w.row) && !w.row.pendingRelease {
        DatedWrite(w.row, UpdatedRow(w.row, endpoint, serviceEndpoint, leaseID, observedAt), false, now);
      }
    case _ =>
  }

  lemma StepKeepsSteady(w: World, step: Step)
    requires Steady(w)
    ensures Steady(After(w, step)) && SameDeadline(w.row, After(w, step).row)
  {
    if IsLockFree(step) {
      LockFreeKeepsSteady(w, step);
    } else if IsOpener(step) {
      OpenerKeepsSteady(w, step);
    } else if !IsRouterStep(step) {
      DrainKeepsSteady(w, step);
    }
  }

  lemma NextIsSteady(w: World, steps: seq<Step>, k: nat)
    requires k < |steps| && Steady(Run(w, steps[..k]))
    ensures Steady(Run(w, steps[..k + 1])) && SameDeadline(Run(w, steps[..k]).row, Run(w, steps[..k + 1]).row)
    ensures Run(w, steps[..k + 1]) == After(Run(w, steps[..k]), steps[k])
  {
    assert steps[..k + 1][..k] == steps[..k];
    StepKeepsSteady(Run(w, steps[..k]), steps[k]);
  }

  lemma {:induction false} RunIsSteady(w: World, steps: seq<Step>, k: nat)
    requires Steady(w) && k <= |steps|
    ensures Steady(Run(w, steps[..k]))
  {
    if k > 0 {
      RunIsSteady(w, steps, k - 1);
      NextIsSteady(w, steps, k - 1);
    }
  }

  /** Over every run, whoever writes and whenever: as long as a row drains, its deadline stands. */
  lemma {:induction false} DeadlineStands(w: World, steps: seq<Step>, i: nat, m: nat)
    requires Steady(w) && i <= m <= |steps|
    requires forall k | i <= k <= m :: Run(w, steps[..k]).row.serviceState == Draining
    ensures Run(w, steps[..m]).row.drainDeadlineAt == Run(w, steps[..i]).row.drainDeadlineAt
    decreases m
  {
    if i < m {
      DeadlineStands(w, steps, i, m - 1);
      RunIsSteady(w, steps, m - 1);
      NextIsSteady(w, steps, m - 1);
    }
  }

  // -------------------------------------------------------- the whole grace

  /** How long finishing a drain waits for traffic to end: exactly until the deadline of a draining row. */
  lemma WaitsExactlyUntil(row: Instance, load: Option<int>, stop: StopReply, now: Time)
    requires Dated(row) && row.serviceState == Draining
    ensures EndingOf(row, false, load, stop, now).0 == Waits
       <==> (load.None? || load.value > 0) && now < row.drainDeadlineAt
    ensures EndingOf(row, false, load, stop, now).1
       <==> (load.None? || load.value > 0) && now >= row.drainDeadlineAt
  {
  }

  /** A drain with traffic gets its whole grace.  Over every run: a row that was entered into DRAINING at `k`
      and drains ever since was given that deadline by the step `j` that began the drain - its grace from its
      clock, or the deadline of a reclaim it found - or by a reclaim that came in between; and at any later
      moment finishing the drain waits, while load is unknown or positive, exactly until then. */
  lemma TrafficGetsTheWholeGrace(w: World, steps: seq<Step>, k: nat, m: nat, load: Option<int>, stop: StopReply, now: Time)
    returns (j: nat)
    requires Steady(w) && !Draws(w) && k < m <= |steps|
    requires steps[k].WriteDraining? && Run(w, steps[..k]).thread.DrainClosed?
    requires forall i | k < i <= m :: Run(w, steps[..i]).row.serviceState == Draining
    requires load.None? || load.value > 0
    ensures j < k && steps[j].BeginDrain?
    ensures var read, found, row := Run(w, steps[..j]).row, Run(w, steps[..k]).row, Run(w, steps[..m]).row;
      var deadline := if found.pendingRelease then found.drainDeadlineAt else Granted(read, steps[j].grace, steps[j].now);
      && row.drainDeadlineAt == deadline
      && (EndingOf(row, false, load, stop, now).0 == Waits <==> now < deadline)
      && (EndingOf(row, false, load, stop, now).1 <==> now >= deadline)
  {
    j := DrainBegan(w, steps[..k]);
    assert steps[..k][..j] == steps[..j];
    RunIsSteady(w, steps, k);
    NextIsSteady(w, steps, k);
    var before := Run(w, steps[..k]);
    EntersWith(before.row, before.thread.local, before.thread.deadline, before.thread.release, steps[k].now);
    DeadlineStands(w, steps, k + 1, m);
    RunIsSteady(w, steps, m);
    WaitsExactlyUntil(Run(w, steps[..m]).row, load, stop, now);
  }

  /** With nobody in between: beginDrain leaves a draining row its grace, and a finishDrain that finds traffic
      waits exactly as long. */
  lemma DrainGetsItsGrace(w: World, grace: int, release: bool, find: Reach, call: Reach, now: Time, later: Time,
                          load: Option<int>, stop: StopReply, at: Time)
    requires w.thread.Free? && w.row.serviceState != NoService && w.row.serviceState != Draining && now != ZERO_TIME
    requires Dated(w.row) && (load.None? || load.value > 0)
    ensures var row := DrainSteps(w, grace, release, find, call, now, later).row;
      row.serviceState == Draining ==>
        && row.drainDeadlineAt == (if w.row.pendingRelease then w.row.drainDeadlineAt else if grace > 0 then now + grace else now)
        && (EndingOf(row, false, load, stop, at).0 == Waits <==> at < row.drainDeadlineAt)
  {
    DrainStepsWritten(w, grace, release, find, call, now, later);
    var c := CloseAdmission(w.row, w.members, find, call);
    var row := DrainSteps(w, grace, release, find, call, now, later).row;
    if row.serviceState == Draining {
      EntersWith(w.row, c.row, DrainDeadline(w.row, grace, now), release, later);
      WaitsExactlyUntil(row, load, stop, at);
    }
  }

  /** Entering DRAINING marks what is to be given back, keeps a reclaim, and leaves address and role alone. */
  lemma DrainEnters(row: Instance, deadline: Time, release: bool, now: Time)
    requires StoreWrite(row, Plain(DrainingRow(row, deadline, release)), now).1
    ensures var after := StoreWrite(row, Plain(DrainingRow(row, deadline, release)), now).0;
      && after.serviceState == Draining && after.instanceState == row.instanceState && after.lastError == ""
      && (after.pendingRelease <==> row.pendingRelease || release)
      && after.endpoint == row.endpoint && after.serviceEndpoint == row.serviceEndpoint && after.leaseID == row.leaseID
      && after.routerWorkerID == row.routerWorkerID && after.role == row.role && after.startAttempts == row.startAttempts
  {
    var t := Plain(DrainingRow(row, deadline, release));
    assert Decide(row, t, now).Write?;
    assert Decide(row, t, now).row == Stored(row, WithQueuedUpdate(row, WithReclaim(row, t), t), now);
  }

  // ------------------------------------------------------------- how it ends

  /** A drain that ends leaves no service, no role and a fresh budget; a queued identity is put in force
      unless the container is being reclaimed, whose mark and deadline stay. */
  lemma DrainEndsWith(row: Instance, later: Time)
    requires row.serviceState == Draining && Dated(row)
    requires StoreWrite(row, DrainedTransition(row, later), later).1
    ensures var after := StoreWrite(row, DrainedTransition(row, later), later).0;
      && after.serviceState == NoService && after.role == NoRole && after.roleAssignedAt == ZERO_TIME
      && after.startAttempts == 0 && after.startRearms == 0 && after.startParkedAt == ZERO_TIME
      && after.pendingUpdate.None?
      && (if row.pendingRelease && row.instanceState != Released
          then after.pendingRelease && after.drainDeadlineAt == row.drainDeadlineAt && after.leaseID == row.leaseID
          else !after.pendingRelease && after.drainDeadlineAt == ZERO_TIME)
      && (row.pendingUpdate.Some? && !row.pendingRelease ==>
            && after.instanceState == Preparing && after.routerWorkerID == ""
            && after.endpoint == row.pendingUpdate.value.endpoint && after.leaseID == row.pendingUpdate.value.leaseID)
      && (row.pendingUpdate.None? || row.pendingRelease ==>
            after.instanceState == row.instanceState && after.routerWorkerID == row.routerWorkerID)
  {
    var t := DrainedTransition(row, later);
    assert Decide(row, t, later).Write?;
    assert Decide(row, t, later).row == Stored(row, WithQueuedUpdate(row, WithReclaim(row, t), t), later);
  }

  /** Closing admission succeeds exactly when every Router call it needs is answered: the close by the id on
      record, or the lookup and, if that finds a worker, the close. */
  lemma ClosingSucceedsExactlyWhen(row: Instance, members: Members, find: Reach, call: Reach)
    ensures CloseAdmission(row, members, find, call).ok
       <==> if row.routerWorkerID != "" then call == Answered
            else find == Answered && (WorkerID(ServiceURL(row)) in members ==> call == Answered)
  {
  }
}
