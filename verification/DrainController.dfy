/** beginDrain and finishDrain of internal/controller/lifecycle.go as they run under the instance lock,
    against the stored row and the Router. */
module DrainController {
  import opened Domain
  import opened DurableStore
  import opened Lifecycle
  import opened DrainProtocol

  /** What the bootstrap answered a stop call. */
  datatype StopReply = StopConfirmed | StopUnconfirmed(cause: string)

  datatype Ending = Waits | StillDraining | Ended

  /** How finishing a drain ends, and whether its deadline was what ended the wait. */
  function EndingOf(row: Instance, unlisted: bool, load: Option<int>, stop: StopReply, now: Time): (Ending, bool) {
    var gone := unlisted && row.instanceState != Lost;
    var busy := load.None? || load.value > 0;
    var timedOut := row.drainDeadlineAt != ZERO_TIME && row.drainDeadlineAt <= now;
    if !gone && busy && !timedOut then (Waits, false)
    else (if !gone && row.instanceState != Lost && stop.StopUnconfirmed? then StillDraining else Ended, !gone && busy)
  }

  /** Reading the row, closing admission and writing DRAINING, one after the other. */
  function DrainSteps(w: World, grace: int, release: bool, find: Reach, call: Reach, now: Time, later: Time): World {
    After(After(After(w, DrainProtocol.BeginDrain(grace, release, now)), Close(find, call)), WriteDraining(later))
  }

  lemma DrainStepsWritten(w: World, grace: int, release: bool, find: Reach, call: Reach, now: Time, later: Time)
    requires w.thread.Free? && HasService(w.row) && w.row.serviceState != Draining && now != ZERO_TIME
    ensures var c := CloseAdmission(w.row, w.members, find, call);
      DrainSteps(w, grace, release, find, call, now, later)
      == w.(members := c.members,
            row := if c.ok
                   then StoreWrite(w.row, Plain(DrainingRow(c.row, DrainDeadline(w.row, grace, now), release)), later).0
                   else w.row)
  {
    var read := After(w, DrainProtocol.BeginDrain(grace, release, now));
    assert read == w.(thread := DrainRead(w.row, DrainDeadline(w.row, grace, now), release));
    var c := CloseAdmission(w.row, w.members, find, call);
    assert After(read, Close(find, call)) == w.(members := c.members,
      thread := if c.ok then DrainClosed(c.row, DrainDeadline(w.row, grace, now), release) else Free);
  }

  class InstanceController {
    var row: Instance
    var members: Members

    ghost function View(): World
      reads this
    {
      World(row, members, Free, None)
    }

    constructor (row: Instance, members: Members)
      ensures View() == World(row, members, Free, None)
    {
      this.row, this.members := row, members;
    }

    method Transit(t: Transition, now: Time) returns (ok: bool)
      modifies this`row
      ensures (row, ok) == StoreWrite(old(row), t, now)
    {
      var d := DecideUpdate(row, t, now);
      match d {
        case Write(stored) =>
          row := stored;
          ok := true;
        case Keep => ok := true;
        case Refuse(_) => ok := false;
      }
    }

    method SetReadinessFalse(id: string, reach: Reach) returns (ok: bool)
      modifies this`members
      ensures (members, ok) == SetClosed(old(members), id, reach)
    {
      if reach.NotExecuted? {
        return false;
      }
      if id in members {
        members := members[id := false];
      }
      return reach.Answered?;
    }

    method CloseAdmissionFirst(asRead: Instance, find: Reach, call: Reach) returns (instance: Instance, ok: bool)
      modifies this`members
      ensures Closing(instance, members, ok) == CloseAdmission(asRead, old(members), find, call)
    {
      instance := asRead;
      if instance.routerWorkerID != "" {
        ok := SetReadinessFalse(instance.routerWorkerID, call);
        return;
      }
      if !find.Answered? {
        return instance, false;
      }
      var id := WorkerID(ServiceURL(instance));
      if id !in members {
        return instance, true;
      }
      instance := instance.(routerWorkerID := id);
      ok := SetReadinessFalse(id, call);
    }

    /** The drain closes admission first and enters DRAINING only if that succeeded: the three steps of
        the protocol, with nobody in between. */
    method BeginDrain(grace: int, release: bool, find: Reach, call: Reach, now: Time, later: Time) returns (ok: bool)
      requires now != ZERO_TIME
      modifies this
      ensures HasService(old(row)) && old(row).serviceState != Draining ==>
        View() == DrainSteps(old(View()), grace, release, find, call, now, later)
      ensures !HasService(old(row)) ==> unchanged(this)
      ensures old(row).serviceState == Draining ==>
        && members == old(members)
        && row == (if release && !old(row).pendingRelease
                   then StoreWrite(old(row), Plain(old(row).(pendingRelease := true)), later).0 else old(row))
    {
      if row.serviceState == Draining {
        if release && !row.pendingRelease {
          ok := Transit(Plain(row.(pendingRelease := true)), later);
          return;
        }
        return true;
      }
      if !HasService(row) {
        return true;
      }
      var deadline := now + if grace < 0 then 0 else grace;
      if row.pendingRelease && row.drainDeadlineAt != ZERO_TIME {
        deadline := row.drainDeadlineAt;
      }
      assert deadline == DrainDeadline(row, grace, now);
      DrainStepsWritten(View(), grace, release, find, call, now, later);
      var instance, closed := CloseAdmissionFirst(row, find, call);
      if !closed {
        return false;
      }
      ok := Transit(Plain(DrainingRow(instance, deadline, release)), later);
    }

    /** A drain ends only when the container is gone, or its load is known to be zero, or its deadline has
        passed; and then only if the stop is confirmed, or there is nothing to stop. */
    method FinishDrain(unlisted: bool, load: Option<int>, stop: StopReply, now: Time, later: Time)
      returns (ending: Ending, force: bool)
      requires row.serviceState == Draining
      modifies this`row
      ensures (ending, force) == EndingOf(old(row), unlisted, load, stop, now)
      ensures var gone := unlisted && old(row).instanceState != Lost;
        var busy := load.None? || load.value > 0;
        var timedOut := old(row).drainDeadlineAt != ZERO_TIME && old(row).drainDeadlineAt <= now;
        && (ending == Waits <==> !gone && busy && !timedOut)
        && (force <==> !gone && busy && timedOut)
        && (ending == StillDraining <==> !gone && (busy ==> timedOut) && old(row).instanceState != Lost && stop.StopUnconfirmed?)
      ensures row == match ending
        case Waits => old(row)
        case StillDraining => StoreWrite(old(row), Plain(StillDrainingRow(old(row), stop.cause)), later).0
        case Ended => StoreWrite(old(row), DrainedTransition(old(row), later), later).0
    {
      force := false;
      var gone := unlisted && row.instanceState != Lost;
      var known, value := load.Some?, if load.Some? then load.value else 0;
      var timedOut := row.drainDeadlineAt != ZERO_TIME && !(now < row.drainDeadlineAt);
      if !gone && (!known || value > 0) && !timedOut {
        return Waits, false;
      }
      if !gone && timedOut && (!known || value > 0) {
        force := true;
      }
      if !gone && row.instanceState != Lost && stop.StopUnconfirmed? {
        var stored := Transit(Plain(StillDrainingRow(row, stop.cause)), later);
        return StillDraining, force;
      }
      var stored := Transit(DrainedTransition(row, later), later);
      return Ended, force;
    }
  }

  /** What a drain promises the Router: entering DRAINING leaves the service URL closed or absent exactly
      when the row recorded no id, or its own worker's id, or nothing was open. */
  lemma EntersDrainingClosedExactlyWhen(w: World, grace: int, release: bool, find: Reach, call: Reach, now: Time, later: Time)
    requires w.thread.Free? && HasService(w.row) && w.row.serviceState != Draining && now != ZERO_TIME
    requires DrainSteps(w, grace, release, find, call, now, later).row.serviceState == Draining
    ensures var after := DrainSteps(w, grace, release, find, call, now, later);
      !Admits(after.members, ServiceURL(after.row))
      <==> w.row.routerWorkerID == "" || w.row.routerWorkerID == WorkerID(ServiceURL(w.row)) || !Admits(w.members, ServiceURL(w.row))
  {
    DrainStepsWritten(w, grace, release, find, call, now, later);
    ClosedExactlyWhen(w.row, w.members, find, call);
    var c := CloseAdmission(w.row, w.members, find, call);
    var next := DrainingRow(c.row, DrainDeadline(w.row, grace, now), release);
    SameURL(next, w.row);
    if Decide(w.row, Plain(next), later).Write? {
      OrdinaryWrite(w.row, Plain(next), later);
      SameURL(Decide(w.row, Plain(next), later).row, next);
    }
  }
}
