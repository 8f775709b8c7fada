/** The exit codes the service reports, over every interleaving: what the control plane is told about a
    child that was stopped, that crashed, or that was never there. */
module BootstrapExits {
  import opened Domain
  import opened Bootstrap
  import opened BootstrapRuns

  // ------------------------------------------------------------------ a stop

  /** The deadline of the stop passed while its child was still alive. */
  ghost predicate DeadlinePassed(steps: seq<Step>, from: nat, to: nat)
    requires to <= |steps|
  {
    exists j :: from < j < to && steps[j].DeadlinePasses? && At(steps, j).stop.Waiting?
  }

  lemma DeadlineLater(steps: seq<Step>, from: nat, to: nat)
    requires from < to < |steps|
    ensures DeadlinePassed(steps, from, to + 1)
       <==> DeadlinePassed(steps, from, to) || (steps[to].DeadlinePasses? && At(steps, to).stop.Waiting?)
  {
  }

  /** What the stop in flight knows: how it was asked for, and whether its deadline has passed. */
  predicate Knows(stop: Stop, force: bool, passed: bool) {
    match stop
    case NoStop => true
    case Announced(f) => f == force && !passed
    case Waiting(_, f) => f == force && !passed
    case Overdue(_, f) => f == force && passed
    case Gone(_, f, timedOut) => f == force && timedOut == passed
    case StillThere(_) => true
    case Leaving => true
  }

  lemma KnowsNext(sys: System, step: Step, force: bool, passed: bool)
    requires Knows(sys.stop, force, passed) && !sys.stop.NoStop?
    ensures Knows(After(sys, step).stop, force, passed || (step.DeadlinePasses? && sys.stop.Waiting?))
  {
  }

  lemma {:induction false} StopKnows(steps: seq<Step>, i: nat, k: nat)
    requires i < k <= |steps| && steps[i].EnterStop? && At(steps, i).stop.NoStop?
    requires forall j | i < j <= k :: !At(steps, j).stop.NoStop?
    ensures Knows(At(steps, k).stop, steps[i].force, DeadlinePassed(steps, i, k))
    decreases k
  {
    AtNext(steps, k - 1);
    if i == k - 1 {
      assert !DeadlinePassed(steps, i, k);
    } else {
      StopKnows(steps, i, k - 1);
      KnowsNext(At(steps, k - 1), steps[k - 1], steps[i].force, DeadlinePassed(steps, i, k - 1));
      DeadlineLater(steps, i, k - 1);
    }
  }

  /** A stop that saw its child go reports 69 exactly when its deadline had passed; else 0 exactly when the
      child left with 0, on SIGTERM, or on SIGKILL when force was asked for; and else 68, so that a stop does
      not hide a crash. */
  lemma StopReports(steps: seq<Step>, i: nat, k: nat)
    requires i < k < |steps| && steps[i].EnterStop? && At(steps, i).stop.NoStop?
    requires forall j | i < j <= k :: !At(steps, j).stop.NoStop?
    requires steps[k].CompleteStop? && At(steps, k).stop.Gone?
    ensures var after, code := At(steps, k + 1).svc, steps[k].code;
      && after.phase == PhaseStopped && after.process.None?
      && after.exitCode == (if DeadlinePassed(steps, i, k) then 69
                            else if code == 0 || code == -15 || (steps[i].force && code == -9) then 0 else 68)
  {
    StopKnows(steps, i, k);
    NoChildIsOrphaned(steps[..k]);
    AtNext(steps, k);
  }

  /** A stop that finds nothing to stop keeps the code of a failed service and reports 0 for any other. */
  lemma NothingToStop(steps: seq<Step>)
    requires Run(steps).stop.Announced? && Run(steps).Alive() == {}
    ensures var before, after := Run(steps).svc, After(Run(steps), ReadStop(false));
      && after.stop.Leaving? && after.svc.phase == PhaseStopped && after.svc.process.None?
      && after.svc.exitCode == (if before.phase == PhaseFailed then before.exitCode else 0)
      && after.svc.stoppedCount == before.stoppedCount
  {
  }

  /** A stop waits for a child exactly when the held one is alive, and counts itself then. */
  lemma StopWaitsExactlyWhenAlive(steps: seq<Step>)
    requires Run(steps).stop.Announced?
    ensures var sys, after := Run(steps), After(Run(steps), ReadStop(false));
      && (after.stop.Waiting? <==> sys.Alive() != {})
      && (after.stop.Waiting? ==>
            && sys.svc.process == Some(after.stop.target) && after.svc.phase == PhaseStopping
            && after.svc.stoppedCount == sys.svc.stoppedCount + 1 && after.svc.exitCode == sys.svc.exitCode)
  {
    NoChildIsOrphaned(steps);
    var sys := Run(steps);
    if sys.Alive() != {} {
      var c :| c in sys.Alive();
      assert sys.svc.process == Some(c);
    }
  }

  // --------------------------------------------------------------- a failure

  /** The service was found failed in this step, with this code. */
  predicate FailsWith(before: Service, after: Service, code: int) {
    after.phase == PhaseFailed && after.exitCode == code && after.process == before.process
  }

  /** The child the service holds as running has exited. */
  predicate RanOut(sys: System) {
    sys.svc.phase == PhaseRunning && sys.svc.process.Some? && sys.svc.process.value !in sys.leaders
  }

  /** Every failure has its code: whoever looks at a running child that has exited records the child's own;
      a spawn that fails, 67; a child gone before its grace is over, 68; a preparation that fails, the one it
      names; a child that survives being killed, 69.  A start or a preparation that was overtaken by a stop
      records nothing. */
  lemma FailuresAreReported(sys: System, code: int)
    ensures var after := After(sys, Status(code)).svc;
      if RanOut(sys) then FailsWith(sys.svc, after, code) else after == sys.svc
    ensures sys.start.Ready? ==>
      var after := After(sys, Spawn(None)).svc;
      if Current(sys) then FailsWith(sys.svc, after, 67) else after == sys.svc
    ensures sys.start.Grace? ==>
      var after := After(sys, CheckGrace(code)).svc;
      if Current(sys) && sys.start.child !in sys.leaders then FailsWith(sys.svc, after, 68) else after == sys.svc
    ensures sys.start.Broken? ==>
      var after := After(sys, StartFailure).svc;
      if Current(sys) then FailsWith(sys.svc, after, sys.start.code) && after.lastError == sys.start.message else after == sys.svc
    ensures sys.stop.StillThere? ==> FailsWith(sys.svc, After(sys, RefuseStop).svc, 69)
  {
  }

  /** A start is refused exactly while a stop is in flight, a child is alive or may be, or another start is
      under way; one that is let in clears the last error and its code. */
  lemma StartEntersExactlyWhen(sys: System, code: int, doubt: bool, prepare: bool)
    requires sys.start.NoStart?
    ensures var after := After(sys, EnterStart(code, doubt, prepare));
      && (after.start.Entered? <==>
            && !sys.svc.stopping && !sys.ProcessAlive() && !(doubt && sys.svc.process.Some?)
            && (sys.svc.phase in {PhaseIdle, PhaseStopped, PhaseFailed} || RanOut(sys)))
      && (after.start.Entered? ==>
            && after.svc.generation == sys.svc.generation + 1 && after.start.token == after.svc.generation
            && after.svc.exitCode == 0 && after.svc.lastError == ""
            && after.svc.phase == if prepare then PhaseInstalling else PhaseStarting)
      && (!after.start.Entered? ==> if RanOut(sys) then FailsWith(sys.svc, after.svc, code) else after.svc == sys.svc)
  {
  }

  /** No other section touches the exit code. */
  lemma ExitCodeStands(sys: System, step: Step)
    requires !step.Status? && !step.EnterStart? && !step.StartFailure? && !step.Spawn? && !step.CheckGrace?
             && !step.ReadStop? && !step.RefuseStop? && !step.CompleteStop?
    ensures After(sys, step).svc.exitCode == sys.svc.exitCode
  {
  }
}
