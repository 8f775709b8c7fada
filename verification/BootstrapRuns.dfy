/** Every interleaving of one start, one stop, status reads and dying children over the sections of
    Bootstrap.  The start lock admits one start at a time, the stop lock one stop; a section is one
    step, so a step is what the state lock makes atomic. */
module BootstrapRuns {
  import opened Domain
  import opened Bootstrap

  // ----------------------------------------------------------------- threads

  /** Where the start that holds the start lock is; `token` is the generation it took. */
  datatype Start =
    | NoStart
    | Entered(token: nat, prepare: bool)
    | Preparing(token: nat)
    | Broken(token: nat, message: string, code: int)
    | Ready(token: nat)
    | Grace(token: nat, child: Child)

  /** Where the stop that holds the stop lock is. */
  datatype Stop =
    | NoStop
    | Announced(force: bool)
    | Waiting(target: Child, force: bool)
    | Overdue(target: Child, force: bool)
    | Gone(target: Child, force: bool, timedOut: bool)
    | StillThere(target: Child)
    | Leaving

  /** `leaders` are the children whose own process runs, `groups` those with any process of their group
      alive; a child is alive when it is in either.  `spawned` are all children ever spawned. */
  datatype System = System(
    svc: Service, leaders: set<Child>, groups: set<Child>, spawned: set<Child>, start: Start, stop: Stop)
  {
    function Alive(): set<Child> { leaders + groups }

    /** What polling the child in `process` answers; `code` is the exit code if it has exited. */
    function Polled(code: int): Option<int> {
      if svc.process.Some? && svc.process.value in leaders then None else Some(code)
    }

    function PolledChild(child: Child, code: int): Option<int> { if child in leaders then None else Some(code) }

    predicate ProcessAlive() { svc.process.Some? && svc.process.value in Alive() }
  }

  const INITIAL := System(FRESH, {}, {}, {}, NoStart, NoStop)

  // ------------------------------------------------------------------- steps

  /** `doubt` marks a liveness check that could not read the process table and so answers "alive". */
  datatype Step =
    | Status(code: int)
    | LeaderDies(child: Child)
    | GroupDies(child: Child)
    | EnterStart(code: int, doubt: bool, prepare: bool)
    | NotePreparing
    | Prepared
    | PreparationFails(message: string, code: int)
    | StartFailure
    | Spawn(handle: Option<Child>)
    | CheckGrace(code: int)
    | EnterStop(force: bool)
    | ReadStop(doubt: bool)
    | SeeGone
    | DeadlinePasses
    | SeeGoneAfterKill
    | SeeStillThere
    | RefuseStop
    | CompleteStop(code: int)
    | LeaveStop

  /** The step belongs to the start in flight. */
  predicate OfStart(step: Step) {
    step.NotePreparing? || step.Prepared? || step.PreparationFails? || step.StartFailure? || step.Spawn? || step.CheckGrace?
  }

  function StartStep(sys: System, step: Step): System {
    var svc, start := sys.svc, sys.start;
    match step
    case EnterStart(code, doubt, prepare) =>
      if !start.NoStart? then sys
      else
        var alive := sys.ProcessAlive() || doubt;
        var refused := Busy(Refreshed(svc, sys.Polled(code)), alive);
        var after := StartEntered(svc, sys.Polled(code), alive, prepare);
        sys.(svc := after, start := if refused then NoStart else Entered(after.generation, prepare))
    case NotePreparing =>
      if start.Entered? && start.prepare
      then sys.(svc := PrepareNoted(svc, start.token),
                start := if start.token == svc.generation then Start.Preparing(start.token) else NoStart)
      else sys
    case Prepared =>
      if start.Preparing? || (start.Entered? && !start.prepare) then sys.(start := Ready(start.token)) else sys
    case PreparationFails(message, code) =>
      if (start.Preparing? || (start.Entered? && !start.prepare)) && code in {EXIT_BAD_REQUEST, EXIT_ENV_INSTALL_FAILED}
      then sys.(start := Broken(start.token, message, code)) else sys
    case StartFailure =>
      if start.Broken? then sys.(svc := StartFailed(svc, start.token, start.message, start.code), start := NoStart) else sys
    case Spawn(child) =>
      if !start.Ready? || (child.Some? && child.value in sys.spawned) then sys
      else if start.token == svc.generation && child.Some? then
        sys.(svc := Spawned(svc, start.token, child), leaders := sys.leaders + {child.value},
             groups := sys.groups + {child.value}, spawned := sys.spawned + {child.value},
             start := Grace(start.token, child.value))
      else sys.(svc := Spawned(svc, start.token, child), start := NoStart)
    case CheckGrace(code) =>
      if start.Grace? then sys.(svc := GraceChecked(svc, start.token, sys.PolledChild(start.child, code)), start := NoStart) else sys
    case _ => sys
  }

  function StopStep(sys: System, step: Step): System {
    var svc, stop := sys.svc, sys.stop;
    match step
    case EnterStop(force) => if stop.NoStop? then sys.(svc := StopEntered(svc), stop := Announced(force)) else sys
    case ReadStop(doubt) =>
      if !stop.Announced? then sys
      else
        var alive := sys.ProcessAlive() || doubt;
        sys.(svc := StopRead(svc, alive),
             stop := if svc.process.None? || !alive then Leaving else Waiting(svc.process.value, stop.force))
    case SeeGone =>
      if stop.Waiting? && stop.target !in sys.Alive() then sys.(stop := Gone(stop.target, stop.force, false)) else sys
    case DeadlinePasses => if stop.Waiting? then sys.(stop := Overdue(stop.target, stop.force)) else sys
    case SeeGoneAfterKill =>
      if stop.Overdue? && stop.target !in sys.Alive() then sys.(stop := Gone(stop.target, stop.force, true)) else sys
    case SeeStillThere => if stop.Overdue? then sys.(stop := StillThere(stop.target)) else sys
    case RefuseStop => if stop.StillThere? then sys.(svc := StopRefused(svc), stop := Leaving) else sys
    case CompleteStop(code) =>
      if stop.Gone?
      then
        var reported := StopExitCode(sys.PolledChild(stop.target, code), stop.force, stop.timedOut);
        sys.(svc := StopCompleted(svc, reported), stop := Leaving)
      else sys
    case LeaveStop => if stop.Leaving? then sys.(svc := StopLeft(svc), stop := NoStop) else sys
    case _ => sys
  }

  function After(sys: System, step: Step): System {
    match step
    case Status(code) => sys.(svc := Refreshed(sys.svc, sys.Polled(code)))
    case LeaderDies(child) => sys.(leaders := sys.leaders - {child})
    case GroupDies(child) => if child in sys.leaders then sys else sys.(groups := sys.groups - {child})
    case _ => if step.EnterStart? || OfStart(step) then StartStep(sys, step) else StopStep(sys, step)
  }

  function Run(steps: seq<Step>): System {
    if steps == [] then INITIAL else After(Run(steps[..|steps| - 1]), steps[|steps| - 1])
  }

  function At(steps: seq<Step>, k: nat): System
    requires k <= |steps|
  {
    Run(steps[..k])
  }

  lemma AtNext(steps: seq<Step>, k: nat)
    requires k < |steps|
    ensures At(steps, k + 1) == After(At(steps, k), steps[k])
  {
    assert steps[..k + 1][..k] == steps[..k];
  }

  // --------------------------------------------------------------- invariant

  /** Children that could be forgotten are not alive. */
  predicate NoOrphan(sys: System) {
    forall c | c in sys.Alive() :: sys.svc.process == Some(c)
  }

  predicate Processes(sys: System) {
    && NoOrphan(sys) && sys.Alive() <= sys.spawned
    && (sys.svc.process.Some? ==> sys.svc.process.value in sys.spawned)
    && sys.svc.startedCount == |sys.spawned|
  }

  /** The start in flight still has the generation it took. */
  predicate Current(sys: System) { !sys.start.NoStart? && sys.start.token == sys.svc.generation }

  predicate StartSound(sys: System) {
    var svc := sys.svc;
    && (!sys.start.NoStart? ==> sys.start.token <= svc.generation)
    && (Current(sys) ==>
          && !svc.stopping
          && (if sys.start.Grace? then svc.process == Some(sys.start.child) && svc.phase in {PhaseRunning, PhaseFailed}
                                           && (svc.phase == PhaseFailed ==> sys.start.child !in sys.leaders)
              else sys.Alive() == {} && svc.phase in {PhaseInstalling, PhaseStarting}))
  }

  predicate StopSound(sys: System) {
    var svc, stop := sys.svc, sys.stop;
    && (svc.stopping <==> !stop.NoStop?)
    && ((stop.Waiting? || stop.Overdue? || stop.Gone? || stop.StillThere?) ==>
          svc.process == Some(stop.target) && svc.phase == PhaseStopping)
    && (stop.Gone? ==> stop.target !in sys.Alive())
    && (stop.Leaving? ==> svc.phase in {PhaseStopped, PhaseFailed})
  }

  predicate PhaseSound(sys: System) {
    var svc := sys.svc;
    && (svc.phase in {PhaseIdle, PhaseStopped} ==> svc.process.None?)
    && (svc.phase == PhaseRunning ==> svc.process.Some?)
    && (svc.phase == PhaseStopping ==> sys.stop.Waiting? || sys.stop.Overdue? || sys.stop.Gone? || sys.stop.StillThere?)
    && (svc.phase in {PhaseInstalling, PhaseStarting} ==> Current(sys) || sys.stop.Announced?)
  }

  predicate Sound(sys: System) {
    Processes(sys) && StartSound(sys) && StopSound(sys) && PhaseSound(sys)
  }

  lemma SpawnKeepsSound(sys: System, handle: Option<Child>)
    requires Sound(sys)
    ensures Sound(StartStep(sys, Spawn(handle)))
  {
    var after := StartStep(sys, Spawn(handle));
    if after.spawned != sys.spawned {
      assert after.Alive() == {handle.value};
    }
  }

  lemma EnterStartKeepsSound(sys: System, code: int, doubt: bool, prepare: bool)
    requires Sound(sys)
    ensures Sound(StartStep(sys, EnterStart(code, doubt, prepare)))
  {
  }

  lemma StartStepKeepsSound(sys: System, step: Step)
    requires Sound(sys) && (step.EnterStart? || OfStart(step))
    ensures Sound(StartStep(sys, step))
  {
    match step
    case Spawn(handle) => SpawnKeepsSound(sys, handle);
    case EnterStart(code, doubt, prepare) => EnterStartKeepsSound(sys, code, doubt, prepare);
    case _ =>
  }

  lemma StopStepKeepsSound(sys: System, step: Step)
    requires Sound(sys) && !step.EnterStart? && !OfStart(step)
    ensures Sound(StopStep(sys, step))
  {
  }

  lemma StepKeepsSound(sys: System, step: Step)
    requires Sound(sys)
    ensures Sound(After(sys, step))
  {
    if step.EnterStart? || OfStart(step) {
      StartStepKeepsSound(sys, step);
    } else {
      StopStepKeepsSound(sys, step);
    }
  }

  /** No orphan, over every interleaving: each child alive is the one in `process`, so at most one is
      alive; a STOPPED service has none alive; and every child ever spawned was counted as a start. */
  lemma {:induction false} NoChildIsOrphaned(steps: seq<Step>)
    ensures Sound(Run(steps))
    ensures var sys := Run(steps);
      && (forall c, d | c in sys.Alive() && d in sys.Alive() :: c == d)
      && (sys.svc.phase == PhaseStopped ==> sys.Alive() == {})
      && sys.svc.startedCount == |sys.spawned|
  {
    if steps != [] {
      NoChildIsOrphaned(steps[..|steps| - 1]);
      StepKeepsSound(Run(steps[..|steps| - 1]), steps[|steps| - 1]);
    }
  }

  // -------------------------------------------- a start issued before a stop

  lemma GenerationGrows(sys: System, step: Step)
    ensures sys.svc.generation <= After(sys, step).svc.generation
  {
  }

  lemma {:induction false} GenerationGrowsOverRun(steps: seq<Step>, i: nat, j: nat)
    requires i <= j <= |steps|
    ensures At(steps, i).svc.generation <= At(steps, j).svc.generation
    decreases j
  {
    if i < j {
      GenerationGrowsOverRun(steps, i, j - 1);
      AtNext(steps, j - 1);
      GenerationGrows(At(steps, j - 1), steps[j - 1]);
    }
  }

  /** The step spawns nothing and leaves everything the service records as it was. */
  predicate NoEffect(sys: System, step: Step) {
    var after := After(sys, step);
    after.svc == sys.svc && after.spawned == sys.spawned && after.leaders == sys.leaders && after.groups == sys.groups
  }

  /** A start issued before a stop never takes effect after it: from the moment the stop has entered,
      wherever the start was - entered, preparing, failed to prepare, about to spawn, in the grace
      wait - none of its steps spawns a child or changes anything the service records. */
  lemma StopCancelsEarlierStart(steps: seq<Step>, i: nat, k: nat)
    requires i < k < |steps| && steps[i].EnterStop? && At(steps, i).stop.NoStop?
    requires !At(steps, i).start.NoStart? && !At(steps, k).start.NoStart?
    requires At(steps, i).start.token == At(steps, k).start.token
    requires OfStart(steps[k])
    ensures NoEffect(At(steps, k), steps[k])
  {
    NoChildIsOrphaned(steps[..i]);
    AtNext(steps, i);
    GenerationGrowsOverRun(steps, i + 1, k);
  }

  lemma StaysCurrent(sys: System, step: Step)
    requires Current(sys) && !step.EnterStop? && !After(sys, step).start.NoStart?
    ensures Current(After(sys, step)) && After(sys, step).start.token == sys.start.token
  {
  }

  /** Conversely, a start that no stop has overtaken keeps its generation as long as it runs. */
  lemma {:induction false} CurrentUntilStopped(steps: seq<Step>, i: nat, k: nat)
    requires i <= k <= |steps| && Current(At(steps, i))
    requires forall j | i <= j < k :: !steps[j].EnterStop?
    requires forall j | i <= j <= k :: !At(steps, j).start.NoStart?
    ensures Current(At(steps, k)) && At(steps, k).start.token == At(steps, i).start.token
    decreases k
  {
    if i < k {
      CurrentUntilStopped(steps, i, k - 1);
      AtNext(steps, k - 1);
      StaysCurrent(At(steps, k - 1), steps[k - 1]);
    }
  }

  /** The answer of the start in flight, if it were to finish its grace wait now. */
  predicate Accepts(sys: System, code: int) {
    sys.start.Grace? && Current(sys) && sys.PolledChild(sys.start.child, code).None?
  }

  /** A start is answered "accepted" exactly when no stop entered since and its own child is running;
      the service then is RUNNING, holds that child, and no other child is alive. */
  lemma AcceptedStartRuns(steps: seq<Step>, code: int)
    requires Run(steps).start.Grace?
    ensures var sys := Run(steps);
      var child := sys.start.child;
      Accepts(sys, code) <==> Current(sys) && sys.svc.phase == PhaseRunning && child in sys.leaders
                              && sys.svc.process == Some(child) && sys.Alive() == {child}
  {
    NoChildIsOrphaned(steps);
  }

  // -------------------------------------------------------------- at rest

  /** No start and no stop is in flight. */
  predicate AtRest(sys: System) { sys.start.NoStart? && sys.stop.NoStop? }

  /** At rest the service is idle, running, stopped or failed, and a start is accepted exactly when no
      child is alive, provided liveness can be read: it is never stuck and never starts a second one. */
  lemma AtRestStartsExactlyWhenNoneAlive(steps: seq<Step>, code: int, prepare: bool)
    requires AtRest(Run(steps))
    ensures Run(steps).svc.phase in {PhaseIdle, PhaseRunning, PhaseStopped, PhaseFailed}
    ensures After(Run(steps), EnterStart(code, false, prepare)).start.Entered? <==> Run(steps).Alive() == {}
  {
    NoChildIsOrphaned(steps);
    var sys := Run(steps);
    if sys.svc.process.Some? && sys.svc.process.value !in sys.Alive() {
      assert sys.Alive() == {};
    }
  }

  /** A stop that finished found its child gone and left the service STOPPED with none alive; one that
      gave up left it FAILED and still holding the child, so that no start can abandon it. */
  lemma StopEndsInOneOfTwoWays(steps: seq<Step>)
    requires Run(steps).stop.Leaving?
    ensures var sys := Run(steps);
      || (sys.svc.phase == PhaseStopped && sys.Alive() == {})
      || (sys.svc.phase == PhaseFailed && sys.svc.stopping
          && forall c | c in sys.Alive() :: sys.svc.process == Some(c))
  {
    NoChildIsOrphaned(steps);
  }
}
