/** SGLangService of bootstrap/tai_talea_bootstrap/service.py: the sections that run under its state
    lock.  What the operating system says about a child - its exit code, whether anything of its
    process group is alive - is a parameter of each section. */
module Bootstrap {
  import opened Domain

  datatype Phase = PhaseIdle | PhaseInstalling | PhaseStarting | PhaseRunning | PhaseStopping | PhaseStopped | PhaseFailed

  /** A child process, as the handle the service holds for it. */
  type Child = nat

  const EXIT_OK := 0
  const EXIT_BAD_REQUEST := 64
  const EXIT_ENV_INSTALL_FAILED := 66
  const EXIT_START_FAILED := 67
  const EXIT_SERVICE_CRASHED := 68
  const EXIT_STOP_TIMEOUT := 69

  const SIGTERM := 15
  const SIGKILL := 9

  datatype Service = Service(
    generation: nat, stopping: bool, process: Option<Child>, phase: Phase, exitCode: int,
    lastError: string, startedCount: nat, stoppedCount: nat)

  const FRESH := Service(0, false, None, PhaseIdle, 0, "", 0, 0)

  // --------------------------------------------------- the locked sections

  function FailedWith(s: Service, message: string, code: int): Service {
    s.(lastError := message, exitCode := code, phase := PhaseFailed)
  }

  /** An exit nobody asked for is noticed the next time anybody looks. */
  function Refreshed(s: Service, polled: Option<int>): Service {
    if s.phase != PhaseRunning || s.process.None? || polled.None? then s
    else FailedWith(s, "sglang exited unexpectedly", polled.value)
  }

  predicate Busy(s: Service, alive: bool) {
    || s.stopping || (s.process.Some? && alive)
    || s.phase in {PhaseRunning, PhaseStarting, PhaseInstalling, PhaseStopping}
  }

  function StartEntered(s: Service, polled: Option<int>, alive: bool, prepare: bool): Service {
    var seen := Refreshed(s, polled);
    if Busy(seen, alive) then seen
    else seen.(generation := s.generation + 1, phase := if prepare then PhaseInstalling else PhaseStarting,
               lastError := "", exitCode := 0)
  }

  function PrepareNoted(s: Service, generation: nat): Service {
    if generation != s.generation then s else s.(phase := PhaseInstalling)
  }

  function StartFailed(s: Service, generation: nat, message: string, code: int): Service {
    if generation != s.generation then s else FailedWith(s, message, code)
  }

  /** Spawning is atomic with the publication of the child. */
  function Spawned(s: Service, generation: nat, child: Option<Child>): Service {
    if generation != s.generation then s
    else if child.None? then FailedWith(s, "could not spawn sglang", EXIT_START_FAILED)
    else s.(process := child, startedCount := s.startedCount + 1, phase := PhaseRunning)
  }

  function GraceChecked(s: Service, generation: nat, polled: Option<int>): Service {
    if generation != s.generation || polled.None? then s
    else FailedWith(s, "sglang exited immediately", EXIT_SERVICE_CRASHED)
  }

  function StopEntered(s: Service): Service { s.(generation := s.generation + 1, stopping := true) }

  function StopRead(s: Service, alive: bool): Service {
    if s.process.None? || !alive then
      s.(process := None, exitCode := if s.phase != PhaseFailed then EXIT_OK else s.exitCode, phase := PhaseStopped)
    else s.(phase := PhaseStopping, stoppedCount := s.stoppedCount + 1)
  }

  function StopRefused(s: Service): Service {
    FailedWith(s, "sglang process group is still alive after forced termination", EXIT_STOP_TIMEOUT)
  }

  function StopCompleted(s: Service, code: int): Service {
    s.(process := None, exitCode := code, phase := PhaseStopped)
  }

  function StopLeft(s: Service): Service { s.(stopping := false) }

  /** The exit code a completed stop reports: a crash is not hidden by the stop that found it. */
  function StopExitCode(polled: Option<int>, force: bool, timedOut: bool): int {
    if timedOut then EXIT_STOP_TIMEOUT
    else if polled == Some(0) || polled == Some(-SIGTERM) || (force && polled == Some(-SIGKILL)) then EXIT_OK
    else EXIT_SERVICE_CRASHED
  }

  // ------------------------------------------------------------- the object

  class SGLangService {
    var generation: nat
    var stopping: bool
    var process: Option<Child>
    var phase: Phase
    var exitCode: int
    var lastError: string
    var startedCount: nat
    var stoppedCount: nat

    ghost function View(): Service
      reads this
    {
      Service(generation, stopping, process, phase, exitCode, lastError, startedCount, stoppedCount)
    }

    constructor ()
      ensures View() == FRESH
    {
      generation, stopping, process, phase := 0, false, None, PhaseIdle;
      exitCode, lastError, startedCount, stoppedCount := 0, "", 0, 0;
    }

    method Fail(message: string, code: int)
      modifies this
      ensures View() == FailedWith(old(View()), message, code)
    {
      lastError := message;
      exitCode := code;
      phase := PhaseFailed;
    }

    /** The section behind every status read, and the first thing a start does. */
    method RefreshProcess(polled: Option<int>)
      modifies this
      ensures View() == Refreshed(old(View()), polled)
    {
      if phase != PhaseRunning || process.None? {
        return;
      }
      match polled {
        case None =>
        case Some(code) => Fail("sglang exited unexpectedly", code);
      }
    }

    method EnterStart(polled: Option<int>, alive: bool, prepare: bool) returns (token: Option<nat>)
      modifies this
      ensures View() == StartEntered(old(View()), polled, alive, prepare)
      ensures token.Some? <==> !Busy(Refreshed(old(View()), polled), alive)
      ensures token.Some? ==> token.value == generation == old(generation) + 1
    {
      RefreshProcess(polled);
      if stopping || (process.Some? && alive)
        || phase == PhaseRunning || phase == PhaseStarting || phase == PhaseInstalling || phase == PhaseStopping
      {
        return None;
      }
      generation := generation + 1;
      phase := if prepare then PhaseInstalling else PhaseStarting;
      lastError := "";
      exitCode := 0;
      return Some(generation);
    }

    method NotePreparing(token: nat) returns (current: bool)
      modifies this
      ensures View() == PrepareNoted(old(View()), token) && (current <==> token == generation)
    {
      if token != generation {
        return false;
      }
      phase := PhaseInstalling;
      return true;
    }

    method StartFailure(token: nat, message: string, code: int)
      modifies this
      ensures View() == StartFailed(old(View()), token, message, code)
    {
      if token != generation {
        return;
      }
      Fail(message, code);
    }

    /** `child` is what spawning would yield; it is asked for only when the start is still current. */
    method Spawn(token: nat, child: Option<Child>) returns (running: Option<Child>)
      modifies this
      ensures View() == Spawned(old(View()), token, child)
      ensures running == if token == generation then child else None
    {
      if token != generation {
        return None;
      }
      phase := PhaseStarting;
      if child.None? {
        Fail("could not spawn sglang", EXIT_START_FAILED);
        return None;
      }
      process := child;
      startedCount := startedCount + 1;
      phase := PhaseRunning;
      return child;
    }

    method CheckGrace(token: nat, polled: Option<int>) returns (accepted: bool)
      modifies this
      ensures View() == GraceChecked(old(View()), token, polled)
      ensures accepted <==> token == generation && polled.None?
    {
      if token != generation {
        return false;
      }
      if polled.Some? {
        Fail("sglang exited immediately", EXIT_SERVICE_CRASHED);
        return false;
      }
      return true;
    }

    method EnterStop()
      modifies this
      ensures View() == StopEntered(old(View()))
    {
      generation := generation + 1;
      stopping := true;
    }

    /** The child to stop, if there is anything to stop. */
    method ReadStop(alive: bool) returns (target: Option<Child>)
      modifies this
      ensures View() == StopRead(old(View()), alive)
      ensures target == if alive then old(process) else None
    {
      if process.None? || !alive {
        process := None;
        if phase != PhaseFailed {
          exitCode := EXIT_OK;
        }
        phase := PhaseStopped;
        return None;
      }
      phase := PhaseStopping;
      stoppedCount := stoppedCount + 1;
      return process;
    }

    method RefuseStop()
      modifies this
      ensures View() == StopRefused(old(View()))
    {
      Fail("sglang process group is still alive after forced termination", EXIT_STOP_TIMEOUT);
    }

    method CompleteStop(polled: Option<int>, force: bool, timedOut: bool) returns (code: int)
      modifies this
      ensures code == StopExitCode(polled, force, timedOut)
      ensures View() == StopCompleted(old(View()), code)
    {
      var expected := [-SIGTERM];
      if force {
        expected := expected + [-SIGKILL];
      }
      if polled != Some(0) && !(polled.Some? && polled.value in expected) && !timedOut {
        code := EXIT_SERVICE_CRASHED;
      } else if timedOut {
        code := EXIT_STOP_TIMEOUT;
      } else {
        code := EXIT_OK;
      }
      process := None;
      exitCode := code;
      phase := PhaseStopped;
    }

    method LeaveStop()
      modifies this
      ensures View() == StopLeft(old(View()))
    {
      stopping := false;
    }
  }
}
