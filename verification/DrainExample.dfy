/** The run in which a drain misses the worker it drains: an address changed while the container was
    being prepared, and the recorded worker id still names the old one. */
module DrainExample {
  import opened Domain
  import opened Lifecycle
  import opened DrainProtocol
  import opened DrainController

  lemma RunSnoc(w: World, steps: seq<Step>, step: Step)
    ensures Run(w, steps + [step]) == After(Run(w, steps), step)
  {
    assert (steps + [step])[..|steps|] == steps;
  }

  lemma BlankService(row: Instance)
    requires row.serviceEndpoint == ""
    ensures ServiceURL(row) == row.endpoint
  {
    assert TrimSpace("") == "";
  }

  /** A container that served at "a", was drained, lost and found again. */
  const RECOVERED := Instance(
    "n", "p", "a", "", "l", "", None, Preparing, NoService, NoRole, 0, WorkerID("a"), 1, 0, 0, 0, 0, 0, false, 1, "", 1, 1, 1)

  const BEFORE := World(RECOVERED, map[WorkerID("a") := false], Free, None)

  /** The row as it is while its stale id matters. */
  predicate Stale(row: Instance) {
    && row.endpoint == "b" && row.serviceEndpoint == "" && row.routerWorkerID == WorkerID("a")
    && row.partnerID == "p" && row.pendingUpdate.None? && !row.pendingRelease
  }

  /** The run so far led to this world. */
  ghost predicate Reached(steps: seq<Step>, w: World) { Run(BEFORE, steps) == w }

  lemma Take(steps: seq<Step>, w: World, step: Step)
    requires Reached(steps, w)
    ensures Reached(steps + [step], After(w, step))
  {
    RunSnoc(BEFORE, steps, step);
  }

  lemma UpdateKeepsID() returns (steps: seq<Step>, w: World)
    ensures Reached(steps, w) && Stale(w.row) && w.thread == Free
    ensures w.row.instanceState == Preparing && w.row.serviceState == NoService && w.row.role == NoRole
  {
    steps, w := [UpdateIdentity("b", "", "l", 2, 2)], After(BEFORE, UpdateIdentity("b", "", "l", 2, 2));
    Take([], BEFORE, steps[0]);
    assert [] + [steps[0]] == steps;
    Accepted(RECOVERED, UpdatedRow(RECOVERED, "b", "", "l", 2), 2);
  }

  /** Preparation ends. */
  lemma Prepares(before: seq<Step>, w: World) returns (steps: seq<Step>, after: World)
    requires Reached(before, w) && Stale(w.row) && w.thread.Free?
    requires w.row.instanceState == Preparing && w.row.serviceState == NoService && w.row.role == NoRole
    ensures Reached(steps, after) && Stale(after.row) && after.thread == Free
    ensures after.row.instanceState == Idle && after.row.serviceState == NoService
  {
    var next := w.row.(instanceState := Idle);
    Take(before, w, Hold);
    var held := After(w, Hold);
    Take(before + [Hold], held, WriteKept(next, 3));
    steps, after := before + [Hold] + [WriteKept(next, 3)], After(held, WriteKept(next, 3));
    Accepted(w.row, next, 3);
  }

  predicate Started(w: World, state: ServiceState) {
    && Stale(w.row) && w.row.instanceState == Idle && w.row.serviceState == state && w.row.role == Prefill
    && w.thread.Opening? && Stale(w.thread.local) && w.thread.local.instanceState == Idle
    && w.thread.local.serviceState == state && w.thread.local.role == Prefill
  }

  /** A start begins: the row is STARTING and the start holds a copy of it. */
  lemma Starts(before: seq<Step>, w: World) returns (steps: seq<Step>, after: World)
    requires Reached(before, w) && Stale(w.row) && w.row.instanceState == Idle && w.row.serviceState == NoService && w.thread.Free?
    ensures Reached(steps, after) && Started(after, Starting)
  {
    Take(before, w, BeginStart(Prefill, 4));
    steps, after := before + [BeginStart(Prefill, 4)], After(w, BeginStart(Prefill, 4));
    Accepted(w.row, StartingRow(w.row, Prefill, 4), 4);
  }

  lemma Advances(before: seq<Step>, w: World, state: ServiceState) returns (steps: seq<Step>, after: World)
    requires Reached(before, w) && Started(w, w.row.serviceState)
    requires (w.row.serviceState == Starting && state == Healthy) || (w.row.serviceState == Healthy && state == Registering)
    ensures Reached(steps, after) && Started(after, state)
  {
    Take(before, w, Advance(state, 5));
    steps, after := before + [Advance(state, 5)], After(w, Advance(state, 5));
    Accepted(w.row, w.thread.local.(serviceState := state), 5);
  }

  /** The worker registers, is opened, and the controller dies before it records the new worker id. */
  lemma OpensAndDies(before: seq<Step>, w: World) returns (steps: seq<Step>, after: World)
    requires Reached(before, w) && Started(w, Registering)
    ensures Reached(steps, after) && after.row == w.row && after.thread == Free && Admits(after.members, "b")
  {
    BlankService(w.thread.local);
    var registered := After(w, Register(true));
    Take(before, w, Register(true));
    Take(before + [Register(true)], registered, Release);
    steps, after := before + [Register(true)] + [Release], After(registered, Release);
  }

  /** The next drain closes the worker it has on record, which is the one at the old address. */
  lemma Drains(w: World)
    requires Stale(w.row) && w.row.instanceState == Idle && w.row.serviceState == Registering && w.row.role == Prefill
    requires w.thread.Free? && Admits(w.members, "b")
    ensures var after := DrainSteps(w, 0, false, Answered, Answered, 6, 6);
      after.row.serviceState == Draining && Admits(after.members, ServiceURL(after.row))
  {
    if WorkerID("a") == WorkerID("b") {
      WorkerIDInjective("a", "b");
      assert false;
    }
    BlankService(w.row);
    DrainStepsWritten(w, 0, false, Answered, Answered, 6, 6);
    Accepted(w.row, DrainingRow(w.row, 6, false), 6);
    EntersDrainingClosedExactlyWhen(w, 0, false, Answered, Answered, 6, 6);
  }

  lemma TakeDrain(before: seq<Step>, w: World) returns (steps: seq<Step>)
    requires Reached(before, w)
    ensures Reached(steps, DrainSteps(w, 0, false, Answered, Answered, 6, 6))
  {
    var read := After(w, BeginDrain(0, false, 6));
    Take(before, w, BeginDrain(0, false, 6));
    steps := before + [BeginDrain(0, false, 6)];
    Take(steps, read, Close(Answered, Answered));
    steps := steps + [Close(Answered, Answered)];
    Take(steps, After(read, Close(Answered, Answered)), WriteDraining(6));
    steps := steps + [WriteDraining(6)];
  }

  lemma BeforeIsSound()
    ensures Sound(BEFORE)
  {
    BlankService(RECOVERED);
  }

  /** Without the condition on identity updates the claim is false: from a sound state, one update during
      preparation, a start and a crash lead to a draining instance that the Router still sends requests to. */
  lemma StaleIDMissesTheWorker() returns (steps: seq<Step>)
    ensures Sound(BEFORE)
    ensures Run(BEFORE, steps).row.serviceState == Draining
    ensures Admits(Run(BEFORE, steps).members, ServiceURL(Run(BEFORE, steps).row))
  {
    BeforeIsSound();
    var w: World;
    steps, w := UpdateKeepsID();
    steps, w := Prepares(steps, w);
    steps, w := Starts(steps, w);
    steps, w := Advances(steps, w, Healthy);
    steps, w := Advances(steps, w, Registering);
    steps, w := OpensAndDies(steps, w);
    Drains(w);
    steps := TakeDrain(steps, w);
  }
}
