/** The start-retry budget of internal/controller/lifecycle.go and reconcile.go: attempts, re-arms after
    a cooldown, and the park in between. */
module StartBudget {
  import opened Domain
  import opened DurableStore
  import opened Lifecycle

  datatype Limits = Limits(maxAttempts: nat, maxRearms: nat, cooldown: int)

  // ------------------------------------------------------------------ guards

  /** The reconciler starts a failed service, and recovery one that was never started, only while
      attempts are left. */
  predicate MayRetry(row: Instance, limits: Limits) {
    && MayStart(row, row.role) && row.serviceState in {Failed, NoService} && row.startAttempts < limits.maxAttempts
  }

  predicate RearmDue(row: Instance, limits: Limits, now: Time) {
    && limits.cooldown > 0 && row.startRearms < limits.maxRearms
    && row.startParkedAt != ZERO_TIME && now - row.startParkedAt >= limits.cooldown
  }

  predicate MayRearm(row: Instance, limits: Limits, now: Time) {
    && row.instanceState == Idle && row.serviceState == Failed && row.startAttempts >= limits.maxAttempts
    && row.role.Valid() && !row.pendingRelease && row.pendingUpdate.None? && RearmDue(row, limits, now)
  }

  predicate MayRequeue(row: Instance, limits: Limits) {
    row.instanceState == Idle && row.serviceState == Failed && row.role.Valid() && row.startAttempts >= limits.maxAttempts
  }

  // ------------------------------------------------------------------- steps

  /** `Assign` is a start that no budget guard holds back: one the planner asks for, or a retry whose guard
      was read before another start.  `Dispatch` is a retry whose guard holds as it starts. */
  datatype Step =
    | Assign(role: Role, now: Time)
    | Dispatch(now: Time)
    | Fail(message: string, now: Time)
    | Rearm(now: Time)
    | Requeue(now: Time)
    | Serve(workerID: string, generation: int, now: Time)
    | FinishDrain(now: Time)
    | Other(t: Transition, now: Time)

  predicate SameBudget(a: Instance, b: Instance) {
    a.startAttempts == b.startAttempts && a.startRearms == b.startRearms && a.startParkedAt == b.startParkedAt
  }

  /** Anything else that is written leaves the three budget fields alone. */
  predicate KeepsBudget(row: Instance, t: Transition) {
    || t.requestRelease
    || (!t.reoffer && !t.applyPendingUpdate && SameBudget(t.next, row))
  }

  /** The transition a step asks for, if its guard holds. */
  function Asked(row: Instance, step: Step, limits: Limits): Option<Transition> {
    match step
    case Assign(role, now) => if MayStart(row, role) then Some(Plain(StartingRow(row, role, now))) else None
    case Dispatch(now) => if MayRetry(row, limits) then Some(Plain(StartingRow(row, row.role, now))) else None
    case Fail(message, now) => if HasService(row) then Some(Plain(FailedRow(row, message, limits.maxAttempts, now))) else None
    case Rearm(now) => if MayRearm(row, limits, now) then Some(Plain(RearmedRow(row))) else None
    case Requeue(now) => if MayRequeue(row, limits) then Some(Plain(RequeuedRow(row, now))) else None
    case Serve(id, generation, now) =>
      if row.serviceState == Registering then Some(Plain(ServingRow(row, id, generation, now))) else None
    case FinishDrain(now) => if row.serviceState == Draining then Some(DrainedTransition(row, now)) else None
    case Other(t, now) => if KeepsBudget(row, t) then Some(t) else None
  }

  /** The row after a step, and whether the step was taken and the store accepted it. */
  function Taken(row: Instance, step: Step, limits: Limits): (Instance, bool) {
    var t := Asked(row, step, limits);
    if t.None? then (row, false) else StoreWrite(row, t.value, step.now)
  }

  predicate Resets(step: Step) { step.Requeue? || step.Serve? || step.FinishDrain? }

  predicate Starts(step: Step) { step.Assign? || step.Dispatch? }

  function Run(row: Instance, steps: seq<Step>, limits: Limits): Instance {
    if steps == [] then row else Taken(Run(row, steps[..|steps| - 1], limits), steps[|steps| - 1], limits).0
  }

  /** The step dispatches a start. */
  predicate Costs(row: Instance, step: Step, limits: Limits) { Starts(step) && Taken(row, step, limits).1 }

  /** How many starts the run dispatches, first ones and retries alike. */
  function Dispatches(row: Instance, steps: seq<Step>, limits: Limits): nat {
    if steps == [] then 0
    else
      var front := steps[..|steps| - 1];
      Dispatches(row, front, limits) + if Costs(Run(row, front, limits), steps[|steps| - 1], limits) then 1 else 0
  }

  function ResetsOf(steps: seq<Step>): nat {
    if steps == [] then 0 else ResetsOf(steps[..|steps| - 1]) + if Resets(steps[|steps| - 1]) then 1 else 0
  }

  // -------------------------------------------------------------- accounting

  /** Starts the row may still get before somebody has to look at it; negative when it got too many. */
  function Remaining(row: Instance, limits: Limits): int {
    (limits.maxRearms - row.startRearms) * limits.maxAttempts + (limits.maxAttempts - row.startAttempts)
  }

  function Full(limits: Limits): int { limits.maxRearms * limits.maxAttempts + limits.maxAttempts }

  predicate Sound(row: Instance, limits: Limits) {
    0 <= row.startAttempts <= limits.maxAttempts && 0 <= row.startRearms <= limits.maxRearms
  }

  lemma RearmIsFree(rearms: int, limits: Limits)
    ensures (limits.maxRearms - (rearms + 1)) * limits.maxAttempts + limits.maxAttempts
         == (limits.maxRearms - rearms) * limits.maxAttempts
  {
  }

  lemma Product(a: int, b: nat, c: int)
    requires 0 <= a <= c
    ensures 0 <= a * b <= c * b
  {
  }

  lemma RemainingBounds(row: Instance, limits: Limits)
    requires Sound(row, limits)
    ensures 0 <= Remaining(row, limits) <= Full(limits)
  {
    Product(limits.maxRearms - row.startRearms, limits.maxAttempts, limits.maxRearms);
  }

  /** What the store keeps of the budget fields. */
  lemma BudgetWritten(row: Instance, t: Transition, now: Time)
    requires StoreWrite(row, t, now).1
    ensures var stored := StoreWrite(row, t, now).0;
      if t.requestRelease
      then SameBudget(stored, row) else SameBudget(stored, t.next)
  {
    if Decide(row, t, now).Write? {
      assert Decide(row, t, now).row == Stored(row, WithQueuedUpdate(row, WithReclaim(row, t), t), now);
    }
  }

  predicate Restores(row: Instance, step: Step, limits: Limits) { Resets(step) && Taken(row, step, limits).1 }

  /** Attempts beyond the maximum that a re-arm writes off. */
  function Forgiven(row: Instance, step: Step, limits: Limits): int {
    if step.Rearm? && Taken(row, step, limits).1 then row.startAttempts - limits.maxAttempts else 0
  }

  /** On any row whatever: a step costs one start exactly when it dispatches one; failures cost nothing;
      a re-arm costs nothing and writes off what was spent beyond the maximum; requeueing, success and a
      finished drain restore the full budget. */
  lemma StepAccounts(row: Instance, step: Step, limits: Limits)
    ensures Remaining(Taken(row, step, limits).0, limits)
         == if Restores(row, step, limits) then Full(limits)
            else Remaining(row, limits) - (if Costs(row, step, limits) then 1 else 0) + Forgiven(row, step, limits)
  {
    var t := Asked(row, step, limits);
    if t.Some? && StoreWrite(row, t.value, step.now).1 {
      BudgetWritten(row, t.value, step.now);
      if step.Rearm? {
        RearmIsFree(row.startRearms, limits);
      }
    }
  }

  /** An unguarded start does not look at the budget. */
  predicate Overdraws(row: Instance, step: Step, limits: Limits) {
    step.Assign? && Taken(row, step, limits).1 && row.startAttempts >= limits.maxAttempts
  }

  /** A step keeps the counters within their limits exactly unless it is such a start on a spent budget. */
  lemma KeepsSoundExactlyWhen(row: Instance, step: Step, limits: Limits)
    requires Sound(row, limits)
    ensures Sound(Taken(row, step, limits).0, limits) <==> !Overdraws(row, step, limits)
    ensures Forgiven(row, step, limits) == 0
  {
    var t := Asked(row, step, limits);
    if t.Some? && StoreWrite(row, t.value, step.now).1 {
      BudgetWritten(row, t.value, step.now);
    }
  }

  /** Written off over a run. */
  function ForgivenOver(row: Instance, steps: seq<Step>, limits: Limits): int {
    if steps == [] then 0
    else
      var front := steps[..|steps| - 1];
      ForgivenOver(row, front, limits) + Forgiven(Run(row, front, limits), steps[|steps| - 1], limits)
  }

  /** Over every run without a reset and from any row: the starts dispatched, first ones included, and the
      budget left add up to the budget there was and what re-arms wrote off. */
  lemma {:induction false} StartsAreAccounted(row: Instance, steps: seq<Step>, limits: Limits)
    requires ResetsOf(steps) == 0
    ensures Dispatches(row, steps, limits) + Remaining(Run(row, steps, limits), limits)
         == Remaining(row, limits) + ForgivenOver(row, steps, limits)
  {
    if steps != [] {
      var n := |steps| - 1;
      StartsAreAccounted(row, steps[..n], limits);
      StepAccounts(Run(row, steps[..n], limits), steps[n], limits);
    }
  }

  /** No unguarded start finds the attempts used up. */
  ghost predicate NeverOverdraws(row: Instance, steps: seq<Step>, limits: Limits) {
    forall k | 0 <= k < |steps| :: !Overdraws(Run(row, steps[..k], limits), steps[k], limits)
  }

  ghost predicate AlwaysSound(row: Instance, steps: seq<Step>, limits: Limits) {
    forall k | 0 <= k <= |steps| :: Sound(Run(row, steps[..k], limits), limits)
  }

  lemma RunNext(row: Instance, steps: seq<Step>, limits: Limits, k: nat)
    requires k < |steps|
    ensures Run(row, steps[..k + 1], limits) == Taken(Run(row, steps[..k], limits), steps[k], limits).0
  {
    assert steps[..k + 1][..k] == steps[..k];
  }

  lemma {:induction false} SoundSoFar(row: Instance, steps: seq<Step>, limits: Limits, k: nat)
    requires Sound(row, limits) && NeverOverdraws(row, steps, limits) && k <= |steps|
    ensures Sound(Run(row, steps[..k], limits), limits)
  {
    if k > 0 {
      SoundSoFar(row, steps, limits, k - 1);
      RunNext(row, steps, limits, k - 1);
      KeepsSoundExactlyWhen(Run(row, steps[..k - 1], limits), steps[k - 1], limits);
    }
  }

  /** Throughout a run attempts and re-arms stay within their limits exactly when every
      unguarded start finds attempts below the maximum. */
  lemma WithinLimitsExactlyWhen(row: Instance, steps: seq<Step>, limits: Limits)
    requires Sound(row, limits)
    ensures AlwaysSound(row, steps, limits) <==> NeverOverdraws(row, steps, limits)
  {
    if NeverOverdraws(row, steps, limits) {
      forall k | 0 <= k <= |steps| ensures Sound(Run(row, steps[..k], limits), limits) {
        SoundSoFar(row, steps, limits, k);
      }
    }
    if AlwaysSound(row, steps, limits) {
      forall k | 0 <= k < |steps| ensures !Overdraws(Run(row, steps[..k], limits), steps[k], limits) {
        RunNext(row, steps, limits, k);
        assert Sound(Run(row, steps[..k], limits), limits) && Sound(Run(row, steps[..k + 1], limits), limits);
        KeepsSoundExactlyWhen(Run(row, steps[..k], limits), steps[k], limits);
      }
    }
  }

  /** The books after one more step. */
  lemma Booked(d: int, k: nat, start: int, before: int, after: int, full: int, cost: bool, reset: bool, resets: bool)
    requires after == (if reset then full else before - if cost then 1 else 0)
    requires (reset ==> resets) && 0 <= before && 0 <= full && !(cost && reset)
    requires d <= start + k * full - before && (k == 0 ==> d + before == start)
    ensures var d1, k1 := d + (if cost then 1 else 0), k + if resets then 1 else 0;
      d1 <= start + k1 * full - after && (k1 == 0 ==> d1 + after == start)
  {
    assert (k + 1) * full == k * full + full;
  }

  lemma {:induction false} Books(row: Instance, steps: seq<Step>, limits: Limits, k: nat)
    requires Sound(row, limits) && NeverOverdraws(row, steps, limits) && k <= |steps|
    ensures var d, left := Dispatches(row, steps[..k], limits), Remaining(Run(row, steps[..k], limits), limits);
      && d <= Remaining(row, limits) + ResetsOf(steps[..k]) * Full(limits) - left
      && (ResetsOf(steps[..k]) == 0 ==> d + left == Remaining(row, limits))
  {
    if k > 0 {
      var front, step := steps[..k - 1], steps[k - 1];
      assert steps[..k][..k - 1] == front;
      Books(row, steps, limits, k - 1);
      SoundSoFar(row, steps, limits, k - 1);
      var before := Run(row, front, limits);
      StepAccounts(before, step, limits);
      KeepsSoundExactlyWhen(before, step, limits);
      RemainingBounds(before, limits);
      Booked(Dispatches(row, front, limits), ResetsOf(front), Remaining(row, limits), Remaining(before, limits),
             Remaining(Taken(before, step, limits).0, limits), Full(limits),
             Costs(before, step, limits), Restores(before, step, limits), Resets(step));
    }
  }

  lemma BooksOfRun(row: Instance, steps: seq<Step>, limits: Limits)
    requires Sound(row, limits) && NeverOverdraws(row, steps, limits)
    ensures var d, left := Dispatches(row, steps, limits), Remaining(Run(row, steps, limits), limits);
      && 0 <= left && 0 <= Remaining(row, limits) <= Full(limits)
      && d <= Remaining(row, limits) + ResetsOf(steps) * Full(limits) - left
      && (ResetsOf(steps) == 0 ==> d + left == Remaining(row, limits))
  {
    assert steps[..|steps|] == steps;
    Books(row, steps, limits, |steps|);
    SoundSoFar(row, steps, limits, |steps|);
    RemainingBounds(row, limits);
    RemainingBounds(Run(row, steps, limits), limits);
  }

  lemma Budgets(d: int, start: int, left: int, full: int, resets: int)
    requires d <= start + resets * full - left && start <= full && 0 <= left
    ensures d <= (resets + 1) * full
  {
    assert (resets + 1) * full == resets * full + full;
  }

  lemma FullIsProduct(limits: Limits)
    ensures Full(limits) == limits.maxAttempts * (limits.maxRearms + 1)
  {
  }

  /** Budget accounting over every run in which no unguarded start finds the attempts used up:
      without a reset, the starts dispatched - the first one included - and the budget left add up to the
      budget there was, so at most maxAttempts * (maxRearms + 1) starts are dispatched; with resets, each
      adds at most one full budget. */
  lemma StartsAreBudgeted(row: Instance, steps: seq<Step>, limits: Limits)
    requires Sound(row, limits) && NeverOverdraws(row, steps, limits)
    ensures ResetsOf(steps) == 0 ==>
      && Dispatches(row, steps, limits) + Remaining(Run(row, steps, limits), limits) == Remaining(row, limits)
      && Dispatches(row, steps, limits) <= limits.maxAttempts * (limits.maxRearms + 1)
    ensures Dispatches(row, steps, limits) <= (ResetsOf(steps) + 1) * Full(limits)
  {
    BooksOfRun(row, steps, limits);
    FullIsProduct(limits);
    Budgets(Dispatches(row, steps, limits), Remaining(row, limits), Remaining(Run(row, steps, limits), limits),
            Full(limits), ResetsOf(steps));
  }

  // ---------------------------------------------------------- counterexample

  const SINGLE := Limits(1, 1, 1)

  /** A container that was lost with its budget spent, found again and prepared: the attempts are kept. */
  const SPENT := Instance(
    "n", "p", "a", "", "l", "", None, Idle, NoService, NoRole, 0, "", 0, 0, 1, 0, 0, 0, false, 1, "", 1, 1, 1)

  predicate Spent(row: Instance, service: ServiceState, attempts: int, rearms: int, parked: Time) {
    && row.partnerID == "p" && row.pendingUpdate.None? && !row.pendingRelease && row.instanceState == Idle
    && row.serviceState == service && (service != NoService ==> row.role == Prefill)
    && row.startAttempts == attempts && row.startRearms == rearms && row.startParkedAt == parked
  }

  lemma SpentAssign(row: Instance)
    requires Spent(row, NoService, 1, 0, 0)
    ensures Overdraws(row, Assign(Prefill, 2), SINGLE) && Spent(Taken(row, Assign(Prefill, 2), SINGLE).0, Starting, 2, 0, 0)
  {
    Accepted(row, StartingRow(row, Prefill, 2), 2);
  }

  lemma SpentFail(row: Instance)
    requires Spent(row, Starting, 2, 0, 0)
    ensures Spent(Taken(row, Fail("crashed", 3), SINGLE).0, Failed, 2, 0, 3)
  {
    Accepted(row, FailedRow(row, "crashed", 1, 3), 3);
  }

  lemma SpentRearm(row: Instance)
    requires Spent(row, Failed, 2, 0, 3)
    ensures Spent(Taken(row, Rearm(5), SINGLE).0, Failed, 0, 1, 0)
  {
    Accepted(row, RearmedRow(row), 5);
  }

  lemma SpentDispatch(row: Instance)
    requires Spent(row, Failed, 0, 1, 0)
    ensures Costs(row, Dispatch(6), SINGLE)
  {
    Accepted(row, StartingRow(row, Prefill, 6), 6);
  }

  lemma CountNext(row: Instance, steps: seq<Step>, limits: Limits, k: nat)
    requires k < |steps|
    ensures Dispatches(row, steps[..k + 1], limits)
         == Dispatches(row, steps[..k], limits) + if Costs(Run(row, steps[..k], limits), steps[k], limits) then 1 else 0
    ensures ResetsOf(steps[..k + 1]) == ResetsOf(steps[..k]) + if Resets(steps[k]) then 1 else 0
  {
    assert steps[..k + 1][..k] == steps[..k];
  }

  const OVERDRAWING := [Assign(Prefill, 2), Fail("crashed", 3), Rearm(5), Dispatch(6)]

  lemma OverdrawingRows()
    ensures Spent(Run(SPENT, OVERDRAWING[..0], SINGLE), NoService, 1, 0, 0)
    ensures Spent(Run(SPENT, OVERDRAWING[..1], SINGLE), Starting, 2, 0, 0)
    ensures Spent(Run(SPENT, OVERDRAWING[..2], SINGLE), Failed, 2, 0, 3)
    ensures Spent(Run(SPENT, OVERDRAWING[..3], SINGLE), Failed, 0, 1, 0)
  {
    RunNext(SPENT, OVERDRAWING, SINGLE, 0);
    SpentAssign(SPENT);
    RunNext(SPENT, OVERDRAWING, SINGLE, 1);
    SpentFail(Run(SPENT, OVERDRAWING[..1], SINGLE));
    RunNext(SPENT, OVERDRAWING, SINGLE, 2);
    SpentRearm(Run(SPENT, OVERDRAWING[..2], SINGLE));
  }

  /** The first and the last of four steps dispatch, and none resets. */
  lemma CountAll(row: Instance, steps: seq<Step>, limits: Limits)
    requires |steps| == 4 && forall k | 0 <= k < 4 :: !Resets(steps[k])
    requires Costs(Run(row, steps[..0], limits), steps[0], limits) && Costs(Run(row, steps[..3], limits), steps[3], limits)
    ensures ResetsOf(steps) == 0 && Dispatches(row, steps, limits) >= 2
  {
    CountNext(row, steps, limits, 0);
    CountNext(row, steps, limits, 1);
    CountNext(row, steps, limits, 2);
    CountNext(row, steps, limits, 3);
    assert steps[..4] == steps && steps[..0] == [];
  }

  /** An unguarded start with the attempts used up is written off by the next re-arm: two starts are
      dispatched where one was left. */
  lemma SpentBudgetIsOverdrawn()
    ensures Sound(SPENT, SINGLE) && Remaining(SPENT, SINGLE) == 1
    ensures ResetsOf(OVERDRAWING) == 0 && Dispatches(SPENT, OVERDRAWING, SINGLE) >= 2
  {
    OverdrawingRows();
    SpentAssign(Run(SPENT, OVERDRAWING[..0], SINGLE));
    SpentDispatch(Run(SPENT, OVERDRAWING[..3], SINGLE));
    CountAll(SPENT, OVERDRAWING, SINGLE);
  }

  // ----------------------------------------------------------------- cooldown

  /** The clock of the controller does not run backwards over the run, and is never the zero instant. */
  predicate Monotone(steps: seq<Step>) {
    && (forall i | 0 <= i < |steps| :: steps[i].now != ZERO_TIME)
    && forall i, j | 0 <= i < j < |steps| :: steps[i].now <= steps[j].now
  }

  /** A step keeps the park, clears it, or stamps it with its own clock; a re-arm clears it. */
  lemma ParkAfterStep(row: Instance, step: Step, limits: Limits)
    ensures var (after, taken) := Taken(row, step, limits);
      && (taken && step.Rearm? ==> after.startParkedAt == ZERO_TIME)
      && (after.startParkedAt == row.startParkedAt || after.startParkedAt == ZERO_TIME || after.startParkedAt == step.now)
  {
    var t := Asked(row, step, limits);
    if t.Some? && StoreWrite(row, t.value, step.now).1 {
      BudgetWritten(row, t.value, step.now);
    }
  }

  predicate RearmTaken(row: Instance, steps: seq<Step>, k: nat, limits: Limits)
    requires k < |steps|
  {
    steps[k].Rearm? && Taken(Run(row, steps[..k], limits), steps[k], limits).1
  }

  /** The park before each step of a run. */
  function ParkAt(row: Instance, steps: seq<Step>, limits: Limits, k: nat): Time
    requires k <= |steps|
  {
    Run(row, steps[..k], limits).startParkedAt
  }

  lemma ParkNext(row: Instance, steps: seq<Step>, k: nat, limits: Limits)
    requires k < |steps|
    ensures var before, after := ParkAt(row, steps, limits, k), ParkAt(row, steps, limits, k + 1);
      && (RearmTaken(row, steps, k, limits) ==> after == ZERO_TIME)
      && (after == before || after == ZERO_TIME || after == steps[k].now)
  {
    assert steps[..k + 1][..k] == steps[..k];
    ParkAfterStep(Run(row, steps[..k], limits), steps[k], limits);
  }

  /** Nothing stamped since a re-arm is older than the re-arm. */
  lemma {:induction false} ParkIsRecent(row: Instance, steps: seq<Step>, from: nat, k: nat, limits: Limits)
    requires Monotone(steps) && from < k <= |steps| && RearmTaken(row, steps, from, limits)
    ensures ParkAt(row, steps, limits, k) == ZERO_TIME || steps[from].now <= ParkAt(row, steps, limits, k)
    decreases k
  {
    ParkNext(row, steps, k - 1, limits);
    if from < k - 1 {
      ParkIsRecent(row, steps, from, k - 1, limits);
    }
  }

  lemma RearmWaited(row: Instance, step: Step, limits: Limits)
    requires step.Rearm? && Taken(row, step, limits).1
    ensures row.startParkedAt != ZERO_TIME && step.now - row.startParkedAt >= limits.cooldown > 0
  {
  }

  /** Two re-arms are at least one cooldown apart, however long the attempts in between take to fail. */
  lemma RearmsAreCooldownApart(row: Instance, steps: seq<Step>, i: nat, j: nat, limits: Limits)
    requires Monotone(steps) && i < j < |steps| && RearmTaken(row, steps, i, limits) && RearmTaken(row, steps, j, limits)
    ensures steps[j].now - steps[i].now >= limits.cooldown > 0
  {
    ParkIsRecent(row, steps, i, j, limits);
    RearmWaited(Run(row, steps[..j], limits), steps[j], limits);
  }

  // -------------------------------------------------------------- the methods

  class BudgetController {
    const limits: Limits
    var row: Instance

    constructor (limits: Limits, row: Instance)
      ensures this.limits == limits && this.row == row
    {
      this.limits, this.row := limits, row;
    }

    method Transit(t: Transition, now: Time) returns (ok: bool)
      modifies this`row
      ensures (row, ok) == StoreWrite(old(row), t, now)
    {
      var d := DecideUpdate(row, t, now);
      match d {
        case Write(stored) =>
          row := stored;
          ok := true;
        case Keep => ok := true;
        case Refuse(_) => ok := false;
      }
    }

    method FailStart(message: string, now: Time) returns (ok: bool)
      requires HasService(row)
      modifies this`row
      ensures (row, ok) == Taken(old(row), Fail(message, now), limits)
    {
      var next := row;
      next := next.(serviceState := Failed, lastError := message, lastSeenAt := now);
      var exhausted := next.startAttempts >= limits.maxAttempts;
      if exhausted {
        next := next.(startParkedAt := now);
      } else {
        next := next.(startParkedAt := ZERO_TIME);
      }
      ok := Transit(Plain(next), now);
    }

    method RearmStartBudget(now: Time) returns (rearmed: bool)
      modifies this`row
      ensures (row, rearmed) == Taken(old(row), Rearm(now), limits)
    {
      var latest := row;
      if latest.instanceState != Idle || latest.serviceState != Failed || latest.startAttempts < limits.maxAttempts
        || !latest.role.Valid() || latest.pendingRelease || latest.pendingUpdate.Some?
      {
        return false;
      }
      if latest.startRearms >= limits.maxRearms || latest.startParkedAt == ZERO_TIME {
        return false;
      }
      if limits.cooldown <= 0 || now - latest.startParkedAt < limits.cooldown {
        return false;
      }
      var next := latest.(startAttempts := 0, startRearms := latest.startRearms + 1, startParkedAt := ZERO_TIME, lastError := "");
      rearmed := Transit(Plain(next), now);
    }

    method RequeueService(now: Time) returns (ok: bool)
      modifies this`row
      ensures (row, ok) == Taken(old(row), Requeue(now), limits)
    {
      if row.instanceState != Idle || row.serviceState != Failed {
        return false;
      }
      if !row.role.Valid() || row.startAttempts < limits.maxAttempts {
        return false;
      }
      var next := row.(startAttempts := 0, startRearms := 0, startParkedAt := ZERO_TIME, lastError := "", lastSeenAt := now);
      ok := Transit(Plain(next), now);
    }
  }
}
