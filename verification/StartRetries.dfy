/** When a start is taken, when a spent budget is re-armed or requeued, and what each leaves behind: said of
    the columns of the row, the limits and the clock. */
module StartRetries {
  import opened Domain
  import opened DurableStore
  import opened StoreGuards
  import opened Lifecycle
  import opened StartBudget

  // ----------------------------------------------------------------- starts

  /** A row that nobody reclaims and no new identity waits for. */
  predicate Unclaimed(row: Instance) { !row.pendingRelease && row.pendingUpdate.None? }

  lemma PlainWriteTaken(row: Instance, next: Instance, now: Time)
    requires Unclaimed(row) && Unclaimed(next) && next.partnerID == row.partnerID
    ensures StoreWrite(row, Plain(next), now).1 <==> LegalRow(next) && Moved(row, next.instanceState, next.serviceState)
    ensures StoreWrite(row, Plain(next), now).1 ==> StoreWrite(row, Plain(next), now).0 == Stored(row, next, now)
  {
    CommitsExactlyWhen(row, Plain(next), now);
  }

  /** The start of a service is taken exactly for a known role on an idle container that runs no model yet;
      it counts an attempt, and the role dates from the start that changes it. */
  lemma AssignedExactlyWhen(row: Instance, role: Role, now: Time, limits: Limits)
    ensures var (after, taken) := Taken(row, Assign(role, now), limits);
      && (taken <==>
            && role in {Prefill, Decode, Regular} && row.instanceState == Idle && Unclaimed(row)
            && row.serviceState in {NoService, Starting, Failed})
      && (taken ==>
            && after.serviceState == Starting && after.role == role && after.startAttempts == row.startAttempts + 1
            && after.startRearms == row.startRearms
            && after.roleAssignedAt == if row.role == role then row.roleAssignedAt else now)
      && (!taken ==> after == row)
  {
    if Unclaimed(row) {
      PlainWriteTaken(row, StartingRow(row, role, now), now);
    }
  }

  /** A retry is dispatched exactly while attempts are left, for the role the row already has. */
  lemma DispatchedExactlyWhen(row: Instance, now: Time, limits: Limits)
    ensures var (after, taken) := Taken(row, Dispatch(now), limits);
      && (taken <==>
            && row.role in {Prefill, Decode, Regular} && row.instanceState == Idle && Unclaimed(row)
            && row.serviceState in {NoService, Failed} && row.startAttempts < limits.maxAttempts)
      && (taken ==>
            && after.serviceState == Starting && after.role == row.role && after.startAttempts == row.startAttempts + 1
            && after.roleAssignedAt == row.roleAssignedAt)
      && (!taken ==> after == row)
  {
    if Unclaimed(row) {
      PlainWriteTaken(row, StartingRow(row, row.role, now), now);
    }
  }

  /** A worker is declared serving exactly from REGISTERING, and not while it is reclaimed and may still be
      reached; success restores the budget. */
  lemma ServedExactlyWhen(row: Instance, workerID: string, generation: int, now: Time, limits: Limits)
    ensures var (after, taken) := Taken(row, Serve(workerID, generation, now), limits);
      && (taken <==>
            && row.serviceState == Registering && row.role in {Prefill, Decode, Regular}
            && (row.instanceState == Lost || (row.instanceState == Idle && !row.pendingRelease)))
      && (taken ==>
            && after.serviceState == Serving && after.routerWorkerID == workerID && after.readinessGeneration == generation
            && after.startAttempts == 0 && after.startRearms == 0 && after.startParkedAt == ZERO_TIME && after.lastError == "")
  {
    var t := Plain(ServingRow(row, workerID, generation, now));
    CommitsExactlyWhen(row, t, now);
    if MayCommit(row, t) {
      WriteStores(row, t, now);
    }
  }

  // ---------------------------------------------------------------- the park

  /** A failure is parked exactly if it finds no attempt left, at the clock of the failure. */
  lemma FailureParks(row: Instance, message: string, now: Time, limits: Limits)
    requires Taken(row, Fail(message, now), limits).1
    ensures var after := Taken(row, Fail(message, now), limits).0;
      && after.serviceState == Failed && after.lastError == message
      && after.startAttempts == row.startAttempts && after.startRearms == row.startRearms
      && after.startParkedAt == (if row.startAttempts < limits.maxAttempts then ZERO_TIME else now)
      && after.instanceState == row.instanceState && after.role == row.role
      && (Unclaimed(row) ==> Unclaimed(after))
  {
    var t := Plain(FailedRow(row, message, limits.maxAttempts, now));
    assert Decide(row, t, now).Write?;
    assert Decide(row, t, now).row == Stored(row, WithQueuedUpdate(row, WithReclaim(row, t), t), now);
  }

  /** Nothing that bears on the budget has been written to the row. */
  predicate LeftAlone(row: Instance, later: Instance) {
    && later.instanceState == row.instanceState && later.serviceState == row.serviceState && later.role == row.role
    && later.startAttempts == row.startAttempts && later.startRearms == row.startRearms
    && later.startParkedAt == row.startParkedAt
    && later.pendingRelease == row.pendingRelease && later.pendingUpdate == row.pendingUpdate
  }

  /** A re-arm is taken exactly on a failed service of an idle container with its attempts used up and
      re-arms left, a cooldown after its park; it gives back the attempts and counts a re-arm. */
  lemma RearmedExactlyWhen(row: Instance, now: Time, limits: Limits)
    ensures var (after, taken) := Taken(row, Rearm(now), limits);
      && (taken <==>
            && row.instanceState == Idle && row.serviceState == Failed && row.role in {Prefill, Decode, Regular} && Unclaimed(row)
            && row.startAttempts >= limits.maxAttempts && row.startRearms < limits.maxRearms
            && limits.cooldown > 0 && row.startParkedAt != ZERO_TIME && now >= row.startParkedAt + limits.cooldown)
      && (taken ==>
            && after.startAttempts == 0 && after.startRearms == row.startRearms + 1 && after.startParkedAt == ZERO_TIME
            && after.serviceState == Failed && after.role == row.role && after.lastError == "")
      && (!taken ==> after == row)
  {
    if Unclaimed(row) {
      PlainWriteTaken(row, RearmedRow(row), now);
    }
  }

  /** A start that fails with no attempt left is re-armed, if the row is left alone, exactly from one cooldown
      after the failure on, as long as cooldown and re-arms are configured; one that fails with attempts left
      never is.  After the re-arm the service is tried again. */
  lemma RearmedExactlyAfterCooldown(row: Instance, message: string, failedAt: Time, later: Instance, now: Time, limits: Limits)
    requires failedAt != ZERO_TIME && Taken(row, Fail(message, failedAt), limits).1
    requires LeftAlone(Taken(row, Fail(message, failedAt), limits).0, later)
    requires row.instanceState == Idle && row.role in {Prefill, Decode, Regular} && Unclaimed(row)
    ensures Taken(later, Rearm(now), limits).1
       <==> row.startAttempts >= limits.maxAttempts && row.startRearms < limits.maxRearms
            && limits.cooldown > 0 && now - failedAt >= limits.cooldown
    ensures Taken(later, Rearm(now), limits).1 && limits.maxAttempts > 0 ==>
      Taken(Taken(later, Rearm(now), limits).0, Dispatch(now), limits).1
  {
    FailureParks(row, message, failedAt, limits);
    RearmedExactlyWhen(later, now, limits);
    if Taken(later, Rearm(now), limits).1 {
      PlainWriteTaken(later, RearmedRow(later), now);
      DispatchedExactlyWhen(Taken(later, Rearm(now), limits).0, now, limits);
    }
  }

  /** A failure with attempts left is retried at once instead. */
  lemma FailureIsRetried(row: Instance, message: string, failedAt: Time, later: Instance, now: Time, limits: Limits)
    requires Taken(row, Fail(message, failedAt), limits).1
    requires LeftAlone(Taken(row, Fail(message, failedAt), limits).0, later)
    requires row.instanceState == Idle && row.role in {Prefill, Decode, Regular} && Unclaimed(row)
    ensures Taken(later, Dispatch(now), limits).1 <==> row.startAttempts < limits.maxAttempts
  {
    FailureParks(row, message, failedAt, limits);
    DispatchedExactlyWhen(later, now, limits);
  }

  /** An operator's requeue is taken exactly for a failed service with its attempts used up; it restores the
      whole budget, of a reclaimed container too. */
  lemma RequeuedExactlyWhen(row: Instance, now: Time, limits: Limits)
    ensures var (after, taken) := Taken(row, Requeue(now), limits);
      && (taken <==>
            && row.instanceState == Idle && row.serviceState == Failed && row.role in {Prefill, Decode, Regular}
            && row.startAttempts >= limits.maxAttempts)
      && (taken ==>
            && after.startAttempts == 0 && after.startRearms == 0 && after.startParkedAt == ZERO_TIME
            && after.serviceState == Failed && after.role == row.role && after.lastError == "")
      && (!taken ==> after == row)
  {
    var t := Plain(RequeuedRow(row, now));
    CommitsExactlyWhen(row, t, now);
    if MayCommit(row, t) {
      WriteStores(row, t, now);
    }
  }

  // ------------------------------------------------------------ over a run

  /** The step leaves alone what bears on the budget. */
  predicate Quiet(row: Instance, step: Step, limits: Limits) { LeftAlone(row, Taken(row, step, limits).0) }

  lemma {:induction false} LeftAloneOverRun(row: Instance, steps: seq<Step>, limits: Limits)
    requires forall k | 0 <= k < |steps| :: Quiet(Run(row, steps[..k], limits), steps[k], limits)
    ensures LeftAlone(row, Run(row, steps, limits))
  {
    if steps != [] {
      var front := steps[..|steps| - 1];
      forall k | 0 <= k < |front| ensures Quiet(Run(row, front[..k], limits), front[k], limits) {
        assert front[..k] == steps[..k];
      }
      LeftAloneOverRun(row, front, limits);
    }
  }

  /** Over a run: from the failure that used the budget up, through any steps that leave it alone, the re-arm
      is taken exactly once the cooldown of that failure is over. */
  lemma ParkedForOneCooldown(row: Instance, message: string, failedAt: Time, steps: seq<Step>, now: Time, limits: Limits)
    requires failedAt != ZERO_TIME && Taken(row, Fail(message, failedAt), limits).1
    requires row.instanceState == Idle && row.role in {Prefill, Decode, Regular} && Unclaimed(row)
    requires row.startAttempts >= limits.maxAttempts && row.startRearms < limits.maxRearms && limits.cooldown > 0
    requires var failed := Taken(row, Fail(message, failedAt), limits).0;
      forall k | 0 <= k < |steps| :: Quiet(Run(failed, steps[..k], limits), steps[k], limits)
    ensures var later := Run(Taken(row, Fail(message, failedAt), limits).0, steps, limits);
      Taken(later, Rearm(now), limits).1 <==> now - failedAt >= limits.cooldown
  {
    var failed := Taken(row, Fail(message, failedAt), limits).0;
    LeftAloneOverRun(failed, steps, limits);
    RearmedExactlyAfterCooldown(row, message, failedAt, Run(failed, steps, limits), now, limits);
  }
}
