/** What holds over every run of the transition engine, for every row a caller may hand in and
    every combination of flags. */
module StoreRuns {
  import opened Domain
  import opened DurableStore

  // ---------------------------------------------------------------- runs

  datatype DB = DB(rows: Rows, operations: Operations)

  datatype Step =
    | Transact(t: Transition, now: Time)
    | Touch(id: string, observedAt: Time, seenAt: Time)

  function After(db: DB, step: Step): DB {
    match step
    case Transact(t, now) => (
      match DecideFor(db.rows, t, now)
      case Write(row) => DB(db.rows[t.instanceID := row], OperationsAfter(db.rows, db.operations, t, now))
      case _ => db)
    case Touch(id, observedAt, seenAt) =>
      if id in db.rows && Touchable(db.rows[id], observedAt)
      then db.(rows := db.rows[id := Touched(db.rows[id], observedAt, seenAt)]) else db
  }

  function Run(db: DB, steps: seq<Step>): DB {
    if steps == [] then db else After(Run(db, steps[..|steps| - 1]), steps[|steps| - 1])
  }

  /** The state after the first `k` steps. */
  function At(db: DB, steps: seq<Step>, k: nat): DB
    requires k <= |steps|
  {
    Run(db, steps[..k])
  }

  lemma AtNext(db: DB, steps: seq<Step>, k: nat)
    requires k < |steps|
    ensures At(db, steps, k + 1) == After(At(db, steps, k), steps[k])
  {
    assert steps[..k + 1][..k] == steps[..k];
  }

  lemma AtEnd(db: DB, steps: seq<Step>)
    ensures At(db, steps, |steps|) == Run(db, steps)
  {
    assert steps[..|steps|] == steps;
  }

  /** The row `id` moved from `before` to `after` in one step. */
  ghost predicate Moves(db: DB, step: Step, id: string) {
    id in db.rows && id in After(db, step).rows
  }

  lemma RowsStay(db: DB, step: Step, id: string)
    requires id in db.rows
    ensures Moves(db, step, id)
    ensures After(db, step).rows[id] == db.rows[id]
         || (step.Transact? && step.t.instanceID == id
             && Decide(db.rows[id], step.t, step.now) == Write(After(db, step).rows[id]))
         || (step.Touch? && step.id == id && Touchable(db.rows[id], step.observedAt)
             && After(db, step).rows[id] == Touched(db.rows[id], step.observedAt, step.seenAt))
  {
  }

  // ------------------------------------------------------ row invariants

  /** A reclaimed or released row has no queued identity. */
  predicate NoStrayUpdate(row: Instance) {
    row.pendingRelease || row.instanceState == Released ==> row.pendingUpdate.None?
  }

  ghost predicate Sound(db: DB) {
    forall id | id in db.rows :: db.rows[id].id == id && LegalRow(db.rows[id]) && NoStrayUpdate(db.rows[id])
  }

  /** If the step inserts a row, that row does not carry a reclaim together with a queued update. */
  ghost predicate CleanInsert(db: DB, step: Step) {
    step.Transact? && step.t.instanceID !in db.rows ==> NoStrayUpdate(step.t.next)
  }

  ghost predicate CleanRun(db: DB, steps: seq<Step>) {
    forall k | 0 <= k < |steps| :: CleanInsert(At(db, steps, k), steps[k])
  }

  /** Nothing a later state may forget about an earlier one. */
  ghost predicate Remembers(db: DB, later: DB) {
    forall id | id in db.rows ::
      && id in later.rows
      && later.rows[id].partnerID == db.rows[id].partnerID
      && later.rows[id].createdAt == db.rows[id].createdAt
      && db.rows[id].leaseUpdatedAt <= later.rows[id].leaseUpdatedAt
  }

  lemma StoredRowIsSound(current: Instance, t: Transition, now: Time)
    requires Decide(current, t, now).Write?
    ensures var row := Decide(current, t, now).row;
      LegalRow(row) && NoStrayUpdate(row) && row.id == current.id && row.partnerID == current.partnerID
      && row.createdAt == current.createdAt && current.leaseUpdatedAt <= row.leaseUpdatedAt
      && current.lastSeenAt <= row.lastSeenAt
  {
    var next := WithQueuedUpdate(current, WithReclaim(current, t), t);
    assert Decide(current, t, now).row == Stored(current, next, now);
    assert LegalRow(next);
    if t.reoffer {
      assert ReofferAllowed(current, t.next);
    }
  }

  lemma StepKeepsSound(db: DB, step: Step)
    requires Sound(db) && CleanInsert(db, step)
    ensures Sound(After(db, step)) && Remembers(db, After(db, step))
  {
    var later := After(db, step);
    forall id | id in later.rows
      ensures later.rows[id].id == id && LegalRow(later.rows[id]) && NoStrayUpdate(later.rows[id])
    {
      if id in db.rows {
        RowsStay(db, step, id);
        if step.Transact? && later.rows[id] != db.rows[id] {
          StoredRowIsSound(db.rows[id], step.t, step.now);
        }
      }
    }
    forall id | id in db.rows
      ensures later.rows[id].partnerID == db.rows[id].partnerID
      ensures later.rows[id].createdAt == db.rows[id].createdAt
      ensures db.rows[id].leaseUpdatedAt <= later.rows[id].leaseUpdatedAt
    {
      RowsStay(db, step, id);
      if step.Transact? && later.rows[id] != db.rows[id] {
        StoredRowIsSound(db.rows[id], step.t, step.now);
      }
    }
  }

  lemma RemembersTransitively(a: DB, b: DB, c: DB)
    requires Remembers(a, b) && Remembers(b, c)
    ensures Remembers(a, c)
  {
  }

  lemma OneStepOn(db: DB, steps: seq<Step>, k: nat)
    requires CleanRun(db, steps) && k < |steps| && Sound(At(db, steps, k))
    ensures Sound(At(db, steps, k + 1)) && Remembers(At(db, steps, k), At(db, steps, k + 1))
  {
    AtNext(db, steps, k);
    StepKeepsSound(At(db, steps, k), steps[k]);
  }

  lemma {:induction false} StateIsSound(db: DB, steps: seq<Step>, k: nat)
    requires Sound(db) && CleanRun(db, steps) && k <= |steps|
    ensures Sound(At(db, steps, k))
  {
    if k > 0 {
      StateIsSound(db, steps, k - 1);
      OneStepOn(db, steps, k - 1);
    }
  }

  /** Over every run: stored triples stay legal, rows are never lost, a row keeps its partner and its
      creation time, its lease observation never moves backwards, and a reclaim or a release is never
      accompanied by a queued identity. */
  lemma {:induction false} RunKeepsSound(db: DB, steps: seq<Step>, i: nat, j: nat)
    requires Sound(db) && CleanRun(db, steps) && i <= j <= |steps|
    ensures Sound(At(db, steps, i)) && Sound(At(db, steps, j))
    ensures Remembers(At(db, steps, i), At(db, steps, j))
    decreases j
  {
    StateIsSound(db, steps, i);
    StateIsSound(db, steps, j);
    if i < j {
      RunKeepsSound(db, steps, i, j - 1);
      OneStepOn(db, steps, j - 1);
      RemembersTransitively(At(db, steps, i), At(db, steps, j - 1), At(db, steps, j));
    }
  }

  // -------------------------------------------------------- reclaim latch

  /** A reclaim is in force. */
  predicate Reclaiming(db: DB, id: string) {
    id in db.rows && db.rows[id].pendingRelease && db.rows[id].instanceState != Released
  }

  /** What a reclaim pins down until the container is released. */
  predicate SameReclaim(a: Instance, b: Instance) {
    && a.pendingRelease && b.pendingRelease
    && a.endpoint == b.endpoint && a.serviceEndpoint == b.serviceEndpoint && a.leaseID == b.leaseID
    && a.drainDeadlineAt == b.drainDeadlineAt
  }

  lemma LatchedStep(current: Instance, t: Transition, now: Time)
    requires current.pendingRelease && current.instanceState != Released
    requires Decide(current, t, now).Write?
    ensures var row := Decide(current, t, now).row;
      row.instanceState == Released || (SameReclaim(current, row) && (row.instanceState == Lost || !WorkingService(row.serviceState)))
  {
    assert t.reoffer ==> ReofferAllowed(current, t.next);
    var merged := WithReclaim(current, t);
    assert Decide(current, t, now).row == Stored(current, WithQueuedUpdate(current, merged, t), now);
  }

  /** Once a reclaim is stored, no writer however stale takes it back: as long as the row is not
      released, it keeps the reclaim, the identity it reclaims and the drain deadline; and whatever
      changed the row last left it LOST or without a working service. */
  lemma {:induction false} ReclaimIsLatched(db: DB, steps: seq<Step>, id: string, i: nat, j: nat)
    requires i <= j <= |steps|
    requires forall k | i <= k <= j :: Reclaiming(At(db, steps, i), id) && id in At(db, steps, k).rows
                                       && At(db, steps, k).rows[id].instanceState != Released
    ensures SameReclaim(At(db, steps, i).rows[id], At(db, steps, j).rows[id])
    ensures var row := At(db, steps, j).rows[id];
      row == At(db, steps, i).rows[id] || row.instanceState == Lost || !WorkingService(row.serviceState)
    decreases j
  {
    if i < j {
      ReclaimIsLatched(db, steps, id, i, j - 1);
      AtNext(db, steps, j - 1);
      var before := At(db, steps, j - 1);
      RowsStay(before, steps[j - 1], id);
      if steps[j - 1].Transact? && At(db, steps, j).rows[id] != before.rows[id] {
        LatchedStep(before.rows[id], steps[j - 1].t, steps[j - 1].now);
      }
    }
  }

  // --------------------------------------------------------- queued update

  /** The queued identity was put in force: the drained service is gone and the row carries exactly
      the queued endpoint, service endpoint, lease and spec. */
  predicate AppliedUpdate(before: Instance, after: Instance) {
    && before.pendingUpdate.Some? && after.pendingUpdate.None?
    && before.serviceState == Draining && after.serviceState == NoService && after.instanceState == Preparing
    && var u := before.pendingUpdate.value;
       && after.endpoint == u.endpoint && after.serviceEndpoint == u.serviceEndpoint
       && after.leaseID == u.leaseID && after.spec == u.spec
       && after.leaseUpdatedAt == Later(u.observedAt, before.leaseUpdatedAt)
  }

  predicate QueuedAtLeast(row: Instance, observedAt: Time) {
    row.pendingUpdate.Some? && observedAt <= row.pendingUpdate.value.observedAt
  }

  predicate UpdateLeaves(before: Instance, after: Instance) {
    AppliedUpdate(before, after) || after.pendingRelease || after.instanceState == Released
  }

  lemma QueuedStep(current: Instance, t: Transition, now: Time, observedAt: Time)
    requires QueuedAtLeast(current, observedAt) && NoStrayUpdate(current)
    requires Decide(current, t, now).Write?
    ensures var row := Decide(current, t, now).row;
      QueuedAtLeast(row, observedAt) || UpdateLeaves(current, row)
  {
    assert t.reoffer ==> ReofferAllowed(current, t.next);
    var merged := WithReclaim(current, t);
    assert Decide(current, t, now).row == Stored(current, WithQueuedUpdate(current, merged, t), now);
  }

  /** A queued identity update is never lost: at the end of any run it is still queued, or it was
      replaced by one observed no earlier, or some step of the run applied it or reclaimed or released
      the container. */
  lemma QueuedUpdateIsNeverLost(db: DB, steps: seq<Step>, id: string, observedAt: Time) returns (left: nat)
    requires Sound(db) && CleanRun(db, steps)
    requires id in db.rows && QueuedAtLeast(db.rows[id], observedAt)
    ensures id in Run(db, steps).rows
    ensures left <= |steps|
    ensures left == |steps| ==> QueuedAtLeast(Run(db, steps).rows[id], observedAt)
    ensures left < |steps| ==>
      && id in At(db, steps, left).rows && id in At(db, steps, left + 1).rows
      && QueuedAtLeast(At(db, steps, left).rows[id], observedAt)
      && UpdateLeaves(At(db, steps, left).rows[id], At(db, steps, left + 1).rows[id])
  {
    RunKeepsSound(db, steps, 0, |steps|);
    AtEnd(db, steps);
    assert At(db, steps, 0) == db;
    left := 0;
    while left < |steps|
      invariant left <= |steps| && id in At(db, steps, left).rows
      invariant QueuedAtLeast(At(db, steps, left).rows[id], observedAt)
    {
      RunKeepsSound(db, steps, left, |steps|);
      AtNext(db, steps, left);
      var before, step := At(db, steps, left), steps[left];
      RowsStay(before, step, id);
      if step.Transact? && At(db, steps, left + 1).rows[id] != before.rows[id] {
        QueuedStep(before.rows[id], step.t, step.now, observedAt);
      }
      if !QueuedAtLeast(At(db, steps, left + 1).rows[id], observedAt) {
        return;
      }
      left := left + 1;
    }
  }

  // --------------------------------------------------- leaving RELEASED

  /** The step offers the released container again under a lease it did not have, and leaves no
      operation of the old lease open. */
  ghost predicate Reoffers(db: DB, step: Step, id: string) {
    && step.Transact? && step.t.reoffer && step.t.instanceID == id
    && id in db.rows && id in After(db, step).rows
    && var row := After(db, step).rows[id];
       && row.leaseID != "" && row.leaseID != db.rows[id].leaseID
       && row.instanceState == Allocating && row.serviceState == NoService && row.role == NoRole
       && !row.pendingRelease
       && (forall k | k in After(db, step).operations ::
             var o := After(db, step).operations[k];
             o.instanceID == id && Open(o) ==> step.t.operation.Some? && step.t.operation.value.operationID == k)
  }

  lemma LeavingReleasedStep(db: DB, step: Step, id: string)
    requires id in db.rows && db.rows[id].instanceState == Released
    requires After(db, step).rows[id].instanceState != Released
    ensures Reoffers(db, step, id)
  {
    RowsStay(db, step, id);
    var current, t := db.rows[id], step.t;
    assert ValidateTransition(current, WithQueuedUpdate(current, WithReclaim(current, t), t)).Some?;
    assert t.reoffer && ReofferAllowed(current, t.next);
    var closed := CloseOpen(db.operations, id);
    assert After(db, step).operations == Upsert(closed, t.operation, step.now);
  }

  /** RELEASED is final for a lease: whenever a released row is live again later in a run, a step in
      between re-offered the container under a new, non-empty lease and closed every operation the
      old lease had left open. */
  lemma OnlyAReofferRevives(db: DB, steps: seq<Step>, id: string, i: nat, j: nat) returns (at: nat)
    requires i <= j <= |steps|
    requires id in At(db, steps, i).rows && At(db, steps, i).rows[id].instanceState == Released
    requires id in At(db, steps, j).rows && At(db, steps, j).rows[id].instanceState != Released
    ensures i <= at < j && Reoffers(At(db, steps, at), steps[at], id)
  {
    at := i;
    while true
      invariant i <= at < j
      invariant id in At(db, steps, at).rows && At(db, steps, at).rows[id].instanceState == Released
      decreases j - at
    {
      AtNext(db, steps, at);
      RowsStay(At(db, steps, at), steps[at], id);
      if At(db, steps, at + 1).rows[id].instanceState != Released {
        LeavingReleasedStep(At(db, steps, at), steps[at], id);
        return;
      }
      at := at + 1;
    }
  }

  // ------------------------------------------------- the way to SERVING

  lemma ServiceEdgeTaken(db: DB, step: Step, id: string)
    requires id in db.rows
    ensures var before, after := db.rows[id].serviceState, After(db, step).rows[id].serviceState;
      before == after || after in ServiceEdges(before)
  {
    RowsStay(db, step, id);
    if step.Transact? && After(db, step).rows[id] != db.rows[id] {
      var current, t := db.rows[id], step.t;
      var next := WithQueuedUpdate(current, WithReclaim(current, t), t);
      assert t.reoffer || ValidateTransition(current, next).None?;
    }
  }

  lemma {:induction false} RowPersists(db: DB, steps: seq<Step>, id: string, i: nat, j: nat)
    requires i <= j <= |steps| && id in At(db, steps, i).rows
    ensures id in At(db, steps, j).rows
  {
    if i < j {
      RowPersists(db, steps, id, i, j - 1);
      AtNext(db, steps, j - 1);
    }
  }

  lemma OnlyWayIn(s: ServiceState)
    ensures Serving in ServiceEdges(s) ==> s == Registering
    ensures Registering in ServiceEdges(s) ==> s == Healthy
    ensures Healthy in ServiceEdges(s) ==> s == Starting
  {
  }

  /** A service state that was entered during a run was entered along an edge of the graph. */
  lemma {:induction false} EntryOf(db: DB, steps: seq<Step>, id: string, state: ServiceState, i: nat, j: nat) returns (k: nat)
    requires i <= j <= |steps| && id in At(db, steps, i).rows && id in At(db, steps, j).rows
    requires At(db, steps, i).rows[id].serviceState != state
    requires At(db, steps, j).rows[id].serviceState == state
    ensures i <= k < j && id in At(db, steps, k).rows && state in ServiceEdges(At(db, steps, k).rows[id].serviceState)
  {
    k := j - 1;
    RowPersists(db, steps, id, i, k);
    AtNext(db, steps, k);
    ServiceEdgeTaken(At(db, steps, k), steps[k], id);
    if At(db, steps, k).rows[id].serviceState == state {
      k := EntryOf(db, steps, id, state, i, j - 1);
    }
  }

  /** A worker is declared SERVING only after it was seen starting, healthy and registering, in that
      order, whoever wrote those states. */
  lemma ServingIsEarned(db: DB, steps: seq<Step>, id: string, i: nat, j: nat)
    returns (starting: nat, healthy: nat, registering: nat)
    requires i <= j <= |steps|
    requires id in At(db, steps, i).rows && At(db, steps, i).rows[id].serviceState == NoService
    requires id in At(db, steps, j).rows && At(db, steps, j).rows[id].serviceState == Serving
    ensures i < starting < healthy < registering < j
    ensures id in At(db, steps, starting).rows && At(db, steps, starting).rows[id].serviceState == Starting
    ensures id in At(db, steps, healthy).rows && At(db, steps, healthy).rows[id].serviceState == Healthy
    ensures id in At(db, steps, registering).rows && At(db, steps, registering).rows[id].serviceState == Registering
  {
    registering := EntryOf(db, steps, id, Serving, i, j);
    OnlyWayIn(At(db, steps, registering).rows[id].serviceState);
    healthy := EntryOf(db, steps, id, Registering, i, registering);
    OnlyWayIn(At(db, steps, healthy).rows[id].serviceState);
    starting := EntryOf(db, steps, id, Healthy, i, healthy);
    OnlyWayIn(At(db, steps, starting).rows[id].serviceState);
  }

  // ----------------------------------------------------- observation time

  /** The stored last_seen_at moves back in exactly one case: a partner observation that is accepted
      while the caller's own clock reads less than the stored value.  A transition never moves it back. */
  lemma LastSeenMovesBack(db: DB, step: Step, id: string)
    requires Sound(db) && id in db.rows
    ensures After(db, step).rows[id].lastSeenAt < db.rows[id].lastSeenAt
       <==> step.Touch? && step.id == id && Touchable(db.rows[id], step.observedAt) && step.seenAt < db.rows[id].lastSeenAt
  {
    RowsStay(db, step, id);
    if step.Transact? && After(db, step).rows[id] != db.rows[id] {
      StoredRowIsSound(db.rows[id], step.t, step.now);
    }
  }
}
