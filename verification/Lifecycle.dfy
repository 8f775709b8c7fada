/** The rows internal/controller/lifecycle.go and reconcile.go write, one function per operation, and
    the Router calls that open and close admission. */
module Lifecycle {
  import opened Domain
  import opened DurableStore

  // ---------------------------------------------------------------- identity

  predicate HasService(row: Instance) { row.serviceState != NoService }

  lemma {:induction false} AllSpaces(s: string)
    requires forall i | 0 <= i < |s| :: IsSpace(s[i])
    ensures TrimLeft(s) == ""
  {
    if s != "" {
      AllSpaces(s[1..]);
    }
  }

  /** The address the Router is given. */
  function ServiceURL(row: Instance): string {
    var service := TrimSpace(row.serviceEndpoint);
    if service != "" then service else row.endpoint
  }

  /** The service endpoint without the whitespace around it, or the container's own if there is none. */
  lemma ServiceURLIs(row: Instance, before: string, url: string, after: string)
    requires row.serviceEndpoint == before + url + after
    requires forall i | 0 <= i < |before| :: IsSpace(before[i])
    requires forall i | 0 <= i < |after| :: IsSpace(after[i])
    requires url != "" ==> !IsSpace(url[0]) && !IsSpace(url[|url| - 1])
    ensures ServiceURL(row) == if url == "" then row.endpoint else url
  {
    if url != "" {
      TrimLeftSkips(before, url + after);
      assert before + (url + after) == before + url + after;
      TrimRightSkips(url, after);
    } else {
      AllSpaces(before + after);
      assert before + url + after == before + after;
    }
  }

  /** The Router derives a worker's identity from its URL. */
  function WorkerID(url: string): (id: string)
    ensures id != ""
  {
    "worker:" + url
  }

  lemma WorkerIDInjective(a: string, b: string)
    requires WorkerID(a) == WorkerID(b)
    ensures a == b
  {
    assert WorkerID(a)[7..] == a && WorkerID(b)[7..] == b;
  }

  /** A transition without flags or guards. */
  function Plain(next: Instance): Transition {
    Transition(next.id, next, false, false, false, false, None, None, "", None, ZERO_TIME, ZERO_TIME, None)
  }

  /** The row after a transition, and whether the store accepted it. */
  function StoreWrite(row: Instance, t: Transition, now: Time): (Instance, bool) {
    match Decide(row, t, now)
    case Write(stored) => (stored, true)
    case Keep => (row, true)
    case Refuse(_) => (row, false)
  }

  /** Nothing in the row stands in the way of an ordinary write along a legal edge. */
  lemma Accepted(row: Instance, next: Instance, now: Time)
    requires !row.pendingRelease && row.pendingUpdate.None? && next.pendingUpdate.None? && !next.pendingRelease
    requires row.partnerID == next.partnerID && ValidateTransition(row, next).None?
    ensures StoreWrite(row, Plain(next), now) == (Stored(row, next, now), true)
  {
  }

  /** What StartService demands of a row. */
  predicate MayStart(row: Instance, role: Role) {
    && role.Valid() && row.instanceState == Idle && !row.pendingRelease && row.pendingUpdate.None?
    && row.serviceState != Serving
  }

  // -------------------------------------------------------------------- rows

  function StartingRow(row: Instance, role: Role, now: Time): Instance {
    row.(roleAssignedAt := if row.role != role then now else row.roleAssignedAt, role := role,
         serviceState := Starting, startAttempts := row.startAttempts + 1)
  }

  function ServingRow(row: Instance, workerID: string, generation: int, now: Time): Instance {
    row.(routerWorkerID := workerID, readinessGeneration := generation, serviceState := Serving,
         startAttempts := 0, startRearms := 0, startParkedAt := ZERO_TIME, lastError := "", lastSeenAt := now)
  }

  /** A failure that spends the last attempt parks the budget, on the controller's clock. */
  function FailedRow(row: Instance, message: string, maxAttempts: int, now: Time): Instance {
    row.(serviceState := Failed, lastError := message, lastSeenAt := now,
         startParkedAt := if row.startAttempts >= maxAttempts then now else ZERO_TIME)
  }

  function RequeuedRow(row: Instance, now: Time): Instance {
    row.(startAttempts := 0, startRearms := 0, startParkedAt := ZERO_TIME, lastError := "", lastSeenAt := now)
  }

  function RearmedRow(row: Instance): Instance {
    row.(startAttempts := 0, startRearms := row.startRearms + 1, startParkedAt := ZERO_TIME, lastError := "")
  }

  function DrainDeadline(row: Instance, grace: int, now: Time): Time {
    if row.pendingRelease && row.drainDeadlineAt != ZERO_TIME then row.drainDeadlineAt
    else now + if grace < 0 then 0 else grace
  }

  function DrainingRow(row: Instance, deadline: Time, release: bool): Instance {
    row.(serviceState := Draining, drainDeadlineAt := deadline, pendingRelease := release, lastError := "")
  }

  function StillDrainingRow(row: Instance, message: string): Instance {
    row.(serviceState := Draining, lastError := message)
  }

  /** A finished drain leaves no service; a queued identity is put in force unless the container is
      being given back. */
  function DrainedRow(row: Instance, now: Time): Instance {
    var stopped := row.(serviceState := NoService, role := NoRole, roleAssignedAt := ZERO_TIME, startAttempts := 0,
                        startRearms := 0, startParkedAt := ZERO_TIME, drainDeadlineAt := ZERO_TIME,
                        lastSeenAt := now, lastError := "", pendingRelease := false);
    if row.pendingUpdate.Some? && !row.pendingRelease then
      var u := row.pendingUpdate.value;
      stopped.(endpoint := u.endpoint, serviceEndpoint := u.serviceEndpoint, leaseID := u.leaseID, spec := u.spec,
               leaseUpdatedAt := u.observedAt, prepareAttempts := 0, pendingUpdate := None,
               instanceState := Preparing, routerWorkerID := "", readinessGeneration := 0)
    else stopped
  }

  function DrainedTransition(row: Instance, now: Time): Transition {
    Plain(DrainedRow(row, now)).(applyPendingUpdate := row.pendingUpdate.Some? && !row.pendingRelease)
  }

  // --------------------------------------------------------------- admission

  /** Router memberships by worker id; the value says whether admission is open. */
  type Members = map<string, bool>

  predicate Admits(members: Members, url: string) {
    WorkerID(url) in members && members[WorkerID(url)]
  }

  /** How a Router call ends for the caller: answered, executed but the answer was lost, or not executed. */
  datatype Reach = Answered | AnswerLost | NotExecuted

  function WithReadiness(members: Members, id: string, open: bool): Members {
    if id in members then members[id := open] else members
  }

  /** SetReadiness(false), where a worker the Router does not know counts as closed. */
  function SetClosed(members: Members, id: string, reach: Reach): (Members, bool) {
    (if reach.NotExecuted? then members else WithReadiness(members, id, false), reach.Answered?)
  }

  datatype Closing = Closing(row: Instance, members: Members, ok: bool)

  /** Closes admission before a drain: by the recorded worker id, or else by looking up the URL. */
  function CloseAdmission(row: Instance, members: Members, find: Reach, call: Reach): Closing {
    if row.routerWorkerID != "" then
      var (closed, ok) := SetClosed(members, row.routerWorkerID, call);
      Closing(row, closed, ok)
    else if !find.Answered? then Closing(row, members, false)
    else if WorkerID(ServiceURL(row)) !in members then Closing(row, members, true)
    else
      var id := WorkerID(ServiceURL(row));
      var (closed, ok) := SetClosed(members, id, call);
      Closing(row.(routerWorkerID := id), closed, ok)
  }

  /** Closing admission reports success and the service URL is closed or absent, exactly unless the row
      records the id of another worker while its own is open. */
  lemma ClosedExactlyWhen(row: Instance, members: Members, find: Reach, call: Reach)
    requires CloseAdmission(row, members, find, call).ok
    ensures !Admits(CloseAdmission(row, members, find, call).members, ServiceURL(row))
       <==> row.routerWorkerID == "" || row.routerWorkerID == WorkerID(ServiceURL(row)) || !Admits(members, ServiceURL(row))
  {
  }
}
