/** The two state graphs and the legality table of internal/domain/state.go, and the instance row
    of internal/domain/instance.go. */
module Domain {

  datatype Option<+T> = None | Some(value: T)

  /** An instant; 0 is the zero instant, which is before every other one. */
  type Time = nat
  const ZERO_TIME: Time := 0

  // ------------------------------------------------------------ strings

  /** The characters strings.TrimSpace strips: Go's unicode.IsSpace. */
  predicate IsSpace(c: char) {
    || '\t' <= c <= '\r' || c == ' ' || c == '\U{0085}' || c == '\U{00A0}' || c == '\U{1680}'
    || '\U{2000}' <= c <= '\U{200A}' || c == '\U{2028}' || c == '\U{2029}' || c == '\U{202F}'
    || c == '\U{205F}' || c == '\U{3000}'
  }

  function TrimLeft(s: string): string {
    if s != "" && IsSpace(s[0]) then TrimLeft(s[1..]) else s
  }

  function TrimRight(s: string): string {
    if s != "" && IsSpace(s[|s| - 1]) then TrimRight(s[..|s| - 1]) else s
  }

  function TrimSpace(s: string): string {
    TrimRight(TrimLeft(s))
  }

  /** The same characters one by one. */
  lemma SpacesListed(c: char)
    ensures IsSpace(c)
       <==> c in {'\t', '\n', '\U{000B}', '\U{000C}', '\r', ' ', '\U{0085}', '\U{00A0}', '\U{1680}', '\U{2000}', '\U{2001}',
                  '\U{2002}', '\U{2003}', '\U{2004}', '\U{2005}', '\U{2006}', '\U{2007}', '\U{2008}', '\U{2009}', '\U{200A}',
                  '\U{2028}', '\U{2029}', '\U{202F}', '\U{205F}', '\U{3000}'}
  {
    assert '\t' as int == 9 && '\n' as int == 10 && '\r' as int == 13;
  }

  lemma {:induction false} TrimLeftSkips(pad: string, s: string)
    requires forall i | 0 <= i < |pad| :: IsSpace(pad[i])
    requires s != "" && !IsSpace(s[0])
    ensures TrimLeft(pad + s) == s
  {
    if pad == "" {
      assert pad + s == s;
    } else {
      assert (pad + s)[1..] == pad[1..] + s;
      TrimLeftSkips(pad[1..], s);
    }
  }

  lemma {:induction false} TrimRightSkips(s: string, pad: string)
    requires forall i | 0 <= i < |pad| :: IsSpace(pad[i])
    requires s == "" || !IsSpace(s[|s| - 1])
    ensures TrimRight(s + pad) == s
    decreases |pad|
  {
    if pad == "" {
      assert s + pad == s;
    } else {
      var n := |pad| - 1;
      assert (s + pad)[..|s + pad| - 1] == s + pad[..n];
      TrimRightSkips(s, pad[..n]);
    }
  }

  // ------------------------------------------------------------- states

  datatype InstanceState =
    | Allocating | Preparing | Idle | Releasing | Released | Lost
    | OtherInstanceState(name: string)

  datatype ServiceState =
    | NoService | Starting | Healthy | Registering | Serving | Draining | Failed
    | OtherServiceState(name: string)

  datatype Role = NoRole | Prefill | Decode | Regular | OtherRole(name: string) {
    predicate Valid() {
      Prefill? || Decode? || Regular?
    }
  }

  predicate KnownInstanceState(s: InstanceState) { !s.OtherInstanceState? }

  predicate KnownServiceState(s: ServiceState) { !s.OtherServiceState? }

  function InstanceEdges(from: InstanceState): set<InstanceState> {
    match from
    case Allocating => {Preparing, Releasing, Lost}
    case Preparing => {Idle, Releasing, Lost}
    case Idle => {Preparing, Releasing, Lost}
    case Releasing => {Released, Lost}
    case Released => {}
    case Lost => {Preparing, Releasing, Released}
    case OtherInstanceState(_) => {}
  }

  function ServiceEdges(from: ServiceState): set<ServiceState> {
    match from
    case NoService => {Starting}
    case Starting => {Healthy, Failed, Draining}
    case Healthy => {Registering, Failed, Draining}
    case Registering => {Serving, Failed, Draining}
    case Serving => {Draining, Failed}
    case Draining => {NoService, Failed}
    case Failed => {NoService, Starting, Draining}
    case OtherServiceState(_) => {}
  }

  predicate CanTransitionInstance(from: InstanceState, to: InstanceState) {
    KnownInstanceState(from) && (from == to || to in InstanceEdges(from))
  }

  predicate CanTransitionService(from: ServiceState, to: ServiceState) {
    KnownServiceState(from) && (from == to || to in ServiceEdges(from))
  }

  // ------------------------------------------------------------ verdicts

  datatype Code =
    | IllegalInstanceTransition | IllegalServiceTransition | IllegalCombination
    | UnknownInstanceState | UnknownServiceState | MissingRole | ServiceStateUnknown

  datatype Verdict = Legal | Tolerated(code: Code) | Refused(code: Code)

  predicate RunnableService(s: ServiceState) {
    s.Starting? || s.Healthy? || s.Registering? || s.Serving? || s.Draining?
  }

  function CheckCombination(instance: InstanceState, service: ServiceState, role: Role): Verdict {
    if !KnownInstanceState(instance) then Refused(UnknownInstanceState)
    else if !KnownServiceState(service) then Refused(UnknownServiceState)
    else if RunnableService(service) && !role.Valid() then Refused(MissingRole)
    else
      match instance
      case Allocating => if service != NoService then Refused(IllegalCombination) else Legal
      case Preparing => if service != NoService && service != Failed then Refused(IllegalCombination) else Legal
      case Idle => Legal
      case Releasing =>
        if service.Starting? || service.Healthy? || service.Registering? || service.Serving?
        then Refused(IllegalCombination) else Legal
      case Released => if service != NoService then Refused(IllegalCombination) else Legal
      case Lost => Tolerated(ServiceStateUnknown)
      case OtherInstanceState(_) => Refused(UnknownInstanceState)
  }

  // ----------------------------------------------------------------- row

  datatype InstanceUpdate = InstanceUpdate(
    endpoint: string, serviceEndpoint: string, leaseID: string, spec: string, observedAt: Time)

  datatype Instance = Instance(
    id: string,
    partnerID: string,
    endpoint: string,
    serviceEndpoint: string,
    leaseID: string,
    spec: string,
    pendingUpdate: Option<InstanceUpdate>,
    instanceState: InstanceState,
    serviceState: ServiceState,
    role: Role,
    roleAssignedAt: Time,
    routerWorkerID: string,
    readinessGeneration: int,
    prepareAttempts: int,
    startAttempts: int,
    startRearms: int,
    startParkedAt: Time,
    drainDeadlineAt: Time,
    pendingRelease: bool,
    leaseUpdatedAt: Time,
    lastError: string,
    lastSeenAt: Time,
    createdAt: Time,
    updatedAt: Time)

  /** The triple may be stored: it is legal, or tolerated because the container is LOST. */
  predicate LegalRow(row: Instance) {
    !CheckCombination(row.instanceState, row.serviceState, row.role).Refused?
  }

  /** ValidateTransition: the violation that refuses the edge, if any. */
  function ValidateTransition(from: Instance, to: Instance): Option<Code> {
    if !KnownInstanceState(from.instanceState) || !KnownInstanceState(to.instanceState) then Some(UnknownInstanceState)
    else if !CanTransitionInstance(from.instanceState, to.instanceState) then Some(IllegalInstanceTransition)
    else if !KnownServiceState(from.serviceState) || !KnownServiceState(to.serviceState) then Some(UnknownServiceState)
    else if !CanTransitionService(from.serviceState, to.serviceState) then Some(IllegalServiceTransition)
    else
      var verdict := CheckCombination(to.instanceState, to.serviceState, to.role);
      if verdict.Refused? then Some(verdict.code) else None
  }

  /** The legality table, read row by row: a running service needs a role, a preparing container
      carries no live one, a released one none at all; LOST tolerates any known service state. */
  lemma LegalTable(row: Instance)
    ensures LegalRow(row) <==>
      && !row.instanceState.OtherInstanceState? && !row.serviceState.OtherServiceState?
      && (row.serviceState in {Starting, Healthy, Registering, Serving, Draining} ==> row.role in {Prefill, Decode, Regular})
      && (row.serviceState != NoService ==> row.instanceState in {Preparing, Idle, Releasing, Lost})
      && (row.instanceState == Preparing ==> row.serviceState in {NoService, Failed})
      && (row.instanceState == Releasing ==> row.serviceState in {NoService, Draining, Failed})
  {
  }
}
