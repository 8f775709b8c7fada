/** One round of the capacity planner: which gear applies, which capacity verb comes first, and how
    the phases are put together; and the planner object that carries gear and cooldown between rounds. */
module PlannerRound {
  import opened Domain
  import opened PlannerTypes
  import opened PlannerPhases

  // ------------------------------------------------------------------ gear

  /** The gear this round uses, and whether the load moved it one rung. */
  function AutoStep(config: Config, current: Gear, load: LoadSnapshot): (Gear, bool) {
    if !load.Complete() || load.queueLength <= 0.0 || Abs(load.Gap()) <= config.DeadBand() then (current, false)
    else GearStep(current, if load.Gap() < 0.0 then -1 else 1)
  }

  // -------------------------------------------------------------- capacity

  /** Asks for one instance of the role the ladder cannot help any more.  `Answered` without an action
      means the question is settled and nothing is asked. */
  datatype Answer = Pass | Answered(action: Option<Action>)

  function ProvisionStep(config: Config, gear: Gear, input: Input): Answer
    requires input.load.Complete()
  {
    var load := input.load;
    if load.queueLength <= 0.0 || Abs(load.Gap()) <= config.DeadBand() then Pass
    else if GearStep(gear, if load.Gap() > 0.0 then 1 else -1).1 then Pass
    else if input.serving == [] then Answered(None)
    else Answered(Some(Action(Provision, None, if load.Gap() > 0.0 then Prefill else Decode, NoRole)))
  }

  /** The less loaded role; decode when both are equally loaded and it is at least as large. */
  function LessLoaded(load: LoadSnapshot, prefill: int, decode: int): Role
    requires load.Complete()
  {
    if load.Gap() > 0.0 || (load.Gap() == 0.0 && decode >= prefill) then Decode else Prefill
  }

  predicate PoolIdle(config: Config, load: LoadSnapshot) {
    && load.Complete() && load.queueLength <= 0.0
    && load.prefillPressure.value <= config.ReleaseBelow() && load.decodePressure.value <= config.ReleaseBelow()
  }

  function ReleaseOf(id: int, role: Role): Action { Action(Release, Some(id), role, role) }

  ghost function ReleaseStep(config: Config, input: Input, planned: seq<Action>): Option<Action> {
    if !PoolIdle(config, input.load) then None
    else if input.idle != [] then Some(ReleaseOf(input.idle[0].id, NoRole))
    else
      var prefill, decode := Count(input.serving, Prefill), |input.serving| - Count(input.serving, Prefill);
      var role := LessLoaded(input.load, prefill, decode);
      if prefill == 0 || decode == 0 || (if role == Prefill then prefill else decode) <= 1 then None
      else
        var c := NextConversion(input.serving, planned, input.now, config.minHold, role);
        if c.None? then None else Some(ReleaseOf(c.value.id, role))
  }

  ghost function CapacityStep(config: Config, gear: Gear, input: Input, planned: seq<Action>, rungMoved: bool): Option<Action> {
    if !input.load.Complete() || input.provisioning > 0 || input.recovering != []
    || |planned| >= config.maxChangePerRound then None
    else
      var asked := if rungMoved then Pass else ProvisionStep(config, gear, input);
      if asked.Answered? then asked.action else ReleaseStep(config, input, planned)
  }

  method CountOthers(cs: seq<Candidate>) returns (prefill: nat, others: nat)
    ensures prefill == Count(cs, Prefill) && others == |cs| - prefill
  {
    prefill, others := 0, 0;
    for i := 0 to |cs|
      invariant prefill == Count(cs[..i], Prefill) && others == i - prefill
    {
      assert cs[..i + 1][..i] == cs[..i];
      if cs[i].role == Prefill {
        prefill := prefill + 1;
      } else {
        others := others + 1;
      }
    }
    assert cs[..|cs|] == cs;
  }

  method ComputeRelease(config: Config, input: Input, planned: seq<Action>) returns (action: Option<Action>)
    ensures action == ReleaseStep(config, input, planned)
  {
    if !PoolIdle(config, input.load) {
      return None;
    }
    if |input.idle| > 0 {
      return Some(ReleaseOf(input.idle[0].id, NoRole));
    }
    var prefill, decode := CountOthers(input.serving);
    if prefill == 0 || decode == 0 {
      return None;
    }
    var role, count := Prefill, prefill;
    var load := input.load;
    if load.decodePressure.value < load.prefillPressure.value {
      role, count := Decode, decode;
    } else if load.prefillPressure.value == load.decodePressure.value && decode >= prefill {
      role, count := Decode, decode;
    }
    if count <= 1 {
      return None;
    }
    var c := FindConversion(input.serving, planned, input.now, config.minHold, role);
    if c.None? {
      return None;
    }
    return Some(ReleaseOf(c.value.id, role));
  }

  // ------------------------------------------------------- prefill and decode

  /** What the disaggregated pool should look like. */
  datatype Targets = Targets(total: nat, prefill: int, decode: int)

  function TargetsFor(config: Config, gear: Gear, servingPD: nat, idle: nat): (t: Targets)
  {
    var available := servingPD + idle;
    var total := if config.maxServing > 0 && available > config.maxServing then config.maxServing else available;
    var floor := PrefillShare(gear, total);
    var prefill := if total >= 2 then (if floor < 1 then 1 else if floor > total - 1 then total - 1 else floor) else floor;
    Targets(total, prefill, total - prefill)
  }

  ghost function PlanPD(config: Config, gear: Gear, rungMoved: bool, input: Input, now: Time): (Targets, seq<Action>) {
    var prefill, decode := Count(input.serving, Prefill), Count(input.serving, Decode);
    var t := TargetsFor(config, gear, prefill + decode, |input.idle|);
    var cap := config.maxChangePerRound;
    var queue := Movable(input.serving, now, config.minHold);
    var drained := DrainRegular(queue, [], cap);
    var verb := if config.capacityActions && config.NormalisedMode() == Auto
                then CapacityStep(config, gear, input, drained, rungMoved) else None;
    var reserved := if verb.Some? then drained + [verb.value] else drained;
    var w := DrainSurplus(queue, Work(reserved, prefill, decode), t.prefill, t.decode, prefill + decode - t.total, cap);
    var filled := FillIdle(SortById(input.idle), w, t.prefill, t.decode, t.total, cap);
    (t, Convert(queue, filled, t.prefill, t.decode, cap).actions)
  }

  method ComputeCapacity(config: Config, gear: Gear, input: Input, planned: seq<Action>, rungMoved: bool)
    returns (verb: Option<Action>)
    ensures verb == CapacityStep(config, gear, input, planned, rungMoved)
  {
    if !input.load.Complete() {
      return None;
    }
    if input.provisioning > 0 || |input.recovering| > 0 || |planned| >= config.maxChangePerRound {
      return None;
    }
    if !rungMoved {
      var asked := ProvisionStep(config, gear, input);
      if asked.Answered? {
        return asked.action;
      }
    }
    verb := ComputeRelease(config, input, planned);
  }

  method ComputePD(config: Config, gear: Gear, rungMoved: bool, input: Input, now: Time)
    returns (t: Targets, actions: seq<Action>)
    ensures (t, actions) == PlanPD(config, gear, rungMoved, input, now)
  {
    var prefill, decode := CountRoles(input.serving);
    t := TargetsFor(config, gear, prefill + decode, |input.idle|);
    var cap := config.maxChangePerRound;
    actions := DrainRegularWorkers(input.serving, now, config.minHold, cap);
    if config.capacityActions && config.NormalisedMode() == Auto {
      var verb := ComputeCapacity(config, gear, input, actions, rungMoved);
      if verb.Some? {
        actions := actions + [verb.value];
      }
    }
    var w := DrainSurplusWorkers(input.serving, now, config.minHold, Work(actions, prefill, decode),
                                 t.prefill, t.decode, prefill + decode - t.total, cap);
    w := FillFromIdle(SortById(input.idle), w, t.prefill, t.decode, t.total, cap);
    w := ConvertWorkers(input.serving, now, config.minHold, w, t.prefill, t.decode, cap);
    actions := w.actions;
  }

  // ------------------------------------------------------------- aggregated

  datatype Surplus = Surplus(actions: seq<Action>, left: int)

  /** Takes out what cannot serve: surplus first, then anything that is not a regular worker. */
  ghost function DrainAggregated(queue: seq<Candidate>, s: Surplus, cap: int): Surplus {
    if queue == [] || |s.actions| >= cap then s
    else if s.left > 0 then DrainAggregated(queue[1..], Surplus(s.actions + [DrainOf(queue[0])], s.left - 1), cap)
    else if queue[0].role != Regular then DrainAggregated(queue[1..], s.(actions := s.actions + [DrainOf(queue[0])]), cap)
    else DrainAggregated(queue[1..], s, cap)
  }

  ghost function FillAggregated(idle: seq<Candidate>, actions: seq<Action>, regular: int, target: int, cap: int): seq<Action> {
    if idle == [] || regular >= target || |actions| >= cap then actions
    else if Planned(actions, idle[0].id) then FillAggregated(idle[1..], actions, regular, target, cap)
    else FillAggregated(idle[1..], actions + [AssignOf(idle[0], Regular)], regular + 1, target, cap)
  }

  function AggregatedTarget(config: Config, input: Input): int {
    var total := |input.serving| + |input.idle|;
    if config.maxServing > 0 && total > config.maxServing then config.maxServing else total
  }

  ghost function PlanAggregated(config: Config, input: Input, now: Time): seq<Action> {
    var target := AggregatedTarget(config, input);
    var cap := config.maxChangePerRound;
    var drained := DrainAggregated(Movable(input.serving, now, config.minHold),
                                   Surplus([], |input.serving| + |input.idle| - target), cap).actions;
    FillAggregated(SortById(input.idle), drained, CountFree(input.serving, drained, Regular), target, cap)
  }

  method CountStaying(cs: seq<Candidate>, actions: seq<Action>) returns (regular: nat)
    ensures regular == CountFree(cs, actions, Regular)
  {
    regular := 0;
    for i := 0 to |cs|
      invariant regular == CountFree(cs[..i], actions, Regular)
    {
      assert cs[..i + 1][..i] == cs[..i];
      var planned := AlreadyPlanned(actions, cs[i].id);
      if cs[i].role == Regular && !planned {
        regular := regular + 1;
      }
    }
    assert cs[..|cs|] == cs;
  }

  method ComputeAggregated(config: Config, input: Input, now: Time) returns (target: int, actions: seq<Action>)
    ensures target == AggregatedTarget(config, input) && actions == PlanAggregated(config, input, now)
  {
    target := AggregatedTarget(config, input);
    var cap := config.maxChangePerRound;
    var surplus := |input.serving| + |input.idle| - target;
    actions := [];
    var queue := ComputeMovable(input.serving, now, config.minHold);
    ghost var all := DrainAggregated(queue, Surplus([], surplus), cap);
    for i := 0 to |queue|
      invariant DrainAggregated(queue[i..], Surplus(actions, surplus), cap) == all
    {
      assert queue[i..][1..] == queue[i + 1..];
      if |actions| >= cap {
        break;
      }
      if surplus > 0 {
        actions := actions + [DrainOf(queue[i])];
        surplus := surplus - 1;
      } else if queue[i].role != Regular {
        actions := actions + [DrainOf(queue[i])];
      }
    }
    var regular := CountStaying(input.serving, actions);
    var idle := SortById(input.idle);
    ghost var filled := FillAggregated(idle, actions, regular, target, cap);
    for i := 0 to |idle|
      invariant FillAggregated(idle[i..], actions, regular, target, cap) == filled
    {
      assert idle[i..][1..] == idle[i + 1..];
      if regular >= target || |actions| >= cap {
        break;
      }
      var planned := AlreadyPlanned(actions, idle[i].id);
      if planned {
        continue;
      }
      actions := actions + [AssignOf(idle[i], Regular)];
      regular := regular + 1;
    }
  }

  // ------------------------------------------------------------- the planner

  /** What a planner remembers between rounds. */
  datatype State = State(config: Config, lastChangeAt: Time, autoGear: Gear)

  function GearOf(st: State): Gear {
    if st.config.NormalisedMode() == Auto && st.autoGear != NO_GEAR then st.autoGear else st.config.gear
  }

  predicate Cooling(st: State, now: Time) {
    st.config.cooldown > 0 && st.lastChangeAt != ZERO_TIME && now - st.lastChangeAt < st.config.cooldown
  }

  datatype Outcome = UnsupportedGear | Rounded(next: State, decision: Decision)

  function Blank(st: State, input: Input): Decision {
    var gear := if st.config.NormalisedMode() == Aggregated then NO_GEAR else GearOf(st);
    Decision(st.config.NormalisedMode(), st.config.gear, gear, 0, 0, 0, |input.serving|, |input.idle|, [])
  }

  /** One round as a function of the remembered state; `now` is the round's non-zero clock reading. */
  ghost function Round(st: State, input: Input, now: Time): Outcome {
    var mode, blank := st.config.NormalisedMode(), Blank(st, input);
    if mode != Aggregated && !Supported(GearOf(st)) then UnsupportedGear
    else if Cooling(st, now) then Rounded(st, blank)
    else if mode == Aggregated then
      var actions := PlanAggregated(st.config, input, now);
      Rounded(if actions == [] then st else st.(lastChangeAt := now),
               blank.(targetRegular := AggregatedTarget(st.config, input), actions := actions))
    else
      var (gear, moved) := if mode == Auto then AutoStep(st.config, GearOf(st), input.load) else (GearOf(st), false);
      var (t, actions) := PlanPD(st.config, gear, moved, input, now);
      var stepped := if moved then st.(autoGear := gear) else st;
      Rounded(if moved || actions != [] then stepped.(lastChangeAt := now) else stepped,
               blank.(effectiveGear := gear, targetPrefill := t.prefill, targetDecode := t.decode, actions := actions))
  }

  class Planner {
    var config: Config
    var lastChangeAt: Time
    var autoGear: Gear
    var lastLoad: Option<LoadSnapshot>

    ghost function Remembered(): State
      reads this
    {
      State(config, lastChangeAt, autoGear)
    }

    constructor (config: Config)
      requires config.Valid()
      ensures Remembered() == State(config, ZERO_TIME, NO_GEAR)
    {
      this.config, lastChangeAt, autoGear, lastLoad := config, ZERO_TIME, NO_GEAR, None;
    }

    method SetGear(gear: Gear) returns (ok: bool)
      modifies this
      ensures ok <==> Supported(gear)
      ensures Remembered() == if ok then old(Remembered()).(config := old(config).(gear := gear), autoGear := gear)
                              else old(Remembered())
    {
      if gear !in LADDER {
        return false;
      }
      config := config.(gear := gear);
      autoGear := gear;
      return true;
    }

    method SetMode(requested: Mode) returns (ok: bool)
      modifies this
      ensures ok <==> !requested.OtherMode?
      ensures Remembered() ==
              if ok
              then old(Remembered()).(config := old(config).(mode := if requested == Unset then Fixed else requested),
                                      autoGear := old(config).gear)
              else old(Remembered())
    {
      var mode := if requested == Unset then Fixed else requested;
      if mode != Fixed && mode != Auto && mode != Aggregated {
        return false;
      }
      config := config.(mode := mode);
      autoGear := config.gear;
      return true;
    }

    /** Computes one round and remembers what it changed. */
    method Plan(input: Input, wallClock: Time) returns (ok: bool, decision: Decision)
      requires wallClock != ZERO_TIME
      modifies this
      ensures lastLoad == Some(input.load)
      ensures var now := if input.now == ZERO_TIME then wallClock else input.now;
        match Round(old(Remembered()), input, now)
        case UnsupportedGear => !ok && Remembered() == old(Remembered())
        case Rounded(next, d) => ok && decision == d && Remembered() == next
    {
      lastLoad := Some(input.load);
      var now := if input.now == ZERO_TIME then wallClock else input.now;
      var mode := config.NormalisedMode();
      var st := State(config, lastChangeAt, autoGear);
      var gear := GearOf(st);
      decision := Blank(st, input);
      if mode != Aggregated && gear !in LADDER {
        return false, decision;
      }
      ok := true;
      if config.cooldown > 0 && lastChangeAt != ZERO_TIME && now - lastChangeAt < config.cooldown {
        return;
      }
      if mode == Aggregated {
        var target, actions := ComputeAggregated(config, input, now);
        decision := decision.(targetRegular := target, actions := actions);
      } else {
        var rungMoved := false;
        if mode == Auto {
          var (next, moved) := AutoStep(config, gear, input.load);
          if moved {
            rungMoved := true;
            autoGear := next;
            gear := next;
            lastChangeAt := now;
          }
        }
        var t, actions := ComputePD(config, gear, rungMoved, input, now);
        decision := decision.(effectiveGear := gear, targetPrefill := t.prefill, targetDecode := t.decode, actions := actions);
      }
      if |decision.actions| > 0 {
        lastChangeAt := now;
      }
    }
  }
}
