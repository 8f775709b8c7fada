/** Which pool a gear stands for, which gear a round plans by, and when a round plans at all: said of the
    decisions the planner returns. */
module PlannerTargets {
  import opened Domain
  import opened PlannerTypes
  import opened PlannerPhases
  import opened PlannerRound
  import opened PlannerPacing
  import opened PlannerConvergence

  // ------------------------------------------------------------ the share

  /** `p` is num/den of `total` rounded down; from two on it is moved to leave both roles one at least. */
  predicate IsShare(p: int, total: int, num: int, den: int) {
    if total < 2 then den * p <= num * total < den * (p + 1)
    else
      && 1 <= p <= total - 1
      && (den * p <= num * total || p == 1)
      && (num * total < den * (p + 1) || p == total - 1)
  }

  /** Prefill gets one of three, one of two, or two of three. */
  predicate IsPrefillShare(gear: Gear, p: int, total: int) {
    || (gear == DecodeHeavy && IsShare(p, total, 1, 3))
    || (gear == Even && IsShare(p, total, 1, 2))
    || (gear == PrefillHeavy && IsShare(p, total, 2, 3))
  }

  lemma ShareIsUnique(gear: Gear, p: int, q: int, total: int)
    requires IsPrefillShare(gear, p, total) && IsPrefillShare(gear, q, total)
    ensures p == q
  {
  }

  /** How many of the available instances a pool may use. */
  function Usable(available: nat, maxServing: int): nat {
    if 0 < maxServing < available then maxServing else available
  }

  lemma TargetsAreShares(config: Config, gear: Gear, servingPD: nat, idle: nat)
    requires Supported(gear)
    ensures var t := TargetsFor(config, gear, servingPD, idle);
      && t.total == Usable(servingPD + idle, config.maxServing) && t.prefill + t.decode == t.total
      && IsPrefillShare(gear, t.prefill, t.total)
  {
  }

  // ----------------------------------------------------------- the decision

  /** Less than a cooldown has passed since the last change. */
  predicate WithinCooldown(st: State, now: Time) {
    st.config.cooldown > 0 && st.lastChangeAt != ZERO_TIME && now < st.lastChangeAt + st.config.cooldown
  }

  /** Everybody a round may count on: what serves in one of the two roles, and what is idle. */
  function Available(input: Input): nat { Count(input.serving, Prefill) + Count(input.serving, Decode) + |input.idle| }

  lemma TargetsOfPlan(config: Config, gear: Gear, moved: bool, input: Input, now: Time)
    ensures PlanPD(config, gear, moved, input, now).0
         == TargetsFor(config, gear, Count(input.serving, Prefill) + Count(input.serving, Decode), |input.idle|)
  {
  }

  lemma RoundPlansByItsGear(st: State, input: Input, now: Time)
    requires st.config.mode != Aggregated && Round(st, input, now).Rounded? && !Cooling(st, now)
    ensures var d := Round(st, input, now).decision;
      var t := TargetsFor(st.config, d.effectiveGear, Count(input.serving, Prefill) + Count(input.serving, Decode), |input.idle|);
      && Supported(d.effectiveGear) && d.targetRegular == 0
      && d.targetPrefill == t.prefill && d.targetDecode == t.decode
  {
    var (gear, moved) := if st.config.mode == Auto then AutoStep(st.config, GearOf(st), input.load) else (GearOf(st), false);
    OneRung(st.config, GearOf(st), input.load);
    TargetsOfPlan(st.config, gear, moved, input, now);
    assert Round(st, input, now).decision.effectiveGear == gear;
  }

  lemma CoolingRound(st: State, input: Input, now: Time)
    requires Round(st, input, now).Rounded? && Cooling(st, now)
    ensures var d := Round(st, input, now).decision;
      && d.targetPrefill == 0 && d.targetDecode == 0 && d.targetRegular == 0 && d.actions == []
      && Round(st, input, now).next == st
  {
  }

  lemma RoundCounts(st: State, input: Input, now: Time)
    requires Round(st, input, now).Rounded?
    ensures var d := Round(st, input, now).decision;
      d.servingCount == |input.serving| && d.idleCount == |input.idle|
  {
  }

  /** The targets a round reports are the share of its gear in the instances it may use, the rest to
      decode; within the cooldown it reports none, plans nothing and remembers nothing. */
  lemma TargetsAreTheGears(st: State, input: Input, now: Time)
    requires st.config.mode != Aggregated && Round(st, input, now).Rounded?
    ensures var d := Round(st, input, now).decision;
      && d.servingCount == |input.serving| && d.idleCount == |input.idle| && d.targetRegular == 0
      && (if WithinCooldown(st, now)
          then d.targetPrefill == 0 && d.targetDecode == 0 && d.actions == [] && Round(st, input, now).next == st
          else
            && d.targetPrefill + d.targetDecode == Usable(Available(input), st.config.maxServing)
            && IsPrefillShare(d.effectiveGear, d.targetPrefill, d.targetPrefill + d.targetDecode))
  {
    RoundCounts(st, input, now);
    if Cooling(st, now) {
      CoolingRound(st, input, now);
    } else {
      RoundPlansByItsGear(st, input, now);
      TargetsAreShares(st.config, Round(st, input, now).decision.effectiveGear,
                       Count(input.serving, Prefill) + Count(input.serving, Decode), |input.idle|);
    }
  }

  lemma AggregatedTargets(st: State, input: Input, now: Time)
    requires st.config.mode == Aggregated
    ensures Round(st, input, now).Rounded?
    ensures var d := Round(st, input, now).decision;
      && d.servingCount == |input.serving| && d.idleCount == |input.idle| && d.targetPrefill == 0 && d.targetDecode == 0
      && (if WithinCooldown(st, now) then d.targetRegular == 0 && d.actions == [] && Round(st, input, now).next == st
          else d.targetRegular == Usable(|input.serving| + |input.idle|, st.config.maxServing))
  {
  }

  // ------------------------------------------------------------ the cooldown

  ghost predicate DistinctMoments(cs: seq<Command>) {
    forall k | 0 <= k < |cs| && cs[k].DoPlan? :: cs[k].now != ZERO_TIME
  }

  /** The change at `i` is the last one before `j`. */
  ghost predicate LastChange(st: State, cs: seq<Command>, i: nat, j: nat)
    requires i < j < |cs|
  {
    ChangesAt(st, cs, i) && forall k | i < k < j :: !ChangesAt(st, cs, k)
  }

  lemma {:induction false} ClockKept(h: History, cooldown: int, i: nat, j: nat)
    requires h.Paced(cooldown) && i < j <= |h.now| && h.changed[i] && forall k | i < k < j :: !h.changed[k]
    ensures h.clock[j] == h.now[i]
    decreases j
  {
    if i < j - 1 {
      ClockKept(h, cooldown, i, j - 1);
    }
  }

  lemma ClockSince(st: State, cs: seq<Command>, i: nat, j: nat)
    requires st.config.cooldown > 0 && DistinctMoments(cs)
    requires i < j < |cs| && LastChange(st, cs, i, j)
    ensures StateAt(st, cs, j).lastChangeAt == cs[i].now
  {
    RunsArePaced(st, cs);
    var h := HistoryOf(st, cs);
    assert h.clock[j] == StateAt(st, cs, j).lastChangeAt && h.changed[i] && h.now[i] == cs[i].now;
    ClockKept(h, st.config.cooldown, i, j);
  }

  /** After a change a round plans again exactly once the cooldown is over: before, it plans for nobody;
      from then on, for everybody it may use. */
  lemma PlansAgainExactlyAfterCooldown(st: State, cs: seq<Command>, i: nat, j: nat)
    requires OnLadder(st) && st.config.cooldown > 0 && DistinctMoments(cs)
    requires i < j < |cs| && LastChange(st, cs, i, j) && cs[j].DoPlan? && Available(cs[j].input) > 0
    ensures Round(StateAt(st, cs, j), cs[j].input, cs[j].now).Rounded?
    ensures var d := Round(StateAt(st, cs, j), cs[j].input, cs[j].now).decision;
      && (cs[j].now - cs[i].now >= st.config.cooldown <==> d.targetPrefill + d.targetDecode + d.targetRegular > 0)
      && (cs[j].now - cs[i].now < st.config.cooldown ==> d.actions == [])
  {
    var before, input, now := StateAt(st, cs, j), cs[j].input, cs[j].now;
    StaysOnLadder(st, cs, j);
    CooldownKept(st, cs, j);
    ClockSince(st, cs, i, j);
    if before.config.mode == Aggregated {
      AggregatedTargets(before, input, now);
      assert input.serving == [] ==> Count(input.serving, Prefill) == 0 && Count(input.serving, Decode) == 0;
    } else {
      TargetsAreTheGears(before, input, now);
    }
  }

  // -------------------------------------------------------------- the ladder

  /** The neighbours on the ladder, towards prefill. */
  predicate TowardsPrefill(from: Gear, to: Gear) {
    (from == DecodeHeavy && to == Even) || (from == Even && to == PrefillHeavy)
  }

  /** The load calls for a rung: a complete sample, something waiting, and a gap beyond the dead band. */
  predicate CallsForPrefill(config: Config, load: LoadSnapshot) {
    && load.valid && load.prefillPressure.Some? && load.decodePressure.Some? && load.queueLength > 0.0
    && load.prefillPressure.value - load.decodePressure.value > (if config.autoDeadBand > 0.0 then config.autoDeadBand else 0.2)
  }

  predicate CallsForDecode(config: Config, load: LoadSnapshot) {
    && load.valid && load.prefillPressure.Some? && load.decodePressure.Some? && load.queueLength > 0.0
    && load.decodePressure.value - load.prefillPressure.value > (if config.autoDeadBand > 0.0 then config.autoDeadBand else 0.2)
  }

  /** The gear a round in auto mode finds: the one remembered, or the configured one. */
  lemma GearOfRound(st: State, input: Input, now: Time)
    requires OnLadder(st)
    ensures Round(st, input, now).Rounded?
    ensures var d := Round(st, input, now).decision;
      var from := if st.autoGear == OtherGear("") then st.config.gear else st.autoGear;
      && (st.config.mode !in {Auto, Aggregated} ==> d.effectiveGear == st.config.gear)
      && (st.config.mode == Auto ==>
            && (TowardsPrefill(from, d.effectiveGear)
                <==> !WithinCooldown(st, now) && CallsForPrefill(st.config, input.load) && from != PrefillHeavy)
            && (TowardsPrefill(d.effectiveGear, from)
                <==> !WithinCooldown(st, now) && CallsForDecode(st.config, input.load) && from != DecodeHeavy)
            && (d.effectiveGear == from || TowardsPrefill(from, d.effectiveGear) || TowardsPrefill(d.effectiveGear, from)))
  {
  }

  /** From one round in auto mode to the next the gear climbs one rung exactly when the load of the next
      calls for prefill, descends one exactly when it calls for decode, and else stays. */
  lemma GearFollowsTheLoad(st: State, first: Command, second: Command)
    requires OnLadder(st) && st.config.mode == Auto && first.DoPlan? && second.DoPlan?
    ensures Round(st, first.input, first.now).Rounded? && Round(Step(st, first), second.input, second.now).Rounded?
    ensures var from := Round(st, first.input, first.now).decision.effectiveGear;
      var after := Step(st, first);
      var to := Round(after, second.input, second.now).decision.effectiveGear;
      && (TowardsPrefill(from, to)
          <==> !WithinCooldown(after, second.now) && CallsForPrefill(st.config, second.input.load) && from != PrefillHeavy)
      && (TowardsPrefill(to, from)
          <==> !WithinCooldown(after, second.now) && CallsForDecode(st.config, second.input.load) && from != DecodeHeavy)
      && (to == from || TowardsPrefill(from, to) || TowardsPrefill(to, from))
  {
    StepStaysOnLadder(st, first);
    OneRung(st.config, GearOf(st), first.input.load);
    GearOfRound(Step(st, first), second.input, second.now);
  }

  // ----------------------------------------------------------- where it rests

  /** A pool that a fixed planner leads to its target rests with the share of its gear: so many prefill
      workers, the rest decode. */
  lemma RestsAtTheShare(config: Config, states: seq<State>, inputs: seq<Input>, nows: seq<Time>, i: nat)
    requires Consecutive(config, states, inputs, nows) && i < |inputs|
    requires i * config.maxChangePerRound >= GapOf(RoundAt(config, inputs, nows, 0))
    ensures inputs[i].idle == [] && Round(states[i], inputs[i], nows[i]).decision.actions == []
    ensures IsPrefillShare(config.gear, Count(inputs[i].serving, Prefill), |inputs[i].serving|)
    ensures Count(inputs[i].serving, Prefill) + Count(inputs[i].serving, Decode) == |inputs[i].serving|
  {
    ReachesTargetAndRests(config, states, inputs, nows, i);
    var r := RoundAt(config, inputs, nows, i);
    QueueIsEveryone(r);
    TargetsAreShares(config, config.gear, r.Prefills() + r.Decodes(), |inputs[i].idle|);
  }
}
