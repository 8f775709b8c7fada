/** The planner over time: how often it may change anything, how its gear moves, and when it can
    refuse a round. */
module PlannerPacing {
  import opened Domain
  import opened PlannerTypes
  import opened PlannerRound

  // ------------------------------------------------------------------- runs

  /** Everything that can be done to a planner; `now` is the non-zero clock reading of a round. */
  datatype Command = DoPlan(input: Input, now: Time) | DoSetGear(gear: Gear) | DoSetMode(mode: Mode)

  ghost function Step(st: State, c: Command): State {
    match c
    case DoPlan(input, now) => (match Round(st, input, now) case UnsupportedGear => st case Rounded(next, _) => next)
    case DoSetGear(gear) => if Supported(gear) then st.(config := st.config.(gear := gear), autoGear := gear) else st
    case DoSetMode(mode) =>
      if mode.OtherMode? then st
      else st.(config := st.config.(mode := if mode == Unset then Fixed else mode), autoGear := st.config.gear)
  }

  ghost function StateAt(st: State, cs: seq<Command>, i: nat): State
    requires i <= |cs|
  {
    if i == 0 then st else Step(StateAt(st, cs, i - 1), cs[i - 1])
  }

  function Fresh(config: Config): State { State(config, ZERO_TIME, NO_GEAR) }

  /** The round emits an action or moves the gear. */
  ghost predicate Changes(st: State, c: Command) {
    && c.DoPlan? && Round(st, c.input, c.now).Rounded?
    && var r := Round(st, c.input, c.now);
       r.decision.actions != [] || r.next.autoGear != st.autoGear
  }

  ghost predicate ChangesAt(st: State, cs: seq<Command>, i: nat)
    requires i < |cs|
  {
    Changes(StateAt(st, cs, i), cs[i])
  }

  // ----------------------------------------------------------------- pacing

  /** The gear moves one rung at a time, towards the role under more pressure, and only on a complete
      sample with something queued and a gap beyond the dead band. */
  lemma OneRung(config: Config, current: Gear, load: LoadSnapshot)
    ensures var (next, moved) := AutoStep(config, current, load);
      && (!moved ==> next == current)
      && (moved <==>
            && load.Complete() && load.queueLength > 0.0 && Abs(load.Gap()) > config.DeadBand() && Supported(current)
            && (load.Gap() > 0.0 ==> current != PrefillHeavy) && (load.Gap() < 0.0 ==> current != DecodeHeavy))
      && (moved ==>
            && Supported(next)
            && IndexOnLadder(next) == IndexOnLadder(current)
                 + (if load.prefillPressure.value > load.decodePressure.value then 1 else -1))
  {
  }

  /** A round changes something only when the cooldown of the last change is over, and then becomes
      the last change itself; any other command leaves that clock alone. */
  lemma ChangeRestartsCooldown(st: State, c: Command)
    ensures Step(st, c).config.cooldown == st.config.cooldown
    ensures Changes(st, c) ==> !Cooling(st, c.now) && Step(st, c).lastChangeAt == c.now
    ensures !Changes(st, c) ==> Step(st, c).lastChangeAt == st.lastChangeAt
  {
    if c.DoPlan? && Round(st, c.input, c.now).Rounded? && !Cooling(st, c.now) && st.config.NormalisedMode() != Aggregated {
      var mode := st.config.NormalisedMode();
      var (gear, moved) := if mode == Auto then AutoStep(st.config, GearOf(st), c.input.load) else (GearOf(st), false);
      if moved {
        OneRung(st.config, GearOf(st), c.input.load);
        assert gear != GearOf(st) && Round(st, c.input, c.now).next.autoGear == gear;
      }
    }
  }

  /** A change clock and the moments at which it is consulted: `clock[k]` is its value before moment
      `k`, `now[k]` the reading of that moment, `changed[k]` whether something changed. */
  datatype History = History(clock: seq<Time>, now: seq<Time>, changed: seq<bool>)
  {
    ghost predicate Paced(cooldown: int) {
      && |clock| == |now| + 1 && |changed| == |now|
      && forall k | 0 <= k < |now| ::
           && clock[k + 1] == (if changed[k] then now[k] else clock[k])
           && (changed[k] ==> now[k] != ZERO_TIME && (clock[k] == ZERO_TIME || now[k] - clock[k] >= cooldown))
    }

    /** Changes at moments in [i, j). */
    ghost function Count(i: nat, j: nat): nat
      requires i <= j <= |changed|
    {
      if i == j then 0 else Count(i, j - 1) + if changed[j - 1] then 1 else 0
    }
  }

  lemma OneMore(n: int, cooldown: int)
    ensures (n + 1) * cooldown == n * cooldown + cooldown
  {
  }

  /** After a change the clock runs one cooldown per further change ahead of it. */
  lemma {:induction false} ClockAfterChanges(h: History, cooldown: int, i: nat, j: nat)
    requires cooldown > 0 && h.Paced(cooldown) && i < j <= |h.now| && h.changed[i]
    ensures h.Count(i, j) >= 1 && h.clock[j] != ZERO_TIME
    ensures h.clock[j] >= h.now[i] + (h.Count(i, j) - 1) * cooldown
    decreases j
  {
    if j > i + 1 {
      ClockAfterChanges(h, cooldown, i, j - 1);
      if h.changed[j - 1] {
        OneMore(h.Count(i, j - 1) - 1, cooldown);
      }
    } else {
      assert h.Count(i, i) == 0;
    }
  }

  lemma MomentsApart(h: History, cooldown: int, i: nat, j: nat)
    requires cooldown > 0 && h.Paced(cooldown) && i < j < |h.now| && h.changed[i] && h.changed[j]
    ensures h.Count(i, j) >= 1 && h.now[j] - h.now[i] >= h.Count(i, j) * cooldown
  {
    ClockAfterChanges(h, cooldown, i, j);
    OneMore(h.Count(i, j) - 1, cooldown);
  }

  /** What the commands of a run did to the change clock. */
  ghost function HistoryOf(st: State, cs: seq<Command>): History {
    History(seq(|cs| + 1, k requires 0 <= k <= |cs| => StateAt(st, cs, k).lastChangeAt),
            seq(|cs|, k requires 0 <= k < |cs| => if cs[k].DoPlan? then cs[k].now else ZERO_TIME),
            seq(|cs|, k requires 0 <= k < |cs| => ChangesAt(st, cs, k)))
  }

  lemma {:induction false} CooldownKept(st: State, cs: seq<Command>, i: nat)
    requires i <= |cs|
    ensures StateAt(st, cs, i).config.cooldown == st.config.cooldown
  {
    if i > 0 {
      CooldownKept(st, cs, i - 1);
      ChangeRestartsCooldown(StateAt(st, cs, i - 1), cs[i - 1]);
    }
  }

  lemma RunsArePaced(st: State, cs: seq<Command>)
    requires st.config.cooldown > 0 && forall k | 0 <= k < |cs| && cs[k].DoPlan? :: cs[k].now != ZERO_TIME
    ensures HistoryOf(st, cs).Paced(st.config.cooldown)
  {
    forall k | 0 <= k < |cs|
      ensures StateAt(st, cs, k + 1).lastChangeAt == (if ChangesAt(st, cs, k) then cs[k].now else StateAt(st, cs, k).lastChangeAt)
      ensures ChangesAt(st, cs, k) ==>
        var last := StateAt(st, cs, k).lastChangeAt;
        cs[k].DoPlan? && (last == ZERO_TIME || cs[k].now - last >= st.config.cooldown)
    {
      CooldownKept(st, cs, k);
      ChangeRestartsCooldown(StateAt(st, cs, k), cs[k]);
    }
  }

  /** Any two rounds that change something are at least one cooldown apart for every change from the
      first to the second - whatever the clock did in between, and whatever gear or mode was set. */
  lemma ChangesAreCooldownApart(st: State, cs: seq<Command>, i: nat, j: nat)
    requires st.config.cooldown > 0 && forall k | 0 <= k < |cs| && cs[k].DoPlan? :: cs[k].now != ZERO_TIME
    requires i < j < |cs| && ChangesAt(st, cs, i) && ChangesAt(st, cs, j)
    ensures HistoryOf(st, cs).Count(i, j) >= 1
    ensures cs[j].now - cs[i].now >= HistoryOf(st, cs).Count(i, j) * st.config.cooldown
  {
    RunsArePaced(st, cs);
    var h := HistoryOf(st, cs);
    assert h.changed[i] && h.changed[j] && h.now[j] == cs[j].now && h.now[i] == cs[i].now;
    MomentsApart(h, st.config.cooldown, i, j);
  }

  lemma AtLeastNothing(n: int, cooldown: int)
    requires n >= 0 && cooldown > 0
    ensures n * cooldown >= 0
  {
  }

  lemma Bigger(n: int, q: int, cooldown: int)
    requires n > q && cooldown > 0
    ensures n * cooldown >= q * cooldown + cooldown
  {
    var d := n - q - 1;
    AtLeastNothing(d, cooldown);
    assert n * cooldown == q * cooldown + cooldown + d * cooldown;
  }

  lemma FitsInto(n: nat, cooldown: int, window: nat)
    requires cooldown > 0 && n * cooldown <= window
    ensures n <= window / cooldown
  {
    var q, rest := window / cooldown, window % cooldown;
    assert window == q * cooldown + rest && rest < cooldown;
    if n > q {
      Bigger(n, q, cooldown);
    }
  }

  /** Rounds `i` to `j` lie in a window; at most window / cooldown + 1 of them change something. */
  lemma WindowHoldsFewChanges(st: State, cs: seq<Command>, i: nat, j: nat, window: nat)
    requires st.config.cooldown > 0 && forall k | 0 <= k < |cs| && cs[k].DoPlan? :: cs[k].now != ZERO_TIME
    requires i < j < |cs| && ChangesAt(st, cs, i) && ChangesAt(st, cs, j)
    requires cs[j].now - cs[i].now <= window
    ensures HistoryOf(st, cs).Count(i, j + 1) <= window / st.config.cooldown + 1
  {
    ChangesAreCooldownApart(st, cs, i, j);
    FitsInto(HistoryOf(st, cs).Count(i, j), st.config.cooldown, window);
  }

  // -------------------------------------------------------------- the ladder

  /** Every remembered gear is on the ladder. */
  predicate OnLadder(st: State) {
    Supported(st.config.gear) && (st.autoGear == NO_GEAR || Supported(st.autoGear))
  }

  lemma StepStaysOnLadder(st: State, c: Command)
    requires OnLadder(st)
    ensures OnLadder(Step(st, c)) && Supported(GearOf(Step(st, c)))
  {
    if c.DoPlan? {
      OneRung(st.config, GearOf(st), c.input.load);
    }
  }

  lemma {:induction false} StaysOnLadder(st: State, cs: seq<Command>, i: nat)
    requires OnLadder(st) && i <= |cs|
    ensures OnLadder(StateAt(st, cs, i)) && Supported(GearOf(StateAt(st, cs, i)))
  {
    if i > 0 {
      StaysOnLadder(st, cs, i - 1);
      StepStaysOnLadder(StateAt(st, cs, i - 1), cs[i - 1]);
    }
  }

  /** The gear a run plans by moves at most one rung in any round. */
  lemma GearMovesOneRung(st: State, c: Command)
    requires OnLadder(st) && c.DoPlan?
    ensures Round(st, c.input, c.now).Rounded?
    ensures var from, to := IndexOnLadder(GearOf(st)), IndexOnLadder(GearOf(Step(st, c)));
      && -1 <= to - from <= 1
      && (to != from ==>
            && st.config.NormalisedMode() == Auto && c.input.load.Complete()
            && (to > from <==> c.input.load.prefillPressure.value > c.input.load.decodePressure.value))
  {
    OneRung(st.config, GearOf(st), c.input.load);
  }

  /** Some sequence of commands leads to a round the planner refuses. */
  ghost predicate CanRefuse(config: Config) {
    exists cs: seq<Command>, input: Input, now: Time :: Round(StateAt(Fresh(config), cs, |cs|), input, now).UnsupportedGear?
  }

  /** A planner built from a valid configuration can come to refuse a round exactly when it was built
      without a supported gear - which validation only lets through in aggregated mode. */
  lemma RefusesExactlyWhen(config: Config, some: Input)
    requires config.Valid()
    ensures CanRefuse(config) <==> !Supported(config.gear)
    ensures CanRefuse(config) ==> config.mode == Aggregated
  {
    if Supported(config.gear) {
      forall cs: seq<Command>, input: Input, now: Time
        ensures Round(StateAt(Fresh(config), cs, |cs|), input, now).Rounded?
      {
        StaysOnLadder(Fresh(config), cs, |cs|);
      }
    } else {
      var cs := [DoSetMode(Fixed)];
      var st := StateAt(Fresh(config), cs, 1);
      assert StateAt(Fresh(config), cs, 0) == Fresh(config);
      assert st.config.NormalisedMode() == Fixed && GearOf(st) == config.gear;
      assert Round(StateAt(Fresh(config), cs, |cs|), some, 1).UnsupportedGear?;
    }
  }
}
