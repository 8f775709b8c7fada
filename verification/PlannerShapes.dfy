/** The aggregated shape, and the guard rails that hold in both shapes. */
module PlannerShapes {
  import opened Domain
  import opened PlannerTypes
  import opened PlannerPhases
  import opened PlannerRound
  import opened PlannerRails
  import opened PlannerProgress
  import opened PlannerTheorems
  import opened PlannerNaming

  // ------------------------------------------------------------- aggregated

  /** Drains come from the queue, and each worker is drained once. */
  lemma {:induction false} DrainAggregatedMoves(queue: seq<Candidate>, s: Surplus, cap: int, all: seq<Candidate>)
    requires DistinctIds(queue) && RolesKnown(all)
    requires forall c | c in queue :: c in all && !Planned(s.actions, c.id)
    ensures MovesOnly(s.actions, DrainAggregated(queue, s, cap).actions, all, cap)
  {
    if queue != [] && |s.actions| < cap {
      var a := DrainOf(queue[0]);
      if s.left > 0 || queue[0].role != Regular {
        var next := Surplus(s.actions + [a], if s.left > 0 then s.left - 1 else s.left);
        forall c | c in queue[1..] ensures !Planned(next.actions, c.id) {
          PlannedSnoc(s.actions, a, c.id);
        }
        DrainAggregatedMoves(queue[1..], next, cap, all);
        assert Moves(a, all);
        MovesOnlyStep(s.actions, a, DrainAggregated(queue, s, cap).actions, all, cap);
      } else {
        DrainAggregatedMoves(queue[1..], s, cap, all);
      }
    }
  }

  lemma {:induction false} DrainAggregatedPrefix(queue: seq<Candidate>, s: Surplus, cap: int)
    ensures s.actions <= DrainAggregated(queue, s, cap).actions
    ensures forall k | |s.actions| <= k < |DrainAggregated(queue, s, cap).actions| ::
              DrainAggregated(queue, s, cap).actions[k].kind == Drain
  {
    if queue != [] && |s.actions| < cap {
      var a := DrainOf(queue[0]);
      if s.left > 0 || queue[0].role != Regular {
        var next := Surplus(s.actions + [a], if s.left > 0 then s.left - 1 else s.left);
        DrainAggregatedPrefix(queue[1..], next, cap);
        assert next.actions[|s.actions|] == a;
      } else {
        DrainAggregatedPrefix(queue[1..], s, cap);
      }
    }
  }

  /** How far down the queue the surplus reaches. */
  function Reach(left: int, room: int, length: nat): int {
    Max(0, Min(Min(left, room), length))
  }

  /** The surplus goes first, oldest first and whatever its role; after it only workers of the other shape. */
  lemma {:induction false} DrainAggregatedShape(queue: seq<Candidate>, s: Surplus, cap: int)
    ensures var r, n := DrainAggregated(queue, s, cap).actions, |s.actions|;
      var first := Reach(s.left, cap - n, |queue|);
      && n + first <= |r|
      && (forall k | 0 <= k < first :: r[n + k] == DrainOf(queue[k]))
      && (forall k | n + first <= k < |r| :: r[k].fromRole != Regular)
  {
    if queue != [] && |s.actions| < cap {
      var a, n := DrainOf(queue[0]), |s.actions|;
      var r := DrainAggregated(queue, s, cap).actions;
      DrainAggregatedPrefix(queue, s, cap);
      if s.left > 0 {
        var next := Surplus(s.actions + [a], s.left - 1);
        DrainAggregatedShape(queue[1..], next, cap);
        DrainAggregatedPrefix(queue[1..], next, cap);
        assert r[n] == next.actions[n] == a;
        forall k | 0 <= k < Reach(s.left, cap - n, |queue|) ensures r[n + k] == DrainOf(queue[k]) {
          if k > 0 {
            assert r[n + 1 + (k - 1)] == DrainOf(queue[1..][k - 1]);
          }
        }
      } else if queue[0].role != Regular {
        var next := s.(actions := s.actions + [a]);
        DrainAggregatedShape(queue[1..], next, cap);
        DrainAggregatedPrefix(queue[1..], next, cap);
        assert r[n] == next.actions[n] == a;
      } else {
        DrainAggregatedShape(queue[1..], s, cap);
      }
    }
  }

  lemma {:induction false} CountAtMost(cs: seq<Candidate>, role: Role)
    ensures Count(cs, role) <= |cs|
  {
    if cs != [] {
      CountAtMost(cs[..|cs| - 1], role);
    }
  }

  lemma {:induction false} DrainAggregatedCount(queue: seq<Candidate>, s: Surplus, cap: int)
    requires |s.actions| <= cap && s.left == 0
    ensures |DrainAggregated(queue, s, cap).actions| == Min(cap, |s.actions| + |queue| - Count(queue, Regular))
  {
    if queue != [] {
      CountFromFront(queue, Regular);
      CountAtMost(queue, Regular);
      CountAtMost(queue[1..], Regular);
      if |s.actions| < cap {
        if queue[0].role != Regular {
          DrainAggregatedCount(queue[1..], s.(actions := s.actions + [DrainOf(queue[0])]), cap);
        } else {
          DrainAggregatedCount(queue[1..], s, cap);
        }
      }
    }
  }

  lemma {:induction false} FillAggregatedShape(idle: seq<Candidate>, actions: seq<Action>, regular: int, target: int,
                                               cap: int, all: seq<Candidate>)
    requires DistinctIds(idle) && |actions| <= cap
    requires forall c | c in idle :: c in all && !Planned(actions, c.id)
    ensures var r := FillAggregated(idle, actions, regular, target, cap);
      && actions <= r
      && |r| == |actions| + Max(0, Min(Min(cap - |actions|, target - regular), |idle|))
      && (forall k | |actions| <= k < |r| :: r[k].kind == Assign && r[k].role == Regular && r[k].fromRole == NoRole && Takes(r[k], all))
      && (NamesOnce(actions) ==> NamesOnce(r))
  {
    if idle != [] && regular < target && |actions| < cap {
      var a := AssignOf(idle[0], Regular);
      forall c | c in idle[1..] ensures !Planned(actions + [a], c.id) {
        PlannedSnoc(actions, a, c.id);
      }
      if NamesOnce(actions) {
        NamesOnceSnoc(actions, a);
      }
      FillAggregatedShape(idle[1..], actions + [a], regular + 1, target, cap, all);
      assert Takes(a, all);
      assert (actions + [a])[|actions|] == a;
    }
  }

  ghost predicate ProperAggregated(config: Config, input: Input) {
    config.maxChangePerRound > 0 && config.maxServing >= 0 && Proper(input)
  }

  /** The drains of an aggregated round. */
  ghost function AggregatedDrains(config: Config, input: Input, now: Time): seq<Action> {
    DrainAggregated(Movable(input.serving, now, config.minHold),
                    Surplus([], |input.serving| + |input.idle| - AggregatedTarget(config, input)), config.maxChangePerRound).actions
  }

  lemma AggregatedDrainsMove(config: Config, input: Input, now: Time)
    requires ProperAggregated(config, input)
    ensures var queue, drains := Movable(input.serving, now, config.minHold), AggregatedDrains(config, input, now);
      && MovesOnly([], drains, queue, config.maxChangePerRound)
      && (forall k | 0 <= k < |drains| :: drains[k].kind == Drain)
      && (forall c | c in input.idle :: !Planned(drains, c.id))
  {
    var queue := Movable(input.serving, now, config.minHold);
    var s := Surplus([], |input.serving| + |input.idle| - AggregatedTarget(config, input));
    var r := PDRound(config, NO_GEAR, false, input.(now := now), now);
    QueueFacts(r);
    DrainAggregatedMoves(queue, s, config.maxChangePerRound, queue);
    DrainAggregatedPrefix(queue, s, config.maxChangePerRound);
    IdleUntouched(r, AggregatedDrains(config, input, now), 0);
  }

  /** Every aggregated round keeps the guard rails, on every input and with no exception. */
  lemma AggregatedGuardRails(config: Config, input: Input, now: Time)
    requires ProperAggregated(config, input)
    ensures var actions, drains := PlanAggregated(config, input, now), AggregatedDrains(config, input, now);
      && |actions| <= config.maxChangePerRound && NamesOnce(actions) && drains <= actions
      && (forall k | 0 <= k < |drains| :: actions[k].kind == Drain && Moves(actions[k], Movable(input.serving, now, config.minHold)))
      && (forall k | |drains| <= k < |actions| :: actions[k].kind == Assign && actions[k].role == Regular
            && actions[k].fromRole == NoRole && Takes(actions[k], input.idle))
  {
    var idle, drains := SortById(input.idle), AggregatedDrains(config, input, now);
    QueueFacts(PDRound(config, NO_GEAR, false, input.(now := now), now));
    AggregatedDrainsMove(config, input, now);
    FillAggregatedShape(idle, drains, CountFree(input.serving, drains, Regular), AggregatedTarget(config, input),
                        config.maxChangePerRound, input.idle);
  }

  /** Among the drains, a regular worker is exactly one the surplus reaches. */
  lemma RegularAmongDrains(queue: seq<Candidate>, left: int, cap: int)
    ensures var drains := DrainAggregated(queue, Surplus([], left), cap).actions;
      (exists k :: 0 <= k < |drains| && drains[k].fromRole == Regular)
      <==> (exists k :: 0 <= k < Reach(left, cap, |queue|) && queue[k].role == Regular)
  {
    var drains := DrainAggregated(queue, Surplus([], left), cap).actions;
    DrainAggregatedShape(queue, Surplus([], left), cap);
    forall k | 0 <= k < Reach(left, cap, |queue|) ensures k < |drains| && drains[k].fromRole == queue[k].role {
      assert drains[0 + k] == DrainOf(queue[k]);
    }
  }

  /** A regular worker is drained exactly when max_serving leaves a surplus and a regular worker is
      among the oldest movable ones that the surplus and the round allow to drain. */
  lemma RegularDrainedExactlyWhen(config: Config, input: Input, now: Time)
    requires ProperAggregated(config, input)
    ensures var queue := Movable(input.serving, now, config.minHold);
      var surplus := |input.serving| + |input.idle| - AggregatedTarget(config, input);
      (exists k :: 0 <= k < |PlanAggregated(config, input, now)| && PlanAggregated(config, input, now)[k].fromRole == Regular)
      <==> (exists k :: 0 <= k < Reach(surplus, config.maxChangePerRound, |queue|) && queue[k].role == Regular)
  {
    var queue := Movable(input.serving, now, config.minHold);
    var left := |input.serving| + |input.idle| - AggregatedTarget(config, input);
    var actions, drains := PlanAggregated(config, input, now), AggregatedDrains(config, input, now);
    AggregatedGuardRails(config, input, now);
    RegularAmongDrains(queue, left, config.maxChangePerRound);
    forall k | 0 <= k < |actions| ensures actions[k].fromRole == Regular <==> k < |drains| && drains[k].fromRole == Regular {
    }
    if exists k :: 0 <= k < |drains| && drains[k].fromRole == Regular {
      var k :| 0 <= k < |drains| && drains[k].fromRole == Regular;
      assert actions[k].fromRole == Regular;
    }
  }

  /** The idle part of an aggregated round. */
  lemma AggregatedFill(config: Config, input: Input, now: Time)
    requires ProperAggregated(config, input)
    ensures var drains, cap := AggregatedDrains(config, input, now), config.maxChangePerRound;
      var wanted := AggregatedTarget(config, input) - CountFree(input.serving, drains, Regular);
      |PlanAggregated(config, input, now)| == |drains| + Max(0, Min(Min(cap - |drains|, wanted), |input.idle|))
  {
    var drains, idle := AggregatedDrains(config, input, now), SortById(input.idle);
    var r := PDRound(config, NO_GEAR, false, input.(now := now), now);
    QueueFacts(r);
    AggregatedDrainsMove(config, input, now);
    FillAggregatedShape(idle, drains, CountFree(input.serving, drains, Regular), AggregatedTarget(config, input),
                        config.maxChangePerRound, input.idle);
  }

  /** Without max_serving an aggregated round never drains a regular worker, and emits exactly as many
      actions as there are movable workers of the other shape and idle instances, up to the round's
      limit: nothing idle is ever left over while the round has room. */
  lemma AggregatedProgress(config: Config, input: Input, now: Time)
    requires ProperAggregated(config, input) && config.maxServing == 0
    ensures var queue := Movable(input.serving, now, config.minHold);
      |PlanAggregated(config, input, now)| == Min(config.maxChangePerRound, |queue| - Count(queue, Regular) + |input.idle|)
    ensures forall k | 0 <= k < |PlanAggregated(config, input, now)| :: PlanAggregated(config, input, now)[k].fromRole != Regular
  {
    var queue, cap := Movable(input.serving, now, config.minHold), config.maxChangePerRound;
    var drains := AggregatedDrains(config, input, now);
    RegularDrainedExactlyWhen(config, input, now);
    DrainAggregatedCount(queue, Surplus([], 0), cap);
    CountAtMost(queue, Regular);
    CountFreePositive(input.serving, drains, Regular);
    CountAtMost(input.serving, Regular);
    AggregatedFill(config, input, now);
  }

  // ------------------------------------------------------------- both shapes

  /** Whatever the mode, a round plans no more than it may, and every worker it takes out of a role has
      held that role for min_hold or has no recorded start. */
  lemma EveryRoundIsGuarded(st: State, input: Input, now: Time)
    requires ProperAggregated(st.config, input) && input.now <= now
    requires Round(st, input, now).Rounded?
    ensures var actions := Round(st, input, now).decision.actions;
      && |actions| <= st.config.maxChangePerRound
      && forall a | a in actions && a.kind in {Drain, Reassign, Release} && a.fromRole != NoRole ::
           exists c :: c in input.serving && a.instanceID == Some(c.id) && a.fromRole == c.role && PastHold(c, now, st.config.minHold)
  {
    var mode, actions := st.config.NormalisedMode(), Round(st, input, now).decision.actions;
    if Cooling(st, now) {
    } else if mode == Aggregated {
      AggregatedGuardRails(st.config, input, now);
      MovableIsQueue(input.serving, now, st.config.minHold);
    } else {
      var (gear, moved) := if mode == Auto then AutoStep(st.config, GearOf(st), input.load) else (GearOf(st), false);
      RoundGuardRails(PDRound(st.config, gear, moved, input, now));
    }
  }
}
