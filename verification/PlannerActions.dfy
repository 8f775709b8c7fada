/** What the actions of a round say: which roles each kind of action names. */
module PlannerActions {
  import opened Domain
  import opened PlannerTypes
  import opened PlannerPhases
  import opened PlannerRound
  import opened PlannerRails
  import opened PlannerTheorems

  /** An assignment gives a role to an instance that has none, a reassignment exchanges prefill and decode, a
      drain takes a role away, a release names the role it gives back twice or none, and asking for capacity
      names a role and no instance. */
  predicate Shaped(a: Action) {
    match a.kind
    case Assign => a.instanceID.Some? && a.role in {Prefill, Decode, Regular} && a.fromRole == NoRole
    case Reassign =>
      a.instanceID.Some? && ((a.role == Prefill && a.fromRole == Decode) || (a.role == Decode && a.fromRole == Prefill))
    case Drain => a.instanceID.Some? && a.role == NoRole && a.fromRole in {Prefill, Decode, Regular}
    case Release => a.instanceID.Some? && a.role == a.fromRole && a.fromRole in {NoRole, Prefill, Decode}
    case Provision => a.instanceID.None? && a.role in {Prefill, Decode} && a.fromRole == NoRole
  }

  predicate AllShaped(actions: seq<Action>) { forall k | 0 <= k < |actions| :: Shaped(actions[k]) }

  lemma {:induction false} RegularDrainsShaped(queue: seq<Candidate>, actions: seq<Action>, cap: int)
    requires AllShaped(actions)
    ensures AllShaped(DrainRegular(queue, actions, cap))
  {
    if queue != [] && |actions| < cap {
      RegularDrainsShaped(queue[1..], if queue[0].role == Regular then actions + [DrainOf(queue[0])] else actions, cap);
    }
  }

  lemma {:induction false} FirstFreeIsQueued(queue: seq<Candidate>, actions: seq<Action>)
    ensures FirstFree(queue, actions).Some? ==> FirstFree(queue, actions).value in queue
  {
    if queue != [] {
      FirstFreeIsQueued(queue[1..], actions);
    }
  }

  lemma {:induction false} FirstSurplusIsQueued(queue: seq<Candidate>, w: Work, targetPrefill: int, targetDecode: int)
    ensures FirstSurplus(queue, w, targetPrefill, targetDecode).Some? ==> FirstSurplus(queue, w, targetPrefill, targetDecode).value in queue
  {
    if queue != [] {
      FirstSurplusIsQueued(queue[1..], w, targetPrefill, targetDecode);
    }
  }

  lemma {:induction false} SurplusDrainsShaped(queue: seq<Candidate>, w: Work, targetPrefill: int, targetDecode: int, budget: int, cap: int)
    requires RolesKnown(queue) && AllShaped(w.actions)
    ensures AllShaped(DrainSurplus(queue, w, targetPrefill, targetDecode, budget, cap).actions)
    decreases budget
  {
    if budget > 0 && |w.actions| < cap {
      FirstFreeIsQueued(queue, w.actions);
      FirstSurplusIsQueued(queue, w, targetPrefill, targetDecode);
      var chosen := ChooseDrain(queue, w, targetPrefill, targetDecode);
      if chosen.Some? {
        SurplusDrainsShaped(queue, Drained(w, chosen.value), targetPrefill, targetDecode, budget - 1, cap);
      }
    }
  }

  lemma {:induction false} FillsShaped(idle: seq<Candidate>, w: Work, targetPrefill: int, targetDecode: int, total: int, cap: int)
    requires AllShaped(w.actions)
    ensures AllShaped(FillIdle(idle, w, targetPrefill, targetDecode, total, cap).actions)
  {
    if idle != [] && w.prefill + w.decode < total && |w.actions| < cap {
      if w.prefill < targetPrefill {
        FillsShaped(idle[1..], Work(w.actions + [AssignOf(idle[0], Prefill)], w.prefill + 1, w.decode), targetPrefill, targetDecode, total, cap);
      } else if w.decode < targetDecode {
        FillsShaped(idle[1..], Work(w.actions + [AssignOf(idle[0], Decode)], w.prefill, w.decode + 1), targetPrefill, targetDecode, total, cap);
      }
    }
  }

  lemma {:induction false} ConversionsShaped(queue: seq<Candidate>, w: Work, targetPrefill: int, targetDecode: int, cap: int)
    requires AllShaped(w.actions)
    ensures AllShaped(Convert(queue, w, targetPrefill, targetDecode, cap).actions)
    decreases cap - |w.actions|, Deficits(w, targetPrefill, targetDecode)
  {
    if |w.actions| < cap {
      if w.prefill < targetPrefill {
        var c := NextIn(queue, w.actions, Decode);
        ConversionsShaped(queue, if c.Some? && w.decode > 1 then ToPrefill(w, c.value) else w.(prefill := targetPrefill),
                          targetPrefill, targetDecode, cap);
      } else if w.decode < targetDecode {
        var c := NextIn(queue, w.actions, Prefill);
        ConversionsShaped(queue, if c.Some? && w.prefill > 1 then ToDecode(w, c.value) else w.(decode := targetDecode),
                          targetPrefill, targetDecode, cap);
      }
    }
  }

  lemma {:induction false} AggregatedDrainsShaped(queue: seq<Candidate>, s: Surplus, cap: int)
    requires RolesKnown(queue) && AllShaped(s.actions)
    ensures AllShaped(DrainAggregated(queue, s, cap).actions)
  {
    if queue != [] && |s.actions| < cap {
      var drained := s.actions + [DrainOf(queue[0])];
      AggregatedDrainsShaped(queue[1..], if s.left > 0 then Surplus(drained, s.left - 1)
                                         else if queue[0].role != Regular then s.(actions := drained) else s, cap);
    }
  }

  lemma {:induction false} AggregatedFillsShaped(idle: seq<Candidate>, actions: seq<Action>, regular: int, target: int, cap: int)
    requires AllShaped(actions)
    ensures AllShaped(FillAggregated(idle, actions, regular, target, cap))
  {
    if idle != [] && regular < target && |actions| < cap {
      if Planned(actions, idle[0].id) {
        AggregatedFillsShaped(idle[1..], actions, regular, target, cap);
      } else {
        AggregatedFillsShaped(idle[1..], actions + [AssignOf(idle[0], Regular)], regular + 1, target, cap);
      }
    }
  }

  lemma VerbShaped(config: Config, gear: Gear, input: Input, planned: seq<Action>, rungMoved: bool)
    ensures var verb := CapacityStep(config, gear, input, planned, rungMoved);
      verb.Some? ==> Shaped(verb.value)
  {
  }

  lemma ReservedShaped(r: PDRound)
    ensures AllShaped(r.Reserved().actions)
  {
    RegularDrainsShaped(r.Queue(), [], r.Cap());
    VerbShaped(r.config, r.gear, r.input, r.Drained(), r.rungMoved);
  }

  lemma DisaggregatedShaped(r: PDRound)
    requires RolesKnown(r.input.serving)
    ensures AllShaped(r.Actions())
  {
    MovableIsQueue(r.input.serving, r.now, r.config.minHold);
    ReservedShaped(r);
    SurplusDrainsShaped(r.Queue(), r.Reserved(), r.T().prefill, r.T().decode, r.Surplus(), r.Cap());
    FillsShaped(SortById(r.input.idle), r.Trimmed(), r.T().prefill, r.T().decode, r.T().total, r.Cap());
    ConversionsShaped(r.Queue(), r.Filled(), r.T().prefill, r.T().decode, r.Cap());
    ActionsAreConverted(r);
  }

  lemma AggregatedShaped(config: Config, input: Input, now: Time)
    requires RolesKnown(input.serving)
    ensures AllShaped(PlanAggregated(config, input, now))
  {
    var queue, target := Movable(input.serving, now, config.minHold), AggregatedTarget(config, input);
    MovableIsQueue(input.serving, now, config.minHold);
    var start := Surplus([], |input.serving| + |input.idle| - target);
    AggregatedDrainsShaped(queue, start, config.maxChangePerRound);
    var drained := DrainAggregated(queue, start, config.maxChangePerRound).actions;
    AggregatedFillsShaped(SortById(input.idle), drained, CountFree(input.serving, drained, Regular), target, config.maxChangePerRound);
  }

  /** Every action of every round, whatever the mode, says what is to happen; and the decision names the mode,
      the configured gear, and no gear in effect where there is no ratio. */
  lemma EveryActionIsShaped(st: State, input: Input, now: Time)
    requires RolesKnown(input.serving) && Round(st, input, now).Rounded?
    ensures var d := Round(st, input, now).decision;
      && AllShaped(d.actions)
      && d.mode == (if st.config.mode in {Auto, Aggregated} then st.config.mode else Fixed) && d.gear == st.config.gear
      && (st.config.mode == Aggregated ==> d.effectiveGear == OtherGear(""))
  {
    var mode := st.config.NormalisedMode();
    AggregatedShaped(st.config, input, now);
    var (gear, moved) := if mode == Auto then AutoStep(st.config, GearOf(st), input.load) else (GearOf(st), false);
    DisaggregatedShaped(PDRound(st.config, gear, moved, input, now));
  }
}
