/** The capacity verb: when a disaggregated round asks the partner for an instance or gives one back. */
module PlannerCapacity {
  import opened Domain
  import opened PlannerTypes
  import opened PlannerPhases
  import opened PlannerRound
  import opened PlannerRails
  import opened PlannerTheorems
  import opened PlannerNaming
  import opened PlannerSurvival
  import opened PlannerShapes

  /** The verb waits for requests under way and for containers that may come back, and needs a complete
      load sample and room in the round. */
  ghost predicate MayUseVerb(r: PDRound) {
    && r.config.capacityActions && r.config.mode == Auto
    && r.input.load.valid && r.input.load.prefillPressure.Some? && r.input.load.decodePressure.Some?
    && r.input.provisioning <= 0 && r.input.recovering == [] && RegularDrains(r) < r.Cap()
  }

  /** The role under more pressure. */
  function Pressured(load: LoadSnapshot): Role
    requires load.Complete()
  {
    if load.prefillPressure.value > load.decodePressure.value then Prefill else Decode
  }

  /** One role is under more pressure than the other by more than the dead band, 0.2 unless configured. */
  predicate ClearlyPressured(config: Config, load: LoadSnapshot)
    requires load.Complete()
  {
    var band := if config.autoDeadBand > 0.0 then config.autoDeadBand else 0.2;
    || load.prefillPressure.value > load.decodePressure.value + band
    || load.decodePressure.value > load.prefillPressure.value + band
  }

  /** An instance is asked for exactly when requests wait, one role is under clearly more pressure, the
      gear stands at the end of the ladder towards it and did not just get there, and somebody serves;
      and it is asked for that role. */
  lemma AsksExactlyWhen(r: PDRound)
    requires r.Proper() && Supported(r.gear)
    ensures var load := r.input.load;
      r.Verb().Some? && r.Verb().value.kind == Provision
      <==> && MayUseVerb(r) && !r.rungMoved && r.input.serving != []
           && load.queueLength > 0.0 && ClearlyPressured(r.config, load)
           && r.gear == if Pressured(load) == Prefill then PrefillHeavy else DecodeHeavy
    ensures r.Verb().Some? && r.Verb().value.kind == Provision ==>
      r.Verb().value == Action(Provision, None, Pressured(r.input.load), NoRole)
  {
    DrainRegularCount(r.Queue(), [], r.Cap());
  }

  /** The role a quiet pool gives a worker of: the less pressured one; under equal pressure decode if the
      planner counts as many of it - and it counts everybody who is not a prefill worker as decode. */
  function Dispensable(load: LoadSnapshot, prefills: int, others: int): Role
    requires load.Complete()
  {
    if load.decodePressure.value < load.prefillPressure.value then Decode
    else if load.prefillPressure.value < load.decodePressure.value then Prefill
    else if others >= prefills then Decode else Prefill
  }

  /** In a quiet pool the verb is whatever can be given back; in any other it gives nothing back. */
  lemma VerbOfQuietPool(r: PDRound)
    requires r.Proper()
    ensures MayUseVerb(r) && PoolIdle(r.config, r.input.load) ==> r.Verb() == ReleaseStep(r.config, r.input, r.Drained())
    ensures GivenBack(r) in {Prefill, Decode} ==> MayUseVerb(r) && PoolIdle(r.config, r.input.load) && r.input.idle == []
  {
    DrainRegularCount(r.Queue(), [], r.Cap());
  }

  lemma ReleaseOfServing(config: Config, input: Input, planned: seq<Action>)
    requires PoolIdle(config, input.load) && input.idle == []
    ensures var prefills := Count(input.serving, Prefill);
      var others := |input.serving| - prefills;
      var role := Dispensable(input.load, prefills, others);
      var found := NextConversion(input.serving, planned, input.now, config.minHold, role);
      ReleaseStep(config, input, planned)
      == if prefills > 0 && others > 0 && (if role == Prefill then prefills else others) >= 2 && found.Some?
         then Some(ReleaseOf(found.value.id, role)) else None
  {
    CountAtMost(input.serving, Prefill);
  }

  /** The regular drains touch no prefill or decode worker. */
  lemma NotDrained(r: PDRound, role: Role)
    requires r.Proper() && role in {Prefill, Decode}
    ensures forall d | d in r.input.serving && d.role == role :: !Planned(r.Drained(), d.id)
  {
    QueueFacts(r);
    DrainedFacts(r);
    forall d | d in r.input.serving && d.role == role ensures !Planned(r.Drained(), d.id) {
      forall k | 0 <= k < |r.Drained()| ensures r.Drained()[k].instanceID != Some(d.id) {
        var c :| c in r.Queue() && r.Drained()[k].instanceID == Some(c.id) && r.Drained()[k].fromRole == c.role;
        assert c.role == Regular;
        if c.id == d.id {
          SameIdSameCandidate(r.input.serving, c, d);
          assert false;
        }
      }
    }
  }

  lemma FoundExactlyWhen(r: PDRound, role: Role)
    requires r.Proper() && role in {Prefill, Decode}
    ensures NextConversion(r.input.serving, r.Drained(), r.input.now, r.config.minHold, role).Some?
       <==> exists d :: d in r.input.serving && d.role == role && !Held(d, r.input.now, r.config.minHold)
  {
    NotDrained(r, role);
    ConversionTakesTheOldest(r.input.serving, r.Drained(), r.input.now, r.config.minHold, role);
  }

  /** A serving worker is given back exactly when nothing waits, both roles are below the release
      threshold, nobody is idle, both counts are positive, the dispensable role counts two or more, and
      one of its workers is past its hold time. */
  lemma GivesBackServingExactlyWhen(r: PDRound)
    requires r.Proper()
    ensures var load := r.input.load;
      var prefills, others := r.Prefills(), |r.input.serving| - r.Prefills();
      GivenBack(r) in {Prefill, Decode}
      <==> && MayUseVerb(r) && Quiet(r.config, load) && r.input.idle == [] && prefills > 0 && others > 0
           && (var role := Dispensable(load, prefills, others);
               && (if role == Prefill then prefills else others) >= 2
               && exists d :: d in r.input.serving && d.role == role && PastHold(d, r.input.now, r.config.minHold))
    ensures GivenBack(r) in {Prefill, Decode} ==>
      GivenBack(r) == Dispensable(r.input.load, r.Prefills(), |r.input.serving| - r.Prefills())
  {
    VerbOfQuietPool(r);
    if MayUseVerb(r) && PoolIdle(r.config, r.input.load) && r.input.idle == [] {
      var role := Dispensable(r.input.load, r.Prefills(), |r.input.serving| - r.Prefills());
      ReleaseOfServing(r.config, r.input, r.Drained());
      FoundExactlyWhen(r, role);
    }
  }
}
