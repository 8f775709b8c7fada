/** Concrete rounds in which a guard rail one might expect does not hold. */
module PlannerExamples {
  import opened Domain
  import opened PlannerTypes
  import opened PlannerPhases
  import opened PlannerRound
  import opened PlannerRails
  import opened PlannerTheorems
  import opened PlannerNaming
  import opened PlannerSurvival
  import opened PlannerCapacity
  import opened PlannerRoles
  import opened PlannerShapes
  import opened PlannerConvergence

  function Worker(id: int, role: Role): Candidate { Candidate(id, role, ZERO_TIME) }

  const QUIET := LoadSnapshot(true, Some(0.0), Some(0.0), 0.0)

  function AutoConfig(gear: Gear): Config { Config(Auto, gear, 2, 0, 0, 0, 0.2, true, 0.1) }

  lemma CountOf(front: seq<Candidate>, c: Candidate, role: Role)
    ensures Count(front + [c], role) == Count(front, role) + if c.role == role then 1 else 0
  {
    assert (front + [c])[..|front|] == front;
  }

  /** Nobody is held back when the workers have no recorded start. */
  lemma {:induction false} AllUnheld(cs: seq<Candidate>, now: Time, minHold: int)
    requires forall c | c in cs :: c.roleSince == ZERO_TIME
    ensures Unheld(cs, now, minHold) == cs
  {
    if cs != [] {
      AllUnheld(cs[..|cs| - 1], now, minHold);
    }
  }

  lemma QueueCounts(cs: seq<Candidate>, now: Time, minHold: int, role: Role)
    requires forall c | c in cs :: c.roleSince == ZERO_TIME
    ensures Count(Movable(cs, now, minHold), role) == Count(cs, role)
  {
    AllUnheld(cs, now, minHold);
    CountSorted(cs, role);
  }

  /** A pool of two or three workers whose numbers are plain to see. */
  lemma CountTwo(a: Candidate, b: Candidate, role: Role)
    ensures Count([a, b], role) == (if a.role == role then 1 else 0) + if b.role == role then 1 else 0
  {
    assert [a, b] == [] + [a] + [b];
    CountOf([], a, role);
    CountOf([a], b, role);
  }

  lemma CountThree(a: Candidate, b: Candidate, c: Candidate, role: Role)
    ensures Count([a, b, c], role)
         == (if a.role == role then 1 else 0) + (if b.role == role then 1 else 0) + if c.role == role then 1 else 0
  {
    assert [a, b, c] == [a, b] + [c];
    CountTwo(a, b, role);
    CountOf([a, b], c, role);
  }

  /** A quiet pool of one prefill and one decode worker with one idle instance. */
  function QuietPool(): PDRound {
    PDRound(AutoConfig(Even), Even, false,
            Input(10, [Worker(1, Prefill), Worker(2, Decode)], [Worker(3, NoRole)], [], QUIET, 0), 10)
  }

  lemma QuietPoolProper()
    ensures QuietPool().Proper() && QuietPool().config.Valid()
  {
  }

  lemma QuietPoolCounts()
    ensures QuietPool().Prefills() == 1 && QuietPool().Decodes() == 1 && Count(QuietPool().Queue(), Regular) == 0
  {
    var p, d := Worker(1, Prefill), Worker(2, Decode);
    CountTwo(p, d, Prefill);
    CountTwo(p, d, Decode);
    CountTwo(p, d, Regular);
    QueueCounts([p, d], 10, 0, Regular);
  }

  lemma QuietPoolCollides()
    ensures ReleaseCollides(QuietPool())
  {
    QuietPoolCounts();
    assert QuietPool().T().total == 3;
    assert (set c | c in QuietPool().input.idle && c.id < 3) == {};
  }

  /** The round both gives the idle instance back and starts a worker on it. */
  lemma GivenBackAndEmployed()
    ensures QuietPool().Proper() && QuietPool().config.Valid() && !NamesOnce(QuietPool().Actions())
  {
    QuietPoolProper();
    QuietPoolCollides();
    NamedOnceExactlyWhen(QuietPool());
  }

  /** A quiet pool of one prefill and two decode workers in the prefill-heavy gear. */
  function HeavyPool(): PDRound {
    PDRound(AutoConfig(PrefillHeavy), PrefillHeavy, false,
            Input(10, [Worker(1, Prefill), Worker(2, Decode), Worker(3, Decode)], [], [], QUIET, 0), 10)
  }

  lemma HeavyPoolCounts()
    ensures Count(HeavyPool().input.serving, Prefill) == 1 && Count(HeavyPool().input.serving, Decode) == 2
    ensures Count(HeavyPool().input.serving, Regular) == 0
  {
    var p, d, e := Worker(1, Prefill), Worker(2, Decode), Worker(3, Decode);
    CountThree(p, d, e, Prefill);
    CountThree(p, d, e, Decode);
    CountThree(p, d, e, Regular);
  }

  lemma HeavyPoolQueue()
    ensures Count(HeavyPool().Queue(), Regular) == 0 && Count(HeavyPool().Queue(), Decode) == 2
  {
    HeavyPoolCounts();
    QueueCounts(HeavyPool().input.serving, 10, 0, Regular);
    QueueCounts(HeavyPool().input.serving, 10, 0, Decode);
  }

  lemma HeavyPoolProper()
    ensures HeavyPool().Proper() && HeavyPool().config.Valid()
  {
  }

  lemma HeavyPoolGivesBack()
    ensures GivenBack(HeavyPool()) == Decode
  {
    HeavyPoolProper();
    HeavyPoolCounts();
    HeavyPoolQueue();
    assert HeavyPool().input.serving[1] == Worker(2, Decode);
    GivesBackServingExactlyWhen(HeavyPool());
  }

  /** One decode worker is given back and the other is converted, so no decode worker is left alone. */
  lemma GivenBackTheLast()
    ensures var r := HeavyPool();
      r.Proper() && r.config.Valid() && r.Prefills() == 1 && r.Decodes() == 2 && !RolesSurvive(r)
  {
    HeavyPoolProper();
    HeavyPoolCounts();
    HeavyPoolQueue();
    HeavyPoolGivesBack();
    assert HeavyPool().T().decode == 1;
    SurviveWithoutSurplus(HeavyPool());
  }

  /** Two prefill workers still in their hold time and one movable decode worker, with max_serving at two. */
  function HeldPool(): PDRound {
    PDRound(Config(Fixed, Even, 2, 5, 0, 2, 0.2, false, 0.1), Even, false,
            Input(10, [Candidate(1, Prefill, 9), Candidate(2, Prefill, 9), Worker(3, Decode)], [], [], QUIET, 0), 10)
  }

  lemma HeldPoolFacts()
    ensures var r := HeldPool();
      && r.Proper() && r.config.Valid() && r.Prefills() == 2 && r.Decodes() == 1 && r.Queue() == [Worker(3, Decode)]
  {
    var p, q, d := Candidate(1, Prefill, 9), Candidate(2, Prefill, 9), Worker(3, Decode);
    CountThree(p, q, d, Prefill);
    CountThree(p, q, d, Decode);
    assert [p][..0] == [] && [p, q][..1] == [p] && [p, q, d][..2] == [p, q];
    assert Unheld([p], 10, 5) == [];
    assert Unheld([p, q], 10, 5) == [];
    assert Unheld([p, q, d], 10, 5) == [d];
    assert SortByAge([d]) == Insert(d, []) == [d];
  }

  /** The surplus takes the decode worker, which was the only one. */
  lemma SurplusTakesTheLast()
    ensures var r := HeldPool();
      r.Proper() && r.config.Valid() && r.Prefills() == 2 && r.Decodes() == 1 && !RolesSurvive(r)
  {
    HeldPoolFacts();
    assert [Worker(3, Decode)] == [] + [Worker(3, Decode)];
    CountOf([], Worker(3, Decode), Prefill);
    CountOf([], Worker(3, Decode), Decode);
    CountOf([], Worker(3, Decode), Regular);
    assert Empties(HeldPool(), Decode);
    RolesSurviveExactlyWhen(HeldPool());
  }

  /** A quiet pool of two prefill and two decode workers, all movable, with max_serving at two. */
  function CrowdedPool(): PDRound {
    PDRound(Config(Auto, Even, 3, 0, 0, 2, 0.2, true, 0.1), Even, false,
            Input(10, [Worker(1, Prefill), Worker(2, Prefill), Worker(3, Decode), Worker(4, Decode)], [], [], QUIET, 0), 10)
  }

  lemma CrowdedPoolCounts(role: Role)
    ensures Count(CrowdedPool().input.serving, role) == if role in {Prefill, Decode} then 2 else 0
    ensures Count(CrowdedPool().Queue(), role) == Count(CrowdedPool().input.serving, role)
  {
    var p, q, d, e := Worker(1, Prefill), Worker(2, Prefill), Worker(3, Decode), Worker(4, Decode);
    assert [p, q, d, e] == [p, q, d] + [e];
    CountThree(p, q, d, role);
    CountOf([p, q, d], e, role);
    QueueCounts([p, q, d, e], 10, 0, role);
  }

  lemma CrowdedPoolProper()
    ensures CrowdedPool().Proper() && CrowdedPool().config.Valid()
  {
  }

  lemma CrowdedPoolGivesBack()
    ensures GivenBack(CrowdedPool()) == Decode
  {
    CrowdedPoolProper();
    CrowdedPoolCounts(Prefill);
    CrowdedPoolCounts(Regular);
    assert CrowdedPool().input.serving[2] == Worker(3, Decode);
    GivesBackServingExactlyWhen(CrowdedPool());
  }

  /** One decode worker is given back and the surplus takes a prefill worker and the other decode worker:
      nobody is held back, and yet no decode worker is left alone. */
  lemma GivenBackAndDrained()
    ensures var r := CrowdedPool();
      r.Proper() && r.config.Valid() && r.Prefills() == 2 && r.Decodes() == 2 && r.Surplus() == 2 && !RolesSurvive(r)
  {
    CrowdedPoolProper();
    CrowdedPoolCounts(Prefill);
    CrowdedPoolCounts(Decode);
    CrowdedPoolCounts(Regular);
    CrowdedPoolGivesBack();
    assert CrowdedPool().T() == Targets(2, 1, 1);
    assert Empties(CrowdedPool(), Decode);
    RolesSurviveExactlyWhen(CrowdedPool());
  }

  /** An aggregated pool that serves exactly max_serving workers and has one idle spare. */
  const SPARE_CONFIG := Config(Aggregated, NO_GEAR, 1, 0, 0, 1, 0.2, false, 0.1)

  const SPARE_INPUT := Input(10, [Worker(1, Regular)], [Worker(2, NoRole)], [], QUIET, 0)

  lemma SpareQueue()
    ensures Movable(SPARE_INPUT.serving, 10, 0) == [Worker(1, Regular)]
  {
    AllUnheld(SPARE_INPUT.serving, 10, 0);
    assert SortByAge([Worker(1, Regular)]) == Insert(Worker(1, Regular), []);
  }

  /** A regular worker is drained, because the spare counts towards the surplus. */
  lemma SpareDrainsAWorker()
    ensures SPARE_CONFIG.Valid() && Proper(SPARE_INPUT)
    ensures exists k :: 0 <= k < |PlanAggregated(SPARE_CONFIG, SPARE_INPUT, 10)|
                        && PlanAggregated(SPARE_CONFIG, SPARE_INPUT, 10)[k].fromRole == Regular
  {
    SpareQueue();
    assert Movable(SPARE_INPUT.serving, 10, 0)[0].role == Regular;
    RegularDrainedExactlyWhen(SPARE_CONFIG, SPARE_INPUT, 10);
  }

  // ----------------------------------------------------------- a whole run

  const FIXED_CONFIG := Config(Fixed, Even, 2, 0, 0, 0, 0.2, false, 0.1)

  const IDLE_PAIR := Input(10, [], [Worker(1, NoRole), Worker(2, NoRole)], [], QUIET, 0)

  const SERVING_PAIR := Input(20, [Worker(1, Prefill), Worker(2, Decode)], [], [], QUIET, 0)

  lemma FillOfPair(a: Candidate, b: Candidate)
    ensures FillIdle([a, b], Work([], 0, 0), 1, 1, 2, 2) == Work([AssignOf(a, Prefill), AssignOf(b, Decode)], 1, 1)
  {
    var first := Work([AssignOf(a, Prefill)], 1, 0);
    assert [a, b][1..] == [b] && [b][1..] == [] && [] + [AssignOf(a, Prefill)] == first.actions;
    assert first.actions + [AssignOf(b, Decode)] == [AssignOf(a, Prefill), AssignOf(b, Decode)];
    assert FillIdle([b], first, 1, 1, 2, 2) == FillIdle([], Work(first.actions + [AssignOf(b, Decode)], 1, 1), 1, 1, 2, 2);
  }

  lemma SortOfPair(a: Candidate, b: Candidate)
    requires a.id < b.id
    ensures SortById([a, b]) == [a, b]
  {
    assert [a, b][1..] == [b] && [b][1..] == [];
    assert SortById([b]) == InsertById(b, []) == [b];
  }

  /** Without serving workers there is nothing to drain. */
  lemma NobodyServes(r: PDRound)
    requires r.input.serving == [] && !r.config.capacityActions
    ensures r.Queue() == [] && r.Reserved() == Work([], 0, 0)
    ensures r.Surplus() <= 0 ==> r.Trimmed() == Work([], 0, 0)
  {
  }

  /** Two idle instances become a prefill and a decode worker. */
  lemma PairIsEmployed()
    ensures PD(FIXED_CONFIG, IDLE_PAIR, 10).Actions()
         == [AssignOf(Worker(1, NoRole), Prefill), AssignOf(Worker(2, NoRole), Decode)]
  {
    var r := PD(FIXED_CONFIG, IDLE_PAIR, 10);
    NobodyServes(r);
    assert r.T() == Targets(2, 1, 1);
    SortOfPair(Worker(1, NoRole), Worker(2, NoRole));
    FillOfPair(Worker(1, NoRole), Worker(2, NoRole));
    ActionsAreConverted(r);
  }

  lemma RolesOfTwo(a: Candidate, b: Candidate)
    ensures Roles([a, b]) == map[a.id := a.role][b.id := b.role]
  {
    assert [a, b][..1] == [a] && [a][..0] == [];
    assert Roles([a]) == map[a.id := a.role];
  }

  lemma PairPools()
    ensures CarriedOut(PoolOf(IDLE_PAIR), [AssignOf(Worker(1, NoRole), Prefill), AssignOf(Worker(2, NoRole), Decode)])
         == PoolOf(SERVING_PAIR)
  {
    var x, y := AssignOf(Worker(1, NoRole), Prefill), AssignOf(Worker(2, NoRole), Decode);
    RolesOfTwo(Worker(1, NoRole), Worker(2, NoRole));
    RolesOfTwo(Worker(1, Prefill), Worker(2, Decode));
    CarriedOutSnoc(PoolOf(IDLE_PAIR), [], x);
    CarriedOutSnoc(PoolOf(IDLE_PAIR), [x], y);
    assert [] + [x] == [x] && [x] + [y] == [x, y];
  }

  lemma PairsAreUnhindered()
    ensures Unhindered(PD(FIXED_CONFIG, IDLE_PAIR, 10)) && Unhindered(PD(FIXED_CONFIG, SERVING_PAIR, 20))
  {
  }

  lemma NoGapNoPlan(r: PDRound)
    requires Unhindered(r) && GapOf(r) == 0
    ensures r.Actions() == []
  {
    RoundClosesGap(r);
  }

  lemma PairHasNoGap()
    ensures GapOf(PD(FIXED_CONFIG, SERVING_PAIR, 20)) == 0
  {
    CountTwo(Worker(1, Prefill), Worker(2, Decode), Prefill);
    CountTwo(Worker(1, Prefill), Worker(2, Decode), Decode);
  }

  /** Without a cooldown a fixed planner plans every round. */
  lemma FreeRound(config: Config, st: State, r: PDRound)
    requires config.NormalisedMode() == Fixed && Supported(config.gear) && config.cooldown == 0 && st.config == config
    requires r == PD(config, r.input, r.now)
    ensures Leads(config, st, r.input, r.now, if r.Actions() == [] then st else st.(lastChangeAt := r.now))
    ensures Round(st, r.input, r.now).decision.actions == r.Actions()
  {
    RoundIsFixedPD(st, r.input, r.now);
  }

  /** The second round finds the pool the first one planned. */
  lemma PairIsCarriedOut()
    ensures PD(FIXED_CONFIG, IDLE_PAIR, 10).Actions() != []
    ensures PoolOf(SERVING_PAIR) == CarriedOut(PoolOf(IDLE_PAIR), PD(FIXED_CONFIG, IDLE_PAIR, 10).Actions())
  {
    PairIsEmployed();
    PairPools();
  }

  lemma PairRests()
    ensures PD(FIXED_CONFIG, SERVING_PAIR, 20).Actions() == []
  {
    PairsAreUnhindered();
    PairHasNoGap();
    NoGapNoPlan(PD(FIXED_CONFIG, SERVING_PAIR, 20));
  }

  /** A round that plans something followed by one that does not. */
  lemma RunOfTwo(r0: PDRound, r1: PDRound) returns (states: seq<State>)
    requires r0 == PD(FIXED_CONFIG, r0.input, r0.now) && r1 == PD(FIXED_CONFIG, r1.input, r1.now)
    requires Unhindered(r0) && Unhindered(r1) && r0.Actions() != [] && r1.Actions() == []
    requires PoolOf(r1.input) == CarriedOut(PoolOf(r0.input), r0.Actions())
    ensures Consecutive(FIXED_CONFIG, states, [r0.input, r1.input], [r0.now, r1.now])
  {
    var st := State(FIXED_CONFIG, ZERO_TIME, NO_GEAR);
    var later := st.(lastChangeAt := r0.now);
    FreeRound(FIXED_CONFIG, st, r0);
    FreeRound(FIXED_CONFIG, later, r1);
    states := [st, later, later];
  }

  /** The hypotheses of the convergence theorem can be met: a pool of two idle instances reaches its
      target in one round and rests in the next. */
  lemma PairConverges() returns (states: seq<State>)
    ensures Consecutive(FIXED_CONFIG, states, [IDLE_PAIR, SERVING_PAIR], [10, 20])
  {
    PairIsCarriedOut();
    PairsAreUnhindered();
    PairRests();
    states := RunOfTwo(PD(FIXED_CONFIG, IDLE_PAIR, 10), PD(FIXED_CONFIG, SERVING_PAIR, 20));
  }
}
