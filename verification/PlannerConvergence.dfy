/** Progress of the fixed-gear planner: every round closes exactly as much of the gap to the target
    as it may, so the pool reaches the target in a known number of rounds and then rests. */
module PlannerConvergence {
  import opened Domain
  import opened PlannerTypes
  import opened PlannerPhases
  import opened PlannerRound
  import opened PlannerRails
  import opened PlannerProgress
  import opened PlannerTheorems
  import opened PlannerNaming
  import opened PlannerSurvival

  // ------------------------------------------------------------------ pools

  /** Who runs what: the role of every instance the planner sees, NoRole for an idle one. */
  type Pool = map<int, Role>

  ghost function Roles(cs: seq<Candidate>): Pool {
    if cs == [] then map[] else Roles(cs[..|cs| - 1])[cs[|cs| - 1].id := cs[|cs| - 1].role]
  }

  ghost function PoolOf(input: Input): Pool { Roles(input.serving) + Roles(input.idle) }

  /** Carrying out a plan: an assigned or reassigned instance runs its new role, a drained one none,
      a released one is gone. */
  ghost function CarriedOut(pool: Pool, actions: seq<Action>): Pool {
    if actions == [] then pool
    else
      var n := |actions| - 1;
      var before, a := CarriedOut(pool, actions[..n]), actions[n];
      if a.instanceID == None then before
      else if a.kind == Release then before - {a.instanceID.value}
      else before[a.instanceID.value := a.role]
  }

  ghost function With(pool: Pool, role: Role): set<int> { set id | id in pool && pool[id] == role }

  lemma {:induction false} RolesFacts(cs: seq<Candidate>)
    requires DistinctIds(cs)
    ensures forall c | c in cs :: c.id in Roles(cs) && Roles(cs)[c.id] == c.role
    ensures forall id | id in Roles(cs) :: exists c :: c in cs && c.id == id
    ensures |Roles(cs)| == |cs|
  {
    if cs != [] {
      var n := |cs| - 1;
      RolesFacts(cs[..n]);
      assert cs == cs[..n] + [cs[n]];
      assert cs[n].id !in Roles(cs[..n]);
      forall id | id in Roles(cs) ensures exists c :: c in cs && c.id == id {
        if id in Roles(cs[..n]) {
          var c :| c in cs[..n] && c.id == id;
          assert c in cs;
        } else {
          assert cs[n] in cs;
        }
      }
    }
  }

  lemma AddOne(before: Pool, id: int, to: Role, role: Role)
    requires id !in before
    ensures |With(before[id := to], role)| == |With(before, role)| + if to == role then 1 else 0
  {
    if to == role {
      assert With(before[id := to], role) == With(before, role) + {id};
    } else {
      assert With(before[id := to], role) == With(before, role);
    }
  }

  lemma {:induction false} RolesCount(cs: seq<Candidate>, role: Role)
    requires DistinctIds(cs)
    ensures |With(Roles(cs), role)| == Count(cs, role)
  {
    if cs != [] {
      var n := |cs| - 1;
      RolesCount(cs[..n], role);
      RolesFacts(cs[..n]);
      forall c | c in cs[..n] ensures c.id != cs[n].id {
        var i :| 0 <= i < n && cs[i] == c;
      }
      AddOne(Roles(cs[..n]), cs[n].id, cs[n].role, role);
    }
  }

  /** The planner's counts are counts of the pool. */
  lemma PoolCounts(input: Input)
    requires Proper(input) && forall c | c in input.idle :: c.role == NoRole
    ensures |PoolOf(input)| == |input.serving| + |input.idle|
    ensures forall role | role != NoRole :: |With(PoolOf(input), role)| == Count(input.serving, role)
    ensures forall c | c in input.serving :: c.id in PoolOf(input) && PoolOf(input)[c.id] == c.role
    ensures forall c | c in input.idle :: c.id in PoolOf(input) && PoolOf(input)[c.id] == NoRole
  {
    RolesFacts(input.serving);
    RolesFacts(input.idle);
    var a, b := Roles(input.serving), Roles(input.idle);
    forall id | id in b ensures id !in a && b[id] == NoRole {
      var c :| c in input.idle && c.id == id;
      assert forall d | d in input.serving :: d.id != id;
    }
    assert a.Keys !! b.Keys;
    assert (a + b).Keys == a.Keys + b.Keys;
    assert |(a + b).Keys| == |a.Keys| + |b.Keys|;
    forall role | role != NoRole ensures |With(PoolOf(input), role)| == Count(input.serving, role) {
      RolesCount(input.serving, role);
      assert With(a + b, role) == With(a, role);
    }
  }

  lemma {:induction false} Untouched(pool: Pool, actions: seq<Action>, id: int)
    requires !Planned(actions, id)
    ensures id in CarriedOut(pool, actions) <==> id in pool
    ensures id in pool ==> CarriedOut(pool, actions)[id] == pool[id]
  {
    if actions != [] {
      var n := |actions| - 1;
      assert actions == actions[..n] + [actions[n]];
      PlannedSnoc(actions[..n], actions[n], id);
      Untouched(pool, actions[..n], id);
    }
  }

  lemma CarriedOutSnoc(pool: Pool, actions: seq<Action>, a: Action)
    ensures CarriedOut(pool, actions + [a]) ==
      if a.instanceID == None then CarriedOut(pool, actions)
      else if a.kind == Release then CarriedOut(pool, actions) - {a.instanceID.value}
      else CarriedOut(pool, actions)[a.instanceID.value := a.role]
  {
    assert (actions + [a])[..|actions|] == actions;
  }

  /** The running counts are the counts of the pool with the plan carried out. */
  ghost predicate Tracks(pool: Pool, w: Work) {
    var after := CarriedOut(pool, w.actions);
    && |With(after, Prefill)| == w.prefill && |With(after, Decode)| == w.decode
    && after.Keys == pool.Keys
    && forall id | id in after :: after[id] in {NoRole, Prefill, Decode}
  }

  lemma MoveOne(before: Pool, id: int, to: Role, role: Role)
    requires id in before && before[id] != to
    ensures |With(before[id := to], role)|
         == |With(before, role)| + (if to == role then 1 else 0) - (if before[id] == role then 1 else 0)
  {
    var after := before[id := to];
    if to == role {
      assert With(after, role) == With(before, role) + {id};
    } else if before[id] == role {
      assert With(after, role) == With(before, role) - {id};
    } else {
      assert With(after, role) == With(before, role);
    }
  }

  /** Moving one untouched instance from one role to another moves the counts. */
  lemma TracksMove(pool: Pool, w: Work, a: Action, from: Role)
    requires Tracks(pool, w) && a.instanceID.Some? && a.kind != Release
    requires !Planned(w.actions, a.instanceID.value)
    requires a.instanceID.value in pool && pool[a.instanceID.value] == from
    requires from != a.role && from in {NoRole, Prefill, Decode} && a.role in {Prefill, Decode}
    ensures Tracks(pool, Work(w.actions + [a],
                              w.prefill + (if a.role == Prefill then 1 else 0) - (if from == Prefill then 1 else 0),
                              w.decode + (if a.role == Decode then 1 else 0) - (if from == Decode then 1 else 0)))
  {
    var id := a.instanceID.value;
    Untouched(pool, w.actions, id);
    CarriedOutSnoc(pool, w.actions, a);
    var before, after := CarriedOut(pool, w.actions), CarriedOut(pool, w.actions + [a]);
    MoveOne(before, id, a.role, Prefill);
    MoveOne(before, id, a.role, Decode);
    assert after == before[id := a.role];
  }

  // ---------------------------------------------------------------- the gap

  /** How far the pool is from its target. */
  function Gap(prefill: int, decode: int, t: Targets): int {
    Max(0, t.prefill - prefill) + Max(0, t.decode - decode)
  }

  lemma {:induction false} FillTracks(pool: Pool, idle: seq<Candidate>, w: Work, t: Targets, cap: int)
    requires t.prefill + t.decode == t.total && Tracks(pool, w) && DistinctIds(idle)
    requires forall c | c in idle :: c.id in pool && pool[c.id] == NoRole && !Planned(w.actions, c.id)
    ensures var r := FillIdle(idle, w, t.prefill, t.decode, t.total, cap);
      && Tracks(pool, r)
      && Gap(r.prefill, r.decode, t) == Gap(w.prefill, w.decode, t) - (|r.actions| - |w.actions|)
      && r.prefill + r.decode == w.prefill + w.decode + |r.actions| - |w.actions|
  {
    if idle != [] && w.prefill + w.decode < t.total && |w.actions| < cap {
      var role := if w.prefill < t.prefill then Prefill else Decode;
      var a := AssignOf(idle[0], role);
      var next := if w.prefill < t.prefill then Work(w.actions + [a], w.prefill + 1, w.decode)
                  else Work(w.actions + [a], w.prefill, w.decode + 1);
      TracksMove(pool, w, a, NoRole);
      forall c | c in idle[1..] ensures !Planned(next.actions, c.id) {
        PlannedSnoc(w.actions, a, c.id);
      }
      FillTracks(pool, idle[1..], next, t, cap);
    }
  }

  lemma {:induction false} ConvertTracksToPrefill(pool: Pool, queue: seq<Candidate>, w: Work, t: Targets, cap: int)
    requires w.prefill + w.decode == t.prefill + t.decode && w.prefill <= t.prefill && t.decode >= 1
    requires Tracks(pool, w) && DistinctIds(queue) && CountFree(queue, w.actions, Decode) == w.decode
    requires forall c | c in queue :: c.id in pool && pool[c.id] == c.role
    ensures var r := Convert(queue, w, t.prefill, t.decode, cap);
      && Tracks(pool, r) && |r.actions| == |w.actions| + Max(0, Min(cap - |w.actions|, t.prefill - w.prefill))
      && Gap(r.prefill, r.decode, t) == Gap(w.prefill, w.decode, t) - (|r.actions| - |w.actions|)
    decreases cap - |w.actions|
  {
    if |w.actions| < cap && w.prefill < t.prefill {
      NextInFindsFree(queue, w.actions, Decode);
      var c := NextIn(queue, w.actions, Decode).value;
      TracksMove(pool, w, ReassignOf(c, Prefill), Decode);
      CountFreeSnoc(queue, w.actions, ReassignOf(c, Prefill), c, Decode);
      ConvertTracksToPrefill(pool, queue, ToPrefill(w, c), t, cap);
    }
  }

  lemma {:induction false} ConvertTracksToDecode(pool: Pool, queue: seq<Candidate>, w: Work, t: Targets, cap: int)
    requires w.prefill + w.decode == t.prefill + t.decode && w.decode <= t.decode && t.prefill >= 1
    requires Tracks(pool, w) && DistinctIds(queue) && CountFree(queue, w.actions, Prefill) == w.prefill
    requires forall c | c in queue :: c.id in pool && pool[c.id] == c.role
    ensures var r := Convert(queue, w, t.prefill, t.decode, cap);
      && Tracks(pool, r) && |r.actions| == |w.actions| + Max(0, Min(cap - |w.actions|, t.decode - w.decode))
      && Gap(r.prefill, r.decode, t) == Gap(w.prefill, w.decode, t) - (|r.actions| - |w.actions|)
    decreases cap - |w.actions|
  {
    if |w.actions| < cap && w.decode < t.decode {
      NextInFindsFree(queue, w.actions, Prefill);
      var c := NextIn(queue, w.actions, Prefill).value;
      TracksMove(pool, w, ReassignOf(c, Decode), Prefill);
      CountFreeSnoc(queue, w.actions, ReassignOf(c, Decode), c, Prefill);
      ConvertTracksToDecode(pool, queue, ToDecode(w, c), t, cap);
    }
  }

  lemma GapNotNegative(prefill: int, decode: int, t: Targets)
    ensures Gap(prefill, decode, t) >= 0
  {
  }

  /** Conversions close the gap one by one until the round is full or nothing is missing. */
  lemma Converting(pool: Pool, queue: seq<Candidate>, w: Work, t: Targets, cap: int)
    requires Tracks(pool, w) && DistinctIds(queue) && |w.actions| <= cap
    requires |w.actions| < cap ==> w.prefill + w.decode == t.prefill + t.decode && t.prefill >= 1 && t.decode >= 1
    requires |w.actions| < cap && w.prefill < t.prefill ==> CountFree(queue, w.actions, Decode) == w.decode
    requires |w.actions| < cap && w.decode < t.decode ==> CountFree(queue, w.actions, Prefill) == w.prefill
    requires forall c | c in queue :: c.id in pool && pool[c.id] == c.role
    ensures var r := Convert(queue, w, t.prefill, t.decode, cap);
      && Tracks(pool, r) && |r.actions| == |w.actions| + Min(cap - |w.actions|, Gap(w.prefill, w.decode, t))
      && Gap(r.prefill, r.decode, t) == Gap(w.prefill, w.decode, t) - (|r.actions| - |w.actions|)
  {
    GapNotNegative(w.prefill, w.decode, t);
    if |w.actions| < cap {
      if w.prefill < t.prefill {
        ConvertTracksToPrefill(pool, queue, w, t, cap);
      } else if w.decode < t.decode {
        ConvertTracksToDecode(pool, queue, w, t, cap);
      }
    }
  }

  // -------------------------------------------------------------- one round

  /** A round of the fixed planner with nothing in its way: no cap on the pool, no leftover regular
      worker, nobody within min_hold, and at least two instances. */
  ghost predicate Unhindered(r: PDRound) {
    && r.Proper() && !r.config.mode.Auto? && !r.config.mode.Aggregated? && r.config.maxServing == 0
    && (forall c | c in r.input.serving :: c.role in {Prefill, Decode} && PastHold(c, r.now, r.config.minHold))
    && (forall c | c in r.input.idle :: c.role == NoRole)
    && |r.input.serving| + |r.input.idle| >= 2
  }

  ghost function GapOf(r: PDRound): int { Gap(r.Prefills(), r.Decodes(), r.T()) }

  lemma {:induction false} CountBoth(cs: seq<Candidate>)
    requires forall c | c in cs :: c.role in {Prefill, Decode}
    ensures Count(cs, Prefill) + Count(cs, Decode) == |cs| && Count(cs, Regular) == 0
  {
    if cs != [] {
      CountBoth(cs[..|cs| - 1]);
    }
  }

  lemma {:induction false} NobodyHeld(cs: seq<Candidate>, now: Time, minHold: int)
    requires forall c | c in cs :: !Held(c, now, minHold)
    ensures Unheld(cs, now, minHold) == cs
  {
    if cs != [] {
      NobodyHeld(cs[..|cs| - 1], now, minHold);
    }
  }

  lemma QueueIsEveryone(r: PDRound)
    requires Unhindered(r)
    ensures Count(r.Queue(), Prefill) == r.Prefills() && Count(r.Queue(), Decode) == r.Decodes()
    ensures Count(r.Queue(), Regular) == 0
    ensures r.Prefills() + r.Decodes() == |r.input.serving|
  {
    NobodyHeld(r.input.serving, r.now, r.config.minHold);
    CountSorted(r.input.serving, Prefill);
    CountSorted(r.input.serving, Decode);
    CountSorted(r.input.serving, Regular);
    CountBoth(r.input.serving);
  }

  lemma Opening(r: PDRound)
    requires Unhindered(r)
    ensures r.Trimmed() == Work([], r.Prefills(), r.Decodes())
    ensures r.T().total == |r.input.serving| + |r.input.idle| >= 2
    ensures Tracks(PoolOf(r.input), r.Trimmed())
  {
    QueueIsEveryone(r);
    DrainRegularCount(r.Queue(), [], r.Cap());
    TrimmedFacts(r);
    PoolCounts(r.input);
    var pool := PoolOf(r.input);
    assert CarriedOut(pool, []) == pool;
    RolesFacts(r.input.serving);
    RolesFacts(r.input.idle);
  }

  /** Employing the idle closes one unit of the gap each, and uses the round up or the idle. */
  lemma Employing(r: PDRound)
    requires Unhindered(r)
    ensures var w := r.Filled();
      && Tracks(PoolOf(r.input), w) && |w.actions| == Min(r.Cap(), |r.input.idle|)
      && Gap(w.prefill, w.decode, r.T()) == GapOf(r) - |w.actions|
      && w.prefill + w.decode == r.Prefills() + r.Decodes() + |w.actions|
      && CountFree(r.Queue(), w.actions, Prefill) == r.Prefills()
      && CountFree(r.Queue(), w.actions, Decode) == r.Decodes()
  {
    Opening(r);
    QueueFacts(r);
    QueueIsEveryone(r);
    TargetsAddUp(r);
    PoolCounts(r.input);
    FillTracks(PoolOf(r.input), SortById(r.input.idle), r.Trimmed(), r.T(), r.Cap());
    var n := FilledNames(r);
    FreeWhenFilled(r, r.Queue(), Prefill);
    FreeWhenFilled(r, r.Queue(), Decode);
  }

  /** A round emits exactly as many actions as the gap needs and the round allows; carrying them out
      closes the gap by that number, and the pool keeps its instances. */
  lemma RoundClosesGap(r: PDRound)
    requires Unhindered(r)
    ensures var n := |r.Actions()|; var after := CarriedOut(PoolOf(r.input), r.Actions());
      && n == Min(r.Cap(), GapOf(r))
      && Gap(|With(after, Prefill)|, |With(after, Decode)|, r.T()) == GapOf(r) - n
      && after.Keys == PoolOf(r.input).Keys
  {
    ActionsAreConverted(r);
    Employing(r);
    Opening(r);
    TargetsAddUp(r);
    QueueFacts(r);
    PoolCounts(r.input);
    FilledCounts(r);
    var w, t := r.Filled(), r.T();
    Converting(PoolOf(r.input), r.Queue(), w, t, r.Cap());
    GapNotNegative(w.prefill, w.decode, t);
  }

  // ------------------------------------------------------------ many rounds

  /** A planner round that is not cooling plans by the fixed gear. */
  lemma RoundIsFixedPD(st: State, input: Input, now: Time)
    requires st.config.NormalisedMode() == Fixed && Supported(st.config.gear) && !Cooling(st, now)
    ensures var r := PDRound(st.config, st.config.gear, false, input, now);
      && Round(st, input, now).Rounded?
      && Round(st, input, now).decision.actions == r.Actions()
      && Round(st, input, now).next == (if r.Actions() == [] then st else st.(lastChangeAt := now))
      && Round(st, input, now).decision.targetPrefill == r.T().prefill
      && Round(st, input, now).decision.targetDecode == r.T().decode
  {
    ActionsAreConverted(PDRound(st.config, st.config.gear, false, input, now));
  }

  ghost function PD(config: Config, input: Input, now: Time): PDRound {
    PDRound(config, config.gear, false, input, now)
  }

  /** A round that is not cooling leads from one state of the planner to the next. */
  ghost predicate Leads(config: Config, st: State, input: Input, now: Time, next: State) {
    && st.config == config && !Cooling(st, now)
    && Round(st, input, now).Rounded? && next == Round(st, input, now).next
  }

  /** Consecutive rounds of one planner: each finds the pool the previous plan left when carried out,
      past its cooldown and with nobody within min_hold, in whatever order and with whatever ages. */
  ghost predicate Consecutive(config: Config, states: seq<State>, inputs: seq<Input>, nows: seq<Time>) {
    && |states| == |inputs| + 1 && |nows| == |inputs|
    && Supported(config.gear)
    && (forall i | 0 <= i < |inputs| :: Unhindered(PD(config, inputs[i], nows[i])))
    && (forall i {:trigger states[i]} | 0 <= i < |inputs| :: Leads(config, states[i], inputs[i], nows[i], states[i + 1]))
    && forall i | 0 < i < |inputs| ::
          PoolOf(inputs[i]) == CarriedOut(PoolOf(inputs[i - 1]), Round(states[i - 1], inputs[i - 1], nows[i - 1]).decision.actions)
  }

  lemma SamePoolSize(r0: PDRound, r1: PDRound)
    requires Unhindered(r0) && Unhindered(r1) && r0.config == r1.config && r0.gear == r1.gear
    requires PoolOf(r1.input).Keys == PoolOf(r0.input).Keys
    ensures r1.T() == r0.T()
  {
    PoolCounts(r0.input);
    PoolCounts(r1.input);
    assert |PoolOf(r1.input)| == |PoolOf(r1.input).Keys| == |PoolOf(r0.input).Keys| == |PoolOf(r0.input)|;
    QueueIsEveryone(r0);
    QueueIsEveryone(r1);
  }

  /** The next round finds the gap the previous one left. */
  lemma NextGap(r0: PDRound, r1: PDRound)
    requires Unhindered(r0) && Unhindered(r1) && r0.config == r1.config && r0.gear == r1.gear
    requires PoolOf(r1.input) == CarriedOut(PoolOf(r0.input), r0.Actions())
    ensures GapOf(r1) == GapOf(r0) - |r0.Actions()|
    ensures r1.T() == r0.T()
  {
    RoundClosesGap(r0);
    SamePoolSize(r0, r1);
    PoolCounts(r1.input);
    assert |With(PoolOf(r1.input), Prefill)| == r1.Prefills() && |With(PoolOf(r1.input), Decode)| == r1.Decodes();
  }

  lemma OneRoundMore(gap0: int, cap: int, i: nat, gap: int)
    requires gap0 >= 0 && cap > 0 && gap == Max(0, gap0 - i * cap)
    ensures gap - Min(cap, gap) == Max(0, gap0 - (i + 1) * cap)
  {
    assert (i + 1) * cap == i * cap + cap;
  }

  ghost function RoundAt(config: Config, inputs: seq<Input>, nows: seq<Time>, i: nat): PDRound
    requires i < |inputs| && i < |nows|
  {
    PD(config, inputs[i], nows[i])
  }

  /** What each round of a consecutive run emits. */
  lemma EmittedAt(config: Config, states: seq<State>, inputs: seq<Input>, nows: seq<Time>, i: nat)
    requires Consecutive(config, states, inputs, nows) && i < |inputs|
    ensures var r := RoundAt(config, inputs, nows, i);
      && Unhindered(r) && GapOf(r) >= 0
      && Round(states[i], inputs[i], nows[i]).decision.actions == r.Actions()
      && |r.Actions()| == Min(config.maxChangePerRound, GapOf(r))
      && states[i + 1] == if r.Actions() == [] then states[i] else states[i].(lastChangeAt := nows[i])
  {
    var r := RoundAt(config, inputs, nows, i);
    RoundIsFixedPD(states[i], inputs[i], nows[i]);
    RoundClosesGap(r);
    GapNotNegative(r.Prefills(), r.Decodes(), r.T());
  }

  /** Two rounds in a row, taken out of a run. */
  lemma InARow(config: Config, states: seq<State>, inputs: seq<Input>, nows: seq<Time>, i: nat)
    requires Consecutive(config, states, inputs, nows) && 0 < i < |inputs|
    ensures var r0, r1 := RoundAt(config, inputs, nows, i - 1), RoundAt(config, inputs, nows, i);
      Unhindered(r0) && Unhindered(r1) && PoolOf(r1.input) == CarriedOut(PoolOf(r0.input), r0.Actions())
  {
    assert Unhindered(PD(config, inputs[i - 1], nows[i - 1])) && Unhindered(PD(config, inputs[i], nows[i]));
    RoundIsFixedPD(states[i - 1], inputs[i - 1], nows[i - 1]);
  }

  lemma GapCloses(r0: PDRound, r1: PDRound)
    requires Unhindered(r0) && Unhindered(r1) && r0.config == r1.config && r0.gear == r1.gear
    requires PoolOf(r1.input) == CarriedOut(PoolOf(r0.input), r0.Actions())
    ensures GapOf(r1) == GapOf(r0) - Min(r0.Cap(), GapOf(r0)) && r1.T() == r0.T()
  {
    NextGap(r0, r1);
    RoundClosesGap(r0);
  }

  lemma GapStep(config: Config, states: seq<State>, inputs: seq<Input>, nows: seq<Time>, i: nat)
    requires Consecutive(config, states, inputs, nows) && 0 < i < |inputs|
    ensures var before := GapOf(RoundAt(config, inputs, nows, i - 1));
      GapOf(RoundAt(config, inputs, nows, i)) == before - Min(config.maxChangePerRound, before)
    ensures RoundAt(config, inputs, nows, i).T() == RoundAt(config, inputs, nows, i - 1).T()
  {
    InARow(config, states, inputs, nows, i);
    GapCloses(RoundAt(config, inputs, nows, i - 1), RoundAt(config, inputs, nows, i));
  }

  /** The gap of every round, and the target they share. */
  ghost function GapsOf(config: Config, inputs: seq<Input>, nows: seq<Time>): seq<int>
    requires |inputs| == |nows|
  {
    seq(|inputs|, i requires 0 <= i < |inputs| => GapOf(RoundAt(config, inputs, nows, i)))
  }

  /** Closing a gap by at most `cap` a step. */
  lemma {:induction false} Descends(gaps: seq<int>, cap: int, i: nat)
    requires cap > 0 && i < |gaps| && gaps[0] >= 0
    requires forall k | 0 < k < |gaps| :: gaps[k] == gaps[k - 1] - Min(cap, gaps[k - 1])
    ensures gaps[i] == Max(0, gaps[0] - i * cap)
  {
    if i > 0 {
      Descends(gaps, cap, i - 1);
      OneRoundMore(gaps[0], cap, i - 1, gaps[i - 1]);
    }
  }

  lemma {:induction false} SameTarget(config: Config, states: seq<State>, inputs: seq<Input>, nows: seq<Time>, i: nat)
    requires Consecutive(config, states, inputs, nows) && i < |inputs|
    ensures RoundAt(config, inputs, nows, i).T() == RoundAt(config, inputs, nows, 0).T()
  {
    if i > 0 {
      SameTarget(config, states, inputs, nows, i - 1);
      GapStep(config, states, inputs, nows, i);
    }
  }

  lemma GapsDescend(config: Config, states: seq<State>, inputs: seq<Input>, nows: seq<Time>)
    requires Consecutive(config, states, inputs, nows) && |inputs| > 0
    ensures var gaps := GapsOf(config, inputs, nows);
      && gaps[0] >= 0 && config.maxChangePerRound > 0
      && forall k | 0 < k < |gaps| :: gaps[k] == gaps[k - 1] - Min(config.maxChangePerRound, gaps[k - 1])
  {
    EmittedAt(config, states, inputs, nows, 0);
    var gaps := GapsOf(config, inputs, nows);
    forall k | 0 < k < |gaps| ensures gaps[k] == gaps[k - 1] - Min(config.maxChangePerRound, gaps[k - 1]) {
      GapStep(config, states, inputs, nows, k);
    }
  }

  /** Round by round, a pool in nobody's way closes max_change_per_round of its gap until nothing is
      missing; every plan is exactly as long as what it closes. */
  lemma GapAfter(config: Config, states: seq<State>, inputs: seq<Input>, nows: seq<Time>, i: nat)
    requires Consecutive(config, states, inputs, nows) && i < |inputs|
    ensures var gap := GapOf(RoundAt(config, inputs, nows, i));
      && gap == Max(0, GapOf(RoundAt(config, inputs, nows, 0)) - i * config.maxChangePerRound)
      && |Round(states[i], inputs[i], nows[i]).decision.actions| == Min(config.maxChangePerRound, gap)
    ensures RoundAt(config, inputs, nows, i).T() == RoundAt(config, inputs, nows, 0).T()
  {
    GapsDescend(config, states, inputs, nows);
    Descends(GapsOf(config, inputs, nows), config.maxChangePerRound, i);
    SameTarget(config, states, inputs, nows, i);
    EmittedAt(config, states, inputs, nows, i);
  }

  /** After ceil(gap / max_change_per_round) rounds the pool is exactly at its target, and from then on
      every plan is empty and the cooldown clock stands still. */
  lemma ReachesTargetAndRests(config: Config, states: seq<State>, inputs: seq<Input>, nows: seq<Time>, i: nat)
    requires Consecutive(config, states, inputs, nows) && i < |inputs|
    requires i * config.maxChangePerRound >= GapOf(RoundAt(config, inputs, nows, 0))
    ensures var r := RoundAt(config, inputs, nows, i);
      && Count(inputs[i].serving, Prefill) == r.T().prefill && Count(inputs[i].serving, Decode) == r.T().decode
      && inputs[i].idle == []
      && Round(states[i], inputs[i], nows[i]).decision.actions == []
      && states[i + 1] == states[i]
  {
    GapAfter(config, states, inputs, nows, i);
    EmittedAt(config, states, inputs, nows, i);
    var r := RoundAt(config, inputs, nows, i);
    TargetsAddUp(r);
    Opening(r);
    QueueIsEveryone(r);
  }
}
