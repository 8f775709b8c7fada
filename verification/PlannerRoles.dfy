/** When both roles keep a serving worker that a round does not touch: the exact condition, for every
    disaggregated round. */
module PlannerRoles {
  import opened Domain
  import opened PlannerTypes
  import opened PlannerPhases
  import opened PlannerRails
  import opened PlannerProgress
  import opened PlannerTheorems
  import opened PlannerNaming
  import opened PlannerSurvival
  import opened PlannerSurplus

  // ----------------------------------------------------------- the condition

  /** The room regular drains and the capacity verb leave in the round. */
  ghost function Room(r: PDRound): int {
    r.Cap() - RegularDrains(r) - if r.Verb().Some? then 1 else 0
  }

  /** The round names every worker of the role.  None of them is held back, and of those the capacity
      verb leaves
      - there is none; or
      - the role's target is covered by the one given back, and the round has room for them and for the
        surplus workers of the other role that come before the youngest of them; or
      - the surplus and the room take every movable worker there is. */
  ghost predicate Empties(r: PDRound, role: Role) {
    var workers, others := Count(r.input.serving, role), Count(r.input.serving, Other(role));
    var free, otherFree := workers - Taken(r, role), Count(r.Queue(), Other(role)) - Taken(r, Other(role));
    var beyond := Max(0, others - TargetOf(r.T(), Other(role)));
    && Count(r.Queue(), role) == workers
    && (|| free == 0
        || (TargetOf(r.T(), role) <= Taken(r, role) && free + Min(Ahead(r.Queue(), r.Reserved().actions, role), beyond) <= Room(r))
        || free + otherFree <= Min(r.Surplus(), Room(r)))
  }

  // ------------------------------------------------------------- arithmetic

  /** The workers of a role that conversions take after the drains. */
  function ConvertedAway(own: Side, other: Side, room: int): int {
    if other.counter < other.target then Conversions(room, other.target - other.counter, own.counter, own.free) else 0
  }

  predicate EmptiedByCounts(own: Side, other: Side, held: int, taken: int, ahead: int, room: int) {
    && held == 0
    && (|| own.free == 0
        || (own.target <= taken && own.free + Min(ahead, Max(0, other.counter - other.target)) <= room)
        || own.free + other.free <= Min(own.counter + other.counter - own.target - other.target, room))
  }

  /** Drains and conversions together leave nobody exactly by the counts. */
  lemma DrainedAndConverted(own: Side, other: Side, held: int, taken: int, ahead: nat, room: int,
                            ownAfter: Side, otherAfter: Side, n: int)
    requires DrainedTo(own, other, ahead, room, ownAfter, otherAfter, n)
    requires own.free >= 0 && other.free >= 0 && ownAfter.free >= 0 && held >= 0 && 0 <= taken <= 1 && 0 <= n <= room
    requires own.counter == own.free + held + taken && other.counter >= other.free && otherAfter.free >= 0
    requires ownAfter.target == own.target >= 0 && otherAfter.target == other.target >= 0
    requires own.counter + other.counter > own.target + other.target && other.counter >= 1
    requires (own.target == 0 ==> other.target == 1) && (other.target == 0 ==> own.target == 1)
    ensures ownAfter.free + held - ConvertedAway(ownAfter, otherAfter, room - n) >= 0
    ensures ownAfter.free + held - ConvertedAway(ownAfter, otherAfter, room - n) == 0
       <==> EmptiedByCounts(own, other, held, taken, ahead, room)
  {
  }

  // ------------------------------------------------------- the surplus drains

  /** Drains take held workers nowhere: outside the queue a role keeps its untouched workers. */
  lemma {:induction false} HeldStay(queue: seq<Candidate>, all: seq<Candidate>, w: Work, tp: int, td: int, budget: int, cap: int, role: Role)
    requires DistinctIds(queue) && DistinctIds(all) && forall c | c in queue :: c in all
    ensures var r := DrainSurplus(queue, w, tp, td, budget, cap);
      CountFree(all, r.actions, role) - CountFree(queue, r.actions, role)
      == CountFree(all, w.actions, role) - CountFree(queue, w.actions, role)
    decreases budget
  {
    if budget > 0 && |w.actions| < cap {
      ChosenDrain(queue, w, tp, td);
      var chosen := ChooseDrain(queue, w, tp, td);
      if chosen.Some? {
        CountFreeSnoc(queue, w.actions, DrainOf(chosen.value), chosen.value, role);
        CountFreeSnoc(all, w.actions, DrainOf(chosen.value), chosen.value, role);
        HeldStay(queue, all, Drained(w, chosen.value), tp, td, budget - 1, cap, role);
      }
    }
  }

  /** What regular drains and the verb leave, as the surplus drains find it. */
  lemma ReservedSide(r: PDRound, role: Role)
    requires r.Proper() && role in {Prefill, Decode}
    ensures var w := r.Reserved();
      && CountFree(r.Queue(), w.actions, role) == Count(r.Queue(), role) - Taken(r, role)
      && CountFree(r.input.serving, w.actions, role) == Count(r.input.serving, role) - Taken(r, role)
      && Count(r.Queue(), role) <= Count(r.input.serving, role)
  {
    QueueFacts(r);
    FreeWhenReserved(r, r.Queue(), role);
    FreeWhenReserved(r, r.input.serving, role);
    CountMonotone(r, role);
  }

  lemma ReservedLength(r: PDRound)
    requires r.Proper()
    ensures |r.Reserved().actions| == r.Cap() - Room(r) <= r.Cap()
    ensures |r.Reserved().actions| < r.Cap() ==> OnlyPDLeft(r.Queue(), r.Reserved())
  {
    QueueFacts(r);
    DrainedFacts(r);
    VerbFacts(r);
    VerbIsIdleRelease(r);
    var w := r.Reserved();
    if |w.actions| < r.Cap() {
      forall c | c in r.Queue() && !Planned(w.actions, c.id) ensures c.role == Prefill || c.role == Decode {
        if r.Verb().Some? {
          PlannedSnoc(r.Drained(), r.Verb().value, c.id);
        }
        assert c.role == Regular ==> Planned(r.Drained(), c.id);
      }
    }
  }

  ghost function StartOf(r: PDRound, role: Role): Side {
    SideOf(r.Queue(), r.Reserved(), r.T().prefill, r.T().decode, role)
  }

  ghost function EndOf(r: PDRound, role: Role): Side {
    SideOf(r.Queue(), r.Trimmed(), r.T().prefill, r.T().decode, role)
  }

  /** Workers of the role within their hold time. */
  ghost function HeldOf(r: PDRound, role: Role): int { Count(r.input.serving, role) - Count(r.Queue(), role) }

  lemma TrimmedSide(r: PDRound, role: Role)
    requires r.Proper() && role in {Prefill, Decode}
    ensures DrainedTo(StartOf(r, role), StartOf(r, Other(role)), Ahead(r.Queue(), r.Reserved().actions, role), Room(r),
                      EndOf(r, role), EndOf(r, Other(role)), |r.Trimmed().actions| - |r.Reserved().actions|)
  {
    QueueFacts(r);
    ReservedLength(r);
    DrainsRunDry(r.Queue(), r.Reserved(), r.T().prefill, r.T().decode, r.Surplus(), r.Cap(), role);
  }

  lemma TrimmedFree(r: PDRound, role: Role)
    requires r.Proper() && role in {Prefill, Decode}
    ensures CountFree(r.input.serving, r.Trimmed().actions, role) == EndOf(r, role).free + HeldOf(r, role)
  {
    QueueFacts(r);
    ReservedSide(r, role);
    HeldStay(r.Queue(), r.input.serving, r.Reserved(), r.T().prefill, r.T().decode, r.Surplus(), r.Cap(), role);
  }

  lemma ConvertLeavesSide(queue: seq<Candidate>, w: Work, tp: int, td: int, cap: int, all: seq<Candidate>, role: Role)
    requires DistinctIds(queue) && DistinctIds(all) && forall c | c in queue :: c in all
    requires w.prefill + w.decode >= tp + td && role in {Prefill, Decode} && |w.actions| <= cap
    ensures CountFree(all, Convert(queue, w, tp, td, cap).actions, role)
         == CountFree(all, w.actions, role)
            - ConvertedAway(SideOf(queue, w, tp, td, role), SideOf(queue, w, tp, td, Other(role)), cap - |w.actions|)
  {
    ConvertLeaves(queue, w, tp, td, cap, all);
  }

  /** With a surplus nobody idle is employed: conversions start where the drains end. */
  lemma NobodyEmployed(r: PDRound)
    requires r.Proper() && r.Surplus() > 0
    ensures r.Actions() == Convert(r.Queue(), r.Trimmed(), r.T().prefill, r.T().decode, r.Cap()).actions
    ensures r.Trimmed().prefill + r.Trimmed().decode >= r.T().prefill + r.T().decode && |r.Trimmed().actions| <= r.Cap()
  {
    TrimmedFacts(r);
    ActionsAreConverted(r);
  }

  lemma ConvertedSide(r: PDRound, role: Role)
    requires r.Proper() && r.Surplus() > 0 && role in {Prefill, Decode}
    ensures CountFree(r.input.serving, r.Actions(), role)
         == EndOf(r, role).free + HeldOf(r, role)
            - ConvertedAway(EndOf(r, role), EndOf(r, Other(role)), r.Cap() - |r.Trimmed().actions|)
  {
    QueueFacts(r);
    TrimmedFree(r, role);
    NobodyEmployed(r);
    ConvertLeavesSide(r.Queue(), r.Trimmed(), r.T().prefill, r.T().decode, r.Cap(), r.input.serving, role);
  }

  lemma StartSide(r: PDRound, role: Role)
    requires r.Proper() && role in {Prefill, Decode}
    ensures StartOf(r, role)
         == Side(Count(r.Queue(), role) - Taken(r, role), Count(r.input.serving, role), TargetOf(r.T(), role))
    ensures HeldOf(r, role) >= 0 && StartOf(r, role).free >= 0
  {
    ReservedSide(r, role);
  }

  /** The condition speaks of the counts the drains start from. */
  lemma EmptiesByCounts(r: PDRound, role: Role)
    requires r.Proper() && role in {Prefill, Decode} && r.Surplus() > 0
    ensures Empties(r, role)
       <==> EmptiedByCounts(StartOf(r, role), StartOf(r, Other(role)), HeldOf(r, role), Taken(r, role),
                            Ahead(r.Queue(), r.Reserved().actions, role), Room(r))
  {
    StartSide(r, role);
    StartSide(r, Other(role));
    TargetsAddUp(r);
  }

  lemma SurplusTargets(r: PDRound)
    requires r.Proper() && r.Surplus() > 0 && r.Prefills() >= 1 && r.Decodes() >= 1
    ensures var t := r.T();
      && t.prefill >= 0 && t.decode >= 1 && (t.prefill == 0 ==> t.decode == 1)
      && t.prefill + t.decode == t.total < r.Prefills() + r.Decodes()
  {
  }

  lemma DrainsFit(r: PDRound)
    requires r.Proper()
    ensures 0 <= |r.Trimmed().actions| - |r.Reserved().actions| <= Room(r)
    ensures r.Cap() - |r.Trimmed().actions| == Room(r) - (|r.Trimmed().actions| - |r.Reserved().actions|)
  {
    ReservedLength(r);
    TrimmedFacts(r);
  }

  lemma SurplusEmptiesExactlyWhen(r: PDRound, role: Role)
    requires r.Proper() && r.Surplus() > 0 && r.Prefills() >= 1 && r.Decodes() >= 1 && role in {Prefill, Decode}
    ensures CountFree(r.input.serving, r.Actions(), role) == 0 <==> Empties(r, role)
  {
    ConvertedSide(r, role);
    TrimmedSide(r, role);
    StartSide(r, role);
    StartSide(r, Other(role));
    DrainsFit(r);
    SurplusTargets(r);
    EmptiesByCounts(r, role);
    DrainedAndConverted(StartOf(r, role), StartOf(r, Other(role)), HeldOf(r, role), Taken(r, role),
                        Ahead(r.Queue(), r.Reserved().actions, role), Room(r), EndOf(r, role), EndOf(r, Other(role)),
                        |r.Trimmed().actions| - |r.Reserved().actions|);
  }

  // ------------------------------------------------------------- the theorem

  /** The worker given back is one of the queue. */
  lemma GivesBackMovable(r: PDRound)
    requires r.Proper() && GivenBack(r) in {Prefill, Decode}
    ensures Count(r.Queue(), GivenBack(r)) >= 1
  {
    ReservedSide(r, GivenBack(r));
  }

  /** Without a surplus the condition is the one found for give-backs. */
  lemma ConditionsAgree(r: PDRound)
    requires r.Proper() && r.Surplus() <= 0 && r.Prefills() >= 1 && r.Decodes() >= 1
    ensures GivesBackTheLast(r) <==> Empties(r, Prefill) || Empties(r, Decode)
  {
    ReservedSide(r, Prefill);
    ReservedSide(r, Decode);
    TargetsAddUp(r);
    VerbIsIdleRelease(r);
    if GivenBack(r) in {Prefill, Decode} {
      GivingBackCounts(r);
      GivesBackMovable(r);
    }
  }

  /** Both roles keep a serving worker that no action names exactly unless the round names every worker
      of one of them - in every disaggregated round of a pool that serves with both roles, with or
      without a surplus, a capacity verb, idle instances and workers in their hold time. */
  lemma RolesSurviveExactlyWhen(r: PDRound)
    requires r.Proper() && r.Prefills() >= 1 && r.Decodes() >= 1
    ensures RolesSurvive(r) <==> !Empties(r, Prefill) && !Empties(r, Decode)
  {
    if r.Surplus() > 0 {
      SurplusEmptiesExactlyWhen(r, Prefill);
      SurplusEmptiesExactlyWhen(r, Decode);
    } else {
      SurviveWithoutSurplus(r);
      ConditionsAgree(r);
    }
  }

  /** With capacity actions off and no surplus to drain both roles survive. */
  lemma RolesSurviveWithoutCapacityActions(r: PDRound)
    requires r.Proper() && r.Surplus() <= 0 && r.Prefills() >= 1 && r.Decodes() >= 1 && !r.config.capacityActions
    ensures RolesSurvive(r)
  {
    SurviveWithoutSurplus(r);
  }
}
