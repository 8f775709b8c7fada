/** What draining workers beyond max_serving takes from a role: exactly when it takes every movable
    worker of it. */
module PlannerSurplus {
  import opened Domain
  import opened PlannerTypes
  import opened PlannerPhases
  import opened PlannerRails
  import opened PlannerProgress

  function Other(role: Role): Role { if role == Prefill then Decode else Prefill }

  function Counter(w: Work, role: Role): int { if role == Prefill then w.prefill else w.decode }

  ghost predicate OnlyPDLeft(queue: seq<Candidate>, w: Work) {
    forall c | c in queue && !Planned(w.actions, c.id) :: c.role == Prefill || c.role == Decode
  }

  // -------------------------------------------------------------- who is ahead

  /** How many untouched workers of the other role come before the last untouched one of this role. */
  ghost function Ahead(queue: seq<Candidate>, actions: seq<Action>, role: Role): nat {
    if queue == [] || NextIn(queue[1..], actions, role).None? then 0
    else Ahead(queue[1..], actions, role)
         + if queue[0].role == Other(role) && !Planned(actions, queue[0].id) then 1 else 0
  }

  lemma {:induction false} AheadElsewhere(queue: seq<Candidate>, actions: seq<Action>, a: Action, role: Role)
    requires a.instanceID.Some? ==> forall c | c in queue :: c.id != a.instanceID.value
    ensures NextIn(queue, actions + [a], role) == NextIn(queue, actions, role)
    ensures Ahead(queue, actions + [a], role) == Ahead(queue, actions, role)
  {
    if queue != [] {
      PlannedSnoc(actions, a, queue[0].id);
      AheadElsewhere(queue[1..], actions, a, role);
    }
  }

  /** Naming the first untouched worker moves the count of those ahead accordingly. */
  lemma {:induction false} AheadAfterFirst(queue: seq<Candidate>, actions: seq<Action>, a: Action, c: Candidate, role: Role)
    requires DistinctIds(queue) && FirstFree(queue, actions) == Some(c) && a.instanceID == Some(c.id)
    requires role in {Prefill, Decode} && c.role in {Prefill, Decode}
    ensures c in queue && !Planned(actions, c.id)
    ensures c.role == role ==>
      Ahead(queue, actions, role) == if NextIn(queue, actions + [a], role).Some? then Ahead(queue, actions + [a], role) else 0
    ensures c.role != role && NextIn(queue, actions, role).Some? ==>
      Ahead(queue, actions, role) == Ahead(queue, actions + [a], role) + 1
    ensures c.role != role ==> NextIn(queue, actions + [a], role) == NextIn(queue, actions, role)
  {
    PlannedSnoc(actions, a, queue[0].id);
    if !Planned(actions, queue[0].id) {
      AheadElsewhere(queue[1..], actions, a, role);
    } else {
      AheadAfterFirst(queue[1..], actions, a, c, role);
    }
  }

  // ------------------------------------------------------------- one drain

  lemma {:induction false} FirstSurplusFacts(queue: seq<Candidate>, w: Work, tp: int, td: int)
    ensures var c := FirstSurplus(queue, w, tp, td);
      if c.Some? then c.value in queue && !Planned(w.actions, c.value.id) && SurplusRole(c.value.role, w, tp, td)
      else forall d | d in queue && !Planned(w.actions, d.id) :: !SurplusRole(d.role, w, tp, td)
  {
    if queue != [] {
      FirstSurplusFacts(queue[1..], w, tp, td);
    }
  }

  /** While both roles are beyond their targets the oldest untouched worker goes. */
  lemma {:induction false} BothSurplus(queue: seq<Candidate>, w: Work, tp: int, td: int)
    requires OnlyPDLeft(queue, w) && w.prefill > tp && w.decode > td
    ensures FirstSurplus(queue, w, tp, td) == FirstFree(queue, w.actions)
  {
    if queue != [] {
      BothSurplus(queue[1..], w, tp, td);
    }
  }

  /** One role as the surplus drains see it: its untouched movable workers, its counter, its target. */
  datatype Side = Side(free: int, counter: int, target: int)

  ghost function SideOf(queue: seq<Candidate>, w: Work, tp: int, td: int, role: Role): Side {
    Side(CountFree(queue, w.actions, role), Counter(w, role), if role == Prefill then tp else td)
  }

  function Fewer(s: Side): Side { s.(free := s.free - 1, counter := s.counter - 1) }

  /** Every movable worker of the role goes: there is none; or the role stays at its target without
      them, and the drains get past those of the other role that are ahead and surplus too; or every
      movable worker of either role goes. */
  predicate RunsDry(own: Side, other: Side, ahead: int, room: int) {
    var drains := Min(room, own.counter + other.counter - own.target - other.target);
    || own.free == 0
    || (own.target <= own.counter - own.free && own.free + Min(ahead, Max(0, other.counter - other.target)) <= drains)
    || own.free + other.free <= drains
  }

  /** A drain of the role itself: as the oldest surplus worker, or for want of any. */
  predicate TakesOwn(own: Side, other: Side, ahead: int, aheadAfter: int) {
    && own.free >= 1
    && (if own.counter > own.target
        then other.counter > other.target ==> ahead == if own.free >= 2 then aheadAfter else 0
        else other.free == 0)
  }

  predicate TakesOther(own: Side, other: Side, ahead: int, aheadAfter: int) {
    && other.free >= 1
    && (other.counter > other.target || own.free == 0)
    && (own.counter > own.target && other.counter > other.target && own.free >= 1 ==> ahead == aheadAfter + 1)
  }

  lemma RunsDryAfterOwn(own: Side, other: Side, ahead: nat, aheadAfter: nat, room: int)
    requires own.free >= 0 && other.free >= 0 && room >= 1
    requires own.counter + other.counter > own.target + other.target && TakesOwn(own, other, ahead, aheadAfter)
    ensures RunsDry(own, other, ahead, room) <==> RunsDry(Fewer(own), other, aheadAfter, room - 1)
  {
  }

  lemma RunsDryAfterOther(own: Side, other: Side, ahead: nat, aheadAfter: nat, room: int)
    requires own.free >= 0 && other.free >= 0 && room >= 1
    requires own.counter + other.counter > own.target + other.target && TakesOther(own, other, ahead, aheadAfter)
    ensures RunsDry(own, other, ahead, room) <==> RunsDry(own, Fewer(other), aheadAfter, room - 1)
  {
  }

  /** One worker goes, of the role or of the other one. */
  predicate TakesOne(own: Side, other: Side, ahead: int, ownNext: Side, otherNext: Side, aheadNext: int) {
    || (ownNext == Fewer(own) && otherNext == other && TakesOwn(own, other, ahead, aheadNext))
    || (ownNext == own && otherNext == Fewer(other) && TakesOther(own, other, ahead, aheadNext))
  }

  /** What one drain does to the role and to the other one. */
  lemma OneDrain(queue: seq<Candidate>, w: Work, tp: int, td: int, role: Role)
    requires DistinctIds(queue) && OnlyPDLeft(queue, w) && role in {Prefill, Decode}
    requires w.prefill + w.decode > tp + td && ChooseDrain(queue, w, tp, td).Some?
    ensures var c := ChooseDrain(queue, w, tp, td).value;
      var next := Drained(w, c);
      && c in queue && !Planned(w.actions, c.id) && OnlyPDLeft(queue, next)
      && TakesOne(SideOf(queue, w, tp, td, role), SideOf(queue, w, tp, td, Other(role)), Ahead(queue, w.actions, role),
                  SideOf(queue, next, tp, td, role), SideOf(queue, next, tp, td, Other(role)), Ahead(queue, next.actions, role))
  {
    ChosenDrain(queue, w, tp, td);
    FirstSurplusFacts(queue, w, tp, td);
    var c := ChooseDrain(queue, w, tp, td).value;
    var a := DrainOf(c);
    CountFreeSnoc(queue, w.actions, a, c, Prefill);
    CountFreeSnoc(queue, w.actions, a, c, Decode);
    CountFreePositive(queue, w.actions, Prefill);
    CountFreePositive(queue, w.actions, Decode);
    forall d | d in queue && !Planned(w.actions + [a], d.id) ensures !Planned(w.actions, d.id) {
      PlannedSnoc(w.actions, a, d.id);
    }
    if w.prefill > tp && w.decode > td {
      BothSurplus(queue, w, tp, td);
      AheadAfterFirst(queue, w.actions, a, c, role);
      NextInFindsFree(queue, w.actions, role);
      NextInFindsFree(queue, w.actions + [a], role);
    }
  }

  lemma NothingToDrainLeft(queue: seq<Candidate>, w: Work, tp: int, td: int)
    requires OnlyPDLeft(queue, w)
    ensures ChooseDrain(queue, w, tp, td).None? <==>
      CountFree(queue, w.actions, Prefill) == 0 && CountFree(queue, w.actions, Decode) == 0
  {
    ChosenDrain(queue, w, tp, td);
    CountFreePositive(queue, w.actions, Prefill);
    CountFreePositive(queue, w.actions, Decode);
  }

  // ------------------------------------------------------------ all drains

  /** What the drains are, as a whole: what they leave of either role when `n` workers go. */
  predicate DrainedTo(own: Side, other: Side, ahead: int, room: int, ownAfter: Side, otherAfter: Side, n: int) {
    var total := own.target + other.target;
    && (ownAfter.free == 0 <==> RunsDry(own, other, ahead, room))
    && ownAfter.free <= own.free && otherAfter.free <= other.free
    && ownAfter.counter - ownAfter.free == own.counter - own.free
    && otherAfter.counter - otherAfter.free == other.counter - other.free
    && n == own.counter + other.counter - ownAfter.counter - otherAfter.counter
    && (ownAfter.free > 0 ==> otherAfter.counter >= Min(other.counter, other.target))
    && (own.counter + other.counter >= total ==>
          && ownAfter.counter + otherAfter.counter >= total
          && (n < room && ownAfter.free > 0 ==> ownAfter.counter + otherAfter.counter == total))
  }

  lemma DrainedToAfterOwn(own: Side, other: Side, ahead: nat, aheadAfter: nat, room: int, ownAfter: Side, otherAfter: Side, n: int)
    requires own.free >= 0 && other.free >= 0 && room >= 1
    requires own.counter + other.counter > own.target + other.target && TakesOwn(own, other, ahead, aheadAfter)
    requires DrainedTo(Fewer(own), other, aheadAfter, room - 1, ownAfter, otherAfter, n - 1)
    ensures DrainedTo(own, other, ahead, room, ownAfter, otherAfter, n)
  {
    RunsDryAfterOwn(own, other, ahead, aheadAfter, room);
  }

  lemma DrainedToAfterOther(own: Side, other: Side, ahead: nat, aheadAfter: nat, room: int, ownAfter: Side, otherAfter: Side, n: int)
    requires own.free >= 0 && other.free >= 0 && room >= 1 && ownAfter.free >= 0
    requires own.counter + other.counter > own.target + other.target && TakesOther(own, other, ahead, aheadAfter)
    requires DrainedTo(own, Fewer(other), aheadAfter, room - 1, ownAfter, otherAfter, n - 1)
    ensures DrainedTo(own, other, ahead, room, ownAfter, otherAfter, n)
  {
    RunsDryAfterOther(own, other, ahead, aheadAfter, room);
  }

  /** `r` is what the drains leave of `w`. */
  ghost predicate DrainsTo(queue: seq<Candidate>, w: Work, r: Work, tp: int, td: int, cap: int, role: Role) {
    DrainedTo(SideOf(queue, w, tp, td, role), SideOf(queue, w, tp, td, Other(role)), Ahead(queue, w.actions, role), cap - |w.actions|,
              SideOf(queue, r, tp, td, role), SideOf(queue, r, tp, td, Other(role)), |r.actions| - |w.actions|)
  }

  lemma NoDrain(queue: seq<Candidate>, w: Work, tp: int, td: int, cap: int, role: Role)
    requires role in {Prefill, Decode}
    requires || w.prefill + w.decode <= tp + td || |w.actions| >= cap
             || (CountFree(queue, w.actions, Prefill) == 0 && CountFree(queue, w.actions, Decode) == 0)
    ensures DrainsTo(queue, w, w, tp, td, cap, role)
  {
  }

  lemma DrainedToAfterOne(own: Side, other: Side, ahead: nat, ownNext: Side, otherNext: Side, aheadNext: nat,
                          room: int, ownAfter: Side, otherAfter: Side, n: int)
    requires own.free >= 0 && other.free >= 0 && ownAfter.free >= 0 && room >= 1
    requires own.counter + other.counter > own.target + other.target
    requires TakesOne(own, other, ahead, ownNext, otherNext, aheadNext)
    requires DrainedTo(ownNext, otherNext, aheadNext, room - 1, ownAfter, otherAfter, n - 1)
    ensures DrainedTo(own, other, ahead, room, ownAfter, otherAfter, n)
  {
    if ownNext == own {
      DrainedToAfterOther(own, other, ahead, aheadNext, room, ownAfter, otherAfter, n);
    } else {
      DrainedToAfterOwn(own, other, ahead, aheadNext, room, ownAfter, otherAfter, n);
    }
  }

  lemma DrainAndRest(queue: seq<Candidate>, w: Work, next: Work, r: Work, tp: int, td: int, cap: int, role: Role)
    requires role in {Prefill, Decode} && |w.actions| < cap && w.prefill + w.decode > tp + td
    requires |next.actions| == |w.actions| + 1
    requires TakesOne(SideOf(queue, w, tp, td, role), SideOf(queue, w, tp, td, Other(role)), Ahead(queue, w.actions, role),
                      SideOf(queue, next, tp, td, role), SideOf(queue, next, tp, td, Other(role)), Ahead(queue, next.actions, role))
    requires DrainsTo(queue, next, r, tp, td, cap, role)
    ensures DrainsTo(queue, w, r, tp, td, cap, role)
  {
    var own, other := SideOf(queue, w, tp, td, role), SideOf(queue, w, tp, td, Other(role));
    var ownNext, otherNext := SideOf(queue, next, tp, td, role), SideOf(queue, next, tp, td, Other(role));
    var ownAfter, otherAfter := SideOf(queue, r, tp, td, role), SideOf(queue, r, tp, td, Other(role));
    var room, n := cap - |w.actions|, |r.actions| - |w.actions|;
    assert DrainedTo(ownNext, otherNext, Ahead(queue, next.actions, role), room - 1, ownAfter, otherAfter, n - 1);
    DrainedToAfterOne(own, other, Ahead(queue, w.actions, role), ownNext, otherNext, Ahead(queue, next.actions, role),
                      room, ownAfter, otherAfter, n);
  }

  /** The surplus drains take every movable worker of a role exactly when it runs dry by the counts, and
      leave the counters in step with the workers. */
  lemma {:induction false} DrainsRunDry(queue: seq<Candidate>, w: Work, tp: int, td: int, budget: int, cap: int, role: Role)
    requires DistinctIds(queue) && (|w.actions| < cap ==> OnlyPDLeft(queue, w)) && role in {Prefill, Decode}
    requires budget == w.prefill + w.decode - (tp + td)
    ensures DrainsTo(queue, w, DrainSurplus(queue, w, tp, td, budget, cap), tp, td, cap, role)
    decreases budget
  {
    if budget <= 0 || |w.actions| >= cap {
      NoDrain(queue, w, tp, td, cap, role);
    } else {
      NothingToDrainLeft(queue, w, tp, td);
      var chosen := ChooseDrain(queue, w, tp, td);
      if chosen.None? {
        NoDrain(queue, w, tp, td, cap, role);
      } else {
        OneDrain(queue, w, tp, td, role);
        DrainsRunDry(queue, Drained(w, chosen.value), tp, td, budget - 1, cap, role);
        DrainAndRest(queue, w, Drained(w, chosen.value), DrainSurplus(queue, w, tp, td, budget, cap), tp, td, cap, role);
      }
    }
  }
}
