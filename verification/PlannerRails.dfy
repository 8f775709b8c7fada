/** The guard rails of one disaggregated round: how many actions, on whom, in which direction, and
    what is left serving. */
module PlannerRails {
  import opened Domain
  import opened PlannerTypes
  import opened PlannerPhases

  // ------------------------------------------------------------ who is named

  /** The action moves this serving worker out of its role. */
  ghost predicate Moves(a: Action, cs: seq<Candidate>) {
    && (a.kind == Drain || a.kind == Reassign || a.kind == Release)
    && a.fromRole != NoRole
    && exists c :: c in cs && a.instanceID == Some(c.id) && a.fromRole == c.role
  }

  /** The action gives this idle instance a role, or gives it back. */
  ghost predicate Takes(a: Action, idle: seq<Candidate>) {
    && (a.kind == Assign || (a.kind == Release && a.fromRole == NoRole))
    && exists c :: c in idle && a.instanceID == Some(c.id)
  }

  /** Every action names a worker that may move, or an idle instance, or asks for a new one. */
  ghost predicate Justified(actions: seq<Action>, queue: seq<Candidate>, idle: seq<Candidate>) {
    forall k | 0 <= k < |actions| ::
      || (actions[k].kind == Provision && actions[k].instanceID == None)
      || Moves(actions[k], queue)
      || Takes(actions[k], idle)
  }

  /** No instance is named by two actions. */
  ghost predicate NamesOnce(actions: seq<Action>) {
    forall i, j | 0 <= i < j < |actions| && actions[i].instanceID.Some? :: actions[i].instanceID != actions[j].instanceID
  }

  /** Serving workers hold one of the roles the Router knows. */
  predicate RolesKnown(cs: seq<Candidate>) {
    forall c | c in cs :: c.role.Valid()
  }

  /** The shape a controller hands in: ids are unique over both lists and every worker has a role. */
  ghost predicate Proper(input: Input) {
    && DistinctIds(input.serving) && DistinctIds(input.idle) && RolesKnown(input.serving)
    && forall c, d | c in input.serving && d in input.idle :: c.id != d.id
  }

  /** The worker has held its role for min_hold, or nothing says since when it has. */
  predicate PastHold(c: Candidate, now: Time, minHold: int) {
    minHold <= 0 || c.roleSince == ZERO_TIME || now - c.roleSince >= minHold
  }

  /** `c` has had its role at least as long as `d`; of equal ages the smaller id goes first. */
  predicate AtLeastAsOld(c: Candidate, d: Candidate) {
    c.roleSince < d.roleSince || (c.roleSince == d.roleSince && c.id <= d.id)
  }

  // --------------------------------------------------------- oldest movable

  lemma {:induction false} NextInIsOldest(queue: seq<Candidate>, actions: seq<Action>, role: Role, d: Candidate)
    requires InAgeOrder(queue) && NextIn(queue, actions, role).Some?
    requires d in queue && d.role == role && !Planned(actions, d.id)
    ensures !Older(d, NextIn(queue, actions, role).value)
  {
    if queue[0].role == role && !Planned(actions, queue[0].id) {
      var j :| 0 <= j < |queue| && queue[j] == d;
    } else {
      NextInIsOldest(queue[1..], actions, role, d);
    }
  }

  /** A worker is found for a conversion exactly when some movable worker of that role is untouched,
      and the one found is the oldest of them. */
  lemma ConversionTakesTheOldest(cs: seq<Candidate>, actions: seq<Action>, now: Time, minHold: int, role: Role)
    ensures var r := NextConversion(cs, actions, now, minHold, role);
      && (r.Some? <==> exists d :: d in cs && !Held(d, now, minHold) && d.role == role && !Planned(actions, d.id))
      && (r.Some? ==>
            && r.value in cs && !Held(r.value, now, minHold) && r.value.role == role && !Planned(actions, r.value.id)
            && forall d | d in cs && !Held(d, now, minHold) && d.role == role && !Planned(actions, d.id) :: !Older(d, r.value))
  {
    var queue := Movable(cs, now, minHold);
    MovableIsQueue(cs, now, minHold);
    var r := NextConversion(cs, actions, now, minHold, role);
    if r.Some? {
      forall d | d in cs && !Held(d, now, minHold) && d.role == role && !Planned(actions, d.id)
        ensures !Older(d, r.value)
      {
        NextInIsOldest(queue, actions, role, d);
      }
    }
  }

  // ------------------------------------------------------- phase by phase

  lemma PlannedSnoc(actions: seq<Action>, a: Action, id: int)
    ensures Planned(actions + [a], id) <==> Planned(actions, id) || a.instanceID == Some(id)
  {
    var more := actions + [a];
    assert more[|actions|] == a;
    assert forall k | 0 <= k < |actions| :: more[k] == actions[k];
  }

  lemma NamesOnceSnoc(actions: seq<Action>, a: Action)
    requires NamesOnce(actions) && (a.instanceID.Some? ==> !Planned(actions, a.instanceID.value))
    ensures NamesOnce(actions + [a])
  {
  }

  /** What a phase that only moves queued workers guarantees. */
  ghost predicate MovesOnly(before: seq<Action>, after: seq<Action>, queue: seq<Candidate>, cap: int) {
    && before <= after
    && (|after| <= cap || after == before)
    && (forall k | |before| <= k < |after| :: Moves(after[k], queue))
    && (NamesOnce(before) ==> NamesOnce(after))
  }

  lemma MovesOnlyStep(before: seq<Action>, a: Action, after: seq<Action>, queue: seq<Candidate>, cap: int)
    requires |before| < cap && Moves(a, queue) && !Planned(before, a.instanceID.value)
    requires MovesOnly(before + [a], after, queue, cap)
    ensures MovesOnly(before, after, queue, cap)
  {
    if NamesOnce(before) {
      NamesOnceSnoc(before, a);
    }
    assert (before + [a])[|before|] == a;
  }

  lemma {:induction false} DrainRegularMoves(queue: seq<Candidate>, actions: seq<Action>, cap: int, all: seq<Candidate>)
    requires DistinctIds(queue) && (forall c | c in queue :: c in all && !Planned(actions, c.id))
    ensures MovesOnly(actions, DrainRegular(queue, actions, cap), all, cap)
    ensures forall k | |actions| <= k < |DrainRegular(queue, actions, cap)| :: DrainRegular(queue, actions, cap)[k].fromRole == Regular
    ensures |DrainRegular(queue, actions, cap)| < cap ==>
              forall c | c in queue && c.role == Regular :: Planned(DrainRegular(queue, actions, cap), c.id)
  {
    if queue != [] && |actions| < cap {
      var next := if queue[0].role == Regular then actions + [DrainOf(queue[0])] else actions;
      forall c | c in queue[1..] ensures !Planned(next, c.id) {
        PlannedSnoc(actions, DrainOf(queue[0]), c.id);
      }
      DrainRegularMoves(queue[1..], next, cap, all);
      var after := DrainRegular(queue, actions, cap);
      if queue[0].role == Regular {
        assert Moves(DrainOf(queue[0]), all);
        MovesOnlyStep(actions, DrainOf(queue[0]), after, all, cap);
        assert next[|actions|].instanceID == Some(queue[0].id);
        assert after[|actions|] == next[|actions|];
      }
    }
  }

  lemma {:induction false} ChosenDrain(queue: seq<Candidate>, w: Work, tp: int, td: int)
    ensures var c := ChooseDrain(queue, w, tp, td);
      && (c.Some? ==> c.value in queue && !Planned(w.actions, c.value.id))
      && (c.None? ==> forall d | d in queue :: Planned(w.actions, d.id))
  {
    if queue != [] {
      ChosenDrain(queue[1..], w, tp, td);
    }
  }

  lemma {:induction false} DrainSurplusMoves(queue: seq<Candidate>, w: Work, tp: int, td: int, budget: int, cap: int)
    requires RolesKnown(queue)
    ensures MovesOnly(w.actions, DrainSurplus(queue, w, tp, td, budget, cap).actions, queue, cap)
    ensures var r := DrainSurplus(queue, w, tp, td, budget, cap);
      && (budget <= 0 ==> r == w)
      && (budget > 0 ==> r.prefill + r.decode >= w.prefill + w.decode - budget)
      && forall k | |w.actions| <= k < |r.actions| :: r.actions[k].kind == Drain
    decreases budget
  {
    if budget > 0 && |w.actions| < cap {
      ChosenDrain(queue, w, tp, td);
      var chosen := ChooseDrain(queue, w, tp, td);
      if chosen.Some? {
        var c := chosen.value;
        var after := DrainSurplus(queue, w, tp, td, budget, cap).actions;
        DrainSurplusMoves(queue, Drained(w, c), tp, td, budget - 1, cap);
        assert Moves(DrainOf(c), queue);
        MovesOnlyStep(w.actions, DrainOf(c), after, queue, cap);
      }
    }
  }

  lemma {:induction false} FillIdleTakes(idle: seq<Candidate>, w: Work, tp: int, td: int, total: int, cap: int, all: seq<Candidate>)
    requires DistinctIds(idle) && forall c | c in idle :: c in all
    ensures var r := FillIdle(idle, w, tp, td, total, cap);
      && w.actions <= r.actions && (|r.actions| <= cap || r == w)
      && (forall k | |w.actions| <= k < |r.actions| :: r.actions[k].kind == Assign && Takes(r.actions[k], all))
      && ((forall c | c in idle :: !Planned(w.actions, c.id)) && NamesOnce(w.actions) ==> NamesOnce(r.actions))
      && w.prefill <= r.prefill && w.decode <= r.decode
      && r.prefill + r.decode == w.prefill + w.decode + |r.actions| - |w.actions|
    ensures var r := FillIdle(idle, w, tp, td, total, cap);
      && (r.decode > w.decode ==> r.prefill >= tp)
      && (r.prefill > w.prefill ==> r.prefill <= tp)
      && (r.decode > w.decode ==> r.decode <= td)
      && (tp + td == total && w.prefill + w.decode + |idle| >= total ==> |r.actions| >= cap || r.prefill + r.decode >= total)
  {
    if idle != [] && w.prefill + w.decode < total && |w.actions| < cap && (w.prefill < tp || w.decode < td) {
      var role := if w.prefill < tp then Prefill else Decode;
      var a := AssignOf(idle[0], role);
      var next := if w.prefill < tp then Work(w.actions + [a], w.prefill + 1, w.decode)
                  else Work(w.actions + [a], w.prefill, w.decode + 1);
      FillIdleTakes(idle[1..], next, tp, td, total, cap, all);
      assert Takes(a, all);
      assert next.actions[|w.actions|] == a;
      if (forall c | c in idle :: !Planned(w.actions, c.id)) && NamesOnce(w.actions) {
        NamesOnceSnoc(w.actions, a);
        forall c | c in idle[1..] ensures !Planned(next.actions, c.id) {
          PlannedSnoc(w.actions, a, c.id);
        }
      }
    }
  }

  /** Conversions move workers in one direction only: towards the role that is short when they start. */
  lemma {:induction false} ConvertMoves(queue: seq<Candidate>, w: Work, tp: int, td: int, cap: int)
    requires w.prefill + w.decode >= tp + td || |w.actions| >= cap
    ensures var r := Convert(queue, w, tp, td, cap);
      && MovesOnly(w.actions, r.actions, queue, cap)
      && forall k | |w.actions| <= k < |r.actions| ::
           r.actions[k].kind == Reassign
           && (if w.prefill < tp then r.actions[k].role == Prefill && r.actions[k].fromRole == Decode
               else r.actions[k].role == Decode && r.actions[k].fromRole == Prefill)
    decreases cap - |w.actions|, Deficits(w, tp, td)
  {
    if |w.actions| < cap {
      var after := Convert(queue, w, tp, td, cap).actions;
      if w.prefill < tp {
        var c := NextIn(queue, w.actions, Decode);
        if c.Some? && w.decode > 1 {
          var a := ReassignOf(c.value, Prefill);
          ConvertMoves(queue, ToPrefill(w, c.value), tp, td, cap);
          assert Moves(a, queue);
          MovesOnlyStep(w.actions, a, after, queue, cap);
          assert after[|w.actions|] == ToPrefill(w, c.value).actions[|w.actions|] == a;
        } else {
          ConvertMoves(queue, w.(prefill := tp), tp, td, cap);
        }
      } else if w.decode < td {
        var c := NextIn(queue, w.actions, Prefill);
        if c.Some? && w.prefill > 1 {
          var a := ReassignOf(c.value, Decode);
          ConvertMoves(queue, ToDecode(w, c.value), tp, td, cap);
          assert Moves(a, queue);
          MovesOnlyStep(w.actions, a, after, queue, cap);
          assert after[|w.actions|] == ToDecode(w, c.value).actions[|w.actions|] == a;
        } else {
          ConvertMoves(queue, w.(decode := td), tp, td, cap);
        }
      }
    }
  }

  /** The k-th action names the oldest worker of its role that was not named before. */
  ghost predicate TakesOldest(queue: seq<Candidate>, actions: seq<Action>, k: nat)
    requires k < |actions|
  {
    exists c :: c in queue && actions[k].instanceID == Some(c.id) && actions[k].fromRole == c.role
      && forall d | d in queue && d.role == c.role && !Planned(actions[..k], d.id) :: !Older(d, c)
  }

  lemma ConversionIsOldest(queue: seq<Candidate>, before: seq<Action>, after: seq<Action>, c: Candidate, from: Role, to: Role)
    requires InAgeOrder(queue) && NextIn(queue, before, from) == Some(c)
    requires before + [ReassignOf(c, to)] <= after
    ensures TakesOldest(queue, after, |before|)
  {
    assert after[..|before|] == before && after[|before|] == ReassignOf(c, to);
    forall d | d in queue && d.role == from && !Planned(before, d.id) ensures !Older(d, c) {
      NextInIsOldest(queue, before, from, d);
    }
  }

  lemma {:induction false} ConvertExtends(queue: seq<Candidate>, w: Work, tp: int, td: int, cap: int)
    ensures w.actions <= Convert(queue, w, tp, td, cap).actions
    decreases cap - |w.actions|, Deficits(w, tp, td)
  {
    if |w.actions| < cap {
      if w.prefill < tp {
        var c := NextIn(queue, w.actions, Decode);
        ConvertExtends(queue, if c.Some? && w.decode > 1 then ToPrefill(w, c.value) else w.(prefill := tp), tp, td, cap);
      } else if w.decode < td {
        var c := NextIn(queue, w.actions, Prefill);
        ConvertExtends(queue, if c.Some? && w.prefill > 1 then ToDecode(w, c.value) else w.(decode := td), tp, td, cap);
      }
    }
  }

  /** Every conversion takes the oldest movable worker of its role that the round has not named yet. */
  lemma {:induction false} ConvertTakesOldest(queue: seq<Candidate>, w: Work, tp: int, td: int, cap: int, k: nat)
    requires InAgeOrder(queue) && |w.actions| <= k < |Convert(queue, w, tp, td, cap).actions|
    ensures TakesOldest(queue, Convert(queue, w, tp, td, cap).actions, k)
    decreases cap - |w.actions|, Deficits(w, tp, td)
  {
    var from, to := if w.prefill < tp then Decode else Prefill, if w.prefill < tp then Prefill else Decode;
    var c := NextIn(queue, w.actions, from);
    var next := if w.prefill < tp
                then (if c.Some? && w.decode > 1 then ToPrefill(w, c.value) else w.(prefill := tp))
                else (if c.Some? && w.prefill > 1 then ToDecode(w, c.value) else w.(decode := td));
    assert Convert(queue, w, tp, td, cap) == Convert(queue, next, tp, td, cap);
    ConvertExtends(queue, next, tp, td, cap);
    if k == |w.actions| && next.actions != w.actions {
      ConversionIsOldest(queue, w.actions, Convert(queue, w, tp, td, cap).actions, c.value, from, to);
    } else {
      ConvertTakesOldest(queue, next, tp, td, cap, k);
    }
  }
}
