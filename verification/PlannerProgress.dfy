/** Exact counting of the planner's phases: how many workers each phase takes. */
module PlannerProgress {
  import opened Domain
  import opened PlannerTypes
  import opened PlannerPhases
  import opened PlannerRails

  function Min(a: int, b: int): int { if a <= b then a else b }

  function Max(a: int, b: int): int { if a >= b then a else b }

  // --------------------------------------------------------- counting the free

  lemma {:induction false} CountFreeOfNone(cs: seq<Candidate>, actions: seq<Action>, role: Role)
    requires forall c | c in cs && c.role == role :: !Planned(actions, c.id)
    ensures CountFree(cs, actions, role) == Count(cs, role)
  {
    if cs != [] {
      CountFreeOfNone(cs[..|cs| - 1], actions, role);
    }
  }

  lemma {:induction false} CountFreeElsewhere(cs: seq<Candidate>, actions: seq<Action>, a: Action, role: Role)
    requires a.instanceID.Some? ==> forall c | c in cs && c.role == role :: c.id != a.instanceID.value
    ensures CountFree(cs, actions + [a], role) == CountFree(cs, actions, role)
  {
    if cs != [] {
      var n := |cs| - 1;
      PlannedSnoc(actions, a, cs[n].id);
      CountFreeElsewhere(cs[..n], actions, a, role);
    }
  }

  /** Naming one free worker of a role takes exactly one from its count; naming anyone else, none. */
  lemma {:induction false} CountFreeSnoc(cs: seq<Candidate>, actions: seq<Action>, a: Action, c: Candidate, role: Role)
    requires DistinctIds(cs) && c in cs && !Planned(actions, c.id) && a.instanceID == Some(c.id)
    ensures CountFree(cs, actions + [a], role) == CountFree(cs, actions, role) - if c.role == role then 1 else 0
  {
    var n := |cs| - 1;
    PlannedSnoc(actions, a, cs[n].id);
    if c == cs[n] {
      CountFreeElsewhere(cs[..n], actions, a, role);
    } else {
      CountFreeSnoc(cs[..n], actions, a, c, role);
    }
  }

  lemma {:induction false} CountFreeAppend(cs: seq<Candidate>, actions: seq<Action>, more: seq<Action>, role: Role)
    requires forall k, c | 0 <= k < |more| && c in cs && c.role == role :: more[k].instanceID != Some(c.id)
    ensures CountFree(cs, actions + more, role) == CountFree(cs, actions, role)
  {
    if more == [] {
      assert actions + more == actions;
    } else {
      var n := |more| - 1;
      CountFreeAppend(cs, actions, more[..n], role);
      CountFreeElsewhere(cs, actions + more[..n], more[n], role);
      assert actions + more == actions + more[..n] + [more[n]];
    }
  }

  lemma {:induction false} CountFreePositive(cs: seq<Candidate>, actions: seq<Action>, role: Role)
    ensures CountFree(cs, actions, role) > 0 <==> exists c :: c in cs && c.role == role && !Planned(actions, c.id)
    ensures CountFree(cs, actions, role) <= Count(cs, role)
  {
    if cs != [] {
      var n := |cs| - 1;
      CountFreePositive(cs[..n], actions, role);
      assert cs == cs[..n] + [cs[n]];
    }
  }

  lemma NextInFindsFree(queue: seq<Candidate>, actions: seq<Action>, role: Role)
    ensures NextIn(queue, actions, role).Some? <==> CountFree(queue, actions, role) > 0
  {
    CountFreePositive(queue, actions, role);
  }

  // ------------------------------------------------------ counting a phase

  lemma {:induction false} FillPrefix(idle: seq<Candidate>, w: Work, tp: int, td: int, total: int, cap: int)
    ensures w.actions <= FillIdle(idle, w, tp, td, total, cap).actions
  {
    if idle != [] && w.prefill + w.decode < total && |w.actions| < cap && (w.prefill < tp || w.decode < td) {
      var role := if w.prefill < tp then Prefill else Decode;
      var a := AssignOf(idle[0], role);
      var next := if w.prefill < tp then Work(w.actions + [a], w.prefill + 1, w.decode)
                  else Work(w.actions + [a], w.prefill, w.decode + 1);
      FillPrefix(idle[1..], next, tp, td, total, cap);
    }
  }

  /** How many idle instances are put to work: as many as the round has room for, the ratio still
      needs, and the pool has; and they are the first ones in id order. */
  lemma {:induction false} FillCount(idle: seq<Candidate>, w: Work, tp: int, td: int, total: int, cap: int)
    requires tp + td == total
    ensures var r := FillIdle(idle, w, tp, td, total, cap);
      var n := Max(0, Min(Min(cap - |w.actions|, total - (w.prefill + w.decode)), |idle|));
      && |r.actions| == |w.actions| + n
      && forall k | 0 <= k < n :: r.actions[|w.actions| + k].instanceID == Some(idle[k].id)
  {
    if idle != [] && w.prefill + w.decode < total && |w.actions| < cap {
      var role := if w.prefill < tp then Prefill else Decode;
      var a := AssignOf(idle[0], role);
      var next := if w.prefill < tp then Work(w.actions + [a], w.prefill + 1, w.decode)
                  else Work(w.actions + [a], w.prefill, w.decode + 1);
      FillCount(idle[1..], next, tp, td, total, cap);
      FillPrefix(idle[1..], next, tp, td, total, cap);
      var r := FillIdle(idle, w, tp, td, total, cap);
      assert r.actions[|w.actions|] == next.actions[|w.actions|] == a;
    }
  }

  /** How many decode workers become prefill workers when prefill is short: the room in the round, the
      deficit, all but one of the decode workers counted, and the movable ones not yet named - the
      least of the four. */
  lemma {:induction false} ConvertToPrefillCount(queue: seq<Candidate>, w: Work, tp: int, td: int, cap: int, all: seq<Candidate>)
    requires DistinctIds(queue) && DistinctIds(all) && (forall c | c in queue :: c in all)
    requires w.prefill + w.decode >= tp + td && w.decode >= td && w.prefill <= tp
    ensures var r := Convert(queue, w, tp, td, cap);
      var n := Max(0, Min(Min(cap - |w.actions|, tp - w.prefill), Min(w.decode - 1, CountFree(queue, w.actions, Decode))));
      && |r.actions| == |w.actions| + n
      && CountFree(all, r.actions, Decode) == CountFree(all, w.actions, Decode) - n
      && (n == Min(cap - |w.actions|, tp - w.prefill) ==> r.prefill == w.prefill + n && r.decode == w.decode - n)
    decreases cap - |w.actions|
  {
    if |w.actions| < cap && w.prefill < tp {
      NextInFindsFree(queue, w.actions, Decode);
      var c := NextIn(queue, w.actions, Decode);
      if c.Some? && w.decode > 1 {
        CountFreeSnoc(queue, w.actions, ReassignOf(c.value, Prefill), c.value, Decode);
        CountFreeSnoc(all, w.actions, ReassignOf(c.value, Prefill), c.value, Decode);
        ConvertToPrefillCount(queue, ToPrefill(w, c.value), tp, td, cap, all);
      } else {
        assert Convert(queue, w.(prefill := tp), tp, td, cap) == w.(prefill := tp);
      }
    }
  }

  lemma {:induction false} ConvertToDecodeCount(queue: seq<Candidate>, w: Work, tp: int, td: int, cap: int, all: seq<Candidate>)
    requires DistinctIds(queue) && DistinctIds(all) && (forall c | c in queue :: c in all)
    requires w.prefill + w.decode >= tp + td && w.prefill >= tp && w.decode <= td
    ensures var r := Convert(queue, w, tp, td, cap);
      var n := Max(0, Min(Min(cap - |w.actions|, td - w.decode), Min(w.prefill - 1, CountFree(queue, w.actions, Prefill))));
      && |r.actions| == |w.actions| + n
      && CountFree(all, r.actions, Prefill) == CountFree(all, w.actions, Prefill) - n
      && (n == Min(cap - |w.actions|, td - w.decode) ==> r.prefill == w.prefill - n && r.decode == w.decode + n)
    decreases cap - |w.actions|
  {
    if |w.actions| < cap && w.decode < td {
      NextInFindsFree(queue, w.actions, Prefill);
      var c := NextIn(queue, w.actions, Prefill);
      if c.Some? && w.prefill > 1 {
        CountFreeSnoc(queue, w.actions, ReassignOf(c.value, Decode), c.value, Prefill);
        CountFreeSnoc(all, w.actions, ReassignOf(c.value, Decode), c.value, Prefill);
        ConvertToDecodeCount(queue, ToDecode(w, c.value), tp, td, cap, all);
      } else {
        assert Convert(queue, w.(decode := td), tp, td, cap) == w.(decode := td);
      }
    }
  }
}
