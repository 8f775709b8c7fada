/** What a round leaves serving: when each role keeps a worker that no action names. */
module PlannerSurvival {
  import opened Domain
  import opened PlannerTypes
  import opened PlannerPhases
  import opened PlannerRound
  import opened PlannerRails
  import opened PlannerProgress
  import opened PlannerTheorems
  import opened PlannerNaming

  /** The role of the serving worker the capacity verb gives back, if it gives one back. */
  ghost function GivenBack(r: PDRound): Role {
    if r.Verb().Some? && r.Verb().value.kind == Release then r.Verb().value.fromRole else NoRole
  }

  /** 1 when the capacity verb takes a serving worker of this role. */
  ghost function Taken(r: PDRound, role: Role): int {
    if GivenBack(r) == role then 1 else 0
  }

  /** Naming a worker of another role, or someone who is not serving, leaves a role's count alone. */
  lemma OtherRoleUntouched(cs: seq<Candidate>, actions: seq<Action>, more: seq<Action>, role: Role)
    requires DistinctIds(cs)
    requires forall k | 0 <= k < |more| ::
      || more[k].instanceID == None
      || (exists d :: d in cs && more[k].instanceID == Some(d.id) && d.role != role)
      || (forall c | c in cs :: more[k].instanceID != Some(c.id))
    ensures CountFree(cs, actions + more, role) == CountFree(cs, actions, role)
  {
    forall k, c | 0 <= k < |more| && c in cs && c.role == role ensures more[k].instanceID != Some(c.id) {
      if more[k].instanceID == Some(c.id) {
        var d :| d in cs && more[k].instanceID == Some(d.id) && d.role != role;
        SameIdSameCandidate(cs, c, d);
        assert false;
      }
    }
    CountFreeAppend(cs, actions, more, role);
  }

  lemma CountFreeOfEmpty(cs: seq<Candidate>, role: Role)
    ensures CountFree(cs, [], role) == Count(cs, role)
  {
    CountFreeOfNone(cs, [], role);
  }

  /** After drains of regular workers and the capacity verb, only the verb has touched a role. */
  lemma FreeWhenReserved(r: PDRound, cs: seq<Candidate>, role: Role)
    requires r.Proper() && role in {Prefill, Decode}
    requires DistinctIds(cs) && (forall c | c in r.Queue() :: c in cs) && forall c | c in cs :: c in r.input.serving
    ensures CountFree(cs, r.Reserved().actions, role) == Count(cs, role) - Taken(r, role)
    ensures GivenBack(r) in {Prefill, Decode} ==> r.input.idle == []
  {
    QueueFacts(r);
    DrainedFacts(r);
    VerbFacts(r);
    CountFreeOfEmpty(cs, role);
    assert [] + r.Drained() == r.Drained();
    OtherRoleUntouched(cs, [], r.Drained(), role);
    if r.Verb().Some? {
      var a := r.Verb().value;
      if Moves(a, r.Queue()) {
        var c :| c in r.Queue() && a.instanceID == Some(c.id) && a.fromRole == c.role;
        CountFreeSnoc(cs, r.Drained(), a, c, role);
      } else {
        CountFreeElsewhere(cs, r.Drained(), a, role);
      }
    }
  }

  /** Putting idle instances to work touches no serving worker. */
  lemma FreeWhenFilled(r: PDRound, cs: seq<Candidate>, role: Role)
    requires r.Proper() && role in {Prefill, Decode} && r.Surplus() <= 0
    requires DistinctIds(cs) && (forall c | c in r.Queue() :: c in cs) && forall c | c in cs :: c in r.input.serving
    ensures CountFree(cs, r.Filled().actions, role) == Count(cs, role) - Taken(r, role)
  {
    FreeWhenReserved(r, cs, role);
    TrimmedFacts(r);
    FilledFacts(r);
    var w0, w := r.Trimmed().actions, r.Filled().actions;
    assert w0 + w[|w0|..] == w;
    OtherRoleUntouched(cs, w0, w[|w0|..], role);
  }

  /** The counts conversions start from. */
  lemma FilledCounts(r: PDRound)
    requires r.Proper() && r.Surplus() <= 0
    ensures var w, t := r.Filled(), r.T();
      && (w.prefill < t.prefill ==> w.decode == r.Decodes())
      && (|w.actions| < r.Cap() && w.decode < t.decode ==> w.prefill == r.Prefills())
      && (r.input.idle == [] ==> w == r.Reserved() && t.total == r.Prefills() + r.Decodes())
      && w.prefill >= r.Prefills() && w.decode >= r.Decodes()
  {
    QueueFacts(r);
    TargetsAddUp(r);
    TrimmedFacts(r);
    FilledFacts(r);
    FillIdleTakes(SortById(r.input.idle), r.Trimmed(), r.T().prefill, r.T().decode, r.T().total, r.Cap(), r.input.idle);
  }

  /** How many workers conversions take from a role: the room in the round, the other role's deficit,
      all but one of the workers counted, and the free movable ones - the least of the four. */
  function Conversions(room: int, deficit: int, counted: int, free: int): int {
    Max(0, Min(Min(room, deficit), Min(counted - 1, free)))
  }

  /** Conversions take from one role only, and exactly that many. */
  lemma ConvertLeaves(queue: seq<Candidate>, w: Work, tp: int, td: int, cap: int, all: seq<Candidate>)
    requires DistinctIds(queue) && DistinctIds(all) && forall c | c in queue :: c in all
    requires w.prefill + w.decode >= tp + td || |w.actions| >= cap
    ensures CountFree(all, Convert(queue, w, tp, td, cap).actions, Decode) == CountFree(all, w.actions, Decode)
      - (if w.prefill < tp
         then Conversions(cap - |w.actions|, tp - w.prefill, w.decode, CountFree(queue, w.actions, Decode)) else 0)
    ensures CountFree(all, Convert(queue, w, tp, td, cap).actions, Prefill) == CountFree(all, w.actions, Prefill)
      - (if w.prefill >= tp && w.decode < td
         then Conversions(cap - |w.actions|, td - w.decode, w.prefill, CountFree(queue, w.actions, Prefill)) else 0)
  {
    var after := Convert(queue, w, tp, td, cap).actions;
    if |w.actions| < cap {
      ConvertMoves(queue, w, tp, td, cap);
      var more := after[|w.actions|..];
      assert w.actions + more == after;
      if w.prefill < tp {
        ConvertToPrefillCount(queue, w, tp, td, cap, all);
        OtherRoleUntouched(all, w.actions, more, Prefill);
      } else if w.decode < td {
        ConvertToDecodeCount(queue, w, tp, td, cap, all);
        OtherRoleUntouched(all, w.actions, more, Decode);
      }
    }
  }

  /** The decode workers a round leaves untouched, when it starts converting from `w`. */
  function DecodesLeft(w: Work, t: Targets, cap: int, free: int, movable: int): int {
    free - if w.prefill < t.prefill then Conversions(cap - |w.actions|, t.prefill - w.prefill, w.decode, movable) else 0
  }

  function PrefillsLeft(w: Work, t: Targets, cap: int, free: int, movable: int): int {
    free - if w.prefill >= t.prefill && w.decode < t.decode
           then Conversions(cap - |w.actions|, t.decode - w.decode, w.prefill, movable) else 0
  }

  function LeftOf(role: Role, w: Work, t: Targets, cap: int, free: int, movable: int): int {
    if role == Decode then DecodesLeft(w, t, cap, free, movable) else PrefillsLeft(w, t, cap, free, movable)
  }

  lemma ConvertStarts(r: PDRound)
    requires r.Proper() && r.Surplus() <= 0
    ensures DistinctIds(r.Queue()) && forall c | c in r.Queue() :: c in r.input.serving
    ensures r.Filled().prefill + r.Filled().decode >= r.T().prefill + r.T().decode || |r.Filled().actions| >= r.Cap()
  {
    QueueFacts(r);
    TargetsAddUp(r);
    FilledFacts(r);
  }

  /** Employing idle instances leaves the free workers of a role as the verb left them. */
  lemma FreeBeforeConversions(r: PDRound, role: Role)
    requires r.Proper() && r.Surplus() <= 0 && role in {Prefill, Decode}
    ensures CountFree(r.input.serving, r.Filled().actions, role) == Count(r.input.serving, role) - Taken(r, role)
    ensures CountFree(r.Queue(), r.Filled().actions, role) == Count(r.Queue(), role) - Taken(r, role)
  {
    ConvertStarts(r);
    FreeWhenFilled(r, r.input.serving, role);
    FreeWhenFilled(r, r.Queue(), role);
  }

  /** The serving workers conversions leave untouched, given how many were free and movable before. */
  lemma LeftAfterConversions(queue: seq<Candidate>, w: Work, t: Targets, cap: int, all: seq<Candidate>,
                             role: Role, free: int, movable: int)
    requires DistinctIds(queue) && DistinctIds(all) && forall c | c in queue :: c in all
    requires w.prefill + w.decode >= t.prefill + t.decode || |w.actions| >= cap
    requires role in {Prefill, Decode} && CountFree(all, w.actions, role) == free && CountFree(queue, w.actions, role) == movable
    ensures CountFree(all, Convert(queue, w, t.prefill, t.decode, cap).actions, role)
         == LeftOf(role, w, t, cap, free, movable)
  {
    ConvertLeaves(queue, w, t.prefill, t.decode, cap, all);
  }

  /** The serving workers of a role a round leaves untouched. */
  lemma FreeAfterRound(r: PDRound, role: Role)
    requires r.Proper() && r.Surplus() <= 0 && role in {Prefill, Decode}
    ensures var free, movable := Count(r.input.serving, role) - Taken(r, role), Count(r.Queue(), role) - Taken(r, role);
      CountFree(r.input.serving, r.Converted().actions, role)
      == LeftOf(role, r.Filled(), r.T(), r.Cap(), free, movable)
  {
    ConvertStarts(r);
    FreeBeforeConversions(r, role);
    LeftAfterConversions(r.Queue(), r.Filled(), r.T(), r.Cap(), r.input.serving, role,
                         Count(r.input.serving, role) - Taken(r, role), Count(r.Queue(), role) - Taken(r, role));
  }

  /** Both roles keep a serving worker that this round does not touch. */
  ghost predicate RolesSurvive(r: PDRound) {
    CountFree(r.input.serving, r.Actions(), Prefill) >= 1 && CountFree(r.input.serving, r.Actions(), Decode) >= 1
  }

  function TargetOf(t: Targets, role: Role): int { if role == Prefill then t.prefill else t.decode }

  /** The capacity verb gives back a worker of a role that has no second one, or whose target is one
      and whose other workers can all be converted in the rest of the round. */
  ghost predicate GivesBackTheLast(r: PDRound) {
    var role := GivenBack(r);
    && role in {Prefill, Decode}
    && var workers := Count(r.input.serving, role);
       || workers == 1
       || (&& TargetOf(r.T(), role) == 1
           && workers <= r.Cap() - RegularDrains(r)
           && Count(r.Queue(), role) == workers)
  }

  lemma {:induction false} CountUnheld(cs: seq<Candidate>, now: Time, minHold: int, role: Role)
    ensures Count(Unheld(cs, now, minHold), role) <= Count(cs, role)
  {
    if cs != [] {
      var n := |cs| - 1;
      CountUnheld(cs[..n], now, minHold, role);
      var front := Unheld(cs[..n], now, minHold);
      assert (front + [cs[n]])[..|front|] == front;
    }
  }

  lemma {:induction false} CountInserted(c: Candidate, sorted: seq<Candidate>, role: Role)
    ensures Count(Insert(c, sorted), role) == Count(sorted, role) + if c.role == role then 1 else 0
  {
    if sorted == [] || !Older(sorted[0], c) {
      CountFromFront([c] + sorted, role);
    } else {
      CountInserted(c, sorted[1..], role);
      CountFromFront([sorted[0]] + Insert(c, sorted[1..]), role);
      CountFromFront(sorted, role);
    }
  }

  lemma {:induction false} CountSorted(cs: seq<Candidate>, role: Role)
    ensures Count(SortByAge(cs), role) == Count(cs, role)
  {
    if cs != [] {
      CountSorted(cs[1..], role);
      CountInserted(cs[0], SortByAge(cs[1..]), role);
      CountFromFront(cs, role);
    }
  }

  lemma CountMonotone(r: PDRound, role: Role)
    requires r.Proper()
    ensures Count(r.Queue(), role) <= Count(r.input.serving, role)
  {
    var unheld := Unheld(r.input.serving, r.now, r.config.minHold);
    CountUnheld(r.input.serving, r.now, r.config.minHold, role);
    CountSorted(unheld, role);
  }

  /** The round gives back a serving worker only when nobody is idle; then nothing is employed and the
      conversions start from the counts of the input. */
  lemma GivingBackStarts(r: PDRound)
    requires r.Proper() && r.Surplus() <= 0 && GivenBack(r) in {Prefill, Decode}
    ensures var w := r.Filled();
      && w.prefill == r.Prefills() && w.decode == r.Decodes() && |w.actions| == RegularDrains(r) + 1
      && r.T().total == r.Prefills() + r.Decodes()
  {
    FreeWhenReserved(r, r.input.serving, Prefill) by { QueueFacts(r); }
    FilledCounts(r);
    VerbIsIdleRelease(r);
  }

  /** The arithmetic of giving one worker back and converting others: `n` workers of the role, `m`
      movable, target `own`; the other role has `other` workers and target `wanted`. */
  lemma LastOfRole(n: int, m: int, own: int, other: int, wanted: int, room: int)
    requires n >= 1 && other >= 1 && m <= n && own >= 1 && wanted >= 1 && own + wanted == n + other
    ensures var left := n - 1 - if other < wanted then Conversions(room, wanted - other, n, m - 1) else 0;
      && left >= 0
      && (left == 0 <==> n == 1 || (own == 1 && n - 1 <= room && m == n))
  {
  }

  /** What giving back one worker leaves, from the counts alone. */
  lemma LeftAfterGivingBack(w: Work, t: Targets, cap: int, prefills: int, decodes: int, movP: int, movD: int, given: Role)
    requires w.prefill == prefills >= 1 && w.decode == decodes >= 1 && given in {Prefill, Decode}
    requires movP <= prefills && movD <= decodes && t.prefill >= 1 && t.decode >= 1 && t.prefill + t.decode == prefills + decodes
    requires given == Prefill ==> prefills >= 2
    ensures var p, d := if given == Prefill then 1 else 0, if given == Decode then 1 else 0;
      var left := (PrefillsLeft(w, t, cap, prefills - p, movP - p), DecodesLeft(w, t, cap, decodes - d, movD - d));
      var (n, m, own) := if given == Prefill then (prefills, movP, t.prefill) else (decodes, movD, t.decode);
      (left.0 >= 1 && left.1 >= 1) <==> !(n == 1 || (own == 1 && n <= cap - |w.actions| + 1 && m == n))
  {
    LastOfRole(decodes, movD, t.decode, prefills, t.prefill, cap - |w.actions|);
    LastOfRole(prefills, movP, t.prefill, decodes, t.decode, cap - |w.actions|);
  }

  /** Both roles survive when the counts say so. */
  lemma SurviveByCounts(r: PDRound)
    requires r.Proper() && r.Surplus() <= 0
    ensures RolesSurvive(r) <==>
      && LeftOf(Prefill, r.Filled(), r.T(), r.Cap(), r.Prefills() - Taken(r, Prefill), Count(r.Queue(), Prefill) - Taken(r, Prefill)) >= 1
      && LeftOf(Decode, r.Filled(), r.T(), r.Cap(), r.Decodes() - Taken(r, Decode), Count(r.Queue(), Decode) - Taken(r, Decode)) >= 1
  {
    ActionsAreConverted(r);
    FreeAfterRound(r, Prefill);
    FreeAfterRound(r, Decode);
  }

  /** Without a give-back the conversions stop before the last worker. */
  lemma KeepingBoth(r: PDRound)
    requires r.Proper() && r.Surplus() <= 0 && r.Prefills() >= 1 && r.Decodes() >= 1
    requires GivenBack(r) !in {Prefill, Decode}
    ensures RolesSurvive(r)
  {
    SurviveByCounts(r);
    FilledCounts(r);
    FilledFacts(r);
  }

  /** A prefill worker is only given back when there is another one. */
  lemma ReleaseNeedsTwo(r: PDRound)
    requires r.Proper()
    ensures GivenBack(r) == Prefill ==> r.Prefills() >= 2
  {
  }

  /** The counts a round starts from when it gives a serving worker back. */
  lemma GivingBackCounts(r: PDRound)
    requires r.Proper() && r.Surplus() <= 0 && r.Prefills() >= 1 && r.Decodes() >= 1
    requires GivenBack(r) in {Prefill, Decode}
    ensures var w, t := r.Filled(), r.T();
      && w.prefill == r.Prefills() && w.decode == r.Decodes() && |w.actions| == RegularDrains(r) + 1
      && Count(r.Queue(), Prefill) <= r.Prefills() && Count(r.Queue(), Decode) <= r.Decodes()
      && t.prefill >= 1 && t.decode >= 1 && t.prefill + t.decode == r.Prefills() + r.Decodes()
      && (GivenBack(r) == Prefill ==> r.Prefills() >= 2)
  {
    GivingBackStarts(r);
    TargetsAddUp(r);
    CountMonotone(r, Prefill);
    CountMonotone(r, Decode);
    ReleaseNeedsTwo(r);
  }

  lemma GivesBackTheLastByCounts(r: PDRound)
    requires GivenBack(r) in {Prefill, Decode} && |r.Filled().actions| == RegularDrains(r) + 1
    ensures var (n, m, own) := if GivenBack(r) == Prefill then (r.Prefills(), Count(r.Queue(), Prefill), r.T().prefill)
                               else (r.Decodes(), Count(r.Queue(), Decode), r.T().decode);
      GivesBackTheLast(r) <==> n == 1 || (own == 1 && n <= r.Cap() - |r.Filled().actions| + 1 && m == n)
  {
  }

  lemma GivingOneBack(r: PDRound)
    requires r.Proper() && r.Surplus() <= 0 && r.Prefills() >= 1 && r.Decodes() >= 1
    requires GivenBack(r) in {Prefill, Decode}
    ensures RolesSurvive(r) <==> !GivesBackTheLast(r)
  {
    SurviveByCounts(r);
    GivingBackCounts(r);
    var w, t, given := r.Filled(), r.T(), GivenBack(r);
    var movP, movD := Count(r.Queue(), Prefill), Count(r.Queue(), Decode);
    LeftAfterGivingBack(w, t, r.Cap(), r.Prefills(), r.Decodes(), movP, movD, given);
    GivesBackTheLastByCounts(r);
  }

  /** Without more workers than max_serving allows, a pool that serves with both roles keeps an
      untouched worker of each - except exactly when the capacity verb gives back the last one. */
  lemma SurviveWithoutSurplus(r: PDRound)
    requires r.Proper() && r.Surplus() <= 0 && r.Prefills() >= 1 && r.Decodes() >= 1
    ensures RolesSurvive(r) <==> !GivesBackTheLast(r)
  {
    if GivenBack(r) in {Prefill, Decode} {
      GivingOneBack(r);
    } else {
      KeepingBoth(r);
    }
  }
}
