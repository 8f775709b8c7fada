/** The phases of one planner round, as recursive functions over the actions planned so far, and the
    loops of `Plan` that compute them. */
module PlannerPhases {
  import opened Domain
  import opened PlannerTypes

  // ------------------------------------------------------------ bookkeeping

  /** The running state every PD phase shares: the actions and the two planned worker counts. */
  datatype Work = Work(actions: seq<Action>, prefill: int, decode: int)

  function DrainOf(c: Candidate): Action { Action(Drain, Some(c.id), NoRole, c.role) }

  function AssignOf(c: Candidate, role: Role): Action { Action(Assign, Some(c.id), role, NoRole) }

  function ReassignOf(c: Candidate, role: Role): Action { Action(Reassign, Some(c.id), role, c.role) }

  ghost predicate Planned(actions: seq<Action>, id: int) {
    exists k :: 0 <= k < |actions| && actions[k].instanceID == Some(id)
  }

  method AlreadyPlanned(actions: seq<Action>, id: int) returns (planned: bool)
    ensures planned <==> Planned(actions, id)
  {
    for k := 0 to |actions|
      invariant forall j | 0 <= j < k :: actions[j].instanceID != Some(id)
    {
      if actions[k].instanceID == Some(id) {
        return true;
      }
    }
    return false;
  }

  function Count(cs: seq<Candidate>, role: Role): nat {
    if cs == [] then 0 else Count(cs[..|cs| - 1], role) + if cs[|cs| - 1].role == role then 1 else 0
  }

  method CountRoles(cs: seq<Candidate>) returns (prefill: nat, decode: nat)
    ensures prefill == Count(cs, Prefill) && decode == Count(cs, Decode)
  {
    prefill, decode := 0, 0;
    for i := 0 to |cs|
      invariant prefill == Count(cs[..i], Prefill) && decode == Count(cs[..i], Decode)
    {
      assert cs[..i + 1][..i] == cs[..i];
      match cs[i].role {
        case Prefill => prefill := prefill + 1;
        case Decode => decode := decode + 1;
        case _ =>
      }
    }
    assert cs[..|cs|] == cs;
  }

  /** The workers of a role that no action names. */
  ghost function CountFree(cs: seq<Candidate>, actions: seq<Action>, role: Role): nat {
    if cs == [] then 0
    else
      var n := |cs| - 1;
      CountFree(cs[..n], actions, role) + if cs[n].role == role && !Planned(actions, cs[n].id) then 1 else 0
  }

  // ----------------------------------------------------- oldest of a role

  /** The first candidate of the queue with this role that the round has not touched. */
  ghost function NextIn(queue: seq<Candidate>, actions: seq<Action>, role: Role): (r: Option<Candidate>)
    ensures r.Some? ==> r.value in queue && r.value.role == role && !Planned(actions, r.value.id)
    ensures r.None? ==> forall c | c in queue && c.role == role :: Planned(actions, c.id)
  {
    if queue == [] then None
    else if queue[0].role == role && !Planned(actions, queue[0].id) then Some(queue[0])
    else NextIn(queue[1..], actions, role)
  }

  ghost function NextConversion(cs: seq<Candidate>, actions: seq<Action>, now: Time, minHold: int, role: Role): (r: Option<Candidate>)
  {
    NextIn(Movable(cs, now, minHold), actions, role)
  }

  method FindConversion(cs: seq<Candidate>, actions: seq<Action>, now: Time, minHold: int, role: Role)
    returns (r: Option<Candidate>)
    ensures r == NextConversion(cs, actions, now, minHold, role)
  {
    var queue := ComputeMovable(cs, now, minHold);
    for i := 0 to |queue|
      invariant NextIn(queue[i..], actions, role) == NextIn(queue, actions, role)
    {
      assert queue[i..][1..] == queue[i + 1..];
      var touched := AlreadyPlanned(actions, queue[i].id);
      if queue[i].role != role || touched {
        continue;
      }
      return Some(queue[i]);
    }
    return None;
  }

  // ----------------------------------------------- leftovers of the other shape

  /** Regular workers of the queue are drained, oldest first, until the round is full. */
  ghost function DrainRegular(queue: seq<Candidate>, actions: seq<Action>, cap: int): seq<Action> {
    if queue == [] || |actions| >= cap then actions
    else DrainRegular(queue[1..], if queue[0].role == Regular then actions + [DrainOf(queue[0])] else actions, cap)
  }

  method DrainRegularWorkers(serving: seq<Candidate>, now: Time, minHold: int, cap: int) returns (actions: seq<Action>)
    ensures actions == DrainRegular(Movable(serving, now, minHold), [], cap)
  {
    var queue := ComputeMovable(serving, now, minHold);
    actions := [];
    for i := 0 to |queue|
      invariant DrainRegular(queue[i..], actions, cap) == DrainRegular(queue, [], cap)
    {
      assert queue[i..][1..] == queue[i + 1..];
      if |actions| >= cap {
        break;
      }
      if queue[i].role != Regular {
        continue;
      }
      actions := actions + [DrainOf(queue[i])];
    }
  }

  // ---------------------------------------------------- beyond max_serving

  predicate SurplusRole(role: Role, w: Work, targetPrefill: int, targetDecode: int) {
    (role == Prefill && w.prefill > targetPrefill) || (role == Decode && w.decode > targetDecode)
  }

  /** The first untouched candidate. */
  ghost function FirstFree(queue: seq<Candidate>, actions: seq<Action>): Option<Candidate> {
    if queue == [] then None
    else if !Planned(actions, queue[0].id) then Some(queue[0])
    else FirstFree(queue[1..], actions)
  }

  /** The first untouched candidate of a role the pool has too many of. */
  ghost function FirstSurplus(queue: seq<Candidate>, w: Work, targetPrefill: int, targetDecode: int): Option<Candidate> {
    if queue == [] then None
    else if !Planned(w.actions, queue[0].id) && SurplusRole(queue[0].role, w, targetPrefill, targetDecode) then Some(queue[0])
    else FirstSurplus(queue[1..], w, targetPrefill, targetDecode)
  }

  ghost function ChooseDrain(queue: seq<Candidate>, w: Work, targetPrefill: int, targetDecode: int): Option<Candidate> {
    var surplus := FirstSurplus(queue, w, targetPrefill, targetDecode);
    if surplus.Some? then surplus else FirstFree(queue, w.actions)
  }

  method PickDrain(queue: seq<Candidate>, w: Work, targetPrefill: int, targetDecode: int) returns (chosen: Option<Candidate>)
    ensures chosen == ChooseDrain(queue, w, targetPrefill, targetDecode)
  {
    chosen := None;
    for i := 0 to |queue|
      invariant FirstSurplus(queue, w, targetPrefill, targetDecode) == FirstSurplus(queue[i..], w, targetPrefill, targetDecode)
      invariant FirstFree(queue, w.actions) == if chosen.Some? then chosen else FirstFree(queue[i..], w.actions)
    {
      assert queue[i..][1..] == queue[i + 1..];
      var touched := AlreadyPlanned(w.actions, queue[i].id);
      if touched {
        continue;
      }
      if chosen.None? {
        chosen := Some(queue[i]);
      }
      if SurplusRole(queue[i].role, w, targetPrefill, targetDecode) {
        return Some(queue[i]);
      }
    }
  }

  function Drained(w: Work, c: Candidate): Work {
    var actions := w.actions + [DrainOf(c)];
    if c.role == Prefill then Work(actions, w.prefill - 1, w.decode) else Work(actions, w.prefill, w.decode - 1)
  }

  ghost function DrainSurplus(queue: seq<Candidate>, w: Work, targetPrefill: int, targetDecode: int, budget: int, cap: int): Work
    decreases budget
  {
    if budget <= 0 || |w.actions| >= cap then w
    else
      var chosen := ChooseDrain(queue, w, targetPrefill, targetDecode);
      if chosen.None? then w
      else DrainSurplus(queue, Drained(w, chosen.value), targetPrefill, targetDecode, budget - 1, cap)
  }

  method DrainSurplusWorkers(serving: seq<Candidate>, now: Time, minHold: int, w0: Work,
                             targetPrefill: int, targetDecode: int, budget0: int, cap: int) returns (w: Work)
    ensures w == DrainSurplus(Movable(serving, now, minHold), w0, targetPrefill, targetDecode, budget0, cap)
  {
    w := w0;
    var budget := budget0;
    if budget > 0 {
      var queue := ComputeMovable(serving, now, minHold);
      while budget > 0 && |w.actions| < cap
        invariant DrainSurplus(queue, w, targetPrefill, targetDecode, budget, cap)
               == DrainSurplus(queue, w0, targetPrefill, targetDecode, budget0, cap)
      {
        var chosen := PickDrain(queue, w, targetPrefill, targetDecode);
        if chosen.None? {
          break;
        }
        w := Drained(w, chosen.value);
        budget := budget - 1;
      }
    }
  }

  // ------------------------------------------------------------ idle first

  /** Idle instances in id order fill what the ratio still needs, prefill before decode. */
  function FillIdle(idle: seq<Candidate>, w: Work, targetPrefill: int, targetDecode: int, total: int, cap: int): Work {
    if idle == [] || w.prefill + w.decode >= total || |w.actions| >= cap then w
    else if w.prefill < targetPrefill then
      FillIdle(idle[1..], Work(w.actions + [AssignOf(idle[0], Prefill)], w.prefill + 1, w.decode),
               targetPrefill, targetDecode, total, cap)
    else if w.decode < targetDecode then
      FillIdle(idle[1..], Work(w.actions + [AssignOf(idle[0], Decode)], w.prefill, w.decode + 1),
               targetPrefill, targetDecode, total, cap)
    else w
  }

  method FillFromIdle(idle0: seq<Candidate>, w0: Work, targetPrefill: int, targetDecode: int, total: int, cap: int)
    returns (w: Work)
    ensures w == FillIdle(idle0, w0, targetPrefill, targetDecode, total, cap)
  {
    var idle := idle0;
    w := w0;
    while idle != [] && w.prefill + w.decode < total
      invariant FillIdle(idle, w, targetPrefill, targetDecode, total, cap)
             == FillIdle(idle0, w0, targetPrefill, targetDecode, total, cap)
      decreases |idle|
    {
      if |w.actions| >= cap {
        break;
      }
      if w.prefill < targetPrefill {
        w := Work(w.actions + [AssignOf(idle[0], Prefill)], w.prefill + 1, w.decode);
      } else if w.decode < targetDecode {
        w := Work(w.actions + [AssignOf(idle[0], Decode)], w.prefill, w.decode + 1);
      } else {
        break;
      }
      idle := idle[1..];
    }
  }

  // ------------------------------------------------------- then conversions

  function ToPrefill(w: Work, c: Candidate): Work {
    Work(w.actions + [ReassignOf(c, Prefill)], w.prefill + 1, w.decode - 1)
  }

  function ToDecode(w: Work, c: Candidate): Work {
    Work(w.actions + [ReassignOf(c, Decode)], w.prefill - 1, w.decode + 1)
  }

  function Deficits(w: Work, targetPrefill: int, targetDecode: int): nat {
    (if w.prefill < targetPrefill then 1 else 0) + (if w.decode < targetDecode then 1 else 0)
  }

  /** Conversions of serving workers, one at a time, never taking what is counted as the last worker
      of a role.  A refused deficit is set aside by treating its role as satisfied. */
  ghost function Convert(queue: seq<Candidate>, w: Work, targetPrefill: int, targetDecode: int, cap: int): Work
    decreases cap - |w.actions|, Deficits(w, targetPrefill, targetDecode)
  {
    if |w.actions| >= cap then w
    else if w.prefill < targetPrefill then
      var c := NextIn(queue, w.actions, Decode);
      if c.Some? && w.decode > 1 then Convert(queue, ToPrefill(w, c.value), targetPrefill, targetDecode, cap)
      else Convert(queue, w.(prefill := targetPrefill), targetPrefill, targetDecode, cap)
    else if w.decode < targetDecode then
      var c := NextIn(queue, w.actions, Prefill);
      if c.Some? && w.prefill > 1 then Convert(queue, ToDecode(w, c.value), targetPrefill, targetDecode, cap)
      else Convert(queue, w.(decode := targetDecode), targetPrefill, targetDecode, cap)
    else w
  }

  method ConvertWorkers(serving: seq<Candidate>, now: Time, minHold: int, w0: Work,
                        targetPrefill: int, targetDecode: int, cap: int) returns (w: Work)
    ensures w == Convert(Movable(serving, now, minHold), w0, targetPrefill, targetDecode, cap)
  {
    ghost var queue := Movable(serving, now, minHold);
    w := w0;
    while |w.actions| < cap
      invariant Convert(queue, w, targetPrefill, targetDecode, cap) == Convert(queue, w0, targetPrefill, targetDecode, cap)
      decreases cap - |w.actions|, Deficits(w, targetPrefill, targetDecode)
    {
      if w.prefill < targetPrefill {
        var c := FindConversion(serving, w.actions, now, minHold, Decode);
        if c.Some? && w.decode > 1 {
          w := ToPrefill(w, c.value);
          continue;
        }
        w := w.(prefill := targetPrefill);
      } else if w.decode < targetDecode {
        var c := FindConversion(serving, w.actions, now, minHold, Prefill);
        if c.Some? && w.prefill > 1 {
          w := ToDecode(w, c.value);
          continue;
        }
        w := w.(decode := targetDecode);
      } else {
        break;
      }
    }
  }

  // --------------------------------------------------------- idle in id order

  function InsertById(c: Candidate, sorted: seq<Candidate>): seq<Candidate> {
    if sorted == [] || c.id <= sorted[0].id then [c] + sorted else [sorted[0]] + InsertById(c, sorted[1..])
  }

  function SortById(cs: seq<Candidate>): seq<Candidate> {
    if cs == [] then [] else InsertById(cs[0], SortById(cs[1..]))
  }

  predicate InIdOrder(cs: seq<Candidate>) {
    forall i, j | 0 <= i < j < |cs| :: cs[i].id <= cs[j].id
  }

  lemma {:induction false} InsertByIdPermutes(c: Candidate, sorted: seq<Candidate>)
    ensures multiset(InsertById(c, sorted)) == multiset(sorted) + multiset{c}
  {
    if sorted != [] {
      assert sorted == [sorted[0]] + sorted[1..];
      InsertByIdPermutes(c, sorted[1..]);
    }
  }

  lemma {:induction false} InsertByIdSorts(c: Candidate, sorted: seq<Candidate>)
    requires InIdOrder(sorted)
    ensures InIdOrder(InsertById(c, sorted))
  {
    if sorted != [] && sorted[0].id < c.id {
      var rest := InsertById(c, sorted[1..]);
      InsertByIdSorts(c, sorted[1..]);
      InsertByIdPermutes(c, sorted[1..]);
      forall j | 0 <= j < |rest| ensures sorted[0].id <= rest[j].id {
        assert rest[j] in multiset(rest);
      }
    }
  }

  lemma {:induction false} SortByIdPermutes(cs: seq<Candidate>)
    ensures InIdOrder(SortById(cs)) && multiset(SortById(cs)) == multiset(cs)
  {
    if cs != [] {
      SortByIdPermutes(cs[1..]);
      InsertByIdSorts(cs[0], SortById(cs[1..]));
      InsertByIdPermutes(cs[0], SortById(cs[1..]));
      assert cs == [cs[0]] + cs[1..];
    }
  }

  lemma SortByIdSorts(cs: seq<Candidate>)
    ensures InIdOrder(SortById(cs)) && multiset(SortById(cs)) == multiset(cs)
    ensures |SortById(cs)| == |cs|
    ensures DistinctIds(cs) ==> DistinctIds(SortById(cs))
  {
    SortByIdPermutes(cs);
    if DistinctIds(cs) {
      PermutedDistinct(cs, SortById(cs));
    }
    assert |multiset(cs)| == |cs| && |multiset(SortById(cs))| == |SortById(cs)|;
  }
}
