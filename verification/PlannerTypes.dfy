/** The vocabulary of internal/planner/planner.go and its candidate queue. */
module PlannerTypes {
  import opened Domain

  datatype Mode = Unset | Fixed | Auto | Aggregated | OtherMode(name: string)

  /** The three supported gears and every unsupported name; the empty name means "no gear set". */
  datatype Gear = DecodeHeavy | Even | PrefillHeavy | OtherGear(name: string)

  const NO_GEAR := OtherGear("")

  /** The supported gears in ascending Prefill share. */
  const LADDER: seq<Gear> := [DecodeHeavy, Even, PrefillHeavy]

  predicate Supported(gear: Gear) { gear in LADDER }

  /** floor(total * share), for the Prefill share 1/3, 1/2 or 2/3 of a supported gear. */
  function PrefillShare(gear: Gear, total: nat): nat {
    match gear
    case DecodeHeavy => total / 3
    case PrefillHeavy => 2 * total / 3
    case _ => total / 2
  }

  datatype Config = Config(
    mode: Mode, gear: Gear, maxChangePerRound: int, minHold: int, cooldown: int, maxServing: int,
    autoDeadBand: real, capacityActions: bool, autoReleaseBelow: real)
  {
    function NormalisedMode(): Mode {
      match mode
      case Auto => Auto
      case Aggregated => Aggregated
      case _ => Fixed
    }

    function DeadBand(): real { if autoDeadBand > 0.0 then autoDeadBand else 0.2 }

    function ReleaseBelow(): real { if autoReleaseBelow > 0.0 then autoReleaseBelow else 0.1 }

    predicate Valid() {
      && !mode.OtherMode?
      && (mode != Aggregated ==> Supported(gear))
      && maxChangePerRound > 0 && minHold >= 0 && cooldown >= 0 && maxServing >= 0
      && autoDeadBand >= 0.0 && autoReleaseBelow >= 0.0
      && (capacityActions ==> mode == Auto)
    }
  }

  datatype LoadSnapshot = LoadSnapshot(
    valid: bool, prefillPressure: Option<real>, decodePressure: Option<real>, queueLength: real)
  {
    predicate Complete() { valid && prefillPressure.Some? && decodePressure.Some? }

    function Gap(): real
      requires Complete()
    {
      prefillPressure.value - decodePressure.value
    }
  }

  function Abs(x: real): real { if x < 0.0 then -x else x }

  datatype Candidate = Candidate(id: int, role: Role, roleSince: Time)

  datatype Input = Input(
    now: Time, serving: seq<Candidate>, idle: seq<Candidate>, recovering: seq<Candidate>,
    load: LoadSnapshot, provisioning: int)

  datatype Kind = Assign | Reassign | Drain | Provision | Release

  datatype Action = Action(kind: Kind, instanceID: Option<int>, role: Role, fromRole: Role)

  datatype Decision = Decision(
    mode: Mode, gear: Gear, effectiveGear: Gear, targetPrefill: int, targetDecode: int,
    targetRegular: int, servingCount: int, idleCount: int, actions: seq<Action>)

  // --------------------------------------------------------- the gear ladder

  function IndexOnLadder(gear: Gear): (i: int)
    ensures 0 <= i < |LADDER| ==> LADDER[i] == gear
    ensures 0 <= i < |LADDER| <==> Supported(gear)
  {
    match gear
    case DecodeHeavy => 0
    case Even => 1
    case PrefillHeavy => 2
    case OtherGear(_) => -1
  }

  function GearStep(current: Gear, step: int): (Gear, bool) {
    var to := IndexOnLadder(current) + step;
    if step != 0 && Supported(current) && 0 <= to < |LADDER| then (LADDER[to], true) else (current, false)
  }

  /** The gear `step` rungs away from `current`, if the ladder has it. */
  method StepGear(current: Gear, step: int) returns (next: Gear, ok: bool)
    ensures (next, ok) == GearStep(current, step)
  {
    if step == 0 {
      return current, false;
    }
    for index := 0 to |LADDER|
      invariant forall k | 0 <= k < index :: LADDER[k] != current
    {
      if LADDER[index] != current {
        continue;
      }
      var to := index + step;
      if 0 <= to < |LADDER| {
        return LADDER[to], true;
      }
      return current, false;
    }
    return current, false;
  }

  // ------------------------------------------------------- queue by age

  predicate Held(c: Candidate, now: Time, minHold: int) {
    minHold > 0 && c.roleSince != ZERO_TIME && now - c.roleSince < minHold
  }

  /** Oldest assignment first, ties by id. */
  predicate Older(a: Candidate, b: Candidate) {
    a.roleSince < b.roleSince || (a.roleSince == b.roleSince && a.id < b.id)
  }

  function Insert(c: Candidate, sorted: seq<Candidate>): seq<Candidate> {
    if sorted == [] || !Older(sorted[0], c) then [c] + sorted else [sorted[0]] + Insert(c, sorted[1..])
  }

  function SortByAge(cs: seq<Candidate>): seq<Candidate> {
    if cs == [] then [] else Insert(cs[0], SortByAge(cs[1..]))
  }

  function Unheld(cs: seq<Candidate>, now: Time, minHold: int): seq<Candidate> {
    if cs == [] then []
    else
      var front := Unheld(cs[..|cs| - 1], now, minHold);
      if Held(cs[|cs| - 1], now, minHold) then front else front + [cs[|cs| - 1]]
  }

  /** The candidates that may change role, oldest assignment first. */
  function Movable(cs: seq<Candidate>, now: Time, minHold: int): seq<Candidate> {
    SortByAge(Unheld(cs, now, minHold))
  }

  method ComputeMovable(cs: seq<Candidate>, now: Time, minHold: int) returns (eligible: seq<Candidate>)
    ensures eligible == Movable(cs, now, minHold)
  {
    eligible := [];
    for i := 0 to |cs|
      invariant eligible == Unheld(cs[..i], now, minHold)
    {
      assert cs[..i + 1][..i] == cs[..i];
      if minHold > 0 && cs[i].roleSince != ZERO_TIME && now - cs[i].roleSince < minHold {
        continue;
      }
      eligible := eligible + [cs[i]];
    }
    assert cs[..|cs|] == cs;
    eligible := SortByAge(eligible);
  }

  predicate InAgeOrder(cs: seq<Candidate>) {
    forall i, j | 0 <= i < j < |cs| :: !Older(cs[j], cs[i])
  }

  lemma {:induction false} InsertSorts(c: Candidate, sorted: seq<Candidate>)
    requires InAgeOrder(sorted)
    ensures InAgeOrder(Insert(c, sorted))
    ensures multiset(Insert(c, sorted)) == multiset(sorted) + multiset{c}
  {
    if sorted != [] {
      assert sorted == [sorted[0]] + sorted[1..];
      if Older(sorted[0], c) {
        var rest := Insert(c, sorted[1..]);
        InsertSorts(c, sorted[1..]);
        forall j | 0 <= j < |rest| ensures !Older(rest[j], sorted[0]) {
          assert rest[j] in multiset(rest);
        }
      }
    }
  }

  lemma {:induction false} SortSorts(cs: seq<Candidate>)
    ensures InAgeOrder(SortByAge(cs)) && multiset(SortByAge(cs)) == multiset(cs)
  {
    if cs != [] {
      SortSorts(cs[1..]);
      InsertSorts(cs[0], SortByAge(cs[1..]));
      assert cs == [cs[0]] + cs[1..];
    }
  }

  predicate DistinctIds(cs: seq<Candidate>) {
    forall i, j | 0 <= i < j < |cs| :: cs[i].id != cs[j].id
  }

  lemma {:induction false} UnheldIsFilter(cs: seq<Candidate>, now: Time, minHold: int, c: Candidate)
    ensures c in Unheld(cs, now, minHold) <==> c in cs && !Held(c, now, minHold)
  {
    if cs != [] {
      var n := |cs| - 1;
      UnheldIsFilter(cs[..n], now, minHold, c);
      assert cs == cs[..n] + [cs[n]];
    }
  }

  lemma {:induction false} UnheldDistinct(cs: seq<Candidate>, now: Time, minHold: int)
    requires DistinctIds(cs)
    ensures DistinctIds(Unheld(cs, now, minHold))
  {
    if cs != [] {
      var n := |cs| - 1;
      UnheldDistinct(cs[..n], now, minHold);
      var front := Unheld(cs[..n], now, minHold);
      forall i | 0 <= i < |front| ensures front[i].id != cs[n].id {
        UnheldIsFilter(cs[..n], now, minHold, front[i]);
      }
    }
  }

  lemma TwiceInMultiset(s: seq<Candidate>, i: nat, j: nat)
    requires i < j < |s| && s[i] == s[j]
    ensures multiset(s)[s[i]] >= 2
  {
    assert s == s[..i] + [s[i]] + s[i + 1..j] + [s[j]] + s[j + 1..];
  }

  lemma OnceInMultiset(s: seq<Candidate>, i: nat)
    requires i < |s| && DistinctIds(s)
    ensures multiset(s)[s[i]] == 1
  {
    assert s == s[..i] + [s[i]] + s[i + 1..];
    assert s[i] !in s[..i] && s[i] !in s[i + 1..];
  }

  lemma PermutedDistinct(a: seq<Candidate>, b: seq<Candidate>)
    requires multiset(a) == multiset(b) && DistinctIds(a)
    ensures DistinctIds(b)
  {
    forall i, j | 0 <= i < j < |b| ensures b[i].id != b[j].id {
      if b[i].id == b[j].id {
        assert b[i] in multiset(b) && b[j] in multiset(b);
        var x :| 0 <= x < |a| && a[x] == b[i];
        var y :| 0 <= y < |a| && a[y] == b[j];
        assert x == y;
        TwiceInMultiset(b, i, j);
        OnceInMultiset(a, x);
        assert false;
      }
    }
  }

  /** The queue holds exactly the candidates that are past their hold time, each once, by age. */
  lemma MovableIsQueue(cs: seq<Candidate>, now: Time, minHold: int)
    ensures InAgeOrder(Movable(cs, now, minHold))
    ensures forall c :: c in Movable(cs, now, minHold) <==> c in cs && !Held(c, now, minHold)
    ensures DistinctIds(cs) ==> DistinctIds(Movable(cs, now, minHold))
  {
    var unheld := Unheld(cs, now, minHold);
    SortSorts(unheld);
    forall c ensures c in Movable(cs, now, minHold) <==> c in cs && !Held(c, now, minHold) {
      UnheldIsFilter(cs, now, minHold, c);
      assert c in multiset(unheld) <==> c in multiset(SortByAge(unheld));
    }
    if DistinctIds(cs) {
      UnheldDistinct(cs, now, minHold);
      PermutedDistinct(unheld, SortByAge(unheld));
    }
  }
}
