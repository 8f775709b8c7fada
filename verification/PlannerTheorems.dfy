/** What one disaggregated round guarantees on every input. */
module PlannerTheorems {
  import opened Domain
  import opened PlannerTypes
  import opened PlannerPhases
  import opened PlannerRound
  import opened PlannerRails

  // ------------------------------------------------- the phases of a round

  /** The arguments of one disaggregated round; `now` is the clock the round plans by. */
  datatype PDRound = PDRound(config: Config, gear: Gear, rungMoved: bool, input: Input, now: Time)
  {
    function Cap(): int { config.maxChangePerRound }

    function Prefills(): int { Count(input.serving, Prefill) }

    function Decodes(): int { Count(input.serving, Decode) }

    function T(): Targets { TargetsFor(config, gear, Count(input.serving, Prefill) + Count(input.serving, Decode), |input.idle|) }

    /** Serving workers beyond max_serving. */
    function Surplus(): int { Prefills() + Decodes() - T().total }

    ghost function Queue(): seq<Candidate> { Movable(input.serving, now, config.minHold) }

    ghost function Drained(): seq<Action> { DrainRegular(Queue(), [], Cap()) }

    ghost function Verb(): Option<Action> {
      if config.capacityActions && config.NormalisedMode() == Auto
      then CapacityStep(config, gear, input, Drained(), rungMoved) else None
    }

    ghost function Reserved(): Work {
      Work(if Verb().Some? then Drained() + [Verb().value] else Drained(), Prefills(), Decodes())
    }

    ghost function Trimmed(): Work { DrainSurplus(Queue(), Reserved(), T().prefill, T().decode, Surplus(), Cap()) }

    ghost function Filled(): Work { FillIdle(SortById(input.idle), Trimmed(), T().prefill, T().decode, T().total, Cap()) }

    ghost function Converted(): Work { Convert(Queue(), Filled(), T().prefill, T().decode, Cap()) }

    ghost function Actions(): seq<Action> { PlanPD(config, gear, rungMoved, input, now).1 }

    /** A valid configuration, a proper input, and a round clock no earlier than the input's. */
    ghost predicate Proper() {
      config.maxChangePerRound > 0 && config.maxServing >= 0 && PlannerRails.Proper(input) && input.now <= now
    }

    /** The round asks neither for more capacity nor for less. */
    ghost predicate NoVerb() { Verb().None? }
  }

  lemma ActionsAreConverted(r: PDRound)
    ensures r.Actions() == r.Converted().actions
    ensures PlanPD(r.config, r.gear, r.rungMoved, r.input, r.now).0 == r.T()
  {
  }

  lemma TargetsAddUp(r: PDRound)
    requires r.Proper()
    ensures var t := r.T();
      && t.prefill + t.decode == t.total && 0 <= t.prefill <= t.total
      && (t.total >= 2 ==> t.prefill >= 1 && t.decode >= 1)
      && t.total <= r.Prefills() + r.Decodes() + |r.input.idle|
  {
  }

  lemma QueueFacts(r: PDRound)
    requires r.Proper()
    ensures DistinctIds(r.Queue()) && RolesKnown(r.Queue())
    ensures forall c :: c in r.Queue() <==> c in r.input.serving && !Held(c, r.now, r.config.minHold)
    ensures DistinctIds(SortById(r.input.idle)) && |SortById(r.input.idle)| == |r.input.idle|
    ensures forall c :: c in SortById(r.input.idle) <==> c in r.input.idle
  {
    MovableIsQueue(r.input.serving, r.now, r.config.minHold);
    SortByIdSorts(r.input.idle);
    forall c ensures c in SortById(r.input.idle) <==> c in r.input.idle {
      assert c in multiset(SortById(r.input.idle)) <==> c in multiset(r.input.idle);
    }
  }

  lemma DrainedFacts(r: PDRound)
    requires r.Proper()
    ensures |r.Drained()| <= r.Cap() && NamesOnce(r.Drained())
    ensures forall k | 0 <= k < |r.Drained()| :: Moves(r.Drained()[k], r.Queue()) && r.Drained()[k].fromRole == Regular
    ensures |r.Drained()| < r.Cap() ==> forall c | c in r.Queue() && c.role == Regular :: Planned(r.Drained(), c.id)
  {
    QueueFacts(r);
    DrainRegularMoves(r.Queue(), [], r.Cap(), r.Queue());
  }

  /** Everything named so far is a worker of the queue, so no idle instance is named. */
  lemma IdleUntouched(r: PDRound, actions: seq<Action>, from: nat)
    requires r.Proper() && from <= |actions|
    requires forall k | from <= k < |actions| :: Moves(actions[k], r.Queue())
    ensures forall k, c | from <= k < |actions| && c in r.input.idle :: actions[k].instanceID != Some(c.id)
  {
    QueueFacts(r);
  }

  lemma VerbFacts(r: PDRound)
    requires r.Proper()
    ensures r.Verb().Some? ==>
      && |r.Drained()| < r.Cap()
      && r.config.capacityActions
      && (var a := r.Verb().value;
          || (a.kind == Provision && a.instanceID == None)
          || (a.kind == Release && a.fromRole == NoRole && r.input.idle != [] && a == ReleaseOf(r.input.idle[0].id, NoRole))
          || (a.kind == Release && Moves(a, r.Queue()) && r.input.idle == []
              && !Planned(r.Drained(), a.instanceID.value) && a.fromRole in {Prefill, Decode}))
  {
    QueueFacts(r);
    if r.Verb().Some? && r.Verb().value.kind == Release && r.input.idle == [] {
      var a := r.Verb().value;
      MovableIsQueue(r.input.serving, r.input.now, r.config.minHold);
      var c := NextConversion(r.input.serving, r.Drained(), r.input.now, r.config.minHold, a.fromRole).value;
      assert c in r.input.serving && !Held(c, r.now, r.config.minHold);
      assert a.instanceID == Some(c.id) && a.fromRole == c.role;
    }
  }

  // ------------------------------------------------------------ guard rails

  lemma {:induction false} DrainRegularKinds(queue: seq<Candidate>, actions: seq<Action>, cap: int)
    requires forall k | 0 <= k < |actions| :: actions[k].kind == Drain
    ensures forall k | 0 <= k < |DrainRegular(queue, actions, cap)| :: DrainRegular(queue, actions, cap)[k].kind == Drain
  {
    if queue != [] && |actions| < cap {
      DrainRegularKinds(queue[1..], if queue[0].role == Regular then actions + [DrainOf(queue[0])] else actions, cap);
    }
  }

  lemma DrainedKinds(r: PDRound)
    ensures forall k | 0 <= k < |r.Drained()| :: r.Drained()[k].kind == Drain
  {
    DrainRegularKinds(r.Queue(), [], r.Cap());
  }

  /** What holds of the actions before any idle instance is put to work. */
  lemma TrimmedFacts(r: PDRound)
    requires r.Proper()
    ensures var w := r.Trimmed();
      && |w.actions| <= r.Cap() && Justified(w.actions, r.Queue(), r.input.idle) && NamesOnce(w.actions)
      && r.Reserved().actions <= w.actions
      && w.prefill + w.decode >= (if r.Surplus() > 0 then r.T().total else r.Prefills() + r.Decodes())
      && (r.Surplus() <= 0 ==> w == r.Reserved())
      && (forall k | 0 <= k < |w.actions| :: w.actions[k].kind != Reassign && w.actions[k].kind != Assign)
      && (forall k | |r.Reserved().actions| <= k < |w.actions| :: Moves(w.actions[k], r.Queue()))
  {
    QueueFacts(r);
    DrainedFacts(r);
    VerbFacts(r);
    var reserved := r.Reserved().actions;
    if r.Verb().Some? {
      var a := r.Verb().value;
      if a.instanceID.Some? {
        if a.fromRole == NoRole {
          IdleUntouched(r, r.Drained(), 0);
          assert Takes(a, r.input.idle);
        }
        assert !Planned(r.Drained(), a.instanceID.value);
        NamesOnceSnoc(r.Drained(), a);
      } else {
        NamesOnceSnoc(r.Drained(), a);
      }
    }
    assert Justified(reserved, r.Queue(), r.input.idle);
    DrainedKinds(r);
    DrainSurplusMoves(r.Queue(), r.Reserved(), r.T().prefill, r.T().decode, r.Surplus(), r.Cap());
  }

  /** Before conversions start, the round is full or the pool has as many workers as it wants. */
  lemma FilledFacts(r: PDRound)
    requires r.Proper()
    ensures var t, w, w0 := r.T(), r.Filled(), r.Trimmed();
      && w0.actions <= w.actions && |w.actions| <= r.Cap()
      && Justified(w.actions, r.Queue(), r.input.idle)
      && (forall k | 0 <= k < |w.actions| :: w.actions[k].kind != Reassign)
      && (|w.actions| >= r.Cap() || w.prefill + w.decode >= t.total)
      && (forall k | |w0.actions| <= k < |w.actions| :: Takes(w.actions[k], r.input.idle) && w.actions[k].kind == Assign)
      && (r.NoVerb() ==> NamesOnce(w.actions))
  {
    QueueFacts(r);
    TargetsAddUp(r);
    TrimmedFacts(r);
    var idle := SortById(r.input.idle);
    if r.NoVerb() {
      DrainedFacts(r);
      IdleUntouched(r, r.Trimmed().actions, 0);
      forall c | c in idle ensures !Planned(r.Trimmed().actions, c.id) {
      }
    }
    FillIdleTakes(idle, r.Trimmed(), r.T().prefill, r.T().decode, r.T().total, r.Cap(), r.input.idle);
  }

  // --------------------------------------------------------- the capacity verb

  predicate CapacityKind(kind: Kind) { kind == Provision || kind == Release }

  /** After the verb a round only drains, assigns and reassigns. */
  lemma LaterKinds(r: PDRound)
    requires r.Proper()
    ensures r.Reserved().actions <= r.Actions()
    ensures forall i | |r.Reserved().actions| <= i < |r.Actions()| :: !CapacityKind(r.Actions()[i].kind)
  {
    ActionsAreConverted(r);
    QueueFacts(r);
    TargetsAddUp(r);
    TrimmedFacts(r);
    FilledFacts(r);
    DrainSurplusMoves(r.Queue(), r.Reserved(), r.T().prefill, r.T().decode, r.Surplus(), r.Cap());
    ConvertMoves(r.Queue(), r.Filled(), r.T().prefill, r.T().decode, r.Cap());
    var actions, filled, trimmed := r.Actions(), r.Filled().actions, r.Trimmed().actions;
    forall i | |r.Reserved().actions| <= i < |actions| ensures !CapacityKind(actions[i].kind) {
      if i < |trimmed| {
        assert actions[i] == filled[i] == trimmed[i];
      } else if i < |filled| {
        assert actions[i] == filled[i];
      }
    }
  }

  /** The capacity verb comes right after the regular drains. */
  lemma VerbPlace(r: PDRound, k: nat)
    requires r.Proper() && k < |r.Actions()| && CapacityKind(r.Actions()[k].kind)
    ensures r.Verb() == Some(r.Actions()[k]) && k == |r.Drained()|
    ensures r.Drained() + [r.Actions()[k]] <= r.Actions()
  {
    LaterKinds(r);
    DrainedKinds(r);
    assert k < |r.Reserved().actions| && r.Actions()[k] == r.Reserved().actions[k];
  }

  /** A round asks for or gives back one instance at most. */
  lemma OneCapacityVerb(r: PDRound)
    requires r.Proper()
    ensures forall i | 0 <= i < |r.Actions()| && CapacityKind(r.Actions()[i].kind) ::
      i == |r.Drained()| && r.Verb() == Some(r.Actions()[i])
  {
    forall i | 0 <= i < |r.Actions()| && CapacityKind(r.Actions()[i].kind)
      ensures i == |r.Drained()| && r.Verb() == Some(r.Actions()[i])
    {
      VerbPlace(r, i);
    }
  }

  lemma OlderIsMovable(d: Candidate, c: Candidate, now: Time, minHold: int)
    ensures Older(d, c) && !Held(c, now, minHold) ==> !Held(d, now, minHold)
  {
  }

  /** A serving worker that is given back is the oldest of its role past its hold time - also when the
      round plans by a later clock than the release looks at. */
  lemma VerbTakesOldest(r: PDRound)
    requires r.Proper() && r.Verb().Some? && r.Verb().value.kind == Release && r.Verb().value.fromRole != NoRole
    ensures TakesOldest(r.Queue(), r.Drained() + [r.Verb().value], |r.Drained()|)
  {
    QueueFacts(r);
    VerbFacts(r);
    var a := r.Verb().value;
    var c := NextConversion(r.input.serving, r.Drained(), r.input.now, r.config.minHold, a.fromRole).value;
    ConversionTakesTheOldest(r.input.serving, r.Drained(), r.input.now, r.config.minHold, a.fromRole);
    forall d | d in r.Queue() && d.role == c.role && !Planned(r.Drained(), d.id) ensures !Older(d, c) {
      OlderIsMovable(d, c, r.input.now, r.config.minHold);
    }
    assert (r.Drained() + [a])[..|r.Drained()|] == r.Drained();
    assert a.instanceID == Some(c.id) && a.fromRole == c.role && c in r.Queue();
  }

  lemma GivenBackFirst(r: PDRound, k: nat)
    requires r.Proper() && k < |r.Actions()| && r.Actions()[k].kind == Release && r.Actions()[k].fromRole != NoRole
    ensures TakesOldest(r.Queue(), r.Actions(), k)
  {
    VerbPlace(r, k);
    VerbTakesOldest(r);
    var early := r.Drained() + [r.Verb().value];
    assert early[..k] == r.Actions()[..k] && early[k] == r.Actions()[k];
  }

  /** Each worker taken for a conversion, or given back while serving, is the oldest movable one of its
      role that the round has not named yet. */
  lemma RoundTakesTheOldest(r: PDRound, k: nat)
    requires r.Proper() && k < |r.Actions()|
    requires r.Actions()[k].kind == Reassign || (r.Actions()[k].kind == Release && r.Actions()[k].fromRole != NoRole)
    ensures TakesOldest(r.Queue(), r.Actions(), k)
  {
    ActionsAreConverted(r);
    FilledFacts(r);
    if k < |r.Filled().actions| {
      ConvertExtends(r.Queue(), r.Filled(), r.T().prefill, r.T().decode, r.Cap());
      GivenBackFirst(r, k);
    } else {
      MovableIsQueue(r.input.serving, r.now, r.config.minHold);
      ConvertTakesOldest(r.Queue(), r.Filled(), r.T().prefill, r.T().decode, r.Cap(), k);
    }
  }

  // ------------------------------------------------------------ guard rails

  /** The worker taken is the oldest of its role that is past its hold time and not named before. */
  ghost predicate OldestPastHold(r: PDRound, actions: seq<Action>, k: nat)
    requires k < |actions|
  {
    exists c :: c in r.input.serving && actions[k].instanceID == Some(c.id) && actions[k].fromRole == c.role
      && forall d | d in r.input.serving && d.role == c.role && PastHold(d, r.now, r.config.minHold) && !Planned(actions[..k], d.id) ::
           AtLeastAsOld(c, d)
  }

  lemma RoundTakesOldestPastHold(r: PDRound, k: nat)
    requires r.Proper() && k < |r.Actions()|
    requires r.Actions()[k].kind == Reassign || (r.Actions()[k].kind == Release && r.Actions()[k].fromRole != NoRole)
    ensures OldestPastHold(r, r.Actions(), k)
  {
    QueueFacts(r);
    RoundTakesTheOldest(r, k);
  }

  /** In every disaggregated round: no more actions than the round allows; every drained, reassigned
      or released worker has held its role for min_hold or has no recorded start; each worker taken for a
      conversion, or given back while serving, is the oldest such worker of its role not named before;
      all conversions go the same way; and unless the capacity verb is in play, no instance is named
      twice. */
  lemma RoundGuardRails(r: PDRound)
    requires r.Proper()
    ensures var actions := r.Actions();
      && |actions| <= r.config.maxChangePerRound
      && (forall k | 0 <= k < |actions| && actions[k].kind in {Drain, Reassign, Release} && actions[k].fromRole != NoRole ::
            exists c :: c in r.input.serving && actions[k].instanceID == Some(c.id) && actions[k].fromRole == c.role
                        && PastHold(c, r.now, r.config.minHold))
      && (forall k | 0 <= k < |actions| && (actions[k].kind == Reassign || (actions[k].kind == Release && actions[k].fromRole != NoRole)) ::
            OldestPastHold(r, actions, k))
      && (forall i, j | 0 <= i < |actions| && 0 <= j < |actions| && actions[i].kind == Reassign && actions[j].kind == Reassign ::
            actions[i].role == actions[j].role && actions[i].fromRole == actions[j].fromRole)
      && (r.NoVerb() || r.config.maxChangePerRound == 1 ==> NamesOnce(actions))
  {
    ActionsAreConverted(r);
    QueueFacts(r);
    TargetsAddUp(r);
    FilledFacts(r);
    ConvertMoves(r.Queue(), r.Filled(), r.T().prefill, r.T().decode, r.Cap());
    var actions := r.Actions();
    forall k | 0 <= k < |actions| && (actions[k].kind == Reassign || (actions[k].kind == Release && actions[k].fromRole != NoRole))
      ensures OldestPastHold(r, actions, k)
    {
      RoundTakesOldestPastHold(r, k);
    }
    forall k | 0 <= k < |actions| && actions[k].kind in {Drain, Reassign, Release} && actions[k].fromRole != NoRole
      ensures Moves(actions[k], r.Queue())
    {
      if k < |r.Filled().actions| {
        assert actions[k] == r.Filled().actions[k];
      }
    }
  }
}
