/** When a round names the same instance twice: exactly when the capacity verb gives back an idle
    instance that the same round also puts to work. */
module PlannerNaming {
  import opened Domain
  import opened PlannerTypes
  import opened PlannerPhases
  import opened PlannerRound
  import opened PlannerRails
  import opened PlannerProgress
  import opened PlannerTheorems

  // ------------------------------------------------------ order of the idle

  /** How many idle instances come before this one in id order. */
  ghost function Rank(idle: seq<Candidate>, id: int): nat {
    |set c | c in idle && c.id < id|
  }

  lemma {:induction false} ElementsOfDistinct(cs: seq<Candidate>)
    requires DistinctIds(cs)
    ensures |set c | c in cs| == |cs|
  {
    if cs != [] {
      var n := |cs| - 1;
      ElementsOfDistinct(cs[..n]);
      assert (set c | c in cs) == (set c | c in cs[..n]) + {cs[n]};
      assert cs[n] !in cs[..n];
    }
  }

  lemma SortByIdElements(cs: seq<Candidate>, c: Candidate)
    ensures c in SortById(cs) <==> c in cs
  {
    SortByIdPermutes(cs);
    assert c in multiset(SortById(cs)) <==> c in multiset(cs);
  }

  /** In an ascending list of distinct ids, those before a place are those with a smaller id. */
  lemma BeforeMeansSmaller(sorted: seq<Candidate>, i: nat, d: Candidate)
    requires InIdOrder(sorted) && DistinctIds(sorted) && i < |sorted|
    ensures d in sorted[..i] <==> d in sorted && d.id < sorted[i].id
  {
    if d in sorted && d.id < sorted[i].id {
      var j :| 0 <= j < |sorted| && sorted[j] == d;
      assert sorted[..i][j] == d;
    }
  }

  lemma RankIsIndex(idle: seq<Candidate>, c: Candidate) returns (i: nat)
    requires DistinctIds(idle) && c in idle
    ensures i == Rank(idle, c.id) && i < |SortById(idle)| && SortById(idle)[i] == c
  {
    var sorted := SortById(idle);
    SortByIdSorts(idle);
    SortByIdElements(idle, c);
    i :| 0 <= i < |sorted| && sorted[i] == c;
    ElementsOfDistinct(sorted[..i]);
    forall d ensures d in sorted[..i] <==> d in idle && d.id < c.id {
      BeforeMeansSmaller(sorted, i, d);
      SortByIdElements(idle, d);
    }
    assert (set d | d in sorted[..i]) == (set d | d in idle && d.id < c.id);
  }

  // --------------------------------------------------- counting the drains

  lemma {:induction false} CountFromFront(cs: seq<Candidate>, role: Role)
    requires cs != []
    ensures Count(cs, role) == (if cs[0].role == role then 1 else 0) + Count(cs[1..], role)
  {
    var n := |cs| - 1;
    if n > 0 {
      CountFromFront(cs[..n], role);
      assert cs[..n][1..] == cs[1..][..n - 1];
    }
  }

  lemma {:induction false} DrainRegularCount(queue: seq<Candidate>, actions: seq<Action>, cap: int)
    requires |actions| <= cap
    ensures |DrainRegular(queue, actions, cap)| == Min(cap, |actions| + Count(queue, Regular))
  {
    if queue != [] {
      CountFromFront(queue, Regular);
      if |actions| < cap {
        DrainRegularCount(queue[1..], if queue[0].role == Regular then actions + [DrainOf(queue[0])] else actions, cap);
      }
    }
  }

  // ----------------------------------------------------------- the condition

  /** Regular workers the round drains before anything else. */
  ghost function RegularDrains(r: PDRound): int {
    Min(r.Cap(), Count(r.Queue(), Regular))
  }

  /** The sample is complete, nothing waits and neither role is above the release threshold, 0.1 unless configured. */
  predicate Quiet(config: Config, load: LoadSnapshot) {
    var below := if config.autoReleaseBelow > 0.0 then config.autoReleaseBelow else 0.1;
    && load.valid && load.prefillPressure.Some? && load.decodePressure.Some?
    && load.queueLength <= 0.0 && load.prefillPressure.value <= below && load.decodePressure.value <= below
  }

  /** The round gives back the idle instance its input lists first. */
  ghost predicate GivesBackIdle(r: PDRound) {
    && r.config.capacityActions && r.config.mode == Auto
    && Quiet(r.config, r.input.load) && r.input.provisioning <= 0 && r.input.recovering == []
    && r.input.idle != [] && RegularDrains(r) < r.Cap()
  }

  /** How many idle instances the round would put to work after giving one back. */
  ghost function FillsAfterVerb(r: PDRound): int {
    Min(r.Cap() - RegularDrains(r) - 1, r.T().total - (r.Prefills() + r.Decodes()))
  }

  ghost predicate ReleaseCollides(r: PDRound) {
    GivesBackIdle(r) && Rank(r.input.idle, r.input.idle[0].id) < FillsAfterVerb(r)
  }

  lemma VerbIsIdleRelease(r: PDRound)
    requires r.Proper()
    ensures |r.Drained()| == RegularDrains(r)
    ensures GivesBackIdle(r) <==>
      r.Verb().Some? && r.input.idle != [] && r.Verb().value == ReleaseOf(r.input.idle[0].id, NoRole)
  {
    DrainRegularCount(r.Queue(), [], r.Cap());
    VerbFacts(r);
  }

  lemma {:induction false} InsertByIdLength(c: Candidate, sorted: seq<Candidate>)
    ensures |InsertById(c, sorted)| == |sorted| + 1
  {
    if sorted != [] && sorted[0].id < c.id {
      InsertByIdLength(c, sorted[1..]);
    }
  }

  lemma {:induction false} SortByIdLength(cs: seq<Candidate>)
    ensures |SortById(cs)| == |cs|
  {
    if cs != [] {
      SortByIdLength(cs[1..]);
      InsertByIdLength(cs[0], SortById(cs[1..]));
    }
  }

  lemma FillNames(idle: seq<Candidate>, w: Work, t: Targets, cap: int) returns (n: nat)
    requires t.prefill + t.decode == t.total
    ensures var r := FillIdle(idle, w, t.prefill, t.decode, t.total, cap);
      && n == Max(0, Min(Min(cap - |w.actions|, t.total - (w.prefill + w.decode)), |idle|))
      && w.actions <= r.actions && |r.actions| == |w.actions| + n && n <= |idle|
      && forall k | 0 <= k < n :: r.actions[|w.actions| + k].instanceID == Some(idle[k].id)
  {
    FillCount(idle, w, t.prefill, t.decode, t.total, cap);
    FillPrefix(idle, w, t.prefill, t.decode, t.total, cap);
    n := Max(0, Min(Min(cap - |w.actions|, t.total - (w.prefill + w.decode)), |idle|));
  }

  /** The idle part of a round names the first so many idle instances, in id order. */
  lemma FilledNames(r: PDRound) returns (n: nat)
    requires r.Proper()
    ensures var w0, w := r.Trimmed(), r.Filled();
      && n == Max(0, Min(Min(r.Cap() - |w0.actions|, r.T().total - (w0.prefill + w0.decode)), |r.input.idle|))
      && w0.actions <= w.actions && |w.actions| == |w0.actions| + n && n <= |SortById(r.input.idle)|
      && forall k | 0 <= k < n :: w.actions[|w0.actions| + k].instanceID == Some(SortById(r.input.idle)[k].id)
  {
    SortByIdLength(r.input.idle);
    TargetsAddUp(r);
    n := FillNames(SortById(r.input.idle), r.Trimmed(), r.T(), r.Cap());
  }

  lemma ConvertKeepsNames(r: PDRound)
    requires r.Proper()
    ensures NamesOnce(r.Filled().actions) <==> NamesOnce(r.Actions())
  {
    ActionsAreConverted(r);
    TargetsAddUp(r);
    FilledFacts(r);
    ConvertMoves(r.Queue(), r.Filled(), r.T().prefill, r.T().decode, r.Cap());
    var filled, actions := r.Filled().actions, r.Actions();
    if NamesOnce(actions) {
      forall i, j | 0 <= i < j < |filled| && filled[i].instanceID.Some? ensures filled[i].instanceID != filled[j].instanceID {
        assert actions[i] == filled[i] && actions[j] == filled[j];
      }
    }
  }

  /** An action planned before the idle instances names none of them, unless it gives one back. */
  lemma EarlierNames(r: PDRound)
    requires r.Proper()
    ensures forall i | 0 <= i < |r.Trimmed().actions| ::
      var a := r.Trimmed().actions[i];
      || Moves(a, r.Queue()) || a.instanceID == None
      || (GivesBackIdle(r) && a.instanceID == Some(r.input.idle[0].id))
  {
    TrimmedFacts(r);
    DrainedFacts(r);
    VerbFacts(r);
    VerbIsIdleRelease(r);
    var actions, reserved := r.Trimmed().actions, r.Reserved().actions;
    forall i | 0 <= i < |actions|
      ensures
        || Moves(actions[i], r.Queue()) || actions[i].instanceID == None
        || (GivesBackIdle(r) && actions[i].instanceID == Some(r.input.idle[0].id))
    {
      if i < |reserved| {
        assert actions[i] == reserved[i];
      }
    }
  }

  lemma SameIdSameCandidate(cs: seq<Candidate>, c: Candidate, d: Candidate)
    requires DistinctIds(cs) && c in cs && d in cs && c.id == d.id
    ensures c == d
  {
  }

  /** An earlier action and an employed idle instance are different instances, unless they collide. */
  lemma EmployedApart(r: PDRound, i: nat, k: nat, n: nat)
    requires r.Proper() && !ReleaseCollides(r)
    requires i < |r.Trimmed().actions| && k < n <= |SortById(r.input.idle)|
    requires n <= r.Cap() - |r.Trimmed().actions| && n <= r.T().total - (r.Trimmed().prefill + r.Trimmed().decode)
    ensures r.Trimmed().actions[i].instanceID != Some(SortById(r.input.idle)[k].id)
  {
    QueueFacts(r);
    TrimmedFacts(r);
    EarlierNames(r);
    VerbIsIdleRelease(r);
    var a, c := r.Trimmed().actions[i], SortById(r.input.idle)[k];
    assert c in r.input.idle;
    if GivesBackIdle(r) {
      var at := RankIsIndex(r.input.idle, r.input.idle[0]);
      assert |r.Trimmed().actions| == RegularDrains(r) + 1;
      assert n <= FillsAfterVerb(r);
    }
  }

  /** The capacity verb comes right after the regular drains. */
  lemma VerbIsEarly(r: PDRound)
    requires r.Proper() && r.Verb().Some?
    ensures |r.Drained()| < |r.Trimmed().actions| && r.Trimmed().actions[|r.Drained()|] == r.Verb().value
  {
    TrimmedFacts(r);
    assert r.Reserved().actions[|r.Drained()|] == r.Verb().value;
  }

  lemma CollidingMeansTwice(r: PDRound)
    requires r.Proper() && ReleaseCollides(r)
    ensures !NamesOnce(r.Filled().actions)
  {
    TrimmedFacts(r);
    VerbIsIdleRelease(r);
    VerbIsEarly(r);
    var n := FilledNames(r);
    var at := RankIsIndex(r.input.idle, r.input.idle[0]);
    var w, early, first := r.Filled().actions, r.Trimmed().actions, |r.Drained()|;
    assert at < n;
    assert w[first] == early[first];
    assert w[|early| + at].instanceID == w[first].instanceID;
  }

  /** Names that do not repeat, followed by the first few of a list that does not repeat and shares none
      of them, do not repeat. */
  lemma NamesOnceAppended(early: seq<Action>, all: seq<Action>, sorted: seq<Candidate>, n: nat)
    requires NamesOnce(early) && early <= all && |all| == |early| + n && n <= |sorted| && DistinctIds(sorted)
    requires forall k | 0 <= k < n :: all[|early| + k].instanceID == Some(sorted[k].id)
    requires forall i, k | 0 <= i < |early| && 0 <= k < n :: early[i].instanceID != Some(sorted[k].id)
    ensures NamesOnce(all)
  {
    var m := |early|;
    forall i, j | 0 <= i < j < |all| && all[i].instanceID.Some? ensures all[i].instanceID != all[j].instanceID {
      if j >= m {
        assert all[m + (j - m)].instanceID == Some(sorted[j - m].id);
        if i >= m {
          assert all[m + (i - m)].instanceID == Some(sorted[i - m].id);
        }
      }
    }
  }

  lemma ApartMeansOnce(r: PDRound)
    requires r.Proper() && !ReleaseCollides(r)
    ensures NamesOnce(r.Filled().actions)
  {
    TrimmedFacts(r);
    QueueFacts(r);
    var n := FilledNames(r);
    var early, sorted := r.Trimmed().actions, SortById(r.input.idle);
    forall i, k | 0 <= i < |early| && 0 <= k < n ensures early[i].instanceID != Some(sorted[k].id) {
      EmployedApart(r, i, k, n);
    }
    NamesOnceAppended(early, r.Filled().actions, sorted, n);
  }

  /** No instance is named by two actions exactly when the round does not both give back and employ
      the idle instance its input lists first: that instance has fewer instances before it in id order
      than the round has room and need for. */
  lemma NamedOnceExactlyWhen(r: PDRound)
    requires r.Proper()
    ensures NamesOnce(r.Actions()) <==> !ReleaseCollides(r)
  {
    ConvertKeepsNames(r);
    if ReleaseCollides(r) {
      CollidingMeansTwice(r);
    } else {
      ApartMeansOnce(r);
    }
  }
}
