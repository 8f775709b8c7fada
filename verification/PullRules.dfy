/** What one pull round asks the control plane for, offer by offer and absence by absence, and that an
    absent instance is revoked by the first round a grace after it was first missed. */
module PullRules {
  import opened Domain
  import opened PullGrace
  import opened PullRuns

  // ------------------------------------------------------------------ offers

  /** A push or a queued identity knows more than this snapshot, or the same. */
  predicate KnownAlready(offer: Offer, row: Instance, observed: Time) {
    || row.leaseUpdatedAt > observed
    || (row.pendingUpdate.Some?
        && var u := row.pendingUpdate.value;
           || u.observedAt > observed
           || (u.endpoint == offer.endpoint && u.serviceEndpoint == offer.serviceEndpoint
               && u.leaseID == offer.leaseID && u.spec == offer.spec))
  }

  /** An offer adds what is not on record, or was released under another lease; it updates what is on record
      and not on its way out; anything else it leaves alone. */
  lemma WantedExactlyWhen(offer: Offer, row: Option<Instance>, observed: Time)
    ensures Wanted(offer, row, observed) == Some(Added)
       <==> row.None? || (row.value.instanceState == Released && row.value.leaseID != offer.leaseID
                          && !row.value.pendingRelease && !KnownAlready(offer, row.value, observed))
    ensures Wanted(offer, row, observed) == Some(Updated)
       <==> row.Some? && row.value.instanceState !in {Released, Releasing}
            && !row.value.pendingRelease && !KnownAlready(offer, row.value, observed)
    ensures Wanted(offer, row, observed) != Some(Revoked)
  {
  }

  // ---------------------------------------------------------------- absences

  /** The instance may be missed by this round at all: it is live, nobody reclaims it, and no push came in
      after the snapshot was taken. */
  predicate Missable(row: Instance, observed: Time) {
    row.instanceState != Released && !row.pendingRelease && row.leaseUpdatedAt <= observed
  }

  /** An absence starts a clock, waits, or revokes once the grace is over; a container that cannot be missed
      loses its clock, or keeps it if a newer push says it is there. */
  lemma AbsenceRule(clock: Option<Time>, row: Instance, observed: Time, grace: int)
    ensures var (after, revoked) := Missed(clock, row, observed, grace);
      && (revoked <==> Missable(row, observed) && clock.Some? && observed - clock.value >= grace)
      && (after.Some? <==>
            && row.instanceState != Released && !row.pendingRelease && !revoked
            && (clock.Some? || row.leaseUpdatedAt <= observed))
      && (after.Some? ==> after.value == if clock.Some? then clock.value else observed)
  {
  }

  // ------------------------------------------------------------- one round

  predicate Calls(offer: Offer, r: Round, e: PullEvent) {
    e == PullEvent(e.kind, offer.id, offer.leaseID) && Wanted(offer, Find(r.rows, offer.id), r.observed) == Some(e.kind)
  }

  /** The event an offer is turned into. */
  ghost predicate FromOffer(r: Round, e: PullEvent) {
    exists k :: 0 <= k < |r.offers| && Calls(r.offers[k], r, e)
  }

  predicate Misses(row: Instance, r: Round, grace: int, clock: Option<Time>, e: PullEvent) {
    Absent(r, row) && e == PullEvent(Revoked, row.id, row.leaseID) && Missed(clock, row, r.observed, grace).1
  }

  ghost predicate FromAbsence(rows: seq<Instance>, r: Round, grace: int, clocks: Clocks, e: PullEvent) {
    exists k :: 0 <= k < |rows| && Misses(rows[k], r, grace, Clock(clocks, rows[k].id), e)
  }

  lemma InSnoc(events: seq<PullEvent>, last: PullEvent, e: PullEvent)
    ensures e in events + [last] <==> e in events || e == last
  {
  }

  ghost predicate SomeCalls(offers: seq<Offer>, r: Round, e: PullEvent) {
    exists k :: 0 <= k < |offers| && Calls(offers[k], r, e)
  }

  lemma SomeCallsTail(offers: seq<Offer>, r: Round, e: PullEvent)
    requires offers != []
    ensures SomeCalls(offers, r, e) <==> Calls(offers[0], r, e) || SomeCalls(offers[1..], r, e)
  {
    if SomeCalls(offers[1..], r, e) {
      var k :| 0 <= k < |offers| - 1 && Calls(offers[1..][k], r, e);
      assert Calls(offers[k + 1], r, e);
    }
    if SomeCalls(offers, r, e) && !Calls(offers[0], r, e) {
      var k :| 0 <= k < |offers| && Calls(offers[k], r, e);
      assert Calls(offers[1..][k - 1], r, e);
    }
  }

  lemma {:induction false} OffersEmit(offers: seq<Offer>, r: Round, s: Swept, e: PullEvent)
    requires s.ok && SweepOffers(offers, r, s).ok
    ensures e in SweepOffers(offers, r, s).events <==> e in s.events || SomeCalls(offers, r, e)
  {
    if offers != [] {
      var row, id := Find(r.rows, offers[0].id), offers[0].id;
      var clocks := if row.Some? then s.clocks - {id} else s.clocks;
      var kind := Wanted(offers[0], row, r.observed);
      SomeCallsTail(offers, r, e);
      if kind.None? {
        OffersEmit(offers[1..], r, s.(clocks := clocks), e);
      } else {
        var last := PullEvent(kind.value, id, offers[0].leaseID);
        InSnoc(s.events, last, e);
        var next := Swept(clocks, s.events + [last], id !in r.refused);
        if next.ok {
          OffersEmit(offers[1..], r, next, e);
        }
      }
    }
  }

  lemma FromAbsenceTail(rows: seq<Instance>, r: Round, grace: int, clocks: Clocks, after: Clocks, e: PullEvent)
    requires rows != [] && forall k | 0 < k < |rows| :: Clock(after, rows[k].id) == Clock(clocks, rows[k].id)
    ensures FromAbsence(rows, r, grace, clocks, e)
       <==> Misses(rows[0], r, grace, Clock(clocks, rows[0].id), e) || FromAbsence(rows[1..], r, grace, after, e)
  {
    if FromAbsence(rows[1..], r, grace, after, e) {
      var k :| 0 <= k < |rows| - 1 && Misses(rows[1..][k], r, grace, Clock(after, rows[1..][k].id), e);
      assert rows[1..][k] == rows[k + 1];
      assert Misses(rows[k + 1], r, grace, Clock(clocks, rows[k + 1].id), e);
    }
    if FromAbsence(rows, r, grace, clocks, e) && !Misses(rows[0], r, grace, Clock(clocks, rows[0].id), e) {
      var k :| 0 <= k < |rows| && Misses(rows[k], r, grace, Clock(clocks, rows[k].id), e);
      assert Misses(rows[1..][k - 1], r, grace, Clock(after, rows[1..][k - 1].id), e);
    }
  }

  lemma {:induction false} RowsEmit(rows: seq<Instance>, r: Round, grace: int, s: Swept, e: PullEvent)
    requires s.ok && SweepRows(rows, r, grace, s).ok && DistinctRows(rows)
    ensures e in SweepRows(rows, r, grace, s).events <==> e in s.events || FromAbsence(rows, r, grace, s.clocks, e)
  {
    if rows != [] {
      if !Absent(r, rows[0]) {
        FromAbsenceTail(rows, r, grace, s.clocks, s.clocks, e);
        RowsEmit(rows[1..], r, grace, s, e);
      } else {
        var id := rows[0].id;
        var (clock, revoked) := Missed(Clock(s.clocks, id), rows[0], r.observed, grace);
        var clocks := WithClock(s.clocks, id, clock);
        FromAbsenceTail(rows, r, grace, s.clocks, clocks, e);
        if !revoked {
          RowsEmit(rows[1..], r, grace, s.(clocks := clocks), e);
        } else {
          var last := PullEvent(Revoked, id, rows[0].leaseID);
          InSnoc(s.events, last, e);
          var next := Swept(clocks, s.events + [last], id !in r.refused);
          if next.ok {
            RowsEmit(rows[1..], r, grace, next, e);
          }
        }
      }
    }
  }

  lemma AbsentKeepClocks(clocks: Clocks, r: Round, row: Instance)
    requires Absent(r, row)
    ensures Clock(SweepOffers(r.offers, r, Swept(clocks, [], true)).clocks, row.id) == Clock(clocks, row.id)
  {
    OffersPointwise(r.offers, r, Swept(clocks, [], true), row.id);
  }

  /** The events of a completed round are those its offers call for and those its absences do, under the rules
      above, and no others. */
  lemma EmittedExactlyWhen(clocks: Clocks, r: Round, grace: int, e: PullEvent)
    requires DistinctRows(r.rows) && RunRound(clocks, r, grace).ok
    ensures e in RunRound(clocks, r, grace).events <==> FromOffer(r, e) || FromAbsence(r.rows, r, grace, clocks, e)
  {
    var s := Swept(clocks, [], true);
    var mid := SweepOffers(r.offers, r, s);
    assert mid.ok;
    OffersEmit(r.offers, r, s, e);
    RowsEmit(r.rows, r, grace, mid, e);
    assert SomeCalls(r.offers, r, e) <==> FromOffer(r, e);
    forall k | 0 <= k < |r.rows|
      ensures Misses(r.rows[k], r, grace, Clock(mid.clocks, r.rows[k].id), e)
         <==> Misses(r.rows[k], r, grace, Clock(clocks, r.rows[k].id), e)
    {
      if Absent(r, r.rows[k]) {
        AbsentKeepClocks(clocks, r, r.rows[k]);
      }
    }
  }

  // -------------------------------------------------------------- over a run

  /** The round is another partner's, or a completed one that misses the instance. */
  ghost predicate PassesOver(rounds: seq<Round>, id: string, partner: string, grace: int, m: nat)
    requires m < |rounds|
  {
    rounds[m].partner == partner ==>
      && RunRound(ClocksAt(rounds, m, grace), rounds[m], grace).ok
      && !Present(rounds[m], id) && Find(rounds[m].rows, id).Some?
      && Missable(Find(rounds[m].rows, id).value, rounds[m].observed)
  }

  lemma MissedInRound(rounds: seq<Round>, id: string, partner: string, grace: int, m: nat)
    requires KeepsRow(rounds, id, partner) && m < |rounds| && PassesOver(rounds, id, partner, grace, m)
    requires Find(rounds[m].rows, id).Some?
    ensures var before, round := ClocksAt(rounds, m, grace), rounds[m];
      var revoked := Revokes(RunRound(before, round, grace).events, id);
      var clock, after := Clock(before, id), Clock(ClocksAt(rounds, m + 1, grace), id);
      if round.partner != partner then after == clock && !revoked
      else (after, revoked) == Missed(clock, Find(round.rows, id).value, round.observed, grace)
  {
    ClocksNext(rounds, m, grace);
    var row := Find(rounds[m].rows, id).value;
    if rounds[m].partner == partner {
      CompletedRoundPointwise(ClocksAt(rounds, m, grace), rounds[m], grace, row);
    } else {
      RoundOn(ClocksAt(rounds, m, grace), rounds[m], grace, id);
    }
  }

  /** Each of the partner's rounds from `i` to `k` misses the instance. */
  ghost predicate MissedFrom(rounds: seq<Round>, id: string, partner: string, grace: int, i: nat, k: nat)
    requires k < |rounds|
  {
    forall m | i <= m <= k :: PassesOver(rounds, id, partner, grace, m)
  }

  lemma FirstMiss(rounds: seq<Round>, id: string, partner: string, grace: int, i: nat)
    requires KeepsRow(rounds, id, partner) && i < |rounds| && rounds[i].partner == partner
    requires PassesOver(rounds, id, partner, grace, i) && Clock(ClocksAt(rounds, i, grace), id).None?
    ensures Clock(ClocksAt(rounds, i + 1, grace), id) == Some(rounds[i].observed)
    ensures !Revokes(RunRound(ClocksAt(rounds, i, grace), rounds[i], grace).events, id)
  {
    MissedInRound(rounds, id, partner, grace, i);
  }

  lemma MissedAgain(rounds: seq<Round>, id: string, partner: string, grace: int, m: nat, since: Time)
    requires KeepsRow(rounds, id, partner) && m < |rounds|
    requires PassesOver(rounds, id, partner, grace, m) && Find(rounds[m].rows, id).Some?
    requires Clock(ClocksAt(rounds, m, grace), id) == Some(since)
    ensures var revoked := Revokes(RunRound(ClocksAt(rounds, m, grace), rounds[m], grace).events, id);
      && (revoked <==> rounds[m].partner == partner && rounds[m].observed - since >= grace)
      && (!revoked ==> Clock(ClocksAt(rounds, m + 1, grace), id) == Some(since))
  {
    MissedInRound(rounds, id, partner, grace, m);
  }

  /** None of the partner's rounds after `i` and before `k` comes a grace later. */
  ghost predicate WithinGrace(rounds: seq<Round>, partner: string, grace: int, i: nat, k: nat)
    requires i < k < |rounds|
  {
    forall m | i < m < k && rounds[m].partner == partner :: rounds[m].observed - rounds[i].observed < grace
  }

  lemma RunsOn(rounds: seq<Round>, id: string, partner: string, grace: int, i: nat, k: nat, m: nat)
    requires KeepsRow(rounds, id, partner) && i < m < k < |rounds| && Find(rounds[i].rows, id).Some?
    requires MissedFrom(rounds, id, partner, grace, i, k) && WithinGrace(rounds, partner, grace, i, k)
    requires Clock(ClocksAt(rounds, m, grace), id) == Some(rounds[i].observed)
    ensures Clock(ClocksAt(rounds, m + 1, grace), id) == Some(rounds[i].observed)
  {
    assert PassesOver(rounds, id, partner, grace, m);
    MissedAgain(rounds, id, partner, grace, m, rounds[i].observed);
  }

  /** While the grace of the first miss is not over, its clock runs. */
  lemma {:induction false} ClockRuns(rounds: seq<Round>, id: string, partner: string, grace: int, i: nat, k: nat, m: nat)
    requires KeepsRow(rounds, id, partner) && i < m <= k < |rounds| && rounds[i].partner == partner
    requires Clock(ClocksAt(rounds, i, grace), id).None? && PassesOver(rounds, id, partner, grace, i)
    requires MissedFrom(rounds, id, partner, grace, i, k) && WithinGrace(rounds, partner, grace, i, k)
    ensures Clock(ClocksAt(rounds, m, grace), id) == Some(rounds[i].observed)
    decreases m
  {
    if m == i + 1 {
      FirstMiss(rounds, id, partner, grace, i);
    } else {
      ClockRuns(rounds, id, partner, grace, i, k, m - 1);
      RunsOn(rounds, id, partner, grace, i, k, m - 1);
    }
  }

  /** Over every run of rounds: an instance first missed at `i`, and missed by each of its partner's rounds
      since, is revoked by round `k` exactly if that is the first one a grace after the miss. */
  lemma RevokedOnceTheGraceIsOver(rounds: seq<Round>, id: string, partner: string, grace: int, i: nat, k: nat)
    requires KeepsRow(rounds, id, partner) && i < k < |rounds| && rounds[i].partner == rounds[k].partner == partner
    requires Clock(ClocksAt(rounds, i, grace), id).None? && MissedFrom(rounds, id, partner, grace, i, k)
    requires WithinGrace(rounds, partner, grace, i, k)
    ensures Revokes(RunRound(ClocksAt(rounds, k, grace), rounds[k], grace).events, id)
       <==> rounds[k].observed - rounds[i].observed >= grace
    ensures !Revokes(RunRound(ClocksAt(rounds, i, grace), rounds[i], grace).events, id)
  {
    assert PassesOver(rounds, id, partner, grace, k) && PassesOver(rounds, id, partner, grace, i);
    ClockRuns(rounds, id, partner, grace, i, k, k);
    MissedAgain(rounds, id, partner, grace, k, rounds[i].observed);
    FirstMiss(rounds, id, partner, grace, i);
  }
}
