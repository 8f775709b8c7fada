/** How long an instance was absent when a pull round revokes it. */
module PullRuns {
  import opened Domain
  import opened PullGrace

  // ------------------------------------------------------- one round, one id

  /** How many offers the round got through before it ended. */
  function Handled(offers: seq<Offer>, r: Round): (n: nat)
    ensures n <= |offers|
  {
    if offers == [] then 0
    else if Wanted(offers[0], Find(r.rows, offers[0].id), r.observed).Some? && offers[0].id in r.refused then 1
    else 1 + Handled(offers[1..], r)
  }

  /** The round got as far as an offer of this instance. */
  ghost predicate Saw(r: Round, id: string) {
    !Collides(r) && exists k :: 0 <= k < Handled(r.offers, r) && r.offers[k].id == id
  }

  ghost predicate Revokes(events: seq<PullEvent>, id: string) {
    exists k :: 0 <= k < |events| && events[k].kind == Revoked && events[k].id == id
  }

  lemma RevokesSnoc(events: seq<PullEvent>, e: PullEvent, id: string)
    ensures Revokes(events + [e], id) <==> Revokes(events, id) || (e.kind == Revoked && e.id == id)
  {
    assert (events + [e])[|events|] == e;
    forall k | 0 <= k < |events| ensures (events + [e])[k] == events[k] {
    }
  }

  ghost predicate Offered(offers: seq<Offer>, n: nat, id: string)
    requires n <= |offers|
  {
    exists k :: 0 <= k < n && offers[k].id == id
  }

  lemma OfferedTail(offers: seq<Offer>, n: nat, id: string)
    requires 0 < n <= |offers|
    ensures Offered(offers, n, id) <==> offers[0].id == id || Offered(offers[1..], n - 1, id)
  {
    if offers[0].id != id && Offered(offers, n, id) {
      var k :| 0 <= k < n && offers[k].id == id;
      assert offers[1..][k - 1].id == id;
    }
    if Offered(offers[1..], n - 1, id) {
      var k :| 0 <= k < n - 1 && offers[1..][k].id == id;
      assert offers[k + 1].id == id;
    }
  }

  /** The offers forgive the clocks of the known instances among them, and revoke nobody. */
  lemma {:induction false} OffersPointwise(offers: seq<Offer>, r: Round, s: Swept, id: string)
    requires s.ok
    ensures var after := SweepOffers(offers, r, s);
      && Clock(after.clocks, id)
           == (if Find(r.rows, id).Some? && Offered(offers, Handled(offers, r), id) then None else Clock(s.clocks, id))
      && (Revokes(after.events, id) <==> Revokes(s.events, id))
      && (after.ok ==> Handled(offers, r) == |offers|)
  {
    if offers != [] {
      var row, first := Find(r.rows, offers[0].id), offers[0].id;
      var clocks := if row.Some? then s.clocks - {first} else s.clocks;
      var kind := Wanted(offers[0], row, r.observed);
      OfferedTail(offers, Handled(offers, r), id);
      if kind.None? {
        OffersPointwise(offers[1..], r, s.(clocks := clocks), id);
      } else {
        var e := PullEvent(kind.value, first, offers[0].leaseID);
        RevokesSnoc(s.events, e, id);
        if first !in r.refused {
          OffersPointwise(offers[1..], r, Swept(clocks, s.events + [e], true), id);
        } else {
          assert SweepOffers(offers[1..], r, Swept(clocks, s.events + [e], false)) == Swept(clocks, s.events + [e], false);
          assert Handled(offers, r) == 1 && !Offered(offers[1..], 0, id);
        }
      }
    }
  }

  predicate DistinctRows(rows: seq<Instance>) { forall i, j | 0 <= i < j < |rows| :: rows[i].id != rows[j].id }

  /** The absence sweep leaves alone whom it does not look for. */
  lemma {:induction false} RowsElsewhere(rows: seq<Instance>, r: Round, grace: int, s: Swept, id: string)
    requires forall row | row in rows && Absent(r, row) :: row.id != id
    ensures Clock(SweepRows(rows, r, grace, s).clocks, id) == Clock(s.clocks, id)
    ensures Revokes(SweepRows(rows, r, grace, s).events, id) <==> Revokes(s.events, id)
  {
    if rows != [] && s.ok {
      if !Absent(r, rows[0]) {
        RowsElsewhere(rows[1..], r, grace, s, id);
      } else {
        var (clock, revoked) := Missed(Clock(s.clocks, rows[0].id), rows[0], r.observed, grace);
        var clocks := WithClock(s.clocks, rows[0].id, clock);
        var e := PullEvent(Revoked, rows[0].id, rows[0].leaseID);
        RevokesSnoc(s.events, e, id);
        RowsElsewhere(rows[1..], r, grace,
                      if revoked then Swept(clocks, s.events + [e], rows[0].id !in r.refused) else s.(clocks := clocks), id);
      }
    }
  }

  /** The absence sweep treats each absent row by the rule for one instance, unless it ended before it. */
  lemma {:induction false} RowsPointwise(rows: seq<Instance>, r: Round, grace: int, s: Swept, row: Instance)
    requires s.ok && DistinctRows(rows) && row in rows && Absent(r, row) && !Revokes(s.events, row.id)
    ensures var after := SweepRows(rows, r, grace, s);
      var result := (Clock(after.clocks, row.id), Revokes(after.events, row.id));
      || result == Missed(Clock(s.clocks, row.id), row, r.observed, grace)
      || (result == (Clock(s.clocks, row.id), false) && !after.ok)
  {
    var id := row.id;
    if !Absent(r, rows[0]) {
      RowsPointwise(rows[1..], r, grace, s, row);
    } else {
      var (clock, revoked) := Missed(Clock(s.clocks, rows[0].id), rows[0], r.observed, grace);
      var clocks := WithClock(s.clocks, rows[0].id, clock);
      var e := PullEvent(Revoked, rows[0].id, rows[0].leaseID);
      var next := if revoked then Swept(clocks, s.events + [e], rows[0].id !in r.refused) else s.(clocks := clocks);
      RevokesSnoc(s.events, e, id);
      if rows[0] == row {
        RowsElsewhere(rows[1..], r, grace, next, id);
      } else if next.ok {
        RowsPointwise(rows[1..], r, grace, next, row);
      } else {
        assert SweepRows(rows[1..], r, grace, next) == next;
      }
    }
  }

  lemma FindDistinct(rows: seq<Instance>, row: Instance)
    requires DistinctRows(rows) && row in rows
    ensures Find(rows, row.id) == Some(row)
  {
    var found := Find(rows, row.id);
    var i :| 0 <= i < |rows| && rows[i] == row;
    var j :| 0 <= j < |rows| && rows[j] == found.value;
  }

  /** What a completed round does to one of its partner's instances depends on nothing but that instance:
      seen, its clock is forgiven; missed, the rule for one absence applies. */
  lemma CompletedRoundPointwise(clocks: Clocks, r: Round, grace: int, row: Instance)
    requires DistinctRows(r.rows) && row in r.rows && row.partnerID == r.partner
    requires RunRound(clocks, r, grace).ok
    ensures var after := RunRound(clocks, r, grace);
      (Clock(after.clocks, row.id), Revokes(after.events, row.id))
      == if Present(r, row.id) then (None, false) else Missed(Clock(clocks, row.id), row, r.observed, grace)
  {
    FindDistinct(r.rows, row);
    var s := Swept(clocks, [], true);
    OffersPointwise(r.offers, r, s, row.id);
    var mid := SweepOffers(r.offers, r, s);
    assert mid.ok;
    if Present(r, row.id) {
      RowsElsewhere(r.rows, r, grace, mid, row.id);
    } else {
      RowsPointwise(r.rows, r, grace, mid, row);
    }
  }

  lemma OnlyRow(rows: seq<Instance>, row: Instance)
    requires DistinctRows(rows) && row in rows
    ensures forall other | other in rows && other.id == row.id :: other == row
  {
  }

  /** What any round, completed or not, does to one instance. */
  lemma RoundOn(clocks: Clocks, r: Round, grace: int, id: string)
    requires DistinctRows(r.rows) && Find(r.rows, id).Some?
    ensures var after, row, before := RunRound(clocks, r, grace), Find(r.rows, id).value, Clock(clocks, id);
      var result := (Clock(after.clocks, id), Revokes(after.events, id));
      if row.partnerID != r.partner then result == (before, false)
      else if Saw(r, id) then result == (None, false)
      else result == (before, false) || result == Missed(before, row, r.observed, grace)
  {
    var row := Find(r.rows, id).value;
    if !Collides(r) {
      var s := Swept(clocks, [], true);
      OffersPointwise(r.offers, r, s, id);
      var mid := SweepOffers(r.offers, r, s);
      if Offered(r.offers, Handled(r.offers, r), id) {
        var k :| 0 <= k < Handled(r.offers, r) && r.offers[k].id == id;
        assert Present(r, id) && row.partnerID == r.partner;
        OnlyRow(r.rows, row);
        RowsElsewhere(r.rows, r, grace, mid, id);
      } else if !mid.ok {
        assert SweepRows(r.rows, r, grace, mid) == mid;
      } else if Absent(r, row) {
        RowsPointwise(r.rows, r, grace, mid, row);
      } else {
        OnlyRow(r.rows, row);
        RowsElsewhere(r.rows, r, grace, mid, id);
      }
    }
  }

  // -------------------------------------------------------------------- runs

  function ClocksAfter(rounds: seq<Round>, grace: int): Clocks {
    if rounds == [] then map[] else RunRound(ClocksAfter(rounds[..|rounds| - 1], grace), rounds[|rounds| - 1], grace).clocks
  }

  function ClocksAt(rounds: seq<Round>, k: nat, grace: int): Clocks
    requires k <= |rounds|
  {
    ClocksAfter(rounds[..k], grace)
  }

  lemma ClocksNext(rounds: seq<Round>, k: nat, grace: int)
    requires k < |rounds|
    ensures ClocksAt(rounds, k + 1, grace) == RunRound(ClocksAt(rounds, k, grace), rounds[k], grace).clocks
  {
    assert rounds[..k + 1][..k] == rounds[..k];
  }

  /** The store keeps one row per id, never drops one, and never hands one to another partner. */
  ghost predicate KeepsRow(rounds: seq<Round>, id: string, partner: string) {
    && (forall k | 0 <= k < |rounds| :: DistinctRows(rounds[k].rows))
    && (forall k | 0 <= k < |rounds| && Find(rounds[k].rows, id).Some? :: Find(rounds[k].rows, id).value.partnerID == partner)
    && (forall j, k | 0 <= j < k < |rounds| && Find(rounds[j].rows, id).Some? :: Find(rounds[k].rows, id).Some?)
  }

  /** No round of the partner in [from, to) got to an offer of the instance. */
  ghost predicate UnseenBetween(rounds: seq<Round>, id: string, partner: string, from: nat, to: nat)
    requires to <= |rounds|
  {
    forall m | from <= m < to && rounds[m].partner == partner :: !Saw(rounds[m], id)
  }

  lemma NoRowNoChange(clocks: Clocks, r: Round, grace: int, id: string)
    requires Find(r.rows, id).None?
    ensures Clock(RunRound(clocks, r, grace).clocks, id) == Clock(clocks, id)
    ensures !Revokes(RunRound(clocks, r, grace).events, id)
  {
    if !Collides(r) {
      OffersPointwise(r.offers, r, Swept(clocks, [], true), id);
      RowsElsewhere(r.rows, r, grace, SweepOffers(r.offers, r, Swept(clocks, [], true)), id);
    }
  }

  /** A clock that runs after a round ran before it, or was started by it; and the round did not see the instance. */
  lemma ClockStep(clocks: Clocks, r: Round, grace: int, id: string, partner: string)
    requires DistinctRows(r.rows) && (Find(r.rows, id).Some? ==> Find(r.rows, id).value.partnerID == partner)
    requires id in RunRound(clocks, r, grace).clocks
    ensures var after := RunRound(clocks, r, grace).clocks;
      || (id in clocks && after[id] == clocks[id])
      || (r.partner == partner && Find(r.rows, id).Some? && after[id] == r.observed)
    ensures Find(r.rows, id).Some? && r.partner == partner ==> !Saw(r, id)
  {
    if Find(r.rows, id).None? {
      NoRowNoChange(clocks, r, grace, id);
    } else {
      RoundOn(clocks, r, grace, id);
    }
  }

  /** A running clock names the round that first missed the instance, and nobody saw it since. */
  lemma {:induction false} ClockHasAStart(rounds: seq<Round>, id: string, partner: string, grace: int, k: nat) returns (start: nat)
    requires KeepsRow(rounds, id, partner) && k <= |rounds| && id in ClocksAt(rounds, k, grace)
    ensures start < k && rounds[start].partner == partner && rounds[start].observed == ClocksAt(rounds, k, grace)[id]
    ensures Find(rounds[start].rows, id).Some? && UnseenBetween(rounds, id, partner, start, k)
    decreases k
  {
    var before := ClocksAt(rounds, k - 1, grace);
    ClocksNext(rounds, k - 1, grace);
    ClockStep(before, rounds[k - 1], grace, id, partner);
    if id in before && before[id] == ClocksAt(rounds, k, grace)[id] {
      start := ClockHasAStart(rounds, id, partner, grace, k - 1);
      assert Find(rounds[k - 1].rows, id).Some?;
    } else {
      start := k - 1;
    }
  }

  /** Pull grace, over every run of rounds: whenever a round revokes an instance, an earlier round of the
      same partner missed it at least the grace before, and no round of that partner in between, up to
      and including this one, got to an offer of it. */
  lemma RevokedOutlastsGrace(rounds: seq<Round>, id: string, partner: string, grace: int, k: nat) returns (start: nat)
    requires KeepsRow(rounds, id, partner) && k < |rounds|
    requires Revokes(RunRound(ClocksAt(rounds, k, grace), rounds[k], grace).events, id)
    ensures start < k && rounds[start].partner == rounds[k].partner == partner
    ensures rounds[start].observed <= rounds[k].observed - grace
    ensures UnseenBetween(rounds, id, partner, start, k + 1)
  {
    var before := ClocksAt(rounds, k, grace);
    if Find(rounds[k].rows, id).None? {
      NoRowNoChange(before, rounds[k], grace, id);
    }
    RoundOn(before, rounds[k], grace, id);
    start := ClockHasAStart(rounds, id, partner, grace, k);
  }

  // -------------------------------------------------------- hidden offers

  /** The snapshot offers the instance, but the round ends before it gets there: it collides with another
      partner's row, or every offer of the instance stands behind the first event that is refused. */
  ghost predicate Hides(r: Round, id: string) {
    && Present(r, id)
    && (Collides(r) || forall k | 0 <= k < |r.offers| && r.offers[k].id == id :: Handled(r.offers, r) <= k)
  }

  lemma PresentIsSeenOrHidden(r: Round, id: string)
    ensures Present(r, id) <==> Saw(r, id) || Hides(r, id)
    ensures !(Saw(r, id) && Hides(r, id))
  {
  }

  /** A round that completes, or gets through its offers before it ends, hides nothing. */
  lemma CompletedHidesNothing(clocks: Clocks, r: Round, id: string)
    requires !Collides(r) && SweepOffers(r.offers, r, Swept(clocks, [], true)).ok
    ensures !Hides(r, id)
  {
    OffersPointwise(r.offers, r, Swept(clocks, [], true), id);
  }

  ghost predicate Outlasts(rounds: seq<Round>, partner: string, grace: int, start: nat, k: nat)
    requires start < |rounds| && k < |rounds|
  {
    rounds[start].partner == partner && rounds[start].observed <= rounds[k].observed - grace
  }

  /** The partner missed the instance at least the grace before round `k`, and none of its snapshots
      from then on, `k` included, offers it. */
  ghost predicate WasAbsent(rounds: seq<Round>, id: string, partner: string, grace: int, k: nat)
    requires k < |rounds|
  {
    exists start: nat :: start < k && Outlasts(rounds, partner, grace, start, k)
      && forall m | start <= m <= k && rounds[m].partner == partner :: !Present(rounds[m], id)
  }

  /** Some round of the partner is at least the grace before `k`, and none from it on hides an offer. */
  ghost predicate NothingHidden(rounds: seq<Round>, id: string, partner: string, grace: int, k: nat)
    requires k < |rounds|
  {
    exists start: nat :: start < k && Outlasts(rounds, partner, grace, start, k)
      && forall m | start <= m <= k && rounds[m].partner == partner :: !Hides(rounds[m], id)
  }

  /** A revoked instance was absent from every snapshot of its partner for the grace exactly when, for the
      grace, no round of that partner hid an offer of it. */
  lemma RevokedWasAbsentExactlyWhen(rounds: seq<Round>, id: string, partner: string, grace: int, k: nat)
    requires KeepsRow(rounds, id, partner) && k < |rounds|
    requires Revokes(RunRound(ClocksAt(rounds, k, grace), rounds[k], grace).events, id)
    ensures WasAbsent(rounds, id, partner, grace, k) <==> NothingHidden(rounds, id, partner, grace, k)
  {
    forall m | 0 <= m <= k ensures Present(rounds[m], id) <==> Saw(rounds[m], id) || Hides(rounds[m], id) {
      PresentIsSeenOrHidden(rounds[m], id);
    }
    var missed := RevokedOutlastsGrace(rounds, id, partner, grace, k);
    if NothingHidden(rounds, id, partner, grace, k) {
      var start: nat :| start < k && Outlasts(rounds, partner, grace, start, k)
        && forall m | start <= m <= k && rounds[m].partner == partner :: !Hides(rounds[m], id);
      var later := if start < missed then missed else start;
      assert Outlasts(rounds, partner, grace, later, k);
    }
  }

  /** So a partner whose rounds hide nothing is only taken at its word after the grace. */
  lemma RevokedWasAbsentThroughout(rounds: seq<Round>, id: string, partner: string, grace: int, k: nat)
    requires KeepsRow(rounds, id, partner) && k < |rounds|
    requires forall m | 0 <= m <= k && rounds[m].partner == partner :: !Hides(rounds[m], id)
    requires Revokes(RunRound(ClocksAt(rounds, k, grace), rounds[k], grace).events, id)
    ensures WasAbsent(rounds, id, partner, grace, k)
  {
    var start := RevokedOutlastsGrace(rounds, id, partner, grace, k);
    assert Outlasts(rounds, partner, grace, start, k);
    RevokedWasAbsentExactlyWhen(rounds, id, partner, grace, k);
  }

  // --------------------------------------------------------- counterexamples

  function Plain(id: string, partner: string): Instance {
    Instance(id, partner, "", "", "l", "", None, Idle, NoService, NoRole, 0, "", 0, 0, 0, 0, 0, 0, false, 1, "", 1, 1, 1)
  }

  const X_OFFER := Offer("x", "", "", "l", "")

  /** "x" is missed at 10, offered at 15 in a round that ends before it, and missed again at 20. */
  function HiddenAt15(hiding: Round): seq<Round> {
    [Round(10, "p", [], hiding.rows, {}), hiding, Round(20, "p", [], hiding.rows, {})]
  }

  /** At 20, under a grace of 10, "x" is revoked although the round at 15 offered it. */
  ghost predicate RevokesHidden(hiding: Round) {
    var rounds := HiddenAt15(hiding);
    && Revokes(RunRound(ClocksAt(rounds, 2, 10), rounds[2], 10).events, "x")
    && Present(rounds[1], "x") && !WasAbsent(rounds, "x", "p", 10, 2)
  }

  /** The offer stands behind one that is refused. */
  const REFUSED := Round(15, "p", [Offer("y", "", "", "", ""), X_OFFER], [Plain("x", "p")], {"y"})

  /** The offer stands beside one of another partner's instance. */
  const COLLIDING := Round(15, "p", [Offer("y", "", "", "", ""), X_OFFER], [Plain("x", "p"), Plain("y", "q")], {})

  lemma {:induction false} NothingRefused(rows: seq<Instance>, r: Round, grace: int, s: Swept)
    requires r.refused == {} && s.ok
    ensures SweepRows(rows, r, grace, s).ok
  {
    if rows != [] {
      var id := rows[0].id;
      var (clock, revoked) := Missed(Clock(s.clocks, id), rows[0], r.observed, grace);
      var clocks := WithClock(s.clocks, id, clock);
      NothingRefused(rows[1..], r, grace, s);
      NothingRefused(rows[1..], r, grace, s.(clocks := clocks));
      NothingRefused(rows[1..], r, grace, Swept(clocks, s.events + [PullEvent(Revoked, id, rows[0].leaseID)], true));
    }
  }

  /** What an empty snapshot does to the clock of an instance it misses. */
  lemma MissedByEmpty(clocks: Clocks, observed: Time, rows: seq<Instance>, row: Instance)
    requires DistinctRows(rows) && row in rows && row.partnerID == "p"
    ensures var after := RunRound(clocks, Round(observed, "p", [], rows, {}), 10);
      (Clock(after.clocks, row.id), Revokes(after.events, row.id)) == Missed(Clock(clocks, row.id), row, observed, 10)
  {
    var r := Round(observed, "p", [], rows, {});
    NothingRefused(rows, r, 10, Swept(clocks, [], true));
    CompletedRoundPointwise(clocks, r, 10, row);
  }

  /** Whatever hides the offer at 15, the instance is revoked at 20 under a grace of 10. */
  lemma HiddenOfferIsRevoked(hiding: Round)
    requires hiding.partner == "p" && hiding.observed == 15 && DistinctRows(hiding.rows) && Plain("x", "p") in hiding.rows
    requires Hides(hiding, "x")
    ensures RevokesHidden(hiding)
  {
    var rounds, row := HiddenAt15(hiding), Plain("x", "p");
    assert ClocksAt(rounds, 0, 10) == map[];
    ClocksNext(rounds, 0, 10);
    MissedByEmpty(map[], 10, hiding.rows, row);
    ClocksNext(rounds, 1, 10);
    FindDistinct(hiding.rows, row);
    PresentIsSeenOrHidden(hiding, "x");
    RoundOn(ClocksAt(rounds, 1, 10), hiding, 10, "x");
    MissedByEmpty(ClocksAt(rounds, 2, 10), 20, hiding.rows, row);
  }

  lemma RefusedHides()
    ensures Hides(REFUSED, "x") && !Collides(REFUSED) && Plain("x", "p") in REFUSED.rows
  {
    var rows := [Plain("x", "p")];
    assert rows[..0] == [];
    assert Find(rows, "x") == Some(rows[0]) && Find(rows, "y") == None;
    assert REFUSED.offers[1].id == "x";
  }

  lemma CollidingHides()
    ensures Hides(COLLIDING, "x") && Collides(COLLIDING) && Plain("x", "p") in COLLIDING.rows
  {
    var y := Plain("y", "q");
    assert COLLIDING.rows[1] == y && COLLIDING.rows[0] == Plain("x", "p");
    FindDistinct(COLLIDING.rows, y);
    assert COLLIDING.offers[0].id == "y" && COLLIDING.offers[1].id == "x";
  }

  /** A round that ends at a refused event hides the offers behind it, and a round that ends at a
      collision hides them all: in both runs "x" is revoked before its grace is over. */
  lemma AbortedRoundHidesAnOffer()
    ensures Hides(REFUSED, "x") && Hides(COLLIDING, "x") && Collides(COLLIDING) && !Collides(REFUSED)
    ensures RevokesHidden(REFUSED) && RevokesHidden(COLLIDING)
  {
    RefusedHides();
    CollidingHides();
    HiddenOfferIsRevoked(REFUSED);
    HiddenOfferIsRevoked(COLLIDING);
  }
}
