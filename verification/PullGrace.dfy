/** Pull reconciliation of internal/controller/pull_reconcile.go: which events a snapshot is turned into,
    and how long an instance must have been absent before it is revoked. */
module PullGrace {
  import opened Domain

  datatype Offer = Offer(id: string, endpoint: string, serviceEndpoint: string, leaseID: string, spec: string)

  datatype EventKind = Added | Updated | Revoked

  datatype PullEvent = PullEvent(kind: EventKind, id: string, leaseID: string)

  /** When each instance was first missed. */
  type Clocks = map<string, Time>

  /** One round's inputs: the time its observation began, the partner's snapshot, the rows in the store,
      and the instances whose event the control plane would refuse. */
  datatype Round = Round(observed: Time, partner: string, offers: seq<Offer>, rows: seq<Instance>, refused: set<string>)

  datatype Swept = Swept(clocks: Clocks, events: seq<PullEvent>, ok: bool)

  predicate Active(row: Instance) { row.instanceState != Released }

  // ------------------------------------------------------------ the snapshot

  function Find(rows: seq<Instance>, id: string): (r: Option<Instance>)
    ensures r.Some? <==> exists k :: 0 <= k < |rows| && rows[k].id == id
    ensures r.Some? ==> r.value in rows && r.value.id == id
  {
    if rows == [] then None
    else if rows[|rows| - 1].id == id then Some(rows[|rows| - 1])
    else Find(rows[..|rows| - 1], id)
  }

  predicate SameIdentity(update: InstanceUpdate, offer: Offer) {
    && update.endpoint == offer.endpoint && update.serviceEndpoint == offer.serviceEndpoint
    && update.leaseID == offer.leaseID && update.spec == offer.spec
  }

  /** The event an offered instance calls for, if any. */
  function Wanted(offer: Offer, row: Option<Instance>, observed: Time): Option<EventKind> {
    if row.None? then Some(Added)
    else
      var r := row.value;
      if r.pendingRelease || r.instanceState == Releasing then None
      else if r.instanceState == Released && offer.leaseID == r.leaseID then None
      else if observed < r.leaseUpdatedAt then None
      else if r.pendingUpdate.Some?
           && (observed < r.pendingUpdate.value.observedAt || SameIdentity(r.pendingUpdate.value, offer)) then None
      else Some(if r.instanceState == Released then Added else Updated)
  }

  predicate Collides(r: Round) {
    exists k :: 0 <= k < |r.offers| && var row := Find(r.rows, r.offers[k].id); row.Some? && row.value.partnerID != r.partner
  }

  /** What the offers are turned into; a refused event ends the round. */
  function SweepOffers(offers: seq<Offer>, r: Round, s: Swept): Swept {
    if offers == [] || !s.ok then s
    else
      var row, id := Find(r.rows, offers[0].id), offers[0].id;
      var clocks := if row.Some? then s.clocks - {id} else s.clocks;
      var kind := Wanted(offers[0], row, r.observed);
      if kind.None? then SweepOffers(offers[1..], r, s.(clocks := clocks))
      else SweepOffers(offers[1..], r, Swept(clocks, s.events + [PullEvent(kind.value, id, offers[0].leaseID)], id !in r.refused))
  }

  // ------------------------------------------------------------ the absences

  /** What one round does to the clock of an instance it does not see, and whether it is revoked. */
  function Missed(clock: Option<Time>, row: Instance, observed: Time, grace: int): (Option<Time>, bool) {
    if !Active(row) || row.pendingRelease then (None, false)
    else if observed < row.leaseUpdatedAt then (clock, false)
    else if clock.None? then (Some(observed), false)
    else if observed - clock.value < grace then (clock, false)
    else (None, true)
  }

  function Clock(clocks: Clocks, id: string): Option<Time> { if id in clocks then Some(clocks[id]) else None }

  function WithClock(clocks: Clocks, id: string, clock: Option<Time>): Clocks {
    if clock.Some? then clocks[id := clock.value] else clocks - {id}
  }

  predicate Present(r: Round, id: string) { exists k :: 0 <= k < |r.offers| && r.offers[k].id == id }

  /** The row is a candidate of this round's absence sweep. */
  predicate Absent(r: Round, row: Instance) { row.partnerID == r.partner && !Present(r, row.id) }

  function SweepRows(rows: seq<Instance>, r: Round, grace: int, s: Swept): Swept {
    if rows == [] || !s.ok then s
    else if !Absent(r, rows[0]) then SweepRows(rows[1..], r, grace, s)
    else
      var id := rows[0].id;
      var (clock, revoked) := Missed(Clock(s.clocks, id), rows[0], r.observed, grace);
      var clocks := WithClock(s.clocks, id, clock);
      if !revoked then SweepRows(rows[1..], r, grace, s.(clocks := clocks))
      else SweepRows(rows[1..], r, grace, Swept(clocks, s.events + [PullEvent(Revoked, id, rows[0].leaseID)], id !in r.refused))
  }

  function RunRound(clocks: Clocks, r: Round, grace: int): Swept {
    if Collides(r) then Swept(clocks, [], false)
    else SweepRows(r.rows, r, grace, SweepOffers(r.offers, r, Swept(clocks, [], true)))
  }

  // -------------------------------------------------------------- the object

  method FindCollision(r: Round) returns (collides: bool)
    ensures collides <==> Collides(r)
  {
    for i := 0 to |r.offers|
      invariant forall k | 0 <= k < i ::
        var row := Find(r.rows, r.offers[k].id);
        row.None? || row.value.partnerID == r.partner
    {
      var row := Find(r.rows, r.offers[i].id);
      if row.Some? && row.value.partnerID != r.partner {
        return true;
      }
    }
    return false;
  }

  class Puller {
    const grace: int
    var missingSince: Clocks

    constructor (grace: int)
      ensures this.grace == grace && missingSince == map[]
    {
      this.grace, missingSince := grace, map[];
    }

    /** One round: the events handed to the control plane, in order, and whether the round completed. */
    method PullAuthoritative(r: Round) returns (events: seq<PullEvent>, ok: bool)
      modifies this
      ensures Swept(missingSince, events, ok) == RunRound(old(missingSince), r, grace)
    {
      var collides := FindCollision(r);
      if collides {
        return [], false;
      }
      events, ok := [], true;
      ghost var seen := SweepOffers(r.offers, r, Swept(missingSince, [], true));
      var present: set<string> := {};
      for i := 0 to |r.offers|
        invariant ok && SweepOffers(r.offers[i..], r, Swept(missingSince, events, ok)) == seen
        invariant forall id :: id in present <==> exists k :: 0 <= k < i && r.offers[k].id == id
      {
        var offered := r.offers[i];
        assert r.offers[i..][1..] == r.offers[i + 1..];
        present := present + {offered.id};
        var row := Find(r.rows, offered.id);
        if row.Some? {
          missingSince := missingSince - {offered.id};
        }
        var kind := Wanted(offered, row, r.observed);
        if kind.None? {
          continue;
        }
        events := events + [PullEvent(kind.value, offered.id, offered.leaseID)];
        if offered.id in r.refused {
          ok := false;
          return;
        }
      }
      ghost var all := SweepRows(r.rows, r, grace, seen);
      for i := 0 to |r.rows|
        invariant ok && SweepRows(r.rows[i..], r, grace, Swept(missingSince, events, ok)) == all
      {
        var row := r.rows[i];
        assert r.rows[i..][1..] == r.rows[i + 1..];
        if row.partnerID != r.partner || row.id in present {
          continue;
        }
        if !Active(row) || row.pendingRelease {
          missingSince := missingSince - {row.id};
          continue;
        }
        if r.observed < row.leaseUpdatedAt {
          assert WithClock(missingSince, row.id, Clock(missingSince, row.id)) == missingSince;
          continue;
        }
        if row.id !in missingSince {
          missingSince := missingSince[row.id := r.observed];
          continue;
        }
        if r.observed - missingSince[row.id] < grace {
          assert WithClock(missingSince, row.id, Clock(missingSince, row.id)) == missingSince;
          continue;
        }
        missingSince := missingSince - {row.id};
        events := events + [PullEvent(Revoked, row.id, row.leaseID)];
        if row.id in r.refused {
          ok := false;
          return;
        }
      }
    }
  }
}
