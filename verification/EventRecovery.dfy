/** The recovery scan of internal/controller/event_recovery.go over the pending events of the store: a
    cursor that moves by at most 32 events a pass and wraps around. */
module EventRecovery {
  import opened Domain

  /** The place of an event in the order (occurred_at, event_id) the store sorts by. */
  type Key = int

  const LIMIT := 32

  predicate Ascending(keys: seq<Key>) { forall i, j | 0 <= i < j < |keys| :: keys[i] < keys[j] }

  /** `cursor` is None before the first event. */
  predicate Behind(key: Key, cursor: Option<Key>) { cursor.Some? && key <= cursor.value }

  /** The pending events after the cursor, in order. */
  function Pending(keys: seq<Key>, cursor: Option<Key>): seq<Key> {
    if keys == [] then [] else if Behind(keys[0], cursor) then Pending(keys[1..], cursor) else [keys[0]] + Pending(keys[1..], cursor)
  }

  function ListAfter(keys: seq<Key>, cursor: Option<Key>): seq<Key> {
    var after := Pending(keys, cursor);
    if |after| <= LIMIT then after else after[..LIMIT]
  }

  /** Visiting a batch leaves the cursor at its last event. */
  function Visit(batch: seq<Key>, cursor: Option<Key>): (seq<Key>, Option<Key>) {
    (batch, if batch == [] then cursor else Some(batch[|batch| - 1]))
  }

  /** The events a pass visits when it does not run out of time, and the cursor it leaves. */
  function Pass(keys: seq<Key>, cursor: Option<Key>): (seq<Key>, Option<Key>) {
    var batch := ListAfter(keys, cursor);
    if batch == [] && cursor.Some? then Visit(ListAfter(keys, None), None) else Visit(batch, cursor)
  }

  type Scan = Option<Key> -> (seq<Key>, Option<Key>)

  /** The cursor after so many passes. */
  function CursorAfter(scan: Scan, cursor: Option<Key>, passes: nat): Option<Key> {
    if passes == 0 then cursor else scan(CursorAfter(scan, cursor, passes - 1)).1
  }

  /** Some of the first `passes` passes visits the event. */
  ghost predicate Visited(scan: Scan, cursor: Option<Key>, passes: nat, key: Key) {
    exists k: nat :: k < passes && key in scan(CursorAfter(scan, cursor, k)).0
  }

  /** The scan over a fixed set of pending events. */
  function ScanOf(keys: seq<Key>): Scan { cursor => Pass(keys, cursor) }

  class RecoveryScan {
    var cursor: Option<Key>

    constructor ()
      ensures cursor == None
    {
      cursor := None;
    }

    /** One pass; `visit` order is the order events are offered in. */
    method ResumePendingEvents(keys: seq<Key>) returns (visit: seq<Key>)
      modifies this
      ensures (visit, cursor) == Pass(keys, old(cursor))
    {
      var records := ListAfter(keys, cursor);
      if |records| == 0 && cursor.Some? {
        cursor := None;
        records := ListAfter(keys, None);
      }
      visit := [];
      ghost var start := cursor;
      for i := 0 to |records|
        invariant visit == records[..i]
        invariant cursor == if i == 0 then start else Some(records[i - 1])
      {
        cursor := Some(records[i]);
        visit := visit + [records[i]];
      }
      assert records[..|records|] == records;
    }
  }

  // ---------------------------------------------------------------- positions

  /** The cursor stands right before position `p`. */
  predicate StandsAt(keys: seq<Key>, cursor: Option<Key>, p: nat) {
    && p <= |keys|
    && (forall i | 0 <= i < p :: Behind(keys[i], cursor))
    && (forall i | p <= i < |keys| :: !Behind(keys[i], cursor))
  }

  lemma {:induction false} PendingIsSuffix(keys: seq<Key>, cursor: Option<Key>, p: nat)
    requires StandsAt(keys, cursor, p)
    ensures Pending(keys, cursor) == keys[p..]
  {
    if keys != [] {
      if p > 0 {
        PendingIsSuffix(keys[1..], cursor, p - 1);
      } else {
        PendingIsSuffix(keys[1..], cursor, 0);
      }
    }
  }

  lemma Position(keys: seq<Key>, cursor: Option<Key>) returns (p: nat)
    requires Ascending(keys)
    ensures StandsAt(keys, cursor, p)
  {
    p := 0;
    while p < |keys| && Behind(keys[p], cursor)
      invariant p <= |keys| && forall i | 0 <= i < p :: Behind(keys[i], cursor)
    {
      p := p + 1;
    }
  }

  function Least(a: int, b: int): int { if a <= b then a else b }

  lemma ListIsSlice(keys: seq<Key>, cursor: Option<Key>, p: nat)
    requires StandsAt(keys, cursor, p)
    ensures ListAfter(keys, cursor) == keys[p..Least(p + LIMIT, |keys|)]
  {
    PendingIsSuffix(keys, cursor, p);
  }

  lemma VisitStands(keys: seq<Key>, cursor: Option<Key>, p: nat)
    requires Ascending(keys) && StandsAt(keys, cursor, p)
    ensures var to := Least(p + LIMIT, |keys|);
      StandsAt(keys, Visit(keys[p..to], cursor).1, to)
  {
  }

  /** A pass visits the next 32 events, starting over when it stands at the end. */
  lemma PassMoves(keys: seq<Key>, cursor: Option<Key>, p: nat)
    requires Ascending(keys) && StandsAt(keys, cursor, p)
    ensures var from := if p == |keys| then 0 else p;
      var to := Least(from + LIMIT, |keys|);
      ScanOf(keys)(cursor).0 == keys[from..to] && StandsAt(keys, ScanOf(keys)(cursor).1, to)
  {
    ListIsSlice(keys, cursor, p);
    ListIsSlice(keys, None, 0);
    var from := if p == |keys| then 0 else p;
    VisitStands(keys, if p == |keys| && cursor.Some? then None else cursor, from);
  }

  lemma InSlice(keys: seq<Key>, from: nat, to: nat, i: nat)
    requires from <= i < to <= |keys|
    ensures keys[i] in keys[from..to]
  {
    assert keys[from..to][i - from] == keys[i];
  }

  lemma VisitedNow(scan: Scan, cursor: Option<Key>, k: nat, key: Key)
    requires k > 0 && key in scan(CursorAfter(scan, cursor, k - 1)).0
    ensures Visited(scan, cursor, k, key)
  {
  }

  /** The events of one pass are visited by it. */
  lemma InBatch(keys: seq<Key>, scan: Scan, cursor: Option<Key>, k: nat, from: nat, to: nat, i: nat)
    requires k > 0 && from <= i < to <= |keys| && scan(CursorAfter(scan, cursor, k - 1)).0 == keys[from..to]
    ensures Visited(scan, cursor, k, keys[i])
  {
    InSlice(keys, from, to, i);
    VisitedNow(scan, cursor, k, keys[i]);
  }

  /** Every event from `from` to `to` is visited by the first `k` passes. */
  ghost predicate VisitedAll(keys: seq<Key>, scan: Scan, cursor: Option<Key>, k: nat, from: nat, to: nat)
    requires to <= |keys|
  {
    forall i | from <= i < to :: Visited(scan, cursor, k, keys[i])
  }

  lemma VisitedLater(scan: Scan, cursor: Option<Key>, few: nat, many: nat, key: Key)
    requires few <= many && Visited(scan, cursor, few, key)
    ensures Visited(scan, cursor, many, key)
  {
    var k: nat :| k < few && key in scan(CursorAfter(scan, cursor, k)).0;
  }

  lemma OneMorePass(keys: seq<Key>, scan: Scan, cursor: Option<Key>, k: nat, from: nat, mid: nat, to: nat)
    requires k > 0 && from <= mid <= to <= |keys| && VisitedAll(keys, scan, cursor, k - 1, from, mid)
    requires scan(CursorAfter(scan, cursor, k - 1)).0 == keys[mid..to]
    ensures VisitedAll(keys, scan, cursor, k, from, to)
  {
    forall i | from <= i < to ensures Visited(scan, cursor, k, keys[i]) {
      if i >= mid {
        InBatch(keys, scan, cursor, k, mid, to, i);
      } else {
        VisitedLater(scan, cursor, k - 1, k, keys[i]);
      }
    }
  }

  /** Without reaching the end in between, `k` passes visit the next 32 k events. */
  lemma {:induction false} Sweep(keys: seq<Key>, cursor: Option<Key>, p: nat, k: nat)
    requires Ascending(keys) && StandsAt(keys, cursor, p) && k > 0 && p + LIMIT * (k - 1) < |keys|
    ensures StandsAt(keys, CursorAfter(ScanOf(keys), cursor, k), Least(p + LIMIT * k, |keys|))
    ensures VisitedAll(keys, ScanOf(keys), cursor, k, p, Least(p + LIMIT * k, |keys|))
  {
    if k > 1 {
      Sweep(keys, cursor, p, k - 1);
    }
    var at := p + LIMIT * (k - 1);
    PassMoves(keys, CursorAfter(ScanOf(keys), cursor, k - 1), at);
    OneMorePass(keys, ScanOf(keys), cursor, k, p, at, Least(p + LIMIT * k, |keys|));
  }

  lemma {:induction false} CursorAdds(scan: Scan, cursor: Option<Key>, a: nat, b: nat)
    ensures CursorAfter(scan, CursorAfter(scan, cursor, a), b) == CursorAfter(scan, cursor, a + b)
  {
    if b > 0 {
      CursorAdds(scan, cursor, a, b - 1);
    }
  }

  lemma VisitedAfter(scan: Scan, cursor: Option<Key>, a: nat, b: nat, key: Key)
    requires Visited(scan, CursorAfter(scan, cursor, a), b, key)
    ensures Visited(scan, cursor, a + b, key)
  {
    var k: nat :| k < b && key in scan(CursorAfter(scan, CursorAfter(scan, cursor, a), k)).0;
    CursorAdds(scan, cursor, a, k);
    VisitedNow(scan, cursor, a + k + 1, key);
    VisitedLater(scan, cursor, a + k + 1, a + b, key);
  }

  function CeilDiv(n: nat): nat { (n + LIMIT - 1) / LIMIT }

  /** Reaching the end takes as many passes as there are batches left. */
  lemma ToTheEnd(keys: seq<Key>, cursor: Option<Key>, p: nat)
    requires Ascending(keys) && StandsAt(keys, cursor, p)
    ensures StandsAt(keys, CursorAfter(ScanOf(keys), cursor, CeilDiv(|keys| - p)), |keys|)
    ensures VisitedAll(keys, ScanOf(keys), cursor, CeilDiv(|keys| - p), p, |keys|)
  {
    if p < |keys| {
      Sweep(keys, cursor, p, CeilDiv(|keys| - p));
    }
  }

  /** From the end, the first `m` events are visited in as many passes as they have batches. */
  lemma FromTheStart(keys: seq<Key>, cursor: Option<Key>, m: nat, i: nat)
    requires Ascending(keys) && StandsAt(keys, cursor, |keys|) && i < m <= |keys|
    ensures Visited(ScanOf(keys), cursor, CeilDiv(m), keys[i])
  {
    var scan, first := ScanOf(keys), Least(LIMIT, |keys|);
    PassMoves(keys, cursor, |keys|);
    if i < first {
      InSlice(keys, 0, first, i);
      VisitedNow(scan, cursor, 1, keys[i]);
      VisitedLater(scan, cursor, 1, CeilDiv(m), keys[i]);
    } else {
      assert CursorAfter(scan, cursor, 1) == scan(CursorAfter(scan, cursor, 0)).1;
      Sweep(keys, CursorAfter(scan, cursor, 1), first, CeilDiv(m) - 1);
      VisitedAfter(scan, cursor, 1, CeilDiv(m) - 1, keys[i]);
    }
  }

  /** Recovery starves nothing: for a fixed set of n pending events and any cursor, ceil(n/32) + 1
      consecutive passes that do not run out of time visit every one of them, wherever the scan stood. */
  lemma NothingStarves(keys: seq<Key>, cursor: Option<Key>, key: Key)
    requires Ascending(keys) && key in keys
    ensures Visited(ScanOf(keys), cursor, (|keys| + 31) / 32 + 1, key)
  {
    var p := Position(keys, cursor);
    var i :| 0 <= i < |keys| && keys[i] == key;
    var scan, head, tail := ScanOf(keys), CeilDiv(|keys| - p), CeilDiv(p);
    ToTheEnd(keys, cursor, p);
    if i >= p {
      VisitedLater(scan, cursor, head, CeilDiv(|keys|) + 1, key);
    } else {
      FromTheStart(keys, CursorAfter(scan, cursor, head), p, i);
      VisitedAfter(scan, cursor, head, tail, key);
      VisitedLater(scan, cursor, head + tail, CeilDiv(|keys|) + 1, key);
    }
  }

  /** The scan of 34 events, standing after the first: it visits the next 32 and then the last one. */
  lemma TwoPasses(keys: seq<Key>)
    requires |keys| == 34 && Ascending(keys)
    ensures var scan, start := ScanOf(keys), Some(keys[0]);
      scan(start).0 == keys[1..33] && scan(scan(start).1).0 == keys[33..34]
  {
    PassMoves(keys, Some(keys[0]), 1);
    PassMoves(keys, ScanOf(keys)(Some(keys[0])).1, 33);
  }

  lemma NotInTail(keys: seq<Key>, from: nat, to: nat)
    requires Ascending(keys) && 0 < from <= to <= |keys|
    ensures keys[0] !in keys[from..to]
  {
  }

  lemma OnlyTwo(scan: Scan, cursor: Option<Key>, key: Key)
    requires key !in scan(cursor).0 && key !in scan(scan(cursor).1).0
    ensures !Visited(scan, cursor, 2, key)
  {
    assert CursorAfter(scan, cursor, 0) == cursor;
    assert CursorAfter(scan, cursor, 1) == scan(CursorAfter(scan, cursor, 0)).1;
  }

  /** One pass fewer is not enough: a scan of 34 events that stands after the first needs three passes to
      come back to it. */
  lemma OnePassFewerStarves(keys: seq<Key>)
    requires |keys| == 34 && Ascending(keys)
    ensures !Visited(ScanOf(keys), Some(keys[0]), (34 + 31) / 32, keys[0])
  {
    TwoPasses(keys);
    NotInTail(keys, 1, 33);
    NotInTail(keys, 33, 34);
    OnlyTwo(ScanOf(keys), Some(keys[0]), keys[0]);
  }
}
