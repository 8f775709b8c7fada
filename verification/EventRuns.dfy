/** Event finality over every interleaving of deliveries, recovery passes, failing store calls and
    process crashes. */
module EventRuns {
  import opened Domain
  import opened Events

  // ----------------------------------------------------------------- threads

  /** Where the holder of a lock is with the event it works on. */
  datatype Thread =
    | Received(event: CapacityEvent, valid: bool)
    | Duplicate(event: CapacityEvent)
    | Executing(event: CapacityEvent)
    | Executed(event: CapacityEvent, h: Handling)

  datatype Answer = Answer(event: CapacityEvent, outcome: EventOutcome)

  /** Locks are shared: `stripe` says which lock guards which event id.  `ran` are the ids whose handler
      was entered, `answers` what deliveries and recovery passes reported, both in order. */
  datatype System = System(events: EventTable, locks: map<nat, Thread>, ran: seq<string>, answers: seq<Answer>)

  /** How a store call ends: it may fail before or after it took effect. */
  datatype Call = Done | DoneButFailed | NotDone

  datatype Step =
    | Deliver(event: CapacityEvent, valid: bool)
    | ClaimIt(lock: nat, call: Call)
    | AnswerDuplicate(lock: nat, call: Call)
    | Recover(id: string, valid: bool)
    | Handled(lock: nat, h: Handling)
    | Finish(lock: nat, call: Call)
    | Crash

  function Leave(s: System, lock: nat): System { s.(locks := s.locks - {lock}) }

  function Told(s: System, event: CapacityEvent, outcome: EventOutcome): System {
    s.(answers := s.answers + [Answer(event, outcome)])
  }

  function ClaimStep(s: System, lock: nat, call: Call): System {
    if lock !in s.locks || !s.locks[lock].Received? then s
    else
      var event, valid := s.locks[lock].event, s.locks[lock].valid;
      var events := if call.NotDone? then s.events else Claim(s.events, event, if valid then Pending else Rejected, "");
      if !valid then Told(Leave(s.(events := events), lock), event, EventOutcome(false, false, Rejected))
      else if !call.Done? then Leave(s.(events := events), lock)
      else if event.eventID in s.events then s.(locks := s.locks[lock := Duplicate(event)])
      else s.(events := events, locks := s.locks[lock := Executing(event)], ran := s.ran + [event.eventID])
  }

  function DuplicateStep(s: System, lock: nat, call: Call): System {
    if lock !in s.locks || !s.locks[lock].Duplicate? || s.locks[lock].event.eventID !in s.events then s
    else
      var event := s.locks[lock].event;
      if !call.Done? then Leave(s, lock)
      else Told(Leave(s, lock), event, DuplicateOutcome(s.events[event.eventID], event))
  }

  function RecoverStep(s: System, stripe: string -> nat, id: string, valid: bool): System {
    if stripe(id) in s.locks || id !in s.events || s.events[id].result != Pending then s
    else if s.events[id].payload.None? || !valid then s.(events := Complete(s.events, id, Rejected, "cannot be replayed"))
    else s.(locks := s.locks[stripe(id) := Executing(Replayed(id, s.events[id]))], ran := s.ran + [id])
  }

  function FinishStep(s: System, lock: nat, call: Call): System {
    if lock !in s.locks || !s.locks[lock].Executed? then s
    else
      var event, h := s.locks[lock].event, s.locks[lock].h;
      if StaysPending(h) then Told(Leave(s, lock), event, EventOutcome(true, false, Pending))
      else
        var events := if call.NotDone? then s.events else Complete(s.events, event.eventID, h.result, h.reason);
        Told(Leave(s.(events := events), lock), event,
             if call.Done? then EventOutcome(h.result != Rejected, false, h.result) else EventOutcome(true, false, Pending))
  }

  function After(s: System, stripe: string -> nat, step: Step): System {
    match step
    case Deliver(event, valid) =>
      if stripe(event.eventID) in s.locks then s else s.(locks := s.locks[stripe(event.eventID) := Received(event, valid)])
    case ClaimIt(lock, call) => ClaimStep(s, lock, call)
    case AnswerDuplicate(lock, call) => DuplicateStep(s, lock, call)
    case Recover(id, valid) => RecoverStep(s, stripe, id, valid)
    case Handled(lock, h) =>
      if lock in s.locks && s.locks[lock].Executing? then s.(locks := s.locks[lock := Executed(s.locks[lock].event, h)]) else s
    case Finish(lock, call) => FinishStep(s, lock, call)
    case Crash => s.(locks := map[])
  }

  function Run(stripe: string -> nat, steps: seq<Step>): System {
    if steps == [] then System(map[], map[], [], []) else After(Run(stripe, steps[..|steps| - 1]), stripe, steps[|steps| - 1])
  }

  function At(stripe: string -> nat, steps: seq<Step>, k: nat): System
    requires k <= |steps|
  {
    Run(stripe, steps[..k])
  }

  lemma AtNext(stripe: string -> nat, steps: seq<Step>, k: nat)
    requires k < |steps|
    ensures At(stripe, steps, k + 1) == After(At(stripe, steps, k), stripe, steps[k])
  {
    assert steps[..k + 1][..k] == steps[..k];
  }

  // --------------------------------------------------------------- invariant

  /** A thread works under its event's lock, and whoever executes an event found it pending. */
  ghost predicate Sound(s: System, stripe: string -> nat) {
    forall lock | lock in s.locks ::
      && stripe(s.locks[lock].event.eventID) == lock
      && (s.locks[lock].Duplicate? ==> s.locks[lock].event.eventID in s.events)
      && (s.locks[lock].Executing? || s.locks[lock].Executed? ==>
            s.locks[lock].event.eventID in s.events && s.events[s.locks[lock].event.eventID].result == Pending)
  }

  /** The record keeps what it was created from, and a final result is never touched again. */
  predicate SameBinding(a: EventRecord, b: EventRecord) {
    && a.partnerID == b.partnerID && a.kind == b.kind && a.payload == b.payload && a.occurredAt == b.occurredAt
    && (a.result != Pending ==> a == b)
  }

  predicate Extends(s: System, later: System, id: string) {
    && s.ran <= later.ran
    && (id in s.events ==> id in later.events && SameBinding(s.events[id], later.events[id]))
    && (id in s.events && s.events[id].result != Pending ==> id !in later.ran[|s.ran|..])
  }

  lemma ClaimKeepsSound(s: System, stripe: string -> nat, lock: nat, call: Call)
    requires Sound(s, stripe)
    ensures Sound(ClaimStep(s, lock, call), stripe)
  {
  }

  lemma RecoverKeepsSound(s: System, stripe: string -> nat, id: string, valid: bool)
    requires Sound(s, stripe)
    ensures Sound(RecoverStep(s, stripe, id, valid), stripe)
  {
  }

  lemma FinishKeepsSound(s: System, stripe: string -> nat, lock: nat, call: Call)
    requires Sound(s, stripe)
    ensures Sound(FinishStep(s, lock, call), stripe)
  {
  }

  lemma StepKeepsSound(s: System, stripe: string -> nat, step: Step)
    requires Sound(s, stripe)
    ensures Sound(After(s, stripe, step), stripe)
  {
    match step
    case ClaimIt(lock, call) => ClaimKeepsSound(s, stripe, lock, call);
    case Recover(id, valid) => RecoverKeepsSound(s, stripe, id, valid);
    case Finish(lock, call) => FinishKeepsSound(s, stripe, lock, call);
    case _ =>
  }

  lemma StepExtends(s: System, stripe: string -> nat, step: Step, id: string)
    requires Sound(s, stripe)
    ensures Extends(s, After(s, stripe, step), id)
  {
  }

  lemma {:induction false} RunIsSound(stripe: string -> nat, steps: seq<Step>)
    ensures Sound(Run(stripe, steps), stripe)
  {
    if steps != [] {
      RunIsSound(stripe, steps[..|steps| - 1]);
      StepKeepsSound(Run(stripe, steps[..|steps| - 1]), stripe, steps[|steps| - 1]);
    }
  }

  lemma ExtendsTransitively(a: System, b: System, c: System, id: string)
    requires Extends(a, b, id) && Extends(b, c, id)
    ensures Extends(a, c, id)
  {
    assert c.ran[|a.ran|..] == b.ran[|a.ran|..] + c.ran[|b.ran|..];
  }

  /** Event finality, over every run: an event id stays bound to its first payload; once its result is
      not pending, the record never changes again and its handler is never entered again. */
  lemma {:induction false} FinalMeansFinal(stripe: string -> nat, steps: seq<Step>, id: string, i: nat, j: nat)
    requires i <= j <= |steps|
    ensures Extends(At(stripe, steps, i), At(stripe, steps, j), id)
    decreases j
  {
    if i < j {
      FinalMeansFinal(stripe, steps, id, i, j - 1);
      RunIsSound(stripe, steps[..j - 1]);
      AtNext(stripe, steps, j - 1);
      StepExtends(At(stripe, steps, j - 1), stripe, steps[j - 1], id);
      ExtendsTransitively(At(stripe, steps, i), At(stripe, steps, j - 1), At(stripe, steps, j), id);
    }
  }

  /** The record's columns are those of its payload. */
  predicate OriginalRecord(id: string, r: EventRecord) {
    && r.payload.Some?
    && var e := r.payload.value;
       e.eventID == id && e.partnerID == r.partnerID && e.kind == r.kind && e.occurredAt == r.occurredAt
  }

  predicate Executes(s: System, lock: nat)
    requires lock in s.locks
  {
    s.locks[lock].Executing? || s.locks[lock].Executed? ==>
      var event := s.locks[lock].event;
      event.eventID in s.events && s.events[event.eventID].payload == Some(event)
  }

  /** Every record is original, and whoever executes an event executes the recorded payload. */
  ghost predicate Original(s: System) {
    && (forall id | id in s.events :: OriginalRecord(id, s.events[id]))
    && (forall lock | lock in s.locks :: Executes(s, lock))
  }

  lemma ReplayIsOriginal(id: string, r: EventRecord)
    requires OriginalRecord(id, r)
    ensures Replayed(id, r) == r.payload.value
  {
  }

  lemma ClaimKeepsOriginal(s: System, lock: nat, call: Call)
    requires Original(s)
    ensures Original(ClaimStep(s, lock, call))
  {
  }

  lemma RecoverKeepsOriginal(s: System, stripe: string -> nat, id: string, valid: bool)
    requires Original(s)
    ensures Original(RecoverStep(s, stripe, id, valid))
  {
    if id in s.events {
      ReplayIsOriginal(id, s.events[id]);
    }
  }

  lemma FinishKeepsOriginal(s: System, lock: nat, call: Call)
    requires Original(s)
    ensures Original(FinishStep(s, lock, call))
  {
  }

  lemma StepKeepsOriginal(s: System, stripe: string -> nat, step: Step)
    requires Original(s)
    ensures Original(After(s, stripe, step))
  {
    match step
    case ClaimIt(lock, call) => ClaimKeepsOriginal(s, lock, call);
    case Recover(id, valid) => RecoverKeepsOriginal(s, stripe, id, valid);
    case Finish(lock, call) => FinishKeepsOriginal(s, lock, call);
    case _ =>
  }

  /** Deliveries and recovery passes alike execute the very event that was first recorded under the id. */
  lemma {:induction false} OnlyTheFirstPayloadRuns(stripe: string -> nat, steps: seq<Step>)
    ensures Original(Run(stripe, steps))
  {
    if steps != [] {
      OnlyTheFirstPayloadRuns(stripe, steps[..|steps| - 1]);
      StepKeepsOriginal(Run(stripe, steps[..|steps| - 1]), stripe, steps[|steps| - 1]);
    }
  }

  /** What a handler reported is recorded and answered, exactly unless it failed for a reason that may pass or
      the record could not be completed; then the event stays pending, for recovery to try again. */
  lemma SettledExactlyWhen(s: System, stripe: string -> nat, lock: nat, call: Call)
    requires Sound(s, stripe) && lock in s.locks && s.locks[lock].Executed?
    ensures var event, h, later := s.locks[lock].event, s.locks[lock].h, After(s, stripe, Finish(lock, call));
      var passing := h.failed && h.result != Rejected;
      && lock !in later.locks && later.ran == s.ran
      && event.eventID in later.events
      && later.events[event.eventID].result == (if passing || call.NotDone? then Pending else h.result)
      && (forall id | id != event.eventID :: id in later.events <==> id in s.events)
      && (forall id | id in s.events && id != event.eventID :: later.events[id] == s.events[id])
      && |later.answers| == |s.answers| + 1
      && later.answers[|s.answers|] == Answer(event,
           EventOutcome(passing || !call.Done? || h.result != Rejected, false, if passing || !call.Done? then Pending else h.result))
  {
  }

  // ----------------------------------------------------------------- answers

  /** The answer agrees with what is recorded: a duplicate is told the recorded result, a first delivery
      its own result, and anybody may be told "pending" or, for another payload or an invalid event,
      "rejected"; and the event is accepted unless the answer is "rejected". */
  predicate Agrees(a: Answer, events: EventTable) {
    var o, id := a.outcome, a.event.eventID;
    && (o.duplicate ==>
          && id in events && SameCapacityEvent(events[id], a.event)
          && o == EventOutcome(events[id].result != Rejected, true, events[id].result))
    && (!o.duplicate && o.result != Pending && o.result != Rejected ==> id in events && events[id].result == o.result)
    && (o.accepted <==> o.result != Rejected)
  }

  /** Every answer is given against the record as it stands. */
  lemma AnswersAgree(s: System, stripe: string -> nat, step: Step)
    requires Sound(s, stripe)
    ensures var later := After(s, stripe, step);
      s.answers <= later.answers && |later.answers| <= |s.answers| + 1
      && forall k | |s.answers| <= k < |later.answers| :: Agrees(later.answers[k], later.events)
  {
  }

  lemma {:induction false} AnswerGiven(stripe: string -> nat, steps: seq<Step>, a: int) returns (k: nat)
    requires 0 <= a < |Run(stripe, steps).answers|
    ensures k < |steps| && |At(stripe, steps, k).answers| <= a < |At(stripe, steps, k + 1).answers|
    ensures At(stripe, steps, k + 1).answers[a] == Run(stripe, steps).answers[a]
  {
    var n := |steps| - 1;
    var before := Run(stripe, steps[..n]);
    RunIsSound(stripe, steps[..n]);
    AnswersAgree(before, stripe, steps[n]);
    AtNext(stripe, steps, n);
    assert steps[..n + 1] == steps;
    if a < |before.answers| {
      k := AnswerGiven(stripe, steps[..n], a);
      assert steps[..n][..k] == steps[..k] && steps[..n][..k + 1] == steps[..k + 1];
    } else {
      k := n;
    }
  }

  /** Every answer ever given with a final result names the result the event has at the end of the run:
      a duplicate that matches is told it, whoever executed the event and whenever. */
  lemma FinalAnswersStayTrue(stripe: string -> nat, steps: seq<Step>, a: int)
    requires 0 <= a < |Run(stripe, steps).answers|
    ensures var answer, end := Run(stripe, steps).answers[a], Run(stripe, steps).events;
      var id := answer.event.eventID;
      && (answer.outcome.duplicate ==> id in end && SameCapacityEvent(end[id], answer.event))
      && (answer.outcome.result != Pending && (answer.outcome.duplicate || answer.outcome.result != Rejected) ==>
            id in end && end[id].result == answer.outcome.result)
  {
    var k := AnswerGiven(stripe, steps, a);
    RunIsSound(stripe, steps[..k]);
    AtNext(stripe, steps, k);
    AnswersAgree(At(stripe, steps, k), stripe, steps[k]);
    FinalMeansFinal(stripe, steps, Run(stripe, steps).answers[a].event.eventID, k + 1, |steps|);
    assert steps[..|steps|] == steps;
  }
}
