/** One SSH provision job over any number of crashes and restarts: its pipeline, the rows it leaves
    behind, and the platform, which never gives a name away twice. */
module ProvisionRuns {
  /** A mirrored row: is the job finished, and does the row say how to find its container? */
  datatype Row = Row(terminal: bool, followable: bool)

  const MAX_NAME_ATTEMPTS := 5

  /** The pipeline of the process that accepted the request. */
  datatype First =
    | NotRequested
    | Submitting(name: string, attempt: nat)
    | Clashed(name: string, attempt: nat)
    | RenameUnsaved(from: string, to: string, attempt: nat)
    | RenameUndeleted(from: string, to: string, attempt: nat)
    | Accepted(name: string)
    | Failing(name: string)
    | Pursuing(name: string)
    | Over

  /** A pipeline resumed from a row. */
  datatype Resumed = Resubmitting | AcceptedAgain | FailingAgain | Following

  /** `taken` are the names the platform knows, `containers` the ones this job has created, `current` the
      name the job goes by. */
  datatype System = System(
    taken: set<string>, containers: seq<string>, rows: map<string, Row>, first: First, resumed: map<string, Resumed>,
    base: string, current: string)

  const INITIAL := System({}, [], map[], NotRequested, map[], "", "")

  /** How a create call ends for the caller. */
  datatype Reply = Key | AcceptedUnheard | NameInUse | OtherError

  datatype Step =
    | NameTaken(name: string)
    | RowReplaced(name: string)
    | Request(name: string, saved: bool)
    | Create(reply: Reply)
    | NextName(tracked: bool)
    | RenameSave(saved: bool)
    | RenameDelete(deleted: bool, saved: bool)
    | KeySave(saved: bool)
    | FailSave(saved: bool)
    | Crash
    | Resume(name: string)
    | CreateAgain(name: string, reply: Reply)
    | KeySaveAgain(name: string, saved: bool)
    | FailSaveAgain(name: string, saved: bool)
    | Pursue(terminal: bool, saved: bool)
    | PursueAgain(name: string, terminal: bool, saved: bool)
    | Cancel(name: string)

  function Candidate(base: string, attempt: nat): string {
    base + "-" + (if attempt == 2 then "2" else if attempt == 3 then "3" else if attempt == 4 then "4" else "5")
  }

  /** The platform creates under a free name only, and says "in use" only of a name that was taken before
      the call. */
  predicate Possible(sys: System, name: string, reply: Reply) {
    match reply
    case Key => name !in sys.taken
    case AcceptedUnheard => name !in sys.taken
    case NameInUse => name in sys.taken
    case OtherError => true
  }

  predicate Creates(reply: Reply) { reply.Key? || reply.AcceptedUnheard? }

  function Called(sys: System, name: string, reply: Reply): System {
    if Creates(reply) then sys.(taken := sys.taken + {name}, containers := sys.containers + [name]) else sys
  }

  function Saved(sys: System, name: string, row: Row, saved: bool): System {
    if saved then sys.(rows := sys.rows[name := row]) else sys
  }

  function FirstStep(sys: System, step: Step): System {
    var first := sys.first;
    match step
    case Request(name, saved) =>
      if first.NotRequested?
      then Saved(sys, name, Row(false, false), saved).(first := Submitting(name, 1), base := name, current := name) else sys
    case Create(reply) =>
      if first.Submitting? && Possible(sys, first.name, reply)
      then Called(sys, first.name, reply).(first := match reply
                                                    case Key => Accepted(first.name)
                                                    case NameInUse => Clashed(first.name, first.attempt)
                                                    case _ => Failing(first.name))
      else sys
    case NextName(tracked) =>
      if !first.Clashed? then sys
      else if first.attempt >= MAX_NAME_ATTEMPTS then sys.(first := Failing(first.name))
      else if tracked then sys.(first := Clashed(first.name, first.attempt + 1))
      else
        var to := Candidate(sys.base, first.attempt + 1);
        sys.(first := RenameUnsaved(first.name, to, first.attempt + 1), current := to)
    case RenameSave(saved) =>
      if first.RenameUnsaved?
      then Saved(sys, first.to, Row(false, false), saved).(first := RenameUndeleted(first.from, first.to, first.attempt)) else sys
    case RenameDelete(deleted, saved) =>
      if first.RenameUndeleted? then
        var moved := if deleted then sys.(rows := sys.rows - {first.from}) else sys;
        Saved(moved, first.to, Row(false, false), saved).(first := Submitting(first.to, first.attempt))
      else sys
    case KeySave(saved) =>
      if first.Accepted? then Saved(sys, first.name, Row(false, true), saved).(first := Pursuing(first.name)) else sys
    case Pursue(terminal, saved) =>
      if first.Pursuing?
      then Saved(sys, first.name, Row(terminal, true), saved).(first := if terminal then Over else first) else sys
    case FailSave(saved) =>
      if first.Failing? then Saved(sys, first.name, Row(true, false), saved).(first := Over) else sys
    case _ => sys
  }

  function ResumedStep(sys: System, step: Step): System {
    match step
    case Resume(name) =>
      if sys.first.Over? && name in sys.rows && !sys.rows[name].terminal && name !in sys.resumed
      then sys.(resumed := sys.resumed[name := if sys.rows[name].followable then Following else Resubmitting]) else sys
    case CreateAgain(name, reply) =>
      if name in sys.resumed && sys.resumed[name].Resubmitting? && Possible(sys, name, reply)
      then Called(sys, name, reply).(resumed := sys.resumed[name := if reply.Key? then AcceptedAgain else FailingAgain]) else sys
    case KeySaveAgain(name, saved) =>
      if name in sys.resumed && sys.resumed[name].AcceptedAgain?
      then Saved(sys, name, Row(false, true), saved).(resumed := sys.resumed[name := Following]) else sys
    case FailSaveAgain(name, saved) =>
      if name in sys.resumed && sys.resumed[name].FailingAgain?
      then Saved(sys, name, Row(true, false), saved).(resumed := sys.resumed - {name}) else sys
    case PursueAgain(name, terminal, saved) =>
      if name in sys.resumed && sys.resumed[name].Following? then Saved(sys, name, Row(terminal, true), saved) else sys
    case _ => sys
  }

  function After(sys: System, step: Step): System {
    match step
    case NameTaken(name) => sys.(taken := sys.taken + {name})
    case RowReplaced(name) => sys.(rows := sys.rows - {name})
    case Cancel(name) => if name in sys.rows then sys.(rows := sys.rows[name := sys.rows[name].(terminal := true)]) else sys
    case Crash => if sys.first.NotRequested? then sys else sys.(first := Over, resumed := map[])
    case _ =>
      if step.Resume? || step.CreateAgain? || step.KeySaveAgain? || step.FailSaveAgain? || step.PursueAgain?
      then ResumedStep(sys, step) else FirstStep(sys, step)
  }

  function Run(steps: seq<Step>): System {
    if steps == [] then INITIAL else After(Run(steps[..|steps| - 1]), steps[|steps| - 1])
  }

  // --------------------------------------------------------------- invariant

  /** The name the accepting pipeline may still submit. */
  predicate FirstMaySubmit(first: First, name: string) {
    || (first.Submitting? && first.name == name) || (first.RenameUnsaved? && first.to == name)
    || (first.RenameUndeleted? && first.to == name)
  }

  /** The job may still ask the platform for a container of this name, now or after a restart. */
  predicate MaySubmit(sys: System, name: string) {
    || FirstMaySubmit(sys.first, name)
    || (name in sys.rows && !sys.rows[name].terminal && !sys.rows[name].followable)
    || (name in sys.resumed && sys.resumed[name].Resubmitting?)
  }

  predicate FirstSound(sys: System) {
    match sys.first
    case NotRequested => sys.rows == map[] && sys.containers == []
    case Submitting(name, _) => name == sys.current && sys.containers == []
    case Clashed(name, _) => name == sys.current && name in sys.taken && sys.containers == []
    case RenameUnsaved(from, to, _) => to == sys.current && from in sys.taken && sys.containers == []
    case RenameUndeleted(from, to, _) => to == sys.current && from in sys.taken && sys.containers == []
    case Accepted(name) => name in sys.containers
    case Pursuing(name) => name in sys.containers
    case _ => true
  }

  ghost predicate Sound(sys: System) {
    && |sys.containers| <= 1 && (forall name | name in sys.containers :: name in sys.taken)
    && (forall name | MaySubmit(sys, name) :: name in sys.taken || (name == sys.current && sys.containers == []))
    && (forall name | name in sys.rows && sys.rows[name].followable :: name in sys.containers)
    && (forall name | name in sys.resumed && (sys.resumed[name].AcceptedAgain? || sys.resumed[name].Following?) ::
          name in sys.containers)
    && (!sys.first.Over? ==> sys.resumed == map[])
    && FirstSound(sys)
  }

  lemma CreateKeepsSound(sys: System, reply: Reply)
    requires Sound(sys)
    ensures Sound(FirstStep(sys, Create(reply)))
  {
    var after := FirstStep(sys, Create(reply));
    forall name | MaySubmit(after, name) ensures name in after.taken || (name == after.current && after.containers == []) {
      assert MaySubmit(sys, name);
    }
  }

  predicate Renames(step: Step) { step.NextName? || step.RenameSave? || step.RenameDelete? }

  lemma RenameKeepsSound(sys: System, step: Step)
    requires Sound(sys) && Renames(step)
    ensures Sound(FirstStep(sys, step))
  {
    var after := FirstStep(sys, step);
    forall name | MaySubmit(after, name) ensures name in after.taken || (name == after.current && after.containers == []) {
      assert FirstMaySubmit(after.first, name) || MaySubmit(sys, name) || name == after.current;
    }
  }

  lemma FirstStepKeepsSound(sys: System, step: Step)
    requires Sound(sys) && !step.Create? && !Renames(step)
    ensures Sound(FirstStep(sys, step))
  {
    var after := FirstStep(sys, step);
    forall name | MaySubmit(after, name) ensures name in after.taken || (name == after.current && after.containers == []) {
      assert FirstMaySubmit(after.first, name) || MaySubmit(sys, name) || name == after.current;
    }
  }

  lemma ResumedStepKeepsSound(sys: System, step: Step)
    requires Sound(sys)
    ensures Sound(ResumedStep(sys, step))
  {
    var after := ResumedStep(sys, step);
    forall name | MaySubmit(after, name) ensures name in after.taken || (name == after.current && after.containers == []) {
      assert MaySubmit(sys, name);
    }
  }

  lemma StepKeepsSound(sys: System, step: Step)
    requires Sound(sys)
    ensures Sound(After(sys, step))
  {
    if step.Resume? || step.CreateAgain? || step.KeySaveAgain? || step.FailSaveAgain? || step.PursueAgain? {
      ResumedStepKeepsSound(sys, step);
    } else if step.NameTaken? || step.RowReplaced? || step.Cancel? || step.Crash? {
      var after := After(sys, step);
      forall name | MaySubmit(after, name) ensures MaySubmit(sys, name) {
      }
    } else if step.Create? {
      CreateKeepsSound(sys, step.reply);
    } else if Renames(step) {
      RenameKeepsSound(sys, step);
    } else {
      FirstStepKeepsSound(sys, step);
    }
  }

  // ------------------------------------------------------------------- names

  /** The five names a job may go by. */
  predicate ItsName(base: string, name: string) {
    name == base || name == base + "-2" || name == base + "-3" || name == base + "-4" || name == base + "-5"
  }

  /** The name of the n-th attempt. */
  predicate NthName(base: string, name: string, n: nat) {
    || (n == 1 && name == base) || (n == 2 && name == base + "-2") || (n == 3 && name == base + "-3")
    || (n == 4 && name == base + "-4") || (n == 5 && name == base + "-5")
  }

  predicate FirstNamed(first: First, base: string) {
    match first
    case Submitting(name, n) => NthName(base, name, n)
    case Clashed(name, n) => 1 <= n <= 5 && ItsName(base, name)
    case RenameUnsaved(from, to, n) => ItsName(base, from) && NthName(base, to, n)
    case RenameUndeleted(from, to, n) => ItsName(base, from) && NthName(base, to, n)
    case Accepted(name) => ItsName(base, name)
    case Failing(name) => ItsName(base, name)
    case Pursuing(name) => ItsName(base, name)
    case _ => true
  }

  ghost predicate OnlyItsNames(sys: System) {
    && FirstNamed(sys.first, sys.base)
    && (forall name | name in sys.containers :: ItsName(sys.base, name))
    && (forall name | name in sys.rows :: ItsName(sys.base, name))
    && (forall name | name in sys.resumed :: ItsName(sys.base, name))
    && (sys.first.NotRequested? ==> sys.containers == [] && sys.rows == map[] && sys.resumed == map[])
  }

  lemma RenameNames(sys: System, step: Step)
    requires OnlyItsNames(sys) && Renames(step)
    ensures OnlyItsNames(FirstStep(sys, step))
  {
  }

  lemma FirstStepNames(sys: System, step: Step)
    requires OnlyItsNames(sys)
    ensures OnlyItsNames(FirstStep(sys, step))
  {
    if Renames(step) {
      RenameNames(sys, step);
    }
  }

  lemma ResumedStepNames(sys: System, step: Step)
    requires OnlyItsNames(sys)
    ensures OnlyItsNames(ResumedStep(sys, step))
  {
  }

  lemma NamesStep(sys: System, step: Step)
    requires OnlyItsNames(sys)
    ensures OnlyItsNames(After(sys, step))
  {
    FirstStepNames(sys, step);
    ResumedStepNames(sys, step);
  }

  /** A job asks for its own name first, then for that name with -2 to -5 behind it, and for no other: over
      every run, each container it creates and each row it leaves bears one of the five. */
  lemma {:induction false} FiveNames(steps: seq<Step>)
    ensures OnlyItsNames(Run(steps))
  {
    if steps != [] {
      FiveNames(steps[..|steps| - 1]);
      NamesStep(Run(steps[..|steps| - 1]), steps[|steps| - 1]);
    }
  }

  /** One job, one container: over any number of crashes and restarts - between the create call and the
      write of its key, or between the two writes of a rename - and whatever mirror write fails, the job
      creates at most one container, and a row that says how to find a container names that one, however
      late the key was written. */
  lemma {:induction false} AtMostOneContainer(steps: seq<Step>)
    ensures Sound(Run(steps))
    ensures |Run(steps).containers| <= 1
    ensures forall name | name in Run(steps).rows && Run(steps).rows[name].followable :: Run(steps).containers == [name]
  {
    if steps != [] {
      AtMostOneContainer(steps[..|steps| - 1]);
      StepKeepsSound(Run(steps[..|steps| - 1]), steps[|steps| - 1]);
    }
  }
}
