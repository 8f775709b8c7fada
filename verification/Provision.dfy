/** The tracker of internal/api/provision.go: the jobs in memory and the rows they are mirrored into.
    A mirror write may fail; the job goes on without it. */
module Provision {
  datatype JobState = Queued | Creating | WaitingSSH | HandingOver | Managed | JobFailed | Cancelled

  predicate Terminal(state: JobState) { state.Managed? || state.JobFailed? || state.Cancelled? }

  datatype Record = Record(
    name: string, partnerID: string, state: JobState, stage: string, creationKey: string, instanceID: string, error: string)

  type Jobs = map<string, Record>

  function Mirrored(rows: Jobs, record: Record, saved: bool): Jobs {
    if saved then rows[record.name := record] else rows
  }

  function Unmirrored(rows: Jobs, name: string, deleted: bool): Jobs {
    if deleted then rows - {name} else rows
  }

  /** Every job is tracked under its own name. */
  ghost predicate Keyed(jobs: Jobs) { forall name | name in jobs :: jobs[name].name == name }

  lemma MovedKeepsSize(jobs: Jobs, from: string, to: string, record: Record)
    requires from in jobs && to !in jobs
    ensures |(jobs - {from})[to := record]| == |jobs|
  {
    var moved := (jobs - {from})[to := record];
    assert moved.Keys == jobs.Keys - {from} + {to};
    assert |moved| == |moved.Keys| && |jobs| == |jobs.Keys|;
  }

  class ProvisionTracker {
    var byName: Jobs
    var cancels: set<string>
    var rows: Jobs

    ghost predicate Valid()
      reads this
    {
      Keyed(byName) && Keyed(rows)
    }

    constructor (rows: Jobs)
      requires Keyed(rows)
      ensures Valid() && byName == map[] && cancels == {} && this.rows == rows
    {
      byName, cancels, this.rows := map[], {}, rows;
    }

    method StoreRecord(record: Record, saved: bool)
      requires Valid()
      modifies this`rows
      ensures Valid() && rows == if saved then old(rows)[record.name := record] else old(rows)
    {
      if saved {
        rows := rows[record.name := record];
      }
    }

    method Add(record: Record, saved: bool)
      requires Valid()
      modifies this
      ensures Valid() && byName == old(byName)[record.name := record] && cancels == old(cancels)
      ensures rows == Mirrored(old(rows), record, saved)
    {
      byName := byName[record.name := record];
      StoreRecord(record, saved);
    }

    /** Loads a row of an earlier process; a job that is already tracked wins. */
    method Seed(record: Record) returns (seeded: bool)
      requires Valid()
      modifies this`byName
      ensures Valid() && (seeded <==> record.name !in old(byName))
      ensures byName == if seeded then old(byName)[record.name := record] else old(byName)
    {
      if record.name in byName {
        return false;
      }
      byName := byName[record.name := record];
      return true;
    }

    /** Every setter is this: an unknown job is left alone, a known one is replaced and mirrored. */
    method Rewrite(name: string, record: Record, saved: bool)
      requires Valid() && name in byName && record.name == name
      modifies this
      ensures Valid() && cancels == old(cancels)
      ensures byName == old(byName)[name := record] && rows == Mirrored(old(rows), record, saved)
    {
      byName := byName[name := record];
      StoreRecord(record, saved);
    }

    method SetCreationKey(name: string, key: string, saved: bool)
      requires Valid()
      modifies this
      ensures Valid() && cancels == old(cancels)
      ensures name !in old(byName) ==> byName == old(byName) && rows == old(rows)
      ensures name in old(byName) ==>
        var record := old(byName)[name].(creationKey := key);
        byName == old(byName)[name := record] && rows == Mirrored(old(rows), record, saved)
    {
      if name in byName {
        Rewrite(name, byName[name].(creationKey := key), saved);
      }
    }

    method SetInstanceID(name: string, id: string, saved: bool)
      requires Valid()
      modifies this
      ensures Valid() && cancels == old(cancels)
      ensures name !in old(byName) ==> byName == old(byName) && rows == old(rows)
      ensures name in old(byName) ==>
        var record := old(byName)[name].(instanceID := id);
        byName == old(byName)[name := record] && rows == Mirrored(old(rows), record, saved)
    {
      if name in byName {
        Rewrite(name, byName[name].(instanceID := id), saved);
      }
    }

    /** The job may still move: it is tracked and nobody cancelled it. */
    ghost predicate Open(name: string)
      reads this
    {
      name in byName && !byName[name].state.Cancelled?
    }

    /** An operator's cancellation is final: no later stage overwrites it. */
    method Update(name: string, state: JobState, stage: string, saved: bool)
      requires Valid()
      modifies this
      ensures Valid() && cancels == old(cancels)
      ensures !old(Open(name)) ==> byName == old(byName) && rows == old(rows)
      ensures old(Open(name)) ==>
        var record := old(byName)[name].(state := state, stage := stage);
        byName == old(byName)[name := record] && rows == Mirrored(old(rows), record, saved)
    {
      if name in byName && !byName[name].state.Cancelled? {
        Rewrite(name, byName[name].(state := state, stage := stage), saved);
      }
    }

    method Fail(name: string, error: string, saved: bool)
      requires Valid()
      modifies this
      ensures Valid() && cancels == old(cancels)
      ensures !old(Open(name)) ==> byName == old(byName) && rows == old(rows)
      ensures old(Open(name)) ==>
        var record := old(byName)[name].(state := JobFailed, error := error);
        byName == old(byName)[name := record] && rows == Mirrored(old(rows), record, saved)
    {
      if name in byName && !byName[name].state.Cancelled? {
        Rewrite(name, byName[name].(state := JobFailed, error := error), saved);
      }
    }

    /** Neither a failure nor a completion; the reason it is not moving is kept if there is one. */
    method Hold(name: string, state: JobState, stage: string, cause: string, saved: bool)
      requires Valid()
      modifies this
      ensures Valid() && cancels == old(cancels)
      ensures !old(Open(name)) ==> byName == old(byName) && rows == old(rows)
      ensures old(Open(name)) ==>
        var before := old(byName)[name];
        var record := before.(state := state, stage := stage, error := if cause != "" then cause else before.error);
        byName == old(byName)[name := record] && rows == Mirrored(old(rows), record, saved)
    {
      if name in byName && !byName[name].state.Cancelled? {
        var record := byName[name].(state := state, stage := stage);
        if cause != "" {
          record := record.(error := cause);
        }
        Rewrite(name, record, saved);
      }
    }

    /** Only an outstanding job can be cancelled. */
    method Cancel(name: string, stage: string, saved: bool) returns (stopped: bool)
      requires Valid()
      modifies this
      ensures Valid() && cancels == old(cancels)
      ensures var outstanding := name in old(byName) && old(byName)[name].state in {Queued, Creating, WaitingSSH, HandingOver};
        && (stopped <==> outstanding && name in old(cancels))
        && byName == (if outstanding then old(byName)[name := old(byName)[name].(state := Cancelled, stage := stage)] else old(byName))
        && rows == if outstanding then Mirrored(old(rows), old(byName)[name].(state := Cancelled, stage := stage), saved) else old(rows)
    {
      if name !in byName || Terminal(byName[name].state) {
        return false;
      }
      Rewrite(name, byName[name].(state := Cancelled, stage := stage), saved);
      return name in cancels;
    }

    /** Moves a job and its cancel handle to the name the platform accepted.  It refuses rather than
        clobbers: no other job is touched, and none is lost.  The new row is written before the old one
        is deleted. */
    method Rename(from: string, to: string, saved: bool, deleted: bool) returns (renamed: bool)
      requires Valid()
      modifies this
      ensures Valid()
      ensures renamed <==> from in old(byName) && to !in old(byName)
      ensures !renamed ==> byName == old(byName) && rows == old(rows) && cancels == old(cancels)
      ensures renamed ==>
        && byName == (old(byName) - {from})[to := old(byName)[from].(name := to)] && |byName| == |old(byName)|
        && cancels == (if from in old(cancels) then old(cancels) - {from} + {to} else old(cancels))
        && rows == Unmirrored(Mirrored(old(rows), old(byName)[from].(name := to), saved), from, deleted)
    {
      if from !in byName || to in byName {
        return false;
      }
      var record := byName[from].(name := to);
      MovedKeepsSize(byName, from, to, record);
      byName := (byName - {from})[to := record];
      if from in cancels {
        cancels := cancels - {from} + {to};
      }
      StoreRecord(record, saved);
      if deleted {
        rows := rows - {from};
      }
      return true;
    }
  }
}
