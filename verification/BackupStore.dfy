/** Backup runs and the operation lease: the backup methods of
    backend/internal/repository/memory/store.go. */
module BackupStore {
  import opened Wrappers

  datatype RunState = Pending | Running | Succeeded | Failed

  datatype Run = Run(
    id: string, targetID: string, state: RunState, createdAt: int, startedAt: Option<int>, finishedAt: Option<int>,
    objectKey: string, checksum: string, size: nat, error: string)

  datatype Target = Target(id: string, enabled: bool, schedule: string, createdAt: int)

  type Runs = map<string, Run>

  datatype Failure = NotFound | Conflict | Invalid

  predicate Active(run: Run) {
    run.state == Pending || run.state == Running
  }

  predicate Terminal(run: Run) {
    !Active(run)
  }

  // ---------------------------------------------------------------- the order of claims

  /** Strings in the order of the source, code point by code point. */
  predicate StringLess(a: string, b: string)
    decreases |a|
  {
    if b == "" then false
    else if a == "" then true
    else if a[0] != b[0] then a[0] < b[0]
    else StringLess(a[1..], b[1..])
  }

  lemma {:induction false} StringLessTotal(a: string, b: string)
    ensures StringLess(a, b) || StringLess(b, a) || a == b
    ensures !(StringLess(a, b) && StringLess(b, a))
    decreases |a|
  {
    if a != "" && b != "" && a[0] == b[0] {
      StringLessTotal(a[1..], b[1..]);
      if a[1..] == b[1..] {
        assert a == [a[0]] + a[1..] && b == [b[0]] + b[1..];
      }
    }
  }

  lemma {:induction false} StringLessTransitive(a: string, b: string, c: string)
    requires StringLess(a, b) && StringLess(b, c)
    ensures StringLess(a, c)
    decreases |a|
  {
    if a != "" && b != "" && c != "" && a[0] == b[0] && b[0] == c[0] {
      StringLessTransitive(a[1..], b[1..], c[1..]);
    }
  }

  predicate Before(a: Run, b: Run) {
    a.createdAt < b.createdAt || (a.createdAt == b.createdAt && StringLess(a.id, b.id))
  }

  lemma BeforeTransitive(a: Run, b: Run, c: Run)
    requires Before(a, b) && Before(b, c)
    ensures Before(a, c)
  {
    if StringLess(a.id, b.id) && StringLess(b.id, c.id) { StringLessTransitive(a.id, b.id, c.id); }
  }

  /** The pending run that comes before all other pending runs. */
  predicate IsNext(runs: Runs, id: string) {
    && id in runs && runs[id].state == Pending
    && forall j :: j in runs && j != id && runs[j].state == Pending ==> Before(runs[id], runs[j])
  }

  predicate KeyedByID(runs: Runs) {
    forall id :: id in runs ==> runs[id].id == id
  }

  lemma NextIsUnique(runs: Runs, a: string, b: string)
    requires IsNext(runs, a) && IsNext(runs, b)
    ensures a == b
  {
    StringLessTotal(runs[a].id, runs[b].id);
  }

  // ---------------------------------------------------------------- the operations

  predicate HasActive(runs: Runs, targetID: string) {
    exists id :: id in runs && runs[id].targetID == targetID && Active(runs[id])
  }

  predicate HasSince(runs: Runs, targetID: string, time: int) {
    exists id :: id in runs && runs[id].targetID == targetID && runs[id].createdAt >= time
  }

  function Create(targets: map<string, Target>, runs: Runs, run: Run): (Runs, Result<(), Failure>) {
    if run.targetID !in targets then (runs, Err(NotFound))
    else if run.id in runs || HasActive(runs, run.targetID) then (runs, Err(Conflict))
    else (runs[run.id := run], Ok(()))
  }

  /** A scheduled run is not inserted beside an active one, nor after one created at or after its due time. */
  function CreateScheduled(targets: map<string, Target>, runs: Runs, run: Run, dueAt: int): (Runs,
      Result<bool, Failure>) {
    if run.targetID !in targets then (runs, Err(NotFound))
    else if HasActive(runs, run.targetID) || HasSince(runs, run.targetID, dueAt) then (runs, Ok(false))
    else if run.id in runs then (runs, Err(Conflict))
    else (runs[run.id := run], Ok(true))
  }

  function Started(run: Run, now: int): Run {
    run.(state := Running, startedAt := Some(now))
  }

  function Put(runs: Runs, run: Run): (Runs, Result<(), Failure>) {
    if run.id !in runs then (runs, Err(NotFound))
    else if runs[run.id].targetID != run.targetID then (runs, Err(Invalid))
    else (runs[run.id := run], Ok(()))
  }

  class Repository {
    var targets: map<string, Target>
    var runs: Runs
    var leased: bool

    constructor ()
      ensures targets == map[] && runs == map[] && !leased
    {
      targets, runs, leased := map[], map[], false;
    }

    method CreateBackupRun(run: Run) returns (r: Result<(), Failure>)
      modifies this`runs
      ensures (runs, r) == Create(targets, old(runs), run)
    {
      if run.targetID !in targets {
        return Err(NotFound);
      }
      if run.id in runs {
        return Err(Conflict);
      }
      var ids := runs.Keys;
      while ids != {}
        invariant ids <= runs.Keys && runs == old(runs)
        invariant forall id :: id in runs && id !in ids ==> !(runs[id].targetID == run.targetID && Active(runs[id]))
      {
        var id :| id in ids;
        if runs[id].targetID == run.targetID && Active(runs[id]) {
          return Err(Conflict);
        }
        ids := ids - {id};
      }
      runs := runs[run.id := run];
      r := Ok(());
    }

    method CreateScheduledBackupRun(run: Run, dueAt: int) returns (r: Result<bool, Failure>)
      modifies this`runs
      ensures (runs, r) == CreateScheduled(targets, old(runs), run, dueAt)
    {
      if run.targetID !in targets {
        return Err(NotFound);
      }
      var ids := runs.Keys;
      while ids != {}
        invariant ids <= runs.Keys && runs == old(runs)
        invariant forall id :: id in runs && id !in ids && runs[id].targetID == run.targetID ==>
                  !Active(runs[id]) && runs[id].createdAt < dueAt
      {
        var id :| id in ids;
        if runs[id].targetID == run.targetID && Active(runs[id]) {
          return Ok(false);
        }
        if runs[id].targetID == run.targetID && !(runs[id].createdAt < dueAt) {
          return Ok(false);
        }
        ids := ids - {id};
      }
      if run.id in runs {
        return Err(Conflict);
      }
      runs := runs[run.id := run];
      r := Ok(true);
    }

    /** Starts the pending run that was created first, the one with the least id among equals. */
    method ClaimPendingBackupRun(now: int) returns (r: Result<Run, Failure>)
      requires KeyedByID(runs)
      modifies this`runs
      ensures r.Err? ==> r.error == NotFound && runs == old(runs) && forall id :: id in runs ==>
              runs[id].state != Pending
      ensures r.Ok? ==> IsNext(old(runs), r.value.id) && r.value == Started(old(runs)[r.value.id], now)
                        && runs == old(runs)[r.value.id := r.value]
    {
      var ids, selected := runs.Keys, "";
      var found := false;
      while ids != {}
        invariant ids <= runs.Keys && runs == old(runs)
        invariant !found ==> forall id :: id in runs && id !in ids ==> runs[id].state != Pending
        invariant found ==> selected in runs && selected !in ids && runs[selected].state == Pending
        invariant found ==> forall id :: id in runs && id !in ids && id != selected && runs[id].state == Pending ==>
                  Before(runs[selected], runs[id])
      {
        var id :| id in ids;
        ids := ids - {id};
        if runs[id].state != Pending {
          continue;
        }
        if !found || Before(runs[id], runs[selected]) {
          forall j | found && j in runs && j !in ids && j != id && runs[j].state == Pending
            ensures Before(runs[id], runs[j]) {
            if j != selected { BeforeTransitive(runs[id], runs[selected], runs[j]); }
          }
          selected, found := id, true;
        } else {
          StringLessTotal(runs[id].id, runs[selected].id);
        }
      }
      if !found {
        return Err(NotFound);
      }
      runs := runs[selected := Started(runs[selected], now)];
      r := Ok(runs[selected]);
    }

    method UpdateBackupRun(run: Run) returns (r: Result<(), Failure>)
      modifies this`runs
      ensures (runs, r) == Put(old(runs), run)
    {
      if run.id !in runs {
        return Err(NotFound);
      }
      if runs[run.id].targetID != run.targetID {
        return Err(Invalid);
      }
      runs := runs[run.id := run];
      r := Ok(());
    }

    method TryAcquireBackupOperation() returns (acquired: bool)
      modifies this`leased
      ensures acquired == !old(leased) && leased
    {
      acquired := !leased;
      leased := true;
    }

    method ReleaseBackupOperation()
      modifies this`leased
      ensures !leased
    {
      leased := false;
    }
  }
}
