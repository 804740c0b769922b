/** The backup operation lease over whole runs: workers, restores, manual requests and schedulers of
    backend/internal/backup/worker.go, backend/internal/backup/service.go and
    backend/internal/service/backups.go as interleaved steps, with status writes that succeed. */
module BackupLease {
  import opened Wrappers
  import opened BackupStore
  import Text

  type Thread = nat

  /** What a thread does that has acquired the lease. */
  datatype Phase =
    | Claiming
    | Working(run: Run)
    | Checking
    | Restoring
    | Queueing
    | Leaving

  datatype Role = AsWorker | AsRestore | AsQueue

  datatype World = World(
    targets: map<string, Target>, runs: Runs, lease: Option<Thread>, phases: map<Thread, Phase>, acquired: nat,
      released: nat)

  datatype Ending = Success(objectKey: string, checksum: string, size: nat) | Failure(error: string)

  datatype Event =
    | TryAcquire(t: Thread, role: Role)
    | Claim(t: Thread, now: int)
    | Finish(t: Thread, ending: Ending, now: int)
    | StartRestore(t: Thread, runID: string, opens: bool)
    | EndRestore(t: Thread)
    | Queue(t: Thread, run: Run)
    | Release(t: Thread)
    | Schedule(run: Run, dueAt: int)
    | ConfigureTargets(targets: map<string, Target>)

  predicate Enabled(w: World, e: Event) {
    match e
    case TryAcquire(t, _) => t !in w.phases
    case Claim(t, _) => t in w.phases && w.phases[t] == Claiming
    case Finish(t, _, _) => t in w.phases && w.phases[t].Working?
    case StartRestore(t, _, _) => t in w.phases && w.phases[t] == Checking
    case EndRestore(t) => t in w.phases && w.phases[t] == Restoring
    case Queue(t, run) => t in w.phases && w.phases[t] == Queueing && run.state == Pending
    case Release(t) => t in w.phases && w.phases[t] == Leaving
    case Schedule(run, _) => run.state == Pending
    case ConfigureTargets(_) => true
  }

  function Ended(run: Run, ending: Ending, now: int): Run {
    match ending
    case Success(objectKey, checksum, size) =>
      run.(state := Succeeded, objectKey := objectKey, checksum := checksum, size := size, finishedAt := Some(now))
    case Failure(error) => run.(state := Failed, error := error, finishedAt := Some(now))
  }

  predicate Restorable(runs: Runs, id: string) {
    id in runs && runs[id].state == Succeeded && !Text.Blank(runs[id].objectKey) && !Text.Blank(runs[id].checksum)
  }

  function FirstPhase(role: Role): Phase {
    match role case AsWorker => Claiming case AsRestore => Checking case AsQueue => Queueing
  }

  ghost function Step(w: World, e: Event): World
    requires Enabled(w, e)
  {
    match e
    case TryAcquire(t, role) =>
      if w.lease.Some? then w
      else w.(lease := Some(t), phases := w.phases[t := FirstPhase(role)], acquired := w.acquired + 1)
    case Claim(t, now) =>
      if exists id :: IsNext(w.runs, id) then
        var id :| IsNext(w.runs, id);
        w.(runs := w.runs[id := Started(w.runs[id], now)], phases := w.phases[t := Working(Started(w.runs[id], now))])
      else w.(phases := w.phases[t := Leaving])
    case Finish(t, ending, now) =>
      w.(runs := Put(w.runs, Ended(w.phases[t].run, ending, now)).0, phases := w.phases[t := Leaving])
    case StartRestore(t, runID, opens) =>
      w.(phases := w.phases[t := if Restorable(w.runs, runID) && opens then Restoring else Leaving])
    case EndRestore(t) => w.(phases := w.phases[t := Leaving])
    case Queue(t, run) =>
      if run.targetID in w.targets && w.targets[run.targetID].enabled
      then w.(runs := Create(w.targets, w.runs, run).0, phases := w.phases[t := Leaving])
      else w.(phases := w.phases[t := Leaving])
    case Release(t) => w.(lease := None, phases := w.phases - {t}, released := w.released + 1)
    case Schedule(run, dueAt) => w.(runs := CreateScheduled(w.targets, w.runs, run, dueAt).0)
    case ConfigureTargets(targets) => w.(targets := targets)
  }

  // ---------------------------------------------------------------- the invariant

  predicate OneActive(runs: Runs) {
    forall a, b :: a in runs && b in runs && a != b && runs[a].targetID == runs[b].targetID ==>
      !(Active(runs[a]) && Active(runs[b]))
  }

  /** The lease holder is the only thread in an operation. */
  predicate LeaseOK(w: World) {
    && (forall t :: t in w.phases ==> w.lease == Some(t))
    && (w.lease.Some? ==> w.lease.value in w.phases)
    && w.acquired == w.released + if w.lease.Some? then 1 else 0
  }

  /** A run is running exactly while the lease holder works on it. */
  predicate RunningOK(w: World) {
    && (forall id :: id in w.runs && w.runs[id].state == Running ==>
          w.lease.Some? && w.lease.value in w.phases && w.phases[w.lease.value] == Working(w.runs[id]))
    && (forall t :: t in w.phases && w.phases[t].Working? ==>
          w.phases[t].run.state == Running && w.phases[t].run.id in w.runs
            && w.runs[w.phases[t].run.id] == w.phases[t].run)
  }

  predicate Inv(w: World) {
    KeyedByID(w.runs) && OneActive(w.runs) && LeaseOK(w) && RunningOK(w)
  }

  /** While a worker is about to claim, no run is running. */
  lemma NoneRunning(w: World, t: Thread)
    requires LeaseOK(w) && RunningOK(w) && t in w.phases && !w.phases[t].Working?
    ensures forall id :: id in w.runs ==> w.runs[id].state != Running
    ensures w.lease == Some(t) && forall u :: u in w.phases ==> u == t
  {
  }

  lemma ClaimOneKeeps(w: World, t: Thread, id: string, now: int)
    requires Inv(w) && t in w.phases && w.phases[t] == Claiming && IsNext(w.runs, id)
    ensures Inv(w.(runs := w.runs[id := Started(w.runs[id], now)],
            phases := w.phases[t := Working(Started(w.runs[id], now))]))
  {
    NoneRunning(w, t);
    ClaimKeepsRuns(w.runs, id, now);
    hide OneActive, IsNext;
  }

  lemma ClaimKeepsRuns(runs: Runs, id: string, now: int)
    requires KeyedByID(runs) && OneActive(runs) && IsNext(runs, id)
    ensures KeyedByID(runs[id := Started(runs[id], now)]) && OneActive(runs[id := Started(runs[id], now)])
            && runs[id].state == Pending
  {
  }

  lemma ClaimKeeps(w: World, t: Thread, now: int)
    requires Inv(w) && Enabled(w, Claim(t, now))
    ensures Inv(Step(w, Claim(t, now)))
  {
    var w' := Step(w, Claim(t, now));
    if exists id :: IsNext(w.runs, id) {
      var id :| IsNext(w.runs, id)
        && w' == w.(runs := w.runs[id := Started(w.runs[id], now)],
            phases := w.phases[t := Working(Started(w.runs[id], now))]);
      ClaimOneKeeps(w, t, id, now);
    } else {
      NoneRunning(w, t);
    }
    hide IsNext, OneActive, KeyedByID;
  }

  lemma FinishKeeps(w: World, t: Thread, ending: Ending, now: int)
    requires Inv(w) && Enabled(w, Finish(t, ending, now))
    ensures Inv(Step(w, Finish(t, ending, now)))
  {
    var w' := Step(w, Finish(t, ending, now));
    var run := w.phases[t].run;
    assert w.lease == Some(t) && w.runs[run.id] == run;
    assert w'.runs == w.runs[run.id := Ended(run, ending, now)];
    assert forall id :: id in w.runs && w.runs[id].state == Running ==> id == run.id;
  }

  lemma CreateKeeps(w: World, run: Run, runs: Runs)
    requires Inv(w) && run.state == Pending
    requires runs == w.runs || (runs == w.runs[run.id := run] && run.id !in w.runs && !HasActive(w.runs, run.targetID))
    ensures KeyedByID(runs) && OneActive(runs) && RunningOK(w.(runs := runs))
  {
  }

  /** The steps that leave the runs alone. */
  lemma LeaseStepKeeps(w: World, e: Event)
    requires Inv(w) && Enabled(w, e)
    requires e.TryAcquire? || e.StartRestore? || e.EndRestore? || e.Release? || e.ConfigureTargets?
    ensures Inv(Step(w, e))
  {
    hide OneActive, KeyedByID, Restorable;
    if e.StartRestore? || e.EndRestore? || e.Release? { assert w.lease == Some(e.t); }
  }

  lemma QueueKeeps(w: World, t: Thread, run: Run)
    requires Inv(w) && Enabled(w, Queue(t, run))
    ensures Inv(Step(w, Queue(t, run)))
  {
    assert w.lease == Some(t);
    CreateKeeps(w, run, Create(w.targets, w.runs, run).0);
    hide OneActive, KeyedByID, HasActive;
  }

  lemma StepKeeps(w: World, e: Event)
    requires Inv(w) && Enabled(w, e)
    ensures Inv(Step(w, e))
  {
    hide OneActive, KeyedByID, HasActive, HasSince, RunningOK, IsNext;
    match e
    case Claim(t, now) => ClaimKeeps(w, t, now);
    case Finish(t, ending, now) => FinishKeeps(w, t, ending, now);
    case Queue(t, run) => QueueKeeps(w, t, run);
    case Schedule(run, dueAt) => CreateKeeps(w, run, CreateScheduled(w.targets, w.runs, run, dueAt).0);
    case _ => LeaseStepKeeps(w, e);
  }

  /** What a step does to a run: nothing, or it claims it first among the pending, or it ends it. */
  ghost predicate StepOf(w: World, e: Event, id: string)
    requires Enabled(w, e) && id in w.runs
  {
    var runs := Step(w, e).runs;
    && id in runs
    && (runs[id] == w.runs[id] || (IsNext(w.runs, id) && runs[id].state == Running) || Finishes(w, e, id))
    && (Finishes(w, e, id) ==> w.runs[id].state == Running && runs[id] == Ended(w.runs[id], e.ending, e.now))
  }

  predicate Finishes(w: World, e: Event, id: string) {
    e.Finish? && e.t in w.phases && w.phases[e.t].Working? && w.phases[e.t].run.id == id
  }

  lemma ClaimOnRun(w: World, e: Event, id: string)
    requires Inv(w) && Enabled(w, e) && id in w.runs && e.Claim?
    ensures StepOf(w, e, id)
  {
    hide Inv;
    if exists next :: IsNext(w.runs, next) {
      var next :| IsNext(w.runs, next) && Step(w, e).runs == w.runs[next := Started(w.runs[next], e.now)];
      hide IsNext;
    }
  }

  lemma FinishOnRun(w: World, e: Event, id: string)
    requires Inv(w) && Enabled(w, e) && id in w.runs && e.Finish?
    ensures StepOf(w, e, id)
  {
    hide IsNext, OneActive;
    assert w.runs[w.phases[e.t].run.id] == w.phases[e.t].run;
  }

  lemma StepOnRun(w: World, e: Event, id: string)
    requires Inv(w) && Enabled(w, e) && id in w.runs
    ensures StepOf(w, e, id)
  {
    hide Inv, IsNext, HasActive, HasSince;
    if e.Claim? {
      ClaimOnRun(w, e, id);
    } else if e.Finish? {
      FinishOnRun(w, e, id);
    }
  }

  /** A new run is pending. */
  lemma StepAdds(w: World, e: Event, id: string)
    requires Inv(w) && Enabled(w, e) && id !in w.runs
    ensures id in Step(w, e).runs ==> Step(w, e).runs[id].state == Pending
    ensures !Finishes(w, e, id)
  {
    if e.Claim? && exists next :: IsNext(w.runs, next) {
      var next :| IsNext(w.runs, next) && Step(w, e).runs == w.runs[next := Started(w.runs[next], e.now)];
    } else if e.Finish? {
      assert w.runs[w.phases[e.t].run.id] == w.phases[e.t].run;
    }
    hide IsNext;
  }

  // ---------------------------------------------------------------- whole runs

  predicate Start(w: World) {
    w.runs == map[] && w.lease == None && w.phases == map[] && w.acquired == 0 && w.released == 0
  }

  ghost function After(w: World, events: seq<Event>): Option<World>
    decreases |events|
  {
    if events == [] then Some(w)
    else
      var before := After(w, events[..|events| - 1]);
      if before.None? || !Enabled(before.value, events[|events| - 1]) then None
        else Some(Step(before.value, events[|events| - 1]))
  }

  lemma {:induction false} RunKeeps(w: World, events: seq<Event>)
    requires Inv(w) && After(w, events).Some?
    ensures Inv(After(w, events).value)
    decreases |events|
  {
    if events != [] {
      RunKeeps(w, events[..|events| - 1]);
      StepKeeps(After(w, events[..|events| - 1]).value, events[|events| - 1]);
      hide Step, Enabled, Inv;
    }
  }

  /** Lease safety over all interleavings: a target has at most one active run; a run is running only
      while the holder of the lease works on it, so none is while the lease is free or held by a
      restore; every lease acquired was released once, but for the one that is held. */
  lemma LeaseSafety(w: World, events: seq<Event>)
    requires Start(w) && After(w, events).Some?
    ensures var end := After(w, events).value;
            && OneActive(end.runs)
            && end.acquired == end.released + (if end.lease.Some? then 1 else 0)
            && ((end.lease.None? || (end.lease.value in end.phases
              && end.phases[end.lease.value] in {Checking, Restoring})) ==>
                  forall id :: id in end.runs ==> end.runs[id].state != Running)
            && (forall t, u :: t in end.phases && u in end.phases ==> t == u)
  {
    RunKeeps(w, events);
    hide After;
  }

  /** Runs that have ended stay as they are, whatever happens later. */
  lemma {:induction false} EndedForGood(w: World, later: seq<Event>, id: string)
    requires Inv(w) && After(w, later).Some? && id in w.runs && Terminal(w.runs[id])
    ensures id in After(w, later).value.runs && After(w, later).value.runs[id] == w.runs[id]
    decreases |later|
  {
    if later != [] {
      var before := After(w, later[..|later| - 1]).value;
      RunKeeps(w, later[..|later| - 1]);
      EndedForGood(w, later[..|later| - 1], id);
      StepOnRun(before, later[|later| - 1], id);
      hide Step, Enabled, Inv;
    }
  }

  /** Claims keep the order of the queue: while a pending run waits, no pending run after it is claimed. */
  lemma {:induction false} ClaimsInOrder(w: World, later: seq<Event>, a: string, b: string)
    requires Inv(w) && After(w, later).Some? && a in w.runs && b in w.runs
    requires w.runs[a].state == Pending && w.runs[b].state == Pending && Before(w.runs[a], w.runs[b])
    ensures var end := After(w, later).value;
            && a in end.runs && b in end.runs
            && (end.runs[a].state == Pending ==> end.runs[a] == w.runs[a] && end.runs[b] == w.runs[b])
    decreases |later|
  {
    if later != [] {
      var before, e := After(w, later[..|later| - 1]).value, later[|later| - 1];
      RunKeeps(w, later[..|later| - 1]);
      ClaimsInOrder(w, later[..|later| - 1], a, b);
      StepOnRun(before, e, a);
      StepOnRun(before, e, b);
      hide Step, Enabled, Inv, StringLess, After;
      StringLessTotal(w.runs[a].id, w.runs[b].id);
    }
  }

  /** How a run was ended, once for each time. */
  ghost function Endings(w: World, events: seq<Event>, id: string): seq<Ending>
    requires After(w, events).Some?
    decreases |events|
  {
    if events == [] then []
    else
      var before, e := After(w, events[..|events| - 1]).value, events[|events| - 1];
      Endings(w, events[..|events| - 1], id) + if Finishes(before, e, id) then [e.ending] else []
  }

  predicate HasSnapshot(ending: Ending) {
    ending.Success? && !Text.Blank(ending.objectKey) && !Text.Blank(ending.checksum)
  }

  /** What a run tells of how it was ended. */
  predicate Records(run: Run, ending: Ending) {
    match ending
    case Success(objectKey, checksum, size) =>
      run.state == Succeeded && run.objectKey == objectKey && run.checksum == checksum && run.size == size
    case Failure(error) => run.state == Failed && run.error == error
  }

  ghost predicate EndedAsRecorded(runs: Runs, id: string, endings: seq<Ending>) {
    && |endings| <= 1
    && (endings != [] <==> id in runs && Terminal(runs[id]))
    && (endings != [] ==> Records(runs[id], endings[0]))
  }

  lemma {:induction false} EndsOnce(w: World, events: seq<Event>, id: string)
    requires Start(w) && After(w, events).Some?
    ensures EndedAsRecorded(After(w, events).value.runs, id, Endings(w, events, id))
    decreases |events|
  {
    if events != [] {
      var before, e := After(w, events[..|events| - 1]).value, events[|events| - 1];
      EndsOnce(w, events[..|events| - 1], id);
      RunKeeps(w, events[..|events| - 1]);
      if id in before.runs { StepOnRun(before, e, id); } else { StepAdds(before, e, id); }
      hide Step, Enabled, Inv, Finishes, IsNext;
    }
  }

  /** Over all interleavings a run ends at most once, as it was finished, and it can be restored exactly
      if that one time was a success with an object and its checksum. */
  lemma RestorableIffSucceeded(w: World, events: seq<Event>, id: string)
    requires Start(w) && After(w, events).Some?
    ensures var runs, endings := After(w, events).value.runs, Endings(w, events, id);
            && |endings| <= 1
            && (endings != [] <==> id in runs && Terminal(runs[id]))
            && (Restorable(runs, id) <==> endings != [] && HasSnapshot(endings[0]))
            && (Restorable(runs, id) ==> Records(runs[id], endings[0]))
  {
    EndsOnce(w, events, id);
    hide After, Endings;
  }

  // ---------------------------------------------------------------- the worker in place

  /** What the engine makes of a run: opening the store, the snapshot, the upload. */
  type Engine = Run -> Ending

  /** ProcessNext: it does nothing while the lease is held or nothing is pending; otherwise the pending
      run that comes first ends, in success only if its target is enabled and the engine succeeds, no
      other run changes, and the lease is free again. */
  method ProcessNext(repository: Repository, engine: Engine, startedAt: int, finishedAt: int)
      returns (processed: bool, ghost claimed: string)
    requires KeyedByID(repository.runs)
    modifies repository`runs, repository`leased
    ensures repository.leased == old(repository.leased)
    ensures processed <==> !old(repository.leased) && exists id :: IsNext(old(repository.runs), id)
    ensures !processed ==> repository.runs == old(repository.runs)
    ensures processed ==>
              && IsNext(old(repository.runs), claimed)
              && var started := Started(old(repository.runs)[claimed], startedAt);
                 repository.runs == old(repository.runs)[claimed := Ended(started,
                   if started.targetID !in repository.targets then Failure("target not found")
                   else if !repository.targets[started.targetID].enabled then Failure("target is disabled")
                   else engine(started), finishedAt)]
  {
    claimed := "";
    var acquired := repository.TryAcquireBackupOperation();
    if !acquired {
      return false, claimed;
    }
    var claim := repository.ClaimPendingBackupRun(startedAt);
    if claim.Err? {
      repository.ReleaseBackupOperation();
      return false, claimed;
    }
    var run := claim.value;
    claimed := run.id;
    var ending: Ending;
    if run.targetID !in repository.targets {
      ending := Failure("target not found");
    } else if !repository.targets[run.targetID].enabled {
      ending := Failure("target is disabled");
    } else {
      ending := engine(run);
    }
    var _ := repository.UpdateBackupRun(Ended(run, ending, finishedAt));
    repository.ReleaseBackupOperation();
    processed := true;
  }
}
