/** Scheduled backup runs: RunOnce of backend/internal/backup/scheduler.go, by competing schedulers
    whose reads may be stale, over schedules given by their next tick. */
module BackupScheduler {
  import opened Wrappers
  import opened BackupStore
  import opened Text

  /** The first tick after a time, if there is one. */
  type Schedule = int -> Option<int>

  /** The schedule that a text means. */
  type Parser = string -> Option<Schedule>

  /** The next tick lies after its argument, and is the next tick for every time before it. */
  ghost predicate Ticks(next: Schedule) {
    && (forall t :: next(t).Some? ==> next(t).value > t)
    && (forall t, u :: t <= u && next(t).Some? && u < next(t).value ==> next(u) == next(t))
  }

  /** The time the next tick is counted from: the creation of the target, or of its latest run. */
  ghost predicate IsAnchor(runs: Runs, target: Target, anchor: int) {
    && anchor >= target.createdAt
    && (forall id :: id in runs && runs[id].targetID == target.id ==> runs[id].createdAt <= anchor)
    && (anchor == target.createdAt
      || exists id :: id in runs && runs[id].targetID == target.id && runs[id].createdAt == anchor)
  }

  lemma AnchorIsUnique(runs: Runs, target: Target, a: int, b: int)
    requires IsAnchor(runs, target, a) && IsAnchor(runs, target, b)
    ensures a == b
  {
  }

  lemma {:induction false} AnchorExists(runs: Runs, target: Target) returns (anchor: int)
    ensures IsAnchor(runs, target, anchor)
    decreases |runs|
  {
    if runs == map[] {
      anchor := target.createdAt;
    } else {
      var id :| id in runs;
      assert |(runs - {id}).Keys| < |runs.Keys| by { assert (runs - {id}).Keys == runs.Keys - {id}; }
      anchor := AnchorExists(runs - {id}, target);
      assert forall j :: j in runs && j != id ==> j in runs - {id} && (runs - {id})[j] == runs[j];
      if runs[id].targetID == target.id && runs[id].createdAt > anchor { anchor := runs[id].createdAt; }
    }
  }

  ghost function AnchorOf(runs: Runs, target: Target): (anchor: int)
    ensures IsAnchor(runs, target, anchor)
  {
    assert exists a :: IsAnchor(runs, target, a) by { var a := AnchorExists(runs, target); }
    var anchor :| IsAnchor(runs, target, anchor);
    anchor
  }

  // ---------------------------------------------------------------- one scheduler, undisturbed

  /** The source reads the latest run as the first of a list sorted by creation time. */
  method Anchor(repository: Repository, target: Target) returns (anchor: int)
    ensures anchor == AnchorOf(repository.runs, target)
  {
    anchor := target.createdAt;
    var ids := repository.runs.Keys;
    while ids != {}
      invariant ids <= repository.runs.Keys && anchor >= target.createdAt
      invariant forall id :: id in repository.runs && id !in ids && repository.runs[id].targetID == target.id ==>
                repository.runs[id].createdAt <= anchor
      invariant anchor == target.createdAt
                || exists id :: id in repository.runs && repository.runs[id].targetID == target.id
                    && repository.runs[id].createdAt == anchor
    {
      var id :| id in ids;
      if repository.runs[id].targetID == target.id && repository.runs[id].createdAt > anchor {
        anchor := repository.runs[id].createdAt;
      }
      ids := ids - {id};
    }
    AnchorIsUnique(repository.runs, target, anchor, AnchorOf(repository.runs, target));
  }

  function PendingRun(id: string, targetID: string, now: int): Run {
    Run(id, targetID, Pending, now, None, None, "", "", 0, "")
  }

  /** What a pass does for one target; `id` is missing when none could be drawn. */
  ghost function ScheduleOne(table: map<string, Target>, runs: Runs, target: Target,
      parse: Parser, id: Option<string>, now: int): (Runs, bool) {
    if !target.enabled || Blank(target.schedule) then (runs, true)
    else if parse(target.schedule).None? then (runs, false)
    else
      var dueAt := parse(target.schedule).value(AnchorOf(runs, target));
      if dueAt.None? || dueAt.value > now then (runs, true)
      else if id.None? then (runs, false)
      else
        var (runs', r) := CreateScheduled(table, runs, PendingRun(id.value, target.id, now), dueAt.value);
        (runs', r.Ok?)
  }

  /** What a pass does, and how many targets it collects an error for. */
  ghost function Pass(table: map<string, Target>, runs: Runs, targets: seq<Target>, parse: Parser,
      newID: nat -> Option<string>, now: int): (Runs, nat)
    decreases |targets|
  {
    if targets == [] then (runs, 0)
    else
      var n := |targets| - 1;
      var (runs1, errors) := Pass(table, runs, targets[..n], parse, newID, now);
      var (runs2, ok) := ScheduleOne(table, runs1, targets[n], parse, newID(n), now);
      (runs2, errors + if ok then 0 else 1)
  }

  /** The body of the loop over the targets. */
  method ScheduleTarget(repository: Repository, target: Target, parse: Parser, id: Option<string>, now: int)
      returns (ok: bool)
    modifies repository`runs
    ensures (repository.runs, ok) == ScheduleOne(repository.targets, old(repository.runs), target, parse, id, now)
  {
    if !target.enabled || Blank(target.schedule) {
      return true;
    }
    var schedule := parse(target.schedule);
    if schedule.None? {
      return false;
    }
    var anchor := Anchor(repository, target);
    var dueAt := schedule.value(anchor);
    if dueAt.None? || dueAt.value > now {
      return true;
    }
    if id.None? {
      return false;
    }
    var created := repository.CreateScheduledBackupRun(PendingRun(id.value, target.id, now), dueAt.value);
    ok := created.Ok?;
  }

  const PAGE_SIZE: nat := 500

  /** A page of a listing; the store serves at most as many items as the scheduler asks for. */
  function Page(stored: seq<Target>, offset: nat, limit: nat): seq<Target> {
    if offset >= |stored| then []
    else if offset + limit > |stored| then stored[offset..]
    else stored[offset..offset + limit]
  }

  /** All targets, page by page. */
  method ListTargets(stored: seq<Target>) returns (targets: seq<Target>)
    ensures targets == stored
  {
    targets := [];
    var offset := 0;
    while true
      invariant offset <= |stored| && targets == stored[..offset]
      decreases |stored| - offset
    {
      var page := Page(stored, offset, PAGE_SIZE);
      targets := targets + page;
      if |page| < PAGE_SIZE {
        return;
      }
      offset := offset + PAGE_SIZE;
    }
  }

  /** An error of one target does not stop the pass. */
  method RunOnce(repository: Repository, stored: seq<Target>, parse: Parser, newID: nat -> Option<string>, now: int)
      returns (errors: nat)
    modifies repository`runs
    ensures (repository.runs, errors) == Pass(repository.targets, old(repository.runs), stored, parse, newID, now)
  {
    var targets := ListTargets(stored);
    errors := 0;
    hide ScheduleOne;
    for i := 0 to |targets|
      invariant (repository.runs, errors)
                == Pass(repository.targets, old(repository.runs), targets[..i], parse, newID, now)
    {
      assert targets[..i + 1][..i] == targets[..i];
      var ok := ScheduleTarget(repository, targets[i], parse, newID(i), now);
      if !ok {
        errors := errors + 1;
      }
    }
    assert targets[..|targets|] == targets;
  }

  /** The target is enabled and its next tick after its latest run has come. */
  ghost predicate Due(runs: Runs, target: Target, parse: Parser, now: int) {
    && target.enabled && !Blank(target.schedule) && parse(target.schedule).Some?
    && var due := parse(target.schedule).value(AnchorOf(runs, target));
       due.Some? && due.value <= now
  }

  /** Undisturbed, a target gets a run exactly when it is due, none of its runs is active, and an unused
      id could be drawn: the guard on creation times never refuses a fresh read. It is an error if the
      schedule does not parse, or if a due target without active run gets none. */
  lemma ScheduledIffDue(table: map<string, Target>, runs: Runs, target: Target, parse: Parser, id: Option<string>,
      now: int)
    requires parse(target.schedule).Some? ==> Ticks(parse(target.schedule).value)
    ensures var (runs', ok) := ScheduleOne(table, runs, target, parse, id, now);
            var due, free := Due(runs, target, parse, now), id.Some? && id.value !in runs && target.id in table;
            && runs' == (if due && free && !HasActive(runs, target.id)
              then runs[id.value := PendingRun(id.value, target.id, now)] else runs)
            && (ok <==>
                  && (target.enabled && !Blank(target.schedule) ==> parse(target.schedule).Some?)
                  && (due ==> id.Some? && target.id in table && (HasActive(runs, target.id) || id.value !in runs)))
  {
    if parse(target.schedule).Some? {
      var anchor, due := AnchorOf(runs, target), parse(target.schedule).value(AnchorOf(runs, target));
      if due.Some? {
        assert due.value > anchor;
        assert !HasSince(runs, target.id, due.value);
      }
    }
  }

  // ---------------------------------------------------------------- competing schedulers

  type Thread = nat

  /** A scheduler that has read its target and the runs, and is about to insert. */
  datatype Plan = Plan(target: Target, anchor: int, dueAt: int, now: int)

  /** Each scheduled insertion of a target, with its due time and its creation time. */
  datatype Insertion = Insertion(dueAt: int, createdAt: int)

  datatype World = World(
    targets: map<string, Target>, runs: Runs, plans: map<Thread, Plan>, inserted: map<string, seq<Insertion>>)

  datatype Event =
    | Read(t: Thread, target: Target, anchor: int, now: int)
    | Insert(t: Thread, id: string)
    | Request(run: Run)
    | Progress(run: Run)
    | Configure(targets: map<string, Target>)

  function Log(w: World, targetID: string): seq<Insertion> {
    if targetID in w.inserted then w.inserted[targetID] else []
  }

  /** Administration adds and edits targets; it keeps their creation times. */
  predicate Edited(targets: map<string, Target>, targets': map<string, Target>) {
    forall id :: id in targets ==> id in targets' && targets'[id].createdAt == targets[id].createdAt
  }

  /** A pass lists the targets first and reads the runs of each later, so a read may be of a target as it
      was before an edit; what the latest run is, it reads at that moment. */
  ghost predicate Enabled(w: World, e: Event) {
    match e
    case Read(t, target, anchor, now) =>
      target.id in w.targets && w.targets[target.id].createdAt == target.createdAt && IsAnchor(w.runs, target, anchor)
    case Insert(t, id) => t in w.plans
    case Request(run) => true
    case Progress(run) => run.id in w.runs && w.runs[run.id].createdAt == run.createdAt
    case Configure(targets) => Edited(w.targets, targets)
  }

  ghost predicate PlansRun(parse: Parser, target: Target, anchor: int, now: int) {
    && target.enabled && !Blank(target.schedule) && parse(target.schedule).Some?
    && parse(target.schedule).value(anchor).Some? && parse(target.schedule).value(anchor).value <= now
  }

  /** A scheduler reads, and later inserts; manual requests create runs, workers move them on, and
      administrators change enablement and schedules. */
  ghost function Step(w: World, parse: Parser, e: Event): World
    requires Enabled(w, e)
  {
    match e
    case Read(t, target, anchor, now) =>
      if PlansRun(parse, target, anchor, now)
      then w.(plans := w.plans[t := Plan(target, anchor, parse(target.schedule).value(anchor).value, now)])
      else w.(plans := w.plans - {t})
    case Insert(t, id) =>
      var p := w.plans[t];
      var (runs, r) := CreateScheduled(w.targets, w.runs, PendingRun(id, p.target.id, p.now), p.dueAt);
      World(w.targets, runs, w.plans - {t},
            if r == Ok(true) then w.inserted[p.target.id := Log(w, p.target.id) + [Insertion(p.dueAt, p.now)]]
              else w.inserted)
    case Request(run) => w.(runs := Create(w.targets, w.runs, run).0)
    case Progress(run) => w.(runs := Put(w.runs, run).0)
    case Configure(targets) => w.(targets := targets)
  }

  predicate DueTimesIncrease(log: seq<Insertion>) {
    && (forall i, j :: 0 <= i < j < |log| ==> log[i].dueAt < log[j].dueAt)
    && (forall i :: 0 <= i < |log| ==> log[i].dueAt <= log[i].createdAt)
  }

  /** The runs created by the insertions of the log are still there. */
  ghost predicate LogOK(w: World, targetID: string) {
    && DueTimesIncrease(Log(w, targetID))
    && (Log(w, targetID) != [] ==> HasSince(w.runs, targetID, Log(w, targetID)[|Log(w, targetID)| - 1].createdAt))
  }

  /** A plan counts from an anchor that was right once: later runs of the target can only be later. */
  ghost predicate PlanOK(w: World, parse: Parser, p: Plan) {
    && PlansRun(parse, p.target, p.anchor, p.now) && parse(p.target.schedule).value(p.anchor) == Some(p.dueAt)
    && p.target.createdAt <= p.anchor && (p.anchor == p.target.createdAt || HasSince(w.runs, p.target.id, p.anchor))
  }

  ghost predicate Inv(w: World, parse: Parser) {
    && (forall targetID :: LogOK(w, targetID))
    && (forall t :: t in w.plans ==> PlanOK(w, parse, w.plans[t]))
    && KeyedByID(w.runs)
  }

  /** Runs stay, with their target and creation time. */
  predicate Extends(runs: Runs, runs': Runs) {
    forall id :: id in runs ==>
      id in runs' && runs'[id].targetID == runs[id].targetID && runs'[id].createdAt == runs[id].createdAt
  }

  lemma HasSinceStays(runs: Runs, runs': Runs, targetID: string, time: int)
    requires Extends(runs, runs') && HasSince(runs, targetID, time)
    ensures HasSince(runs', targetID, time)
  {
    var id :| id in runs && runs[id].targetID == targetID && runs[id].createdAt >= time;
    assert id in runs';
  }

  lemma StepExtends(w: World, parse: Parser, e: Event)
    requires Inv(w, parse) && Enabled(w, e)
    ensures Extends(w.runs, Step(w, parse, e).runs) && KeyedByID(Step(w, parse, e).runs)
  {
    hide LogOK, PlanOK, PlansRun, HasActive, HasSince, AnchorOf, IsAnchor;
  }

  ghost predicate Inserts(w: World, t: Thread, id: string)
    requires t in w.plans
  {
    var p := w.plans[t];
    CreateScheduled(w.targets, w.runs, PendingRun(id, p.target.id, p.now), p.dueAt).1 == Ok(true)
  }

  /** An inserted run is due later than every run inserted before. */
  lemma InsertIsLater(w: World, parse: Parser, t: Thread, id: string)
    requires Inv(w, parse) && t in w.plans && Inserts(w, t, id)
    ensures var p := w.plans[t];
            DueTimesIncrease(Log(w, p.target.id) + [Insertion(p.dueAt, p.now)])
  {
    var p, log := w.plans[t], Log(w, w.plans[t].target.id);
    assert PlanOK(w, parse, p) && LogOK(w, p.target.id);
    assert !HasSince(w.runs, p.target.id, p.dueAt);
    hide Inv, HasActive, Inserts, AnchorOf, IsAnchor;
    if log != [] {
      var last := log[|log| - 1];
      var j :| j in w.runs && w.runs[j].targetID == p.target.id && w.runs[j].createdAt >= last.createdAt;
      assert last.dueAt <= last.createdAt < p.dueAt;
    }
  }

  /** Its due time is the one that a fresh read computes. */
  lemma InsertIsFresh(w: World, parse: Parser, t: Thread, id: string)
    requires Inv(w, parse) && t in w.plans && Inserts(w, t, id)
    requires var schedule := w.plans[t].target.schedule; parse(schedule).Some? ==> Ticks(parse(schedule).value)
    ensures var p := w.plans[t];
            parse(p.target.schedule).Some?
              && parse(p.target.schedule).value(AnchorOf(w.runs, p.target)) == Some(p.dueAt)
  {
    var p := w.plans[t];
    assert PlanOK(w, parse, p);
    assert !HasSince(w.runs, p.target.id, p.dueAt);
    var anchor := AnchorOf(w.runs, p.target);
    assert p.anchor <= anchor < p.dueAt by {
      if HasSince(w.runs, p.target.id, p.anchor) {
        var j :| j in w.runs && w.runs[j].targetID == p.target.id && w.runs[j].createdAt >= p.anchor;
      }
    }
  }

  lemma StepKeeps(w: World, parse: Parser, e: Event)
    requires Inv(w, parse) && Enabled(w, e)
    ensures Inv(Step(w, parse, e), parse)
  {
    var w' := Step(w, parse, e);
    StepExtends(w, parse, e);
    forall targetID ensures LogOK(w', targetID) {
      LogStays(w, parse, e, targetID);
    }
    forall t | t in w'.plans ensures PlanOK(w', parse, w'.plans[t]) {
      PlanStays(w, parse, e, t);
    }
    hide Step, Enabled;
  }

  lemma LogGrows(w: World, parse: Parser, t: Thread, id: string)
    requires Inv(w, parse) && t in w.plans && Inserts(w, t, id)
    ensures LogOK(Step(w, parse, Insert(t, id)), w.plans[t].target.id)
  {
    var p, w' := w.plans[t], Step(w, parse, Insert(t, id));
    InsertIsLater(w, parse, t, id);
    assert w'.runs == w.runs[id := PendingRun(id, p.target.id, p.now)];
    assert Log(w', p.target.id) == Log(w, p.target.id) + [Insertion(p.dueAt, p.now)];
    hide Inv, Step, DueTimesIncrease, CreateScheduled, Log;
    assert w'.runs[id].createdAt >= p.now;
  }

  lemma SameLogStays(w: World, w': World, targetID: string)
    requires LogOK(w, targetID) && Extends(w.runs, w'.runs) && Log(w', targetID) == Log(w, targetID)
    ensures LogOK(w', targetID)
  {
    hide DueTimesIncrease, Extends, HasSince;
    var log := Log(w, targetID);
    if log != [] { HasSinceStays(w.runs, w'.runs, targetID, log[|log| - 1].createdAt); }
  }

  /** A log changes by a successful insertion only. */
  lemma LogChanges(w: World, parse: Parser, e: Event, targetID: string)
    requires Enabled(w, e) && Log(Step(w, parse, e), targetID) != Log(w, targetID)
    ensures e.Insert? && Inserts(w, e.t, e.id) && w.plans[e.t].target.id == targetID
  {
    hide CreateScheduled, PlansRun, IsAnchor, HasActive;
  }

  lemma LogStays(w: World, parse: Parser, e: Event, targetID: string)
    requires Inv(w, parse) && Enabled(w, e)
    ensures LogOK(Step(w, parse, e), targetID)
  {
    assert LogOK(w, targetID);
    StepExtends(w, parse, e);
    if Log(Step(w, parse, e), targetID) == Log(w, targetID) {
      SameLogStays(w, Step(w, parse, e), targetID);
    } else {
      LogChanges(w, parse, e, targetID);
      LogGrows(w, parse, e.t, e.id);
    }
    hide Inv, Step, LogOK, Log, Inserts, Extends;
  }

  lemma PlanStays(w: World, parse: Parser, e: Event, t: Thread)
    requires Inv(w, parse) && Enabled(w, e) && t in Step(w, parse, e).plans
    ensures PlanOK(Step(w, parse, e), parse, Step(w, parse, e).plans[t])
  {
    hide LogOK, HasActive, KeyedByID, CreateScheduled, DueTimesIncrease;
    var w' := Step(w, parse, e);
    var p := w'.plans[t];
    StepExtends(w, parse, e);
    hide Extends;
    if t in w.plans && p == w.plans[t] {
      assert PlanOK(w, parse, p);
      if HasSince(w.runs, p.target.id, p.anchor) { HasSinceStays(w.runs, w'.runs, p.target.id, p.anchor); }
    } else {
      assert e.Read? && e.t == t;
      if p.anchor != p.target.createdAt {
        var id :| id in w.runs && w.runs[id].targetID == p.target.id && w.runs[id].createdAt == p.anchor;
      }
    }
  }

  ghost predicate Start(w: World) {
    w.plans == map[] && w.inserted == map[] && KeyedByID(w.runs)
  }

  ghost function After(w: World, parse: Parser, events: seq<Event>): Option<World>
    decreases |events|
  {
    if events == [] then Some(w)
    else
      var before := After(w, parse, events[..|events| - 1]);
      if before.None? || !Enabled(before.value, events[|events| - 1]) then None
      else Some(Step(before.value, parse, events[|events| - 1]))
  }

  lemma {:induction false} RunKeeps(w: World, parse: Parser, events: seq<Event>)
    requires Start(w) && After(w, parse, events).Some?
    ensures Inv(After(w, parse, events).value, parse)
    decreases |events|
  {
    if events != [] {
      RunKeeps(w, parse, events[..|events| - 1]);
      StepKeeps(After(w, parse, events[..|events| - 1]).value, parse, events[|events| - 1]);
      hide Inv, Step, Enabled;
    }
  }

  /** For any interleaving of schedulers with stale reads, manual requests, workers and edits of the
      targets, and whatever the schedules are: the due times of the scheduled runs of a target strictly
      increase, so no two of them share a tick. */
  lemma OneRunPerTick(w: World, parse: Parser, events: seq<Event>, targetID: string)
    requires Start(w) && After(w, parse, events).Some?
    ensures DueTimesIncrease(Log(After(w, parse, events).value, targetID))
  {
    RunKeeps(w, parse, events);
    assert LogOK(After(w, parse, events).value, targetID);
    hide After;
  }

  /** However stale the read of a scheduler was, what it inserts is due at the time that a read just
      before the insertion computes with the schedule that it has read. */
  lemma StaleReadsInsertFreshTicks(w: World, parse: Parser, events: seq<Event>, t: Thread, id: string)
    requires Start(w) && After(w, parse, events).Some? && t in After(w, parse, events).value.plans
    requires var schedule := After(w, parse, events).value.plans[t].target.schedule;
             parse(schedule).Some? ==> Ticks(parse(schedule).value)
    ensures var now := After(w, parse, events).value;
            var p := now.plans[t];
            Inserts(now, t, id) ==>
              parse(p.target.schedule).Some?
                && parse(p.target.schedule).value(AnchorOf(now.runs, p.target)) == Some(p.dueAt)
  {
    RunKeeps(w, parse, events);
    var now := After(w, parse, events).value;
    hide After;
    if Inserts(now, t, id) {
      InsertIsFresh(now, parse, t, id);
    }
  }
}
