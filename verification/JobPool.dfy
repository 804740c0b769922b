/** The bounded pool of refresh jobs: runRefreshJobs of
    backend/internal/service/credential_refresh_worker.go, as the interleaved steps of a sender, of
    workers on an unbuffered channel, and of a cancellation at any point. */
module JobPool {

  /** Where a worker is: before the check of its loop, in its select, at a job, or gone. */
  datatype Phase = AtCheck | AtSelect | Working(job: nat) | Gone

  /** `next` is the job the sender offers; `handed` are the workers that got jobs 0, 1, 2 and so on. */
  datatype Pool = Pool(next: nat, closed: bool, cancelled: bool, workers: seq<Phase>, handed: seq<nat>, done: set<nat>,
      errors: seq<nat>)

  datatype Event =
    | Check(w: nat)
    | HandOff(w: nat)
    | SeeCancel(w: nat)
    | SeeClosed(w: nat)
    | Finish(w: nat)
    | Break
    | Close
    | Cancel

  function Start(jobs: nat, concurrency: nat): Pool {
    Pool(0, false, false, seq(if concurrency > jobs then jobs else concurrency, i => AtCheck), [], {}, [])
  }

  predicate At(p: Pool, w: nat, phase: Phase) {
    w < |p.workers| && p.workers[w] == phase
  }

  predicate Enabled(jobs: nat, p: Pool, e: Event) {
    match e
    case Check(w) => At(p, w, AtCheck)
    case HandOff(w) => At(p, w, AtSelect) && !p.closed && p.next < jobs
    case SeeCancel(w) => At(p, w, AtSelect) && p.cancelled
    case SeeClosed(w) => At(p, w, AtSelect) && p.closed
    case Finish(w) => w < |p.workers| && p.workers[w].Working?
    case Break => !p.closed && p.cancelled && p.next < jobs
    case Close => !p.closed && p.next == jobs
    case Cancel => !p.cancelled
  }

  /** `fails` says which jobs end in an error. */
  function Step(jobs: nat, fails: nat -> bool, p: Pool, e: Event): Pool
    requires Enabled(jobs, p, e)
  {
    match e
    case Check(w) => p.(workers := p.workers[w := if p.cancelled then Gone else AtSelect])
    case HandOff(w) => p.(next := p.next + 1, workers := p.workers[w := Working(p.next)], handed := p.handed + [w])
    case SeeCancel(w) => p.(workers := p.workers[w := Gone])
    case SeeClosed(w) => p.(workers := p.workers[w := Gone])
    case Finish(w) =>
      var job := p.workers[w].job;
      p.(workers := p.workers[w := AtCheck], done := p.done + {job}, errors := p.errors
        + if fails(job) then [job] else [])
    case Break => p.(closed := true)
    case Close => p.(closed := true)
    case Cancel => p.(cancelled := true)
  }

  function Run(jobs: nat, concurrency: nat, fails: nat -> bool, events: seq<Event>): (r: (bool, Pool))
    decreases |events|
  {
    if events == [] then (true, Start(jobs, concurrency))
    else
      var (possible, p) := Run(jobs, concurrency, fails, events[..|events| - 1]);
      if possible && Enabled(jobs, p, events[|events| - 1]) then (true, Step(jobs, fails, p, events[|events| - 1]))
        else (false, p)
  }

  predicate Over(p: Pool) {
    p.closed && forall w :: 0 <= w < |p.workers| ==> p.workers[w] == Gone
  }

  // ---------------------------------------------------------------- the invariant

  /** Each job handed out is at exactly one worker or done, and the jobs handed out are the first ones. */
  predicate JobsOK(jobs: nat, p: Pool) {
    && p.next == |p.handed| <= jobs
    && (forall j :: j in p.done ==> j < p.next)
    && (forall w :: 0 <= w < |p.workers| && p.workers[w].Working? ==>
      p.workers[w].job < p.next && p.workers[w].job !in p.done)
    && (forall v, w :: 0 <= v < w < |p.workers| && p.workers[v].Working? ==> p.workers[v] != p.workers[w])
    && (forall j :: 0 <= j < p.next && j !in p.done ==>
      p.handed[j] < |p.workers| && p.workers[p.handed[j]] == Working(j))
  }

  ghost predicate ErrorsOK(fails: nat -> bool, p: Pool) {
    && (forall j :: j in p.errors <==> j in p.done && fails(j))
    && (forall i, j :: 0 <= i < j < |p.errors| ==> p.errors[i] != p.errors[j])
  }

  /** Without a cancellation the channel is closed after the last job only, and workers leave after that. */
  predicate ClosingOK(jobs: nat, p: Pool) {
    && (p.closed && !p.cancelled ==> p.next == jobs)
    && (!p.closed && !p.cancelled ==> forall w :: 0 <= w < |p.workers| ==> p.workers[w] != Gone)
  }

  ghost predicate Inv(jobs: nat, fails: nat -> bool, p: Pool) {
    JobsOK(jobs, p) && ErrorsOK(fails, p) && ClosingOK(jobs, p)
  }

  lemma StepKeepsJobs(jobs: nat, fails: nat -> bool, p: Pool, e: Event)
    requires JobsOK(jobs, p) && Enabled(jobs, p, e)
    ensures JobsOK(jobs, Step(jobs, fails, p, e))
  {
  }

  lemma StepKeeps(jobs: nat, fails: nat -> bool, p: Pool, e: Event)
    requires Inv(jobs, fails, p) && Enabled(jobs, p, e)
    ensures Inv(jobs, fails, Step(jobs, fails, p, e))
  {
    StepKeepsJobs(jobs, fails, p, e);
    assert ClosingOK(jobs, Step(jobs, fails, p, e));
    if e.Finish? {
      var job := p.workers[e.w].job;
      assert job !in p.done;
      assert forall j :: j in p.errors + [job] <==> j in p.errors || j == job;
      assert p.errors + [] == p.errors;
    }
  }

  lemma {:induction false} RunKeeps(jobs: nat, concurrency: nat, fails: nat -> bool, events: seq<Event>)
    requires Run(jobs, concurrency, fails, events).0
    ensures Inv(jobs, fails, Run(jobs, concurrency, fails, events).1)
    ensures |Run(jobs, concurrency, fails, events).1.workers| == if concurrency > jobs then jobs else concurrency
    decreases |events|
  {
    if events != [] {
      RunKeeps(jobs, concurrency, fails, events[..|events| - 1]);
      StepKeeps(jobs, fails, Run(jobs, concurrency, fails, events[..|events| - 1]).1, events[|events| - 1]);
    }
  }

  // ---------------------------------------------------------------- main results

  /** No job is at two workers, over all interleavings and cancellation points. */
  lemma NoJobTwice(jobs: nat, concurrency: nat, fails: nat -> bool, events: seq<Event>, v: nat, w: nat)
    requires Run(jobs, concurrency, fails, events).0
    requires var p := Run(jobs, concurrency, fails, events).1;
             v < |p.workers| && w < |p.workers| && p.workers[v].Working? && p.workers[v] == p.workers[w]
    ensures v == w
  {
    RunKeeps(jobs, concurrency, fails, events);
    hide Run;
  }

  /** When the pass is over, every job that was handed out has run, its error is collected once if it
      failed, and nothing else is; without a cancellation every job was handed out. */
  lemma OverMeansDone(jobs: nat, concurrency: nat, fails: nat -> bool, events: seq<Event>)
    requires Run(jobs, concurrency, fails, events).0 && Over(Run(jobs, concurrency, fails, events).1)
    ensures var p := Run(jobs, concurrency, fails, events).1;
            && (forall j: nat :: j in p.done <==> j < |p.handed|)
            && (forall j :: j in p.errors <==> j in p.done && fails(j))
            && (forall i, j :: 0 <= i < j < |p.errors| ==> p.errors[i] != p.errors[j])
            && (!p.cancelled ==> |p.handed| == jobs)
  {
    RunKeeps(jobs, concurrency, fails, events);
    var p := Run(jobs, concurrency, fails, events).1;
    hide Run;
    forall j: nat | j < |p.handed| ensures j in p.done {
      var w := p.handed[j];
    }
  }

  /** No deadlock: a pass that is not over can go on without a cancellation. */
  lemma CanGoOn(jobs: nat, concurrency: nat, fails: nat -> bool, events: seq<Event>)
    requires jobs > 0 && concurrency > 0
    requires Run(jobs, concurrency, fails, events).0 && !Over(Run(jobs, concurrency, fails, events).1)
    ensures exists e: Event :: !e.Cancel? && Enabled(jobs, Run(jobs, concurrency, fails, events).1, e)
  {
    RunKeeps(jobs, concurrency, fails, events);
    var p := Run(jobs, concurrency, fails, events).1;
    hide Run;
    if w :| 0 <= w < |p.workers| && p.workers[w] != Gone {
      match p.workers[w]
      case AtCheck => assert Enabled(jobs, p, Check(w));
      case Working(_) => assert Enabled(jobs, p, Finish(w));
      case AtSelect =>
        if p.closed { assert Enabled(jobs, p, SeeClosed(w)); }
        else if p.next < jobs { assert Enabled(jobs, p, HandOff(w)); }
        else { assert Enabled(jobs, p, Close); }
    } else {
      assert p.workers[0] == Gone;
      assert !p.closed && p.cancelled;
      if p.next < jobs { assert Enabled(jobs, p, Break); } else { assert Enabled(jobs, p, Close); }
    }
  }

  function Rank(phase: Phase): nat {
    match phase case Gone => 0 case AtSelect => 1 case AtCheck => 2 case Working(_) => 3
  }

  function Ranks(workers: seq<Phase>): nat {
    if workers == [] then 0 else Rank(workers[0]) + Ranks(workers[1..])
  }

  lemma {:induction false} RanksUpdate(workers: seq<Phase>, w: nat, phase: Phase)
    requires w < |workers|
    ensures Ranks(workers[w := phase]) == Ranks(workers) - Rank(workers[w]) + Rank(phase)
    decreases |workers|
  {
    if w == 0 {
      assert workers[w := phase][1..] == workers[1..];
    } else {
      assert workers[w := phase][1..] == workers[1..][w - 1 := phase];
      RanksUpdate(workers[1..], w - 1, phase);
    }
  }

  /** The steps that a pass can still take at most. */
  function StepsLeft(jobs: nat, p: Pool): int {
    3 * (jobs - p.next) + Ranks(p.workers) + (if p.closed then 0 else 1) + if p.cancelled then 0 else 1
  }

  lemma StepsLeftFalls(jobs: nat, fails: nat -> bool, p: Pool, e: Event)
    requires Enabled(jobs, p, e)
    ensures StepsLeft(jobs, Step(jobs, fails, p, e)) < StepsLeft(jobs, p)
  {
    match e
    case Check(w) => RanksUpdate(p.workers, w, if p.cancelled then Gone else AtSelect);
    case HandOff(w) => RanksUpdate(p.workers, w, Working(p.next));
    case SeeCancel(w) => RanksUpdate(p.workers, w, Gone);
    case SeeClosed(w) => RanksUpdate(p.workers, w, Gone);
    case Finish(w) => RanksUpdate(p.workers, w, AtCheck);
    case _ =>
  }

  lemma {:induction false} RanksAtStart(n: nat)
    ensures Ranks(seq(n, i => AtCheck)) == 2 * n
    decreases n
  {
    if n > 0 {
      assert seq(n, i => AtCheck)[1..] == seq(n - 1, i => AtCheck);
      RanksAtStart(n - 1);
    }
  }

  /** A pass terminates when its jobs do: it takes a bounded number of steps. */
  lemma {:induction false} RunsAreBounded(jobs: nat, concurrency: nat, fails: nat -> bool, events: seq<Event>)
    requires Run(jobs, concurrency, fails, events).0
    ensures |events| + StepsLeft(jobs, Run(jobs, concurrency, fails, events).1) <= 5 * jobs + 2
    ensures |events| <= 5 * jobs + 2
    decreases |events|
  {
    RunKeeps(jobs, concurrency, fails, events);
    if events == [] {
      RanksAtStart(if concurrency > jobs then jobs else concurrency);
    } else {
      RunsAreBounded(jobs, concurrency, fails, events[..|events| - 1]);
      StepsLeftFalls(jobs, fails, Run(jobs, concurrency, fails, events[..|events| - 1]).1, events[|events| - 1]);
    }
  }
}
