/** Concurrent credential refresh: refreshCredential and refreshMethodCredential of
    backend/internal/service/retrieval.go as interleaved steps of any number of threads over the lock
    table, the compare-and-swap of UpsertCredential (backend/internal/repository/memory/store.go) and
    a token server for each credential. */
module RefreshProtocol {
  import opened Wrappers
  import opened TokenChain
  import Locks = RefreshLocks

  type Thread = Locks.Thread

  /** What a thread wants: it refreshes the version it has observed if that is due or forced, or it
      ensures a method's access token. */
  datatype Job = Job(op: Op, observed: nat, due: bool)

  /** How far the body of a refresh has come. */
  datatype Progress =
    | Waiting(job: Job)
    | Loaded(job: Job, version: nat, credential: Credential)
    | Called(version: nat, credential: Credential, outcome: Outcome)
    | Finished

  /** A stored credential with its version, its token server, and the versions that were presented. */
  datatype Account = Account(version: nat, credential: Credential, server: Server, log: seq<nat>)

  datatype World = World(table: Locks.Table, progress: map<Thread, Progress>, accounts: map<string, Account>,
      conflicts: nat)

  datatype Event =
    | Begin(t: Thread, key: string, job: Job)
    | Acquire(t: Thread)
    | Load(t: Thread)
    | Call(t: Thread)
    | Write(t: Thread)
    | Release(t: Thread)
    | End(t: Thread)
    | Import(key: string, credential: Credential, server: Server)

  function KeyOf(w: World, t: Thread): string
    requires t in w.table.threads
  {
    w.table.threads[t].key
  }

  predicate InBody(w: World, t: Thread) {
    t in w.table.threads && w.table.threads[t].Inside? && t in w.progress
  }

  function LockEvent(e: Event): Option<Locks.Event> {
    match e
    case Begin(t, key, _) => Some(Locks.Register(t, key))
    case Acquire(t) => Some(Locks.Enter(t))
    case Release(t) => Some(Locks.Leave(t))
    case End(t) => Some(Locks.Deregister(t))
    case _ => None
  }

  predicate Enabled(w: World, e: Event)
    requires Locks.ValidTable(w.table)
  {
    && (LockEvent(e).Some? ==> Locks.Enabled(w.table, LockEvent(e).value))
    && match e
       case Load(t) => InBody(w, t) && w.progress[t].Waiting?
       case Call(t) => InBody(w, t) && w.progress[t].Loaded? && KeyOf(w, t) in w.accounts
       case Write(t) => InBody(w, t) && w.progress[t].Called? && KeyOf(w, t) in w.accounts
       case Release(t) => InBody(w, t) && w.progress[t].Finished?
       case _ => true
  }

  /** Reads the credential under the lock; a refresh stops when it is not the observed version any
      more, or not due. */
  function Loading(w: World, t: Thread): Progress
    requires InBody(w, t) && w.progress[t].Waiting?
  {
    var job := w.progress[t].job;
    if KeyOf(w, t) !in w.accounts then Finished
    else
      var account := w.accounts[KeyOf(w, t)];
      if job.op.RefreshOp? && (account.version != job.observed || !job.due) then Finished
      else Loaded(job, account.version, account.credential)
  }

  /** The compare-and-swap: any outcome but a usable token is written, a failure as a new version of
      the same secret. */
  function Writing(account: Account, version: nat, credential: Credential, outcome: Outcome): Account {
    if account.version == version then account.(version := version + 1, credential := Stored(credential, outcome))
    else account
  }

  function Step(w: World, e: Event): World
    requires Locks.ValidTable(w.table) && Enabled(w, e)
  {
    match e
    case Begin(t, key, job) => w.(table := Locks.Step(w.table, Locks.Register(t, key)),
      progress := w.progress[t := Waiting(job)])
    case Acquire(t) => w.(table := Locks.Step(w.table, Locks.Enter(t)))
    case Release(t) => w.(table := Locks.Step(w.table, Locks.Leave(t)))
    case End(t) => w.(table := Locks.Step(w.table, Locks.Deregister(t)), progress := w.progress - {t})
    case Load(t) => w.(progress := w.progress[t := Loading(w, t)])
    case Call(t) =>
      var (p, key) := (w.progress[t], KeyOf(w, t));
      var account := w.accounts[key];
      var (server, outcome) := Perform(p.job.op, p.credential, account.server);
      if outcome.StillUsable? then w.(progress := w.progress[t := Finished])
      else w.(progress := w.progress[t := Called(p.version, p.credential, outcome)],
              accounts := w.accounts[key := account.(server := server, log := account.log + [p.version])])
    case Write(t) =>
      var (p, key) := (w.progress[t], KeyOf(w, t));
      w.(progress := w.progress[t := Finished],
         accounts := w.accounts[key := Writing(w.accounts[key], p.version, p.credential, p.outcome)],
         conflicts := w.conflicts + if w.accounts[key].version == p.version then 0 else 1)
    case Import(key, credential, server) =>
      w.(accounts := w.accounts[key :=
        if key in w.accounts then Account(w.accounts[key].version + 1, credential, server, w.accounts[key].log)
        else Account(1, credential, server, [])])
  }

  // ---------------------------------------------------------------- the invariant

  function Last(log: seq<nat>): int {
    if log == [] then -1 else log[|log| - 1]
  }

  predicate Increasing(log: seq<nat>) {
    forall i, j :: 0 <= i < j < |log| ==> log[i] < log[j]
  }

  /** What the progress of a thread says about the account of its key. Without imports, the credential
      it works on is the stored one, and its outcome holds the live token. */
  predicate BodyOK(inside: bool, p: Progress, account: Option<Account>, imports: bool) {
    match p
    case Waiting(job) => !imports ==> SealsAlways(job.op)
    case Loaded(job, version, credential) =>
      && inside && account.Some?
      && Last(account.value.log) < version <= account.value.version
      && (!imports ==>
            && version == account.value.version
            && credential == account.value.credential
            && SealsAlways(job.op))
    case Called(version, credential, outcome) =>
      && inside && account.Some?
      && Last(account.value.log) == version <= account.value.version
      && (!imports ==> version == account.value.version && HoldsLive(Stored(credential, outcome), account.value.server))
    case Finished => true
  }

  function AccountOf(w: World, key: string): Option<Account> {
    if key in w.accounts then Some(w.accounts[key]) else None
  }

  predicate ThreadInv(w: World, t: Thread, imports: bool)
    requires t in w.table.threads
  {
    t in w.progress && BodyOK(w.table.threads[t].Inside?, w.progress[t], AccountOf(w, KeyOf(w, t)), imports)
  }

  /** The thread is between its call and its write. */
  predicate CallsFor(w: World, t: Thread, key: string) {
    t in w.table.threads && KeyOf(w, t) == key && t in w.progress && w.progress[t].Called?
  }

  predicate Calling(w: World, key: string) {
    exists t :: t in w.table.threads && CallsFor(w, t, key)
  }

  predicate AccountOK(account: Account, calling: bool, imports: bool) {
    && Increasing(account.log)
    && (!calling ==> Last(account.log) < account.version)
    && (!imports ==> NoneLost(account.server.answers))
    && (!imports && !calling ==> HoldsLive(account.credential, account.server))
  }

  predicate AccountInv(w: World, key: string, imports: bool)
    requires key in w.accounts
  {
    AccountOK(w.accounts[key], Calling(w, key), imports)
  }

  predicate Inv(w: World, imports: bool) {
    && Locks.Inv(w.table)
    && (forall t :: t in w.table.threads ==> ThreadInv(w, t, imports))
    && (forall key :: key in w.accounts ==> AccountInv(w, key, imports))
    && (!imports ==> w.conflicts == 0)
  }

  /** Mutual exclusion, as the body of a refresh uses it. */
  lemma OneInside(w: World, t: Thread, u: Thread)
    requires Locks.Inv(w.table) && InBody(w, t) && InBody(w, u) && KeyOf(w, t) == KeyOf(w, u)
    ensures t == u
  {
    assert Locks.ThreadOK(w.table, t) && Locks.ThreadOK(w.table, u);
  }

  lemma SameCalling(w: World, w': World, key: string)
    requires forall t :: CallsFor(w, t, key) == CallsFor(w', t, key)
    ensures Calling(w, key) == Calling(w', key)
  {
    if Calling(w, key) {
      var t :| t in w.table.threads && CallsFor(w, t, key);
      assert CallsFor(w', t, key);
    }
  }

  /** Threads of one key other than the one inside are not at work on its account. */
  lemma OthersIdle(w: World, t: Thread, u: Thread, imports: bool)
    requires Inv(w, imports) && InBody(w, t) && u in w.table.threads && u != t && KeyOf(w, u) == KeyOf(w, t)
    ensures u in w.progress && !w.progress[u].Loaded? && !w.progress[u].Called?
  {
    assert ThreadInv(w, u, imports);
    hide Locks.Inv, AccountInv, HoldsLive;
    if InBody(w, u) { OneInside(w, t, u); }
  }

  /** Inside the body and not between call and write, nobody is. */
  lemma NotCalling(w: World, t: Thread, imports: bool)
    requires Inv(w, imports) && InBody(w, t) && !w.progress[t].Called?
    ensures !Calling(w, KeyOf(w, t))
  {
    hide Locks.Inv, AccountInv, BodyOK;
    forall u | u in w.table.threads && KeyOf(w, u) == KeyOf(w, t) ensures u in w.progress && !w.progress[u].Called? {
      if u != t { OthersIdle(w, t, u, imports); }
    }
  }

  /** A thread at rest does not depend on where it is. */
  lemma AtRest(inside: bool, inside': bool, p: Progress, account: Option<Account>, account': Option<Account>,
      imports: bool)
    requires BodyOK(inside, p, account, imports) && (p.Waiting? || p.Finished?)
    ensures BodyOK(inside', p, account', imports)
  {
  }

  lemma WorksInside(inside: bool, p: Progress, account: Option<Account>, imports: bool)
    requires BodyOK(inside, p, account, imports) && !inside
    ensures p.Waiting? || p.Finished?
  {
  }

  /** Steps on the lock table leave the accounts and what is done on them alone. */
  lemma LockKeeps(w: World, e: Event, imports: bool)
    requires Inv(w, imports) && Enabled(w, e) && LockEvent(e).Some?
    requires e.Begin? && !imports ==> SealsAlways(e.job.op)
    ensures Inv(Step(w, e), imports)
  {
    var w' := Step(w, e);
    Locks.StepKeeps(w.table, LockEvent(e).value);
    forall u | u in w'.table.threads ensures ThreadInv(w', u, imports) {
      LockKeepsThread(w, e, u, imports);
    }
    forall key | key in w'.accounts ensures AccountInv(w', key, imports) {
      assert AccountInv(w, key, imports);
      LockKeepsCalling(w, e, key, imports);
      hide Calling;
    }
    hide Locks.Inv, Locks.Step, Locks.Enabled, ThreadInv;
  }

  lemma LockStepIs(w: World, e: Event)
    requires Locks.Inv(w.table) && Enabled(w, e) && LockEvent(e).Some?
    ensures var w' := Step(w, e);
            && w'.table == Locks.Step(w.table, LockEvent(e).value) && w'.accounts == w.accounts
            && w'.progress == (match e case Begin(t, _,
              job) => w.progress[t := Waiting(job)] case End(t) => w.progress - {t} case _ => w.progress)
  {
    hide Locks.Inv, Locks.Step;
  }

  lemma LocksOK(w: World, imports: bool)
    requires Inv(w, imports)
    ensures Locks.Inv(w.table) && Locks.ValidTable(w.table)
  {
    hide ThreadInv, AccountInv;
  }

  lemma ThreadAt(w: World, u: Thread, imports: bool)
    requires Inv(w, imports) && u in w.table.threads
    ensures ThreadInv(w, u, imports)
  {
    hide Locks.Inv, AccountInv;
  }

  lemma AccountAt(w: World, key: string, imports: bool)
    requires Inv(w, imports) && key in w.accounts
    ensures AccountInv(w, key, imports)
  {
    hide Locks.Inv, ThreadInv;
  }

  lemma BeginsAtRest(job: Job, imports: bool)
    requires !imports ==> SealsAlways(job.op)
    ensures BodyOK(false, Waiting(job), None, imports)
  {
  }

  lemma LockKeepsThread(w: World, e: Event, u: Thread, imports: bool)
    requires Inv(w, imports) && Enabled(w, e) && LockEvent(e).Some? && u in Step(w, e).table.threads
    requires e.Begin? && !imports ==> SealsAlways(e.job.op)
    ensures ThreadInv(Step(w, e), u, imports)
  {
    hide Inv, Step, Enabled, Locks.Inv, Locks.Step, Locks.Enabled, Locks.ValidTable, BodyOK, AccountInv, SealsAlways;
    LocksOK(w, imports);
    var w' := Step(w, e);
    LockMoves(w, e);
    LockStepIs(w, e);
    if u in w.table.threads { ThreadAt(w, u, imports); }
    if e.Begin? && u == e.t {
      BeginsAtRest(e.job, imports);
      AtRest(false, w'.table.threads[u].Inside?, Waiting(e.job), None, AccountOf(w', KeyOf(w', u)), imports);
    } else if u == e.t {
      if e.Acquire? { WorksInside(false, w.progress[u], AccountOf(w, KeyOf(w, u)), imports); }
      assert w.progress[u].Waiting? || w.progress[u].Finished? by {
        if e.Release? { ReleasesFinished(w, e.t); }
      }
      AtRest(w.table.threads[u].Inside?, w'.table.threads[u].Inside?, w.progress[u],
             AccountOf(w, KeyOf(w, u)), AccountOf(w', KeyOf(w', u)), imports);
    }
  }

  lemma ReleasesFinished(w: World, t: Thread)
    requires Locks.ValidTable(w.table) && Enabled(w, Release(t))
    ensures t in w.progress && w.progress[t].Finished?
  {
    hide Locks.ValidTable, Locks.Enabled;
  }

  lemma LockKeepsCalling(w: World, e: Event, key: string, imports: bool)
    requires Inv(w, imports) && Enabled(w, e) && LockEvent(e).Some?
    ensures Calling(w, key) == Calling(Step(w, e), key)
  {
    hide Inv, Step, Enabled, Locks.Inv, Locks.Step, Locks.Enabled, Locks.ValidTable, Calling, CallsFor;
    LocksOK(w, imports);
    forall t ensures CallsFor(w, t, key) == CallsFor(Step(w, e), t, key) {
      LockKeepsCall(w, e, key, t, imports);
    }
    SameCalling(w, Step(w, e), key);
  }

  lemma LockKeepsCall(w: World, e: Event, key: string, t: Thread, imports: bool)
    requires Inv(w, imports) && Enabled(w, e) && LockEvent(e).Some?
    ensures Locks.ValidTable(w.table) && CallsFor(w, t, key) == CallsFor(Step(w, e), t, key)
  {
    hide Inv, Step, Enabled, Locks.Inv, Locks.Step, Locks.Enabled, Locks.ValidTable, BodyOK, AccountInv;
    LocksOK(w, imports);
    LockMoves(w, e);
    LockStepIs(w, e);
    if t == e.t && t in w.table.threads && !w.table.threads[t].Inside? {
      ThreadAt(w, t, imports);
      WorksInside(false, w.progress[t], AccountOf(w, KeyOf(w, t)), imports);
    } else if e == Release(t) {
      ReleasesFinished(w, t);
    }
  }

  lemma LockMoves(w: World, e: Event)
    requires Locks.Inv(w.table) && Enabled(w, e) && LockEvent(e).Some?
    ensures var threads := Locks.Step(w.table, LockEvent(e).value).threads;
            && (forall u :: u != e.t ==>
              (u in threads <==> u in w.table.threads) && (u in threads ==> threads[u] == w.table.threads[u]))
            && (e.Begin? ==> e.t !in w.table.threads && e.t in threads && threads[e.t].Registered?)
            && (e.Acquire? ==>
                  && e.t in w.table.threads && !w.table.threads[e.t].Inside?
                  && e.t in threads && threads[e.t].key == w.table.threads[e.t].key)
            && (e.Release? ==> e.t in w.table.threads && e.t in threads && threads[e.t].key == w.table.threads[e.t].key)
            && (e.End? ==> e.t in w.table.threads && !w.table.threads[e.t].Inside? && e.t !in threads)
  {
  }

  /** A step of the thread inside, on its progress and its account. */
  lemma BodyKeeps(w: World, t: Thread, p: Progress, account: Option<Account>, conflicts: nat, imports: bool)
    requires Inv(w, imports) && InBody(w, t)
    requires account.Some? <==> KeyOf(w, t) in w.accounts
    requires BodyOK(true, p, account, imports)
    requires account.Some? ==> AccountOK(account.value, p.Called?, imports)
    requires account.None? ==> !p.Called?
    requires !imports ==> conflicts == 0
    ensures Inv(World(w.table, w.progress[t := p], if account.Some? then w.accounts[KeyOf(w, t) := account.value]
            else w.accounts, conflicts), imports)
  {
    hide Locks.Inv, Locks.ValidTable, AccountOK, BodyOK, ThreadInv, Calling;
    var key := KeyOf(w, t);
    var w' := World(w.table, w.progress[t := p], if account.Some? then w.accounts[key := account.value]
      else w.accounts, conflicts);
    forall u | u in w'.table.threads ensures ThreadInv(w', u, imports) {
      BodyKeepsThread(w, t, p, account, w', u, imports);
    }
    CallingIsInside(w, t, p, w', imports);
    forall k | k in w'.accounts ensures AccountInv(w', k, imports) {
      if k != key {
        BodyKeepsOther(w, t, p, w', k, imports);
      }
    }
  }

  lemma BodyKeepsOther(w: World, t: Thread, p: Progress, w': World, k: string, imports: bool)
    requires Inv(w, imports) && InBody(w, t) && k in w.accounts && k != KeyOf(w, t)
    requires w'.table == w.table && w'.progress == w.progress[t := p] && AccountOf(w', k) == AccountOf(w, k)
    ensures AccountInv(w', k, imports)
  {
    assert AccountInv(w, k, imports);
    SameCalling(w, w', k);
    hide Locks.Inv, AccountOK, ThreadInv, Calling;
  }

  lemma BodyKeepsThread(w: World, t: Thread, p: Progress, account: Option<Account>, w': World, u: Thread, imports: bool)
    requires Inv(w, imports) && InBody(w, t) && u in w.table.threads && BodyOK(true, p, account, imports)
    requires w'.table == w.table && w'.progress == w.progress[t := p] && AccountOf(w', KeyOf(w, t)) == account
    requires forall k :: k != KeyOf(w, t) ==> AccountOf(w', k) == AccountOf(w, k)
    ensures ThreadInv(w', u, imports)
  {
    assert ThreadInv(w, u, imports);
    if u != t && KeyOf(w, u) == KeyOf(w, t) {
      OthersIdle(w, t, u, imports);
      AtRest(w.table.threads[u].Inside?, w.table.threads[u].Inside?, w.progress[u], AccountOf(w, KeyOf(w, t)), account,
        imports);
    }
    hide Locks.Inv, AccountInv, BodyOK;
  }

  lemma CallingIsInside(w: World, t: Thread, p: Progress, w': World, imports: bool)
    requires Inv(w, imports) && InBody(w, t) && w'.table == w.table && w'.progress == w.progress[t := p]
    ensures Calling(w', KeyOf(w, t)) == p.Called?
  {
    forall u | u in w'.table.threads ensures CallsFor(w', u, KeyOf(w, t)) == (u == t && p.Called?) {
      if u != t && KeyOf(w, u) == KeyOf(w, t) { OthersIdle(w, t, u, imports); }
      hide Locks.Inv, AccountInv, BodyOK;
    }
    hide CallsFor;
  }

  lemma LoadMeans(account: Option<Account>, p: Progress, p': Progress, imports: bool)
    requires p.Waiting? && BodyOK(true, p, account, imports)
    requires account.Some? ==> AccountOK(account.value, false, imports)
    requires p' == Finished || (account.Some? && p' == Loaded(p.job, account.value.version, account.value.credential))
    ensures BodyOK(true, p', account, imports)
  {
    hide HoldsLive, NoneLost, SealsAlways, Increasing;
  }

  lemma LoadKeeps(w: World, t: Thread, imports: bool)
    requires Inv(w, imports) && Enabled(w, Load(t))
    ensures Inv(Step(w, Load(t)), imports)
  {
    LocksOK(w, imports);
    hide Inv, Locks.Inv, Locks.ValidTable, BodyOK, AccountOK, Calling;
    var key := KeyOf(w, t);
    ThreadAt(w, t, imports);
    NotCalling(w, t, imports);
    if key in w.accounts {
      AccountAt(w, key, imports);
      assert w.accounts[key := w.accounts[key]] == w.accounts;
    }
    LoadMeans(AccountOf(w, key), w.progress[t], Loading(w, t), imports);
    NoConflictsYet(w, imports);
    BodyKeeps(w, t, Loading(w, t), AccountOf(w, key), w.conflicts, imports);
  }

  lemma NoConflictsYet(w: World, imports: bool)
    requires Inv(w, imports)
    ensures !imports ==> w.conflicts == 0
  {
    hide Locks.Inv, ThreadInv, AccountInv;
  }

  lemma CallStepIs(w: World, t: Thread)
    requires Locks.ValidTable(w.table) && Enabled(w, Call(t))
    ensures var key, p := KeyOf(w, t), w.progress[t];
            var (server, outcome) := Perform(p.job.op, p.credential, w.accounts[key].server);
            Step(w, Call(t)) ==
              if outcome.StillUsable? then World(w.table, w.progress[t := Finished], w.accounts, w.conflicts)
              else World(w.table, w.progress[t := Called(p.version, p.credential, outcome)],
                         w.accounts[key := Asked(w.accounts[key], server, p.version)], w.conflicts)
  {
    hide Perform, Locks.ValidTable;
  }

  /** An account after a request to its server. */
  function Asked(account: Account, server: Server, version: nat): Account {
    account.(server := server, log := account.log + [version])
  }

  lemma CallReady(w: World, t: Thread, imports: bool)
    requires Inv(w, imports) && Locks.ValidTable(w.table) && Enabled(w, Call(t))
    ensures var key, p := KeyOf(w, t), w.progress[t];
            var (server, outcome) := Perform(p.job.op, p.credential, w.accounts[key].server);
            && AccountOK(w.accounts[key], false, imports) && BodyOK(true, Finished, Some(w.accounts[key]), imports)
            && AccountOK(Asked(w.accounts[key], server, p.version), true, imports)
            && BodyOK(true, Called(p.version, p.credential, outcome), Some(Asked(w.accounts[key], server, p.version)),
                      imports)
            && (!imports ==> w.conflicts == 0)
  {
    hide Inv, Perform, Locks.Inv, Locks.ValidTable, BodyOK, AccountOK, Calling, Asked;
    var key := KeyOf(w, t);
    ThreadAt(w, t, imports);
    AccountAt(w, key, imports);
    NotCalling(w, t, imports);
    NoConflictsYet(w, imports);
    CallMeans(w.accounts[key], w.progress[t], imports);
  }

  /** Presenting the token of a version: the version is above every one presented before. */
  lemma CallKeeps(w: World, t: Thread, imports: bool)
    requires Inv(w, imports) && Enabled(w, Call(t))
    ensures Inv(Step(w, Call(t)), imports)
  {
    hide Inv, Perform, Step, Locks.Inv, Locks.ValidTable, BodyOK, AccountOK, Asked;
    LocksOK(w, imports);
    CallStepIs(w, t);
    CallReady(w, t, imports);
    var key, p := KeyOf(w, t), w.progress[t];
    var (server, outcome) := Perform(p.job.op, p.credential, w.accounts[key].server);
    if outcome.StillUsable? {
      BodyKeeps(w, t, Finished, Some(w.accounts[key]), w.conflicts, imports);
      assert w.accounts[key := w.accounts[key]] == w.accounts;
    } else {
      BodyKeeps(w, t, Called(p.version, p.credential, outcome), Some(Asked(w.accounts[key], server, p.version)),
        w.conflicts, imports);
    }
  }

  lemma CallMeans(account: Account, p: Progress, imports: bool)
    requires p.Loaded? && BodyOK(true, p, Some(account), imports) && AccountOK(account, false, imports)
    ensures var (server, outcome) := Perform(p.job.op, p.credential, account.server);
            var account' := Asked(account, server, p.version);
            && BodyOK(true, Called(p.version, p.credential, outcome), Some(account'), imports)
            && AccountOK(account', true, imports)
            && BodyOK(true, Finished, Some(account), imports)
  {
    if !imports {
      NoneForgotten(p.job.op, p.credential, account.server);
      ConservesIff(p.job.op, p.credential, account.server);
    }
    IncreasingAppend(account.log, p.version);
    hide Perform, Forgets, HoldsLive, SealsAlways, Stored, Increasing, Last, NoneLost, HoldsCanonically;
    assert !imports ==> NoneLost(Perform(p.job.op, p.credential, account.server).0.answers) by {
      if !imports { AnswersStayKnown(p.job.op, p.credential, account.server); }
    }
  }

  lemma IncreasingAppend(log: seq<nat>, version: nat)
    requires Increasing(log) && Last(log) < version
    ensures Increasing(log + [version]) && Last(log + [version]) == version
  {
  }

  lemma AnswersStayKnown(op: Op, credential: Credential, server: Server)
    requires NoneLost(server.answers)
    ensures NoneLost(Perform(op, credential, server).0.answers)
  {
    AnswersUsed(op, credential, server);
    hide Perform;
  }

  /** The write: it bumps the version past every one presented, or somebody else has done so. */
  lemma WriteKeeps(w: World, t: Thread, imports: bool)
    requires Inv(w, imports) && Enabled(w, Write(t))
    ensures Inv(Step(w, Write(t)), imports)
    ensures !imports ==> Step(w, Write(t)).conflicts == w.conflicts
  {
    var key, p := KeyOf(w, t), w.progress[t];
    assert ThreadInv(w, t, imports) && AccountInv(w, key, imports);
    assert CallsFor(w, t, key);
    var account, conflicts := Writing(w.accounts[key], p.version, p.credential, p.outcome), Step(w, Write(t)).conflicts;
    WriteMeans(w.accounts[key], p, imports);
    hide Locks.Inv, BodyOK, AccountOK, Writing;
    BodyKeeps(w, t, Finished, Some(account), conflicts, imports);
  }

  lemma WriteMeans(account: Account, p: Progress, imports: bool)
    requires p.Called? && BodyOK(true, p, Some(account), imports) && AccountOK(account, true, imports)
    ensures var account' := Writing(account, p.version, p.credential, p.outcome);
            && AccountOK(account', false, imports) && BodyOK(true, Finished, Some(account'), imports)
    ensures !imports ==> account.version == p.version
  {
    hide HoldsLive, Stored, SealsAlways;
  }

  lemma ImportKeeps(w: World, key: string, credential: Credential, server: Server)
    requires Inv(w, true)
    ensures Inv(Step(w, Import(key, credential, server)), true)
  {
    var w' := Step(w, Import(key, credential, server));
    hide Locks.Inv;
    forall u | u in w'.table.threads ensures ThreadInv(w', u, true) {
      assert ThreadInv(w, u, true);
    }
    forall k | k in w'.accounts ensures AccountInv(w', k, true) {
      if k in w.accounts { assert AccountInv(w, k, true); } else { NoAccountNoCall(w, k); }
      SameCalling(w, w', k);
    }
  }

  lemma NoAccountNoCall(w: World, key: string)
    requires Inv(w, true) && key !in w.accounts
    ensures !Calling(w, key)
  {
    forall t | t in w.table.threads ensures !CallsFor(w, t, key) {
      assert ThreadInv(w, t, true);
    }
    hide Locks.Inv, BodyOK, AccountInv;
  }

  // ---------------------------------------------------------------- main results

  lemma StepKeeps(w: World, e: Event, imports: bool)
    requires Inv(w, imports) && Enabled(w, e) && (e.Import? ==> imports)
    requires e.Begin? && !imports ==> SealsAlways(e.job.op)
    ensures Inv(Step(w, e), imports)
  {
    match e
    case Load(t) => LoadKeeps(w, t, imports);
    case Call(t) => CallKeeps(w, t, imports);
    case Write(t) => WriteKeeps(w, t, imports);
    case Import(key, credential, server) => ImportKeeps(w, key, credential, server);
    case _ => LockKeeps(w, e, imports);
  }

  function Run(w: World, events: seq<Event>): Option<World>
    decreases |events|
  {
    if events == [] then Some(w)
    else
      var before := Run(w, events[..|events| - 1]);
      var e := events[|events| - 1];
      if before.None? || !Locks.ValidTable(before.value.table) || !Enabled(before.value, e) then None
      else Some(Step(before.value, e))
  }

  /** Nobody is refreshing, and no version was presented beyond the stored one. */
  predicate Initial(w: World) {
    && w.table == Locks.Empty() && w.progress == map[] && w.conflicts == 0
    && forall key :: key in w.accounts ==> w.accounts[key].log == []
  }

  predicate WithoutImports(events: seq<Event>) {
    forall i :: 0 <= i < |events| ==> !events[i].Import? && (events[i].Begin? ==> SealsAlways(events[i].job.op))
  }

  lemma {:induction false} RunKeeps(w: World, events: seq<Event>, imports: bool)
    requires Inv(w, imports) && Run(w, events).Some? && (imports || WithoutImports(events))
    ensures Inv(Run(w, events).value, imports)
    decreases |events|
  {
    if events != [] {
      RunKeeps(w, events[..|events| - 1], imports);
      StepKeeps(Run(w, events[..|events| - 1]).value, events[|events| - 1], imports);
      hide Inv, Step, Enabled;
    }
  }

  lemma InitialInv(w: World, imports: bool)
    requires Initial(w)
    requires !imports ==> forall key :: key in w.accounts ==>
             NoneLost(w.accounts[key].server.answers) && HoldsLive(w.accounts[key].credential, w.accounts[key].server)
    ensures Inv(w, imports)
  {
    hide HoldsLive, NoneLost;
    forall key | key in w.accounts ensures AccountInv(w, key, imports) {
    }
  }

  /** Over all interleavings of refreshes and imports: each version of a credential is presented to the
      provider at most once, and versions are presented in increasing order. */
  lemma VersionsIncrease(w: World, events: seq<Event>, key: string)
    requires Initial(w) && Run(w, events).Some? && key in Run(w, events).value.accounts
    ensures Increasing(Run(w, events).value.accounts[key].log)
  {
    InitialInv(w, true);
    RunKeeps(w, events, true);
    hide Run;
    assert AccountInv(Run(w, events).value, key, true);
  }

  /** Without imports, sealing failures and lost responses, no write conflicts over all interleavings,
      and between refreshes of a credential the stored token is the live one. */
  lemma NoConflictsAndTokensLive(w: World, events: seq<Event>)
    requires Initial(w) && Run(w, events).Some? && WithoutImports(events)
    requires forall key :: key in w.accounts ==>
             NoneLost(w.accounts[key].server.answers) && HoldsLive(w.accounts[key].credential, w.accounts[key].server)
    ensures var end := Run(w, events).value;
            && end.conflicts == 0
            && (forall key :: key in end.accounts && !Calling(end, key) ==>
              HoldsLive(end.accounts[key].credential, end.accounts[key].server))
            && (end.table.threads == map[] ==> forall key :: key in end.accounts ==>
              HoldsLive(end.accounts[key].credential, end.accounts[key].server))
  {
    InitialInv(w, false);
    RunKeeps(w, events, false);
    hide Run, HoldsLive, WithoutImports, NoneLost;
    var end := Run(w, events).value;
    forall key | key in end.accounts && !Calling(end, key)
      ensures HoldsLive(end.accounts[key].credential, end.accounts[key].server) {
      assert AccountInv(end, key, false);
    }
  }

  // ---------------------------------------------------------------- the body in place

  /** What the body of a refresh does to an account while nobody else writes it. */
  function Body(account: Account, job: Job): Account {
    if job.op.RefreshOp? && (account.version != job.observed || !job.due) then account
    else
      var (server, outcome) := Perform(job.op, account.credential, account.server);
      if outcome.StillUsable? then account
      else Writing(account.(server := server, log := account.log + [account.version]), account.version,
        account.credential, outcome)
  }

  /** The three steps of a thread inside, with nobody in between, are its body. */
  lemma BodyIsItsSteps(w: World, t: Thread)
    requires Locks.ValidTable(w.table) && InBody(w, t) && w.progress[t].Waiting? && KeyOf(w, t) in w.accounts
    ensures var w1 := Step(w, Load(t));
            var w2 := if w1.progress[t].Loaded? then Step(w1, Call(t)) else w1;
            var w3 := if w2.progress[t].Called? then Step(w2, Write(t)) else w2;
            && w3.progress[t] == Finished
            && w3.accounts == w.accounts[KeyOf(w, t) := Body(w.accounts[KeyOf(w, t)], w.progress[t].job)]
            && w3.conflicts == w.conflicts
  {
    hide Perform, Stored;
  }

  class StoredCredential {
    var version: nat
    var credential: Credential
    const server: TokenServer
    ghost var log: seq<nat>

    ghost function View(): Account
      reads this, server
    {
      Account(version, credential, server.View(), log)
    }

    constructor (version: nat, credential: Credential, server: TokenServer)
      ensures View() == Account(version, credential, server.View(), []) && this.server == server
    {
      this.version, this.credential, this.server, log := version, credential, server, [];
    }

    /** UpsertCredential: a write of another version than the stored one is refused. */
    method Upsert(expected: nat, credential: Credential) returns (written: bool)
      modifies this
      ensures written <==> old(version) == expected
      ensures View() == if written then old(View()).(version := expected + 1, credential := credential) else old(View())
    {
      if expected != version {
        return false;
      }
      version, this.credential := version + 1, credential;
      written := true;
    }

    /** The body of refreshCredential and refreshMethodCredential. */
    method RefreshUnderLock(job: Job)
      modifies this, server
      ensures View() == Body(old(View()), job)
    {
      var current, observed := credential, version;
      if job.op.RefreshOp? && (observed != job.observed || !job.due) {
        return;
      }
      var outcome: Outcome;
      match job.op {
        case RefreshOp(seals) =>
          outcome := TokenChain.RefreshCredential(server, current, seals);
        case EnsureOp(requested, force, horizon, seal) =>
          outcome := TokenChain.EnsureMethodToken(server, current, requested, force, horizon, seal);
      }
      if outcome.StillUsable? {
        UsableLeavesServer(job.op, current, old(server.View()));
        return;
      }
      log := log + [observed];
      var _ := Upsert(observed, Stored(current, outcome));
    }
  }

  lemma UsableLeavesServer(op: Op, credential: Credential, server: Server)
    ensures Perform(op, credential, server).1.StillUsable? ==> Perform(op, credential, server).0 == server
  {
    hide GraphRequest, Request;
  }
}
