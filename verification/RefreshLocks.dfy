/** The reference-counted table of refresh locks: acquireRefreshLock of
    backend/internal/service/retrieval.go, as the interleaved steps of any number of threads. The
    table's own mutex makes each of Register and Deregister one step. */
module RefreshLocks {
  import opened Wrappers

  type Thread = nat

  /** A lock object: its reference count and the thread that holds its mutex. */
  datatype Lock = Lock(refs: int, holder: Option<Thread>)

  /** Where a thread is in the protocol, with its key and the number of its lock object. */
  datatype Phase =
    | Registered(key: string, lock: nat)
    | Inside(key: string, lock: nat)
    | Released(key: string, lock: nat)

  /** Lock objects ever created, the table by key, and the threads that are not idle. */
  datatype Table = Table(locks: seq<Lock>, table: map<string, nat>, threads: map<Thread, Phase>)

  datatype Event = Register(t: Thread, key: string) | Enter(t: Thread) | Leave(t: Thread) | Deregister(t: Thread)

  predicate ValidTable(w: Table) {
    && (forall k :: k in w.table ==> w.table[k] < |w.locks|)
    && (forall t :: t in w.threads ==> w.threads[t].lock < |w.locks|)
  }

  predicate Enabled(w: Table, e: Event)
    requires ValidTable(w)
  {
    match e
    case Register(t, _) => t !in w.threads
    case Enter(t) => t in w.threads && w.threads[t].Registered? && w.locks[w.threads[t].lock].holder == None
    case Leave(t) => t in w.threads && w.threads[t].Inside?
    case Deregister(t) => t in w.threads && w.threads[t].Released?
  }

  function Registering(w: Table, t: Thread, key: string): Table
    requires ValidTable(w)
  {
    var w1 := if key in w.table then w
              else w.(locks := w.locks + [Lock(0, None)], table := w.table[key := |w.locks|]);
    var lock := w1.table[key];
    w1.(locks := w1.locks[lock := w1.locks[lock].(refs := w1.locks[lock].refs + 1)],
        threads := w1.threads[t := Registered(key, lock)])
  }

  function Deregistering(w: Table, t: Thread): Table
    requires ValidTable(w) && t in w.threads
  {
    var (key, lock) := (w.threads[t].key, w.threads[t].lock);
    var refs := w.locks[lock].refs - 1;
    w.(locks := w.locks[lock := w.locks[lock].(refs := refs)],
       table := if refs == 0 then w.table - {key} else w.table,
       threads := w.threads - {t})
  }

  function Step(w: Table, e: Event): Table
    requires ValidTable(w) && Enabled(w, e)
  {
    match e
    case Register(t, key) => Registering(w, t, key)
    case Enter(t) =>
      var p := w.threads[t];
      w.(locks := w.locks[p.lock := w.locks[p.lock].(holder := Some(t))],
        threads := w.threads[t := Inside(p.key, p.lock)])
    case Leave(t) =>
      var p := w.threads[t];
      w.(locks := w.locks[p.lock := w.locks[p.lock].(holder := None)],
        threads := w.threads[t := Released(p.key, p.lock)])
    case Deregister(t) => Deregistering(w, t)
  }

  /** The threads between their registration and their final decrement. */
  function Users(threads: map<Thread, Phase>, key: string): set<Thread> {
    set t | t in threads && threads[t].key == key
  }

  /** The table entry of a key counts its users, and its mutex is held by a user inside. */
  predicate KeyOK(w: Table, k: string)
    requires ValidTable(w) && k in w.table
  {
    var lock := w.locks[w.table[k]];
    && lock.refs == |Users(w.threads, k)| > 0
    && (lock.holder.Some? ==> lock.holder.value in w.threads && w.threads[lock.holder.value] == Inside(k, w.table[k]))
  }

  /** A thread uses the lock of the table entry of its key, and holds its mutex when it is inside. */
  predicate ThreadOK(w: Table, t: Thread)
    requires ValidTable(w) && t in w.threads
  {
    var p := w.threads[t];
    p.key in w.table && w.table[p.key] == p.lock && (p.Inside? ==> w.locks[p.lock].holder == Some(t))
  }

  predicate LocksNotShared(w: Table) {
    forall j, k :: j in w.table && k in w.table && w.table[j] == w.table[k] ==> j == k
  }

  /** The lock discipline. */
  predicate Inv(w: Table) {
    && ValidTable(w)
    && LocksNotShared(w)
    && (forall k :: k in w.table ==> KeyOK(w, k))
    && (forall t :: t in w.threads ==> ThreadOK(w, t))
  }

  function Empty(): Table {
    Table([], map[], map[])
  }

  lemma UsersAdd(threads: map<Thread, Phase>, t: Thread, p: Phase, k: string)
    requires t !in threads
    ensures |Users(threads[t := p], k)| == |Users(threads, k)| + if p.key == k then 1 else 0
  {
    assert Users(threads[t := p], k) == Users(threads, k) + if p.key == k then {t} else {};
  }

  lemma UsersMove(threads: map<Thread, Phase>, t: Thread, p: Phase, k: string)
    requires t in threads && threads[t].key == p.key
    ensures Users(threads[t := p], k) == Users(threads, k)
  {
  }

  lemma UsersDrop(threads: map<Thread, Phase>, t: Thread, k: string)
    requires t in threads
    ensures |Users(threads - {t}, k)| == |Users(threads, k)| - if threads[t].key == k then 1 else 0
  {
    assert Users(threads - {t}, k) == Users(threads, k) - {t};
  }

  lemma StepKeeps(w: Table, e: Event)
    requires Inv(w) && Enabled(w, e)
    ensures Inv(Step(w, e))
  {
    match e
    case Register(t, key) => RegisterKeeps(w, t, key);
    case Enter(t) => MoveKeeps(w, t, Inside(w.threads[t].key, w.threads[t].lock), Some(t));
    case Leave(t) => MoveKeeps(w, t, Released(w.threads[t].key, w.threads[t].lock), None);
    case Deregister(t) => DeregisterKeeps(w, t);
  }

  function Moved(w: Table, t: Thread, p: Phase, holder: Option<Thread>): Table
    requires ValidTable(w) && p.lock < |w.locks|
  {
    w.(locks := w.locks[p.lock := w.locks[p.lock].(holder := holder)], threads := w.threads[t := p])
  }

  /** Taking or giving back the mutex. */
  predicate Moves(w: Table, t: Thread, p: Phase, holder: Option<Thread>)
    requires ValidTable(w)
  {
    && t in w.threads && p.key == w.threads[t].key && p.lock == w.threads[t].lock
    && ((w.threads[t].Registered? && w.locks[p.lock].holder == None && p.Inside? && holder == Some(t))
        || (w.threads[t].Inside? && p.Released? && holder == None))
  }

  lemma MoveKeeps(w: Table, t: Thread, p: Phase, holder: Option<Thread>)
    requires Inv(w) && Moves(w, t, p, holder)
    ensures Inv(Moved(w, t, p, holder))
  {
    var w' := Moved(w, t, p, holder);
    assert ThreadOK(w, t);
    forall k | k in w'.table ensures KeyOK(w', k) {
      MoveKeepsKey(w, t, p, holder, k);
    }
    forall u | u in w'.threads ensures ThreadOK(w', u) {
      assert ThreadOK(w, u);
    }
    hide KeyOK;
  }

  lemma MoveKeepsKey(w: Table, t: Thread, p: Phase, holder: Option<Thread>, k: string)
    requires Inv(w) && Moves(w, t, p, holder) && k in w.table
    ensures ValidTable(Moved(w, t, p, holder)) && KeyOK(Moved(w, t, p, holder), k)
  {
    assert ThreadOK(w, t) && KeyOK(w, k);
    UsersMove(w.threads, t, p, k);
    OneKeyPerLock(w, k, p.key);
    hide Users, LocksNotShared, Inv;
  }

  lemma RegisterKeeps(w: Table, t: Thread, key: string)
    requires Inv(w) && t !in w.threads
    ensures Inv(Registering(w, t, key))
  {
    var w' := Registering(w, t, key);
    RegisterSharesNothing(w, t, key);
    forall k | k in w'.table ensures KeyOK(w', k) {
      RegisterKeepsKey(w, t, key, k);
    }
    forall u | u in w'.threads ensures ThreadOK(w', u) {
      RegisterKeepsThread(w, t, key, u);
    }
    hide KeyOK, ThreadOK, LocksNotShared, Registering;
  }

  lemma RegisterSharesNothing(w: Table, t: Thread, key: string)
    requires Inv(w) && t !in w.threads
    ensures ValidTable(Registering(w, t, key)) && LocksNotShared(Registering(w, t, key))
  {
    hide KeyOK, ThreadOK;
  }

  lemma RegisterKeepsThread(w: Table, t: Thread, key: string, u: Thread)
    requires Inv(w) && t !in w.threads && (u == t || u in w.threads)
    ensures ValidTable(Registering(w, t, key)) && u in Registering(w, t, key).threads
            && ThreadOK(Registering(w, t, key), u)
  {
    RegisterSharesNothing(w, t, key);
    if u != t { assert ThreadOK(w, u); }
    hide KeyOK, LocksNotShared;
  }

  lemma RegisterKeepsKey(w: Table, t: Thread, key: string, k: string)
    requires Inv(w) && t !in w.threads && (k in w.table || k == key)
    ensures ValidTable(Registering(w, t, key)) && k in Registering(w, t, key).table && KeyOK(Registering(w, t, key), k)
  {
    if k == key { RegisterCounts(w, t, key); } else { RegisterKeepsOther(w, t, key, k); }
    RegisterSharesNothing(w, t, key);
    hide Users, LocksNotShared, ThreadOK, Inv, KeyOK;
  }

  lemma RegisterCounts(w: Table, t: Thread, key: string)
    requires Inv(w) && t !in w.threads
    ensures ValidTable(Registering(w, t, key)) && KeyOK(Registering(w, t, key), key)
  {
    UsersAdd(w.threads, t, Registering(w, t, key).threads[t], key);
    NoEntryNoUsers(w, key);
    RegisterSharesNothing(w, t, key);
    if key in w.table { assert KeyOK(w, key); }
    hide Users, LocksNotShared, ThreadOK, Inv, ValidTable;
  }

  lemma RegisterKeepsOther(w: Table, t: Thread, key: string, k: string)
    requires Inv(w) && t !in w.threads && k in w.table && k != key
    ensures ValidTable(Registering(w, t, key)) && KeyOK(Registering(w, t, key), k)
  {
    UsersAdd(w.threads, t, Registering(w, t, key).threads[t], k);
    OneKeyPerLock(w, k, key);
    RegisterSharesNothing(w, t, key);
    assert KeyOK(w, k);
    hide Users, LocksNotShared, ThreadOK, Inv, ValidTable;
  }

  lemma OneKeyPerLock(w: Table, j: string, k: string)
    requires LocksNotShared(w)
    ensures j in w.table && k in w.table && w.table[j] == w.table[k] ==> j == k
  {
  }

  lemma NoEntryNoUsers(w: Table, k: string)
    requires Inv(w)
    ensures k !in w.table ==> Users(w.threads, k) == {}
  {
    forall t | t in w.threads ensures w.threads[t].key in w.table { assert ThreadOK(w, t); }
  }

  lemma DeregisterKeeps(w: Table, t: Thread)
    requires Inv(w) && t in w.threads && w.threads[t].Released?
    ensures Inv(Deregistering(w, t))
  {
    var w' := Deregistering(w, t);
    forall k | k in w'.table ensures KeyOK(w', k) {
      DeregisterKeepsKey(w, t, k);
    }
    forall u | u in w'.threads ensures ThreadOK(w', u) {
      DeregisterKeepsThread(w, t, u);
    }
    hide KeyOK, ThreadOK;
  }

  lemma DeregisterKeepsKey(w: Table, t: Thread, k: string)
    requires Inv(w) && t in w.threads && w.threads[t].Released? && k in Deregistering(w, t).table
    ensures ValidTable(Deregistering(w, t)) && KeyOK(Deregistering(w, t), k)
  {
    assert ThreadOK(w, t) && KeyOK(w, w.threads[t].key) && KeyOK(w, k);
    UsersDrop(w.threads, t, k);
    OneKeyPerLock(w, k, w.threads[t].key);
    hide Users, LocksNotShared, Inv;
  }

  lemma DeregisterKeepsThread(w: Table, t: Thread, u: Thread)
    requires Inv(w) && t in w.threads && w.threads[t].Released? && u in Deregistering(w, t).threads
    ensures ValidTable(Deregistering(w, t)) && ThreadOK(Deregistering(w, t), u)
  {
    var key := w.threads[t].key;
    assert ThreadOK(w, t) && KeyOK(w, key) && ThreadOK(w, u);
    UsersDrop(w.threads, t, key);
    if w.threads[u].key == key {
      assert u in Users(w.threads - {t}, key);
    }
    hide LocksNotShared, Inv;
  }

  // ---------------------------------------------------------------- main results

  function Run(events: seq<Event>): Option<Table>
    decreases |events|
  {
    if events == [] then Some(Empty())
    else
      var before := Run(events[..|events| - 1]);
      if before.None? || !ValidTable(before.value) || !Enabled(before.value, events[|events| - 1]) then None
      else Some(Step(before.value, events[|events| - 1]))
  }

  /** Over all interleavings of all threads: the entry of a key exists exactly while some thread is
      between its registration and its final decrement, it counts these threads, they all share its
      lock object, and at most one of them is inside. */
  lemma {:induction false} LockDiscipline(events: seq<Event>)
    requires Run(events).Some?
    ensures var w := Run(events).value;
            && Inv(w)
            && (forall k :: k in w.table <==> Users(w.threads, k) != {})
            && (forall k :: k in w.table ==> w.locks[w.table[k]].refs == |Users(w.threads, k)|)
            && (forall t, u :: t in w.threads && u in w.threads && w.threads[t].key == w.threads[u].key ==>
              w.threads[t].lock == w.threads[u].lock)
            && (forall t, u :: t in w.threads && u in w.threads && w.threads[t].key == w.threads[u].key ==>
                  w.threads[t].Inside? && w.threads[u].Inside? ==> t == u)
    decreases |events|
  {
    var w := Run(events).value;
    if events != [] {
      LockDiscipline(events[..|events| - 1]);
      StepKeeps(Run(events[..|events| - 1]).value, events[|events| - 1]);
    }
    hide Run, Step;
    forall k ensures k in w.table <==> Users(w.threads, k) != {} {
      NoEntryNoUsers(w, k);
      if k in w.table { assert KeyOK(w, k); }
    }
    forall k | k in w.table ensures w.locks[w.table[k]].refs == |Users(w.threads, k)| {
      assert KeyOK(w, k);
    }
    forall t, u | t in w.threads && u in w.threads && w.threads[t].key == w.threads[u].key
      ensures w.threads[t].lock == w.threads[u].lock
      ensures w.threads[t].Inside? && w.threads[u].Inside? ==> t == u
    {
      assert ThreadOK(w, t) && ThreadOK(w, u);
    }
  }

  /** At quiescence the table is empty. */
  lemma QuiescentTableEmpty(events: seq<Event>)
    requires Run(events).Some? && Run(events).value.threads == map[]
    ensures Run(events).value.table == map[]
  {
    var w := Run(events).value;
    LockDiscipline(events);
    assert forall k :: Users(w.threads, k) == {};
  }

  /** No deadlock: while a thread is in the protocol, some thread can go on. */
  lemma SomeThreadCanGoOn(events: seq<Event>)
    requires Run(events).Some? && Run(events).value.threads != map[]
    ensures exists e: Event :: !e.Register? && ValidTable(Run(events).value) && Enabled(Run(events).value, e)
  {
    var w := Run(events).value;
    LockDiscipline(events);
    var t :| t in w.threads;
    assert ThreadOK(w, t) && KeyOK(w, w.threads[t].key);
    match w.threads[t]
    case Inside(_, _) => assert Enabled(w, Leave(t));
    case Released(_, _) => assert Enabled(w, Deregister(t));
    case Registered(_, lock) =>
      match w.locks[lock].holder
      case None => assert Enabled(w, Enter(t));
      case Some(u) => assert Enabled(w, Leave(u));
  }

  function StepsOf(p: Phase): nat {
    match p case Registered(_, _) => 3 case Inside(_, _) => 2 case Released(_, _) => 1
  }

  /** The steps left before every thread is idle again. */
  function StepsLeft(threads: map<Thread, Phase>): set<(Thread, nat)> {
    set t, i | t in threads && i in {0, 1, 2} && i < StepsOf(threads[t]) :: (t, i)
  }

  /** A thread that goes on uses up its last step; a thread without steps left is gone. */
  lemma OneStepUsed(threads: map<Thread, Phase>, threads': map<Thread, Phase>, t: Thread)
    requires t in threads
    requires threads' - {t} == threads - {t}
    requires if t in threads' then StepsOf(threads'[t]) == StepsOf(threads[t]) - 1 else StepsOf(threads[t]) == 1
    ensures |StepsLeft(threads')| == |StepsLeft(threads)| - 1
  {
    var last := (t, StepsOf(threads[t]) - 1);
    assert forall u :: u != t ==>
        (u in threads <==> u in threads - {t}) && (u in threads' <==> u in threads' - {t});
    assert forall u :: u in threads && u != t ==> threads[u] == (threads - {t})[u];
    assert forall u :: u in threads' && u != t ==> threads'[u] == (threads' - {t})[u];
    assert last in StepsLeft(threads);
    assert StepsLeft(threads') == StepsLeft(threads) - {last};
  }

  lemma NoStepsLeft(threads: map<Thread, Phase>)
    ensures StepsLeft(threads) == {} <==> threads == map[]
  {
    if threads != map[] {
      var t :| t in threads;
      assert (t, 0) in StepsLeft(threads);
    }
  }

  /** Every step but a registration is one of them. */
  lemma StepsLeftFalls(w: Table, e: Event)
    requires Inv(w) && Enabled(w, e) && !e.Register?
    ensures |StepsLeft(Step(w, e).threads)| == |StepsLeft(w.threads)| - 1
    ensures StepsLeft(w.threads) == {} <==> w.threads == map[]
  {
    NoStepsLeft(w.threads);
    hide KeyOK, ThreadOK, LocksNotShared, StepsLeft;
    assert Step(w, e).threads - {e.t} == w.threads - {e.t};
    OneStepUsed(w.threads, Step(w, e).threads, e.t);
  }

  // ---------------------------------------------------------------- the table in place

  class CredentialRefreshLock {
    var refs: int

    constructor ()
      ensures refs == 0
    {
      refs := 0;
    }
  }

  /** The entries are those of the keys in use, each with a lock of its own. */
  ghost predicate OneLockEach(locks: map<string, CredentialRefreshLock>, users: multiset<string>) {
    && locks.Keys == (set k | k in users)
    && forall j, k :: j in locks && k in locks && locks[j] == locks[k] ==> j == k
  }

  lemma UserMore(locks: map<string, CredentialRefreshLock>, users: multiset<string>, key: string,
      lock: CredentialRefreshLock)
    requires OneLockEach(locks, users) && (if key in locks then locks[key] == lock else lock !in locks.Values)
    ensures OneLockEach(locks[key := lock], users + multiset{key})
  {
    assert forall k :: k in locks ==> locks[k] in locks.Values;
  }

  lemma UserLess(locks: map<string, CredentialRefreshLock>, users: multiset<string>, key: string)
    requires OneLockEach(locks, users) && key in users
    ensures OneLockEach(if users[key] == 1 then locks - {key} else locks, users - multiset{key})
  {
  }

  /** The two critical sections of acquireRefreshLock on the map that they change in place; `users`
      are the keys of the threads between the two. */
  class RefreshLockTable {
    var refreshLocks: map<string, CredentialRefreshLock>
    ghost var users: multiset<string>

    ghost predicate Valid()
      reads this, refreshLocks.Values
    {
      && OneLockEach(refreshLocks, users)
      && forall k :: k in refreshLocks ==> refreshLocks[k].refs == users[k]
    }

    constructor ()
      ensures Valid() && users == multiset{}
    {
      refreshLocks, users := map[], multiset{};
    }

    /** A new user shares the lock of the users there are. */
    method Register(key: string) returns (lock: CredentialRefreshLock)
      requires Valid()
      modifies this, refreshLocks.Values
      ensures Valid() && users == old(users) + multiset{key}
      ensures key in refreshLocks && lock == refreshLocks[key]
      ensures forall k :: k in old(refreshLocks) ==> k in refreshLocks && refreshLocks[k] == old(refreshLocks)[k]
      ensures key !in old(users) ==> fresh(lock)
    {
      ghost var before := refreshLocks;
      assert key in refreshLocks <==> key in users;
      if key in refreshLocks {
        lock := refreshLocks[key];
      } else {
        lock := new CredentialRefreshLock();
        refreshLocks := refreshLocks[key := lock];
      }
      UserMore(before, users, key, lock);
      assert refreshLocks == before[key := lock];
      assert forall k :: k in before && k != key ==> before[k] != lock;
      hide OneLockEach;
      lock.refs := lock.refs + 1;
      users := users + multiset{key};
    }

    /** The last user removes the entry, and no other entry is touched. */
    method Deregister(key: string, lock: CredentialRefreshLock)
      requires Valid() && key in users && refreshLocks[key] == lock
      modifies this, refreshLocks.Values
      ensures Valid() && users == old(users) - multiset{key}
      ensures refreshLocks == if old(users)[key] == 1 then old(refreshLocks) - {key} else old(refreshLocks)
    {
      UserLess(refreshLocks, users, key);
      assert lock in refreshLocks.Values;
      assert forall k :: k in refreshLocks && k != key ==> refreshLocks[k] != lock;
      hide OneLockEach;
      lock.refs := lock.refs - 1;
      users := users - multiset{key};
      if lock.refs == 0 {
        refreshLocks := refreshLocks - {key};
      }
    }
  }
}
