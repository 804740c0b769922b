/** Backfill through providers without incremental sync: Sync with its backward "time-before:"
    cursor and its forward overlap of one second, over runs in which messages arrive and vanish,
    batches crash, retention and deletions remove cached messages, range restores cache others, and only
    complete or newest-first replies are returned. */
module Backfill {
  import opened Collections
  import opened Wrappers

  import opened CacheStore
  import opened MessageSync

  predicate InWindow(q: Query, m: Message)
    requires m.receivedAt.Some?
  {
    && (q.before.Some? ==> m.receivedAt.value < q.before.value)
    && (q.after.Some? ==> m.receivedAt.value >= q.after.value)
  }

  /** A reply below the limit holds every message of the window; one at the limit holds the newest,
      and its end does not separate messages of the same time. */
  ghost predicate Answers(server: set<Message>, q: Query, reply: seq<Message>) {
    && (forall m :: m in reply ==> m in server && (m.receivedAt.Some? ==> InWindow(q, m)))
    && (forall m :: m in server && m.receivedAt.Some? && InWindow(q, m) && m !in reply ==>
          |reply| >= q.limit && (Oldest(reply).Some? ==> m.receivedAt.value < Oldest(reply).value))
  }

  function NoIncremental(reply: RetrieveReply): Provider {
    Provider((request: SyncRequest) => NotConfigured, (query: Query) => reply)
  }

  /** One Sync of a mailbox folder. */
  function Attempted(c: CacheState, mailbox: string, folder: Folder, channel: Channel, reply: RetrieveReply, now: int,
      crash: CrashPoint): (CacheState, Outcome) {
    Sync(c, Target(mailbox, None), folder, channel, NoIncremental(reply), now, crash)
  }

  function StateOf(c: CacheState, mailbox: string, folder: Folder): SyncState {
    LoadState(c, Target(mailbox, None), folder)
  }

  function NextQuery(c: CacheState, mailbox: string, folder: Folder, channel: Channel): Query {
    FallbackQuery(StateOf(c, mailbox, folder), Target(mailbox, None), folder, channel)
  }

  /** A message that is not cached is yet to come: it is older than the cursor, or not older than
      the overlap before the newest cached message, or nothing was cached yet. */
  predicate YetToCome(s: SyncState, m: Message)
    requires m.receivedAt.Some?
  {
    || (s.cursor.TimeBefore? && m.receivedAt.value < s.cursor.time)
    || (s.lastMessageAt.Some? && m.receivedAt.value >= s.lastMessageAt.value - OVERLAP)
    || s.lastMessageAt.None?
  }

  /** `removed` are the keys that a retention or a deletion has taken out of the cache. */
  predicate Covered(c: CacheState, mailbox: string, folder: Folder, removed: set<Key>, m: Message) {
    Cacheable(m) ==>
      || Cached(c, mailbox, folder, m)
      || KeyOf(mailbox, folder, m) in removed
      || YetToCome(StateOf(c, mailbox, folder), m)
  }

  predicate Coverage(server: set<Message>, c: CacheState, mailbox: string, folder: Folder, removed: set<Key>) {
    forall m :: m in server ==> Covered(c, mailbox, folder, removed, m)
  }

  // ---------------------------------------------------------------- one batch

  lemma FetchesReply(s: SyncState, mailbox: string, folder: Folder, channel: Channel, reply: seq<Message>)
    ensures Fetch(s, Target(mailbox, None), folder, channel, NoIncremental(Retrieved(reply)))
         == Fetched(reply, [], channel, FallbackState(s, reply), |reply| < BATCH_LIMIT, None)
    ensures FallbackState(s, reply) == s.(cursor := FallbackState(s, reply).cursor)
  {
  }

  /** What a retrieved batch does: it caches every cacheable message of the reply, forgets nothing,
      and saves the next cursor unless it crashes. */
  lemma AttemptDoes(c: CacheState, mailbox: string, folder: Folder, channel: Channel, reply: seq<Message>, now: int,
      crash: CrashPoint)
    requires mailbox in c.mailboxes
    ensures var (c', outcome) := Attempted(c, mailbox, folder, channel, Retrieved(reply), now, crash);
            var s, s' := StateOf(c, mailbox, folder), StateOf(c', mailbox, folder);
            && c'.mailboxes == c.mailboxes
            && c'.messages == (if crash == BeforeUpsert then c
              else AfterUpsertOf(c, mailbox, folder, channel, reply)).messages
            && (if crash != NoCrash then outcome == Crashed && s' == s
                else
                  && outcome.Done? && outcome.complete == (|reply| < BATCH_LIMIT)
                  && s'.cursor == FallbackState(s, reply).cursor
                  && s'.lastMessageAt == Newest(s.lastMessageAt,
                    CacheBatch(Target(mailbox, None), folder, channel, reply)))
  {
    var s := StateOf(c, mailbox, folder);
    FetchesReply(s, mailbox, folder, channel, reply);
    StoreCaches(c, mailbox, folder, Fetched(reply, [], channel, FallbackState(s, reply), |reply| < BATCH_LIMIT, None),
      now, crash);
    hide Fetch, FallbackState, StoreBatch;
  }

  /** The newest cached time only grows, to the time of a message of the reply. */
  lemma NewestOfReply(last: Option<int>, mailbox: string, folder: Folder, channel: Channel, reply: seq<Message>)
    ensures var last' := Newest(last, CacheBatch(Target(mailbox, None), folder, channel, reply));
            && (last.Some? ==> last'.Some? && last'.value >= last.value)
            && (last' == last || exists m :: m in reply && m.receivedAt.Some? && last' == m.receivedAt)
  {
    var batch := CacheBatch(Target(mailbox, None), folder, channel, reply);
    NewestIsGreatest(last, batch);
    CacheBatchHolds(Target(mailbox, None), folder, channel, reply);
    hide CacheBatch, Newest;
  }

  /** Every batch keeps every message of the server covered. */
  lemma AttemptKeepsCoverage(server: set<Message>, c: CacheState, mailbox: string, folder: Folder, channel: Channel,
      reply: seq<Message>, now: int, crash: CrashPoint, removed: set<Key>)
    requires mailbox in c.mailboxes && Coverage(server, c, mailbox, folder, removed)
    requires Answers(server, NextQuery(c, mailbox, folder, channel), reply)
    ensures Coverage(server, Attempted(c, mailbox, folder, channel, Retrieved(reply), now, crash).0, mailbox, folder,
                     removed)
  {
    AttemptDoes(c, mailbox, folder, channel, reply, now, crash);
    UpsertCaches(c, mailbox, folder, channel, reply);
    NewestOfReply(StateOf(c, mailbox, folder).lastMessageAt, mailbox, folder, channel, reply);
    OldestIsLeast(reply);
    hide Attempted, CacheBatch, Newest, Oldest, AfterUpsertOf;
    var c' := Attempted(c, mailbox, folder, channel, Retrieved(reply), now, crash).0;
    forall m | m in server ensures Covered(c', mailbox, folder, removed, m) {
      assert Covered(c, mailbox, folder, removed, m);
    }
  }

  /** A batch that reports Complete and did not start from a cursor leaves every message cached that was
      not removed. */
  lemma CompleteCachesAll(server: set<Message>, c: CacheState, mailbox: string, folder: Folder, channel: Channel,
      reply: seq<Message>, now: int, crash: CrashPoint, removed: set<Key>)
    requires mailbox in c.mailboxes && Coverage(server, c, mailbox, folder, removed)
    requires Answers(server, NextQuery(c, mailbox, folder, channel), reply)
    requires !StateOf(c, mailbox, folder).cursor.TimeBefore?
    ensures var (c', outcome) := Attempted(c, mailbox, folder, channel, Retrieved(reply), now, crash);
            outcome.Done? && outcome.complete ==> forall m :: m in server && Cacheable(m) ==>
              Cached(c', mailbox, folder, m) || KeyOf(mailbox, folder, m) in removed
  {
    AttemptDoes(c, mailbox, folder, channel, reply, now, crash);
    UpsertCaches(c, mailbox, folder, channel, reply);
    hide Attempted, CacheBatch, Newest, Oldest, AfterUpsertOf;
    var c' := Attempted(c, mailbox, folder, channel, Retrieved(reply), now, crash).0;
    forall m | m in server && Cacheable(m) && |reply| < BATCH_LIMIT && crash == NoCrash
      ensures Cached(c', mailbox, folder, m) || KeyOf(mailbox, folder, m) in removed
    {
      assert Covered(c, mailbox, folder, removed, m);
    }
  }

  // ---------------------------------------------------------------- failed retrievals

  function Failure(c: CacheState, mailbox: string, folder: Folder, channel: Channel, error: string,
      now: int): CacheState {
    Attempted(c, mailbox, folder, channel, RetrieveFailed(error), now, NoCrash).0
  }

  /** A failed retrieval counts as complete: it clears the cursor, and changes nothing else that
      matters here. */
  lemma FailureDoes(c: CacheState, mailbox: string, folder: Folder, channel: Channel, error: string, now: int)
    ensures var c' := Failure(c, mailbox, folder, channel, error, now);
            && c'.mailboxes == c.mailboxes && c'.messages == c.messages
            && StateOf(c', mailbox, folder).cursor == NoCursor
            && StateOf(c', mailbox, folder).lastMessageAt == StateOf(c, mailbox, folder).lastMessageAt
  {
    var s := StateOf(c, mailbox, folder);
    var f := Fetched([], [], channel, s.(cursor := NoCursor), true, Some(error));
    assert Fetch(s, Target(mailbox, None), folder, channel, NoIncremental(RetrieveFailed(error))) == f;
    hide Fetch;
  }

  /** No backfill is in progress, or nothing was cached yet. */
  predicate FailureIsHarmless(s: SyncState) {
    !s.cursor.TimeBefore? || s.lastMessageAt.None?
  }

  lemma HarmlessFailureCovers(server: set<Message>, c: CacheState, mailbox: string, folder: Folder, channel: Channel,
      error: string, now: int, removed: set<Key>)
    requires Coverage(server, c, mailbox, folder, removed) && FailureIsHarmless(StateOf(c, mailbox, folder))
    ensures Coverage(server, Failure(c, mailbox, folder, channel, error, now), mailbox, folder, removed)
  {
    FailureDoes(c, mailbox, folder, channel, error, now);
    hide Failure;
    forall m | m in server ensures Covered(Failure(c, mailbox, folder, channel, error, now), mailbox, folder, removed,
      m)
    {
      assert Covered(c, mailbox, folder, removed, m);
    }
  }

  /** Older than the cursor and the overlap of a state. */
  function OlderMessage(s: SyncState): Message
    requires !FailureIsHarmless(s)
  {
    var overlap := s.lastMessageAt.value - OVERLAP;
    Message("m", "", Some((if s.cursor.time < overlap then s.cursor.time else overlap) - 1), "", {})
  }

  /** With any other state some covered message is lost from sight. */
  lemma HarmfulFailureUncovers(s: SyncState, mailbox: string, folder: Folder, channel: Channel, error: string, now: int)
    requires !FailureIsHarmless(s)
    ensures var server, c := {OlderMessage(s)}, CacheState({mailbox}, map[], map[(mailbox, folder) := s]);
            && StateOf(c, mailbox, folder) == s && Coverage(server, c, mailbox, folder, {})
            && !Coverage(server, Failure(c, mailbox, folder, channel, error, now), mailbox, folder, {})
  {
    var c := CacheState({mailbox}, map[], map[(mailbox, folder) := s]);
    FailureDoes(c, mailbox, folder, channel, error, now);
    hide Failure;
    assert !Covered(Failure(c, mailbox, folder, channel, error, now), mailbox, folder, {}, OlderMessage(s));
  }

  ghost predicate SurvivesFailure(s: SyncState, mailbox: string, folder: Folder, channel: Channel, error: string,
      now: int) {
    forall server, c, removed :: StateOf(c, mailbox, folder) == s && Coverage(server, c, mailbox, folder, removed) ==>
      Coverage(server, Failure(c, mailbox, folder, channel, error, now), mailbox, folder, removed)
  }

  /** Coverage survives a failed retrieval, whatever the server and the cache hold, exactly when no
      backfill is in progress or nothing was cached yet. */
  lemma FailedRetrieveCoversIff(s: SyncState, mailbox: string, folder: Folder, channel: Channel, error: string,
      now: int)
    ensures SurvivesFailure(s, mailbox, folder, channel, error, now) <==> FailureIsHarmless(s)
  {
    if FailureIsHarmless(s) {
      forall server, c, removed | StateOf(c, mailbox, folder) == s && Coverage(server, c, mailbox, folder, removed)
        ensures Coverage(server, Failure(c, mailbox, folder, channel, error, now), mailbox, folder, removed)
      {
        HarmlessFailureCovers(server, c, mailbox, folder, channel, error, now, removed);
      }
    } else {
      HarmfulFailureUncovers(s, mailbox, folder, channel, error, now);
      hide Coverage, Failure, StateOf, FailureIsHarmless;
    }
  }

  // ---------------------------------------------------------------- runs

  /** The messages there are, the newest time of a message the server has ever had, the cache, and the
      keys that were removed from it. */
  datatype World = World(server: set<Message>, newest: Option<int>, c: CacheState, removed: set<Key>)

  datatype Event =
    | Arrive(m: Message)
    | Vanish(m: Message)
    | Attempt(reply: seq<Message>, now: int, crash: CrashPoint)
    | Fail(error: string, now: int)
    | Forget(keys: set<Key>)
    | Recall(messages: seq<Message>)

  function Latest(a: Option<int>, b: Option<int>): Option<int> {
    if a.None? then b else if b.None? || b.value <= a.value then a else b
  }

  /** A message arrives at most the overlap later than newer ones; replies answer their queries;
      retrievals fail when it is harmless. */
  ghost predicate Possible(mailbox: string, folder: Folder, channel: Channel, w: World, e: Event) {
    match e
    case Arrive(m) => m.receivedAt.Some? && w.newest.Some? ==> m.receivedAt.value >= w.newest.value - OVERLAP
    case Attempt(reply, now, crash) => Answers(w.server, NextQuery(w.c, mailbox, folder, channel), reply)
    case Fail(error, now) => FailureIsHarmless(StateOf(w.c, mailbox, folder))
    case _ => true
  }

  /** Forget is a retention, a purge or the deletion of a range; Recall is the restore of a range. */
  function Step(mailbox: string, folder: Folder, channel: Channel, w: World, e: Event): World {
    match e
    case Arrive(m) => w.(server := w.server + {m}, newest := Latest(w.newest, m.receivedAt))
    case Vanish(m) => w.(server := w.server - {m})
    case Attempt(reply, now, crash) => w.(c := Attempted(w.c, mailbox, folder, channel, Retrieved(reply), now, crash).0)
    case Fail(error, now) => w.(c := Failure(w.c, mailbox, folder, channel, error, now))
    case Forget(keys) => w.(c := w.c.(messages := w.c.messages - keys), removed := w.removed + keys)
    case Recall(messages) => w.(c := AfterUpsertOf(w.c, mailbox, folder, channel, messages))
  }

  function Run(mailbox: string, folder: Folder, channel: Channel, w: World, events: seq<Event>): World
    decreases |events|
  {
    if events == [] then w
    else Step(mailbox, folder, channel, Run(mailbox, folder, channel, w, events[..|events| - 1]), events[|events| - 1])
  }

  ghost predicate PossibleRun(mailbox: string, folder: Folder, channel: Channel, w: World, events: seq<Event>)
    decreases |events|
  {
    events != [] ==>
      && PossibleRun(mailbox, folder, channel, w, events[..|events| - 1])
      && Possible(mailbox, folder, channel, Run(mailbox, folder, channel, w, events[..|events| - 1]),
        events[|events| - 1])
  }

  /** No message is newer than the newest time. */
  predicate Bounded(server: set<Message>, newest: Option<int>) {
    forall m :: m in server && m.receivedAt.Some? ==> newest.Some? && m.receivedAt.value <= newest.value
  }

  predicate Inv(mailbox: string, folder: Folder, w: World) {
    var last := StateOf(w.c, mailbox, folder).lastMessageAt;
    && mailbox in w.c.mailboxes && Bounded(w.server, w.newest)
    && (last.Some? ==> w.newest.Some? && last.value <= w.newest.value)
    && Coverage(w.server, w.c, mailbox, folder, w.removed)
  }

  lemma AttemptKeeps(mailbox: string, folder: Folder, channel: Channel, w: World, e: Event)
    requires Inv(mailbox, folder, w) && e.Attempt? && Possible(mailbox, folder, channel, w, e)
    ensures Inv(mailbox, folder, Step(mailbox, folder, channel, w, e))
  {
    AttemptKeepsCoverage(w.server, w.c, mailbox, folder, channel, e.reply, e.now, e.crash, w.removed);
    AttemptDoes(w.c, mailbox, folder, channel, e.reply, e.now, e.crash);
    NewestOfReply(StateOf(w.c, mailbox, folder).lastMessageAt, mailbox, folder, channel, e.reply);
    hide Coverage, Attempted, CacheBatch, Newest, AfterUpsertOf;
  }

  lemma FailKeeps(mailbox: string, folder: Folder, channel: Channel, w: World, e: Event)
    requires Inv(mailbox, folder, w) && e.Fail? && Possible(mailbox, folder, channel, w, e)
    ensures Inv(mailbox, folder, Step(mailbox, folder, channel, w, e))
  {
    HarmlessFailureCovers(w.server, w.c, mailbox, folder, channel, e.error, e.now, w.removed);
    FailureDoes(w.c, mailbox, folder, channel, e.error, e.now);
    hide Coverage, Failure, Bounded;
  }

  /** A new message is yet to come. */
  lemma ArriveKeeps(mailbox: string, folder: Folder, channel: Channel, w: World, e: Event)
    requires Inv(mailbox, folder, w) && e.Arrive? && Possible(mailbox, folder, channel, w, e)
    ensures Inv(mailbox, folder, Step(mailbox, folder, channel, w, e))
  {
    assert Covered(w.c, mailbox, folder, w.removed, e.m);
    hide Covered;
  }

  lemma ForgetKeeps(mailbox: string, folder: Folder, channel: Channel, w: World, e: Event)
    requires Inv(mailbox, folder, w) && (e.Forget? || e.Vanish?)
    ensures Inv(mailbox, folder, Step(mailbox, folder, channel, w, e))
  {
    forall m | m in w.server ensures Covered(Step(mailbox, folder, channel, w, e).c, mailbox, folder,
                                             Step(mailbox, folder, channel, w, e).removed, m)
    {
      assert Covered(w.c, mailbox, folder, w.removed, m);
    }
    hide Covered;
  }

  lemma RecallKeeps(mailbox: string, folder: Folder, channel: Channel, w: World, e: Event)
    requires Inv(mailbox, folder, w) && e.Recall?
    ensures Inv(mailbox, folder, Step(mailbox, folder, channel, w, e))
  {
    UpsertCaches(w.c, mailbox, folder, channel, e.messages);
    hide AfterUpsertOf;
    forall m | m in w.server ensures Covered(Step(mailbox, folder, channel, w, e).c, mailbox, folder, w.removed, m) {
      assert Covered(w.c, mailbox, folder, w.removed, m);
    }
  }

  lemma StepKeeps(mailbox: string, folder: Folder, channel: Channel, w: World, e: Event)
    requires Inv(mailbox, folder, w) && Possible(mailbox, folder, channel, w, e)
    ensures Inv(mailbox, folder, Step(mailbox, folder, channel, w, e))
  {
    hide Inv, Possible, Step;
    match e
    case Arrive(_) => ArriveKeeps(mailbox, folder, channel, w, e);
    case Attempt(_, _, _) => AttemptKeeps(mailbox, folder, channel, w, e);
    case Fail(_, _) => FailKeeps(mailbox, folder, channel, w, e);
    case Recall(_) => RecallKeeps(mailbox, folder, channel, w, e);
    case _ => ForgetKeeps(mailbox, folder, channel, w, e);
  }

  lemma {:induction false} RunKeeps(mailbox: string, folder: Folder, channel: Channel, w: World, events: seq<Event>)
    requires Inv(mailbox, folder, w) && PossibleRun(mailbox, folder, channel, w, events)
    ensures Inv(mailbox, folder, Run(mailbox, folder, channel, w, events))
    decreases |events|
  {
    if events != [] {
      RunKeeps(mailbox, folder, channel, w, events[..|events| - 1]);
      StepKeeps(mailbox, folder, channel, Run(mailbox, folder, channel, w, events[..|events| - 1]),
        events[|events| - 1]);
      hide Inv, Step, Possible;
    }
  }

  /** From a mailbox never synced before, every run keeps every message covered. */
  lemma RunCovers(mailbox: string, folder: Folder, channel: Channel, w: World, events: seq<Event>)
    requires mailbox in w.c.mailboxes && (mailbox, folder) !in w.c.states && Bounded(w.server, w.newest)
    requires PossibleRun(mailbox, folder, channel, w, events)
    ensures var end := Run(mailbox, folder, channel, w, events);
            mailbox in end.c.mailboxes && Coverage(end.server, end.c, mailbox, folder, end.removed)
  {
    assert Inv(mailbox, folder, w);
    RunKeeps(mailbox, folder, channel, w, events);
    hide Run, PossibleRun, Coverage;
  }

  /** After any run, a sync that starts without a cursor and reports Complete leaves the whole
      mailbox cached, but for what was removed. */
  lemma CompleteSyncAfterRun(mailbox: string, folder: Folder, channel: Channel, w: World, events: seq<Event>)
    requires events != [] && events[|events| - 1].Attempt?
    requires mailbox in w.c.mailboxes && (mailbox, folder) !in w.c.states && Bounded(w.server, w.newest)
    requires PossibleRun(mailbox, folder, channel, w, events)
    ensures var before := Run(mailbox, folder, channel, w, events[..|events| - 1]);
            var last := events[|events| - 1];
            var (c, outcome) := Attempted(before.c, mailbox, folder, channel, Retrieved(last.reply), last.now,
              last.crash);
            outcome.Done? && outcome.complete && !StateOf(before.c, mailbox, folder).cursor.TimeBefore? ==>
              forall m :: m in before.server && Cacheable(m) ==>
                Cached(c, mailbox, folder, m) || KeyOf(mailbox, folder, m) in before.removed
  {
    var before, last := Run(mailbox, folder, channel, w, events[..|events| - 1]), events[|events| - 1];
    RunCovers(mailbox, folder, channel, w, events[..|events| - 1]);
    hide Answers, NextQuery, Coverage, Attempted, Run;
    if !StateOf(before.c, mailbox, folder).cursor.TimeBefore? {
      CompleteCachesAll(before.server, before.c, mailbox, folder, channel, last.reply, last.now, last.crash,
                        before.removed);
    }
  }

  // ---------------------------------------------------------------- draining

  /** The dated messages that lie before the cursor. */
  function Backlog(server: set<Message>, s: SyncState): set<Message> {
    set m | m in server && m.receivedAt.Some? && (s.cursor.TimeBefore? ==> m.receivedAt.value < s.cursor.time)
  }

  /** An incomplete batch shrinks the backlog exactly when its reply has a dated message, which moves
      the cursor back. */
  lemma IncompleteShrinksBacklog(server: set<Message>, c: CacheState, mailbox: string, folder: Folder,
      channel: Channel, reply: seq<Message>, now: int)
    requires mailbox in c.mailboxes && Answers(server, NextQuery(c, mailbox, folder, channel), reply)
    ensures var (c', outcome) := Attempted(c, mailbox, folder, channel, Retrieved(reply), now, NoCrash);
            outcome.Done? && !outcome.complete ==>
              (Backlog(server, StateOf(c', mailbox, folder)) < Backlog(server, StateOf(c, mailbox, folder))
               <==> exists m :: m in reply && m.receivedAt.Some?)
  {
    AttemptDoes(c, mailbox, folder, channel, reply, now, NoCrash);
    OldestIsLeast(reply);
    var c' := Attempted(c, mailbox, folder, channel, Retrieved(reply), now, NoCrash).0;
    hide Attempted, CacheBatch, Newest, Oldest, AfterUpsertOf;
    if |reply| >= BATCH_LIMIT && Oldest(reply).Some? {
      var m :| m in reply && m.receivedAt == Oldest(reply);
      assert m in Backlog(server, StateOf(c, mailbox, folder)) && m !in Backlog(server, StateOf(c', mailbox, folder));
    }
  }

  /** One incomplete batch after the other, each with a dated message. */
  ghost predicate Draining(mailbox: string, folder: Folder, channel: Channel, w: World, events: seq<Event>)
    decreases |events|
  {
    events != [] ==>
      var before, e := Run(mailbox, folder, channel, w, events[..|events| - 1]), events[|events| - 1];
      && Draining(mailbox, folder, channel, w, events[..|events| - 1])
      && e.Attempt? && e.crash == NoCrash && |e.reply| >= BATCH_LIMIT
      && Answers(before.server, NextQuery(before.c, mailbox, folder, channel), e.reply)
      && exists m :: m in e.reply && m.receivedAt.Some?
  }

  /** Draining ends: there are no more incomplete batches in a row than messages in the backlog. */
  lemma {:induction false} DrainingIsBounded(mailbox: string, folder: Folder, channel: Channel, w: World,
      events: seq<Event>)
    requires mailbox in w.c.mailboxes && Draining(mailbox, folder, channel, w, events)
    ensures var end := Run(mailbox, folder, channel, w, events);
            && mailbox in end.c.mailboxes && end.server == w.server
            && |events| + |Backlog(end.server, StateOf(end.c, mailbox, folder))|
              <= |Backlog(w.server, StateOf(w.c, mailbox, folder))|
    decreases |events|
  {
    if events != [] {
      var before, e := Run(mailbox, folder, channel, w, events[..|events| - 1]), events[|events| - 1];
      DrainingIsBounded(mailbox, folder, channel, w, events[..|events| - 1]);
      IncompleteShrinksBacklog(before.server, before.c, mailbox, folder, channel, e.reply, e.now);
      AttemptDoes(before.c, mailbox, folder, channel, e.reply, e.now, NoCrash);
      hide Attempted, CacheBatch, Newest, AfterUpsertOf, Answers, Backlog, StateOf, FallbackState;
      ProperSubsetSize(Backlog(w.server,
        StateOf(Attempted(before.c, mailbox, folder, channel, Retrieved(e.reply), e.now, NoCrash).0, mailbox, folder)),
                       Backlog(w.server, StateOf(before.c, mailbox, folder)));
    }
  }

  // ---------------------------------------------------------------- what a failure loses

  /** No backfill is in progress, and an uncached message is older than the overlap; no other message
      has its key. */
  predicate OutOfSight(mailbox: string, folder: Folder, w: World, m: Message) {
    var s := StateOf(w.c, mailbox, folder);
    && mailbox in w.c.mailboxes && Cacheable(m) && !Cached(w.c, mailbox, folder, m)
    && !s.cursor.TimeBefore? && s.lastMessageAt.Some? && m.receivedAt.value < s.lastMessageAt.value - OVERLAP
    && forall x :: x in w.server && x != m ==> ExternalID(x) != ExternalID(m)
  }

  /** Replies answer their queries and stay below the batch limit; retrievals may fail; restores are of
      other messages. */
  ghost predicate Short(mailbox: string, folder: Folder, channel: Channel, w: World, e: Event, m: Message) {
    match e
    case Arrive(x) => x != m ==> ExternalID(x) != ExternalID(m)
    case Vanish(x) => true
    case Attempt(reply, now, crash) =>
      Answers(w.server, NextQuery(w.c, mailbox, folder, channel), reply) && |reply| < BATCH_LIMIT
    case Fail(error, now) => true
    case Forget(keys) => true
    case Recall(messages) => forall x :: x in messages ==> ExternalID(x) != ExternalID(m)
  }

  ghost predicate ShortRun(mailbox: string, folder: Folder, channel: Channel, w: World, events: seq<Event>, m: Message)
    decreases |events|
  {
    events != [] ==>
      && ShortRun(mailbox, folder, channel, w, events[..|events| - 1], m)
      && Short(mailbox, folder, channel, Run(mailbox, folder, channel, w, events[..|events| - 1]), events[|events| - 1],
        m)
  }

  lemma ShortStepLeavesOut(mailbox: string, folder: Folder, channel: Channel, w: World, e: Event, m: Message)
    requires OutOfSight(mailbox, folder, w, m) && Short(mailbox, folder, channel, w, e, m)
    ensures OutOfSight(mailbox, folder, Step(mailbox, folder, channel, w, e), m)
  {
    if e.Attempt? {
      assert forall x :: x in e.reply ==> ExternalID(x) != ExternalID(m);
      AttemptDoes(w.c, mailbox, folder, channel, e.reply, e.now, e.crash);
      UpsertCachesOnly(w.c, mailbox, folder, channel, e.reply, m);
      NewestOfReply(StateOf(w.c, mailbox, folder).lastMessageAt, mailbox, folder, channel, e.reply);
      hide Attempted, CacheBatch, Newest, Oldest, AfterUpsertOf, Answers;
    } else if e.Fail? {
      FailureDoes(w.c, mailbox, folder, channel, e.error, e.now);
      hide Failure;
    } else if e.Recall? {
      UpsertCaches(w.c, mailbox, folder, channel, e.messages);
      UpsertCachesOnly(w.c, mailbox, folder, channel, e.messages, m);
      hide AfterUpsertOf;
    }
  }

  lemma UpsertCachesOnly(c: CacheState, mailbox: string, folder: Folder, channel: Channel, reply: seq<Message>,
      m: Message)
    requires mailbox in c.mailboxes && !Cached(c, mailbox, folder, m)
    requires forall x :: x in reply ==> ExternalID(x) != ExternalID(m)
    ensures !Cached(AfterUpsertOf(c, mailbox, folder, channel, reply), mailbox, folder, m)
  {
    var batch := CacheBatch(Target(mailbox, None), folder, channel, reply);
    BatchInMailbox(mailbox, folder, channel, reply, c.mailboxes);
    UpsertKeys(c, batch);
    CacheBatchHolds(Target(mailbox, None), folder, channel, reply);
    hide CacheBatch, Upsert, InMailboxes;
    if KeyOf(mailbox, folder, m) in BatchKeys(batch) {
      var e := EntryOfKey(batch, KeyOf(mailbox, folder, m));
    }
  }

  lemma {:induction false} EntryOfKey(batch: seq<Entry>, key: Key) returns (e: Entry)
    requires key in BatchKeys(batch)
    ensures e in batch && e.0 == key
    decreases |batch|
  {
    if batch[0].0 == key { e := batch[0]; } else { e := EntryOfKey(batch[1..], key); }
  }

  /** A message out of sight is not cached as long as no reply reaches the batch limit. */
  lemma {:induction false} ShortRunLeavesOut(mailbox: string, folder: Folder, channel: Channel, w: World,
      events: seq<Event>, m: Message)
    requires OutOfSight(mailbox, folder, w, m) && ShortRun(mailbox, folder, channel, w, events, m)
    ensures OutOfSight(mailbox, folder, Run(mailbox, folder, channel, w, events), m)
    decreases |events|
  {
    if events != [] {
      ShortRunLeavesOut(mailbox, folder, channel, w, events[..|events| - 1], m);
      ShortStepLeavesOut(mailbox, folder, channel, Run(mailbox, folder, channel, w, events[..|events| - 1]),
        events[|events| - 1], m);
      hide Step, OutOfSight, Short;
    }
  }

  // A mailbox with one message more than the batch limit, two seconds apart.

  function Mail(i: nat): Message {
    Message(seq(i + 1, _ => 'm'), "", Some(2 * i * OVERLAP), "", {})
  }

  function Mails(n: nat): set<Message> {
    set i | 0 <= i < n :: Mail(i)
  }

  /** All of them but the oldest, newest first. */
  function NewestMails(n: nat): seq<Message> {
    seq(n, i requires 0 <= i < n => Mail(n - i))
  }

  lemma NewestMailsAnswer(n: nat, q: Query)
    requires q.before.None? && q.after.None? && n > 0 && n >= q.limit
    ensures Answers(Mails(n + 1), q, NewestMails(n))
  {
    var reply := NewestMails(n);
    OldestIsLeast(reply);
    hide Oldest;
    forall m | m in reply ensures m in Mails(n + 1) && m.receivedAt.Some? && m.receivedAt.value > 0 {
      var i :| 0 <= i < |reply| && reply[i] == m;
      assert m == Mail(n - i) && 0 <= n - i < n + 1;
    }
    forall i | 0 < i <= n ensures Mail(i) in reply {
      assert reply[n - i] == Mail(i);
    }
    assert reply[0] in reply;
  }

  lemma FilledState(channel: Channel, reply: seq<Message>, server: set<Message>, newest: Option<int>, now: int)
    requires |reply| > 0 && Cacheable(reply[0])
    ensures var start := World(server, newest, CacheState({"box"}, map[], map[]), {});
            var filled := Step("box", Inbox, channel, start, Attempt(reply, now, NoCrash));
            && filled.server == server && filled.c.mailboxes == {"box"}
            && filled.c.messages == AfterUpsertOf(start.c, "box", Inbox, channel, reply).messages
            && StateOf(filled.c, "box", Inbox).lastMessageAt.Some?
            && StateOf(filled.c, "box", Inbox).lastMessageAt.value >= reply[0].receivedAt.value
  {
    var c := CacheState({"box"}, map[], map[]);
    AttemptDoes(c, "box", Inbox, channel, reply, now, NoCrash);
    NewestBounds(reply, channel, reply[0]);
    assert StateOf(c, "box", Inbox).lastMessageAt == None;
    hide Attempted, CacheBatch, Newest, AfterUpsertOf, FallbackState, StateOf;
  }

  lemma FirstBatchLeavesOut(n: nat, channel: Channel, error: string, now: int)
    requires n > 0
    ensures var start := World(Mails(n + 1), Some(2 * n * OVERLAP), CacheState({"box"}, map[], map[]), {});
            var filled := Step("box", Inbox, channel, start, Attempt(NewestMails(n), now, NoCrash));
            var failed := Step("box", Inbox, channel, filled, Fail(error, now));
            failed.server == start.server && OutOfSight("box", Inbox, failed, Mail(0))
  {
    var start := World(Mails(n + 1), Some(2 * n * OVERLAP), CacheState({"box"}, map[], map[]), {});
    var reply := NewestMails(n);
    var filled := Step("box", Inbox, channel, start, Attempt(reply, now, NoCrash));
    FilledState(channel, reply, start.server, start.newest, now);
    FailureDoes(filled.c, "box", Inbox, channel, error, now);
    OthersHaveOtherIDs(n);
    UpsertCachesOnly(start.c, "box", Inbox, channel, reply, Mail(0));
    hide Attempted, Failure, CacheBatch, Newest, AfterUpsertOf, StateOf, Mails;
  }

  lemma NewestBounds(reply: seq<Message>, channel: Channel, m: Message)
    requires m in reply && Cacheable(m)
    ensures var newest := Newest(None, CacheBatch(Target("box", None), Inbox, channel, reply));
            newest.Some? && newest.value >= m.receivedAt.value
  {
    CacheBatchHolds(Target("box", None), Inbox, channel, reply);
    NewestIsGreatest(None, CacheBatch(Target("box", None), Inbox, channel, reply));
    hide CacheBatch, Newest;
    assert CachedMessageFrom("box", Inbox, channel, m).value in CacheBatch(Target("box", None), Inbox, channel, reply);
  }

  lemma OthersHaveOtherIDs(n: nat)
    ensures forall x :: x in NewestMails(n) ==> ExternalID(x) != ExternalID(Mail(0))
    ensures forall x :: x in Mails(n + 1) && x != Mail(0) ==> ExternalID(x) != ExternalID(Mail(0))
  {
    forall x | x in NewestMails(n) ensures ExternalID(x) != ExternalID(Mail(0)) {
      var i :| 0 <= i < n && NewestMails(n)[i] == x;
      assert x == Mail(n - i) && |x.id| == n - i + 1;
    }
    forall x | x in Mails(n + 1) && x != Mail(0) ensures ExternalID(x) != ExternalID(Mail(0)) {
      var i :| 0 <= i < n + 1 && Mail(i) == x;
      assert |ExternalID(x)| == i + 1;
    }
  }

  /** From a mailbox never synced: the newest 500 messages are cached, the next retrieval fails, and the
      oldest message stays uncached through all later syncs, as long as no reply reaches the batch limit. */
  lemma FailedRetrieveLosesBackfill(channel: Channel, error: string, now: int, later: seq<Event>)
    ensures var start := World(Mails(BATCH_LIMIT + 1), Some(2 * BATCH_LIMIT * OVERLAP),
            CacheState({"box"}, map[], map[]), {});
            var filled := Step("box", Inbox, channel, start, Attempt(NewestMails(BATCH_LIMIT), now, NoCrash));
            var failed := Step("box", Inbox, channel, filled, Fail(error, now));
            && Answers(start.server, NextQuery(start.c, "box", Inbox, channel), NewestMails(BATCH_LIMIT))
            && Mail(0) in failed.server
            && (ShortRun("box", Inbox, channel, failed, later, Mail(0)) ==>
                  !Cached(Run("box", Inbox, channel, failed, later).c, "box", Inbox, Mail(0)))
  {
    var start := World(Mails(BATCH_LIMIT + 1), Some(2 * BATCH_LIMIT * OVERLAP), CacheState({"box"}, map[], map[]), {});
    var reply := NewestMails(BATCH_LIMIT);
    var filled := Step("box", Inbox, channel, start, Attempt(reply, now, NoCrash));
    var failed := Step("box", Inbox, channel, filled, Fail(error, now));
    NewestMailsAnswer(BATCH_LIMIT, NextQuery(start.c, "box", Inbox, channel));
    FirstBatchLeavesOut(BATCH_LIMIT, channel, error, now);
    assert Mail(0) in start.server;
    hide OutOfSight, ShortRun, Run, Answers, NewestMails, Mails, Mail, Attempted, Failure;
    if ShortRun("box", Inbox, channel, failed, later, Mail(0)) {
      ShortRunLeavesOut("box", Inbox, channel, failed, later, Mail(0));
    }
  }
}
