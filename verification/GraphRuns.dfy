/** Whole runs of Graph sync: batches of any size, crashes between any two store writes, failed
    requests and expired links, against the item-by-item reference of GraphSync; and the drain loop
    of backend/internal/service/initial_message_sync_worker.go. */
module GraphRuns {
  import opened Wrappers
  import opened CacheStore
  import opened MessageSync
  import opened GraphDelta
  import opened GraphSync

  const MAX_INITIAL_SYNC_BATCHES: nat := 10000

  /** What a batch does equals what its items do one by one, exactly when no message is removed and
      then added again within it. */
  lemma BatchEqualsSequential(c: CacheState, mailbox: string, folder: Folder, batch: seq<Item>, ids: ProviderIDs)
    requires mailbox in c.mailboxes && StableCache(c.messages, mailbox, folder, ids) && Stable(batch, ids)
    ensures AfterDrop(c, mailbox, folder, batch).messages == ApplyItems(c.messages, mailbox, folder, batch)
       <==> NoResurrection(batch, ids)
  {
    var dropped, applied := AfterDrop(c, mailbox, folder, batch).messages,
      ApplyItems(c.messages, mailbox, folder, batch);
    forall key ensures (Lookup(dropped, key) == Lookup(applied, key)) <==>
      (key.mailbox == mailbox && key.folder == folder && DroppedIn(batch, key.externalID, ids) ==>
        LastOp(batch, key.externalID, ids) == Drop)
    {
      BatchMeans(c, mailbox, folder, batch, ids, key);
      ApplyItemsMeans(c.messages, mailbox, folder, batch, ids, key);
      LastOpCases(batch, key.externalID, ids);
    }
    if NoResurrection(batch, ids) {
      forall key ensures Lookup(dropped, key) == Lookup(applied, key) {
        DroppedHaveIDs(batch, key.externalID, ids);
      }
      SameLookups(dropped, applied);
    }
    if dropped == applied {
      forall e | e in ids && DroppedIn(batch, e, ids) ensures LastOp(batch, e, ids) == Drop {
        var key := Key(mailbox, folder, e);
        assert Lookup(dropped, key) == Lookup(applied, key);
      }
    }
  }

  lemma SameLookups(a: Messages, b: Messages)
    requires forall key :: Lookup(a, key) == Lookup(b, key)
    ensures a == b
  {
    assert forall key :: key in a ==> Lookup(b, key) == Some(a[key]);
    assert forall key :: key in b ==> Lookup(a, key) == Some(b[key]);
  }

  // ---------------------------------------------------------------- agreement up to what is still to come

  /** A cache agrees with the reference on a key that no remaining item touches; on one that the
      remaining items put but do not remove, on its viewed time. */
  predicate AgreeAt(cache: Messages, reference: Messages, mailbox: string, folder: Folder, rest: seq<Item>,
      ids: ProviderIDs, key: Key) {
    if key.mailbox != mailbox || key.folder != folder then Lookup(cache, key) == Lookup(reference, key)
    else
      && (LastOp(rest, key.externalID, ids) == Keep ==> Lookup(cache, key) == Lookup(reference, key))
      && (!DroppedIn(rest, key.externalID, ids) ==> ViewedAt(cache, key) == ViewedAt(reference, key))
  }

  ghost predicate Agree(cache: Messages, reference: Messages, mailbox: string, folder: Folder, rest: seq<Item>,
      ids: ProviderIDs) {
    && StableCache(cache, mailbox, folder, ids)
    && forall key :: AgreeAt(cache, reference, mailbox, folder, rest, ids, key)
  }

  lemma AgreeItself(cache: Messages, mailbox: string, folder: Folder, rest: seq<Item>, ids: ProviderIDs)
    requires StableCache(cache, mailbox, folder, ids)
    ensures Agree(cache, cache, mailbox, folder, rest, ids)
  {
  }

  lemma AgreeAtEnd(cache: Messages, reference: Messages, mailbox: string, folder: Folder, ids: ProviderIDs)
    requires Agree(cache, reference, mailbox, folder, [], ids)
    ensures cache == reference
  {
    forall key ensures Lookup(cache, key) == Lookup(reference, key) {
      assert AgreeAt(cache, reference, mailbox, folder, [], ids, key);
    }
    SameLookups(cache, reference);
  }

  /** A whole batch moves the cache along with the reference. */
  lemma WholeBatchAgrees(c: CacheState, reference: Messages, mailbox: string, folder: Folder, batch: seq<Item>,
      rest: seq<Item>, ids: ProviderIDs)
    requires mailbox in c.mailboxes && StableCache(reference, mailbox, folder, ids) && Stable(batch, ids)
    requires Agree(c.messages, reference, mailbox, folder, batch + rest, ids) && NoResurrection(batch, ids)
    ensures Agree(AfterDrop(c, mailbox, folder, batch).messages, ApplyItems(reference, mailbox, folder, batch), mailbox,
            folder, rest, ids)
  {
    forall key ensures AgreeAt(AfterDrop(c, mailbox, folder, batch).messages,
      ApplyItems(reference, mailbox, folder, batch), mailbox, folder, rest, ids, key) {
      BatchMeans(c, mailbox, folder, batch, ids, key);
      ApplyItemsMeans(reference, mailbox, folder, batch, ids, key);
      OpsConcat(batch, rest, key.externalID, ids);
      LastOpCases(batch, key.externalID, ids);
      LastOpCases(rest, key.externalID, ids);
      DroppedHaveIDs(batch, key.externalID, ids);
      assert AgreeAt(c.messages, reference, mailbox, folder, batch + rest, ids, key);
      hide AfterDrop, ApplyItems, LastOp, DroppedIn, LastPut;
    }
    StaysStable(c, mailbox, folder, batch, ids);
  }

  /** A batch that crashes before its cursor is saved changes nothing that is not to be done again. */
  lemma CrashedBatchAgrees(c: CacheState, reference: Messages, mailbox: string, folder: Folder, batch: seq<Item>,
      rest: seq<Item>, ids: ProviderIDs)
    requires mailbox in c.mailboxes && Stable(batch, ids)
    requires Agree(c.messages, reference, mailbox, folder, batch + rest, ids)
    ensures Agree(AfterPut(c, mailbox, folder, batch).messages, reference, mailbox, folder, batch + rest, ids)
    ensures Agree(AfterDrop(c, mailbox, folder, batch).messages, reference, mailbox, folder, batch + rest, ids)
  {
    forall key
      ensures AgreeAt(AfterPut(c, mailbox, folder, batch).messages, reference, mailbox, folder, batch + rest, ids, key)
      ensures AgreeAt(AfterDrop(c, mailbox, folder, batch).messages, reference, mailbox, folder, batch + rest, ids, key)
    {
      BatchMeans(c, mailbox, folder, batch, ids, key);
      OpsConcat(batch, rest, key.externalID, ids);
      LastOpCases(batch, key.externalID, ids);
      assert AgreeAt(c.messages, reference, mailbox, folder, batch + rest, ids, key);
      hide AfterPut, AfterDrop, LastOp, DroppedIn, LastPut;
    }
    StaysStable(c, mailbox, folder, batch, ids);
  }

  lemma PutStaysStable(c: CacheState, mailbox: string, folder: Folder, batch: seq<Item>, ids: ProviderIDs, k: Key)
    requires mailbox in c.mailboxes && StableCache(c.messages, mailbox, folder, ids) && Stable(batch, ids)
    requires k.mailbox == mailbox && k.folder == folder && k in AfterPut(c, mailbox, folder, batch).messages
    ensures var put := AfterPut(c, mailbox, folder, batch).messages;
            k.externalID in ids && put[k].providerID == ids[k.externalID] && put[k].channel == Graph
  {
    BatchMeans(c, mailbox, folder, batch, ids, k);
    LastPutStable(batch, k.externalID, ids);
    hide AfterPut, AfterDrop, LastPut, Stable, LastOp, DroppedIn;
  }

  lemma DropIsPart(c: CacheState, mailbox: string, folder: Folder, batch: seq<Item>)
    ensures var put, drop := AfterPut(c, mailbox, folder, batch).messages,
            AfterDrop(c, mailbox, folder, batch).messages;
            forall k :: k in drop ==> k in put && drop[k] == put[k]
  {
    hide AfterPut, RemovedIDs, Deletes;
  }

  lemma PutsStayStable(c: CacheState, mailbox: string, folder: Folder, batch: seq<Item>, ids: ProviderIDs)
    requires mailbox in c.mailboxes && StableCache(c.messages, mailbox, folder, ids) && Stable(batch, ids)
    ensures StableCache(AfterPut(c, mailbox, folder, batch).messages, mailbox, folder, ids)
  {
    hide Stable, AfterPut;
    var put := AfterPut(c, mailbox, folder, batch).messages;
    forall k | k in put && k.mailbox == mailbox && k.folder == folder
      ensures k.externalID in ids && put[k].providerID == ids[k.externalID] && put[k].channel == Graph
    {
      PutStaysStable(c, mailbox, folder, batch, ids, k);
    }
  }

  lemma StaysStable(c: CacheState, mailbox: string, folder: Folder, batch: seq<Item>, ids: ProviderIDs)
    requires mailbox in c.mailboxes && StableCache(c.messages, mailbox, folder, ids) && Stable(batch, ids)
    ensures StableCache(AfterPut(c, mailbox, folder, batch).messages, mailbox, folder, ids)
    ensures StableCache(AfterDrop(c, mailbox, folder, batch).messages, mailbox, folder, ids)
    ensures AfterPut(c, mailbox, folder, batch) == c.(messages := AfterPut(c, mailbox, folder, batch).messages)
  {
    BatchInMailbox(mailbox, folder, Graph, PresentMessages(batch), c.mailboxes);
    UpsertKeys(c, CacheBatch(Target(mailbox, None), folder, Graph, PresentMessages(batch)));
    PutsStayStable(c, mailbox, folder, batch, ids);
    DropIsPart(c, mailbox, folder, batch);
    hide Upsert, CacheBatch, PresentMessages, Stable, BatchKeys, InMailboxes, AfterDrop;
  }

  /** Agreement at any point of a round is agreement at its start, since doing the items again
      touches whatever they touched. */
  lemma AgreeFromStart(cache: Messages, start: Messages, mailbox: string, folder: Folder, done: seq<Item>,
      rest: seq<Item>, ids: ProviderIDs)
    requires StableCache(start, mailbox, folder, ids) && Stable(done, ids)
    requires Agree(cache, ApplyItems(start, mailbox, folder, done), mailbox, folder, rest, ids)
    ensures Agree(cache, start, mailbox, folder, done + rest, ids)
  {
    forall key ensures AgreeAt(cache, start, mailbox, folder, done + rest, ids, key) {
      ApplyItemsMeans(start, mailbox, folder, done, ids, key);
      OpsConcat(done, rest, key.externalID, ids);
      LastOpCases(done, key.externalID, ids);
      assert AgreeAt(cache, ApplyItems(start, mailbox, folder, done), mailbox, folder, rest, ids, key);
      hide ApplyItems, LastOp, DroppedIn, LastPut;
    }
  }

  // ---------------------------------------------------------------- runs

  /** The pages of all rounds for a mailbox folder, and the ids the provider gives its messages. */
  datatype Feed = Feed(pages: seq<Page>, mailbox: string, folder: Folder, channel: Channel, ids: ProviderIDs)

  /** An attempt is one Sync with its own batch size; Expire makes the server refuse the saved link. */
  datatype Event = Expire | Attempt(limit: int, maxPages: int, fails: bool, crash: CrashPoint, now: int)

  datatype World = World(c: CacheState, expired: bool)

  function GraphProvider(pages: seq<Page>, expired: bool, fails: bool, limit: int, maxPages: int): Provider {
    Provider((request: SyncRequest) => DeltaReply(pages, expired, fails,
      request.(limit := limit, maxPages := maxPages)),
             (query: Query) => RetrieveFailed("no fallback"))
  }

  function Attempted(feed: Feed, w: World, e: Event): (CacheState, Outcome)
    requires e.Attempt?
  {
    Sync(w.c, Target(feed.mailbox, None), feed.folder, feed.channel,
         GraphProvider(feed.pages, w.expired, e.fails, e.limit, e.maxPages), e.now, e.crash)
  }

  function Step(feed: Feed, w: World, e: Event): World {
    if e.Expire? then w.(expired := true)
    else
      var (c, outcome) := Attempted(feed, w, e);
      World(c, w.expired && outcome.Crashed?)
  }

  function Run(feed: Feed, w: World, events: seq<Event>): World
    decreases |events|
  {
    if events == [] then w else Step(feed, Run(feed, w, events[..|events| - 1]), events[|events| - 1])
  }

  /** The page the next attempt starts from. */
  function Position(feed: Feed, w: World): nat {
    var cursor := LoadState(w.c, Target(feed.mailbox, None), feed.folder).cursor;
    if cursor.Link? && !w.expired then cursor.page else 0
  }

  function AttemptEnd(feed: Feed, p: nat, e: Event): (q: nat)
    requires e.Attempt? && p < |feed.pages|
    ensures p < q <= |feed.pages|
  {
    BatchEnd(feed.pages, p, PageCap(e.maxPages), MessageCap(e.limit), 0)
  }

  /** No attempt that completes adds a message again that it removes. */
  predicate CleanStep(feed: Feed, w: World, e: Event) {
    var p := Position(feed, w);
    e.Attempt? && !e.fails && e.crash == NoCrash && p < |feed.pages| ==>
      NoResurrection(Items(feed.pages[p..AttemptEnd(feed, p, e)]), feed.ids)
  }

  predicate CleanRun(feed: Feed, w: World, events: seq<Event>)
    decreases |events|
  {
    events != [] ==>
      && CleanRun(feed, w, events[..|events| - 1])
      && CleanStep(feed, Run(feed, w, events[..|events| - 1]), events[|events| - 1])
  }

  predicate ValidFeed(feed: Feed) {
    Chain(feed.pages) && Stable(Items(feed.pages), feed.ids)
  }

  /** What the cache holds once the first p pages are applied item by item. */
  function Reference(feed: Feed, start: Messages, p: nat): Messages
    requires p <= |feed.pages|
  {
    ApplyItems(start, feed.mailbox, feed.folder, Items(feed.pages[..p]))
  }

  ghost predicate AgreesAt(feed: Feed, start: Messages, cache: Messages, p: nat)
    requires p <= |feed.pages|
  {
    Agree(cache, Reference(feed, start, p), feed.mailbox, feed.folder, Items(feed.pages[p..]), feed.ids)
  }

  ghost predicate Inv(feed: Feed, start: Messages, w: World) {
    && feed.mailbox in w.c.mailboxes
    && Position(feed, w) <= |feed.pages|
    && AgreesAt(feed, start, w.c.messages, Position(feed, w))
  }

  /** What one attempt fetches. */
  lemma AttemptFetches(feed: Feed, w: World, e: Event)
    requires Chain(feed.pages) && e.Attempt? && Position(feed, w) <= |feed.pages|
    ensures var p := Position(feed, w);
            var f := Fetch(LoadState(w.c, Target(feed.mailbox, None), feed.folder), Target(feed.mailbox, None),
              feed.folder,
                           feed.channel, GraphProvider(feed.pages, w.expired, e.fails, e.limit, e.maxPages));
            if e.fails || p == |feed.pages| then
              && f.error.Some?
              && (if f.state.cursor.Link? then f.state.cursor.page else 0) == p
            else
              var q := AttemptEnd(feed, p, e);
              f == Fetched(PresentMessages(Items(feed.pages[p..q])), RemovedIDs(Items(feed.pages[p..q])), Graph,
                f.state, EndsRound(feed.pages, q), None)
              && f.state.cursor == Link(q)
  {
    var target := Target(feed.mailbox, None);
    var provider := GraphProvider(feed.pages, w.expired, e.fails, e.limit, e.maxPages);
    var state := LoadState(w.c, target, feed.folder);
    var request := RequestFor(state, feed.channel, feed.folder).(limit := e.limit, maxPages := e.maxPages);
    assert provider.incremental(RequestFor(state, feed.channel, feed.folder))
      == DeltaReply(feed.pages, w.expired, e.fails, request);
    var state1 := state.(cursor := NoCursor, uidValidity := 0, highestUID := 0);
    var request1 := RequestFor(state1, feed.channel, feed.folder).(limit := e.limit, maxPages := e.maxPages);
    assert provider.incremental(RequestFor(state1, feed.channel, feed.folder))
      == DeltaReply(feed.pages, w.expired, e.fails, request1);
    var sent := if (w.expired && state.cursor.Link?) || state.cursor.TimeBefore? then request1 else request;
    if !e.fails && Position(feed, w) < |feed.pages| {
      DeltaReplyFetches(feed.pages, sent);
      assert DeltaReply(feed.pages, w.expired, e.fails, sent) == DeltaReply(feed.pages, false, false, sent);
    }
    hide DeltaLoop, BatchEnd, Chain;
  }

  /** What storing a fetched batch does, up to its crash point. */
  lemma StoreDoes(c: CacheState, mailbox: string, folder: Folder, items: seq<Item>, state: SyncState, complete: bool,
      now: int, crash: CrashPoint)
    requires mailbox in c.mailboxes
    ensures var f := Fetched(PresentMessages(items), RemovedIDs(items), Graph, state, complete, None);
            var (c', outcome) := StoreBatch(c, Target(mailbox, None), folder, f, now, crash);
            && c'.mailboxes == c.mailboxes
            && c'.messages == (match crash
                               case BeforeUpsert => c.messages
                               case AfterUpsert => AfterPut(c, mailbox, folder, items).messages
                               case _ => AfterDrop(c, mailbox, folder, items).messages)
            && (if crash == NoCrash then
                  && outcome.Done? && outcome.complete == complete
                  && LoadState(c', Target(mailbox, None), folder).cursor == state.cursor
                else
                  outcome == Crashed && c'.states == c.states)
  {
    var batch := CacheBatch(Target(mailbox, None), folder, Graph, PresentMessages(items));
    BatchInMailbox(mailbox, folder, Graph, PresentMessages(items), c.mailboxes);
    UpsertCounts(c, batch);
    UpsertKeys(c, batch);
    hide Upsert, CacheBatch, PresentMessages, RemovedIDs, Newest, DeleteWithin;
  }

  /** What one attempt does to the cache and to the position. */
  lemma AttemptDoes(feed: Feed, w: World, e: Event)
    requires Chain(feed.pages) && e.Attempt? && Position(feed, w) <= |feed.pages| && feed.mailbox in w.c.mailboxes
    ensures var p := Position(feed, w);
            var (c, outcome) := Attempted(feed, w, e);
            && c.mailboxes == w.c.mailboxes
            && (if e.fails || p == |feed.pages| then
                  outcome.Failed? && c.messages == w.c.messages && Position(feed, Step(feed, w, e)) == p
                else
                  var q := AttemptEnd(feed, p, e);
                  var batch := Items(feed.pages[p..q]);
                  && c.messages == (match e.crash
                                    case BeforeUpsert => w.c.messages
                                    case AfterUpsert => AfterPut(w.c, feed.mailbox, feed.folder, batch).messages
                                    case _ => AfterDrop(w.c, feed.mailbox, feed.folder, batch).messages)
                  && (if e.crash == NoCrash then outcome.Done? && outcome.complete == EndsRound(feed.pages, q)
                    else outcome.Crashed?)
                  && Position(feed, Step(feed, w, e)) == if e.crash == NoCrash then q else p)
  {
    var p, target := Position(feed, w), Target(feed.mailbox, None);
    var f := Fetch(LoadState(w.c, target, feed.folder), target, feed.folder, feed.channel,
                   GraphProvider(feed.pages, w.expired, e.fails, e.limit, e.maxPages));
    AttemptFetches(feed, w, e);
    if !e.fails && p < |feed.pages| {
      StoreDoes(w.c, feed.mailbox, feed.folder, Items(feed.pages[p..AttemptEnd(feed, p, e)]), f.state,
                EndsRound(feed.pages, AttemptEnd(feed, p, e)), e.now, e.crash);
    }
    hide Fetch, StoreBatch, AfterPut, AfterDrop, Items, PresentMessages, RemovedIDs, AttemptEnd, Chain, GraphProvider;
  }

  lemma SplitPages(feed: Feed, p: nat, q: nat)
    requires p <= q <= |feed.pages| && Stable(Items(feed.pages), feed.ids)
    ensures Items(feed.pages[p..]) == Items(feed.pages[p..q]) + Items(feed.pages[q..])
    ensures Items(feed.pages[..q]) == Items(feed.pages[..p]) + Items(feed.pages[p..q])
    ensures Stable(Items(feed.pages[..p]), feed.ids) && Stable(Items(feed.pages[p..q]), feed.ids)
  {
    assert feed.pages[p..] == feed.pages[p..q] + feed.pages[q..];
    assert feed.pages[..q] == feed.pages[..p] + feed.pages[p..q];
    assert feed.pages == feed.pages[..p] + feed.pages[p..];
    ItemsConcat(feed.pages[p..q], feed.pages[q..]);
    ItemsConcat(feed.pages[..p], feed.pages[p..q]);
    ItemsConcat(feed.pages[..p], feed.pages[p..]);
    hide Items;
    var a, b, c := Items(feed.pages[..p]), Items(feed.pages[p..q]), Items(feed.pages[q..]);
    StablePrefix(Items(feed.pages), |a|, feed.ids);
    assert Items(feed.pages)[..|a|] == a && Items(feed.pages)[|a|..] == b + c;
    StablePrefix(b + c, |b|, feed.ids);
    assert (b + c)[..|b|] == b;
  }

  lemma {:induction false} ApplyItemsConcat(messages: Messages, mailbox: string, folder: Folder, a: seq<Item>,
      b: seq<Item>)
    ensures ApplyItems(messages, mailbox, folder, a + b)
            == ApplyItems(ApplyItems(messages, mailbox, folder, a), mailbox, folder, b)
    decreases |b|
  {
    if b == [] {
      assert a + b == a;
    } else {
      assert (a + b)[..|a + b| - 1] == a + b[..|b| - 1];
      ApplyItemsConcat(messages, mailbox, folder, a, b[..|b| - 1]);
      hide ApplyItem;
    }
  }

  lemma AdvanceAgrees(feed: Feed, start: Messages, c: CacheState, p: nat, q: nat)
    requires feed.mailbox in c.mailboxes && p <= q <= |feed.pages| && Stable(Items(feed.pages), feed.ids)
    requires StableCache(start, feed.mailbox, feed.folder, feed.ids) && AgreesAt(feed, start, c.messages, p)
    ensures AgreesAt(feed, start, AfterPut(c, feed.mailbox, feed.folder, Items(feed.pages[p..q])).messages, p)
    ensures AgreesAt(feed, start, AfterDrop(c, feed.mailbox, feed.folder, Items(feed.pages[p..q])).messages, p)
    ensures NoResurrection(Items(feed.pages[p..q]), feed.ids) ==>
              AgreesAt(feed, start, AfterDrop(c, feed.mailbox, feed.folder, Items(feed.pages[p..q])).messages, q)
  {
    var done, batch, rest := Items(feed.pages[..p]), Items(feed.pages[p..q]), Items(feed.pages[q..]);
    SplitPages(feed, p, q);
    ApplyItemsMeans(start, feed.mailbox, feed.folder, done, feed.ids, Key("", Inbox, ""));
    hide Items, Stable, NoResurrection, ApplyItems, StableCache, AfterPut, AfterDrop, Agree;
    CrashedBatchAgrees(c, Reference(feed, start, p), feed.mailbox, feed.folder, batch, rest, feed.ids);
    if NoResurrection(batch, feed.ids) {
      WholeBatchAgrees(c, Reference(feed, start, p), feed.mailbox, feed.folder, batch, rest, feed.ids);
      ApplyItemsConcat(start, feed.mailbox, feed.folder, done, batch);
    }
  }

  /** Every attempt, whether it completes, fails or crashes, keeps the cache in agreement with the
      item-by-item reference at its position; so does an expired link, with its position 0. */
  lemma StepKeeps(feed: Feed, start: Messages, w: World, e: Event)
    requires ValidFeed(feed) && StableCache(start, feed.mailbox, feed.folder, feed.ids)
    requires Inv(feed, start, w) && CleanStep(feed, w, e)
    ensures Inv(feed, start, Step(feed, w, e))
  {
    hide Chain, Items, Stable, StableCache, NoResurrection, Agree, AgreesAt, AfterPut, AfterDrop, Attempted;
    var p := Position(feed, w);
    if e.Expire? {
      ExpiredAgrees(feed, start, w.c.messages, p);
    } else {
      AttemptDoes(feed, w, e);
      if !e.fails && p < |feed.pages| {
        AdvanceAgrees(feed, start, w.c, p, AttemptEnd(feed, p, e));
      }
    }
  }

  lemma ExpiredAgrees(feed: Feed, start: Messages, cache: Messages, p: nat)
    requires p <= |feed.pages| && Stable(Items(feed.pages), feed.ids)
    requires StableCache(start, feed.mailbox, feed.folder, feed.ids) && AgreesAt(feed, start, cache, p)
    ensures AgreesAt(feed, start, cache, 0)
  {
    SplitPages(feed, 0, p);
    assert feed.pages[..0] == [] && feed.pages[0..p] == feed.pages[..p];
    hide Stable, StableCache, ApplyItems, Agree;
    AgreeFromStart(cache, start, feed.mailbox, feed.folder, Items(feed.pages[..p]), Items(feed.pages[p..]),
      feed.ids);
    assert ApplyItems(start, feed.mailbox, feed.folder, Items(feed.pages[..0]))
      == start by { NothingApplied(start, feed.mailbox, feed.folder); }
  }

  lemma NothingApplied(start: Messages, mailbox: string, folder: Folder)
    ensures ApplyItems(start, mailbox, folder, []) == start
  {
  }

  // ---------------------------------------------------------------- main results

  lemma {:induction false} RunKeepsFrom(feed: Feed, start: Messages, w: World, events: seq<Event>)
    requires ValidFeed(feed) && StableCache(start, feed.mailbox, feed.folder, feed.ids)
    requires Inv(feed, start, w) && CleanRun(feed, w, events)
    ensures Inv(feed, start, Run(feed, w, events))
    decreases |events|
  {
    hide ValidFeed, StableCache, Inv, Step, CleanStep;
    if events != [] {
      RunKeepsFrom(feed, start, w, events[..|events| - 1]);
      StepKeeps(feed, start, Run(feed, w, events[..|events| - 1]), events[|events| - 1]);
    }
  }

  /** A cache that is the reference at the position agrees with it. */
  lemma InvAtReference(feed: Feed, start: Messages, w: World)
    requires ValidFeed(feed) && feed.mailbox in w.c.mailboxes && Position(feed, w) <= |feed.pages|
    requires StableCache(start, feed.mailbox, feed.folder, feed.ids)
    requires w.c.messages == Reference(feed, start, Position(feed, w))
    ensures Inv(feed, start, w)
  {
    var p := Position(feed, w);
    SplitPages(feed, 0, p);
    assert feed.pages[0..p] == feed.pages[..p];
    hide Chain, Items, Stable, Agree, StableCache, ApplyItems;
    ApplyItemsMeans(start, feed.mailbox, feed.folder, Items(feed.pages[..p]), feed.ids, Key("", Inbox, ""));
    AgreeItself(w.c.messages, feed.mailbox, feed.folder, Items(feed.pages[p..]), feed.ids);
  }

  lemma RunKeeps(feed: Feed, w: World, events: seq<Event>)
    requires ValidFeed(feed) && feed.mailbox in w.c.mailboxes && Position(feed, w) == 0
    requires StableCache(w.c.messages, feed.mailbox, feed.folder, feed.ids) && CleanRun(feed, w, events)
    ensures Inv(feed, w.c.messages, Run(feed, w, events))
  {
    assert feed.pages[..0] == [];
    NoItems();
    NothingApplied(w.c.messages, feed.mailbox, feed.folder);
    hide Items, ApplyItems, StableCache, ValidFeed, CleanRun, Run;
    InvAtReference(feed, w.c.messages, w);
    RunKeepsFrom(feed, w.c.messages, w, events);
  }

  lemma NoItems()
    ensures Items([]) == []
  {
  }

  /** Whatever the batch sizes, and whatever crashed, failed or expired on the way, a run that has
      taken in the last page, over however many rounds, leaves the cache that the items of all rounds
      leave one by one. */
  lemma FinishedRunIsSequential(feed: Feed, w: World, events: seq<Event>)
    requires ValidFeed(feed) && feed.mailbox in w.c.mailboxes && Position(feed, w) == 0
    requires StableCache(w.c.messages, feed.mailbox, feed.folder, feed.ids) && CleanRun(feed, w, events)
    ensures Position(feed, Run(feed, w, events)) == |feed.pages| ==>
              Run(feed, w, events).c.messages
                == ApplyItems(w.c.messages, feed.mailbox, feed.folder, Items(feed.pages))
  {
    RunKeeps(feed, w, events);
    if Position(feed, Run(feed, w, events)) == |feed.pages| {
      EndsAsReference(feed, w.c.messages, Run(feed, w, events));
    }
  }

  /** What the server offers until page n, where a round ends. */
  function Until(feed: Feed, n: nat): Feed
    requires n <= |feed.pages|
  {
    feed.(pages := feed.pages[..n])
  }

  lemma UntilIsValid(feed: Feed, n: nat)
    requires ValidFeed(feed) && n <= |feed.pages| && EndsRound(feed.pages, n)
    ensures ValidFeed(Until(feed, n))
  {
    SplitPages(feed, 0, n);
    assert feed.pages[0..n] == feed.pages[..n];
    hide Stable, Items;
  }

  /** Rounds compose: where the rounds so far end, later rounds begin, under whatever runs take them in;
      the cache is then that of the items of all rounds, one by one. */
  lemma RoundsCompose(feed: Feed, n: nat, w: World, first: seq<Event>, later: seq<Event>)
    requires ValidFeed(feed) && n <= |feed.pages| && EndsRound(feed.pages, n) && feed.mailbox in w.c.mailboxes
    requires Position(feed, w) == 0 && StableCache(w.c.messages, feed.mailbox, feed.folder, feed.ids)
    requires CleanRun(Until(feed, n), w, first) && Position(feed, Run(Until(feed, n), w, first)) == n
    requires CleanRun(feed, Run(Until(feed, n), w, first), later)
    ensures var end := Run(feed, Run(Until(feed, n), w, first), later);
            Position(feed, end) == |feed.pages| ==>
              end.c.messages == ApplyItems(w.c.messages, feed.mailbox, feed.folder, Items(feed.pages))
  {
    var start, between := w.c.messages, Run(Until(feed, n), w, first);
    UntilIsValid(feed, n);
    assert Position(Until(feed, n), w) == 0 && Position(Until(feed, n), between) == n;
    hide ValidFeed, StableCache, CleanRun, Run, Items, ApplyItems, EndsRound;
    FinishedRunIsSequential(Until(feed, n), w, first);
    RunKeeps(Until(feed, n), w, first);
    InvAtReference(feed, start, between);
    RunKeepsFrom(feed, start, between, later);
    if Position(feed, Run(feed, between, later)) == |feed.pages| {
      EndsAsReference(feed, start, Run(feed, between, later));
    }
  }

  /** A batch reports Complete exactly when it takes in the last page of a round. */
  lemma CompleteIffRoundEnds(feed: Feed, w: World, e: Event)
    requires Chain(feed.pages) && e.Attempt? && Position(feed, w) <= |feed.pages| && feed.mailbox in w.c.mailboxes
    requires Attempted(feed, w, e).1.Done?
    ensures Position(feed, w) < Position(feed, Step(feed, w, e)) <= |feed.pages|
    ensures Attempted(feed, w, e).1.complete <==> EndsRound(feed.pages, Position(feed, Step(feed, w, e)))
  {
    AttemptDoes(feed, w, e);
    hide Attempted, AttemptEnd, Chain, Step, AfterDrop, AfterPut;
  }

  /** The attempts that completed. */
  function Successes(feed: Feed, w: World, events: seq<Event>): nat
    decreases |events|
  {
    if events == [] then 0
    else
      var e := events[|events| - 1];
      Successes(feed, w, events[..|events| - 1])
      + if e.Attempt? && Attempted(feed, Run(feed, w, events[..|events| - 1]), e).1.Done? then 1 else 0
  }

  /** Draining terminates: while no link expires, each completed attempt takes in at least one page. */
  lemma {:induction false} EachSuccessAdvances(feed: Feed, w: World, events: seq<Event>)
    requires Chain(feed.pages) && Position(feed, w) <= |feed.pages| && feed.mailbox in w.c.mailboxes
    requires Expire !in events
    ensures var end := Run(feed, w, events);
            && end.c.mailboxes == w.c.mailboxes
            && Position(feed, w) + Successes(feed, w, events) <= Position(feed, end) <= |feed.pages|
    decreases |events|
  {
    if events != [] {
      var shorter, e := events[..|events| - 1], events[|events| - 1];
      EachSuccessAdvances(feed, w, shorter);
      AttemptDoes(feed, Run(feed, w, shorter), e);
      hide Attempted, AttemptEnd, Chain, AfterDrop, AfterPut;
    }
  }

  /** Everything outside one folder of one mailbox is the same. */
  ghost predicate OutsideSame(c: CacheState, c': CacheState, mailbox: string, folder: Folder) {
    && c'.mailboxes == c.mailboxes
    && (forall k: Key :: k.mailbox != mailbox || k.folder != folder ==> Lookup(c'.messages, k) == Lookup(c.messages, k))
    && (forall k :: k != (mailbox, folder) ==>
      (k in c'.states <==> k in c.states) && (k in c.states ==> c'.states[k] == c.states[k]))
  }

  lemma BatchOutside(c: CacheState, mailbox: string, folder: Folder, batch: seq<Item>, ids: ProviderIDs)
    requires mailbox in c.mailboxes && StableCache(c.messages, mailbox, folder, ids) && Stable(batch, ids)
    ensures OutsideSame(c, AfterPut(c, mailbox, folder, batch), mailbox, folder)
    ensures OutsideSame(c, AfterDrop(c, mailbox, folder, batch), mailbox, folder)
  {
    forall k: Key | k.mailbox != mailbox || k.folder != folder
      ensures Lookup(AfterPut(c, mailbox, folder, batch).messages, k) == Lookup(c.messages, k)
      ensures Lookup(AfterDrop(c, mailbox, folder, batch).messages, k) == Lookup(c.messages, k)
    {
      BatchMeans(c, mailbox, folder, batch, ids, k);
    }
    StaysStable(c, mailbox, folder, batch, ids);
    hide AfterPut, Stable, StableCache, Lookup, DeleteWithin;
  }

  /** A sync writes one sync state at most. */
  lemma SyncStates(c: CacheState, target: Target, folder: Folder, channel: Channel, provider: Provider, now: int,
      crash: CrashPoint, k: (string, Folder))
    requires k != (target.mailbox, folder)
    ensures var c' := Sync(c, target, folder, channel, provider, now, crash).0;
            (k in c'.states <==> k in c.states) && (k in c.states ==> c'.states[k] == c.states[k])
  {
    var f := Fetch(LoadState(c, target, folder), target, folder, channel, provider);
    UpsertKeepsStates(c, CacheBatch(target, folder, f.channel, f.messages));
    hide Fetch, CacheBatch, Upsert, Newest, DeleteWithin;
  }

  lemma AttemptOutside(feed: Feed, w: World, e: Event)
    requires ValidFeed(feed) && e.Attempt? && Position(feed, w) <= |feed.pages| && feed.mailbox in w.c.mailboxes
    requires StableCache(w.c.messages, feed.mailbox, feed.folder, feed.ids)
    ensures var c := Attempted(feed, w, e).0;
            OutsideSame(w.c, c, feed.mailbox, feed.folder)
              && StableCache(c.messages, feed.mailbox, feed.folder, feed.ids)
  {
    var c, p := Attempted(feed, w, e).0, Position(feed, w);
    AttemptDoes(feed, w, e);
    forall k | k != (feed.mailbox, feed.folder)
      ensures (k in c.states <==> k in w.c.states) && (k in w.c.states ==> c.states[k] == w.c.states[k])
    {
      SyncStates(w.c, Target(feed.mailbox, None), feed.folder, feed.channel,
                 GraphProvider(feed.pages, w.expired, e.fails, e.limit, e.maxPages), e.now, e.crash, k);
      hide Sync;
    }
    hide Attempted, Chain, AfterPut, AfterDrop, Stable, StableCache, Lookup;
    if !e.fails && p < |feed.pages| {
      SplitPages(feed, p, AttemptEnd(feed, p, e));
      BatchOutside(w.c, feed.mailbox, feed.folder, Items(feed.pages[p..AttemptEnd(feed, p, e)]), feed.ids);
      StaysStable(w.c, feed.mailbox, feed.folder, Items(feed.pages[p..AttemptEnd(feed, p, e)]), feed.ids);
    }
  }

  /** No window of pages removes a message and then adds it again. */
  ghost predicate CleanWindows(feed: Feed) {
    forall p, q :: 0 <= p <= q <= |feed.pages| ==> NoResurrection(Items(feed.pages[p..q]), feed.ids)
  }

  /** The drain loop for one folder, on the round that the server offers. */
  method DrainFolder(service: MessageCacheService, feed: Feed, clock: nat -> int) returns (complete: bool,
      batches: nat)
    requires ValidFeed(feed) && OneRound(feed.pages) && feed.mailbox in service.store.mailboxes
    requires Position(feed, World(service.store.View(), false)) == 0
    requires StableCache(service.store.messages, feed.mailbox, feed.folder, feed.ids)
    modifies service.store
    ensures complete <== |feed.pages| <= MAX_INITIAL_SYNC_BATCHES
    ensures complete ==> batches <= |feed.pages|
    ensures complete && CleanWindows(feed) ==>
              service.store.messages == ApplyItems(old(service.store.messages), feed.mailbox, feed.folder,
                Items(feed.pages))
    ensures OutsideSame(old(service.store.View()), service.store.View(), feed.mailbox, feed.folder)
  {
    ghost var first, start := service.store.View(), service.store.messages;
    ghost var e := Attempt(BATCH_LIMIT, MAX_PAGES, false, NoCrash, 0);
    var provider := GraphProvider(feed.pages, false, false, BATCH_LIMIT, MAX_PAGES);
    StartsInAgreement(feed, World(service.store.View(), false));
    complete, batches := false, 0;
    assert OutsideSame(first, service.store.View(), feed.mailbox, feed.folder);
    hide ValidFeed, StableCache, Stable, Items, NoResurrection, Sync, Position, AttemptEnd, Inv, GraphProvider,
      ApplyItems, OutsideSame, OneRound, CleanWindows;
    while batches < MAX_INITIAL_SYNC_BATCHES
      invariant batches <= MAX_INITIAL_SYNC_BATCHES && !complete
      invariant feed.mailbox in service.store.mailboxes
      invariant batches <= Position(feed, World(service.store.View(), false)) < |feed.pages|
      invariant CleanWindows(feed) ==> Inv(feed, start, World(service.store.View(), false))
      invariant StableCache(service.store.messages, feed.mailbox, feed.folder, feed.ids)
      invariant OutsideSame(first, service.store.View(), feed.mailbox, feed.folder)
    {
      ghost var before := World(service.store.View(), false);
      e := Attempt(BATCH_LIMIT, MAX_PAGES, false, NoCrash, clock(batches));
      var outcome := service.SyncOnce(Target(feed.mailbox, None), feed.folder, feed.channel, provider,
        clock(batches), NoCrash);
      DrainStep(feed, start, before, e);
      AttemptOutside(feed, before, e);
      OutsideTrans(first, before.c, service.store.View(), feed.mailbox, feed.folder);
      assert World(service.store.View(), false) == Step(feed, before, e);
      batches := batches + 1;
      if outcome.Failed? {
        return;
      }
      if outcome.complete {
        complete := true;
        break;
      }
    }
    if complete && CleanWindows(feed) {
      EndsAsReference(feed, start, World(service.store.View(), false));
    }
  }

  lemma StartsInAgreement(feed: Feed, w: World)
    requires ValidFeed(feed) && feed.mailbox in w.c.mailboxes && Position(feed, w) == 0
    requires StableCache(w.c.messages, feed.mailbox, feed.folder, feed.ids)
    ensures Inv(feed, w.c.messages, w)
  {
    RunKeeps(feed, w, []);
  }

  lemma EndsAsReference(feed: Feed, start: Messages, w: World)
    requires Inv(feed, start, w) && Position(feed, w) == |feed.pages|
    ensures w.c.messages == ApplyItems(start, feed.mailbox, feed.folder, Items(feed.pages))
  {
    assert feed.pages[..|feed.pages|] == feed.pages && feed.pages[|feed.pages|..] == [];
    NoItems();
    hide Items, ApplyItems, Agree;
    AgreeAtEnd(w.c.messages, Reference(feed, start, |feed.pages|), feed.mailbox, feed.folder, feed.ids);
  }

  lemma DrainStep(feed: Feed, start: Messages, w: World, e: Event)
    requires ValidFeed(feed) && StableCache(start, feed.mailbox, feed.folder, feed.ids)
    requires e.Attempt? && !e.fails && e.crash == NoCrash && OneRound(feed.pages)
    requires feed.mailbox in w.c.mailboxes && Position(feed, w) < |feed.pages|
    ensures var w' := Step(feed, w, e);
            var outcome := Attempted(feed, w, e).1;
            && w' == World(Attempted(feed, w, e).0, false)
            && outcome.Done? && feed.mailbox in w'.c.mailboxes
            && Position(feed, w) < Position(feed, w') <= |feed.pages|
            && (outcome.complete <==> Position(feed, w') == |feed.pages|)
            && (CleanWindows(feed) && Inv(feed, start, w) ==> Inv(feed, start, w'))
  {
    AttemptDoes(feed, w, e);
    var p := Position(feed, w);
    assert Chain(feed.pages);
    hide Attempted, Chain, AfterDrop, AfterPut, Position, Inv, Stable, StableCache, NoResurrection;
    if CleanWindows(feed) && Inv(feed, start, w) {
      assert NoResurrection(Items(feed.pages[p..AttemptEnd(feed, p, e)]), feed.ids);
      StepKeeps(feed, start, w, e);
    }
  }

  lemma OutsideTrans(a: CacheState, b: CacheState, c: CacheState, mailbox: string, folder: Folder)
    requires OutsideSame(a, b, mailbox, folder) && OutsideSame(b, c, mailbox, folder)
    ensures OutsideSame(a, c, mailbox, folder)
  {
    hide Lookup;
  }

  /** What a drained folder leaves of the other one. */
  lemma OtherFolderReady(c: CacheState, c': CacheState, mailbox: string, folder: Folder, other: Feed)
    requires OutsideSame(c, c', mailbox, folder) && other.mailbox == mailbox && other.folder != folder
    requires StableCache(c.messages, mailbox, other.folder, other.ids)
    ensures StableCache(c'.messages, mailbox, other.folder, other.ids)
    ensures Position(other, World(c', false)) == Position(other, World(c, false))
  {
    assert forall k: Key :: k.mailbox == mailbox && k.folder == other.folder ==>
      Lookup(c'.messages, k) == Lookup(c.messages, k);
    assert forall k: Key :: k in c'.messages ==> Lookup(c'.messages, k) == Some(c'.messages[k]);
  }

  /** The initial sync of a mailbox: its inbox, then its junk folder. */
  method SyncMailbox(service: MessageCacheService, inbox: Feed, junk: Feed,
      clock: nat -> int) returns (failed: Option<Folder>)
    requires inbox.mailbox == junk.mailbox && inbox.mailbox in service.store.mailboxes
    requires inbox.folder == Inbox && junk.folder == Junk
    requires ValidFeed(inbox) && ValidFeed(junk) && OneRound(inbox.pages) && OneRound(junk.pages)
    requires Position(inbox, World(service.store.View(), false)) == 0
             && Position(junk, World(service.store.View(), false)) == 0
    requires StableCache(service.store.messages, inbox.mailbox, Inbox, inbox.ids)
    requires StableCache(service.store.messages, junk.mailbox, Junk, junk.ids)
    modifies service.store
    ensures |inbox.pages| <= MAX_INITIAL_SYNC_BATCHES && |junk.pages| <= MAX_INITIAL_SYNC_BATCHES ==> failed.None?
    ensures failed.None? && CleanWindows(inbox) && CleanWindows(junk) ==>
              service.store.messages == ApplyItems(ApplyItems(old(service.store.messages), inbox.mailbox, Inbox,
                Items(inbox.pages)),
                                                   junk.mailbox, Junk, Items(junk.pages))
  {
    hide ValidFeed, StableCache, Position, CleanWindows, ApplyItems, Items, OneRound;
    failed := None;
    var folders := [inbox, junk];
    ghost var start := service.store.View();
    for i := 0 to 2
      invariant failed.None? && service.store.mailboxes == start.mailboxes
      invariant i == 0 ==> service.store.View() == start
      invariant i == 1 ==> OutsideSame(start, service.store.View(), inbox.mailbox, Inbox)
                           && (CleanWindows(inbox) ==>
                             service.store.messages == ApplyItems(start.messages, inbox.mailbox, Inbox,
                                 Items(inbox.pages)))
      invariant i == 2 && CleanWindows(inbox) && CleanWindows(junk) ==>
                  service.store.messages == ApplyItems(ApplyItems(start.messages, inbox.mailbox, Inbox,
                    Items(inbox.pages)), junk.mailbox, Junk, Items(junk.pages))
    {
      if i == 1 {
        OtherFolderReady(start, service.store.View(), inbox.mailbox, Inbox, junk);
      }
      var complete, _ := DrainFolder(service, folders[i], clock);
      hide OutsideSame;
      if !complete {
        return Some(folders[i].folder);
      }
    }
  }
}
