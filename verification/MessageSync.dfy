/** MessageCacheService.Sync of backend/internal/service/message_cache.go: one batch of a cursor
    protocol, with the provider as a pair of functions and a process crash between any two of its
    store writes. */
module MessageSync {
  import opened Wrappers
  import opened CacheStore

  const BATCH_LIMIT: nat := 500
  const PAGE_SIZE: nat := 50
  const MAX_PAGES: nat := 20
  const OVERLAP: int := 1_000_000_000

  /** A provider message; the ids are the trimmed ones, the internet id also in lower case, and
      a zero receive time is None. */
  datatype Message = Message(id: string, internetID: string, receivedAt: Option<int>, content: string,
      recipients: set<string>)

  datatype SyncRequest = SyncRequest(channel: Channel, folder: Folder, cursor: Cursor, uidValidity: nat,
      highestUID: nat, limit: int, maxPages: int)

  datatype SyncResult = SyncResult(messages: seq<Message>, deleted: seq<string>, cursor: Cursor, uidValidity: nat,
      highestUID: nat, complete: bool, channel: Channel)

  datatype SyncReply = Synced(result: SyncResult) | CursorInvalid | NotConfigured | SyncFailed(error: string)

  datatype Query = Query(folder: Folder, channel: Channel, before: Option<int>, after: Option<int>,
      recipient: Option<string>, limit: nat)

  datatype RetrieveReply = Retrieved(messages: seq<Message>) | RetrieveFailed(error: string)

  /** The incremental retriever and the fallback retriever of a mailbox. */
  datatype Provider = Provider(incremental: SyncRequest -> SyncReply, retrieve: Query -> RetrieveReply)

  /** A mailbox, or one alias of it: both share the sync state of the mailbox. */
  datatype Target = Target(mailbox: string, alias: Option<string>)

  datatype CrashPoint = NoCrash | BeforeUpsert | AfterUpsert | AfterDelete

  datatype Outcome = Done(newCount: nat, complete: bool) | Failed(error: string) | Crashed

  // ---------------------------------------------------------------- from messages to cache entries

  function ExternalID(message: Message): string {
    if message.internetID != "" then message.internetID else message.id
  }

  predicate Cacheable(message: Message) {
    ExternalID(message) != "" && message.receivedAt.Some?
  }

  function KeyOf(mailbox: string, folder: Folder, message: Message): Key {
    Key(mailbox, folder, ExternalID(message))
  }

  function CachedMessageFrom(mailbox: string, folder: Folder, channel: Channel, message: Message): Option<Entry> {
    if !Cacheable(message) then None
    else Some((KeyOf(mailbox, folder, message),
               CachedMessage(message.id, channel, message.content, message.receivedAt.value, None)))
  }

  predicate ForTarget(message: Message, target: Target) {
    target.alias.None? || target.alias.value in message.recipients
  }

  function CacheBatch(target: Target, folder: Folder, channel: Channel, messages: seq<Message>): seq<Entry> {
    if messages == [] then []
    else
      var shorter, last := CacheBatch(target, folder, channel, messages[..|messages| - 1]), messages[|messages| - 1];
      var entry := CachedMessageFrom(target.mailbox, folder, channel, last);
      if ForTarget(last, target) && entry.Some? then shorter + [entry.value] else shorter
  }

  function Newest(last: Option<int>, batch: seq<Entry>): Option<int> {
    if batch == [] then last
    else
      var t := batch[|batch| - 1].1.receivedAt;
      var shorter := Newest(last, batch[..|batch| - 1]);
      if shorter.None? || t > shorter.value then Some(t) else shorter
  }

  function Oldest(messages: seq<Message>): Option<int> {
    if messages == [] then None
    else
      var shorter, t := Oldest(messages[..|messages| - 1]), messages[|messages| - 1].receivedAt;
      if t.None? || (shorter.Some? && t.value >= shorter.value) then shorter else t
  }

  method OldestMessageTime(messages: seq<Message>) returns (oldest: Option<int>)
    ensures oldest == Oldest(messages)
  {
    oldest := None;
    for i := 0 to |messages|
      invariant oldest == Oldest(messages[..i])
    {
      assert messages[..i + 1][..i] == messages[..i];
      var item := messages[i];
      if item.receivedAt.None? || (oldest.Some? && !(item.receivedAt.value < oldest.value)) {
        continue;
      }
      oldest := item.receivedAt;
    }
    assert messages[..|messages|] == messages;
  }

  // ---------------------------------------------------------------- one batch

  function InitialState(): SyncState {
    SyncState(NoCursor, 0, 0, None, 0, "", Unspecified)
  }

  function LoadState(c: CacheState, target: Target, folder: Folder): SyncState {
    if (target.mailbox, folder) in c.states then c.states[(target.mailbox, folder)] else InitialState()
  }

  function RequestFor(state: SyncState, channel: Channel, folder: Folder): SyncRequest {
    SyncRequest(channel, folder, state.cursor, state.uidValidity, state.highestUID, BATCH_LIMIT, MAX_PAGES)
  }

  /** The fallback query: backwards from the saved cursor, or forwards with an overlap of one
      second, or without bounds. */
  function FallbackQuery(state: SyncState, target: Target, folder: Folder, channel: Channel): Query {
    Query(folder, channel,
          if state.cursor.TimeBefore? then Some(state.cursor.time) else None,
          if !state.cursor.TimeBefore? && state.lastMessageAt.Some? then Some(state.lastMessageAt.value - OVERLAP)
            else None,
          target.alias, BATCH_LIMIT)
  }

  function FallbackState(state: SyncState, messages: seq<Message>): SyncState {
    if |messages| < BATCH_LIMIT then state.(cursor := NoCursor)
    else if Oldest(messages).Some? then state.(cursor := TimeBefore(Oldest(messages).value))
    else state
  }

  /** What the fetching part of Sync leaves in its local variables. */
  datatype Fetched = Fetched(messages: seq<Message>, deleted: seq<string>, channel: Channel, state: SyncState,
      complete: bool, error: Option<string>)

  function Fetch(state: SyncState, target: Target, folder: Folder, channel: Channel, provider: Provider): Fetched {
    var first := provider.incremental(RequestFor(state, channel, folder));
    var state1 := if first.CursorInvalid? then state.(cursor := NoCursor, uidValidity := 0, highestUID := 0) else state;
    var reply := if first.CursorInvalid? then provider.incremental(RequestFor(state1, channel, folder)) else first;
    match reply
    case NotConfigured =>
      (match provider.retrieve(FallbackQuery(state1, target, folder, channel))
       case Retrieved(messages) =>
         Fetched(messages, [], channel, FallbackState(state1, messages), |messages| < BATCH_LIMIT, None)
       case RetrieveFailed(e) =>
         Fetched([], [], channel, FallbackState(state1, []), true, Some(e)))
    case Synced(r) =>
      Fetched(r.messages, r.deleted, r.channel,
              state1.(cursor := r.cursor, uidValidity := r.uidValidity, highestUID := r.highestUID), r.complete, None)
    case CursorInvalid => Fetched([], [], channel, state1, false, Some("sync cursor invalid"))
    case SyncFailed(e) => Fetched([], [], channel, state1, false, Some(e))
  }

  function IDSet(ids: seq<string>): set<string> {
    set id | id in ids
  }

  /** Storing a fetched batch: upsert, delete, save the cursor. */
  function StoreBatch(c: CacheState, target: Target, folder: Folder, f: Fetched, now: int,
      crash: CrashPoint): (CacheState, Outcome) {
    if crash == BeforeUpsert then (c, Crashed)
    else
      var batch := CacheBatch(target, folder, f.channel, f.messages);
      var (c1, r) := Upsert(c, batch);
      if r.Err? then (c1, Failed(r.error.id))
      else if crash == AfterUpsert then (c1, Crashed)
      else
        var c2 := Delete(c1, target.mailbox, folder, f.channel, IDSet(f.deleted));
        if crash == AfterDelete then (c2, Crashed)
        else
          var state := f.state.(lastMessageAt := Newest(f.state.lastMessageAt, batch), lastSyncedAt := now,
                                lastError := "", channel := f.channel);
          (Save(c2, target.mailbox, folder, state), Done(r.value, f.complete))
  }

  function Sync(c: CacheState, target: Target, folder: Folder, channel: Channel, provider: Provider, now: int,
      crash: CrashPoint): (CacheState, Outcome) {
    var f := Fetch(LoadState(c, target, folder), target, folder, channel, provider);
    if f.error.Some? then
      (Save(c, target.mailbox, folder, f.state.(lastSyncedAt := now, lastError := f.error.value)),
        Failed(f.error.value))
    else
      StoreBatch(c, target, folder, f, now, crash)
  }

  /** The service; its per-target mutex makes one Sync at a time of a mailbox and folder. */
  class MessageCacheService {
    const store: Store

    constructor (store: Store)
      ensures this.store == store
    {
      this.store := store;
    }

    method FetchBatch(loaded: SyncState, target: Target, folder: Folder, channel: Channel,
        provider: Provider) returns (f: Fetched)
      ensures f == Fetch(loaded, target, folder, channel, provider)
    {
      var state := loaded;
      var messages: seq<Message>, deleted: seq<string>, used, complete, error := [], [], channel, false, None;
      var reply := provider.incremental(RequestFor(state, channel, folder));
      if reply.CursorInvalid? {
        state := state.(cursor := NoCursor, uidValidity := 0, highestUID := 0);
        reply := provider.incremental(RequestFor(state, channel, folder));
      }
      match reply {
        case NotConfigured =>
          var query := Query(folder, channel, None, None, None, BATCH_LIMIT);
          if state.cursor.TimeBefore? {
            query := query.(before := Some(state.cursor.time));
          } else if state.lastMessageAt.Some? {
            query := query.(after := Some(state.lastMessageAt.value - OVERLAP));
          }
          if target.alias.Some? {
            query := query.(recipient := target.alias);
          }
          var retrieved := provider.retrieve(query);
          if retrieved.Retrieved? {
            messages := retrieved.messages;
          } else {
            error := Some(retrieved.error);
          }
          complete := |messages| < BATCH_LIMIT;
          if complete {
            state := state.(cursor := NoCursor);
          } else {
            var oldest := OldestMessageTime(messages);
            if oldest.Some? {
              state := state.(cursor := TimeBefore(oldest.value));
            }
          }
        case Synced(r) =>
          messages, deleted, used, complete := r.messages, r.deleted, r.channel, r.complete;
          state := state.(cursor := r.cursor, uidValidity := r.uidValidity, highestUID := r.highestUID);
        case CursorInvalid => error := Some("sync cursor invalid");
        case SyncFailed(e) => error := Some(e);
      }
      f := Fetched(messages, deleted, used, state, complete, error);
    }

    /** The loop that filters and converts a batch and tracks its newest message. */
    method CacheEntries(target: Target, folder: Folder, channel: Channel, messages: seq<Message>, last: Option<int>)
        returns (cached: seq<Entry>, newest: Option<int>)
      ensures cached == CacheBatch(target, folder, channel, messages)
      ensures newest == Newest(last, cached)
    {
      cached, newest := [], last;
      for i := 0 to |messages|
        invariant cached == CacheBatch(target, folder, channel, messages[..i])
        invariant newest == Newest(last, cached)
      {
        var message := messages[i];
        assert messages[..i + 1][..i] == messages[..i];
        if target.alias.Some? && target.alias.value !in message.recipients {
          continue;
        }
        var item := CachedMessageFrom(target.mailbox, folder, channel, message);
        if item.None? {
          continue;
        }
        assert (cached + [item.value])[..|cached|] == cached;
        cached := cached + [item.value];
        if newest.None? || item.value.1.receivedAt > newest.value {
          newest := Some(item.value.1.receivedAt);
        }
      }
      assert messages[..|messages|] == messages;
    }

    /** The writes of a batch that was fetched. */
    method StoreFetched(target: Target, folder: Folder, f: Fetched, now: int,
        crash: CrashPoint) returns (outcome: Outcome)
      modifies store
      ensures (store.View(), outcome) == StoreBatch(old(store.View()), target, folder, f, now, crash)
    {
      hide CacheBatch, Newest, Upsert, Delete, Save;
      if crash == BeforeUpsert {
        return Crashed;
      }
      var cached, newest := CacheEntries(target, folder, f.channel, f.messages, f.state.lastMessageAt);
      var newCount := store.UpsertCachedMessages(cached);
      if newCount.Err? {
        return Failed(newCount.error.id);
      }
      if crash == AfterUpsert {
        return Crashed;
      }
      var _ := store.DeleteCachedMessages(target.mailbox, folder, f.channel, f.deleted);
      if crash == AfterDelete {
        return Crashed;
      }
      store.SaveMessageSyncState(target.mailbox, folder,
        f.state.(lastMessageAt := newest, lastSyncedAt := now, lastError := "", channel := f.channel));
      outcome := Done(newCount.value, f.complete);
    }

    method SyncOnce(target: Target, folder: Folder, channel: Channel, provider: Provider, now: int,
        crash: CrashPoint) returns (outcome: Outcome)
      modifies store
      ensures (store.View(), outcome) == Sync(old(store.View()), target, folder, channel, provider, now, crash)
    {
      hide Fetch, StoreBatch, Save;
      var state := InitialState();
      if (target.mailbox, folder) in store.states {
        state := store.states[(target.mailbox, folder)];
      }
      var f := FetchBatch(state, target, folder, channel, provider);
      if f.error.Some? {
        store.SaveMessageSyncState(target.mailbox, folder, f.state.(lastSyncedAt := now, lastError := f.error.value));
        return Failed(f.error.value);
      }
      outcome := StoreFetched(target, folder, f, now, crash);
    }
  }

  // ---------------------------------------------------------------- facts used by the protocols

  /** The oldest time of a batch is the least receive time in it. */
  lemma {:induction false} OldestIsLeast(messages: seq<Message>)
    ensures Oldest(messages).None? <==> forall m :: m in messages ==> m.receivedAt.None?
    ensures Oldest(messages).Some? ==>
              && (exists m :: m in messages && m.receivedAt == Oldest(messages))
              && (forall m :: m in messages && m.receivedAt.Some? ==> Oldest(messages).value <= m.receivedAt.value)
    decreases |messages|
  {
    if messages != [] {
      var shorter, last := messages[..|messages| - 1], messages[|messages| - 1];
      OldestIsLeast(shorter);
      assert forall m :: m in messages <==> m in shorter || m == last;
    }
  }

  /** The newest time after a batch bounds the times of its entries and the time before it. */
  lemma {:induction false} NewestIsGreatest(last: Option<int>, batch: seq<Entry>)
    ensures last.Some? ==> Newest(last, batch).Some? && Newest(last, batch).value >= last.value
    ensures forall e :: e in batch ==> Newest(last, batch).Some? && Newest(last, batch).value >= e.1.receivedAt
    ensures Newest(last, batch) == last || exists e :: e in batch && Newest(last, batch) == Some(e.1.receivedAt)
    decreases |batch|
  {
    if batch != [] {
      var shorter, e := batch[..|batch| - 1], batch[|batch| - 1];
      NewestIsGreatest(last, shorter);
      assert forall x :: x in batch <==> x in shorter || x == e;
    }
  }

  /** A batch holds exactly the entries of the cacheable messages that are for the target. */
  lemma {:induction false} CacheBatchHolds(target: Target, folder: Folder, channel: Channel, messages: seq<Message>)
    ensures var batch := CacheBatch(target, folder, channel, messages);
            && Unviewed(batch)
            && (forall m :: m in messages && ForTarget(m, target) && Cacheable(m) ==>
                  CachedMessageFrom(target.mailbox, folder, channel, m).value in batch)
            && (forall e :: e in batch ==>
                  exists m :: m in messages && ForTarget(m, target) && Cacheable(m)
                              && CachedMessageFrom(target.mailbox, folder, channel, m) == Some(e))
    decreases |messages|
  {
    if messages != [] {
      var shorter, last := messages[..|messages| - 1], messages[|messages| - 1];
      CacheBatchHolds(target, folder, channel, shorter);
      assert forall m :: m in messages <==> m in shorter || m == last;
    }
  }

  predicate Cached(c: CacheState, mailbox: string, folder: Folder, m: Message) {
    KeyOf(mailbox, folder, m) in c.messages
  }

  lemma BatchInMailbox(mailbox: string, folder: Folder, channel: Channel, reply: seq<Message>, mailboxes: set<string>)
    requires mailbox in mailboxes
    ensures var batch := CacheBatch(Target(mailbox, None), folder, channel, reply);
            Unviewed(batch) && InMailboxes(batch, mailboxes)
  {
    var batch := CacheBatch(Target(mailbox, None), folder, channel, reply);
    CacheBatchHolds(Target(mailbox, None), folder, channel, reply);
    forall i | 0 <= i < |batch| ensures batch[i].0.mailbox in mailboxes {
      assert batch[i] in batch;
    }
  }

  lemma {:induction false} BatchKeysHold(batch: seq<Entry>, e: Entry)
    requires e in batch
    ensures e.0 in BatchKeys(batch)
    decreases |batch|
  {
    if batch[0] != e {
      assert e in batch[1..];
      BatchKeysHold(batch[1..], e);
    }
  }

  /** The cache after the upsert of a reply. */
  function AfterUpsertOf(c: CacheState, mailbox: string, folder: Folder, channel: Channel,
      reply: seq<Message>): CacheState {
    Upsert(c, CacheBatch(Target(mailbox, None), folder, channel, reply)).0
  }

  lemma UpsertCaches(c: CacheState, mailbox: string, folder: Folder, channel: Channel, reply: seq<Message>)
    requires mailbox in c.mailboxes
    ensures var c1 := AfterUpsertOf(c, mailbox, folder, channel, reply);
            && c1 == c.(messages := c1.messages) && c.messages.Keys <= c1.messages.Keys
            && (forall m :: m in reply && Cacheable(m) ==> Cached(c1, mailbox, folder, m))
    ensures Upsert(c, CacheBatch(Target(mailbox, None), folder, channel, reply)).1.Ok?
  {
    var batch := CacheBatch(Target(mailbox, None), folder, channel, reply);
    BatchInMailbox(mailbox, folder, channel, reply, c.mailboxes);
    UpsertKeys(c, batch);
    UpsertCounts(c, batch);
    CacheBatchHolds(Target(mailbox, None), folder, channel, reply);
    hide CacheBatch, Upsert, BatchKeys, InMailboxes, Unviewed;
    forall m | m in reply && Cacheable(m) ensures KeyOf(mailbox, folder, m) in BatchKeys(batch) {
      BatchKeysHold(batch, CachedMessageFrom(mailbox, folder, channel, m).value);
    }
  }

  lemma DeletesNothing(c: CacheState, mailbox: string, folder: Folder, channel: Channel)
    ensures Delete(c, mailbox, folder, channel, IDSet([])) == c
  {
    assert DeleteWithin(c.messages, c.messages.Keys, mailbox, folder, channel, IDSet([])) == c.messages;
  }

  /** Storing a fetched batch that deletes nothing, up to its crash point: its cacheable messages are
      cached, nothing is forgotten, and the fetched state is saved unless it crashes. */
  lemma StoreCaches(c: CacheState, mailbox: string, folder: Folder, f: Fetched, now: int, crash: CrashPoint)
    requires mailbox in c.mailboxes && f.deleted == []
    requires f.state.lastMessageAt == LoadState(c, Target(mailbox, None), folder).lastMessageAt
    ensures var (c', outcome) := StoreBatch(c, Target(mailbox, None), folder, f, now, crash);
            var s' := LoadState(c', Target(mailbox, None), folder);
            && c'.mailboxes == c.mailboxes
            && c'.messages == (if crash == BeforeUpsert then c
              else AfterUpsertOf(c, mailbox, folder, f.channel, f.messages)).messages
            && (if crash != NoCrash then outcome == Crashed && s' == LoadState(c, Target(mailbox, None), folder)
                else
                  && outcome.Done? && outcome.complete == f.complete
                  && s'.cursor == f.state.cursor && s'.uidValidity == f.state.uidValidity
                    && s'.highestUID == f.state.highestUID
                  && s'.lastMessageAt == Newest(f.state.lastMessageAt,
                    CacheBatch(Target(mailbox, None), folder, f.channel, f.messages)))
  {
    UpsertCaches(c, mailbox, folder, f.channel, f.messages);
    DeletesNothing(AfterUpsertOf(c, mailbox, folder, f.channel, f.messages), mailbox, folder, f.channel);
    NewestIsGreatest(f.state.lastMessageAt, CacheBatch(Target(mailbox, None), folder, f.channel, f.messages));
    hide CacheBatch, Upsert, Newest, Delete, InMailboxes;
  }
}
