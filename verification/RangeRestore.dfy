/** RestoreRange of backend/internal/service/message_cache.go: a bisected range is retrieved and cached. */
module RangeRestore {
  import opened Wrappers

  import opened CacheStore
  import opened MessageSync
  import opened RangeBisection

  datatype RestoreError<E> = InvalidRange | RetrievalFailed(error: E) | StoreFailed(failure: StoreError)

  function EntryFor(mailbox: string, folder: Folder, item: Retrieved): Option<Entry> {
    CachedMessageFrom(mailbox, folder, item.channel, item.message)
  }

  /** The entries of the retrieved messages that have an identity and a time. */
  function Entries(mailbox: string, folder: Folder, items: seq<Retrieved>): seq<Entry>
    decreases |items|
  {
    if items == [] then []
    else
      var entry := EntryFor(mailbox, folder, items[|items| - 1]);
      Entries(mailbox, folder, items[..|items| - 1]) + if entry.Some? then [entry.value] else []
  }

  function Restored<E>(c: CacheState, mailbox: string, folder: Folder, after: Option<int>, before: Option<int>,
      fetch: RangeQuery<E>): (CacheState, Result<nat, RestoreError<E>>) {
    if mailbox == "" || after.None? || before.None? || after.value >= before.value then (c, Err(InvalidRange))
    else if mailbox !in c.mailboxes then (c, Err(StoreFailed(NotFound(mailbox))))
    else
      match RetrieveCompleteRange(fetch, after.value, before.value, 0)
      case Err(e) => (c, Err(RetrievalFailed(e)))
      case Ok(items) =>
        var (c', r) := Upsert(c, Entries(mailbox, folder, items));
        (c', if r.Ok? then Ok(r.value) else Err(StoreFailed(r.error)))
  }

  method RestoreRange<E>(store: Store, mailbox: string, folder: Folder, after: Option<int>, before: Option<int>,
      fetch: RangeQuery<E>) returns (r: Result<nat, RestoreError<E>>)
    modifies store`messages
    ensures (store.View(), r) == Restored(old(store.View()), mailbox, folder, after, before, fetch)
  {
    if mailbox == "" || after.None? || before.None? || after.value >= before.value {
      return Err(InvalidRange);
    }
    if mailbox !in store.mailboxes {
      return Err(StoreFailed(NotFound(mailbox)));
    }
    var messages := RetrieveCompleteRange(fetch, after.value, before.value, 0);
    if messages.Err? {
      return Err(RetrievalFailed(messages.error));
    }
    var items := messages.value;
    var cached: seq<Entry> := [];
    for i := 0 to |items|
      invariant cached == Entries(mailbox, folder, items[..i])
    {
      assert items[..i + 1][..i] == items[..i];
      var item := EntryFor(mailbox, folder, items[i]);
      if item.Some? {
        cached := cached + [item.value];
      }
    }
    assert items[..|items|] == items;
    var count := store.UpsertCachedMessages(cached);
    if count.Err? {
      return Err(StoreFailed(count.error));
    }
    r := Ok(count.value);
  }

  // ---------------------------------------------------------------- what a restore leaves

  /** The batch holds exactly the keys of the cacheable messages retrieved. */
  lemma {:induction false} EntriesHold(mailbox: string, folder: Folder, items: seq<Retrieved>)
    ensures var batch := Entries(mailbox, folder, items);
            && Unviewed(batch) && InMailboxes(batch, {mailbox})
            && forall k :: LastFor(batch, k).Some? <==> k in KeysOf(mailbox, folder, MessagesOf(items))
    decreases |items|
  {
    if items != [] {
      var n := |items| - 1;
      EntriesHold(mailbox, folder, items[..n]);
      var shorter, entry := Entries(mailbox, folder, items[..n]), EntryFor(mailbox, folder, items[n]);
      assert MessagesOf(items) == MessagesOf(items[..n]) + [items[n].message];
      KeysOfSnoc(mailbox, folder, MessagesOf(items[..n]), items[n].message);
      hide LastFor, KeysOf, MessagesOf;
      forall k
        ensures LastFor(Entries(mailbox, folder, items), k).Some? <==> k in KeysOf(mailbox, folder, MessagesOf(items))
      {
        if entry.Some? { LastForSnoc(shorter, entry.value, k); } else { assert shorter + [] == shorter; }
      }
    }
  }

  function KeysOf(mailbox: string, folder: Folder, messages: seq<Message>): set<Key> {
    set m | m in messages && Cacheable(m) :: KeyOf(mailbox, folder, m)
  }

  lemma KeysOfSnoc(mailbox: string, folder: Folder, messages: seq<Message>, m: Message)
    ensures KeysOf(mailbox, folder, messages + [m]) == KeysOf(mailbox, folder, messages)
            + if Cacheable(m) then {KeyOf(mailbox, folder, m)} else {}
  {
    assert forall x :: x in messages + [m] <==> x in messages || x == m;
  }

  /** The keys of the cacheable messages of the provider in a range. */
  function KeysIn(mailbox: string, folder: Folder, messages: set<Message>, after: int, before: int): set<Key> {
    set m | m in Window(messages, after, before) && Cacheable(m) :: KeyOf(mailbox, folder, m)
  }

  lemma CompleteKeys(mailbox: string, folder: Folder, items: seq<Retrieved>, messages: set<Message>, after: int,
      before: int)
    requires Complete(items, messages, after, before)
    ensures KeysOf(mailbox, folder, MessagesOf(items)) == KeysIn(mailbox, folder, messages, after, before)
  {
    var window := Window(messages, after, before);
    forall m ensures m in MessagesOf(items) <==> m in window {
      assert m in multiset(MessagesOf(items)) <==> m in multiset(window);
    }
    hide Complete, Window, MessagesOf;
  }

  /** What caching retrieved messages does. */
  ghost predicate Caches(c: CacheState, c': CacheState, keys: set<Key>) {
    && c' == c.(messages := c'.messages)
    && c'.messages.Keys == c.messages.Keys + keys
    && (forall k :: k in c.messages && k !in keys ==> c'.messages[k] == c.messages[k])
    && (forall k :: k in c.messages && k in keys ==> c'.messages[k].viewedAt == c.messages[k].viewedAt)
  }

  lemma UpsertedKey(c: CacheState, batch: seq<Entry>, k: Key)
    requires Unviewed(batch) && InMailboxes(batch, c.mailboxes)
    ensures var messages := Upsert(c, batch).0.messages;
            && (k in messages <==> k in c.messages || LastFor(batch, k).Some?)
            && (k in c.messages ==>
                  (LastFor(batch, k).None? ==> messages[k] == c.messages[k])
                    && messages[k].viewedAt == c.messages[k].viewedAt)
  {
    UpsertMeans(c, batch, k);
    hide Upsert, LastFor, Unviewed, InMailboxes;
  }

  lemma BatchCached(c: CacheState, batch: seq<Entry>, keys: set<Key>)
    requires Unviewed(batch) && InMailboxes(batch, c.mailboxes)
    requires forall k :: LastFor(batch, k).Some? <==> k in keys
    ensures Caches(c, Upsert(c, batch).0, keys)
  {
    hide Upsert, Unviewed, InMailboxes, BatchKeys, LastFor;
    UpsertKeys(c, batch);
    var c' := Upsert(c, batch).0;
    forall k ensures k in c'.messages.Keys <==> k in c.messages.Keys + keys {
      UpsertedKey(c, batch, k);
    }
    forall k | k in c.messages
      ensures (k !in keys ==> c'.messages[k] == c.messages[k]) && c'.messages[k].viewedAt == c.messages[k].viewedAt
    {
      UpsertedKey(c, batch, k);
    }
  }

  lemma EntriesCached(c: CacheState, mailbox: string, folder: Folder, items: seq<Retrieved>)
    requires mailbox in c.mailboxes
    ensures var (c', r) := Upsert(c, Entries(mailbox, folder, items));
            Caches(c, c', KeysOf(mailbox, folder, MessagesOf(items))) && r == Ok(|c'.messages| - |c.messages|)
  {
    hide Entries, Upsert, KeysOf, MessagesOf, Unviewed, LastFor, Caches;
    var batch := Entries(mailbox, folder, items);
    EntriesHold(mailbox, folder, items);
    UpsertCounts(c, batch);
    BatchCached(c, batch, KeysOf(mailbox, folder, MessagesOf(items)));
  }

  /** A restore whose queries succeed caches every cacheable message of the range and nothing else, keeps
      every other entry, every viewed time and all sync states, and reports the number of new entries,
      provided that no finest piece of the range holds more messages than the cap of the provider. */
  lemma RestoreCachesRange<E(!new)>(c: CacheState, mailbox: string, folder: Folder, after: int, before: int,
      fetch: RangeQuery<E>, messages: set<Message>, cap: nat)
    requires mailbox != "" && mailbox in c.mailboxes && after < before
    requires cap >= RANGE_LIMIT && Faithful(fetch, messages, cap) && RetrieveCompleteRange(fetch, after, before, 0).Ok?
    requires FinestHold(messages, cap, after, before, 0)
    ensures var (c', r) := Restored(c, mailbox, folder, Some(after), Some(before), fetch);
            && Caches(c, c', KeysIn(mailbox, folder, messages, after, before))
            && r == Ok(|c'.messages| - |c.messages|)
  {
    hide RetrieveCompleteRange, Complete, Window, Entries, Upsert, KeysOf, KeysIn, MessagesOf, Faithful, Caches,
      FinestHold;
    CompleteIffFinestHold(fetch, messages, cap, after, before, 0);
    var items := RetrieveCompleteRange(fetch, after, before, 0).value;
    CompleteKeys(mailbox, folder, items, messages, after, before);
    EntriesCached(c, mailbox, folder, items);
  }

  lemma {:induction false} LastItem(mailbox: string, folder: Folder, items: seq<Retrieved>, k: Key)
      returns (item: Retrieved)
    requires LastFor(Entries(mailbox, folder, items), k).Some?
    ensures item in items && EntryFor(mailbox, folder, item)
            == Some((k, LastFor(Entries(mailbox, folder, items), k).value))
    decreases |items|
  {
    var n := |items| - 1;
    var shorter, entry := Entries(mailbox, folder, items[..n]), EntryFor(mailbox, folder, items[n]);
    item := items[n];
    if entry.None? {
      assert shorter + [] == shorter;
      item := LastItem(mailbox, folder, items[..n], k);
    } else {
      assert (shorter + [entry.value])[..|shorter|] == shorter;
      if entry.value.0 != k { item := LastItem(mailbox, folder, items[..n], k); }
    }
  }

  /** What a restore leaves under a key of the range is a message of the range, with the retrieval method
      that found it and the viewed time from before. */
  lemma RestoredEntryIsRetrieved<E(!new)>(c: CacheState, mailbox: string, folder: Folder, after: int, before: int,
      fetch: RangeQuery<E>, messages: set<Message>, cap: nat, k: Key) returns (item: Retrieved)
    requires mailbox != "" && mailbox in c.mailboxes && after < before
    requires Faithful(fetch, messages, cap) && RetrieveCompleteRange(fetch, after, before, 0).Ok?
    requires k in KeysOf(mailbox, folder, MessagesOf(RetrieveCompleteRange(fetch, after, before, 0).value))
    ensures item in RetrieveCompleteRange(fetch, after, before, 0).value
            && item.message in Window(messages, after, before)
    ensures var c' := Restored(c, mailbox, folder, Some(after), Some(before), fetch).0;
            && k in c'.messages && EntryFor(mailbox, folder, item).Some?
            && EntryFor(mailbox, folder, item).value.0 == k
            && c'.messages[k] == EntryFor(mailbox, folder, item).value.1.(viewedAt := ViewedAt(c.messages, k))
  {
    hide RetrieveCompleteRange, Complete, Window, Entries, Upsert, KeysOf, MessagesOf, Faithful, LastFor, Unviewed;
    var items := RetrieveCompleteRange(fetch, after, before, 0).value;
    EntriesHold(mailbox, folder, items);
    item := LastItem(mailbox, folder, items, k);
    assert InMailboxes(Entries(mailbox, folder, items), c.mailboxes);
    UpsertMeans(c, Entries(mailbox, folder, items), k);
    CompleteIff(fetch, messages, cap, after, before, 0);
    RetrievedInWindow(items, item, Window(messages, after, before));
  }

  lemma RetrievedInWindow(items: seq<Retrieved>, item: Retrieved, window: set<Message>)
    requires multiset(MessagesOf(items)) <= multiset(window) && item in items
    ensures item.message in window
  {
    var i :| 0 <= i < |items| && items[i] == item;
    assert MessagesOf(items)[i] == item.message;
    assert item.message in multiset(MessagesOf(items));
  }
}
