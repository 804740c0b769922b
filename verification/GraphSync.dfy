/** One batch of an incremental sync through Microsoft Graph, key by key, against the reference that
    applies the items of the delta pages one by one. */
module GraphSync {
  import opened Wrappers
  import opened CacheStore
  import opened MessageSync
  import opened GraphDelta

  // ---------------------------------------------------------------- the reference: item by item

  function EntryOf(message: Message, viewedAt: Option<int>): CachedMessage
    requires Cacheable(message)
  {
    CachedMessage(message.id, Graph, message.content, message.receivedAt.value, viewedAt)
  }

  function ApplyItem(messages: Messages, mailbox: string, folder: Folder, item: Item): Messages {
    match item
    case Present(m) =>
      if Cacheable(m) then UpsertOne(messages, KeyOf(mailbox, folder, m), EntryOf(m, None)) else messages
    case Removed(id) =>
      if id != "" then DeleteWithin(messages, messages.Keys, mailbox, folder, Graph, {id}) else messages
  }

  function ApplyItems(messages: Messages, mailbox: string, folder: Folder, items: seq<Item>): Messages
    decreases |items|
  {
    if items == [] then messages
    else ApplyItem(ApplyItems(messages, mailbox, folder, items[..|items| - 1]), mailbox, folder, items[|items| - 1])
  }

  // ---------------------------------------------------------------- what items do to one message

  datatype Op = Keep | Put(message: Message) | Drop

  /** The provider id of each external id. */
  type ProviderIDs = map<string, string>

  function OpOf(item: Item, external: string, ids: ProviderIDs): Op {
    match item
    case Present(m) => if Cacheable(m) && ExternalID(m) == external then Put(m) else Keep
    case Removed(id) => if id != "" && external in ids && ids[external] == id then Drop else Keep
  }

  /** The last item that concerns a message. */
  function LastOp(items: seq<Item>, external: string, ids: ProviderIDs): Op
    decreases |items|
  {
    if items == [] then Keep
    else
      var op := OpOf(items[|items| - 1], external, ids);
      if op != Keep then op else LastOp(items[..|items| - 1], external, ids)
  }

  predicate DroppedIn(items: seq<Item>, external: string, ids: ProviderIDs)
    decreases |items|
  {
    items != [] && (OpOf(items[|items| - 1], external, ids) == Drop || DroppedIn(items[..|items| - 1], external, ids))
  }

  function LastPut(items: seq<Item>, external: string, ids: ProviderIDs): (r: Option<Message>)
    ensures r.Some? ==> Cacheable(r.value)
    decreases |items|
  {
    if items == [] then None
    else
      var op := OpOf(items[|items| - 1], external, ids);
      if op.Put? then Some(op.message) else LastPut(items[..|items| - 1], external, ids)
  }

  /** Different messages have different provider ids, and a message keeps its provider id. */
  predicate Stable(items: seq<Item>, ids: ProviderIDs) {
    && (forall a, b :: a in ids && b in ids && ids[a] == ids[b] ==> a == b)
    && forall i :: 0 <= i < |items| && items[i].Present? && Cacheable(items[i].message) ==>
         ExternalID(items[i].message) in ids && ids[ExternalID(items[i].message)] == items[i].message.id
  }

  predicate StableCache(messages: Messages, mailbox: string, folder: Folder, ids: ProviderIDs) {
    forall k :: k in messages && k.mailbox == mailbox && k.folder == folder ==>
      k.externalID in ids && messages[k].providerID == ids[k.externalID] && messages[k].channel == Graph
  }

  /** No message removed in the batch is added again later in the same batch. */
  predicate NoResurrection(batch: seq<Item>, ids: ProviderIDs) {
    forall e :: e in ids && DroppedIn(batch, e, ids) ==> LastOp(batch, e, ids) == Drop
  }

  lemma StablePrefix(items: seq<Item>, n: nat, ids: ProviderIDs)
    requires n <= |items| && Stable(items, ids)
    ensures Stable(items[..n], ids) && Stable(items[n..], ids)
  {
    assert forall i :: 0 <= i < n ==> items[..n][i] == items[i];
    assert forall i :: 0 <= i < |items| - n ==> items[n..][i] == items[n + i];
  }

  lemma {:induction false} OpsConcat(a: seq<Item>, b: seq<Item>, external: string, ids: ProviderIDs)
    ensures LastOp(a + b, external, ids)
            == (if LastOp(b, external, ids) != Keep then LastOp(b, external, ids) else LastOp(a, external, ids))
    ensures DroppedIn(a + b, external, ids) == (DroppedIn(a, external, ids) || DroppedIn(b, external, ids))
    decreases |b|
  {
    if b == [] {
      assert a + b == a;
    } else {
      assert (a + b)[..|a + b| - 1] == a + b[..|b| - 1];
      OpsConcat(a, b[..|b| - 1], external, ids);
    }
  }

  /** The last operation decides, unless it is a put after a drop. */
  lemma {:induction false} LastOpCases(items: seq<Item>, external: string, ids: ProviderIDs)
    ensures LastOp(items, external, ids).Keep? <==>
            !DroppedIn(items, external, ids) && LastPut(items, external, ids).None?
    ensures LastOp(items, external, ids).Put? ==>
            LastPut(items, external, ids) == Some(LastOp(items, external, ids).message)
    ensures LastOp(items, external, ids).Drop? ==> DroppedIn(items, external, ids)
    decreases |items|
  {
    if items != [] { LastOpCases(items[..|items| - 1], external, ids); }
  }

  /** The effect of one item on one key. */
  lemma ApplyItemKeepsStable(messages: Messages, mailbox: string, folder: Folder, item: Item, ids: ProviderIDs)
    requires StableCache(messages, mailbox, folder, ids) && Stable([item], ids)
    ensures StableCache(ApplyItem(messages, mailbox, folder, item), mailbox, folder, ids)
  {
    assert [item][0] == item;
    hide Cacheable;
  }

  lemma ApplyItemMeans(messages: Messages, mailbox: string, folder: Folder, item: Item, ids: ProviderIDs, key: Key)
    requires StableCache(messages, mailbox, folder, ids) && Stable([item], ids)
    ensures var after := ApplyItem(messages, mailbox, folder, item);
            if key.mailbox != mailbox || key.folder != folder then Lookup(after, key) == Lookup(messages, key)
            else match OpOf(item, key.externalID, ids)
              case Keep => Lookup(after, key) == Lookup(messages, key)
              case Drop => key !in after
              case Put(m) => Lookup(after, key) == Some(EntryOf(m, ViewedAt(messages, key)))
    ensures StableCache(ApplyItem(messages, mailbox, folder, item), mailbox, folder, ids)
  {
    ApplyItemKeepsStable(messages, mailbox, folder, item, ids);
    assert [item][0] == item;
    hide Cacheable;
  }

  /** Item by item, a message ends as its last operation says. */
  lemma {:induction false} ApplyItemsMeans(messages: Messages, mailbox: string, folder: Folder, items: seq<Item>,
      ids: ProviderIDs, key: Key)
    requires StableCache(messages, mailbox, folder, ids) && Stable(items, ids)
    ensures var after := ApplyItems(messages, mailbox, folder, items);
            if key.mailbox != mailbox || key.folder != folder then Lookup(after, key) == Lookup(messages, key)
            else match LastOp(items, key.externalID, ids)
              case Keep => Lookup(after, key) == Lookup(messages, key)
              case Drop => key !in after
              case Put(m) =>
                && Cacheable(m)
                && Lookup(after, key) == Some(EntryOf(m, if DroppedIn(items, key.externalID, ids) then None
                  else ViewedAt(messages, key)))
    ensures StableCache(ApplyItems(messages, mailbox, folder, items), mailbox, folder, ids)
    decreases |items|
  {
    if items != [] {
      var n := |items| - 1;
      StablePrefix(items, n, ids);
      assert items[n..] == [items[n]];
      ApplyItemsMeans(messages, mailbox, folder, items[..n], ids, key);
      ApplyItemMeans(ApplyItems(messages, mailbox, folder, items[..n]), mailbox, folder, items[n], ids, key);
      LastOpCases(items[..n], key.externalID, ids);
      hide ApplyItem, StableCache, Stable;
    }
  }

  // ---------------------------------------------------------------- one batch against the reference

  /** The cache after the upsert and after the delete of a batch. */
  function AfterPut(c: CacheState, mailbox: string, folder: Folder, items: seq<Item>): CacheState {
    Upsert(c, CacheBatch(Target(mailbox, None), folder, Graph, PresentMessages(items))).0
  }

  function AfterDrop(c: CacheState, mailbox: string, folder: Folder, items: seq<Item>): CacheState {
    Delete(AfterPut(c, mailbox, folder, items), mailbox, folder, Graph, IDSet(RemovedIDs(items)))
  }

  lemma CacheBatchSnoc(mailbox: string, folder: Folder, messages: seq<Message>, m: Message)
    ensures CacheBatch(Target(mailbox, None), folder, Graph, messages + [m])
         == CacheBatch(Target(mailbox, None), folder, Graph, messages) + (if Cacheable(m)
           then [(KeyOf(mailbox, folder, m), EntryOf(m, None))] else [])
  {
    assert (messages + [m])[..|messages|] == messages;
  }

  /** The entry a batch leaves for a key. */
  function PutFor(mailbox: string, folder: Folder, items: seq<Item>, ids: ProviderIDs,
      key: Key): Option<CachedMessage> {
    if key.mailbox != mailbox || key.folder != folder || LastPut(items, key.externalID, ids).None? then None
    else Some(EntryOf(LastPut(items, key.externalID, ids).value, None))
  }

  lemma PutForSnoc(mailbox: string, folder: Folder, items: seq<Item>, item: Item, ids: ProviderIDs, key: Key)
    ensures PutFor(mailbox, folder, items + [item], ids, key) ==
            if item.Present? && Cacheable(item.message) && KeyOf(mailbox, folder, item.message) == key
            then Some(EntryOf(item.message, None)) else PutFor(mailbox, folder, items, ids, key)
  {
    assert (items + [item])[..|items|] == items;
  }

  lemma PresentSnoc(items: seq<Item>, item: Item)
    ensures PresentMessages(items + [item]) == PresentMessages(items) + if item.Present? then [item.message] else []
  {
    assert (items + [item])[..|items|] == items;
  }

  lemma {:induction false} BatchIsPuts(mailbox: string, folder: Folder, items: seq<Item>, ids: ProviderIDs, key: Key)
    ensures LastFor(CacheBatch(Target(mailbox, None), folder, Graph, PresentMessages(items)), key)
            == PutFor(mailbox, folder, items, ids, key)
    decreases |items|
  {
    if items != [] {
      var shorter, item := items[..|items| - 1], items[|items| - 1];
      assert items == shorter + [item];
      BatchIsPuts(mailbox, folder, shorter, ids, key);
      PutForSnoc(mailbox, folder, shorter, item, ids, key);
      PresentSnoc(shorter, item);
      hide CacheBatch, LastFor, PresentMessages, PutFor;
      var before := CacheBatch(Target(mailbox, None), folder, Graph, PresentMessages(shorter));
      if item.Present? {
        CacheBatchSnoc(mailbox, folder, PresentMessages(shorter), item.message);
        if Cacheable(item.message) {
          LastForSnoc(before, (KeyOf(mailbox, folder, item.message), EntryOf(item.message, None)), key);
        } else {
          assert before + [] == before;
        }
      } else {
        assert PresentMessages(shorter) + [] == PresentMessages(shorter);
      }
    }
  }

  lemma {:induction false} RemovedAreDrops(items: seq<Item>, external: string, ids: ProviderIDs)
    requires external in ids
    ensures ids[external] in IDSet(RemovedIDs(items)) <==> DroppedIn(items, external, ids)
    decreases |items|
  {
    if items != [] { RemovedAreDrops(items[..|items| - 1], external, ids); }
  }

  /** The two writes of a batch, key by key. */
  lemma BatchMeans(c: CacheState, mailbox: string, folder: Folder, items: seq<Item>, ids: ProviderIDs, key: Key)
    requires mailbox in c.mailboxes && StableCache(c.messages, mailbox, folder, ids) && Stable(items, ids)
    ensures var put, drop := AfterPut(c, mailbox, folder, items).messages,
            AfterDrop(c, mailbox, folder, items).messages;
            if key.mailbox != mailbox || key.folder != folder then
              Lookup(put, key) == Lookup(c.messages, key) == Lookup(drop, key)
            else
              && Lookup(put, key) == (match LastPut(items, key.externalID, ids)
                                      case None => Lookup(c.messages, key)
                                      case Some(m) => Some(EntryOf(m, ViewedAt(c.messages, key))))
              && Lookup(drop, key) == if DroppedIn(items, key.externalID, ids) then None else Lookup(put, key)
  {
    var batch := CacheBatch(Target(mailbox, None), folder, Graph, PresentMessages(items));
    BatchIsPuts(mailbox, folder, items, ids, key);
    BatchInMailbox(mailbox, folder, Graph, PresentMessages(items), c.mailboxes);
    UpsertMeans(c, batch, key);
    LastPutStable(items, key.externalID, ids);
    if key.externalID in ids {
      RemovedAreDrops(items, key.externalID, ids);
    } else {
      DroppedHaveIDs(items, key.externalID, ids);
    }
    hide Upsert, CacheBatch, PresentMessages, RemovedIDs, LastPut, DroppedIn, LastFor, Stable;
  }

  lemma {:induction false} LastPutStable(items: seq<Item>, external: string, ids: ProviderIDs)
    requires Stable(items, ids)
    ensures LastPut(items, external, ids).Some? ==>
            external in ids && ids[external] == LastPut(items, external, ids).value.id
    decreases |items|
  {
    if items != [] {
      StablePrefix(items, |items| - 1, ids);
      LastPutStable(items[..|items| - 1], external, ids);
    }
  }

  lemma {:induction false} DroppedHaveIDs(items: seq<Item>, external: string, ids: ProviderIDs)
    ensures DroppedIn(items, external, ids) ==> external in ids
    decreases |items|
  {
    if items != [] { DroppedHaveIDs(items[..|items| - 1], external, ids); }
  }
}
