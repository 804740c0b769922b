/** The message cache of backend/internal/repository/memory/message_cache.go. Times are
    nanoseconds; the string keys of the source's maps are modelled as tuples of their parts. */
module CacheStore {
  import opened Wrappers

  datatype Folder = Inbox | Junk

  /** A retrieval method; Unspecified is the empty string. */
  datatype Channel = Unspecified | Graph | Imap | Other(name: string)

  /** mailbox id, folder and external id; the message id of the source is an injective hash of it. */
  datatype Key = Key(mailbox: string, folder: Folder, externalID: string)

  datatype CachedMessage = CachedMessage(
    providerID: string, channel: Channel, content: string, receivedAt: int, viewedAt: Option<int>)

  /** The cursor strings of the source: empty, an opaque provider link, or "time-before:" and a time. */
  datatype Cursor = NoCursor | Link(page: nat) | TimeBefore(time: int)

  datatype SyncState = SyncState(
    cursor: Cursor, uidValidity: nat, highestUID: nat, lastMessageAt: Option<int>,
    lastSyncedAt: int, lastError: string, channel: Channel)

  type Messages = map<Key, CachedMessage>
  type Entry = (Key, CachedMessage)

  datatype CacheState = CacheState(
    mailboxes: set<string>, messages: Messages, states: map<(string, Folder), SyncState>)

  datatype StoreError = NotFound(id: string)

  // ---------------------------------------------------------------- upsert

  /** A replacement without a viewed time keeps the one already stored. */
  function UpsertOne(messages: Messages, key: Key, message: CachedMessage): Messages {
    if key in messages && messages[key].viewedAt.Some? && message.viewedAt.None? then
      messages[key := message.(viewedAt := messages[key].viewedAt)]
    else
      messages[key := message]
  }

  function Upsert(c: CacheState, batch: seq<Entry>): (CacheState, Result<nat, StoreError>)
    decreases |batch|
  {
    if batch == [] then (c, Ok(0))
    else
      var (key, message) := batch[0];
      if key.mailbox !in c.mailboxes then (c, Err(NotFound(key.mailbox)))
      else
        var (c', r) := Upsert(c.(messages := UpsertOne(c.messages, key, message)), batch[1..]);
        (c', if r.Ok? then Ok(r.value + if key in c.messages then 0 else 1) else r)
  }

  // ---------------------------------------------------------------- delete

  predicate Deletes(key: Key, message: CachedMessage, mailbox: string, folder: Folder, channel: Channel,
      ids: set<string>) {
    && key.mailbox == mailbox && key.folder == folder
    && (channel == Unspecified || message.channel == channel)
    && message.providerID in ids
  }

  /** Deletion restricted to the keys in `scope`. */
  function DeleteWithin(messages: Messages, scope: set<Key>, mailbox: string, folder: Folder, channel: Channel,
      ids: set<string>): Messages {
    map k | k in messages && !(k in scope && Deletes(k, messages[k], mailbox, folder, channel, ids)) :: messages[k]
  }

  function Delete(c: CacheState, mailbox: string, folder: Folder, channel: Channel, ids: set<string>): CacheState {
    c.(messages := DeleteWithin(c.messages, c.messages.Keys, mailbox, folder, channel, ids))
  }

  lemma DeleteNothing(messages: Messages, mailbox: string, folder: Folder, channel: Channel, ids: set<string>)
    ensures DeleteWithin(messages, {}, mailbox, folder, channel, ids) == messages
  {
  }

  lemma DeleteFirst(messages: Messages, mailbox: string, folder: Folder, channel: Channel, ids: set<string>)
    ensures DeleteWithin(messages, messages.Keys - messages.Keys, mailbox, folder, channel, ids) == messages
  {
    assert messages.Keys - messages.Keys == {};
  }

  /** One key more: of the keys still to come it is the next. */
  lemma DeleteOneMore(messages: Messages, rest: set<Key>, key: Key, mailbox: string, folder: Folder,
      channel: Channel, ids: set<string>)
    requires rest <= messages.Keys && key in rest
    ensures var before, after := DeleteWithin(messages, messages.Keys - rest, mailbox, folder, channel, ids),
            DeleteWithin(messages, messages.Keys - (rest - {key}), mailbox, folder, channel, ids);
            && key in before && before[key] == messages[key]
            && (if Deletes(key, messages[key], mailbox, folder, channel, ids)
                then after == before - {key} && |after| == |before| - 1
                else after == before)
  {
    var before, after := DeleteWithin(messages, messages.Keys - rest, mailbox, folder, channel, ids),
      DeleteWithin(messages, messages.Keys - (rest - {key}), mailbox, folder, channel, ids);
    if Deletes(key, messages[key], mailbox, folder, channel, ids) {
      assert after == before - {key};
      OneFewer(before, key);
    }
  }

  lemma OneFewer(messages: Messages, key: Key)
    requires key in messages
    ensures |messages - {key}| == |messages| - 1
  {
    assert (messages - {key}).Keys == messages.Keys - {key};
    assert |messages - {key}| == |(messages - {key}).Keys| && |messages| == |messages.Keys|;
  }

  // ---------------------------------------------------------------- sync state

  predicate Later(a: Option<int>, b: Option<int>) {
    a.Some? && (b.None? || a.value > b.value)
  }

  /** The stored time of the newest message never moves back. */
  function Save(c: CacheState, target: string, folder: Folder, state: SyncState): CacheState {
    var key := (target, folder);
    var kept := if key in c.states && Later(c.states[key].lastMessageAt, state.lastMessageAt)
                then state.(lastMessageAt := c.states[key].lastMessageAt) else state;
    c.(states := c.states[key := kept])
  }

  /** The store itself: maps that its methods change in place. */
  class Store {
    var mailboxes: set<string>
    var messages: Messages
    var states: map<(string, Folder), SyncState>

    ghost function View(): CacheState
      reads this
    {
      CacheState(mailboxes, messages, states)
    }

    constructor (mailboxes: set<string>)
      ensures View() == CacheState(mailboxes, map[], map[])
    {
      this.mailboxes := mailboxes;
      messages := map[];
      states := map[];
    }

    method UpsertCachedMessages(batch: seq<Entry>) returns (r: Result<nat, StoreError>)
      modifies this`messages
      ensures (View(), r) == Upsert(old(View()), batch)
    {
      var changed := 0;
      ghost var start := View();
      for i := 0 to |batch|
        invariant mailboxes == start.mailboxes && states == start.states
        invariant var (c, rest) := Upsert(View(), batch[i..]);
                  Upsert(start, batch) == (c, if rest.Ok? then Ok(rest.value + changed) else rest)
      {
        var (key, message) := batch[i];
        assert batch[i..][1..] == batch[i + 1..];
        if key.mailbox !in mailboxes {
          return Err(NotFound(key.mailbox));
        }
        if key !in messages {
          changed := changed + 1;
        } else if messages[key].viewedAt.Some? && message.viewedAt.None? {
          message := message.(viewedAt := messages[key].viewedAt);
        }
        messages := messages[key := message];
      }
      r := Ok(changed);
    }

    method DeleteCachedMessages(mailbox: string, folder: Folder, channel: Channel,
        providerIDs: seq<string>) returns (deleted: nat)
      modifies this`messages
      ensures View() == Delete(old(View()), mailbox, folder, channel, set id | id in providerIDs)
      ensures deleted == |old(messages)| - |messages|
    {
      var ids := set id | id in providerIDs;
      deleted := 0;
      ghost var start := messages;
      var keys := messages.Keys;
      DeleteFirst(start, mailbox, folder, channel, ids);
      hide DeleteWithin;
      while keys != {}
        invariant keys <= start.Keys
        invariant messages == DeleteWithin(start, start.Keys - keys, mailbox, folder, channel, ids)
        invariant deleted == |start| - |messages|
        decreases keys
      {
        var key :| key in keys;
        DeleteOneMore(start, keys, key, mailbox, folder, channel, ids);
        var message := messages[key];
        if message.providerID in ids && key.mailbox == mailbox && key.folder == folder
           && (channel == Unspecified || message.channel == channel) {
          messages := messages - {key};
          deleted := deleted + 1;
        }
        keys := keys - {key};
      }
      assert start.Keys - keys == start.Keys;
    }

    method SaveMessageSyncState(target: string, folder: Folder, state: SyncState)
      modifies this`states
      ensures View() == Save(old(View()), target, folder, state)
    {
      var key, kept := (target, folder), state;
      if key in states {
        var current := states[key].lastMessageAt;
        if current.Some? && (state.lastMessageAt.None? || current.value > state.lastMessageAt.value) {
          kept := kept.(lastMessageAt := current);
        }
      }
      states := states[key := kept];
    }

    /** Records the first viewing only. */
    method MarkCachedMessageViewed(mailbox: string, key: Key, viewedAt: int) returns (r: Result<(), StoreError>)
      modifies this`messages
      ensures r.Ok? <==> key in old(messages) && key.mailbox == mailbox
      ensures r.Ok? ==> messages == old(messages)[key := old(messages)[key].(viewedAt :=
                          if old(messages)[key].viewedAt.Some? then old(messages)[key].viewedAt else Some(viewedAt))]
      ensures r.Err? ==> messages == old(messages)
    {
      if key !in messages || key.mailbox != mailbox {
        return Err(NotFound(key.externalID));
      }
      if messages[key].viewedAt.None? {
        messages := messages[key := messages[key].(viewedAt := Some(viewedAt))];
      }
      assert messages == old(messages)[key := messages[key]];
      r := Ok(());
    }
  }

  // ---------------------------------------------------------------- what the operations mean

  /** The last entry of a batch for a key. */
  function LastFor(batch: seq<Entry>, key: Key): Option<CachedMessage> {
    if batch == [] then None
    else if batch[|batch| - 1].0 == key then Some(batch[|batch| - 1].1)
    else LastFor(batch[..|batch| - 1], key)
  }

  function Lookup(messages: Messages, key: Key): Option<CachedMessage> {
    if key in messages then Some(messages[key]) else None
  }

  function ViewedAt(messages: Messages, key: Key): Option<int> {
    if key in messages then messages[key].viewedAt else None
  }

  /** What the provider sends carries no viewed time. */
  predicate Unviewed(batch: seq<Entry>) {
    forall i :: 0 <= i < |batch| ==> batch[i].1.viewedAt.None?
  }

  predicate InMailboxes(batch: seq<Entry>, mailboxes: set<string>) {
    forall i :: 0 <= i < |batch| ==> batch[i].0.mailbox in mailboxes
  }

  lemma {:induction false} LastForCons(batch: seq<Entry>, key: Key)
    requires batch != []
    ensures LastFor(batch, key) == (if LastFor(batch[1..], key).Some? then LastFor(batch[1..], key)
                                    else if batch[0].0 == key then Some(batch[0].1) else None)
    decreases |batch|
  {
    if |batch| > 1 {
      var shorter := batch[..|batch| - 1];
      assert shorter[1..] == batch[1..][..|batch| - 2];
      LastForCons(shorter, key);
    } else {
      assert batch[..0] == [] && batch[1..] == [];
    }
  }

  lemma LastForSnoc(batch: seq<Entry>, e: Entry, key: Key)
    ensures LastFor(batch + [e], key) == if e.0 == key then Some(e.1) else LastFor(batch, key)
  {
    assert (batch + [e])[..|batch|] == batch;
  }

  function BatchKeys(batch: seq<Entry>): set<Key> {
    if batch == [] then {} else {batch[0].0} + BatchKeys(batch[1..])
  }

  lemma InMailboxesTail(batch: seq<Entry>, mailboxes: set<string>)
    requires batch != [] && InMailboxes(batch, mailboxes)
    ensures batch[0].0.mailbox in mailboxes && InMailboxes(batch[1..], mailboxes)
  {
    assert forall i :: 0 <= i < |batch| - 1 ==> batch[1..][i] == batch[i + 1];
  }

  lemma UpsertOneCounts(messages: Messages, key: Key, message: CachedMessage)
    ensures UpsertOne(messages, key, message).Keys == messages.Keys + {key}
    ensures |UpsertOne(messages, key, message)| == |messages| + if key in messages then 0 else 1
  {
    var updated := UpsertOne(messages, key, message);
    assert updated.Keys == messages.Keys + {key};
    assert |updated| == |updated.Keys| && |messages| == |messages.Keys|;
    if key in messages { assert updated.Keys == messages.Keys; }
  }

  /** An upsert into existing mailboxes adds the keys of the batch and no others. */
  lemma {:induction false} UpsertKeys(c: CacheState, batch: seq<Entry>)
    requires InMailboxes(batch, c.mailboxes)
    ensures var c' := Upsert(c, batch).0;
            c' == c.(messages := c'.messages) && c'.messages.Keys == c.messages.Keys + BatchKeys(batch)
    decreases |batch|
  {
    if batch != [] {
      hide InMailboxes;
      InMailboxesTail(batch, c.mailboxes);
      var (k, m) := batch[0];
      UpsertOneCounts(c.messages, k, m);
      hide UpsertOne;
      UpsertKeys(c.(messages := UpsertOne(c.messages, k, m)), batch[1..]);
    }
  }

  lemma {:induction false} UpsertKeepsStates(c: CacheState, batch: seq<Entry>)
    ensures Upsert(c, batch).0.states == c.states
    decreases |batch|
  {
    if batch != [] {
      UpsertKeepsStates(c.(messages := UpsertOne(c.messages, batch[0].0, batch[0].1)), batch[1..]);
      hide UpsertOne;
    }
  }

  /** It succeeds and counts the new keys. */
  lemma {:induction false} UpsertCounts(c: CacheState, batch: seq<Entry>)
    requires InMailboxes(batch, c.mailboxes)
    ensures Upsert(c, batch).1 == Ok(|Upsert(c, batch).0.messages| - |c.messages|)
    decreases |batch|
  {
    if batch != [] {
      hide InMailboxes;
      InMailboxesTail(batch, c.mailboxes);
      var (k, m) := batch[0];
      UpsertOneCounts(c.messages, k, m);
      hide UpsertOne;
      UpsertCounts(c.(messages := UpsertOne(c.messages, k, m)), batch[1..]);
    }
  }

  /** The cache after an upsert, key by key: the last entry of the batch wins, the viewed time
      stays, other keys are untouched. */
  lemma {:induction false} UpsertMeans(c: CacheState, batch: seq<Entry>, key: Key)
    requires Unviewed(batch) && InMailboxes(batch, c.mailboxes)
    ensures Lookup(Upsert(c, batch).0.messages, key)
         == (match LastFor(batch, key)
             case None => Lookup(c.messages, key)
             case Some(m) => Some(m.(viewedAt := ViewedAt(c.messages, key))))
    decreases |batch|
  {
    if batch != [] {
      var (k, m) := batch[0];
      assert m.viewedAt.None?;
      assert forall i :: 0 <= i < |batch| - 1 ==> batch[1..][i] == batch[i + 1];
      hide LastFor, InMailboxes;
      InMailboxesTail(batch, c.mailboxes);
      var c1 := c.(messages := UpsertOne(c.messages, k, m));
      LastForCons(batch, key);
      UpsertMeans(c1, batch[1..], key);
    }
  }

  /** Saving can only raise the time of the newest message; everything else is as given. */
  lemma SaveMeans(c: CacheState, target: string, folder: Folder, state: SyncState)
    ensures var saved := Save(c, target, folder, state).states[(target, folder)];
            && !Later(state.lastMessageAt, saved.lastMessageAt)
            && ((target, folder) in c.states ==> !Later(c.states[(target, folder)].lastMessageAt, saved.lastMessageAt))
            && saved == state.(lastMessageAt := saved.lastMessageAt)
  {
  }
}
