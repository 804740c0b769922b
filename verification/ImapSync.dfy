/** Incremental sync over IMAP: syncMicrosoftIMAP of backend/internal/providers/microsoft_imap.go
    driven by Sync, against a server on which messages arrive and are expunged and whose UIDVALIDITY
    may change. */
module ImapSync {
  import opened Collections
  import opened Wrappers

  import opened CacheStore
  import opened MessageSync
  import GraphDelta

  const UID_SPACE: nat := 0x1_0000_0000

  /** A message on the server; one without content does not parse. */
  datatype Mail = Mail(uid: nat, content: Option<Message>)

  datatype Server = Server(validity: nat, mails: seq<Mail>, nextUID: nat)

  predicate Ascending(mails: seq<Mail>) {
    forall i, j :: 0 <= i < j < |mails| ==> mails[i].uid < mails[j].uid
  }

  /** UIDs are 32-bit, positive, ascending, and below the next UID. */
  predicate ValidServer(server: Server) {
    && 0 < server.validity && 0 < server.nextUID <= UID_SPACE
    && Ascending(server.mails)
    && forall i :: 0 <= i < |server.mails| ==> 0 < server.mails[i].uid < server.nextUID
  }

  // ---------------------------------------------------------------- the adapter

  function AtLeast(mails: seq<Mail>, uid: nat): seq<Mail> {
    if mails == [] then [] else (if mails[0].uid >= uid then [mails[0]] else []) + AtLeast(mails[1..], uid)
  }

  /** The search for `uid:*`, where * is the last message: a range in either direction, so that it
      finds the last message even when its UID is below. Zero stands for * as well. */
  function Search(mails: seq<Mail>, uid: nat): seq<Mail> {
    if mails == [] then []
    else if uid == 0 || mails[|mails| - 1].uid < uid then [mails[|mails| - 1]]
    else AtLeast(mails, uid)
  }

  /** The highest UID the search starts after; another UIDVALIDITY restarts from zero. */
  function Restarted(server: Server, request: SyncRequest): nat {
    if request.uidValidity != 0 && request.uidValidity != server.validity then 0 else request.highestUID
  }

  function Found(server: Server, highest: nat): seq<Mail> {
    if highest > 0 then Search(server.mails, (highest + 1) % UID_SPACE) else server.mails
  }

  function Without(mails: seq<Mail>, gone: set<nat>): seq<Mail>
    decreases |mails|
  {
    if mails == [] then []
    else Without(mails[..|mails| - 1], gone) + if mails[|mails| - 1].uid in gone then [] else [mails[|mails| - 1]]
  }

  function Highest(highest: nat, mails: seq<Mail>): nat
    decreases |mails|
  {
    if mails == [] then highest
    else
      var h := Highest(highest, mails[..|mails| - 1]);
      if mails[|mails| - 1].uid > h then mails[|mails| - 1].uid else h
  }

  function Contents(mails: seq<Mail>): seq<Message>
    decreases |mails|
  {
    if mails == [] then []
    else
      Contents(mails[..|mails| - 1])
      + if mails[|mails| - 1].content.Some? then [mails[|mails| - 1].content.value] else []
  }

  function Batch(server: Server, request: SyncRequest): seq<Mail> {
    var found, limit := Found(server, Restarted(server, request)), GraphDelta.MessageCap(request.limit);
    if |found| > limit then found[..limit] else found
  }

  function ImapReply(server: Server, gone: set<nat>, fails: bool, request: SyncRequest): SyncReply {
    if fails then SyncFailed("connection failed")
    else
      var highest := Restarted(server, request);
      var fetched := Without(Batch(server, request), gone);
      Synced(SyncResult(Contents(fetched), [], NoCursor, server.validity, Highest(highest, fetched),
                        |Found(server, highest)| <= GraphDelta.MessageCap(request.limit), Imap))
  }

  lemma FetchOneMore(mails: seq<Mail>, item: Mail, gone: set<nat>, highest: nat)
    ensures var fetched := Without(mails, gone);
            && Without(mails + [item], gone) == (if item.uid in gone then fetched else fetched + [item])
            && Highest(highest, fetched + [item])
              == (if item.uid > Highest(highest, fetched) then item.uid else Highest(highest, fetched))
            && Contents(fetched + [item])
              == Contents(fetched) + (if item.content.Some? then [item.content.value] else [])
  {
    var fetched := Without(mails, gone);
    assert (mails + [item])[..|mails|] == mails;
    assert (fetched + [item])[..|fetched|] == fetched;
    assert fetched + [] == fetched;
  }

  /** The fetch loop; `gone` are the UIDs expunged between the search and the fetch. */
  method FetchMails(uids: seq<Mail>, gone: set<nat>, highest: nat) returns (messages: seq<Message>, highestUID: nat)
    ensures messages == Contents(Without(uids, gone)) && highestUID == Highest(highest, Without(uids, gone))
  {
    messages, highestUID := [], highest;
    ghost var fetched := [];
    for i := 0 to |uids|
      invariant fetched == Without(uids[..i], gone)
      invariant messages == Contents(fetched) && highestUID == Highest(highest, fetched)
    {
      hide Without, Highest, Contents;
      var item := uids[i];
      assert uids[..i + 1] == uids[..i] + [item];
      FetchOneMore(uids[..i], item, gone, highest);
      if item.uid in gone {
        continue;
      }
      fetched := fetched + [item];
      if item.uid > highestUID {
        highestUID := item.uid;
      }
      if item.content.Some? {
        messages := messages + [item.content.value];
      } else {
        assert messages + [] == messages;
      }
    }
    assert uids[..|uids|] == uids;
  }

  method SyncMicrosoftIMAP(server: Server, gone: set<nat>, fails: bool, request: SyncRequest) returns (reply: SyncReply)
    ensures reply == ImapReply(server, gone, fails, request)
  {
    hide Search, Contents, Without, Highest;
    if fails {
      return SyncFailed("connection failed");
    }
    var highestUID := request.highestUID;
    if request.uidValidity != 0 && request.uidValidity != server.validity {
      highestUID := 0;
    }
    var uids := server.mails;
    if highestUID > 0 {
      uids := Search(server.mails, (highestUID + 1) % UID_SPACE);
    }
    var limit: nat := GraphDelta.MessageCap(request.limit);
    var complete := |uids| <= limit;
    if |uids| > limit {
      uids := uids[..limit];
    }
    var messages, highest := FetchMails(uids, gone, highestUID);
    reply := Synced(SyncResult(messages, [], NoCursor, server.validity, highest, complete, Imap));
  }

  // ---------------------------------------------------------------- what the parts compute

  lemma {:induction false} AtLeastIs(mails: seq<Mail>, uid: nat)
    requires Ascending(mails)
    ensures Ascending(AtLeast(mails, uid))
    ensures forall m :: m in AtLeast(mails, uid) <==> m in mails && m.uid >= uid
  {
    if mails != [] {
      assert forall m :: m in mails <==> m == mails[0] || m in mails[1..];
      assert forall i :: 0 <= i < |mails| - 1 ==> mails[1..][i] == mails[i + 1];
      AtLeastIs(mails[1..], uid);
    }
  }

  lemma LastIsGreatest(mails: seq<Mail>)
    requires Ascending(mails) && mails != []
    ensures forall m :: m in mails ==> m.uid <= mails[|mails| - 1].uid
    ensures Ascending([mails[|mails| - 1]])
  {
  }

  /** A search that finds nothing new finds at most the last message again. */
  lemma FoundIs(server: Server, highest: nat)
    requires ValidServer(server) && highest < UID_SPACE
    ensures Ascending(Found(server, highest))
    ensures forall m :: m in Found(server, highest) ==> m in server.mails
    ensures forall m :: m in server.mails && m.uid > highest ==> m in Found(server, highest)
    ensures |Found(server, highest)| > 1 ==> forall m :: m in Found(server, highest) ==> m.uid > highest
  {
    var mails := server.mails;
    if highest > 0 && mails != [] {
      AtLeastIs(mails, (highest + 1) % UID_SPACE);
      LastIsGreatest(mails);
      var found := Found(server, highest);
      hide AtLeast, Ascending;
      assert highest + 1 < UID_SPACE ==> (highest + 1) % UID_SPACE == highest + 1;
      if highest + 1 == UID_SPACE || mails[|mails| - 1].uid <= highest {
        assert found == [mails[|mails| - 1]];
      }
    }
  }

  lemma {:induction false} WithoutIs(mails: seq<Mail>, gone: set<nat>)
    ensures forall m :: m in Without(mails, gone) <==> m in mails && m.uid !in gone
    decreases |mails|
  {
    if mails != [] {
      assert forall m :: m in mails <==> m in mails[..|mails| - 1] || m == mails[|mails| - 1];
      WithoutIs(mails[..|mails| - 1], gone);
    }
  }

  lemma {:induction false} HighestIs(highest: nat, mails: seq<Mail>)
    ensures Highest(highest, mails) >= highest
    ensures forall m :: m in mails ==> m.uid <= Highest(highest, mails)
    ensures Highest(highest, mails) == highest || exists m :: m in mails && m.uid == Highest(highest, mails)
    decreases |mails|
  {
    if mails != [] {
      assert forall m :: m in mails <==> m in mails[..|mails| - 1] || m == mails[|mails| - 1];
      HighestIs(highest, mails[..|mails| - 1]);
    }
  }

  lemma {:induction false} ContentsAre(mails: seq<Mail>)
    ensures forall m :: m in mails && m.content.Some? ==> m.content.value in Contents(mails)
    decreases |mails|
  {
    if mails != [] {
      assert forall m :: m in mails <==> m in mails[..|mails| - 1] || m == mails[|mails| - 1];
      ContentsAre(mails[..|mails| - 1]);
    }
  }

  lemma PrefixIsBelow(mails: seq<Mail>, n: nat)
    requires Ascending(mails) && n <= |mails|
    ensures forall b, m :: b in mails[..n] && m in mails && m !in mails[..n] ==> b.uid < m.uid
  {
    assert forall k :: 0 <= k < n ==> mails[k] in mails[..n] by {
      assert forall k :: 0 <= k < n ==> mails[..n][k] == mails[k];
    }
    forall b, m | b in mails[..n] && m in mails && m !in mails[..n] ensures b.uid < m.uid {
      var i :| 0 <= i < n && mails[..n][i] == b;
      var j :| 0 <= j < |mails| && mails[j] == m;
    }
  }

  /** What is fetched of the first n messages found is everything up to the highest UID fetched. */
  lemma PrefixSkipsNothing(found: seq<Mail>, n: nat, gone: set<nat>, highest: nat, m: Mail)
    requires Ascending(found) && n <= |found| && m in found && m.uid !in gone && m.uid > highest
    ensures var fetched := Without(found[..n], gone);
            m in found[..n] || m.uid <= Highest(highest, fetched) ==> m in fetched
  {
    var fetched := Without(found[..n], gone);
    PrefixIsBelow(found, n);
    WithoutIs(found[..n], gone);
    HighestIs(highest, fetched);
    hide Ascending, Without, Highest;
  }

  /** A batch takes in, in order, everything new up to its end: whatever it leaves out lies above
      the highest UID it reports. */
  lemma BatchSkipsNothing(server: Server, gone: set<nat>, request: SyncRequest)
    requires ValidServer(server) && Restarted(server, request) < server.nextUID
    ensures var highest := Restarted(server, request);
            var fetched := Without(Batch(server, request), gone);
            var h := Highest(highest, fetched);
            && highest <= h < server.nextUID
            && (forall m :: m in server.mails && highest < m.uid <= h && m.uid !in gone ==> m in fetched)
            && (|Found(server, highest)| <= GraphDelta.MessageCap(request.limit) ==>
                  forall m :: m in server.mails && m.uid > highest && m.uid !in gone ==> m in fetched)
  {
    var highest := Restarted(server, request);
    var found, batch := Found(server, highest), Batch(server, request);
    FoundIs(server, highest);
    assert batch == found[..|batch|];
    BatchBelowNext(server, found, |batch|, gone, highest);
    forall m | m in server.mails && m.uid > highest && m.uid !in gone
      ensures m in batch || m.uid <= Highest(highest, Without(batch, gone)) ==> m in Without(batch, gone)
    {
      PrefixSkipsNothing(found, |batch|, gone, highest, m);
    }
    hide Found, Without, Highest, Restarted, Ascending, ValidServer;
    assert |found| <= GraphDelta.MessageCap(request.limit) ==> batch == found;
  }

  lemma BatchBelowNext(server: Server, found: seq<Mail>, n: nat, gone: set<nat>, highest: nat)
    requires ValidServer(server) && highest < server.nextUID && n <= |found|
    requires forall m :: m in found ==> m in server.mails
    ensures highest <= Highest(highest, Without(found[..n], gone)) < server.nextUID
  {
    WithoutIs(found[..n], gone);
    HighestIs(highest, Without(found[..n], gone));
    assert forall m :: m in found[..n] ==> m in found;
    assert forall m :: m in server.mails ==> m.uid < server.nextUID;
    hide Without, Highest, Ascending;
  }

  /** An incomplete batch deals with at least one new message: it fetches it, or the message is gone. */
  lemma IncompleteBatchAdvances(server: Server, gone: set<nat>, request: SyncRequest)
    requires ValidServer(server) && Restarted(server, request) < server.nextUID
    ensures var highest := Restarted(server, request);
            |Found(server, highest)| > GraphDelta.MessageCap(request.limit) ==>
              exists m :: m in server.mails && m.uid > highest
                          && (m.uid in gone || m.uid <= Highest(highest, Without(Batch(server, request), gone)))
  {
    var highest := Restarted(server, request);
    var found, batch := Found(server, highest), Batch(server, request);
    FoundIs(server, highest);
    WithoutIs(batch, gone);
    HighestIs(highest, Without(batch, gone));
    hide Found, Without, Highest, Restarted, Ascending, ValidServer;
    if |found| > GraphDelta.MessageCap(request.limit) {
      assert batch[0] in batch && batch[0] == found[0] && found[0] in found;
    }
  }

  // ---------------------------------------------------------------- runs

  datatype Box = Box(mailbox: string, folder: Folder, channel: Channel)

  /** `removed` are the keys that a retention or a deletion has taken out of the cache. */
  datatype World = World(server: Server, c: CacheState, removed: set<Key>)

  datatype Event =
    | Arrive(uid: nat, content: Option<Message>)
    | Expunge(uids: set<nat>)
    | Reset(server: Server)
    | Attempt(gone: set<nat>, limit: int, fails: bool, now: int, crash: CrashPoint)
    | Forget(keys: set<Key>)
    | Recall(messages: seq<Message>)

  /** New messages have UIDs not used before; a new UIDVALIDITY is greater than the old one. */
  predicate Possible(w: World, e: Event) {
    match e
    case Arrive(uid, _) => w.server.nextUID <= uid < UID_SPACE
    case Reset(server) => ValidServer(server) && server.validity > w.server.validity
    case _ => true
  }

  function StateOf(box: Box, c: CacheState): SyncState {
    LoadState(c, Target(box.mailbox, None), box.folder)
  }

  function ImapProvider(server: Server, gone: set<nat>, fails: bool, limit: int): Provider {
    Provider((request: SyncRequest) => ImapReply(server, gone, fails, request.(limit := limit)),
             (query: Query) => RetrieveFailed("no fallback"))
  }

  function Attempted(box: Box, w: World, e: Event): (CacheState, Outcome)
    requires e.Attempt?
  {
    Sync(w.c, Target(box.mailbox, None), box.folder, box.channel, ImapProvider(w.server, e.gone, e.fails, e.limit),
      e.now, e.crash)
  }

  /** Forget is a retention, a purge or the deletion of a range; Recall is the restore of a range. */
  function Step(box: Box, w: World, e: Event): World {
    match e
    case Arrive(uid, content) => w.(server := Server(w.server.validity, w.server.mails + [Mail(uid, content)], uid + 1))
    case Expunge(uids) => w.(server := w.server.(mails := Without(w.server.mails, uids)))
    case Reset(server) => w.(server := server)
    case Attempt(gone, limit, fails, now, crash) =>
      World(w.server.(mails := Without(w.server.mails, gone)), Attempted(box, w, e).0, w.removed)
    case Forget(keys) => w.(c := w.c.(messages := w.c.messages - keys), removed := w.removed + keys)
    case Recall(messages) => w.(c := AfterUpsertOf(w.c, box.mailbox, box.folder, box.channel, messages))
  }

  function Run(box: Box, w: World, events: seq<Event>): World
    decreases |events|
  {
    if events == [] then w else Step(box, Run(box, w, events[..|events| - 1]), events[|events| - 1])
  }

  predicate PossibleRun(box: Box, w: World, events: seq<Event>)
    decreases |events|
  {
    events != [] ==>
      && PossibleRun(box, w, events[..|events| - 1])
      && Possible(Run(box, w, events[..|events| - 1]), events[|events| - 1])
  }

  /** Cached, or removed since. */
  predicate Taken(box: Box, c: CacheState, removed: set<Key>, m: Message) {
    Cached(c, box.mailbox, box.folder, m) || KeyOf(box.mailbox, box.folder, m) in removed
  }

  /** Everything at or below the saved UID was cached, if it has content that can be cached. */
  predicate NothingSkipped(box: Box, server: Server, highest: nat, c: CacheState, removed: set<Key>) {
    forall m :: m in server.mails && m.uid <= highest && m.content.Some? && Cacheable(m.content.value) ==>
      Taken(box, c, removed, m.content.value)
  }

  predicate Inv(box: Box, w: World) {
    var s := StateOf(box, w.c);
    && ValidServer(w.server) && box.mailbox in w.c.mailboxes
    && s.uidValidity <= w.server.validity && (s.uidValidity == 0 ==> s.highestUID == 0)
    && (s.uidValidity == w.server.validity ==>
          s.highestUID < w.server.nextUID && NothingSkipped(box, w.server, s.highestUID, w.c, w.removed))
  }

  function NextRequest(box: Box, w: World, e: Event): SyncRequest
    requires e.Attempt?
  {
    RequestFor(StateOf(box, w.c), box.channel, box.folder).(limit := e.limit)
  }

  /** What one attempt does to the cache and to the saved state. */
  lemma AttemptDoes(box: Box, w: World, e: Event)
    requires e.Attempt? && box.mailbox in w.c.mailboxes
    ensures var (c, outcome) := Attempted(box, w, e);
            var s, s' := StateOf(box, w.c), StateOf(box, c);
            var request := NextRequest(box, w, e);
            var highest := Restarted(w.server, request);
            var fetched := Without(Batch(w.server, request), e.gone);
            && c.mailboxes == w.c.mailboxes
            && (if e.fails then
                  outcome.Failed? && c.messages == w.c.messages && s'.uidValidity == s.uidValidity
                    && s'.highestUID == s.highestUID
                else
                  && c.messages == (if e.crash == BeforeUpsert then w.c
                    else AfterUpsertOf(w.c, box.mailbox, box.folder, Imap, Contents(fetched))).messages
                  && (if e.crash != NoCrash then outcome == Crashed && s' == s
                      else
                        && outcome.Done? && outcome.complete
                          == (|Found(w.server, highest)| <= GraphDelta.MessageCap(e.limit))
                        && s'.uidValidity == w.server.validity && s'.highestUID == Highest(highest, fetched)))
  {
    var s, target, provider := StateOf(box, w.c), Target(box.mailbox, None),
      ImapProvider(w.server, e.gone, e.fails, e.limit);
    var reply := ImapReply(w.server, e.gone, e.fails, NextRequest(box, w, e));
    assert provider.incremental(RequestFor(s, box.channel, box.folder)) == reply;
    var f := Fetch(s, target, box.folder, box.channel, provider);
    if e.fails {
      assert f == Fetched([], [], box.channel, s, false, Some("connection failed"));
    } else {
      var r := reply.result;
      assert f == Fetched(r.messages, [], Imap,
        s.(cursor := r.cursor, uidValidity := r.uidValidity, highestUID := r.highestUID), r.complete, None);
      StoreCaches(w.c, box.mailbox, box.folder, f, e.now, e.crash);
    }
    hide Fetch, StoreBatch, Found, Batch, Contents, Highest, Without, AfterUpsertOf, ImapProvider;
  }

  lemma {:induction false} WithoutAscends(mails: seq<Mail>, gone: set<nat>)
    requires Ascending(mails)
    ensures Ascending(Without(mails, gone))
    decreases |mails|
  {
    if mails != [] {
      var shorter := mails[..|mails| - 1];
      WithoutAscends(shorter, gone);
      WithoutIs(shorter, gone);
      forall m | m in Without(shorter, gone) ensures m.uid < mails[|mails| - 1].uid {
        assert m in shorter;
      }
    }
  }

  lemma WithoutStaysValid(server: Server, gone: set<nat>)
    requires ValidServer(server)
    ensures ValidServer(server.(mails := Without(server.mails, gone)))
  {
    WithoutAscends(server.mails, gone);
    WithoutIs(server.mails, gone);
    var after := Without(server.mails, gone);
    assert forall m :: m in server.mails ==> 0 < m.uid < server.nextUID;
    hide Without;
    assert forall i :: 0 <= i < |after| ==> after[i] in after;
  }

  /** What a fetched batch leaves cached. */
  lemma FetchedIsCached(box: Box, server: Server, gone: set<nat>, request: SyncRequest, c: CacheState,
      removed: set<Key>)
    requires ValidServer(server) && Restarted(server, request) < server.nextUID && box.mailbox in c.mailboxes
    requires NothingSkipped(box, server, Restarted(server, request), c, removed)
    ensures var fetched := Without(Batch(server, request), gone);
            NothingSkipped(box, server.(mails := Without(server.mails, gone)),
              Highest(Restarted(server, request), fetched),
                           AfterUpsertOf(c, box.mailbox, box.folder, Imap, Contents(fetched)), removed)
  {
    var fetched := Without(Batch(server, request), gone);
    WithoutIs(server.mails, gone);
    BatchSkipsNothing(server, gone, request);
    ContentsAre(fetched);
    UpsertCaches(c, box.mailbox, box.folder, Imap, Contents(fetched));
    hide Found, Batch, Contents, Highest, Without, AfterUpsertOf, CacheBatch, Upsert, ValidServer, Restarted;
  }

  lemma NothingSkippedLater(box: Box, server: Server, gone: set<nat>, highest: nat, c: CacheState,
      c': CacheState, removed: set<Key>)
    requires NothingSkipped(box, server, highest, c, removed) && c.messages.Keys <= c'.messages.Keys
    ensures NothingSkipped(box, server.(mails := Without(server.mails, gone)), highest, c', removed)
  {
    WithoutIs(server.mails, gone);
    hide Without;
  }

  /** An attempt skips nothing: whatever the saved UID passes has been cached. */
  lemma AttemptKeeps(box: Box, w: World, e: Event)
    requires Inv(box, w) && e.Attempt?
    ensures Inv(box, Step(box, w, e))
  {
    var (c, outcome) := Attempted(box, w, e);
    var s, request := StateOf(box, w.c), NextRequest(box, w, e);
    var highest := Restarted(w.server, request);
    var fetched := Without(Batch(w.server, request), e.gone);
    AttemptDoes(box, w, e);
    UpsertCaches(w.c, box.mailbox, box.folder, Imap, Contents(fetched));
    WithoutStaysValid(w.server, e.gone);
    if s.uidValidity == w.server.validity {
      NothingSkippedLater(box, w.server, e.gone, s.highestUID, w.c, c, w.removed);
    }
    if !e.fails && e.crash == NoCrash {
      assert NothingSkipped(box, w.server, highest, w.c, w.removed);
      FetchedIsCached(box, w.server, e.gone, request, w.c, w.removed);
      BatchSkipsNothing(w.server, e.gone, request);
    }
    hide Attempted, Found, Batch, Contents, Highest, Without, AfterUpsertOf, CacheBatch, Upsert, ValidServer;
  }

  lemma StepKeeps(box: Box, w: World, e: Event)
    requires Inv(box, w) && Possible(w, e)
    ensures Inv(box, Step(box, w, e))
  {
    match e
    case Attempt(_, _, _, _, _) => AttemptKeeps(box, w, e);
    case Expunge(uids) =>
      WithoutStaysValid(w.server, uids);
      WithoutIs(w.server.mails, uids);
      hide Without;
    case Recall(messages) =>
      UpsertCaches(w.c, box.mailbox, box.folder, box.channel, messages);
      hide Without, AfterUpsertOf;
    case _ => hide Without;
  }

  /** The saved UID never decreases under one UIDVALIDITY, and the saved UIDVALIDITY never decreases. */
  lemma StepRaises(box: Box, w: World, e: Event)
    requires Inv(box, w) && Possible(w, e)
    ensures var s, s' := StateOf(box, w.c), StateOf(box, Step(box, w, e).c);
            s.uidValidity <= s'.uidValidity && (s.uidValidity == s'.uidValidity ==> s.highestUID <= s'.highestUID)
  {
    if e.Attempt? {
      AttemptDoes(box, w, e);
      var request := NextRequest(box, w, e);
      HighestIs(Restarted(w.server, request), Without(Batch(w.server, request), e.gone));
      hide Attempted, Found, Batch, Contents, Highest, Without;
    } else if e.Recall? {
      UpsertKeepsStates(w.c, CacheBatch(Target(box.mailbox, None), box.folder, box.channel, e.messages));
      hide CacheBatch, Upsert;
    }
  }

  lemma {:induction false} RunKeeps(box: Box, w: World, events: seq<Event>)
    requires Inv(box, w) && PossibleRun(box, w, events)
    ensures var end := Run(box, w, events);
            var s, s' := StateOf(box, w.c), StateOf(box, end.c);
            Inv(box, end) && s.uidValidity <= s'.uidValidity
              && (s.uidValidity == s'.uidValidity ==> s.highestUID <= s'.highestUID)
    decreases |events|
  {
    if events != [] {
      RunKeeps(box, w, events[..|events| - 1]);
      StepKeeps(box, Run(box, w, events[..|events| - 1]), events[|events| - 1]);
      StepRaises(box, Run(box, w, events[..|events| - 1]), events[|events| - 1]);
      hide Inv, Step, Possible, StateOf;
    }
  }

  /** After any run from a mailbox not synced before, every message at or below the saved UID is cached
      or was removed, whatever arrived, vanished, failed or crashed on the way. */
  lemma NeverSkips(box: Box, w: World, events: seq<Event>)
    requires ValidServer(w.server) && box.mailbox in w.c.mailboxes && (box.mailbox, box.folder) !in w.c.states
    requires PossibleRun(box, w, events)
    ensures var end := Run(box, w, events);
            StateOf(box, end.c).uidValidity == end.server.validity ==>
              NothingSkipped(box, end.server, StateOf(box, end.c).highestUID, end.c, end.removed)
  {
    RunKeeps(box, w, events);
  }

  /** A sync that reports Complete leaves every message cached that is still there and was not removed. */
  lemma CompleteCachesAll(box: Box, w: World, e: Event)
    requires Inv(box, w) && e.Attempt? && Attempted(box, w, e).1.Done? && Attempted(box, w, e).1.complete
    ensures var after := Step(box, w, e);
            forall m :: m in after.server.mails && m.content.Some? && Cacheable(m.content.value) ==>
              Taken(box, after.c, after.removed, m.content.value)
  {
    var request := NextRequest(box, w, e);
    var fetched := Without(Batch(w.server, request), e.gone);
    AttemptDoes(box, w, e);
    WithoutIs(w.server.mails, e.gone);
    BatchSkipsNothing(w.server, e.gone, request);
    ContentsAre(fetched);
    UpsertCaches(w.c, box.mailbox, box.folder, Imap, Contents(fetched));
    hide Attempted, Found, Batch, Contents, Highest, Without, AfterUpsertOf, CacheBatch, Upsert;
  }

  /** The UIDs the next request is after. */
  function Pending(box: Box, server: Server, c: CacheState): set<nat> {
    var s := StateOf(box, c);
    set m | m in server.mails
      && m.uid > (if s.uidValidity != 0 && s.uidValidity != server.validity then 0 else s.highestUID) :: m.uid
  }

  /** Draining terminates: each batch that reports more to come leaves fewer pending UIDs. */
  lemma IncompleteShrinksPending(box: Box, w: World, e: Event)
    requires Inv(box, w) && e.Attempt? && Attempted(box, w, e).1.Done? && !Attempted(box, w, e).1.complete
    ensures var after := Step(box, w, e);
            Pending(box, after.server, after.c) < Pending(box, w.server, w.c)
  {
    var request, server' := NextRequest(box, w, e), w.server.(mails := Without(w.server.mails, e.gone));
    AttemptDoes(box, w, e);
    HighestIs(Restarted(w.server, request), Without(Batch(w.server, request), e.gone));
    IncompleteBatchAdvances(w.server, e.gone, request);
    hide Attempted, Found, Batch, Contents, Highest, Without, ValidServer, NothingSkipped;
    PendingShrinks(w.server, e.gone, Restarted(w.server, request),
      Highest(Restarted(w.server, request), Without(Batch(w.server, request), e.gone)));
  }

  lemma PendingShrinks(server: Server, gone: set<nat>, highest: nat, highest': nat)
    requires highest <= highest'
    requires exists m :: m in server.mails && m.uid > highest && (m.uid in gone || m.uid <= highest')
    ensures (set m | m in Without(server.mails, gone) && m.uid > highest' :: m.uid) < (set m | m in server.mails
            && m.uid > highest :: m.uid)
  {
    WithoutIs(server.mails, gone);
    hide Without;
    var m :| m in server.mails && m.uid > highest && (m.uid in gone || m.uid <= highest');
    var before := set m | m in server.mails && m.uid > highest :: m.uid;
    var after := set m | m in Without(server.mails, gone) && m.uid > highest' :: m.uid;
    assert after <= before && m.uid in before && m.uid !in after;
  }

  lemma PendingStays(server: Server, gone: set<nat>, highest: nat, highest': nat)
    requires highest <= highest'
    ensures (set m | m in Without(server.mails, gone) && m.uid > highest' :: m.uid)
            <= (set m | m in server.mails && m.uid > highest :: m.uid)
  {
    WithoutIs(server.mails, gone);
    hide Without;
  }

  /** No attempt adds pending UIDs, whether it completes, fails or crashes. */
  lemma AttemptAddsNone(box: Box, w: World, e: Event)
    requires Inv(box, w) && e.Attempt?
    ensures Pending(box, Step(box, w, e).server, Step(box, w, e).c) <= Pending(box, w.server, w.c)
  {
    var request := NextRequest(box, w, e);
    var highest := Restarted(w.server, request);
    var fetched := Without(Batch(w.server, request), e.gone);
    AttemptDoes(box, w, e);
    HighestIs(highest, fetched);
    PendingStays(w.server, e.gone, highest, highest);
    PendingStays(w.server, e.gone, highest, Highest(highest, fetched));
    hide Attempted, Found, Batch, Contents, Highest, Without, ValidServer, NothingSkipped;
  }

  lemma OtherAdds(box: Box, w: World, e: Event)
    requires !e.Reset? && !e.Attempt?
    ensures Pending(box, Step(box, w, e).server, Step(box, w, e).c) <= Pending(box, w.server, w.c)
            + if e.Arrive? then {e.uid} else {}
  {
    if e.Expunge? {
      WithoutIs(w.server.mails, e.uids);
      hide Without;
    } else if e.Recall? {
      UpsertKeepsStates(w.c, CacheBatch(Target(box.mailbox, None), box.folder, box.channel, e.messages));
      hide CacheBatch, Upsert;
    }
  }

  predicate Incomplete(box: Box, w: World, e: Event) {
    e.Attempt? && Attempted(box, w, e).1.Done? && !Attempted(box, w, e).1.complete
  }

  /** The batches of a run that reported more to come. */
  function Incompletes(box: Box, w: World, events: seq<Event>): nat
    decreases |events|
  {
    if events == [] then 0
    else
      Incompletes(box, w, events[..|events| - 1])
      + if Incomplete(box, Run(box, w, events[..|events| - 1]), events[|events| - 1]) then 1 else 0
  }

  function Arrivals(events: seq<Event>): nat
    decreases |events|
  {
    if events == [] then 0 else Arrivals(events[..|events| - 1]) + if events[|events| - 1].Arrive? then 1 else 0
  }

  /** Draining ends: under one UIDVALIDITY there are no more incomplete batches than messages that were
      pending or arrived, whatever was expunged, failed or crashed in between. */
  lemma {:induction false} DrainingIsBounded(box: Box, w: World, events: seq<Event>)
    requires Inv(box, w) && PossibleRun(box, w, events)
    requires forall i :: 0 <= i < |events| ==> !events[i].Reset?
    ensures var end := Run(box, w, events);
            Incompletes(box, w, events) + |Pending(box, end.server, end.c)|
              <= |Pending(box, w.server, w.c)| + Arrivals(events)
    decreases |events|
  {
    if events != [] {
      var before, e := Run(box, w, events[..|events| - 1]), events[|events| - 1];
      DrainingIsBounded(box, w, events[..|events| - 1]);
      RunKeeps(box, w, events[..|events| - 1]);
      StepIsBounded(box, before, e);
      hide Inv, Step, Possible, StateOf, Pending, Incomplete;
    }
  }

  lemma StepIsBounded(box: Box, w: World, e: Event)
    requires Inv(box, w) && !e.Reset?
    ensures |Pending(box, Step(box, w, e).server, Step(box, w, e).c)| + (if Incomplete(box, w, e) then 1 else 0)
         <= |Pending(box, w.server, w.c)| + (if e.Arrive? then 1 else 0)
  {
    var before, after := Pending(box, w.server, w.c), Pending(box, Step(box, w, e).server, Step(box, w, e).c);
    if Incomplete(box, w, e) {
      IncompleteShrinksPending(box, w, e);
      hide Pending, Step, Attempted, Inv;
      ProperSubsetSize(after, before);
    } else if e.Attempt? {
      AttemptAddsNone(box, w, e);
      hide Pending, Step, Attempted, Inv;
      SubsetSize(after, before);
    } else {
      OtherAdds(box, w, e);
      hide Pending, Step, Attempted, Inv;
      SubsetSize(after, before + if e.Arrive? then {e.uid} else {});
    }
  }
}
