/** The Microsoft Graph delta adapter: syncGraphDelta of backend/internal/providers/microsoft.go,
    over the pages of successive rounds. A round goes from a full enumeration or a delta link to the
    next delta link, where the next round begins. */
module GraphDelta {
  import opened Wrappers
  import opened CacheStore
  import opened MessageSync

  const MAX_MESSAGE_LIMIT := 500
  const MAX_GRAPH_PAGES := 100
  const DEFAULT_MAX_PAGES := 10

  datatype Item = Removed(id: string) | Present(message: Message)

  /** A page with its links, each the number of the page it leads to. */
  datatype Page = Page(items: seq<Item>, nextLink: Option<nat>, deltaLink: Option<nat>)

  function PresentMessages(items: seq<Item>): seq<Message> {
    if items == [] then []
    else match items[|items| - 1]
      case Present(m) => PresentMessages(items[..|items| - 1]) + [m]
      case Removed(_) => PresentMessages(items[..|items| - 1])
  }

  function RemovedIDs(items: seq<Item>): seq<string> {
    if items == [] then []
    else match items[|items| - 1]
      case Removed(id) => RemovedIDs(items[..|items| - 1]) + (if id != "" then [id] else [])
      case Present(_) => RemovedIDs(items[..|items| - 1])
  }

  function Items(pages: seq<Page>): seq<Item> {
    if pages == [] then [] else Items(pages[..|pages| - 1]) + pages[|pages| - 1].items
  }

  lemma {:induction false} MessagesConcat(a: seq<Item>, b: seq<Item>)
    ensures PresentMessages(a + b) == PresentMessages(a) + PresentMessages(b)
    ensures RemovedIDs(a + b) == RemovedIDs(a) + RemovedIDs(b)
    decreases |b|
  {
    if b == [] {
      assert a + b == a;
    } else {
      assert (a + b)[..|a + b| - 1] == a + b[..|b| - 1];
      MessagesConcat(a, b[..|b| - 1]);
    }
  }

  lemma {:induction false} ItemsConcat(a: seq<Page>, b: seq<Page>)
    ensures Items(a + b) == Items(a) + Items(b)
    decreases |b|
  {
    if b == [] {
      assert a + b == a;
    } else {
      assert (a + b)[..|a + b| - 1] == a + b[..|b| - 1];
      ItemsConcat(a, b[..|b| - 1]);
    }
  }

  // ---------------------------------------------------------------- fetching a batch of pages

  function EmptyResult(): SyncResult {
    SyncResult([], [], NoCursor, 0, 0, true, Graph)
  }

  function AppendPage(r: SyncResult, page: Page): SyncResult {
    var r1 := r.(messages := r.messages + PresentMessages(page.items), deleted := r.deleted + RemovedIDs(page.items));
    if page.nextLink.Some? then r1.(cursor := Link(page.nextLink.value))
    else if page.deltaLink.Some? then r1.(cursor := Link(page.deltaLink.value))
    else r1
  }

  /** The page loop from `next` on, with `budget` pages left. */
  function DeltaLoop(pages: seq<Page>, next: Option<nat>, budget: nat, limit: nat, r: SyncResult): SyncReply
    decreases budget
  {
    if next.None? then Synced(r)
    else if budget == 0 then Synced(r.(complete := false))
    else if next.value >= |pages| then SyncFailed("page not found")
    else
      var page := pages[next.value];
      var r1 := AppendPage(r, page);
      if |r1.messages| >= limit && page.nextLink.Some? then Synced(r1.(complete := false))
      else DeltaLoop(pages, page.nextLink, budget - 1, limit, r1)
  }

  function PageCap(maxPages: int): (cap: nat)
    ensures 0 < cap <= MAX_GRAPH_PAGES
  {
    if maxPages <= 0 || maxPages > MAX_GRAPH_PAGES then DEFAULT_MAX_PAGES else maxPages
  }

  function MessageCap(limit: int): (cap: nat)
    ensures 0 < cap <= MAX_MESSAGE_LIMIT
  {
    if limit <= 0 || limit > MAX_MESSAGE_LIMIT then MAX_MESSAGE_LIMIT else limit
  }

  /** `expired` says that the server no longer accepts the saved link. */
  function DeltaReply(pages: seq<Page>, expired: bool, fails: bool, request: SyncRequest): SyncReply {
    if request.cursor.TimeBefore? || (request.cursor.Link? && expired) then CursorInvalid
    else if fails then SyncFailed("request failed")
    else
      DeltaLoop(pages, Some(if request.cursor.Link? then request.cursor.page else 0),
                PageCap(request.maxPages), MessageCap(request.limit), EmptyResult())
  }

  /** The page loop of the adapter. */
  method SyncGraphDelta(pages: seq<Page>, expired: bool, fails: bool, request: SyncRequest) returns (reply: SyncReply)
    ensures reply == DeltaReply(pages, expired, fails, request)
  {
    if request.cursor.TimeBefore? || (request.cursor.Link? && expired) {
      return CursorInvalid;
    }
    if fails {
      return SyncFailed("request failed");
    }
    var next: Option<nat> := Some(if request.cursor.Link? then request.cursor.page else 0);
    var maxPages: nat, limit: nat := PageCap(request.maxPages), MessageCap(request.limit);
    var result := EmptyResult();
    var pageNumber := 0;
    while next.Some? && pageNumber < maxPages
      invariant pageNumber <= maxPages
      invariant DeltaReply(pages, expired, fails, request)
                == DeltaLoop(pages, next, maxPages - pageNumber, limit, result)
      decreases maxPages - pageNumber
    {
      if next.value >= |pages| {
        return SyncFailed("page not found");
      }
      var page := pages[next.value];
      result := result.(messages := result.messages + PresentMessages(page.items),
        deleted := result.deleted + RemovedIDs(page.items));
      if page.nextLink.Some? {
        result := result.(cursor := Link(page.nextLink.value));
        next := page.nextLink;
      } else {
        if page.deltaLink.Some? {
          result := result.(cursor := Link(page.deltaLink.value));
        }
        next := None;
      }
      pageNumber := pageNumber + 1;
      if |result.messages| >= limit && page.nextLink.Some? {
        return Synced(result.(complete := false));
      }
    }
    reply := Synced(if next.Some? then result.(complete := false) else result);
  }

  /** Each page leads to the next one: by its next link, or by its delta link if it ends a round, as the
      last page does. */
  predicate Chain(pages: seq<Page>) {
    && pages != []
    && (forall i :: 0 <= i < |pages| ==>
          pages[i].nextLink == Some(i + 1) || (pages[i].nextLink == None && pages[i].deltaLink == Some(i + 1)))
    && pages[|pages| - 1].nextLink == None
  }

  /** Page q is the first of a round, and another round lies before it. */
  predicate EndsRound(pages: seq<Page>, q: nat)
    requires q <= |pages|
  {
    q > 0 && pages[q - 1].nextLink.None?
  }

  /** There is no more than one round. */
  predicate OneRound(pages: seq<Page>) {
    forall q :: 0 < q < |pages| ==> !EndsRound(pages, q)
  }

  /** The page after the last one a batch fetches. */
  function BatchEnd(pages: seq<Page>, p: nat, budget: nat, limit: nat, count: nat): (q: nat)
    requires p < |pages| && budget > 0
    ensures p < q <= |pages|
    decreases budget
  {
    var total := count + |PresentMessages(pages[p].items)|;
    if p + 1 == |pages| || pages[p].nextLink.None? || total >= limit || budget == 1 then p + 1
    else BatchEnd(pages, p + 1, budget - 1, limit, total)
  }

  function BatchResult(pages: seq<Page>, q: nat, items: seq<Item>): SyncResult
    requires q <= |pages|
  {
    SyncResult(PresentMessages(items), RemovedIDs(items), Link(q), 0, 0, EndsRound(pages, q), Graph)
  }

  lemma OneMorePage(pages: seq<Page>, start: nat, p: nat)
    requires start <= p < |pages|
    ensures Items(pages[start..p + 1]) == Items(pages[start..p]) + pages[p].items
    ensures PresentMessages(Items(pages[start..p + 1]))
            == PresentMessages(Items(pages[start..p])) + PresentMessages(pages[p].items)
    ensures RemovedIDs(Items(pages[start..p + 1])) == RemovedIDs(Items(pages[start..p])) + RemovedIDs(pages[p].items)
  {
    assert pages[start..p + 1][..p - start] == pages[start..p];
    MessagesConcat(Items(pages[start..p]), pages[p].items);
  }

  /** A batch fetches the pages from its cursor up to its end, at least one of them and none of the next
      round, and its cursor leads to the first page it did not fetch. */
  lemma {:induction false} DeltaLoopFetches(pages: seq<Page>, start: nat, p: nat, budget: nat, limit: nat,
      r: SyncResult)
    requires Chain(pages) && start <= p < |pages| && budget > 0
    requires r == BatchResult(pages, p, Items(pages[start..p])).(cursor := r.cursor, complete := true)
    ensures var q := BatchEnd(pages, p, budget, limit, |r.messages|);
            DeltaLoop(pages, Some(p), budget, limit, r) == Synced(BatchResult(pages, q, Items(pages[start..q])))
    decreases budget
  {
    hide PresentMessages, RemovedIDs, Items;
    var r1 := AppendPage(r, pages[p]);
    OneMorePage(pages, start, p);
    assert r1 == BatchResult(pages, p + 1, Items(pages[start..p + 1])).(complete := true);
    if pages[p].nextLink.Some? && |r1.messages| < limit && budget > 1 {
      DeltaLoopFetches(pages, start, p + 1, budget - 1, limit, r1);
    }
  }

  /** One request at page p. */
  lemma DeltaReplyFetches(pages: seq<Page>, request: SyncRequest)
    requires Chain(pages) && !request.cursor.TimeBefore? && (request.cursor.Link? ==> request.cursor.page < |pages|)
    ensures var p := if request.cursor.Link? then request.cursor.page else 0;
            var q := BatchEnd(pages, p, PageCap(request.maxPages), MessageCap(request.limit), 0);
            DeltaReply(pages, false, false, request) == Synced(BatchResult(pages, q, Items(pages[p..q])))
  {
    var p := if request.cursor.Link? then request.cursor.page else 0;
    assert pages[p..p] == [];
    DeltaLoopFetches(pages, p, p, PageCap(request.maxPages), MessageCap(request.limit), EmptyResult());
  }
}
