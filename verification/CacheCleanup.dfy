/** Retention of the message cache: CleanupCachedMessages of
    backend/internal/repository/memory/message_cache.go and the batch loop of
    backend/internal/service/message_cache_cleanup_worker.go. */
module CacheCleanup {
  import opened Collections
  import opened Wrappers

  import opened CacheStore

  const MAX_BATCH: nat := 10000

  type Group = (string, Folder)

  function GroupOf(key: Key): Group {
    (key.mailbox, key.folder)
  }

  function Members(messages: Messages, group: Group): set<Key> {
    set k | k in messages && GroupOf(k) == group
  }

  predicate Expired(messages: Messages, key: Key, before: int)
    requires key in messages
  {
    messages[key].receivedAt < before
  }

  /** The messages of a group that are at least as new as a time. */
  function AsNew(messages: Messages, group: Group, time: int): set<Key> {
    set k | k in messages && GroupOf(k) == group && messages[k].receivedAt >= time
  }

  /** Only messages were removed that are expired or have `max` others of their group, all kept and
      at least as new. */
  predicate Justified(original: Messages, current: Messages, before: int, max: nat) {
    && (forall k :: k in current ==> k in original && current[k] == original[k])
    && (forall k :: k in original && k !in current ==>
          Expired(original, k, before) || |AsNew(current, GroupOf(k), original[k].receivedAt)| >= max)
  }

  predicate CleanGroup(messages: Messages, group: Group, before: int, max: nat) {
    |Members(messages, group)| <= max && forall k :: k in Members(messages, group) ==> !Expired(messages, k, before)
  }

  predicate Clean(messages: Messages, before: int, max: nat) {
    forall k :: k in messages ==> CleanGroup(messages, GroupOf(k), before, max)
  }

  /** One-shot retention: in each group only unexpired messages remain, at most `max`, the newest. */
  predicate IsRetention(original: Messages, current: Messages, before: int, max: nat) {
    Justified(original, current, before, max) && Clean(current, before, max)
  }

  // ---------------------------------------------------------------- retention as a specification

  predicate DistinctTimes(messages: Messages) {
    forall a, b :: a in messages && b in messages && GroupOf(a) == GroupOf(b) && a != b ==>
      messages[a].receivedAt != messages[b].receivedAt
  }

  /** Everything newer than a kept message is kept. */
  lemma NewerIsKept(original: Messages, current: Messages, before: int, max: nat, k: Key, r: Key)
    requires IsRetention(original, current, before, max) && k in current && r in original
    requires GroupOf(r) == GroupOf(k) && original[r].receivedAt > original[k].receivedAt
    ensures r in current
  {
    var kept := AsNew(current, GroupOf(k), original[r].receivedAt);
    assert CleanGroup(current, GroupOf(k), before, max) && k in Members(current, GroupOf(k));
    SubsetSize(kept + {k}, Members(current, GroupOf(k)));
  }

  /** Where no two messages of a group have the same time, retention keeps a message exactly when it
      is unexpired and has fewer than `max` newer ones in its group: batches cannot matter. */
  lemma RetentionKeepsExactly(original: Messages, current: Messages, before: int, max: nat, k: Key)
    requires IsRetention(original, current, before, max) && k in original && DistinctTimes(original)
    ensures k in current <==>
            !Expired(original, k, before) && |AsNew(original, GroupOf(k), original[k].receivedAt) - {k}| < max
  {
    var g, t := GroupOf(k), original[k].receivedAt;
    var newer := AsNew(original, g, t) - {k};
    if k in current {
      forall r | r in newer ensures r in Members(current, g) - {k} {
        NewerIsKept(original, current, before, max, k, r);
      }
      assert CleanGroup(current, g, before, max) && k in Members(current, g);
      hide Clean, Justified, DistinctTimes, AsNew;
      SubsetSize(newer, Members(current, g) - {k});
    } else if !Expired(original, k, before) {
      hide Clean, DistinctTimes;
      SubsetSize(AsNew(current, g, t), newer);
    }
  }

  /** Removals compose, also when the cutoff advances in between. */
  lemma JustifiedTrans(a: Messages, b: Messages, c: Messages, before: int, before': int, max: nat)
    requires Justified(a, b, before, max) && Justified(b, c, before', max) && before <= before'
    ensures Justified(a, c, before', max)
  {
    forall k | k in a && k !in c
      ensures Expired(a, k, before') || |AsNew(c, GroupOf(k), a[k].receivedAt)| >= max
    {
      if k !in b && !Expired(a, k, before') {
        var kept := AsNew(b, GroupOf(k), a[k].receivedAt);
        if kept <= c.Keys {
          SubsetSize(kept, AsNew(c, GroupOf(k), a[k].receivedAt));
        } else {
          var d :| d in kept && d !in c;
          SubsetSize(AsNew(c, GroupOf(k), b[d].receivedAt), AsNew(c, GroupOf(k), a[k].receivedAt));
        }
      }
    }
  }

  // ---------------------------------------------------------------- what a retention removes

  function Groups(messages: Messages): set<Group> {
    set k | k in messages :: GroupOf(k)
  }

  function Least(a: nat, b: nat): nat {
    if a <= b then a else b
  }

  /** How many messages of a group a retention removes: all but the unexpired ones, and of these all
      but `max`. */
  function Surplus(messages: Messages, group: Group, before: int, max: nat): int {
    |Members(messages, group)| - Least(max, |AsNew(messages, group, before)|)
  }

  /** For each group as many places as it has messages to remove. */
  function Places(messages: Messages, groups: set<Group>, before: int, max: nat): set<(Group, int)> {
    set g, i | g in groups && 0 <= i < Surplus(messages, g, before, max) :: (g, i)
  }

  /** How many messages a retention removes: the surpluses of all groups added up. */
  function Removable(messages: Messages, before: int, max: nat): nat {
    |Places(messages, Groups(messages), before, max)|
  }

  /** In each group a justified removal leaves at least what a retention leaves, and no more exactly
      when it leaves the group clean. */
  lemma GroupCleanIff(original: Messages, current: Messages, before: int, max: nat, g: Group)
    requires Justified(original, current, before, max)
    ensures var removed := |Members(original, g)| - |Members(current, g)|;
            removed <= Surplus(original, g, before, max)
              && (CleanGroup(current, g, before, max) <==> removed == Surplus(original, g, before, max))
  {
    var left, unexpired := Members(current, g), AsNew(original, g, before);
    if unexpired <= left {
      SubsetSize(unexpired, left);
      if |left| == |unexpired| { FullSubset(unexpired, left); }
    } else {
      var k :| k in unexpired && k !in left;
      var newer := AsNew(current, g, original[k].receivedAt);
      SubsetSize(newer, left);
      if |left| == |newer| { FullSubset(newer, left); }
    }
    if CleanGroup(current, g, before, max) {
      SubsetSize(left, unexpired);
    }
  }

  function Within(messages: Messages, groups: set<Group>): set<Key> {
    set k | k in messages && GroupOf(k) in groups
  }

  lemma WithinAdd(messages: Messages, groups: set<Group>, g: Group)
    requires g !in groups
    ensures |Within(messages, groups + {g})| == |Within(messages, groups)| + |Members(messages, g)|
  {
    assert Within(messages, groups + {g}) == Within(messages, groups) + Members(messages, g);
  }

  lemma {:induction false} PlacesOfGroup(g: Group, n: nat)
    ensures |set i | 0 <= i < n :: (g, i)| == n
    decreases n
  {
    if n == 0 {
      assert (set i | 0 <= i < n :: (g, i)) == {};
    } else {
      PlacesOfGroup(g, n - 1);
      assert (set i | 0 <= i < n :: (g, i)) == (set i | 0 <= i < n - 1 :: (g, i)) + {(g, n - 1)};
    }
  }

  lemma PlacesAdd(messages: Messages, groups: set<Group>, g: Group, before: int, max: nat)
    requires g !in groups && Surplus(messages, g, before, max) >= 0
    ensures |Places(messages, groups + {g}, before, max)|
            == |Places(messages, groups, before, max)| + Surplus(messages, g, before, max)
  {
    hide Surplus;
    var n := Surplus(messages, g, before, max);
    var own := set i | 0 <= i < n :: (g, i);
    PlacesOfGroup(g, n);
    assert Places(messages, groups + {g}, before, max) == Places(messages, groups, before, max) + own;
  }

  lemma {:induction false} WithinCleanIff(original: Messages, current: Messages, before: int, max: nat,
      groups: set<Group>)
    requires Justified(original, current, before, max)
    ensures var removed := |Within(original, groups)| - |Within(current, groups)|;
            && removed <= |Places(original, groups, before, max)|
            && (removed == |Places(original, groups, before, max)| <==>
              forall g :: g in groups ==> CleanGroup(current, g, before, max))
    decreases groups
  {
    if groups == {} {
      assert Within(original, groups) == {} && Within(current, groups) == {}
        && Places(original, groups, before, max) == {};
    } else {
      hide Justified, CleanGroup, Places, Within, Members;
      var g :| g in groups;
      var rest := groups - {g};
      assert rest + {g} == groups;
      WithinCleanIff(original, current, before, max, rest);
      WithinAdd(original, rest, g);
      WithinAdd(current, rest, g);
      GroupCleanIff(original, current, before, max, g);
      SurplusIsNat(original, g, before, max);
      PlacesAdd(original, rest, g, before, max);
      hide Surplus;
    }
  }

  lemma SurplusIsNat(messages: Messages, g: Group, before: int, max: nat)
    ensures Surplus(messages, g, before, max) >= 0
  {
    SubsetSize(AsNew(messages, g, before), Members(messages, g));
  }

  /** A justified removal never removes more than a retention does, and is one exactly when it removes
      as much. */
  lemma RetentionIff(original: Messages, current: Messages, before: int, max: nat)
    requires Justified(original, current, before, max)
    ensures |original| - |current| <= Removable(original, before, max)
    ensures IsRetention(original, current, before, max) <==> |original| - |current| == Removable(original, before, max)
  {
    var groups := Groups(original);
    WithinCleanIff(original, current, before, max, groups);
    assert Within(original, groups) == original.Keys && Within(current, groups) == current.Keys;
    assert |original| == |original.Keys| && |current| == |current.Keys|;
    CleanIff(original, current, before, max);
    hide Justified, CleanGroup, Places, Within, Clean, Groups;
  }

  lemma CleanIff(original: Messages, current: Messages, before: int, max: nat)
    requires Justified(original, current, before, max)
    ensures Clean(current, before, max) <==> forall g :: g in Groups(original) ==> CleanGroup(current, g, before, max)
  {
    if Clean(current, before, max) {
      forall g | g in Groups(original) ensures CleanGroup(current, g, before, max) {
        if Members(current, g) != {} {
          var k :| k in Members(current, g);
          assert CleanGroup(current, GroupOf(k), before, max);
        }
      }
    } else {
      var k :| k in current && !CleanGroup(current, GroupOf(k), before, max);
      assert k in original && GroupOf(k) in Groups(original);
    }
  }

  // ---------------------------------------------------------------- one batch

  /** The loop over one group, newest first; messages of the same time come in any order. `first` are
      the messages at the first `max` places. */
  ghost predicate Visited(start: Messages, current: Messages, keys: set<Key>, pending: set<Key>, first: set<Key>,
      before: int, max: nat) {
    && pending <= keys && first <= keys - pending
    && (forall k :: k in current ==> k in start && current[k] == start[k])
    && (forall k :: k in start && k !in keys - pending ==> k in current)
    && (forall k :: k in keys ==> k in start)
    && (forall k :: k in keys - pending && k in current ==> k in first && !Expired(start, k, before))
    && (forall k :: k in keys - pending && k !in current ==>
      Expired(start, k, before) || (k !in first && |first| == max))
    && (forall k, f :: k in keys && f in first && k !in first ==> start[k].receivedAt <= start[f].receivedAt)
    && (forall p, k :: p in pending && k in keys - pending ==> start[p].receivedAt <= start[k].receivedAt)
    && |first| <= max && (first != keys - pending ==> |first| == max)
  }

  predicate IsNewest(messages: Messages, keys: set<Key>, k: Key)
    requires forall j :: j in keys ==> j in messages
  {
    k in keys && forall j :: j in keys ==> messages[j].receivedAt <= messages[k].receivedAt
  }

  lemma {:induction false} NewestOf(messages: Messages, keys: set<Key>) returns (k: Key)
    requires keys != {} && forall j :: j in keys ==> j in messages
    ensures k in keys && IsNewest(messages, keys, k)
    decreases |keys|
  {
    k :| k in keys;
    if keys != {k} {
      var x := NewestOf(messages, keys - {k});
      k := if messages[k].receivedAt < messages[x].receivedAt then x else k;
    }
  }

  lemma VisitedIsJustified(start: Messages, current: Messages, keys: set<Key>, pending: set<Key>, first: set<Key>,
      before: int, max: nat, group: Group)
    requires Visited(start, current, keys, pending, first, before, max) && keys == Members(start, group)
    ensures Justified(start, current, before, max)
    ensures pending == {} ==> CleanGroup(current, group, before, max)
    ensures forall k :: k in start && GroupOf(k) != group ==> k in current
  {
    forall k | k in start && k !in current && !Expired(start, k, before)
      ensures |AsNew(current, GroupOf(k), start[k].receivedAt)| >= max
    {
      FirstAreAsNew(start, current, keys, pending, first, before, max, group, k);
    }
    if pending == {} {
      SubsetSize(Members(current, group), first);
    }
  }

  lemma FirstAreAsNew(start: Messages, current: Messages, keys: set<Key>, pending: set<Key>, first: set<Key>,
      before: int, max: nat, group: Group, k: Key)
    requires Visited(start, current, keys, pending, first, before, max) && keys == Members(start, group)
    requires k in start && k !in current && !Expired(start, k, before)
    ensures |AsNew(current, GroupOf(k), start[k].receivedAt)| >= max
  {
    forall f | f in first ensures f in AsNew(current, GroupOf(k), start[k].receivedAt) {
      assert f in keys && GroupOf(f) == group;
      assert f in current;
    }
    SubsetSize(first, AsNew(current, GroupOf(k), start[k].receivedAt));
  }

  /** Visits the next newest message: it is deleted when it is expired or not among the first. */
  lemma VisitOne(start: Messages, current: Messages, keys: set<Key>, pending: set<Key>, first: set<Key>, before: int,
      max: nat, k: Key)
    requires Visited(start, current, keys, pending, first, before, max) && k in pending
    requires IsNewest(start, pending, k)
    ensures var index := |keys - pending|;
            var first' := if index < max then first + {k} else first;
            var current' := if index >= max || Expired(start, k, before) then current - {k} else current;
            Visited(start, current', keys, pending - {k}, first', before, max)
    ensures |keys - (pending - {k})| == |keys - pending| + 1
    ensures k in current && current[k] == start[k] && |current - {k}| == |current| - 1
  {
    assert keys - (pending - {k}) == (keys - pending) + {k};
    assert (current - {k}).Keys == current.Keys - {k};
    assert |current.Keys - {k}| == |current.Keys| - 1;
    assert |current| == |current.Keys| && |current - {k}| == |(current - {k}).Keys|;
    SubsetSize(first, keys - pending);
    if |first| == |keys - pending| {
      assert first == keys - pending by { FullSubset(first, keys - pending); }
    }
  }

  /** Where the loop over a group is, with its index and the number of messages deleted. */
  ghost predicate Sweep(start: Messages, current: Messages, group: Group, pending: set<Key>, first: set<Key>,
      before: int, max: nat, index: nat, deleted: nat) {
    var keys := Members(start, group);
    && Visited(start, current, keys, pending, first, before, max)
    && index == |keys - pending| && |start| == |current| + deleted
  }

  lemma SweepBegins(start: Messages, group: Group, before: int, max: nat)
    ensures Sweep(start, start, group, Members(start, group), {}, before, max, 0, 0)
  {
    assert Members(start, group) - Members(start, group) == {};
  }

  lemma SweepFinds(start: Messages, current: Messages, group: Group, pending: set<Key>, first: set<Key>, before: int,
      max: nat, index: nat, deleted: nat)
    requires Sweep(start, current, group, pending, first, before, max, index, deleted) && pending != {}
    ensures pending <= start.Keys && exists k :: k in pending && IsNewest(start, pending, k)
  {
    var k := NewestOf(start, pending);
  }

  lemma SweepOn(start: Messages, current: Messages, group: Group, pending: set<Key>, first: set<Key>, before: int,
      max: nat, index: nat, deleted: nat, k: Key)
    requires Sweep(start, current, group, pending, first, before, max, index, deleted)
    requires pending <= start.Keys && IsNewest(start, pending, k)
    ensures var removes := index >= max || start[k].receivedAt < before;
            Sweep(start, if removes then current - {k} else current, group, pending - {k},
                  if index < max then first + {k} else first, before, max, index + 1,
                  if removes then deleted + 1 else deleted)
  {
    VisitOne(start, current, Members(start, group), pending, first, before, max, k);
    hide Visited, Members;
  }

  lemma SweepIsJustified(start: Messages, current: Messages, group: Group, pending: set<Key>, first: set<Key>,
      before: int, max: nat, index: nat, deleted: nat)
    requires Sweep(start, current, group, pending, first, before, max, index, deleted)
    ensures Justified(start, current, before, max) && |start| == |current| + deleted
    ensures pending == {} ==> CleanGroup(current, group, before, max)
    ensures forall k :: k in start && GroupOf(k) != group ==> k in current
  {
    VisitedIsJustified(start, current, Members(start, group), pending, first, before, max, group);
    hide Visited, Justified, CleanGroup, Members;
  }

  method CleanGroupOf(store: Store, group: Group, before: int, max: nat, limit: nat,
      already: nat) returns (deleted: nat, full: bool)
    requires already <= limit
    modifies store`messages
    ensures store.View() == old(store.View()).(messages := store.messages)
    ensures Justified(old(store.messages), store.messages, before, max)
    ensures forall k :: k in old(store.messages) && GroupOf(k) != group ==> k in store.messages
    ensures |old(store.messages)| == |store.messages| + deleted && already + deleted <= limit
    ensures full ==> already + deleted == limit
    ensures !full ==> CleanGroup(store.messages, group, before, max)
  {
    hide Sweep, Justified, CleanGroup, IsNewest, Members;
    var start, items := store.messages, Members(store.messages, group);
    var pending, index := items, 0;
    ghost var first: set<Key> := {};
    deleted, full := 0, false;
    SweepBegins(start, group, before, max);
    while pending != {}
      invariant Sweep(start, store.messages, group, pending, first, before, max, index, deleted)
      invariant already + deleted <= limit
      decreases pending
    {
      SweepFinds(start, store.messages, group, pending, first, before, max, index, deleted);
      var item :| item in pending && IsNewest(start, pending, item);
      if already + deleted >= limit {
        full := true;
        break;
      }
      SweepOn(start, store.messages, group, pending, first, before, max, index, deleted, item);
      if index < max {
        first := first + {item};
      }
      if index >= max || start[item].receivedAt < before {
        store.messages := store.messages - {item};
        deleted := deleted + 1;
      }
      pending := pending - {item};
      index := index + 1;
    }
    SweepIsJustified(start, store.messages, group, pending, first, before, max, index, deleted);
  }

  function Normalized(limit: int, fallback: nat, cap: nat): nat {
    if limit <= 0 then fallback else if limit > cap then cap else limit
  }

  /** What one batch does: only justified removals, at most `limit`, and all of them if there are fewer. */
  predicate BatchOf(original: Messages, current: Messages, before: int, max: nat, limit: nat, deleted: nat) {
    && Justified(original, current, before, max)
    && (deleted < limit ==> Clean(current, before, max))
    && |original| == |current| + deleted && deleted <= limit
  }

  /** One batch: the groups in any order, until the batch is full. */
  method CleanupCachedMessages(store: Store, before: int, maxPerMailboxFolder: int,
      batchSize: int) returns (deleted: nat)
    modifies store`messages
    ensures store.View() == old(store.View()).(messages := store.messages)
    ensures BatchOf(old(store.messages), store.messages, before, Normalized(maxPerMailboxFolder, 5000, 1000000),
                    Normalized(batchSize, 1000, MAX_BATCH), deleted)
  {
    var max := Normalized(maxPerMailboxFolder, 5000, 1000000);
    var limit := Normalized(batchSize, 1000, MAX_BATCH);
    hide Normalized;
    ghost var start := store.messages;
    var groups := set k | k in store.messages :: GroupOf(k);
    deleted := 0;
    assert Justified(start, start, before, max);
    while groups != {}
      invariant Justified(start, store.messages, before, max)
      invariant forall k :: k in store.messages && GroupOf(k) !in groups ==>
                CleanGroup(store.messages, GroupOf(k), before, max)
      invariant |start| == |store.messages| + deleted && deleted <= limit
      decreases groups
    {
      var group :| group in groups;
      ghost var previous := store.messages;
      var removed, full := CleanGroupOf(store, group, before, max, limit, deleted);
      JustifiedTrans(start, previous, store.messages, before, before, max);
      deleted := deleted + removed;
      if full {
        return;
      }
      forall k | k in store.messages && GroupOf(k) !in groups - {group}
        ensures CleanGroup(store.messages, GroupOf(k), before, max) {
        if GroupOf(k) != group {
          assert CleanGroup(previous, GroupOf(k), before, max);
          OtherGroupSame(previous, store.messages, GroupOf(k), group, before, max);
        }
      }
      groups := groups - {group};
    }
  }

  lemma OtherGroupSame(previous: Messages, current: Messages, other: Group, group: Group, before: int, max: nat)
    requires other != group && CleanGroup(previous, other, before, max)
    requires forall k :: k in current ==> k in previous && current[k] == previous[k]
    ensures CleanGroup(current, other, before, max)
  {
    SubsetSize(Members(current, other), Members(previous, other));
  }

  // ---------------------------------------------------------------- the worker

  ghost predicate NeverBack(clock: nat -> int) {
    forall i: nat, j: nat :: i <= j ==> clock(i) <= clock(j)
  }

  lemma ClockAdvances(clock: nat -> int, i: nat)
    requires NeverBack(clock)
    ensures clock(i) <= clock(i + 1)
  {
  }

  lemma EffectiveBatch(batchSize: int)
    requires batchSize > 0
    ensures Normalized(batchSize, 1000, MAX_BATCH) == Least(batchSize, MAX_BATCH)
  {
  }

  /** What the last batch leaves, with the cutoff of the last batch. */
  ghost predicate Leaves(original: Messages, current: Messages, before: int, max: nat, batchSize: nat) {
    && Justified(original, current, before, max)
    && (batchSize <= MAX_BATCH ==> IsRetention(original, current, before, max))
    && (batchSize > MAX_BATCH ==>
          && |original| - |current| == Least(MAX_BATCH, Removable(original, before, max))
          && (IsRetention(original, current, before, max) <==> Removable(original, before, max) <= MAX_BATCH))
  }

  /** After some batches, with the cutoff of the last one. */
  predicate Swept(original: Messages, current: Messages, before: int, max: nat, total: nat) {
    Justified(original, current, before, max) && |original| == |current| + total
  }

  lemma NothingSwept(messages: Messages, before: int, max: nat)
    ensures Swept(messages, messages, before, max, 0)
  {
  }

  /** One batch more, with a later cutoff. */
  lemma SweptOn(original: Messages, previous: Messages, current: Messages, last: int, before: int, max: nat,
      limit: nat, total: nat, deleted: nat)
    requires Swept(original, previous, last, max, total) && last <= before
    requires BatchOf(previous, current, before, max, limit, deleted)
    ensures Swept(original, current, before, max, total + deleted)
    ensures |current| == |previous| - deleted && deleted <= limit && (deleted < limit ==> Clean(current, before, max))
  {
    JustifiedTrans(original, previous, current, last, before, max);
    hide Justified, Clean;
  }

  lemma LastBatch(original: Messages, current: Messages, before: int, max: nat, batchSize: nat, total: nat,
      deleted: nat)
    requires Swept(original, current, before, max, total) && deleted < batchSize
    requires deleted < Least(batchSize, MAX_BATCH) ==> Clean(current, before, max)
    requires batchSize > MAX_BATCH ==> deleted == total <= MAX_BATCH
    ensures Leaves(original, current, before, max, batchSize) && total == |original| - |current|
  {
    RetentionIff(original, current, before, max);
    hide Justified, Clean, Removable;
  }

  /** Batches until one is short. The clock may advance between batches. Within the cap of the store the
      result is the retention at the last cutoff. A batch size above the cap ends the loop after one
      batch, which is enough exactly if no more has to be removed than the cap. */
  method RunOnce(store: Store, clock: nat -> int, retention: int, maxPerFolder: int,
      batchSize: int) returns (total: nat, passes: nat)
    requires batchSize > 0
    requires NeverBack(clock)
    modifies store`messages
    ensures store.View() == old(store.View()).(messages := store.messages)
    ensures total == |old(store.messages)| - |store.messages|
    ensures passes > 0 && (batchSize > MAX_BATCH ==> passes == 1)
    ensures Leaves(old(store.messages), store.messages, clock(passes - 1) - retention,
                   Normalized(maxPerFolder, 5000, 1000000), batchSize)
  {
    ghost var max, start := Normalized(maxPerFolder, 5000, 1000000), store.messages;
    ghost var limit := Normalized(batchSize, 1000, MAX_BATCH);
    total, passes := 0, 0;
    EffectiveBatch(batchSize);
    hide Justified, Clean, NeverBack, Leaves, Normalized, Swept, BatchOf;
    ghost var last := clock(0) - retention;
    NothingSwept(start, last, max);
    while true
      invariant Swept(start, store.messages, last, max, total)
      invariant batchSize > MAX_BATCH ==> passes == 0 && total == 0
      invariant last <= clock(passes) - retention
      decreases |store.messages|
    {
      var before := clock(passes) - retention;
      ghost var previous := store.messages;
      var deleted := CleanupCachedMessages(store, before, maxPerFolder, batchSize);
      SweptOn(start, previous, store.messages, last, before, max, limit, total, deleted);
      ClockAdvances(clock, passes);
      last := before;
      total, passes := total + deleted, passes + 1;
      if deleted < batchSize {
        LastBatch(start, store.messages, before, max, batchSize, total, deleted);
        return;
      }
    }
  }

  // ---------------------------------------------------------------- an oversized batch size

  function BurstKey(i: nat): Key {
    Key("mbx", Inbox, seq(i, _ => 'x'))
  }

  /** Messages of one mailbox, all received at time zero. */
  function Burst(n: nat): Messages
    ensures |Burst(n)| == n
    ensures forall k :: k in Burst(n) <==>
            k.mailbox == "mbx" && k.folder == Inbox && |k.externalID| < n && k == BurstKey(|k.externalID|)
    ensures forall k :: k in Burst(n) ==> Burst(n)[k].receivedAt == 0
  {
    if n == 0 then map[] else Burst(n - 1)[BurstKey(n - 1) := CachedMessage("", Graph, "", 0, None)]
  }

  /** When everything is expired, everything has to go. */
  lemma AllExpired(messages: Messages, before: int, max: nat)
    requires forall k :: k in messages ==> Expired(messages, k, before)
    ensures Removable(messages, before, max) == |messages|
  {
    RetentionIff(messages, map[], before, max);
    hide Removable;
  }

  const THIRTY_DAYS := 30 * 24 * 3600 * 1_000_000_000

  /** Instances: with more than 10000 expired messages, say 10001, and a larger batch size, say 20000,
      exactly 10000 messages go. */
  method OversizedBatchStopsShort(n: nat, clock: nat -> int, batchSize: int) returns (store: Store, total: nat)
    requires n > MAX_BATCH && batchSize > MAX_BATCH
    requires NeverBack(clock) && clock(0) > THIRTY_DAYS
    ensures total == MAX_BATCH && |store.messages| == n - MAX_BATCH
    ensures !IsRetention(Burst(n), store.messages, clock(0) - THIRTY_DAYS, 5000)
  {
    hide Burst, Removable, IsRetention, Justified, NeverBack;
    store := new Store({"mbx"});
    store.messages := Burst(n);
    AllExpired(store.messages, clock(0) - THIRTY_DAYS, 5000);
    var passes;
    total, passes := RunOnce(store, clock, THIRTY_DAYS, 5000, batchSize);
  }
}
