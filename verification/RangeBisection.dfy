/** retrieveCompleteRange of backend/internal/service/message_cache.go: a capped provider query is
    bisected until every piece is known to be complete or is too small to split. Times are
    nanoseconds. */
module RangeBisection {
  import opened Collections
  import opened Wrappers

  import opened CacheStore
  import opened MessageSync

  const RANGE_LIMIT: nat := 500
  const MAX_DEPTH: nat := 20
  const SECOND: nat := 1_000_000_000
  const MAX_DURATION: nat := 0x7FFF_FFFF_FFFF_FFFF

  /** A message with the retrieval method that found it. */
  datatype Retrieved = Retrieved(message: Message, channel: Channel)

  /** One provider query for the messages received in [after, before). */
  type RangeQuery<!E> = (int, int) -> Result<seq<Retrieved>, E>

  /** time.Time.Sub: the difference, saturating at the largest duration. */
  function Sub(before: int, after: int): int {
    if before - after > MAX_DURATION then MAX_DURATION else before - after
  }

  function Middle(after: int, before: int): (m: int)
    requires after <= before
    ensures after <= m <= before
  {
    after + Sub(before, after) / 2
  }

  predicate IsLeaf(items: seq<Retrieved>, after: int, before: int, depth: nat) {
    |items| < RANGE_LIMIT || depth >= MAX_DEPTH || Sub(before, after) <= SECOND
  }

  function RetrieveCompleteRange<E>(fetch: RangeQuery<E>, after: int, before: int, depth: nat): Result<seq<Retrieved>,
      E>
    requires after <= before
    decreases MAX_DEPTH - depth
  {
    match fetch(after, before)
    case Err(e) => Err(e)
    case Ok(items) =>
      if IsLeaf(items, after, before, depth) then Ok(items)
      else
        var middle := Middle(after, before);
        match RetrieveCompleteRange(fetch, after, middle, depth + 1)
        case Err(e) => Err(e)
        case Ok(older) =>
          match RetrieveCompleteRange(fetch, middle, before, depth + 1)
          case Err(e) => Err(e)
          case Ok(newer) => Ok(older + newer)
  }

  // ---------------------------------------------------------------- the shape of a run

  /** The pieces whose results are kept, oldest first. */
  function Leaves<E>(fetch: RangeQuery<E>, after: int, before: int, depth: nat): (leaves: seq<(int, int)>)
    requires after <= before
    decreases MAX_DEPTH - depth
  {
    match fetch(after, before)
    case Err(_) => [(after, before)]
    case Ok(items) =>
      if IsLeaf(items, after, before, depth) then [(after, before)]
      else Leaves(fetch, after, Middle(after, before), depth + 1) + Leaves(fetch, Middle(after, before), before,
        depth + 1)
  }

  /** Provider queries made by a run. */
  function Calls<E>(fetch: RangeQuery<E>, after: int, before: int, depth: nat): nat
    requires after <= before
    decreases MAX_DEPTH - depth
  {
    match fetch(after, before)
    case Err(_) => 1
    case Ok(items) =>
      if IsLeaf(items, after, before, depth) then 1
      else
        1 + Calls(fetch, after, Middle(after, before), depth + 1)
        + (if RetrieveCompleteRange(fetch, after, Middle(after, before), depth + 1).Err? then 0
           else Calls(fetch, Middle(after, before), before, depth + 1))
  }

  function Pow2(n: nat): (p: nat)
    ensures p >= 1
  {
    if n == 0 then 1 else 2 * Pow2(n - 1)
  }

  /** Consecutive pieces that start at `after` and end at `before`. */
  predicate Partitions(leaves: seq<(int, int)>, after: int, before: int) {
    && leaves != []
    && leaves[0].0 == after
    && leaves[|leaves| - 1].1 == before
    && (forall i :: 0 <= i < |leaves| ==> leaves[i].0 <= leaves[i].1)
    && (forall i :: 0 <= i < |leaves| - 1 ==> leaves[i].1 == leaves[i + 1].0)
  }

  lemma {:induction false} LeavesPartition<E>(fetch: RangeQuery<E>, after: int, before: int, depth: nat)
    requires after <= before
    ensures Partitions(Leaves(fetch, after, before, depth), after, before)
    decreases MAX_DEPTH - depth
  {
    var leaves := Leaves(fetch, after, before, depth);
    if fetch(after, before).Ok? && !IsLeaf(fetch(after, before).value, after, before, depth) {
      var middle := Middle(after, before);
      LeavesPartition(fetch, after, middle, depth + 1);
      LeavesPartition(fetch, middle, before, depth + 1);
      var older, newer := Leaves(fetch, after, middle, depth + 1), Leaves(fetch, middle, before, depth + 1);
      assert leaves == older + newer;
      forall i | 0 <= i < |leaves| - 1 ensures leaves[i].1 == leaves[i + 1].0 {
        if i >= |older| {
          assert leaves[i] == newer[i - |older|] && leaves[i + 1] == newer[i - |older| + 1];
        }
      }
    }
  }

  function Gather<E>(fetch: RangeQuery<E>, leaves: seq<(int, int)>): seq<Retrieved>
    requires forall leaf :: leaf in leaves ==> fetch(leaf.0, leaf.1).Ok?
  {
    if leaves == [] then []
    else fetch(leaves[0].0, leaves[0].1).value + Gather(fetch, leaves[1..])
  }

  lemma {:induction false} GatherConcat<E>(fetch: RangeQuery<E>, a: seq<(int, int)>, b: seq<(int, int)>)
    requires forall leaf :: leaf in a + b ==> fetch(leaf.0, leaf.1).Ok?
    requires forall leaf :: leaf in a ==> fetch(leaf.0, leaf.1).Ok?
    requires forall leaf :: leaf in b ==> fetch(leaf.0, leaf.1).Ok?
    ensures Gather(fetch, a + b) == Gather(fetch, a) + Gather(fetch, b)
  {
    if a == [] {
      assert a + b == b;
    } else {
      assert (a + b)[1..] == a[1..] + b;
      GatherConcat(fetch, a[1..], b);
    }
  }

  /** A run fails exactly when the query of some piece fails; otherwise it returns the results of
      the pieces, oldest piece first. */
  lemma {:induction false} ResultIsLeavesInOrder<E>(fetch: RangeQuery<E>, after: int, before: int, depth: nat)
    requires after <= before
    ensures var leaves, r := Leaves(fetch, after, before, depth), RetrieveCompleteRange(fetch, after, before, depth);
            && (r.Ok? <==> forall leaf :: leaf in leaves ==> fetch(leaf.0, leaf.1).Ok?)
            && (r.Ok? ==> r.value == Gather(fetch, leaves))
    decreases MAX_DEPTH - depth
  {
    if fetch(after, before).Err? {
      assert Leaves(fetch, after, before, depth)[0] == (after, before);
    } else if IsLeaf(fetch(after, before).value, after, before, depth) {
      assert Leaves(fetch, after, before, depth)[0] == (after, before);
      assert fetch(after, before).value + [] == fetch(after, before).value;
    } else {
      var middle := Middle(after, before);
      ResultIsLeavesInOrder(fetch, after, middle, depth + 1);
      ResultIsLeavesInOrder(fetch, middle, before, depth + 1);
      var older, newer := Leaves(fetch, after, middle, depth + 1), Leaves(fetch, middle, before, depth + 1);
      assert forall leaf :: leaf in older + newer <==> leaf in older || leaf in newer;
      if RetrieveCompleteRange(fetch, after, before, depth).Ok? {
        GatherConcat(fetch, older, newer);
      }
    }
  }

  lemma {:induction false} CallsBounded<E>(fetch: RangeQuery<E>, after: int, before: int, depth: nat)
    requires after <= before && depth <= MAX_DEPTH
    ensures Calls(fetch, after, before, depth) <= Pow2(MAX_DEPTH + 1 - depth) - 1
    decreases MAX_DEPTH - depth
  {
    assert Pow2(MAX_DEPTH + 1 - depth) == 2 * Pow2(MAX_DEPTH - depth);
    if fetch(after, before).Ok? && !IsLeaf(fetch(after, before).value, after, before, depth) {
      var middle := Middle(after, before);
      CallsBounded(fetch, after, middle, depth + 1);
      CallsBounded(fetch, middle, before, depth + 1);
    }
  }

  // ---------------------------------------------------------------- completeness

  function Window(mailbox: set<Message>, after: int, before: int): set<Message> {
    set m | m in mailbox && m.receivedAt.Some? && after <= m.receivedAt.value < before
  }

  function MessagesOf(items: seq<Retrieved>): seq<Message> {
    seq(|items|, i requires 0 <= i < |items| => items[i].message)
  }

  lemma MessagesOfConcat(a: seq<Retrieved>, b: seq<Retrieved>)
    ensures multiset(MessagesOf(a + b)) == multiset(MessagesOf(a)) + multiset(MessagesOf(b))
  {
    assert MessagesOf(a + b) == MessagesOf(a) + MessagesOf(b);
  }

  /** The provider answers with distinct messages of the window, all of them or `cap` of them. */
  ghost predicate Faithful<E(!new)>(fetch: RangeQuery<E>, mailbox: set<Message>, cap: nat) {
    forall a, b | fetch(a, b).Ok? ::
      && multiset(MessagesOf(fetch(a, b).value)) <= multiset(Window(mailbox, a, b))
      && |fetch(a, b).value| == (if |Window(mailbox, a, b)| <= cap then |Window(mailbox, a, b)| else cap)
  }

  predicate Complete(items: seq<Retrieved>, mailbox: set<Message>, after: int, before: int) {
    multiset(MessagesOf(items)) == multiset(Window(mailbox, after, before))
  }

  lemma SubmultisetOfSameSize<T>(a: multiset<T>, b: multiset<T>)
    requires a <= b
    ensures a == b <==> |a| == |b|
  {
    assert b == a + (b - a);
    assert |b| == |a| + |b - a|;
  }

  lemma WindowSplits(mailbox: set<Message>, after: int, middle: int, before: int)
    requires after <= middle <= before
    ensures multiset(Window(mailbox, after, before))
         == multiset(Window(mailbox, after, middle)) + multiset(Window(mailbox, middle, before))
  {
    assert Window(mailbox, after, before) == Window(mailbox, after, middle) + Window(mailbox, middle, before);
    assert Window(mailbox, after, middle) !! Window(mailbox, middle, before);
  }

  lemma SumsOfSubmultisets<T>(a: multiset<T>, b: multiset<T>, wa: multiset<T>, wb: multiset<T>)
    requires a <= wa && b <= wb
    ensures a + b <= wa + wb
    ensures a + b == wa + wb <==> a == wa && b == wb
  {
    if a + b == wa + wb {
      forall x ensures a[x] == wa[x] && b[x] == wb[x] {
        assert (a + b)[x] == (wa + wb)[x];
      }
    }
  }

  /** A run never returns a message twice nor a message from outside the range; it returns every
      message of the range if and only if no kept piece holds more messages than the provider's
      cap. */
  lemma {:induction false} CompleteIff<E(!new)>(fetch: RangeQuery<E>, mailbox: set<Message>, cap: nat, after: int,
      before: int, depth: nat)
    requires after <= before && Faithful(fetch, mailbox, cap)
    requires RetrieveCompleteRange(fetch, after, before, depth).Ok?
    ensures var items := RetrieveCompleteRange(fetch, after, before, depth).value;
            multiset(MessagesOf(items)) <= multiset(Window(mailbox, after, before))
    ensures Complete(RetrieveCompleteRange(fetch, after, before, depth).value, mailbox, after, before)
       <==> forall leaf :: leaf in Leaves(fetch, after, before, depth) ==> |Window(mailbox, leaf.0, leaf.1)| <= cap
    decreases MAX_DEPTH - depth
  {
    var leaves := Leaves(fetch, after, before, depth);
    var items := fetch(after, before).value;
    if IsLeaf(items, after, before, depth) {
      SubmultisetOfSameSize(multiset(MessagesOf(items)), multiset(Window(mailbox, after, before)));
      assert leaves[0] == (after, before);
    } else {
      var middle := Middle(after, before);
      var older := RetrieveCompleteRange(fetch, after, middle, depth + 1).value;
      var newer := RetrieveCompleteRange(fetch, middle, before, depth + 1).value;
      CompleteIff(fetch, mailbox, cap, after, middle, depth + 1);
      CompleteIff(fetch, mailbox, cap, middle, before, depth + 1);
      WindowSplits(mailbox, after, middle, before);
      MessagesOfConcat(older, newer);
      SumsOfSubmultisets(multiset(MessagesOf(older)), multiset(MessagesOf(newer)),
                         multiset(Window(mailbox, after, middle)), multiset(Window(mailbox, middle, before)));
      assert forall leaf :: leaf in leaves <==>
               leaf in Leaves(fetch, after, middle, depth + 1) || leaf in Leaves(fetch, middle, before, depth + 1);
    }
  }

  /** The finest pieces a range can be halved into, whatever the mailbox holds. */
  function Finest(after: int, before: int, depth: nat): seq<(int, int)>
    requires after <= before
    decreases MAX_DEPTH - depth
  {
    if depth >= MAX_DEPTH || Sub(before, after) <= SECOND then [(after, before)]
    else Finest(after, Middle(after, before), depth + 1) + Finest(Middle(after, before), before, depth + 1)
  }

  /** No finest piece holds more messages than the cap. */
  predicate FinestHold(mailbox: set<Message>, cap: nat, after: int, before: int, depth: nat)
    requires after <= before
  {
    forall piece :: piece in Finest(after, before, depth) ==> |Window(mailbox, piece.0, piece.1)| <= cap
  }

  lemma FinestHoldSplits(mailbox: set<Message>, cap: nat, after: int, before: int, depth: nat)
    requires after <= before && depth < MAX_DEPTH && Sub(before, after) > SECOND
    ensures var middle := Middle(after, before);
            FinestHold(mailbox, cap, after, before, depth) <==>
              FinestHold(mailbox, cap, after, middle, depth + 1) && FinestHold(mailbox, cap, middle, before, depth + 1)
  {
    var older := Finest(after, Middle(after, before), depth + 1);
    var newer := Finest(Middle(after, before), before, depth + 1);
    assert forall piece :: piece in older + newer <==> piece in older || piece in newer;
    hide Window;
  }

  lemma HalvesAreSmaller(mailbox: set<Message>, after: int, middle: int, before: int)
    requires after <= middle <= before
    ensures |Window(mailbox, after, middle)| <= |Window(mailbox, after, before)|
    ensures |Window(mailbox, middle, before)| <= |Window(mailbox, after, before)|
  {
    SubsetSize(Window(mailbox, after, middle), Window(mailbox, after, before));
    SubsetSize(Window(mailbox, middle, before), Window(mailbox, after, before));
  }

  lemma FinestIsWhole(mailbox: set<Message>, cap: nat, after: int, before: int, depth: nat)
    requires after <= before && (depth >= MAX_DEPTH || Sub(before, after) <= SECOND)
    ensures FinestHold(mailbox, cap, after, before, depth) <==> |Window(mailbox, after, before)| <= cap
  {
    assert Finest(after, before, depth)[0] == (after, before);
    hide Window, Sub;
  }

  /** A range that holds no more than the cap is made of pieces that do not. */
  lemma {:induction false} SmallHolds(mailbox: set<Message>, cap: nat, after: int, before: int, depth: nat)
    requires after <= before && |Window(mailbox, after, before)| <= cap
    ensures FinestHold(mailbox, cap, after, before, depth)
    decreases MAX_DEPTH - depth
  {
    hide Window, FinestHold, Finest, Sub;
    if depth < MAX_DEPTH && Sub(before, after) > SECOND {
      var middle := Middle(after, before);
      hide Middle;
      HalvesAreSmaller(mailbox, after, middle, before);
      SmallHolds(mailbox, cap, after, middle, depth + 1);
      SmallHolds(mailbox, cap, middle, before, depth + 1);
      FinestHoldSplits(mailbox, cap, after, before, depth);
    } else {
      FinestIsWhole(mailbox, cap, after, before, depth);
    }
  }

  /** When a retrieval is complete, on the range and the mailbox alone: exactly if no finest piece of the
      range holds more messages than the cap of the provider. */
  lemma {:induction false} CompleteIffFinestHold<E(!new)>(fetch: RangeQuery<E>, mailbox: set<Message>, cap: nat,
      after: int, before: int, depth: nat)
    requires after <= before && cap >= RANGE_LIMIT && Faithful(fetch, mailbox, cap)
    requires RetrieveCompleteRange(fetch, after, before, depth).Ok?
    ensures Complete(RetrieveCompleteRange(fetch, after, before, depth).value, mailbox, after, before)
       <==> FinestHold(mailbox, cap, after, before, depth)
    decreases MAX_DEPTH - depth
  {
    hide Complete, Window, FinestHold;
    CompleteIff(fetch, mailbox, cap, after, before, depth);
    if IsLeaf(fetch(after, before).value, after, before, depth) {
      LeafHoldsIff(fetch, mailbox, cap, after, before, depth);
    } else {
      var middle := Middle(after, before);
      FinestHoldSplits(mailbox, cap, after, before, depth);
      CompleteIffFinestHold(fetch, mailbox, cap, after, middle, depth + 1);
      CompleteIffFinestHold(fetch, mailbox, cap, middle, before, depth + 1);
      CompleteIff(fetch, mailbox, cap, after, middle, depth + 1);
      CompleteIff(fetch, mailbox, cap, middle, before, depth + 1);
      assert forall leaf :: leaf in Leaves(fetch, after, before, depth) <==>
               leaf in Leaves(fetch, after, middle, depth + 1) || leaf in Leaves(fetch, middle, before, depth + 1);
    }
  }

  lemma LeafHoldsIff<E(!new)>(fetch: RangeQuery<E>, mailbox: set<Message>, cap: nat, after: int, before: int,
      depth: nat)
    requires after <= before && cap >= RANGE_LIMIT && Faithful(fetch, mailbox, cap)
    requires fetch(after, before).Ok? && IsLeaf(fetch(after, before).value, after, before, depth)
    ensures (forall leaf :: leaf in Leaves(fetch, after, before, depth) ==> |Window(mailbox, leaf.0, leaf.1)| <= cap)
       <==> FinestHold(mailbox, cap, after, before, depth)
  {
    assert Leaves(fetch, after, before, depth)[0] == (after, before);
    if |fetch(after, before).value| < RANGE_LIMIT {
      SmallHolds(mailbox, cap, after, before, depth);
    } else {
      FinestIsWhole(mailbox, cap, after, before, depth);
    }
    hide Window, FinestHold;
  }

  /** Up to 2^20 seconds, the finest pieces last at most one second. */
  lemma {:induction false} FinestAreSmall(after: int, before: int, depth: nat)
    requires after <= before && depth <= MAX_DEPTH
    requires before - after <= Pow2(MAX_DEPTH - depth) * SECOND <= MAX_DURATION
    ensures forall piece :: piece in Finest(after, before, depth) ==>
              after <= piece.0 <= piece.1 <= before && piece.1 - piece.0 <= SECOND
    decreases MAX_DEPTH - depth
  {
    if depth < MAX_DEPTH && Sub(before, after) > SECOND {
      assert Pow2(MAX_DEPTH - depth) == 2 * Pow2(MAX_DEPTH - (depth + 1));
      FinestAreSmall(after, Middle(after, before), depth + 1);
      FinestAreSmall(Middle(after, before), before, depth + 1);
    }
  }

  /** A provider with a cap below the limit of the query hides that it truncates: no range is ever split,
      and a retrieval is complete exactly when the range holds no more messages than the cap. */
  lemma LowCapNeverSplits<E(!new)>(fetch: RangeQuery<E>, mailbox: set<Message>, cap: nat, after: int, before: int,
      depth: nat)
    requires after <= before && cap < RANGE_LIMIT && Faithful(fetch, mailbox, cap)
    requires RetrieveCompleteRange(fetch, after, before, depth).Ok?
    ensures Leaves(fetch, after, before, depth) == [(after, before)]
    ensures Complete(RetrieveCompleteRange(fetch, after, before, depth).value, mailbox, after, before)
       <==> |Window(mailbox, after, before)| <= cap
  {
    CompleteIff(fetch, mailbox, cap, after, before, depth);
    hide Complete, Window;
    assert Leaves(fetch, after, before, depth)[0] == (after, before);
  }

  lemma TwentyHalvings()
    ensures Pow2(MAX_DEPTH) == 0x10_0000 && Pow2(MAX_DEPTH + 1) == 0x20_0000
  {
    assert Pow2(5) == 32;
    assert Pow2(10) == 1024;
    assert Pow2(15) == 0x8000;
    assert Pow2(20) == 0x10_0000;
  }

  /** Restoring at most 2^20 seconds makes at most 2^21 - 1 queries and, unless some window of at
      most one second inside the range holds more messages than the provider's cap, returns every
      message of the range exactly once. */
  lemma RestoreIsComplete<E(!new)>(fetch: RangeQuery<E>, mailbox: set<Message>, cap: nat, after: int, before: int)
    requires after <= before <= after + 0x10_0000 * SECOND && cap >= RANGE_LIMIT && Faithful(fetch, mailbox, cap)
    requires RetrieveCompleteRange(fetch, after, before, 0).Ok?
    requires forall a, b :: after <= a <= b <= before && b - a <= SECOND ==> |Window(mailbox, a, b)| <= cap
    ensures Complete(RetrieveCompleteRange(fetch, after, before, 0).value, mailbox, after, before)
    ensures Calls(fetch, after, before, 0) <= 0x1F_FFFF
  {
    TwentyHalvings();
    hide Pow2, RetrieveCompleteRange, Calls, Complete, Window, Faithful, Finest;
    CallsBounded(fetch, after, before, 0);
    FinestAreSmall(after, before, 0);
    CompleteIffFinestHold(fetch, mailbox, cap, after, before, 0);
  }

  lemma {:induction false} SomeLeafHolds(leaves: seq<(int, int)>, after: int, before: int, t: int) returns (i: nat)
    requires Partitions(leaves, after, before) && after <= t < before
    ensures i < |leaves| && leaves[i].0 <= t < leaves[i].1
    decreases |leaves|
  {
    if t < leaves[0].1 {
      i := 0;
    } else {
      var rest := leaves[1..];
      assert forall k :: 0 <= k < |rest| ==> rest[k] == leaves[k + 1];
      assert |leaves| > 1;
      i := SomeLeafHolds(rest, leaves[0].1, before, t);
      i := i + 1;
    }
  }

  /** More messages at one instant than the provider's cap are lost by every run, whatever the
      range: no bisection separates them. */
  lemma BurstIsLost<E(!new)>(fetch: RangeQuery<E>, mailbox: set<Message>, cap: nat, after: int, before: int, t: int)
    requires after <= t < before && Faithful(fetch, mailbox, cap)
    requires RetrieveCompleteRange(fetch, after, before, 0).Ok?
    requires |Window(mailbox, t, t + 1)| > cap
    ensures !Complete(RetrieveCompleteRange(fetch, after, before, 0).value, mailbox, after, before)
  {
    LeavesPartition(fetch, after, before, 0);
    CompleteIff(fetch, mailbox, cap, after, before, 0);
    var leaves := Leaves(fetch, after, before, 0);
    var i := SomeLeafHolds(leaves, after, before, t);
    SubsetSize(Window(mailbox, t, t + 1), Window(mailbox, leaves[i].0, leaves[i].1));
    assert leaves[i] in leaves;
  }
}
