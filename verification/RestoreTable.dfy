/** The bounded table of restore operations: Start, observe and pruneLocked of
    backend/internal/backup/restores.go. */
module RestoreTable {
  import opened Collections
  import opened Wrappers

  const MAX_REMEMBERED: nat := 100

  datatype State = Running | Succeeded | Failed

  datatype Operation = Operation(runID: string, state: State, error: string, startedAt: int, finishedAt: Option<int>)

  type Operations = map<string, Operation>

  // ---------------------------------------------------------------- pruning

  predicate Prunable(operations: Operations, id: string)
    requires id in operations
  {
    |operations| >= MAX_REMEMBERED && operations[id].state != Running
  }

  /** One pass over the order: what it keeps of the order and of the operations. */
  function PruneFrom(order: seq<string>, operations: Operations): (seq<string>, Operations)
    decreases |order|
  {
    if order == [] then ([], operations)
    else if order[0] !in operations then PruneFrom(order[1..], operations)
    else if Prunable(operations, order[0]) then PruneFrom(order[1..], operations - {order[0]})
    else
      var (kept, rest) := PruneFrom(order[1..], operations);
      ([order[0]] + kept, rest)
  }

  function Prune(order: seq<string>, operations: Operations): (seq<string>, Operations) {
    if |operations| < MAX_REMEMBERED then (order, operations) else PruneFrom(order, operations)
  }

  predicate Distinct(s: seq<string>) {
    forall i, j :: 0 <= i < j < |s| ==> s[i] != s[j]
  }

  /** The elements of a sequence that are in a set, in their order. */
  function Keep(s: seq<string>, keys: set<string>): seq<string>
    decreases |s|
  {
    if s == [] then [] else (if s[0] in keys then [s[0]] else []) + Keep(s[1..], keys)
  }

  /** The order lists the keys of the operations once each. */
  ghost predicate Lists(order: seq<string>, operations: Operations) {
    Distinct(order) && forall id :: id in order <==> id in operations
  }

  lemma DistinctTail(s: seq<string>)
    requires s != [] && Distinct(s)
    ensures Distinct(s[1..]) && s[0] !in s[1..]
  {
    assert forall i :: 0 <= i < |s| - 1 ==> s[1..][i] == s[i + 1];
  }

  lemma {:induction false} KeepMeans(s: seq<string>, keys: set<string>)
    ensures forall id :: id in Keep(s, keys) <==> id in s && id in keys
    ensures Distinct(s) ==> Distinct(Keep(s, keys))
    decreases |s|
  {
    if s != [] {
      KeepMeans(s[1..], keys);
      assert forall id :: id in s <==> id == s[0] || id in s[1..];
      if Distinct(s) { DistinctTail(s); }
    }
  }

  lemma {:induction false} KeepAgain(s: seq<string>, keys: set<string>, fewer: set<string>)
    requires fewer <= keys
    ensures Keep(Keep(s, keys), fewer) == Keep(s, fewer)
    decreases |s|
  {
    if s != [] {
      KeepAgain(s[1..], keys, fewer);
      if s[0] in keys { assert Keep(s, keys)[1..] == Keep(s[1..], keys); }
        else { assert Keep(s, keys) == Keep(s[1..], keys); }
    }
  }

  lemma {:induction false} KeepSame(s: seq<string>, a: set<string>, b: set<string>)
    requires forall id :: id in s ==> (id in a <==> id in b)
    ensures Keep(s, a) == Keep(s, b)
    decreases |s|
  {
    if s != [] { KeepSame(s[1..], a, b); }
  }

  lemma {:induction false} KeepSnoc(s: seq<string>, id: string, keys: set<string>)
    ensures Keep(s + [id], keys) == Keep(s, keys) + if id in keys then [id] else []
    decreases |s|
  {
    var tail := if id in keys then [id] else [];
    if s == [] {
      assert s + [id] == [id] && [id][1..] == [];
    } else {
      assert (s + [id])[1..] == s[1..] + [id];
      KeepSnoc(s[1..], id, keys);
      Associative(if s[0] in keys then [s[0]] else [], Keep(s[1..], keys), tail);
    }
  }

  predicate Finished(operations: Operations, id: string) {
    id in operations && operations[id].state != Running
  }

  predicate Removed(operations: Operations, rest: Operations, id: string) {
    id in operations && id !in rest
  }

  /** Only finished operations of the order go. */
  ghost predicate OnlyFinished(order: seq<string>, operations: Operations, rest: Operations) {
    && (forall id :: id in rest ==> id in operations && rest[id] == operations[id])
    && (forall id :: Removed(operations, rest, id) ==> id in order && operations[id].state != Running)
  }

  /** The oldest of them go first. */
  predicate OldestFirst(order: seq<string>, operations: Operations, rest: Operations) {
    forall i, j :: 0 <= i < j < |order| && Finished(operations, order[i]) && Removed(operations, rest, order[j]) ==>
      order[i] !in rest
  }

  /** No more of them go than needed, and all of them if that is not enough. */
  predicate JustEnough(order: seq<string>, operations: Operations, rest: Operations) {
    && (|rest| < |operations| ==> |rest| >= MAX_REMEMBERED - 1)
    && (|rest| >= MAX_REMEMBERED ==> forall id :: id in order && id in rest ==> rest[id].state == Running)
  }

  /** What pruning removes and keeps. */
  ghost predicate Pruned(order: seq<string>, operations: Operations, kept: seq<string>, rest: Operations) {
    kept == Keep(order, rest.Keys) && OnlyFinished(order, operations, rest) && OldestFirst(order, operations, rest)
      && JustEnough(order, operations, rest)
  }

  lemma Fewer(operations: Operations, id: string)
    requires id in operations
    ensures |operations - {id}| == |operations| - 1
  {
    assert (operations - {id}).Keys == operations.Keys - {id};
    assert |operations| == |operations.Keys| && |operations - {id}| == |(operations - {id}).Keys|;
  }

  lemma {:induction false} SmallStays(order: seq<string>, operations: Operations)
    requires |operations| < MAX_REMEMBERED
    ensures PruneFrom(order, operations).1 == operations
    ensures PruneFrom(order, operations).0 == Keep(order, operations.Keys)
    decreases |order|
  {
    if order != [] { SmallStays(order[1..], operations); }
  }

  lemma {:induction false} PruneFromMeans(order: seq<string>, operations: Operations)
    requires Distinct(order)
    ensures Pruned(order, operations, PruneFrom(order, operations).0, PruneFrom(order, operations).1)
    decreases |order|
  {
    if order != [] {
      DistinctTail(order);
      var id, tail := order[0], order[1..];
      assert forall x :: x in order <==> x == id || x in tail;
      if id in operations && Prunable(operations, id) {
        Fewer(operations, id);
        PruneFromMeans(tail, operations - {id});
        DroppedHead(order, operations);
      } else {
        PruneFromMeans(tail, operations);
        KeptHead(order, operations);
      }
    }
  }

  lemma HeadAndTail(order: seq<string>)
    requires order != [] && Distinct(order)
    ensures Distinct(order[1..]) && order[0] !in order[1..]
    ensures forall x :: x in order <==> x == order[0] || x in order[1..]
    ensures forall i :: 0 < i < |order| ==> order[i] == order[1..][i - 1] && order[i] in order[1..]
  {
    DistinctTail(order);
  }

  lemma OldestFirstStep(order: seq<string>, operations: Operations, operations': Operations, rest: Operations)
    requires order != [] && Distinct(order) && OldestFirst(order[1..], operations', rest)
    requires operations' == operations || operations' == operations - {order[0]}
    requires order[0] !in rest || !Finished(operations, order[0]) || rest == operations
    ensures OldestFirst(order, operations, rest)
  {
    HeadAndTail(order);
    forall i, j | 0 <= i < j < |order| && Finished(operations, order[i]) && Removed(operations, rest, order[j])
      ensures order[i] !in rest {
      if i > 0 {
        assert order[1..][i - 1] == order[i] && order[1..][j - 1] == order[j];
      }
    }
  }

  lemma SubmapSize(a: Operations, b: Operations)
    requires forall id :: id in a ==> id in b && a[id] == b[id]
    ensures |a| <= |b| && (|a| == |b| ==> a == b)
  {
    assert a.Keys <= b.Keys;
    assert b.Keys == a.Keys + (b.Keys - a.Keys);
    assert |a| == |a.Keys| && |b| == |b.Keys|;
  }

  lemma FinishedWithHead(order: seq<string>, operations: Operations, rest: Operations)
    requires order != [] && order[0] in operations && Prunable(operations, order[0])
    requires OnlyFinished(order[1..], operations - {order[0]}, rest)
    ensures OnlyFinished(order, operations, rest)
  {
    assert forall id :: Removed(operations, rest, id) ==>
      id == order[0] || Removed(operations - {order[0]}, rest, id);
  }

  lemma DroppedHead(order: seq<string>, operations: Operations)
    requires order != [] && Distinct(order) && order[0] in operations && Prunable(operations, order[0])
    requires Pruned(order[1..], operations - {order[0]}, PruneFrom(order[1..], operations - {order[0]}).0,
             PruneFrom(order[1..], operations - {order[0]}).1)
    ensures Pruned(order, operations, PruneFrom(order, operations).0, PruneFrom(order, operations).1)
  {
    var rest := PruneFrom(order[1..], operations - {order[0]}).1;
    HeadAndTail(order);
    Fewer(operations, order[0]);
    assert PruneFrom(order, operations) == PruneFrom(order[1..], operations - {order[0]});
    OldestFirstStep(order, operations, operations - {order[0]}, rest);
    assert order[0] !in rest;
    assert Keep(order, rest.Keys) == Keep(order[1..], rest.Keys);
    FinishedWithHead(order, operations, rest);
    SubmapSize(rest, operations - {order[0]});
    hide PruneFrom, OldestFirst, Distinct, OnlyFinished;
  }

  lemma KeptHead(order: seq<string>, operations: Operations)
    requires order != [] && Distinct(order) && !(order[0] in operations && Prunable(operations, order[0]))
    requires Pruned(order[1..], operations, PruneFrom(order[1..], operations).0, PruneFrom(order[1..], operations).1)
    ensures Pruned(order, operations, PruneFrom(order, operations).0, PruneFrom(order, operations).1)
  {
    var rest := PruneFrom(order[1..], operations).1;
    HeadAndTail(order);
    SmallStaysHere(order[1..], operations);
    assert PruneFrom(order, operations).1 == rest;
    assert PruneFrom(order, operations).0
      == (if order[0] in operations then [order[0]] else []) + PruneFrom(order[1..], operations).0;
    OldestFirstStep(order, operations, operations, rest);
    assert !Removed(operations, rest, order[0]);
    assert Keep(order, rest.Keys) == (if order[0] in rest then [order[0]] else []) + Keep(order[1..], rest.Keys);
    assert JustEnough(order, operations, rest);
    assert OnlyFinished(order, operations, rest);
    hide PruneFrom, OldestFirst, Distinct;
  }

  lemma SmallStaysHere(order: seq<string>, operations: Operations)
    ensures |operations| < MAX_REMEMBERED ==> PruneFrom(order, operations).1 == operations
  {
    if |operations| < MAX_REMEMBERED { SmallStays(order, operations); }
  }

  /** Pruning a table whose order lists its keys: it drops no running operation, only the oldest
      finished ones and no more than needed, and leaves fewer than the maximum unless all are running. */
  lemma PruneMeans(order: seq<string>, operations: Operations)
    requires Lists(order, operations)
    ensures var (kept, rest) := Prune(order, operations);
            && Pruned(order, operations, kept, rest)
            && Lists(kept, rest)
            && (|rest| >= MAX_REMEMBERED ==> forall id :: id in rest ==> rest[id].state == Running)
  {
    var (kept, rest) := Prune(order, operations);
    if |operations| < MAX_REMEMBERED { SmallStays(order, operations); KeepAll(order, operations.Keys); }
      else { PruneFromMeans(order, operations); }
    KeepMeans(order, rest.Keys);
    hide PruneFrom, OldestFirst;
  }

  lemma {:induction false} KeepAll(s: seq<string>, keys: set<string>)
    requires forall id :: id in s ==> id in keys
    ensures Keep(s, keys) == s
    decreases |s|
  {
    if s != [] { KeepAll(s[1..], keys); }
  }

  // ---------------------------------------------------------------- the coordinator

  function Starting(order: seq<string>, operations: Operations, id: string, operation: Operation): (seq<string>,
      Operations) {
    var (kept, rest) := Prune(order, operations);
    (kept + [id], rest[id := operation])
  }

  function Observing(operations: Operations, id: string, error: Option<string>, now: int): Operations {
    if id !in operations then operations
    else if error.Some? then operations[id := operations[id].(state := Failed, error := error.value,
      finishedAt := Some(now))]
    else operations[id := operations[id].(state := Succeeded, finishedAt := Some(now))]
  }

  /** The table in place: the order is a slice of a buffer that pruning overwrites from its start. */
  class RestoreCoordinator {
    var operations: Operations
    var buffer: array<string>
    var length: nat

    ghost predicate Valid()
      reads this
    {
      length <= buffer.Length
    }

    function Order(): seq<string>
      reads this, buffer
      requires Valid()
    {
      buffer[..length]
    }

    constructor ()
      ensures Valid() && fresh(buffer) && Order() == [] && operations == map[]
    {
      operations, buffer, length := map[], new string[0], 0;
    }

    method PruneLocked()
      requires Valid()
      modifies this`operations, this`length, buffer
      ensures Valid() && (Order(), operations) == Prune(old(Order()), old(operations))
    {
      if |operations| < MAX_REMEMBERED {
        return;
      }
      ghost var order := Order();
      var kept, i := 0, 0;
      assert order[0..] == order && buffer[..0] == [];
      assert [] + PruneFrom(order, operations).0 == PruneFrom(order, operations).0;
      while i < length
        invariant 0 <= kept <= i <= length == |order|
        invariant buffer[i..length] == order[i..]
        invariant PruneFrom(order, old(operations)) ==
                  (buffer[..kept] + PruneFrom(order[i..], operations).0, PruneFrom(order[i..], operations).1)
      {
        var id := buffer[i];
        assert id == buffer[i..length][0] == order[i];
        assert order[i..][1..] == order[i + 1..];
        ghost var before := buffer[..kept];
        if id in operations {
          if |operations| >= MAX_REMEMBERED && operations[id].state != Running {
            operations := operations - {id};
          } else {
            buffer[kept] := id;
            assert buffer[..kept + 1] == before + [id];
            Associative(before, [id], PruneFrom(order[i + 1..], operations).0);
            kept := kept + 1;
          }
        }
        i := i + 1;
        assert buffer[i..length] == order[i..];
      }
      assert order[i..] == [] && buffer[..kept] + [] == buffer[..kept];
      length := kept;
    }

    /** Appends in place while the buffer has room, and to a longer copy otherwise. */
    method Append(id: string)
      requires Valid()
      modifies this`buffer, this`length, buffer
      ensures Valid() && Order() == old(Order()) + [id] && (buffer == old(buffer) || fresh(buffer))
    {
      if length == buffer.Length {
        var longer := new string[2 * length + 1](_ => "");
        forall k | 0 <= k < length {
          longer[k] := buffer[k];
        }
        assert longer[..length] == buffer[..length];
        buffer := longer;
      }
      buffer[length] := id;
      length := length + 1;
      assert buffer[..length] == buffer[..length - 1] + [id];
    }

    method Start(id: string, runID: string, now: int) returns (operation: Operation)
      requires Valid()
      modifies this, buffer
      ensures Valid() && (buffer == old(buffer) || fresh(buffer))
      ensures operation == Operation(runID, Running, "", now, None)
      ensures (Order(), operations) == Starting(old(Order()), old(operations), id, operation)
    {
      operation := Operation(runID, Running, "", now, None);
      PruneLocked();
      operations := operations[id := operation];
      Append(id);
    }

    method Observe(id: string, error: Option<string>, now: int)
      requires Valid()
      modifies this`operations
      ensures operations == Observing(old(operations), id, error, now)
    {
      if id in operations {
        var operation := operations[id].(state := Succeeded);
        if error.Some? {
          operation := operation.(state := Failed, error := error.value);
        }
        operations := operations[id := operation.(finishedAt := Some(now))];
      }
    }
  }

  // ---------------------------------------------------------------- whole runs

  /** Starting an operation keeps the order a list of the keys exactly when its id is not remembered. */
  lemma StartKeepsIff(order: seq<string>, operations: Operations, id: string, operation: Operation)
    requires Lists(order, operations)
    ensures Lists(Starting(order, operations, id, operation).0, Starting(order, operations, id, operation).1)
       <==> id !in Prune(order, operations).1
  {
    var (kept, rest) := Prune(order, operations);
    PruneMeans(order, operations);
    AppendDistinct(kept, id);
    hide Prune, Pruned, Distinct;
    assert forall x :: x in kept + [id] <==> x in kept || x == id;
  }

  lemma AppendDistinct(s: seq<string>, id: string)
    requires Distinct(s)
    ensures Distinct(s + [id]) <==> id !in s
  {
    if id in s {
      var i :| 0 <= i < |s| && s[i] == id;
      assert (s + [id])[i] == (s + [id])[|s|];
    }
  }

  datatype Event = Start(id: string, runID: string, now: int) | Observe(id: string, error: Option<string>, now: int)

  datatype World = World(order: seq<string>, operations: Operations, started: seq<string>)

  function Step(w: World, e: Event): World {
    match e
    case Start(id, runID, now) =>
      var (order, operations) := Starting(w.order, w.operations, id, Operation(runID, Running, "", now, None));
      World(order, operations, w.started + [id])
    case Observe(id, error, now) => w.(operations := Observing(w.operations, id, error, now))
  }

  function Run(events: seq<Event>): World
    decreases |events|
  {
    if events == [] then World([], map[], []) else Step(Run(events[..|events| - 1]), events[|events| - 1])
  }

  /** The ids drawn for the operations differ. */
  predicate FreshIDs(events: seq<Event>) {
    Distinct(Run(events).started)
  }

  lemma {:induction false} FreshPrefix(events: seq<Event>)
    requires events != [] && FreshIDs(events)
    ensures FreshIDs(events[..|events| - 1])
    ensures events[|events| - 1].Start? ==> events[|events| - 1].id !in Run(events[..|events| - 1]).started
  {
    var before, after := Run(events[..|events| - 1]).started, Run(events).started;
    assert forall i :: 0 <= i < |before| ==> after[i] == before[i];
    if events[|events| - 1].Start? {
      assert after[|before|] == events[|events| - 1].id;
    }
  }

  /** The order lists the operations once each, in the order in which they were started. */
  ghost predicate Inv(w: World) {
    && Lists(w.order, w.operations)
    && w.order == Keep(w.started, w.operations.Keys)
    && forall id :: id in w.operations ==> id in w.started
  }

  /** So it does in every reachable state. */
  lemma {:induction false} OrderListsOperations(events: seq<Event>)
    requires FreshIDs(events)
    ensures Inv(Run(events))
    decreases |events|
  {
    if events != [] {
      var w, e := Run(events[..|events| - 1]), events[|events| - 1];
      FreshPrefix(events);
      OrderListsOperations(events[..|events| - 1]);
      if e.Start? { StartKeepsOrder(w, e); } else { ObserveKeepsOrder(w, e); }
      hide Inv, Step;
    }
  }

  lemma ObserveKeepsOrder(w: World, e: Event)
    requires e.Observe? && Inv(w)
    ensures Inv(Step(w, e))
  {
    assert Step(w, e).operations.Keys == w.operations.Keys;
    hide Keep;
  }

  lemma StartKeepsOrder(w: World, e: Event)
    requires e.Start? && e.id !in w.started && Inv(w)
    ensures Inv(Step(w, e))
  {
    var (kept, rest) := Prune(w.order, w.operations);
    var operation := Operation(e.runID, Running, "", e.now, None);
    PruneMeans(w.order, w.operations);
    StartKeepsIff(w.order, w.operations, e.id, operation);
    KeepAgain(w.started, w.operations.Keys, rest.Keys);
    KeepSame(w.started, rest.Keys, rest[e.id := operation].Keys);
    KeepSnoc(w.started, e.id, rest[e.id := operation].Keys);
    hide Prune, Keep, OldestFirst, JustEnough;
  }

  function Observed(events: seq<Event>): set<string>
    decreases |events|
  {
    if events == [] then {}
    else
      var e := events[|events| - 1];
      Observed(events[..|events| - 1]) + if e.Observe? then {e.id} else {}
  }

  /** A restore that has not ended is always found, and found running. */
  lemma {:induction false} RunningIsRemembered(events: seq<Event>, id: string)
    requires FreshIDs(events) && id in Run(events).started && id !in Observed(events)
    ensures id in Run(events).operations && Run(events).operations[id].state == Running
    decreases |events|
  {
    if events != [] {
      var w, e := Run(events[..|events| - 1]), events[|events| - 1];
      FreshPrefix(events);
      OrderListsOperations(events[..|events| - 1]);
      if e.Observe? || e.id != id {
        RunningIsRemembered(events[..|events| - 1], id);
      }
      if e.Start? {
        PruneMeans(w.order, w.operations);
        hide Prune, OldestFirst, JustEnough, Keep;
        assert id in w.operations && w.operations[id].state == Running ==>
          !Removed(w.operations, Prune(w.order, w.operations).1, id);
      }
    }
  }
}
