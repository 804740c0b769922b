/** Preview and Import of backend/internal/service/importexport.go: what a preview counts is what an
    import of the same rows does. */
module ImportPreview {
  import opened Wrappers
  import opened MailboxTables
  import opened MailboxStore
  import opened ImportCollisions

  /** A parsed row; the id of its mailbox is the digest of provider and address. */
  datatype Row = Row(line: nat, errors: seq<string>, mailbox: Mailbox)

  datatype Action = DoCreate | DoUpdate | DoSkip | DoError | DoNothing

  datatype PreviewRow = PreviewRow(line: nat, known: bool, duplicate: bool, action: Action, errors: seq<string>)

  datatype Preview = Preview(rows: seq<PreviewRow>, valid: nat, invalid: nat, created: nat, conflicts: nat)

  datatype RowError = RowError(line: nat, errors: seq<string>)

  datatype Commit = Commit(tally: Tally, rowErrors: seq<RowError>, valid: nat, invalid: nat, mailboxes: nat,
      aliases: nat)

  // ---------------------------------------------------------------- preview

  /** The identities of the valid rows. */
  function Seen(rows: seq<Row>): set<Identity>
    decreases |rows|
  {
    if rows == [] then {}
    else
      Seen(rows[..|rows| - 1])
      + if rows[|rows| - 1].errors == [] then {MailboxIdentity(rows[|rows| - 1].mailbox)} else {}
  }

  function ConflictAction(strategy: Strategy): Action {
    match strategy case Update => DoUpdate case Error => DoError case _ => DoSkip
  }

  function PreviewOne(t: Tables, seen: set<Identity>, row: Row, strategy: Strategy): PreviewRow {
    if row.errors != [] then PreviewRow(row.line, false, false, DoNothing, row.errors)
    else
      var identity := MailboxIdentity(row.mailbox);
      var conflict := identity in t.mailboxByIdentity || identity in seen;
      PreviewRow(row.line, identity in t.mailboxByIdentity, identity in seen, if conflict then ConflictAction(strategy)
        else DoCreate, [])
  }

  function AddRow(p: Preview, row: PreviewRow): Preview {
    var p1 := p.(rows := p.rows + [row]);
    if row.action == DoNothing then p1.(invalid := p.invalid + 1)
    else if row.action == DoCreate then p1.(valid := p.valid + 1, created := p.created + 1)
    else p1.(valid := p.valid + 1, conflicts := p.conflicts + 1)
  }

  function PreviewOf(t: Tables, rows: seq<Row>, strategy: Strategy): Preview
    decreases |rows|
  {
    if rows == [] then Preview([], 0, 0, 0, 0)
    else
      var p := PreviewOf(t, rows[..|rows| - 1], strategy);
      AddRow(p, PreviewOne(t, Seen(rows[..|rows| - 1]), rows[|rows| - 1], strategy))
  }

  lemma PreviewSnoc(t: Tables, rows: seq<Row>, i: nat, strategy: Strategy)
    requires i < |rows|
    ensures PreviewOf(t, rows[..i + 1], strategy)
            == AddRow(PreviewOf(t, rows[..i], strategy), PreviewOne(t, Seen(rows[..i]), rows[i], strategy))
    ensures Seen(rows[..i + 1]) == Seen(rows[..i])
            + if rows[i].errors == [] then {MailboxIdentity(rows[i].mailbox)} else {}
  {
    assert rows[..i + 1][..i] == rows[..i];
  }

  /** The body of the preview loop. */
  method PreviewNext(store: Store, before: Preview, seen: set<Identity>, row: Row,
      strategy: Strategy) returns (preview: Preview, seen': set<Identity>)
    ensures preview == AddRow(before, PreviewOne(store.View(), seen, row, strategy))
    ensures seen' == seen + if row.errors == [] then {MailboxIdentity(row.mailbox)} else {}
  {
    preview, seen' := before, seen;
    var action, known, duplicate := DoNothing, false, false;
    if row.errors == [] {
      var identity := MailboxIdentity(row.mailbox);
      if identity in seen {
        duplicate := true;
      } else {
        seen' := seen + {identity};
      }
      known := identity in store.mailboxByIdentity;
      if known || duplicate {
        preview := preview.(conflicts := preview.conflicts + 1);
        match strategy {
          case Update => action := DoUpdate;
          case Error => action := DoError;
          case _ => action := DoSkip;
        }
      } else {
        action := DoCreate;
        preview := preview.(created := preview.created + 1);
      }
      preview := preview.(valid := preview.valid + 1);
    } else {
      preview := preview.(invalid := preview.invalid + 1);
    }
    preview := preview.(rows := preview.rows + [PreviewRow(row.line, known, duplicate, action, row.errors)]);
  }

  method PreviewImport(store: Store, rows: seq<Row>, strategy: Strategy) returns (preview: Preview)
    ensures preview == PreviewOf(store.View(), rows, strategy)
  {
    preview := Preview([], 0, 0, 0, 0);
    var seen: set<Identity> := {};
    assert preview == PreviewOf(store.View(), rows[..0], strategy) && seen == Seen(rows[..0]);
    hide PreviewOf, Seen, PreviewOne, AddRow;
    for i := 0 to |rows|
      invariant seen == Seen(rows[..i]) && preview == PreviewOf(store.View(), rows[..i], strategy)
    {
      PreviewSnoc(store.View(), rows, i, strategy);
      preview, seen := PreviewNext(store, preview, seen, rows[i], strategy);
    }
    assert rows[..|rows|] == rows;
  }

  // ---------------------------------------------------------------- import

  function NormalizeStrategy(strategy: Strategy): Strategy {
    if strategy.Unknown? then Skip else strategy
  }

  /** Sealing the secrets of a row; it keeps the mailbox. */
  type Sealer = Row -> Result<Item, Failure>

  ghost predicate KeepsMailbox(seal: Sealer) {
    forall row :: seal(row).Ok? ==> seal(row).value.mailbox == row.mailbox
  }

  function SealedItems(rows: seq<Row>, seal: Sealer): Result<seq<Item>, Failure>
    decreases |rows|
  {
    if rows == [] then Ok([])
    else
      var before := SealedItems(rows[..|rows| - 1], seal);
      if before.Err? || rows[|rows| - 1].errors != [] then before
      else
        var item := seal(rows[|rows| - 1]);
        if item.Err? then Err(item.error) else Ok(before.value + [item.value])
  }

  function RowErrors(rows: seq<Row>): seq<RowError>
    decreases |rows|
  {
    if rows == [] then []
    else
      var last := rows[|rows| - 1];
      RowErrors(rows[..|rows| - 1]) + if last.errors != [] then [RowError(last.line, last.errors)] else []
  }

  function ImportOf(t: Tables, rows: seq<Row>, seal: Sealer, strategy: Strategy): (Tables, Result<Commit, Failure>) {
    match SealedItems(rows, seal)
    case Err(e) => (t, Err(e))
    case Ok(items) =>
      var (t', r) := ImportMailboxes(t, items, NormalizeStrategy(strategy));
      if r.Err? then (t', Err(r.error))
      else (t', Ok(Commit(r.value, RowErrors(rows), |items|, |RowErrors(rows)|, |t'.mailboxes|, |t'.aliases|)))
  }

  lemma {:induction false} SealingFails(rows: seq<Row>, i: nat, seal: Sealer)
    requires i <= |rows| && SealedItems(rows[..i], seal).Err?
    ensures SealedItems(rows, seal) == SealedItems(rows[..i], seal)
    decreases |rows|
  {
    if i < |rows| {
      assert rows[..|rows| - 1][..i] == rows[..i];
      SealingFails(rows[..|rows| - 1], i, seal);
    } else {
      assert rows[..i] == rows;
    }
  }

  method Import(store: Store, rows: seq<Row>, seal: Sealer, strategy: Strategy) returns (r: Result<Commit, Failure>)
    modifies store
    ensures (store.View(), r) == ImportOf(old(store.View()), rows, seal, strategy)
  {
    var items: seq<Item>, rowErrors: seq<RowError> := [], [];
    for i := 0 to |rows|
      invariant SealedItems(rows[..i], seal) == Ok(items) && rowErrors == RowErrors(rows[..i])
    {
      assert rows[..i + 1][..i] == rows[..i];
      var row := rows[i];
      if row.errors != [] {
        rowErrors := rowErrors + [RowError(row.line, row.errors)];
        continue;
      }
      var item := seal(row);
      if item.Err? {
        SealingFails(rows, i + 1, seal);
        return Err(item.error);
      }
      items := items + [item.value];
    }
    assert rows[..|rows|] == rows;
    var result := Tally(0, 0, 0, []);
    hide SealedItems, RowErrors, ImportOne;
    if |items| > 0 {
      var imported := store.ImportMailboxes(items, NormalizeStrategy(strategy));
      if imported.Err? {
        return Err(imported.error);
      }
      result := imported.value;
    }
    r := Ok(Commit(result, rowErrors, |items|, |rowErrors|, |store.mailboxes|, |store.aliases|));
  }

  // ---------------------------------------------------------------- preview predicts import

  /** Two parses of one request: times and drawn pickup keys differ, nothing that a preview sees does. */
  predicate SameRequest(a: seq<Row>, b: seq<Row>) {
    && |a| == |b|
    && forall i :: 0 <= i < |a| ==>
      a[i].errors == b[i].errors && MailboxIdentity(a[i].mailbox) == MailboxIdentity(b[i].mailbox)
  }

  /** What the tally of an import has in common with a preview. */
  predicate Predicts(p: Preview, tally: Tally, strategy: Strategy) {
    && tally.created == p.created
    && |tally.ids| == tally.created + tally.updated
    && match strategy
       case Update => tally.updated == p.conflicts && tally.skipped == 0
       case Error => p.conflicts == 0 && tally.updated == 0 && tally.skipped == 0
       case _ => tally.skipped == p.conflicts && tally.updated == 0
  }

  lemma RestFailsByCollision(t: Tables, item: Item, mailboxID: string, isNew: bool)
    ensures ImportRest(t, item, mailboxID, isNew).Err? ==> ImportRest(t, item, mailboxID, isNew).error == Collision
  {
    hide ImportCredential, ImportAccount, ImportPlatformCredential;
  }

  predicate Tallies(known: bool, strategy: Strategy, tally: Tally, tally': Tally) {
    && tally'.created == tally.created + (if known then 0 else 1)
    && tally'.updated == tally.updated + (if known && strategy == Update then 1 else 0)
    && tally'.skipped == tally.skipped + (if known && strategy == Skip then 1 else 0)
    && |tally'.ids| == |tally.ids| + (if known && strategy == Skip then 0 else 1)
  }

  /** What importing one item does to the tally. */
  lemma ImportOneTallies(t: Tables, tally: Tally, item: Item, strategy: Strategy)
    requires !strategy.Unknown?
    ensures var known := MailboxIdentity(item.mailbox) in t.mailboxByIdentity;
            && (known && strategy == Error ==> ImportOne(t, tally, item, strategy) == Err(Conflict))
            && match ImportOne(t, tally, item, strategy)
               case Err(e) => e == Collision || (e == Conflict && known && strategy == Error)
               case Ok((t', tally')) => Tallies(known, strategy, tally, tally')
  {
    hide ImportRest;
    var identity := MailboxIdentity(item.mailbox);
    if identity in t.mailboxByIdentity {
      var id := t.mailboxByIdentity[identity];
      var kept := if id in t.mailboxes then item.mailbox.(id := id, createdAt := t.mailboxes[id].createdAt)
        else item.mailbox.(id := id);
      RestFailsByCollision(t.(mailboxes := t.mailboxes[id := kept]), item, id, false);
    } else {
      var t1 := t.(mailboxes := t.mailboxes[item.mailbox.id := item.mailbox],
                   mailboxByIdentity := t.mailboxByIdentity[identity := item.mailbox.id]);
      RestFailsByCollision(t1, item, item.mailbox.id, true);
    }
  }

  /** The outcome of an import against a preview: it does what the preview says and knows the identities
      of its rows, or it fails because of a collision or of a conflict that the preview shows. */
  ghost predicate AsPreviewed(r: Result<(Tables, Tally), Failure>, p: Preview, known: set<Identity>,
      strategy: Strategy) {
    match r
    case Ok((t, tally)) => Consistent(t) && Predicts(p, tally, strategy) && t.mailboxByIdentity.Keys == known
    case Err(e) => e == Collision || (e == Conflict && strategy == Error && p.conflicts > 0)
  }

  /** One row: without a collision the import does what the preview says. */
  lemma RowPredicts(t0: Tables, t: Tables, seen: set<Identity>, p: Preview, tally: Tally, row: Row, item: Item,
      strategy: Strategy)
    requires Consistent(t) && !strategy.Unknown? && row.errors == []
             && MailboxIdentity(item.mailbox) == MailboxIdentity(row.mailbox)
    requires t.mailboxByIdentity.Keys == t0.mailboxByIdentity.Keys + seen && Predicts(p, tally, strategy)
    ensures AsPreviewed(ImportOne(t, tally, item, strategy), AddRow(p, PreviewOne(t0, seen, row, strategy)),
                        t0.mailboxByIdentity.Keys + (seen + {MailboxIdentity(row.mailbox)}), strategy)
  {
    hide Consistent, ImportOne, Predicts, Tallies, MailboxIdentity;
    var identity, r := MailboxIdentity(item.mailbox), ImportOne(t, tally, item, strategy);
    assert identity in t.mailboxByIdentity <==> identity in t0.mailboxByIdentity || identity in seen by {
      assert identity in t.mailboxByIdentity.Keys <==> identity in t0.mailboxByIdentity.Keys + seen;
    }
    ImportOneKeeps(t, tally, item, strategy);
    ImportOneTallies(t, tally, item, strategy);
    RowShows(t0, seen, p, row, strategy);
    hide PreviewOne, AddRow;
    if r.Ok? {
      PredictsStep(p, PreviewOne(t0, seen, row, strategy), strategy, identity in t.mailboxByIdentity, tally, r.value.1);
      assert t.mailboxByIdentity.Keys + {identity} == t0.mailboxByIdentity.Keys + (seen + {identity});
    }
  }

  lemma RowShows(t: Tables, seen: set<Identity>, p: Preview, row: Row, strategy: Strategy)
    requires row.errors == []
    ensures var identity, shown := MailboxIdentity(row.mailbox), PreviewOne(t, seen, row, strategy);
            var known := identity in t.mailboxByIdentity || identity in seen;
            && shown.action == (if known then ConflictAction(strategy) else DoCreate)
            && (known ==> AddRow(p, shown).conflicts > 0)
  {
  }

  lemma PredictsStep(p: Preview, row: PreviewRow, strategy: Strategy, known: bool, tally: Tally, tally': Tally)
    requires Predicts(p, tally, strategy) && Tallies(known, strategy, tally, tally') && !strategy.Unknown?
    requires row.action == if known then ConflictAction(strategy) else DoCreate
    requires !(known && strategy == Error)
    ensures Predicts(AddRow(p, row), tally', strategy)
  {
  }

  /** The items that the valid rows of another parse of the request are sealed into. */
  predicate ItemsOf(rows: seq<Row>, items: seq<Item>)
    decreases |rows|
  {
    if rows == [] then items == []
    else
      var last := rows[|rows| - 1];
      if last.errors != [] then ItemsOf(rows[..|rows| - 1], items)
      else
        && items != [] && MailboxIdentity(items[|items| - 1].mailbox) == MailboxIdentity(last.mailbox)
        && ItemsOf(rows[..|rows| - 1], items[..|items| - 1])
  }

  lemma {:induction false} SealingKeepsIdentities(rows: seq<Row>, rows': seq<Row>, seal: Sealer)
    requires KeepsMailbox(seal) && SameRequest(rows, rows') && SealedItems(rows', seal).Ok?
    ensures ItemsOf(rows, SealedItems(rows', seal).value)
    decreases |rows|
  {
    if rows != [] {
      var n := |rows| - 1;
      assert SameRequest(rows[..n], rows'[..n]);
      var before, last := SealedItems(rows'[..n], seal), rows'[n];
      assert before.Ok?;
      SealingKeepsIdentities(rows[..n], rows'[..n], seal);
      hide SealedItems, ItemsOf;
      SealedOneMore(rows', seal);
      if last.errors == [] {
        assert (before.value + [seal(last).value])[..|before.value|] == before.value;
      }
      ItemsOneMore(rows, SealedItems(rows', seal).value);
    }
  }

  lemma SealedOneMore(rows: seq<Row>, seal: Sealer)
    requires rows != [] && SealedItems(rows, seal).Ok?
    ensures var n := |rows| - 1;
            && SealedItems(rows[..n], seal).Ok?
            && (rows[n].errors != [] ==> SealedItems(rows, seal) == SealedItems(rows[..n], seal))
            && (rows[n].errors == [] ==>
              seal(rows[n]).Ok? && SealedItems(rows, seal).value
                  == SealedItems(rows[..n], seal).value + [seal(rows[n]).value])
  {
  }

  lemma ItemsOneMore(rows: seq<Row>, items: seq<Item>)
    requires rows != []
    ensures var n, m := |rows| - 1, |items| - 1;
            ItemsOf(rows, items) <==>
              if rows[n].errors != [] then ItemsOf(rows[..n], items)
              else
                && items != []
                && MailboxIdentity(items[m].mailbox) == MailboxIdentity(rows[n].mailbox)
                && ItemsOf(rows[..n], items[..m])
  {
  }

  /** The import of the items against the preview of the rows, row by row. */
  lemma {:induction false} ItemsPredicted(t: Tables, rows: seq<Row>, items: seq<Item>, strategy: Strategy)
    requires Consistent(t) && !strategy.Unknown? && ItemsOf(rows, items)
    ensures AsPreviewed(ImportItems(t, Tally(0, 0, 0, []), items, strategy), PreviewOf(t, rows, strategy),
                        t.mailboxByIdentity.Keys + Seen(rows), strategy)
    decreases |rows|
  {
    hide Consistent, ImportOne, PreviewOne, AddRow, PreviewOf, Seen, Predicts, ItemsOf, AsPreviewed, ImportItems;
    if rows == [] {
      NothingPredicted(t, items, strategy);
    } else {
      var n, m := |rows| - 1, |items| - 1;
      assert rows[..n + 1] == rows;
      ItemsOneMore(rows, items);
      PreviewSnoc(t, rows, n, strategy);
      if rows[n].errors != [] {
        ItemsPredicted(t, rows[..n], items, strategy);
        assert Seen(rows) == Seen(rows[..n]);
        InvalidRowCounts(t, rows[..n], rows[n], strategy, ImportItems(t, Tally(0, 0, 0, []), items, strategy),
          t.mailboxByIdentity.Keys + Seen(rows));
      } else {
        ItemsPredicted(t, rows[..n], items[..m], strategy);
        ImportItemsSnoc(t, Tally(0, 0, 0, []), items, strategy);
        ValidRowPredicted(t, rows[..n], rows[n], ImportItems(t, Tally(0, 0, 0, []), items[..m], strategy), items[m],
          strategy);
      }
    }
  }

  lemma NothingPredicted(t: Tables, items: seq<Item>, strategy: Strategy)
    requires Consistent(t) && ItemsOf([], items)
    ensures AsPreviewed(ImportItems(t, Tally(0, 0, 0, []), items, strategy), PreviewOf(t, [], strategy),
            t.mailboxByIdentity.Keys + Seen([]), strategy)
  {
    hide Consistent, ImportOne, PreviewOne, AddRow;
    assert items == [] && Seen([]) == {};
    assert ImportItems(t, Tally(0, 0, 0, []), items, strategy) == Ok((t, Tally(0, 0, 0, [])));
    assert PreviewOf(t, [], strategy) == Preview([], 0, 0, 0, 0);
    assert t.mailboxByIdentity.Keys + {} == t.mailboxByIdentity.Keys;
    hide ImportItems, PreviewOf, ItemsOf, Seen;
  }

  lemma ValidRowPredicted(t: Tables, rows: seq<Row>, row: Row, before: Result<(Tables, Tally), Failure>, item: Item,
      strategy: Strategy)
    requires Consistent(t) && !strategy.Unknown? && row.errors == []
             && MailboxIdentity(item.mailbox) == MailboxIdentity(row.mailbox)
    requires AsPreviewed(before, PreviewOf(t, rows, strategy), t.mailboxByIdentity.Keys + Seen(rows), strategy)
    ensures AsPreviewed(if before.Err? then before else ImportOne(before.value.0, before.value.1, item, strategy),
                        AddRow(PreviewOf(t, rows, strategy), PreviewOne(t, Seen(rows), row, strategy)),
                        t.mailboxByIdentity.Keys + (Seen(rows) + {MailboxIdentity(row.mailbox)}), strategy)
  {
    hide Consistent, ImportOne, PreviewOf, Seen, Predicts;
    if before.Ok? {
      RowPredicts(t, before.value.0, Seen(rows), PreviewOf(t, rows, strategy), before.value.1, row, item, strategy);
      hide AsPreviewed, AddRow;
    }
  }

  lemma InvalidRowCounts(t: Tables, rows: seq<Row>, row: Row, strategy: Strategy, r: Result<(Tables, Tally), Failure>,
      known: set<Identity>)
    requires row.errors != [] && AsPreviewed(r, PreviewOf(t, rows, strategy), known, strategy)
    ensures AsPreviewed(r, AddRow(PreviewOf(t, rows, strategy), PreviewOne(t, Seen(rows), row, strategy)), known,
            strategy)
  {
    hide Consistent, PreviewOf;
  }

  predicate DerivedRows(rows: seq<Row>, idOf: MailboxIDs) {
    forall i :: 0 <= i < |rows| && rows[i].errors == [] ==> rows[i].mailbox.id == idOf(MailboxIdentity(rows[i].mailbox))
  }

  lemma {:induction false} SealedDerived(rows: seq<Row>, seal: Sealer, idOf: MailboxIDs)
    requires DerivedRows(rows, idOf) && KeepsMailbox(seal) && SealedItems(rows, seal).Ok?
    ensures DerivedItems(SealedItems(rows, seal).value, idOf)
    decreases |rows|
  {
    if rows != [] {
      var n := |rows| - 1;
      SealedOneMore(rows, seal);
      SealedDerived(rows[..n], seal, idOf);
      hide SealedItems;
      assert rows[n].errors == [] ==> seal(rows[n]).value.mailbox == rows[n].mailbox;
    }
  }

  /** A preview predicts the import of the same request on the same store. The import collides exactly
      when a pickup key clashes. Otherwise rows shown as new are created; rows shown as conflicts are
      skipped or updated, or make an import that treats conflicts as errors fail, which it does for no
      other reason. */
  lemma PreviewPredictsImport(t: Tables, rows: seq<Row>, rows': seq<Row>, seal: Sealer, strategy: Strategy,
      idOf: MailboxIDs)
    requires Consistent(t) && DerivedIDs(t.mailboxes, idOf) && Injective(idOf) && DerivedRows(rows', idOf)
    requires KeepsMailbox(seal) && SameRequest(rows, rows') && SealedItems(rows', seal).Ok?
    ensures var p, clash := PreviewOf(t, rows, strategy),
            PickupKeysClash(t, SealedItems(rows', seal).value, NormalizeStrategy(strategy));
            var (t', r) := ImportOf(t, rows', seal, strategy);
            && (r == Err(Collision) <==> clash)
            && (strategy == Error && !clash ==> (r.Err? <==> p.conflicts > 0))
            && (strategy != Error && !clash ==> r.Ok?)
            && (r.Ok? ==> Predicts(p, r.value.tally, NormalizeStrategy(strategy)))
            && (r.Err? ==> t' == t)
  {
    var items, normalized := SealedItems(rows', seal).value, NormalizeStrategy(strategy);
    SealingKeepsIdentities(rows, rows', seal);
    SealedDerived(rows', seal, idOf);
    SameCounts(t, rows, strategy);
    hide Consistent, ImportItems, SealedItems, ItemsOf, PreviewOf, RowErrors, Seen, AsPreviewed, KeepsMailbox,
      PickupKeysClash,
         DerivedIDs, DerivedItems, DerivedRows, Injective;
    CollidesIffPickupKeysClash(t, Tally(0, 0, 0, []), items, normalized, idOf);
    ItemsPredicted(t, rows, items, normalized);
    WhatPreviewed(ImportItems(t, Tally(0, 0, 0, []), items, normalized), PreviewOf(t, rows, normalized),
                  t.mailboxByIdentity.Keys + Seen(rows), normalized);
    hide SameRequest;
  }

  lemma WhatPreviewed(r: Result<(Tables, Tally), Failure>, p: Preview, known: set<Identity>, strategy: Strategy)
    requires AsPreviewed(r, p, known, strategy)
    ensures r.Ok? ==> Predicts(p, r.value.1, strategy) && (strategy == Error ==> p.conflicts == 0)
    ensures r.Err? ==> r.error == Collision || (strategy == Error && p.conflicts > 0)
  {
    hide Consistent;
  }

  /** A preview counts the same under an unknown strategy as under skip. */
  lemma {:induction false} SameCounts(t: Tables, rows: seq<Row>, strategy: Strategy)
    ensures var p, q := PreviewOf(t, rows, strategy), PreviewOf(t, rows, NormalizeStrategy(strategy));
            p.created == q.created && p.conflicts == q.conflicts && p.valid == q.valid && p.invalid == q.invalid
    decreases |rows|
  {
    if rows != [] { SameCounts(t, rows[..|rows| - 1], strategy); }
  }

  // ---------------------------------------------------------------- what a preview shows

  predicate NamedBefore(rows: seq<Row>, i: nat)
    requires i < |rows|
  {
    exists j :: 0 <= j < i && rows[j].errors == []
                && MailboxIdentity(rows[j].mailbox) == MailboxIdentity(rows[i].mailbox)
  }

  lemma LastRowShown(t: Tables, rows: seq<Row>, strategy: Strategy)
    requires rows != []
    ensures var n := |rows| - 1;
            var shown := PreviewOne(t, Seen(rows[..n]), rows[n], strategy);
            && shown.line == rows[n].line && shown.errors == rows[n].errors
            && (rows[n].errors != [] <==> shown.action == DoNothing)
            && (rows[n].errors == [] ==>
                  && (shown.known <==> MailboxIdentity(rows[n].mailbox) in t.mailboxByIdentity)
                  && (shown.duplicate <==> NamedBefore(rows, n))
                  && shown.action == if shown.known || shown.duplicate then ConflictAction(strategy) else DoCreate)
  {
    var n := |rows| - 1;
    SeenMeans(rows[..n], MailboxIdentity(rows[n].mailbox));
    hide Seen, MailboxIdentity;
    assert forall j :: 0 <= j < n ==> rows[..n][j] == rows[j];
  }

  /** Row by row: whether the store knows the mailbox, whether an earlier valid row names it, and the
      action that follows. */
  lemma {:induction false} PreviewRowMeans(t: Tables, rows: seq<Row>, strategy: Strategy, i: nat)
    requires i < |rows|
    ensures var p := PreviewOf(t, rows, strategy);
            && |p.rows| == |rows|
            && var shown := p.rows[i];
               && shown.line == rows[i].line && shown.errors == rows[i].errors
               && (rows[i].errors != [] <==> shown.action == DoNothing)
               && (rows[i].errors == [] ==>
                     && (shown.known <==> MailboxIdentity(rows[i].mailbox) in t.mailboxByIdentity)
                     && (shown.duplicate <==> NamedBefore(rows, i))
                     && shown.action == if shown.known || shown.duplicate then ConflictAction(strategy) else DoCreate)
    decreases |rows|
  {
    hide PreviewOf, Seen, MailboxIdentity, PreviewOne;
    var n := |rows| - 1;
    assert rows[..n + 1] == rows;
    PreviewSnoc(t, rows, n, strategy);
    PreviewLength(t, rows[..n], strategy);
    if i < n {
      PreviewRowMeans(t, rows[..n], strategy, i);
      assert forall j :: 0 <= j < i ==> rows[..n][j] == rows[j];
      assert NamedBefore(rows[..n], i) == NamedBefore(rows, i);
      hide NamedBefore;
    } else {
      hide NamedBefore;
      LastRowShown(t, rows, strategy);
    }
  }

  lemma {:induction false} PreviewLength(t: Tables, rows: seq<Row>, strategy: Strategy)
    ensures var p := PreviewOf(t, rows, strategy);
            |p.rows| == |rows| == p.valid + p.invalid && p.valid == p.created + p.conflicts
    decreases |rows|
  {
    if rows != [] { PreviewLength(t, rows[..|rows| - 1], strategy); }
  }

  lemma {:induction false} SeenMeans(rows: seq<Row>, identity: Identity)
    ensures identity in Seen(rows) <==>
            exists j :: 0 <= j < |rows| && rows[j].errors == [] && MailboxIdentity(rows[j].mailbox) == identity
    decreases |rows|
  {
    if rows != [] {
      var n := |rows| - 1;
      SeenMeans(rows[..n], identity);
      assert forall j :: 0 <= j < n ==> rows[..n][j] == rows[j];
    }
  }
}
