/** When a bulk import of backend/internal/repository/memory/store.go collides. Mailbox ids are digests
    of provider and address (backend/internal/domain/id.go), here any injective function of the
    identity; ids of pickup keys are drawn, and their digests come from the imported file. */
module ImportCollisions {
  import opened Wrappers
  import opened MailboxTables

  type MailboxIDs = Identity -> string

  ghost predicate Injective(idOf: MailboxIDs) {
    forall a, b :: idOf(a) == idOf(b) ==> a == b
  }

  predicate DerivedIDs(mailboxes: map<string, Mailbox>, idOf: MailboxIDs) {
    forall id :: id in mailboxes ==> id == idOf(MailboxIdentity(mailboxes[id]))
  }

  predicate DerivedItem(item: Item, idOf: MailboxIDs) {
    item.mailbox.id == idOf(MailboxIdentity(item.mailbox))
  }

  predicate DerivedItems(items: seq<Item>, idOf: MailboxIDs) {
    forall i :: 0 <= i < |items| ==> DerivedItem(items[i], idOf)
  }

  // ---------------------------------------------------------------- mailbox ids do not collide

  lemma ExistingID(t: Tables, identity: Identity, idOf: MailboxIDs)
    requires Consistent(t) && DerivedIDs(t.mailboxes, idOf) && identity in t.mailboxByIdentity
    ensures t.mailboxByIdentity[identity] == idOf(identity) && idOf(identity) in t.mailboxes
  {
    IndexedMailbox(t, identity);
    hide Consistent;
  }

  /** The id of a mailbox that the store does not know is free. */
  lemma NewIDIsFree(t: Tables, identity: Identity, idOf: MailboxIDs)
    requires Consistent(t) && DerivedIDs(t.mailboxes, idOf) && Injective(idOf) && identity !in t.mailboxByIdentity
    ensures idOf(identity) !in t.mailboxes
  {
    if idOf(identity) in t.mailboxes {
      LookupIsScan(t.mailboxes, t.mailboxByIdentity, MailboxIdentity, identity);
    }
  }

  /** Whether importing the item writes to its mailbox. */
  predicate Writes(t: Tables, item: Item, strategy: Strategy) {
    MailboxIdentity(item.mailbox) !in t.mailboxByIdentity || strategy == Update
  }

  /** The mailbox that holds a pickup digest. */
  function HolderOf(t: Tables, digest: string): Option<string> {
    if digest in t.pickupByDigest && t.pickupByDigest[digest] in t.pickupKeys
    then Some(t.pickupKeys[t.pickupByDigest[digest]].mailboxID) else None
  }

  predicate Carries(item: Item, digest: string) {
    item.pickupKey.Some? && item.pickupKey.value.digest == digest
  }

  /** The pickup key of an item cannot be stored: its digest belongs to another mailbox, or its digest
      is new and its id taken. */
  predicate Collides(t: Tables, item: Item) {
    && item.pickupKey.Some?
    && (var k := item.pickupKey.value;
        if k.digest in t.pickupByDigest then HolderOf(t, k.digest) != Some(item.mailbox.id) else k.id in t.pickupKeys)
  }

  /** What importing an item does to the pickup keys. */
  predicate KeysAfter(t: Tables, t': Tables, item: Item) {
    if item.pickupKey.None? || item.pickupKey.value.digest in t.pickupByDigest
    then t'.pickupKeys == t.pickupKeys && t'.pickupByDigest == t.pickupByDigest
    else
      var k := item.pickupKey.value;
      && t'.pickupKeys == t.pickupKeys[k.id := k.(mailboxID := item.mailbox.id)]
      && t'.pickupByDigest == t.pickupByDigest[k.digest := k.id]
  }

  lemma RestCollidesIff(t: Tables, item: Item, isNew: bool)
    ensures var r := ImportRest(t, item, item.mailbox.id, isNew);
            && (r.Err? <==> Collides(t, item)) && (r.Err? ==> r.error == Collision)
            && (r.Ok? ==> KeysAfter(t, r.value, item) && r.value.mailboxes == t.mailboxes)
  {
    hide ImportCredential, ImportAccount, ImportPlatformCredential;
  }

  /** One item of an import: it collides exactly in its pickup key, never in its mailbox id. */
  lemma OneCollidesIff(t: Tables, tally: Tally, item: Item, strategy: Strategy, idOf: MailboxIDs)
    requires Consistent(t) && DerivedIDs(t.mailboxes, idOf) && Injective(idOf) && DerivedItem(item, idOf)
    ensures var r := ImportOne(t, tally, item, strategy);
            && (r == Err(Collision) <==> Writes(t, item, strategy) && Collides(t, item))
            && (r.Err? && r.error != Collision ==>
                  r.error == Conflict && strategy == Error && MailboxIdentity(item.mailbox) in t.mailboxByIdentity)
            && (r.Ok? ==>
                  && (Writes(t, item, strategy) ==>
                    KeysAfter(t, r.value.0, item) && DerivedIDs(r.value.0.mailboxes, idOf))
                  && (!Writes(t, item, strategy) ==> r.value.0 == t))
  {
    hide ImportRest, Consistent, Collides, KeysAfter, Injective;
    var identity := MailboxIdentity(item.mailbox);
    if identity in t.mailboxByIdentity {
      ExistingID(t, identity, idOf);
      var kept := item.mailbox.(createdAt := t.mailboxes[item.mailbox.id].createdAt);
      var t1 := t.(mailboxes := t.mailboxes[item.mailbox.id := kept]);
      RestCollidesIff(t1, item, false);
      SamePickups(t, t1, item, ImportRest(t1, item, item.mailbox.id, false));
    } else {
      NewIDIsFree(t, identity, idOf);
      var t1 := t.(mailboxes := t.mailboxes[item.mailbox.id := item.mailbox],
                   mailboxByIdentity := t.mailboxByIdentity[identity := item.mailbox.id]);
      RestCollidesIff(t1, item, true);
      SamePickups(t, t1, item, ImportRest(t1, item, item.mailbox.id, true));
    }
  }

  lemma SamePickups(t: Tables, t1: Tables, item: Item, r: Result<Tables, Failure>)
    requires t1.pickupKeys == t.pickupKeys && t1.pickupByDigest == t.pickupByDigest
    ensures Collides(t1, item) == Collides(t, item)
    ensures r.Ok? ==> KeysAfter(t1, r.value, item) == KeysAfter(t, r.value, item)
  {
  }

  // ---------------------------------------------------------------- the condition, on store and file

  predicate SameMailbox(a: Item, b: Item) {
    MailboxIdentity(a.mailbox) == MailboxIdentity(b.mailbox)
  }

  /** The mailbox of the item is in the store or in an earlier item. */
  predicate Known(t: Tables, items: seq<Item>, i: nat)
    requires i < |items|
  {
    MailboxIdentity(items[i].mailbox) in t.mailboxByIdentity
      || exists j :: 0 <= j < i && SameMailbox(items[j], items[i])
  }

  /** The item gets to write to its mailbox. */
  predicate Applied(t: Tables, items: seq<Item>, strategy: Strategy, i: nat)
    requires i < |items|
  {
    match strategy
    case Update => true
    case Error => forall j :: 0 <= j <= i ==> !Known(t, items, j)
    case _ => !Known(t, items, i)
  }

  /** An earlier item that is applied carries the digest. */
  predicate CarriedBefore(t: Tables, items: seq<Item>, strategy: Strategy, n: nat, digest: string)
    requires n <= |items|
  {
    exists j :: 0 <= j < n && Applied(t, items, strategy, j) && Carries(items[j], digest)
  }

  /** The item stores its pickup key: it is the first to carry a digest that the store does not have. */
  predicate Brings(t: Tables, items: seq<Item>, strategy: Strategy, i: nat)
    requires i < |items|
  {
    && Applied(t, items, strategy, i) && items[i].pickupKey.Some?
    && items[i].pickupKey.value.digest !in t.pickupByDigest
    && !CarriedBefore(t, items, strategy, i, items[i].pickupKey.value.digest)
  }

  predicate BroughtBefore(t: Tables, items: seq<Item>, strategy: Strategy, n: nat, id: string)
    requires n <= |items|
  {
    exists j :: 0 <= j < n && Brings(t, items, strategy, j) && items[j].pickupKey.value.id == id
  }

  /** An applied item clashes when its digest belongs to another mailbox, in the store or through an
      earlier applied item, or when it brings a new digest under an id that is taken. */
  predicate ClashAt(t: Tables, items: seq<Item>, strategy: Strategy, i: nat)
    requires i < |items|
  {
    && Applied(t, items, strategy, i) && items[i].pickupKey.Some?
    && (var k := items[i].pickupKey.value;
        || (k.digest in t.pickupByDigest && HolderOf(t, k.digest) != Some(items[i].mailbox.id))
        || (exists j :: 0 <= j < i && Applied(t, items, strategy, j) && Carries(items[j], k.digest)
                        && items[j].mailbox.id != items[i].mailbox.id)
        || (Brings(t, items, strategy, i) && (k.id in t.pickupKeys || BroughtBefore(t, items, strategy, i, k.id))))
  }

  predicate PickupKeysClash(t: Tables, items: seq<Item>, strategy: Strategy) {
    exists i :: 0 <= i < |items| && ClashAt(t, items, strategy, i)
  }

  // ---------------------------------------------------------------- the condition is exact

  /** What the tables know of a digest after the first n items. */
  predicate TracksDigest(t: Tables, items: seq<Item>, strategy: Strategy, n: nat, t': Tables, digest: string)
    requires n <= |items|
  {
    && (digest in t'.pickupByDigest <==> digest in t.pickupByDigest || CarriedBefore(t, items, strategy, n, digest))
    && (digest in t.pickupByDigest ==> HolderOf(t', digest) == HolderOf(t, digest))
    && (digest !in t.pickupByDigest ==>
          forall j :: 0 <= j < n && Applied(t, items, strategy, j) && Carries(items[j], digest) ==>
            HolderOf(t', digest) == Some(items[j].mailbox.id))
  }

  predicate TracksID(t: Tables, items: seq<Item>, strategy: Strategy, n: nat, t': Tables, id: string)
    requires n <= |items|
  {
    id in t'.pickupKeys <==> id in t.pickupKeys || BroughtBefore(t, items, strategy, n, id)
  }

  predicate TracksMailbox(t: Tables, items: seq<Item>, n: nat, t': Tables, identity: Identity)
    requires n <= |items|
  {
    identity in t'.mailboxByIdentity <==>
      identity in t.mailboxByIdentity || exists j :: 0 <= j < n && MailboxIdentity(items[j].mailbox) == identity
  }

  ghost predicate Tracks(t: Tables, items: seq<Item>, strategy: Strategy, n: nat, t': Tables)
    requires n <= |items|
  {
    && (forall digest :: TracksDigest(t, items, strategy, n, t', digest))
    && (forall id :: TracksID(t, items, strategy, n, t', id))
    && (forall identity :: TracksMailbox(t, items, n, t', identity))
  }

  predicate NoClash(t: Tables, items: seq<Item>, strategy: Strategy, n: nat)
    requires n <= |items|
  {
    forall i :: 0 <= i < n ==> !ClashAt(t, items, strategy, i)
  }

  lemma NextKnown(t: Tables, items: seq<Item>, strategy: Strategy, n: nat, t': Tables)
    requires n < |items| && Tracks(t, items, strategy, n, t')
    ensures MailboxIdentity(items[n].mailbox) in t'.mailboxByIdentity <==> Known(t, items, n)
  {
    assert TracksMailbox(t, items, n, t', MailboxIdentity(items[n].mailbox));
  }

  /** While no item has clashed, the tables collide with the next item exactly when it clashes. */
  lemma NextClashes(t: Tables, items: seq<Item>, strategy: Strategy, n: nat, t': Tables)
    requires n < |items| && Tracks(t, items, strategy, n, t') && NoClash(t, items, strategy, n)
    requires Applied(t, items, strategy, n)
    ensures Collides(t', items[n]) <==> ClashAt(t, items, strategy, n)
  {
    if items[n].pickupKey.Some? {
      var k := items[n].pickupKey.value;
      assert TracksDigest(t, items, strategy, n, t', k.digest) && TracksID(t, items, strategy, n, t', k.id);
      hide Applied, Known, Tracks, HolderOf;
      if k.digest in t.pickupByDigest {
        HoldersAgree(t, items, strategy, n, k.digest);
      }
    }
  }

  /** Items before the first clash that carry a stored digest are of the mailbox that holds it. */
  lemma HoldersAgree(t: Tables, items: seq<Item>, strategy: Strategy, n: nat, digest: string)
    requires n <= |items| && NoClash(t, items, strategy, n) && digest in t.pickupByDigest
    ensures forall j :: 0 <= j < n && Applied(t, items, strategy, j) && Carries(items[j], digest) ==>
              HolderOf(t, digest) == Some(items[j].mailbox.id)
  {
    hide Applied, HolderOf;
    forall j | 0 <= j < n && Applied(t, items, strategy, j) && Carries(items[j], digest)
      ensures HolderOf(t, digest) == Some(items[j].mailbox.id)
    {
      assert !ClashAt(t, items, strategy, j);
    }
  }

  lemma NextWrites(t: Tables, items: seq<Item>, strategy: Strategy, n: nat, t': Tables)
    requires n < |items| && Tracks(t, items, strategy, n, t')
    requires strategy == Error ==> forall j :: 0 <= j < n ==> !Known(t, items, j)
    ensures Writes(t', items[n], strategy) <==> Applied(t, items, strategy, n)
  {
    NextKnown(t, items, strategy, n, t');
    hide Tracks, Known;
  }

  lemma CarriedNext(t: Tables, items: seq<Item>, strategy: Strategy, n: nat, digest: string)
    requires n < |items|
    ensures CarriedBefore(t, items, strategy, n + 1, digest) <==>
            CarriedBefore(t, items, strategy, n, digest)
              || (Applied(t, items, strategy, n) && Carries(items[n], digest))
  {
    hide Applied, Carries;
  }

  /** What one applied item does to the holder of a digest. */
  lemma HolderNext(t: Tables, t': Tables, item: Item, digest: string)
    requires IsIndex(t.pickupKeys, t.pickupByDigest, PickupDigest) && KeysAfter(t, t', item) && !Collides(t, item)
    ensures digest in t'.pickupByDigest <==> digest in t.pickupByDigest || Carries(item, digest)
    ensures digest in t.pickupByDigest ==> HolderOf(t', digest) == HolderOf(t, digest)
    ensures Carries(item, digest) ==> HolderOf(t', digest) == Some(item.mailbox.id)
  {
  }

  lemma NextDigest(t: Tables, items: seq<Item>, strategy: Strategy, n: nat, t': Tables, t'': Tables, digest: string)
    requires n < |items| && TracksDigest(t, items, strategy, n, t', digest)
    requires IsIndex(t'.pickupKeys, t'.pickupByDigest, PickupDigest)
    requires if Applied(t, items, strategy, n) then KeysAfter(t', t'', items[n]) && !Collides(t', items[n])
             else t''.pickupKeys == t'.pickupKeys && t''.pickupByDigest == t'.pickupByDigest
    ensures TracksDigest(t, items, strategy, n + 1, t'', digest)
  {
    CarriedNext(t, items, strategy, n, digest);
    if Applied(t, items, strategy, n) {
      HolderNext(t', t'', items[n], digest);
      hide HolderOf;
    }
    assert digest !in t.pickupByDigest && !CarriedBefore(t, items, strategy, n, digest) ==>
        forall j :: 0 <= j < n && Applied(t, items, strategy, j) ==> !Carries(items[j], digest);
    hide Applied, Carries, IsIndex, KeysAfter, Collides, CarriedBefore;
  }

  lemma NextID(t: Tables, items: seq<Item>, strategy: Strategy, n: nat, t': Tables, t'': Tables, id: string)
    requires n < |items| && TracksID(t, items, strategy, n, t', id)
    requires items[n].pickupKey.Some? ==> TracksDigest(t, items, strategy, n, t', items[n].pickupKey.value.digest)
    requires if Applied(t, items, strategy, n) then KeysAfter(t', t'', items[n]) else t''.pickupKeys == t'.pickupKeys
    ensures TracksID(t, items, strategy, n + 1, t'', id)
  {
    hide Applied, CarriedBefore, HolderOf;
    assert BroughtBefore(t, items, strategy, n + 1, id) <==>
           BroughtBefore(t, items, strategy, n, id)
             || (Brings(t, items, strategy, n) && items[n].pickupKey.value.id == id);
  }

  lemma NextMailbox(t: Tables, items: seq<Item>, n: nat, t': Tables, t'': Tables, identity: Identity)
    requires n < |items| && TracksMailbox(t, items, n, t', identity)
    requires t''.mailboxByIdentity.Keys == t'.mailboxByIdentity.Keys + {MailboxIdentity(items[n].mailbox)}
    ensures TracksMailbox(t, items, n + 1, t'', identity)
  {
    assert identity in t''.mailboxByIdentity <==> identity in t''.mailboxByIdentity.Keys;
    assert identity in t'.mailboxByIdentity <==> identity in t'.mailboxByIdentity.Keys;
    assert (exists j :: 0 <= j < n + 1 && MailboxIdentity(items[j].mailbox) == identity) <==>
           (exists j :: 0 <= j < n && MailboxIdentity(items[j].mailbox) == identity)
             || MailboxIdentity(items[n].mailbox) == identity;
  }

  lemma NextTracks(t: Tables, items: seq<Item>, strategy: Strategy, n: nat, t': Tables, t'': Tables)
    requires n < |items| && Tracks(t, items, strategy, n, t') && IsIndex(t'.pickupKeys, t'.pickupByDigest, PickupDigest)
    requires t''.mailboxByIdentity.Keys == t'.mailboxByIdentity.Keys + {MailboxIdentity(items[n].mailbox)}
    requires if Applied(t, items, strategy, n) then KeysAfter(t', t'', items[n]) && !Collides(t', items[n])
             else t''.pickupKeys == t'.pickupKeys && t''.pickupByDigest == t'.pickupByDigest
    ensures Tracks(t, items, strategy, n + 1, t'')
  {
    hide Applied, KeysAfter, Collides, IsIndex, TracksDigest, TracksID, TracksMailbox;
    var m := n + 1;
    forall digest ensures TracksDigest(t, items, strategy, m, t'', digest) {
      NextDigest(t, items, strategy, n, t', t'', digest);
    }
    forall id ensures TracksID(t, items, strategy, m, t'', id) {
      NextID(t, items, strategy, n, t', t'', id);
    }
    forall identity ensures TracksMailbox(t, items, m, t'', identity) {
      NextMailbox(t, items, n, t', t'', identity);
    }
  }

  /** Where an import stands after its first n items. */
  ghost predicate Stands(t: Tables, items: seq<Item>, strategy: Strategy, n: nat, idOf: MailboxIDs,
      r: Result<(Tables, Tally), Failure>)
    requires n <= |items|
  {
    match r
    case Err(e) => if e == Collision then !NoClash(t, items, strategy, n)
      else e == Conflict && NoClash(t, items, strategy, |items|)
    case Ok((t', _)) =>
      && NoClash(t, items, strategy, n) && Tracks(t, items, strategy, n, t')
      && Consistent(t') && DerivedIDs(t'.mailboxes, idOf)
      && (strategy == Error ==> forall j :: 0 <= j < n ==> !Known(t, items, j))
  }

  lemma StandsFirst(t: Tables, items: seq<Item>, strategy: Strategy, idOf: MailboxIDs, tally: Tally)
    requires Consistent(t) && DerivedIDs(t.mailboxes, idOf)
    ensures Stands(t, items, strategy, 0, idOf, Ok((t, tally)))
  {
    hide Consistent;
  }

  lemma ConsistentPickups(t: Tables)
    requires Consistent(t)
    ensures IsIndex(t.pickupKeys, t.pickupByDigest, PickupDigest)
  {
  }

  /** Under the strategy that fails on conflicts, nothing from the first conflict on is applied. */
  lemma ConflictEndsClashes(t: Tables, items: seq<Item>, n: nat)
    requires n < |items| && NoClash(t, items, Error, n) && Known(t, items, n)
    ensures NoClash(t, items, Error, |items|)
  {
    hide Known, Brings, BroughtBefore, Carries, HolderOf;
    assert forall i :: n <= i < |items| ==> !Applied(t, items, Error, i);
  }

  /** The next item, in terms of store and file. */
  lemma NextItem(t: Tables, items: seq<Item>, strategy: Strategy, n: nat, idOf: MailboxIDs, t': Tables, tally: Tally)
    requires n < |items| && Injective(idOf) && DerivedItem(items[n], idOf)
    requires Consistent(t') && DerivedIDs(t'.mailboxes, idOf) && Tracks(t, items, strategy, n, t')
             && NoClash(t, items, strategy, n)
    requires strategy == Error ==> forall j :: 0 <= j < n ==> !Known(t, items, j)
    ensures var r, applied := ImportOne(t', tally, items[n], strategy), Applied(t, items, strategy, n);
            && (r == Err(Collision) <==> ClashAt(t, items, strategy, n))
            && (r.Err? && r.error != Collision ==> r.error == Conflict && strategy == Error && Known(t, items, n))
            && (r.Ok? && applied ==>
                  KeysAfter(t', r.value.0, items[n]) && !Collides(t', items[n])
                    && DerivedIDs(r.value.0.mailboxes, idOf))
            && (r.Ok? && !applied ==> r.value.0 == t')
            && (r.Ok? && strategy == Error ==> !Known(t, items, n))
  {
    OneCollidesIff(t', tally, items[n], strategy, idOf);
    NextWrites(t, items, strategy, n, t');
    NextKnown(t, items, strategy, n, t');
    if Applied(t, items, strategy, n) { NextClashes(t, items, strategy, n, t'); }
    assert ClashAt(t, items, strategy, n) ==> Applied(t, items, strategy, n);
    hide Consistent, Injective, DerivedIDs, DerivedItem, KeysAfter, Collides, Tracks, Known, Writes, NoClash, ClashAt,
      Applied, ImportRest;
  }

  lemma StandsNext(t: Tables, items: seq<Item>, strategy: Strategy, n: nat, idOf: MailboxIDs, t': Tables, tally: Tally)
    requires n < |items| && Injective(idOf) && DerivedItems(items, idOf)
    requires Stands(t, items, strategy, n, idOf, Ok((t', tally)))
    ensures Stands(t, items, strategy, n + 1, idOf, ImportOne(t', tally, items[n], strategy))
  {
    hide ImportOne, Consistent, Injective, DerivedIDs, DerivedItem, KeysAfter, Collides, Tracks, Known, ClashAt,
      Applied;
    var r := ImportOne(t', tally, items[n], strategy);
    NextItem(t, items, strategy, n, idOf, t', tally);
    if r.Ok? {
      ImportOneKeeps(t', tally, items[n], strategy);
      ConsistentPickups(t');
      NextTracks(t, items, strategy, n, t', r.value.0);
    } else if r.error != Collision {
      ConflictEndsClashes(t, items, n);
    }
  }

  lemma {:induction false} StandsAlways(t: Tables, tally: Tally, items: seq<Item>, strategy: Strategy, n: nat,
      idOf: MailboxIDs)
    requires n <= |items| && Consistent(t) && DerivedIDs(t.mailboxes, idOf) && Injective(idOf)
             && DerivedItems(items, idOf)
    ensures Stands(t, items, strategy, n, idOf, ImportItems(t, tally, items[..n], strategy))
  {
    hide Consistent, Stands, DerivedIDs, DerivedItems, Injective, ImportOne;
    if n == 0 {
      StandsFirst(t, items, strategy, idOf, tally);
    } else {
      StandsAlways(t, tally, items, strategy, n - 1, idOf);
      assert items[..n][..n - 1] == items[..n - 1];
      ImportItemsSnoc(t, tally, items[..n], strategy);
      hide ImportItems;
      var before := ImportItems(t, tally, items[..n - 1], strategy);
      if before.Ok? {
        StandsNext(t, items, strategy, n - 1, idOf, before.value.0, before.value.1);
      } else {
        FailureStands(t, items, strategy, n - 1, idOf, before);
      }
    }
  }

  lemma FailureStands(t: Tables, items: seq<Item>, strategy: Strategy, n: nat, idOf: MailboxIDs,
      r: Result<(Tables, Tally), Failure>)
    requires n < |items| && r.Err? && Stands(t, items, strategy, n, idOf, r)
    ensures Stands(t, items, strategy, n + 1, idOf, r)
  {
    hide ClashAt, Consistent, Tracks;
  }

  /** With mailbox ids that are digests, an import collides exactly when a pickup key clashes, which can
      be told from the store and the file alone. */
  lemma CollidesIffPickupKeysClash(t: Tables, tally: Tally, items: seq<Item>, strategy: Strategy, idOf: MailboxIDs)
    requires Consistent(t) && DerivedIDs(t.mailboxes, idOf) && Injective(idOf) && DerivedItems(items, idOf)
    ensures ImportItems(t, tally, items, strategy) == Err(Collision) <==> PickupKeysClash(t, items, strategy)
    ensures var r := ImportItems(t, tally, items, strategy);
            r.Ok? ==> DerivedIDs(r.value.0.mailboxes, idOf)
  {
    StandsAlways(t, tally, items, strategy, |items|, idOf);
    assert items[..|items|] == items;
    hide Consistent, DerivedIDs, DerivedItems, Injective, ClashAt, Tracks, ImportItems, Known;
  }

  // ---------------------------------------------------------------- derived ids over runs

  predicate OpDerives(op: Op, idOf: MailboxIDs) {
    match op
    case OpCreateMailbox(m) => m.id == idOf(MailboxIdentity(m))
    case OpImport(items, _) => DerivedItems(items, idOf)
    case _ => true
  }

  lemma CreateDerives(t: Tables, m: Mailbox, idOf: MailboxIDs)
    requires DerivedIDs(t.mailboxes, idOf) && m.id == idOf(MailboxIdentity(m))
    ensures DerivedIDs(CreateMailbox(t, m).0.mailboxes, idOf)
  {
    hide MailboxIdentity;
  }

  lemma ImportDerives(t: Tables, items: seq<Item>, strategy: Strategy, idOf: MailboxIDs)
    requires Consistent(t) && DerivedIDs(t.mailboxes, idOf) && Injective(idOf) && DerivedItems(items, idOf)
    ensures DerivedIDs(ImportMailboxes(t, items, strategy).0.mailboxes, idOf)
  {
    CollidesIffPickupKeysClash(t, Tally(0, 0, 0, []), items, strategy, idOf);
    hide Consistent, ImportItems, DerivedIDs, Injective, DerivedItems, PickupKeysClash;
  }

  lemma SameMailboxes(t: Tables, op: Op)
    requires !op.OpCreateMailbox? && !op.OpImport?
    ensures Apply(t, op).mailboxes == t.mailboxes
  {
    hide SwapCredential, ValidConnection, PutPlatformCredential;
  }

  lemma ApplyDerives(t: Tables, op: Op, idOf: MailboxIDs)
    requires Consistent(t) && DerivedIDs(t.mailboxes, idOf) && Injective(idOf) && OpDerives(op, idOf)
    ensures DerivedIDs(Apply(t, op).mailboxes, idOf)
  {
    hide Consistent, DerivedIDs, Injective, DerivedItems, ImportMailboxes, CreateMailbox, CreateConnection,
      UpdateConnection, CreateAlias, UpsertCredential, CreatePickupKey, RevokePickupKey, CreateAccount,
      UpsertPlatformCredential;
    match op
    case OpCreateMailbox(m) => CreateDerives(t, m, idOf);
    case OpImport(items, strategy) => ImportDerives(t, items, strategy, idOf);
    case _ => SameMailboxes(t, op);
  }

  /** Whatever was done to the store, the ids of its mailboxes are the digests of their identities. */
  lemma {:induction false} RunDerivesIDs(ops: seq<Op>, idOf: MailboxIDs)
    requires Injective(idOf) && forall i :: 0 <= i < |ops| ==> OpDerives(ops[i], idOf)
    ensures DerivedIDs(Run(ops).mailboxes, idOf)
    decreases |ops|
  {
    if ops != [] {
      RunDerivesIDs(ops[..|ops| - 1], idOf);
      RunIsConsistent(ops[..|ops| - 1]);
      ApplyDerives(Run(ops[..|ops| - 1]), ops[|ops| - 1], idOf);
      hide Consistent, Apply, DerivedIDs, OpDerives, Injective;
    }
  }
}
