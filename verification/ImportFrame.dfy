/** What a bulk import of backend/internal/repository/memory/store.go leaves alone, and what it takes
    over. */
module ImportFrame {
  import opened Wrappers

  import opened ImportCollisions
  import opened ImportPreview
  import opened MailboxTables

  predicate SameAt<K(==), V(==)>(m: map<K, V>, m': map<K, V>, k: K) {
    (k in m <==> k in m') && (k in m ==> m[k] == m'[k])
  }

  predicate NamesCredential(item: Item, k: Identity) {
    item.credential.Some? && k == (item.mailbox.id, item.credential.value.kind)
  }

  predicate NamesAccount(item: Item, id: string) {
    item.account.Some? && item.account.value.id == id
  }

  predicate NamesPlatformCredential(item: Item, k: Identity) {
    item.account.Some? && item.platformCredential.Some?
    && k == (item.account.value.id, item.platformCredential.value.kind)
  }

  // ---------------------------------------------------------------- one item

  /** An item that is written touches the rows that it names and adds its pickup key. */
  ghost predicate TouchesOwn(t: Tables, t': Tables, item: Item) {
    && SameConnectionsAndAliases(t, t')
    && (forall id :: id != item.mailbox.id ==> SameAt(t.mailboxes, t'.mailboxes, id))
    && (forall k :: !NamesCredential(item, k) ==> SameAt(t.credentials, t'.credentials, k))
    && (forall id :: id in t.pickupKeys ==> SameAt(t.pickupKeys, t'.pickupKeys, id))
    && (forall id :: !NamesAccount(item, id) ==> SameAt(t.accounts, t'.accounts, id))
    && (forall id :: NamesAccount(item, id) ==>
          id in t'.accounts && t'.accounts[id].mailboxID == item.mailbox.id)
    && (forall k :: !NamesPlatformCredential(item, k) ==> SameAt(t.platformCredentials, t'.platformCredentials, k))
  }

  lemma RestTouchesOwn(t: Tables, item: Item, isNew: bool)
    ensures var r := ImportRest(t, item, item.mailbox.id, isNew);
            r.Ok? ==> TouchesOwn(t, r.value, item) && r.value.mailboxes == t.mailboxes
  {
    CredentialTouched(t.credentials, item, isNew);
    AccountTouched(t.accounts, item);
    PlatformCredentialTouched(t.platformCredentials, item);
    hide ImportCredential, ImportAccount, ImportPlatformCredential, NamesCredential, NamesAccount,
      NamesPlatformCredential;
  }

  lemma CredentialTouched(credentials: map<Identity, Credential>, item: Item, isNew: bool)
    ensures var credentials' := ImportCredential(credentials, item, item.mailbox.id, isNew);
            forall k :: !NamesCredential(item, k) ==> SameAt(credentials, credentials', k)
  {
  }

  lemma AccountTouched(accounts: map<string, Account>, item: Item)
    ensures var accounts' := ImportAccount(accounts, item, item.mailbox.id);
            && (forall id :: !NamesAccount(item, id) ==> SameAt(accounts, accounts', id))
            && (forall id :: NamesAccount(item, id) ==>
                  id in accounts' && accounts'[id].mailboxID == item.mailbox.id)
  {
  }

  lemma PlatformCredentialTouched(credentials: map<Identity, PlatformCredential>, item: Item)
    ensures var credentials' := ImportPlatformCredential(credentials, item);
            forall k :: !NamesPlatformCredential(item, k) ==> SameAt(credentials, credentials', k)
  {
  }

  lemma WithMailbox(t: Tables, t1: Tables, t': Tables, item: Item, m: Mailbox)
    requires TouchesOwn(t1, t', item) && t'.mailboxes == t1.mailboxes
    requires t1 == t.(mailboxes := t.mailboxes[item.mailbox.id := m], mailboxByIdentity := t1.mailboxByIdentity)
    ensures TouchesOwn(t, t', item)
  {
    hide NamesCredential, NamesAccount, NamesPlatformCredential;
  }

  lemma OneTouchesOwn(t: Tables, tally: Tally, item: Item, strategy: Strategy, idOf: MailboxIDs)
    requires Consistent(t) && DerivedIDs(t.mailboxes, idOf) && Injective(idOf) && DerivedItem(item, idOf)
    ensures var r := ImportOne(t, tally, item, strategy);
            r.Ok? ==> if Writes(t, item, strategy) then TouchesOwn(t, r.value.0, item) else r.value.0 == t
  {
    hide ImportRest, Consistent, TouchesOwn, Injective;
    var identity := MailboxIdentity(item.mailbox);
    if identity in t.mailboxByIdentity {
      ExistingID(t, identity, idOf);
      var kept := item.mailbox.(createdAt := t.mailboxes[item.mailbox.id].createdAt);
      var t1 := t.(mailboxes := t.mailboxes[item.mailbox.id := kept]);
      RestTouchesOwn(t1, item, false);
      var rest := ImportRest(t1, item, item.mailbox.id, false);
      if rest.Ok? { WithMailbox(t, t1, rest.value, item, kept); }
    } else {
      var t1 := t.(mailboxes := t.mailboxes[item.mailbox.id := item.mailbox],
                   mailboxByIdentity := t.mailboxByIdentity[identity := item.mailbox.id]);
      RestTouchesOwn(t1, item, true);
      var rest := ImportRest(t1, item, item.mailbox.id, true);
      if rest.Ok? { WithMailbox(t, t1, rest.value, item, item.mailbox); }
    }
  }

  // ---------------------------------------------------------------- a whole import

  predicate MailboxNamed(t: Tables, items: seq<Item>, strategy: Strategy, n: nat, id: string)
    requires n <= |items|
  {
    exists j :: 0 <= j < n && Applied(t, items, strategy, j) && items[j].mailbox.id == id
  }

  predicate CredentialNamed(t: Tables, items: seq<Item>, strategy: Strategy, n: nat, k: Identity)
    requires n <= |items|
  {
    exists j :: 0 <= j < n && Applied(t, items, strategy, j) && NamesCredential(items[j], k)
  }

  predicate AccountNamed(t: Tables, items: seq<Item>, strategy: Strategy, n: nat, id: string)
    requires n <= |items|
  {
    exists j :: 0 <= j < n && Applied(t, items, strategy, j) && NamesAccount(items[j], id)
  }

  predicate PlatformCredentialNamed(t: Tables, items: seq<Item>, strategy: Strategy, n: nat, k: Identity)
    requires n <= |items|
  {
    exists j :: 0 <= j < n && Applied(t, items, strategy, j) && NamesPlatformCredential(items[j], k)
  }

  /** The account belongs to the mailbox of an applied item that names it. */
  predicate TakenOver(t: Tables, items: seq<Item>, strategy: Strategy, n: nat, id: string, account: Account)
    requires n <= |items|
  {
    exists j :: 0 <= j < n && Applied(t, items, strategy, j) && NamesAccount(items[j], id)
                && account.mailboxID == items[j].mailbox.id
  }

  /** After the first n items: a row that no applied item names is as it was, an account that one names
      belongs to its mailbox, and connections, aliases and the pickup keys there were are as they were. */
  ghost predicate TouchesNamed(t: Tables, items: seq<Item>, strategy: Strategy, n: nat, t': Tables)
    requires n <= |items|
  {
    && SameConnectionsAndAliases(t, t')
    && (forall id :: !MailboxNamed(t, items, strategy, n, id) ==> SameAt(t.mailboxes, t'.mailboxes, id))
    && (forall k :: !CredentialNamed(t, items, strategy, n, k) ==> SameAt(t.credentials, t'.credentials, k))
    && (forall id :: id in t.pickupKeys ==> SameAt(t.pickupKeys, t'.pickupKeys, id))
    && (forall id :: !AccountNamed(t, items, strategy, n, id) ==> SameAt(t.accounts, t'.accounts, id))
    && (forall id :: AccountNamed(t, items, strategy, n, id) ==>
          id in t'.accounts && TakenOver(t, items, strategy, n, id, t'.accounts[id]))
    && (forall k :: !PlatformCredentialNamed(t, items, strategy, n, k) ==>
          SameAt(t.platformCredentials, t'.platformCredentials, k))
  }

  lemma SameAtTrans<K, V>(a: map<K, V>, b: map<K, V>, c: map<K, V>)
    ensures forall k :: SameAt(a, b, k) && SameAt(b, c, k) ==> SameAt(a, c, k)
  {
  }

  lemma MailboxesNext(t: Tables, items: seq<Item>, strategy: Strategy, n: nat, t': Tables, t'': Tables)
    requires n < |items| && TouchesNamed(t, items, strategy, n, t')
    requires if Applied(t, items, strategy, n) then TouchesOwn(t', t'', items[n]) else t'' == t'
    ensures forall id :: !MailboxNamed(t, items, strategy, n + 1, id) ==> SameAt(t.mailboxes, t''.mailboxes, id)
  {
    hide Applied, SameAt, AccountNamed, CredentialNamed, PlatformCredentialNamed, TakenOver;
    SameAtTrans(t.mailboxes, t'.mailboxes, t''.mailboxes);
    var m := n + 1;
    forall id | !MailboxNamed(t, items, strategy, m, id) ensures SameAt(t.mailboxes, t''.mailboxes, id) {
      assert !MailboxNamed(t, items, strategy, n, id);
    }
  }

  lemma CredentialsNext(t: Tables, items: seq<Item>, strategy: Strategy, n: nat, t': Tables, t'': Tables)
    requires n < |items| && TouchesNamed(t, items, strategy, n, t')
    requires if Applied(t, items, strategy, n) then TouchesOwn(t', t'', items[n]) else t'' == t'
    ensures forall k :: !CredentialNamed(t, items, strategy, n + 1, k) ==> SameAt(t.credentials, t''.credentials, k)
  {
    hide Applied, SameAt, NamesCredential, AccountNamed, MailboxNamed, PlatformCredentialNamed, TakenOver;
    SameAtTrans(t.credentials, t'.credentials, t''.credentials);
    var m := n + 1;
    forall k | !CredentialNamed(t, items, strategy, m, k) ensures SameAt(t.credentials, t''.credentials, k) {
      assert !CredentialNamed(t, items, strategy, n, k);
    }
  }

  lemma PlatformCredentialsNext(t: Tables, items: seq<Item>, strategy: Strategy, n: nat, t': Tables, t'': Tables)
    requires n < |items| && TouchesNamed(t, items, strategy, n, t')
    requires if Applied(t, items, strategy, n) then TouchesOwn(t', t'', items[n]) else t'' == t'
    ensures forall k :: !PlatformCredentialNamed(t, items, strategy, n + 1, k) ==>
            SameAt(t.platformCredentials, t''.platformCredentials, k)
  {
    hide Applied, SameAt, NamesPlatformCredential, AccountNamed, MailboxNamed, CredentialNamed, TakenOver;
    SameAtTrans(t.platformCredentials, t'.platformCredentials, t''.platformCredentials);
    var m := n + 1;
    forall k | !PlatformCredentialNamed(t, items, strategy, m, k)
      ensures SameAt(t.platformCredentials, t''.platformCredentials, k) {
      assert !PlatformCredentialNamed(t, items, strategy, n, k);
    }
  }

  lemma AccountsNext(t: Tables, items: seq<Item>, strategy: Strategy, n: nat, t': Tables, t'': Tables)
    requires n < |items| && TouchesNamed(t, items, strategy, n, t')
    requires if Applied(t, items, strategy, n) then TouchesOwn(t', t'', items[n]) else t'' == t'
    ensures forall k :: !AccountNamed(t, items, strategy, n + 1, k) ==> SameAt(t.accounts, t''.accounts, k)
  {
    hide Applied, SameAt, NamesAccount, PlatformCredentialNamed, MailboxNamed, CredentialNamed, TakenOver;
    SameAtTrans(t.accounts, t'.accounts, t''.accounts);
    var m := n + 1;
    forall k | !AccountNamed(t, items, strategy, m, k) ensures SameAt(t.accounts, t''.accounts, k) {
      assert !AccountNamed(t, items, strategy, n, k);
    }
  }

  /** The account that the next item names goes to its mailbox, any other stays where it is. */
  lemma TakenOverNext(t: Tables, items: seq<Item>, strategy: Strategy, n: nat, t': Tables, t'': Tables, id: string)
    requires n < |items| && TouchesNamed(t, items, strategy, n, t') && AccountNamed(t, items, strategy, n + 1, id)
    requires if Applied(t, items, strategy, n) then TouchesOwn(t', t'', items[n]) else t'' == t'
    ensures id in t''.accounts && TakenOver(t, items, strategy, n + 1, id, t''.accounts[id])
  {
    hide Applied, NamesAccount, MailboxNamed, CredentialNamed, PlatformCredentialNamed;
    if Applied(t, items, strategy, n) && NamesAccount(items[n], id) {
    } else {
      assert AccountNamed(t, items, strategy, n, id);
      assert SameAt(t'.accounts, t''.accounts, id);
      var j :| 0 <= j < n && Applied(t, items, strategy, j) && NamesAccount(items[j], id)
               && t'.accounts[id].mailboxID == items[j].mailbox.id;
    }
  }

  lemma TouchesNext(t: Tables, items: seq<Item>, strategy: Strategy, n: nat, t': Tables, t'': Tables)
    requires n < |items| && TouchesNamed(t, items, strategy, n, t')
    requires if Applied(t, items, strategy, n) then TouchesOwn(t', t'', items[n]) else t'' == t'
    ensures TouchesNamed(t, items, strategy, n + 1, t'')
  {
    MailboxesNext(t, items, strategy, n, t', t'');
    CredentialsNext(t, items, strategy, n, t', t'');
    AccountsNext(t, items, strategy, n, t', t'');
    PlatformCredentialsNext(t, items, strategy, n, t', t'');
    hide Applied, MailboxNamed, CredentialNamed, AccountNamed, PlatformCredentialNamed, TakenOver;
    var m := n + 1;
    forall id | AccountNamed(t, items, strategy, m, id)
      ensures id in t''.accounts && TakenOver(t, items, strategy, m, id, t''.accounts[id])
    {
      TakenOverNext(t, items, strategy, n, t', t'', id);
    }
  }

  lemma TouchesFirst(t: Tables, items: seq<Item>, strategy: Strategy)
    ensures TouchesNamed(t, items, strategy, 0, t)
  {
    hide Applied;
  }

  lemma {:induction false} TouchesAlways(t: Tables, tally: Tally, items: seq<Item>, strategy: Strategy, n: nat,
      idOf: MailboxIDs)
    requires n <= |items| && Consistent(t) && DerivedIDs(t.mailboxes, idOf) && Injective(idOf)
    requires DerivedItems(items, idOf) && ImportItems(t, tally, items[..n], strategy).Ok?
    ensures TouchesNamed(t, items, strategy, n, ImportItems(t, tally, items[..n], strategy).value.0)
  {
    hide Consistent, DerivedIDs, Injective, ImportOne, TouchesNamed;
    if n == 0 {
      TouchesFirst(t, items, strategy);
    } else {
      assert items[..n][..n - 1] == items[..n - 1];
      ImportItemsSnoc(t, tally, items[..n], strategy);
      TouchesAlways(t, tally, items, strategy, n - 1, idOf);
      StandsAlways(t, tally, items, strategy, n - 1, idOf);
      var before := ImportItems(t, tally, items[..n - 1], strategy).value;
      hide ImportItems, Stands;
      ItemTouches(t, items, strategy, n - 1, before.0, before.1, idOf);
      TouchesNext(t, items, strategy, n - 1, before.0, ImportOne(before.0, before.1, items[n - 1], strategy).value.0);
    }
  }

  lemma ItemTouches(t: Tables, items: seq<Item>, strategy: Strategy, n: nat, t': Tables, tally: Tally,
      idOf: MailboxIDs)
    requires n < |items| && Injective(idOf) && DerivedItems(items, idOf)
    requires Stands(t, items, strategy, n, idOf, Ok((t', tally))) && ImportOne(t', tally, items[n], strategy).Ok?
    ensures var t'' := ImportOne(t', tally, items[n], strategy).value.0;
            if Applied(t, items, strategy, n) then TouchesOwn(t', t'', items[n]) else t'' == t'
  {
    hide Consistent, DerivedIDs, Injective, ImportOne, Tracks, Applied, Writes, TouchesOwn, NoClash, Known;
    NextWrites(t, items, strategy, n, t');
    OneTouchesOwn(t', tally, items[n], strategy, idOf);
  }

  /** A bulk import touches only what its applied items name, under any strategy. */
  lemma ImportTouchesNamed(t: Tables, tally: Tally, items: seq<Item>, strategy: Strategy, idOf: MailboxIDs)
    requires Consistent(t) && DerivedIDs(t.mailboxes, idOf) && Injective(idOf) && DerivedItems(items, idOf)
    requires ImportItems(t, tally, items, strategy).Ok?
    ensures TouchesNamed(t, items, strategy, |items|, ImportItems(t, tally, items, strategy).value.0)
  {
    assert items[..|items|] == items;
    TouchesAlways(t, tally, items, strategy, |items|, idOf);
  }

  // ---------------------------------------------------------------- imports that do not update

  /** Without updates only items of new mailboxes are applied. */
  lemma AppliedIsNew(t: Tables, items: seq<Item>, strategy: Strategy, j: nat, idOf: MailboxIDs)
    requires Consistent(t) && DerivedIDs(t.mailboxes, idOf) && Injective(idOf) && DerivedItems(items, idOf)
    requires j < |items| && Applied(t, items, strategy, j) && strategy != Update
    ensures items[j].mailbox.id !in t.mailboxes
  {
    hide Consistent, DerivedIDs, Injective;
    assert DerivedItem(items[j], idOf) && !Known(t, items, j);
    NewIDIsFree(t, MailboxIdentity(items[j].mailbox), idOf);
  }

  lemma AccountsOfMailboxes(t: Tables, id: string)
    requires Consistent(t) && id in t.accounts
    ensures t.accounts[id].mailboxID == "" || t.accounts[id].mailboxID in t.mailboxes
  {
    hide IsIndex;
  }

  lemma CredentialsOfMailboxes(t: Tables, k: Identity)
    requires Consistent(t) && k in t.credentials
    ensures k.0 in t.mailboxes
  {
    hide IsIndex;
  }

  lemma MailboxNotNamed(t: Tables, items: seq<Item>, strategy: Strategy, id: string, idOf: MailboxIDs)
    requires Consistent(t) && DerivedIDs(t.mailboxes, idOf) && Injective(idOf) && DerivedItems(items, idOf)
    requires strategy != Update && id in t.mailboxes
    ensures !MailboxNamed(t, items, strategy, |items|, id)
  {
    hide Consistent, DerivedIDs, DerivedItems, Injective, Applied;
    if j :| 0 <= j < |items| && Applied(t, items, strategy, j) && items[j].mailbox.id == id {
      AppliedIsNew(t, items, strategy, j, idOf);
    }
  }

  lemma CredentialNotNamed(t: Tables, items: seq<Item>, strategy: Strategy, k: Identity, idOf: MailboxIDs)
    requires Consistent(t) && DerivedIDs(t.mailboxes, idOf) && Injective(idOf) && DerivedItems(items, idOf)
    requires strategy != Update && k in t.credentials
    ensures !CredentialNamed(t, items, strategy, |items|, k)
  {
    hide Consistent, DerivedIDs, DerivedItems, Injective, Applied;
    CredentialsOfMailboxes(t, k);
    if j :| 0 <= j < |items| && Applied(t, items, strategy, j) && NamesCredential(items[j], k) {
      AppliedIsNew(t, items, strategy, j, idOf);
    }
  }

  lemma AccountMoves(t: Tables, items: seq<Item>, strategy: Strategy, id: string, accounts: map<string, Account>,
      idOf: MailboxIDs)
    requires Consistent(t) && DerivedIDs(t.mailboxes, idOf) && Injective(idOf) && DerivedItems(items, idOf)
    requires strategy != Update && id in t.accounts && forall identity :: idOf(identity) != ""
    requires id in accounts && TakenOver(t, items, strategy, |items|, id, accounts[id])
    ensures accounts[id].mailboxID !in t.mailboxes && !SameAt(t.accounts, accounts, id)
  {
    hide Consistent, DerivedIDs, Injective, Applied, NamesAccount;
    AccountsOfMailboxes(t, id);
    var j :| 0 <= j < |items| && Applied(t, items, strategy, j) && NamesAccount(items[j], id)
             && accounts[id].mailboxID == items[j].mailbox.id;
    assert DerivedItem(items[j], idOf);
    AppliedIsNew(t, items, strategy, j, idOf);
  }

  /** An import that skips or refuses known mailboxes keeps every mailbox, alias, credential and pickup
      key as it was. It changes an account exactly if an applied item names it: the account then
      belongs to a mailbox that is new. */
  lemma KeepsRowsButAccounts(t: Tables, tally: Tally, items: seq<Item>, strategy: Strategy, idOf: MailboxIDs)
    requires Consistent(t) && DerivedIDs(t.mailboxes, idOf) && Injective(idOf) && DerivedItems(items, idOf)
    requires strategy != Update && ImportItems(t, tally, items, strategy).Ok?
    requires forall identity :: idOf(identity) != ""
    ensures var t' := ImportItems(t, tally, items, strategy).value.0;
            && t'.aliases == t.aliases && t'.connections == t.connections
            && (forall id :: id in t.mailboxes ==> SameAt(t.mailboxes, t'.mailboxes, id))
            && (forall k :: k in t.credentials ==> SameAt(t.credentials, t'.credentials, k))
            && (forall id :: id in t.pickupKeys ==> SameAt(t.pickupKeys, t'.pickupKeys, id))
            && (forall id :: id in t.accounts ==>
                  (SameAt(t.accounts, t'.accounts, id) <==> !AccountNamed(t, items, strategy, |items|, id)))
            && (forall id :: id in t.accounts && AccountNamed(t, items, strategy, |items|, id) ==>
                  id in t'.accounts && t'.accounts[id].mailboxID !in t.mailboxes)
            && (forall k :: k in t.platformCredentials && !PlatformCredentialNamed(t, items, strategy, |items|, k) ==>
                  SameAt(t.platformCredentials, t'.platformCredentials, k))
  {
    hide Consistent, DerivedIDs, DerivedItems, Injective, ImportItems, SameAt, MailboxNamed, CredentialNamed,
      AccountNamed,
      TakenOver;
    ImportTouchesNamed(t, tally, items, strategy, idOf);
    var t' := ImportItems(t, tally, items, strategy).value.0;
    forall id | id in t.mailboxes ensures SameAt(t.mailboxes, t'.mailboxes, id) {
      MailboxNotNamed(t, items, strategy, id, idOf);
    }
    forall k | k in t.credentials ensures SameAt(t.credentials, t'.credentials, k) {
      CredentialNotNamed(t, items, strategy, k, idOf);
    }
    forall id | id in t.accounts && AccountNamed(t, items, strategy, |items|, id)
      ensures id in t'.accounts && t'.accounts[id].mailboxID !in t.mailboxes && !SameAt(t.accounts, t'.accounts, id)
    {
      AccountMoves(t, items, strategy, id, t'.accounts, idOf);
    }
  }

  const OLD_MAILBOX := Mailbox("mbx_a", "p", "a", "", 0)
  const NEW_MAILBOX := Mailbox("mbx_b", "p", "b", "", 1)

  function AccountIn(mailboxID: string): Account {
    Account("acct", mailboxID, None, "", 0)
  }

  /** The store after a mailbox and its account were created. */
  function WithOneAccount(): Tables {
    Run([OpCreateMailbox(OLD_MAILBOX), OpCreateAccount(AccountIn("mbx_a"))])
  }

  lemma OneAccountIs()
    ensures WithOneAccount() ==
            EmptyTables().(mailboxes := map["mbx_a" := OLD_MAILBOX], mailboxByIdentity := map[("p", "a") := "mbx_a"],
                           accounts := map["acct" := AccountIn("mbx_a")])
  {
    var ops := [OpCreateMailbox(OLD_MAILBOX), OpCreateAccount(AccountIn("mbx_a"))];
    assert ops[..1] == [OpCreateMailbox(OLD_MAILBOX)] && [OpCreateMailbox(OLD_MAILBOX)][..0] == [];
    assert Run([OpCreateMailbox(OLD_MAILBOX)]) == CreateMailbox(EmptyTables(), OLD_MAILBOX).0;
    assert Run(ops) == CreateAccount(Run(ops[..1]), AccountIn("mbx_a")).0;
  }

  /** A counterexample to keeping accounts: a row that a preview shows as nothing but a new mailbox takes
      over the account of another mailbox, under the strategy that skips conflicts. */
  lemma SkipTakesAccount()
    ensures var t, items := WithOneAccount(), [Item(NEW_MAILBOX, None, None, Some(AccountIn("")), None)];
            var preview := PreviewOf(t, [Row(1, [], NEW_MAILBOX)], Skip);
            var r := ImportItems(t, Tally(0, 0, 0, []), items, Skip);
            && preview.created == 1 && preview.conflicts == 0
            && "acct" in t.accounts && t.accounts["acct"].mailboxID == "mbx_a"
            && r.Ok? && "acct" in r.value.0.accounts && r.value.0.accounts["acct"].mailboxID == "mbx_b"
  {
    OneAccountIs();
    hide WithOneAccount;
    var t, item := WithOneAccount(), Item(NEW_MAILBOX, None, None, Some(AccountIn("")), None);
    assert [item][..0] == [] && [Row(1, [], NEW_MAILBOX)][..0] == [];
    assert ImportItems(t, Tally(0, 0, 0, []), [item], Skip) == ImportOne(t, Tally(0, 0, 0, []), item, Skip);
    assert PreviewOf(t, [Row(1, [], NEW_MAILBOX)], Skip)
        == AddRow(Preview([], 0, 0, 0, 0), PreviewOne(t, {}, Row(1, [], NEW_MAILBOX), Skip));
  }
}
