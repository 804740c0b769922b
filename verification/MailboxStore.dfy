/** The store of backend/internal/repository/memory/store.go: maps that its methods change in place,
    each method proved against the operation on tables of the same name. */
module MailboxStore {
  import opened Wrappers
  import opened MailboxTables
  import T = MailboxTables

  class Store {
    var connections: map<string, Connection>
    var connectionByIdentity: map<Identity, string>
    var mailboxes: map<string, Mailbox>
    var mailboxByIdentity: map<Identity, string>
    var aliases: map<string, Alias>
    var aliasByIdentity: map<Identity, string>
    var credentials: map<Identity, Credential>
    var pickupKeys: map<string, PickupKey>
    var pickupByDigest: map<string, string>
    var accounts: map<string, Account>
    var platformCredentials: map<Identity, PlatformCredential>

    function View(): Tables
      reads this
    {
      Tables(connections, connectionByIdentity, mailboxes, mailboxByIdentity, aliases, aliasByIdentity,
             credentials, pickupKeys, pickupByDigest, accounts, platformCredentials)
    }

    constructor ()
      ensures View() == EmptyTables()
    {
      connections, connectionByIdentity, mailboxes, mailboxByIdentity := map[], map[], map[], map[];
      aliases, aliasByIdentity, credentials, pickupKeys := map[], map[], map[], map[];
      pickupByDigest, accounts, platformCredentials := map[], map[], map[];
    }

    method CreateProviderConnection(connection: Connection) returns (r: Result<(), Failure>)
      modifies this`connections, this`connectionByIdentity
      ensures (View(), r) == CreateConnection(old(View()), connection)
    {
      var created := connection.(version := 1);
      if connection.metadata.None? {
        return Err(Invalid);
      }
      if !ValidConnection(created) {
        return Err(Invalid);
      }
      if connection.id in connections {
        return Err(Collision);
      }
      var identity := ConnectionIdentity(connection);
      if identity in connectionByIdentity {
        return Err(Conflict);
      }
      connections := connections[connection.id := created];
      connectionByIdentity := connectionByIdentity[identity := connection.id];
      r := Ok(());
    }

    method UpdateProviderConnection(connection: Connection, expectedVersion: nat) returns (r: Result<(), Failure>)
      modifies this`connections, this`connectionByIdentity
      ensures (View(), r) == UpdateConnection(old(View()), connection, expectedVersion)
    {
      if connection.metadata.None? {
        return Err(Invalid);
      }
      if connection.id !in connections {
        return Err(NotFound);
      }
      var current := connections[connection.id];
      if connection.provider != current.provider {
        return Err(Invalid);
      }
      if current.version != expectedVersion {
        return Err(Conflict);
      }
      var updated := connection.(version := current.version + 1, createdAt := current.createdAt);
      if !ValidConnection(updated) {
        return Err(Invalid);
      }
      var oldIdentity, newIdentity := ConnectionIdentity(current), ConnectionIdentity(connection);
      if newIdentity in connectionByIdentity && connectionByIdentity[newIdentity] != connection.id {
        return Err(Conflict);
      }
      connectionByIdentity := connectionByIdentity - {oldIdentity};
      connectionByIdentity := connectionByIdentity[newIdentity := connection.id];
      connections := connections[connection.id := updated];
      r := Ok(());
    }

    method CreateMailbox(mailbox: Mailbox) returns (r: Result<(), Failure>)
      modifies this`mailboxes, this`mailboxByIdentity
      ensures (View(), r) == T.CreateMailbox(old(View()), mailbox)
    {
      var identity := MailboxIdentity(mailbox);
      if mailbox.id in mailboxes {
        return Err(Collision);
      }
      if identity in mailboxByIdentity {
        return Err(Conflict);
      }
      mailboxes := mailboxes[mailbox.id := mailbox];
      mailboxByIdentity := mailboxByIdentity[identity := mailbox.id];
      r := Ok(());
    }

    /** The indexed lookup finds a mailbox exactly when a scan of the table does, and the same one. */
    method GetMailboxByIdentity(provider: string, address: string) returns (r: Option<Mailbox>)
      requires Consistent(View())
      ensures r.Some? <==> exists id :: id in mailboxes && MailboxIdentity(mailboxes[id]) == (provider, address)
      ensures forall id :: id in mailboxes && MailboxIdentity(mailboxes[id]) == (provider, address) ==>
              r == Some(mailboxes[id])
    {
      LookupIsScan(mailboxes, mailboxByIdentity, MailboxIdentity, (provider, address));
      if (provider, address) !in mailboxByIdentity {
        return None;
      }
      IndexedMailbox(View(), (provider, address));
      r := Some(mailboxes[mailboxByIdentity[(provider, address)]]);
    }

    method CreateAlias(alias: Alias) returns (r: Result<(), Failure>)
      modifies this`aliases, this`aliasByIdentity
      ensures (View(), r) == T.CreateAlias(old(View()), alias)
    {
      var identity := AliasIdentity(alias);
      if alias.mailboxID !in mailboxes {
        return Err(NotFound);
      }
      if alias.id in aliases {
        return Err(Collision);
      }
      if identity in aliasByIdentity {
        return Err(Conflict);
      }
      aliases := aliases[alias.id := alias];
      aliasByIdentity := aliasByIdentity[identity := alias.id];
      r := Ok(());
    }

    method UpsertCredential(credential: Credential) returns (r: Result<(), Failure>)
      modifies this`credentials
      ensures (View(), r) == T.UpsertCredential(old(View()), credential)
    {
      if credential.mailboxID !in mailboxes {
        return Err(NotFound);
      }
      var identity, stored := (credential.mailboxID, credential.kind), credential;
      if identity in credentials {
        var existing := credentials[identity];
        if credential.version != existing.version {
          return Err(Conflict);
        }
        stored := stored.(version := existing.version + 1, createdAt := existing.createdAt);
      } else {
        if credential.version != 0 {
          return Err(Conflict);
        }
        stored := stored.(version := 1);
      }
      credentials := credentials[identity := stored];
      r := Ok(());
    }

    method CreatePickupKey(key: PickupKey) returns (r: Result<(), Failure>)
      modifies this`pickupKeys, this`pickupByDigest
      ensures (View(), r) == T.CreatePickupKey(old(View()), key)
    {
      if key.mailboxID !in mailboxes {
        return Err(NotFound);
      }
      if key.id in pickupKeys {
        return Err(Collision);
      }
      if key.digest in pickupByDigest {
        return Err(Conflict);
      }
      pickupKeys := pickupKeys[key.id := key];
      pickupByDigest := pickupByDigest[key.digest := key.id];
      r := Ok(());
    }

    method RevokePickupKey(mailboxID: string, keyID: string, now: int) returns (r: Result<(), Failure>)
      modifies this`pickupKeys
      ensures (View(), r) == T.RevokePickupKey(old(View()), mailboxID, keyID, now)
    {
      if keyID !in pickupKeys || pickupKeys[keyID].mailboxID != mailboxID {
        return Err(NotFound);
      }
      if pickupKeys[keyID].revokedAt.None? {
        pickupKeys := pickupKeys[keyID := pickupKeys[keyID].(revokedAt := Some(now))];
      }
      r := Ok(());
    }

    method CreatePlatformAccount(account: Account) returns (r: Result<(), Failure>)
      modifies this`accounts
      ensures (View(), r) == CreateAccount(old(View()), account)
    {
      if account.id in accounts {
        return Err(Collision);
      }
      if account.mailboxID != "" && account.mailboxID !in mailboxes {
        return Err(NotFound);
      }
      if account.aliasID.Some? {
        if account.mailboxID == "" {
          return Err(Invalid);
        }
        if account.aliasID.value !in aliases || aliases[account.aliasID.value].mailboxID != account.mailboxID {
          return Err(Invalid);
        }
      }
      accounts := accounts[account.id := account];
      r := Ok(());
    }

    method UpsertPlatformAccountCredential(credential: PlatformCredential) returns (r: Result<(), Failure>)
      modifies this`platformCredentials
      ensures (View(), r) == UpsertPlatformCredential(old(View()), credential)
    {
      if credential.accountID !in accounts {
        return Err(NotFound);
      }
      var key, stored := (credential.accountID, credential.kind), credential;
      if key in platformCredentials {
        stored := stored.(id := platformCredentials[key].id, createdAt := platformCredentials[key].createdAt);
      }
      platformCredentials := platformCredentials[key := stored];
      r := Ok(());
    }

    /** Works on copies of the tables and swaps them in at the end. */
    method ImportMailboxes(items: seq<Item>, strategy: Strategy) returns (r: Result<Tally, Failure>)
      modifies this
      ensures (View(), r) == T.ImportMailboxes(old(View()), items, strategy)
    {
      if strategy.Unknown? {
        return Err(Invalid);
      }
      ghost var start := View();
      ImportedIs(start, items, strategy);
      hide ImportItems, SameConnectionsAndAliases, T.ImportMailboxes;
      var imported := ImportAll(View(), items, strategy);
      ImportsWhat(start, Tally(0, 0, 0, []), items, strategy);
      if imported.Err? {
        return Err(imported.error);
      }
      var work := imported.value.0;
      SwappedIn(start, work);
      mailboxes, mailboxByIdentity, credentials := work.mailboxes, work.mailboxByIdentity, work.credentials;
      accounts, platformCredentials := work.accounts, work.platformCredentials;
      pickupKeys, pickupByDigest := work.pickupKeys, work.pickupByDigest;
      r := Ok(imported.value.1);
    }
  }

  lemma ImportedIs(t: Tables, items: seq<Item>, strategy: Strategy)
    requires !strategy.Unknown?
    ensures var r := ImportItems(t, Tally(0, 0, 0, []), items, strategy);
            T.ImportMailboxes(t, items, strategy) == if r.Err? then (t, Err(r.error)) else (r.value.0, Ok(r.value.1))
  {
    hide ImportItems;
  }

  /** Everything but connections and aliases is swapped in. */
  lemma SwappedIn(t: Tables, work: Tables)
    requires SameConnectionsAndAliases(t, work)
    ensures work == Tables(t.connections, t.connectionByIdentity, work.mailboxes, work.mailboxByIdentity,
                           t.aliases, t.aliasByIdentity, work.credentials, work.pickupKeys, work.pickupByDigest,
                           work.accounts, work.platformCredentials)
  {
  }

  /** The import loop, on copies of the tables. */
  method ImportAll(copies: Tables, items: seq<Item>, strategy: Strategy) returns (r: Result<(Tables, Tally), Failure>)
    ensures r == ImportItems(copies, Tally(0, 0, 0, []), items, strategy)
  {
    ghost var none := Tally(0, 0, 0, []);
    r := Ok((copies, Tally(0, 0, 0, [])));
    assert r == ImportItems(copies, none, items[..0], strategy);
    hide ImportOne, ImportItems;
    for i := 0 to |items|
      invariant r.Ok? && r == ImportItems(copies, none, items[..i], strategy)
    {
      FailedPrefixFails(copies, none, items, i, strategy);
      ImportItemsStep(copies, none, items, i, strategy);
      r := ImportItem(r.value.0, r.value.1, items[i], strategy);
      if r.Err? {
        return;
      }
    }
    assert items[..|items|] == items;
  }

  /** The body of the import loop, on the working copies. */
  method ImportItem(copies: Tables, tally: Tally, item: Item,
      strategy: Strategy) returns (r: Result<(Tables, Tally), Failure>)
    ensures r == ImportOne(copies, tally, item, strategy)
  {
    hide ImportRest;
    var work, result := copies, tally;
    var identity := MailboxIdentity(item.mailbox);
    if identity in work.mailboxByIdentity {
      match strategy {
        case Error =>
          return Err(Conflict);
        case Update =>
          var existingID := work.mailboxByIdentity[identity];
          var updated := item.mailbox.(id := existingID);
          if existingID in work.mailboxes {
            updated := updated.(createdAt := work.mailboxes[existingID].createdAt);
          }
          work := work.(mailboxes := work.mailboxes[existingID := updated]);
          result := result.(updated := result.updated + 1, ids := result.ids + [existingID]);
          var rest := ImportRest(work, item, existingID, false);
          if rest.Err? {
            return Err(rest.error);
          }
          work := rest.value;
        case _ =>
          result := result.(skipped := result.skipped + 1);
      }
    } else {
      if item.mailbox.id in work.mailboxes {
        return Err(Collision);
      }
      work := work.(mailboxes := work.mailboxes[item.mailbox.id := item.mailbox],
                    mailboxByIdentity := work.mailboxByIdentity[identity := item.mailbox.id]);
      result := result.(created := result.created + 1, ids := result.ids + [item.mailbox.id]);
      var rest := ImportRest(work, item, item.mailbox.id, true);
      if rest.Err? {
        return Err(rest.error);
      }
      work := rest.value;
    }
    r := Ok((work, result));
  }
}
