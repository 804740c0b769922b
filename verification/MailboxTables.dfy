/** The tables of backend/internal/repository/memory/store.go that have secondary indexes or refer to
    one another, and what the operations of the store do to them. */
module MailboxTables {
  import opened Wrappers
  import Text

  /** Metadata is in its normal form, or missing where it is not a JSON object. */
  datatype Connection = Connection(
    id: string, provider: string, name: string, config: string, keyVersion: string, metadata: Option<string>,
      version: nat, createdAt: int)
  datatype Mailbox = Mailbox(id: string, provider: string, address: string, content: string, createdAt: int)
  datatype Alias = Alias(id: string, mailboxID: string, provider: string, address: string, content: string)
  datatype Credential = Credential(id: string, mailboxID: string, kind: string, secret: string, version: nat,
      createdAt: int)
  datatype PickupKey = PickupKey(id: string, mailboxID: string, digest: string, revokedAt: Option<int>)
  datatype Account = Account(id: string, mailboxID: string, aliasID: Option<string>, content: string, createdAt: int)
  datatype PlatformCredential = PlatformCredential(id: string, accountID: string, kind: string, secret: string,
      createdAt: int)

  /** A pair of strings where the source joins two with a NUL. */
  type Identity = (string, string)

  datatype Tables = Tables(
    connections: map<string, Connection>, connectionByIdentity: map<Identity, string>,
    mailboxes: map<string, Mailbox>, mailboxByIdentity: map<Identity, string>,
    aliases: map<string, Alias>, aliasByIdentity: map<Identity, string>,
    credentials: map<Identity, Credential>,
    pickupKeys: map<string, PickupKey>, pickupByDigest: map<string, string>,
    accounts: map<string, Account>, platformCredentials: map<Identity, PlatformCredential>)

  /** Conflict is a name that is taken, Collision an id or a pickup key that is. */
  datatype Failure = NotFound | Conflict | Collision | Invalid

  function ConnectionIdentity(c: Connection): Identity { (c.provider, c.name) }
  function MailboxIdentity(m: Mailbox): Identity { (m.provider, m.address) }
  function AliasIdentity(a: Alias): Identity { (a.provider, a.address) }
  function PickupDigest(k: PickupKey): string { k.digest }

  // ---------------------------------------------------------------- indexes

  /** The index is the exact inverse of the identities of the table. */
  ghost predicate IsIndex<V(!new), I(!new)>(table: map<string, V>, index: map<I, string>, identity: V -> I) {
    && (forall id :: id in table ==> identity(table[id]) in index && index[identity(table[id])] == id)
    && (forall i :: i in index ==> index[i] in table && identity(table[index[i]]) == i)
  }

  /** An indexed lookup finds what a scan of the table finds, and there is at most one to find. */
  lemma LookupIsScan<V(!new), I(!new)>(table: map<string, V>, index: map<I, string>, identity: V -> I, i: I)
    requires IsIndex(table, index, identity)
    ensures i in index <==> exists id :: id in table && identity(table[id]) == i
    ensures forall id :: id in table && identity(table[id]) == i ==> i in index && index[i] == id
  {
  }

  lemma IndexAdd<V(!new), I(!new)>(table: map<string, V>, index: map<I, string>, identity: V -> I, id: string, v: V)
    requires IsIndex(table, index, identity) && id !in table && identity(v) !in index
    ensures IsIndex(table[id := v], index[identity(v) := id], identity)
  {
  }

  lemma IndexReplace<V(!new), I(!new)>(table: map<string, V>, index: map<I, string>, identity: V -> I, id: string, v: V)
    requires IsIndex(table, index, identity) && id in table && identity(v) == identity(table[id])
    ensures IsIndex(table[id := v], index, identity)
  {
  }

  /** Renaming: the new identity is free or the item's own. */
  lemma IndexRename<V(!new), I(!new)>(table: map<string, V>, index: map<I, string>, identity: V -> I, id: string, v: V)
    requires IsIndex(table, index, identity) && id in table && (identity(v) in index ==> index[identity(v)] == id)
    ensures IsIndex(table[id := v], (index - {identity(table[id])})[identity(v) := id], identity)
  {
  }

  // ---------------------------------------------------------------- consistency

  // What every row refers to exists.

  predicate AliasesRefer(aliases: map<string, Alias>, mailboxes: map<string, Mailbox>) {
    forall id :: id in aliases ==> aliases[id].mailboxID in mailboxes
  }

  predicate CredentialsRefer(credentials: map<Identity, Credential>, mailboxes: map<string, Mailbox>) {
    forall k :: k in credentials ==> k == (credentials[k].mailboxID, credentials[k].kind) && k.0 in mailboxes
  }

  predicate PickupKeysRefer(keys: map<string, PickupKey>, mailboxes: map<string, Mailbox>) {
    forall id :: id in keys ==> keys[id].mailboxID in mailboxes
  }

  predicate AccountRefers(a: Account, aliases: map<string, Alias>, mailboxes: map<string, Mailbox>) {
    && (a.mailboxID != "" ==> a.mailboxID in mailboxes)
    && (a.aliasID.Some? ==> a.aliasID.value in aliases && aliases[a.aliasID.value].mailboxID == a.mailboxID)
  }

  predicate AccountsRefer(accounts: map<string, Account>, aliases: map<string, Alias>,
      mailboxes: map<string, Mailbox>) {
    forall id :: id in accounts ==> AccountRefers(accounts[id], aliases, mailboxes)
  }

  predicate PlatformCredentialsRefer(credentials: map<Identity, PlatformCredential>, accounts: map<string, Account>) {
    forall k :: k in credentials ==> k == (credentials[k].accountID, credentials[k].kind) && k.0 in accounts
  }

  ghost predicate MailboxesOK(mailboxes: map<string, Mailbox>, index: map<Identity, string>) {
    IsIndex(mailboxes, index, MailboxIdentity) && forall id :: id in mailboxes ==> mailboxes[id].id == id
  }

  ghost predicate ConnectionsOK(connections: map<string, Connection>, index: map<Identity, string>) {
    IsIndex(connections, index, ConnectionIdentity) && forall id :: id in connections ==> connections[id].id == id
  }

  /** Every index is the exact inverse of its table, and every reference is good. */
  ghost predicate Consistent(t: Tables) {
    && ConnectionsOK(t.connections, t.connectionByIdentity)
    && MailboxesOK(t.mailboxes, t.mailboxByIdentity)
    && IsIndex(t.aliases, t.aliasByIdentity, AliasIdentity)
    && IsIndex(t.pickupKeys, t.pickupByDigest, PickupDigest)
    && AliasesRefer(t.aliases, t.mailboxes)
    && CredentialsRefer(t.credentials, t.mailboxes)
    && PickupKeysRefer(t.pickupKeys, t.mailboxes)
    && AccountsRefer(t.accounts, t.aliases, t.mailboxes)
    && PlatformCredentialsRefer(t.platformCredentials, t.accounts)
  }

  // ---------------------------------------------------------------- the operations

  predicate ValidConnection(c: Connection) {
    !Text.Blank(c.id) && !Text.Blank(c.provider) && !Text.Blank(c.name) && c.config != ""
    && !Text.Blank(c.keyVersion) && c.version > 0
  }

  function CreateConnection(t: Tables, c: Connection): (Tables, Result<(), Failure>) {
    var created := c.(version := 1);
    if c.metadata.None? || !ValidConnection(created) then (t, Err(Invalid))
    else if c.id in t.connections then (t, Err(Collision))
    else if ConnectionIdentity(c) in t.connectionByIdentity then (t, Err(Conflict))
    else (t.(connections := t.connections[c.id := created],
             connectionByIdentity := t.connectionByIdentity[ConnectionIdentity(c) := c.id]), Ok(()))
  }

  /** An update may rename the connection. */
  function UpdateConnection(t: Tables, c: Connection, expectedVersion: nat): (Tables, Result<(), Failure>) {
    if c.metadata.None? then (t, Err(Invalid))
    else if c.id !in t.connections then (t, Err(NotFound))
    else
      var current := t.connections[c.id];
      var updated := c.(version := current.version + 1, createdAt := current.createdAt);
      var taken := ConnectionIdentity(c) in t.connectionByIdentity
        && t.connectionByIdentity[ConnectionIdentity(c)] != c.id;
      if c.provider != current.provider then (t, Err(Invalid))
      else if current.version != expectedVersion then (t, Err(Conflict))
      else if !ValidConnection(updated) then (t, Err(Invalid))
      else if taken then (t, Err(Conflict))
      else (t.(connections := t.connections[c.id := updated],
               connectionByIdentity :=
                 (t.connectionByIdentity - {ConnectionIdentity(current)})[ConnectionIdentity(c) := c.id]), Ok(()))
  }

  function CreateMailbox(t: Tables, m: Mailbox): (Tables, Result<(), Failure>) {
    if m.id in t.mailboxes then (t, Err(Collision))
    else if MailboxIdentity(m) in t.mailboxByIdentity then (t, Err(Conflict))
    else (t.(mailboxes := t.mailboxes[m.id := m], mailboxByIdentity := t.mailboxByIdentity[MailboxIdentity(m) := m.id]),
      Ok(()))
  }

  function CreateAlias(t: Tables, a: Alias): (Tables, Result<(), Failure>) {
    if a.mailboxID !in t.mailboxes then (t, Err(NotFound))
    else if a.id in t.aliases then (t, Err(Collision))
    else if AliasIdentity(a) in t.aliasByIdentity then (t, Err(Conflict))
    else (t.(aliases := t.aliases[a.id := a], aliasByIdentity := t.aliasByIdentity[AliasIdentity(a) := a.id]), Ok(()))
  }

  /** Compare-and-swap on the version; a new credential has version zero. */
  function SwapCredential(credentials: map<Identity, Credential>, c: Credential): Result<map<Identity, Credential>,
      Failure> {
    var key := (c.mailboxID, c.kind);
    if key in credentials then
      var existing := credentials[key];
      if c.version != existing.version then Err(Conflict)
      else Ok(credentials[key := c.(version := existing.version + 1, createdAt := existing.createdAt)])
    else if c.version != 0 then Err(Conflict)
    else Ok(credentials[key := c.(version := 1)])
  }

  function UpsertCredential(t: Tables, c: Credential): (Tables, Result<(), Failure>) {
    if c.mailboxID !in t.mailboxes then (t, Err(NotFound))
    else match SwapCredential(t.credentials, c)
      case Err(e) => (t, Err(e))
      case Ok(credentials) => (t.(credentials := credentials), Ok(()))
  }

  function CreatePickupKey(t: Tables, k: PickupKey): (Tables, Result<(), Failure>) {
    if k.mailboxID !in t.mailboxes then (t, Err(NotFound))
    else if k.id in t.pickupKeys then (t, Err(Collision))
    else if k.digest in t.pickupByDigest then (t, Err(Conflict))
    else (t.(pickupKeys := t.pickupKeys[k.id := k], pickupByDigest := t.pickupByDigest[k.digest := k.id]), Ok(()))
  }

  function RevokePickupKey(t: Tables, mailboxID: string, keyID: string, now: int): (Tables, Result<(), Failure>) {
    if keyID !in t.pickupKeys || t.pickupKeys[keyID].mailboxID != mailboxID then (t, Err(NotFound))
    else if t.pickupKeys[keyID].revokedAt.Some? then (t, Ok(()))
    else (t.(pickupKeys := t.pickupKeys[keyID := t.pickupKeys[keyID].(revokedAt := Some(now))]), Ok(()))
  }

  function CreateAccount(t: Tables, a: Account): (Tables, Result<(), Failure>) {
    if a.id in t.accounts then (t, Err(Collision))
    else if a.mailboxID != "" && a.mailboxID !in t.mailboxes then (t, Err(NotFound))
    else if a.aliasID.Some? && (a.mailboxID == "" || a.aliasID.value !in t.aliases
      || t.aliases[a.aliasID.value].mailboxID != a.mailboxID) then
      (t, Err(Invalid))
    else (t.(accounts := t.accounts[a.id := a]), Ok(()))
  }

  function PutPlatformCredential(credentials: map<Identity, PlatformCredential>,
      c: PlatformCredential): map<Identity, PlatformCredential> {
    var key := (c.accountID, c.kind);
    credentials[key := if key in credentials then c.(id := credentials[key].id, createdAt := credentials[key].createdAt)
      else c]
  }

  function UpsertPlatformCredential(t: Tables, c: PlatformCredential): (Tables, Result<(), Failure>) {
    if c.accountID !in t.accounts then (t, Err(NotFound))
    else (t.(platformCredentials := PutPlatformCredential(t.platformCredentials, c)), Ok(()))
  }

  // ---------------------------------------------------------------- bulk import

  datatype Strategy = Skip | Update | Error | Unknown(name: string)

  /** A row of an import with sealed secrets. An imported account names no alias. */
  datatype Item = Item(mailbox: Mailbox, credential: Option<Credential>, pickupKey: Option<PickupKey>,
                       account: Option<Account>, platformCredential: Option<PlatformCredential>)

  datatype Tally = Tally(created: nat, updated: nat, skipped: nat, ids: seq<string>)

  function ImportCredential(credentials: map<Identity, Credential>, item: Item, mailboxID: string,
      isNew: bool): map<Identity, Credential> {
    if item.credential.None? then credentials
    else
      var c := item.credential.value.(mailboxID := mailboxID);
      var key := (mailboxID, c.kind);
      credentials[key :=
        if !isNew && key in credentials
        then c.(id := credentials[key].id, version := credentials[key].version + 1,
          createdAt := credentials[key].createdAt)
        else c.(version := 1)]
  }

  function ImportAccount(accounts: map<string, Account>, item: Item, mailboxID: string): map<string, Account> {
    if item.account.None? then accounts
    else
      var a := item.account.value.(mailboxID := mailboxID, aliasID := None);
      accounts[a.id := if a.id in accounts then a.(createdAt := accounts[a.id].createdAt) else a]
  }

  function ImportPlatformCredential(credentials: map<Identity, PlatformCredential>,
      item: Item): map<Identity, PlatformCredential> {
    if item.account.None? || item.platformCredential.None? then credentials
    else PutPlatformCredential(credentials, item.platformCredential.value.(accountID := item.account.value.id))
  }

  /** A pickup key that the mailbox already has is left as it is. */
  function ImportPickupKey(keys: map<string, PickupKey>, byDigest: map<string, string>, item: Item,
      mailboxID: string): Result<(map<string, PickupKey>, map<string, string>), Failure> {
    if item.pickupKey.None? then Ok((keys, byDigest))
    else
      var k := item.pickupKey.value.(mailboxID := mailboxID);
      if k.digest in byDigest then
        var existing := byDigest[k.digest];
        if existing in keys && keys[existing].mailboxID == mailboxID then Ok((keys, byDigest)) else Err(Collision)
      else if k.id in keys then Err(Collision)
      else Ok((keys[k.id := k], byDigest[k.digest := k.id]))
  }

  function ImportRest(t: Tables, item: Item, mailboxID: string, isNew: bool): Result<Tables, Failure> {
    match ImportPickupKey(t.pickupKeys, t.pickupByDigest, item, mailboxID)
    case Err(e) => Err(e)
    case Ok((keys, byDigest)) =>
      Ok(t.(credentials := ImportCredential(t.credentials, item, mailboxID, isNew),
            accounts := ImportAccount(t.accounts, item, mailboxID),
            platformCredentials := ImportPlatformCredential(t.platformCredentials, item),
            pickupKeys := keys, pickupByDigest := byDigest))
  }

  function ImportOne(t: Tables, tally: Tally, item: Item, strategy: Strategy): Result<(Tables, Tally), Failure> {
    var identity := MailboxIdentity(item.mailbox);
    if identity in t.mailboxByIdentity then
      var id := t.mailboxByIdentity[identity];
      match strategy
      case Update =>
        var kept := if id in t.mailboxes then item.mailbox.(id := id, createdAt := t.mailboxes[id].createdAt)
          else item.mailbox.(id := id);
        var rest := ImportRest(t.(mailboxes := t.mailboxes[id := kept]), item, id, false);
        if rest.Err? then Err(rest.error)
          else Ok((rest.value, tally.(updated := tally.updated + 1, ids := tally.ids + [id])))
      case Error => Err(Conflict)
      case _ => Ok((t, tally.(skipped := tally.skipped + 1)))
    else if item.mailbox.id in t.mailboxes then Err(Collision)
    else
      var t1 := t.(mailboxes := t.mailboxes[item.mailbox.id := item.mailbox],
                   mailboxByIdentity := t.mailboxByIdentity[identity := item.mailbox.id]);
      var rest := ImportRest(t1, item, item.mailbox.id, true);
      if rest.Err? then Err(rest.error)
      else Ok((rest.value, tally.(created := tally.created + 1, ids := tally.ids + [item.mailbox.id])))
  }

  function ImportItems(t: Tables, tally: Tally, items: seq<Item>, strategy: Strategy): Result<(Tables, Tally), Failure>
    decreases |items|
  {
    if items == [] then Ok((t, tally))
    else
      var before := ImportItems(t, tally, items[..|items| - 1], strategy);
      if before.Err? then before else ImportOne(before.value.0, before.value.1, items[|items| - 1], strategy)
  }

  /** All or nothing. */
  function ImportMailboxes(t: Tables, items: seq<Item>, strategy: Strategy): (Tables, Result<Tally, Failure>) {
    if strategy.Unknown? then (t, Err(Invalid))
    else match ImportItems(t, Tally(0, 0, 0, []), items, strategy)
      case Err(e) => (t, Err(e))
      case Ok((t', tally)) => (t', Ok(tally))
  }

  // ---------------------------------------------------------------- every operation keeps consistency

  lemma CreateConnectionKeeps(t: Tables, c: Connection)
    requires Consistent(t)
    ensures Consistent(CreateConnection(t, c).0)
  {
    if CreateConnection(t, c).1.Ok? {
      IndexAdd(t.connections, t.connectionByIdentity, ConnectionIdentity, c.id, c.(version := 1));
    }
    hide IsIndex, MailboxesOK, AliasesRefer, CredentialsRefer, PickupKeysRefer, AccountsRefer, PlatformCredentialsRefer;
  }

  lemma RenameConnectionKeeps(t: Tables, c: Connection)
    requires Consistent(t) && c.id in t.connections
    requires ConnectionIdentity(c) in t.connectionByIdentity ==> t.connectionByIdentity[ConnectionIdentity(c)] == c.id
    ensures Consistent(t.(connections := t.connections[c.id := c],
                          connectionByIdentity := (t.connectionByIdentity
                            - {ConnectionIdentity(t.connections[c.id])})[ConnectionIdentity(c) := c.id]))
  {
    hide IsIndex, MailboxesOK, AliasesRefer, CredentialsRefer, PickupKeysRefer, AccountsRefer, PlatformCredentialsRefer;
    IndexRename(t.connections, t.connectionByIdentity, ConnectionIdentity, c.id, c);
  }

  lemma UpdateConnectionKeeps(t: Tables, c: Connection, expectedVersion: nat)
    requires Consistent(t)
    ensures Consistent(UpdateConnection(t, c, expectedVersion).0)
  {
    hide Consistent, ValidConnection;
    if UpdateConnection(t, c, expectedVersion).1.Ok? {
      var current := t.connections[c.id];
      RenameConnectionKeeps(t, c.(version := current.version + 1, createdAt := current.createdAt));
    }
  }

  /** More mailboxes take nothing away. */
  lemma MoreMailboxes(t: Tables, mailboxes: map<string, Mailbox>)
    requires AliasesRefer(t.aliases, t.mailboxes) && CredentialsRefer(t.credentials, t.mailboxes)
    requires PickupKeysRefer(t.pickupKeys, t.mailboxes) && AccountsRefer(t.accounts, t.aliases, t.mailboxes)
    requires t.mailboxes.Keys <= mailboxes.Keys
    ensures AliasesRefer(t.aliases, mailboxes) && CredentialsRefer(t.credentials, mailboxes)
    ensures PickupKeysRefer(t.pickupKeys, mailboxes) && AccountsRefer(t.accounts, t.aliases, mailboxes)
  {
  }

  lemma AddMailboxKeeps(t: Tables, m: Mailbox)
    requires Consistent(t) && m.id !in t.mailboxes && MailboxIdentity(m) !in t.mailboxByIdentity
    ensures Consistent(t.(mailboxes := t.mailboxes[m.id := m],
            mailboxByIdentity := t.mailboxByIdentity[MailboxIdentity(m) := m.id]))
  {
    IndexAdd(t.mailboxes, t.mailboxByIdentity, MailboxIdentity, m.id, m);
    MoreMailboxes(t, t.mailboxes[m.id := m]);
    hide IsIndex, ConnectionsOK, AliasesRefer, CredentialsRefer, PickupKeysRefer, AccountsRefer,
      PlatformCredentialsRefer;
  }

  lemma CreateMailboxKeeps(t: Tables, m: Mailbox)
    requires Consistent(t)
    ensures Consistent(CreateMailbox(t, m).0)
  {
    hide Consistent;
    if CreateMailbox(t, m).1.Ok? { AddMailboxKeeps(t, m); }
  }

  lemma ReplaceMailboxKeeps(t: Tables, m: Mailbox)
    requires Consistent(t) && m.id in t.mailboxes && MailboxIdentity(m) == MailboxIdentity(t.mailboxes[m.id])
    ensures Consistent(t.(mailboxes := t.mailboxes[m.id := m]))
  {
    IndexReplace(t.mailboxes, t.mailboxByIdentity, MailboxIdentity, m.id, m);
    MoreMailboxes(t, t.mailboxes[m.id := m]);
    hide IsIndex, ConnectionsOK, AliasesRefer, CredentialsRefer, PickupKeysRefer, AccountsRefer,
      PlatformCredentialsRefer;
  }

  lemma AddAliasKeeps(t: Tables, a: Alias)
    requires Consistent(t) && a.mailboxID in t.mailboxes && a.id !in t.aliases && AliasIdentity(a) !in t.aliasByIdentity
    ensures Consistent(t.(aliases := t.aliases[a.id := a],
            aliasByIdentity := t.aliasByIdentity[AliasIdentity(a) := a.id]))
  {
    hide IsIndex, ConnectionsOK, MailboxesOK, CredentialsRefer, PickupKeysRefer, PlatformCredentialsRefer;
    IndexAdd(t.aliases, t.aliasByIdentity, AliasIdentity, a.id, a);
  }

  lemma CreateAliasKeeps(t: Tables, a: Alias)
    requires Consistent(t)
    ensures Consistent(CreateAlias(t, a).0)
  {
    hide Consistent;
    if CreateAlias(t, a).1.Ok? { AddAliasKeeps(t, a); }
  }

  lemma SwapCredentialKeeps(credentials: map<Identity, Credential>, mailboxes: map<string, Mailbox>, c: Credential)
    requires CredentialsRefer(credentials, mailboxes) && c.mailboxID in mailboxes
    ensures var r := SwapCredential(credentials, c); r.Ok? ==> CredentialsRefer(r.value, mailboxes)
  {
  }

  lemma UpsertCredentialKeeps(t: Tables, c: Credential)
    requires Consistent(t)
    ensures Consistent(UpsertCredential(t, c).0)
  {
    hide IsIndex, ConnectionsOK, MailboxesOK, AliasesRefer, CredentialsRefer, PickupKeysRefer, AccountsRefer,
      PlatformCredentialsRefer, SwapCredential;
    if c.mailboxID in t.mailboxes { SwapCredentialKeeps(t.credentials, t.mailboxes, c); }
  }

  lemma AddPickupKeyKeeps(t: Tables, k: PickupKey)
    requires Consistent(t) && k.mailboxID in t.mailboxes && k.id !in t.pickupKeys && k.digest !in t.pickupByDigest
    ensures Consistent(t.(pickupKeys := t.pickupKeys[k.id := k], pickupByDigest := t.pickupByDigest[k.digest := k.id]))
  {
    IndexAdd(t.pickupKeys, t.pickupByDigest, PickupDigest, k.id, k);
    hide IsIndex, ConnectionsOK, MailboxesOK, AliasesRefer, CredentialsRefer, AccountsRefer, PlatformCredentialsRefer;
  }

  lemma CreatePickupKeyKeeps(t: Tables, k: PickupKey)
    requires Consistent(t)
    ensures Consistent(CreatePickupKey(t, k).0)
  {
    hide Consistent;
    if CreatePickupKey(t, k).1.Ok? { AddPickupKeyKeeps(t, k); }
  }

  lemma RevokePickupKeyKeeps(t: Tables, mailboxID: string, keyID: string, now: int)
    requires Consistent(t)
    ensures Consistent(RevokePickupKey(t, mailboxID, keyID, now).0)
  {
    if keyID in t.pickupKeys {
      IndexReplace(t.pickupKeys, t.pickupByDigest, PickupDigest, keyID, t.pickupKeys[keyID].(revokedAt := Some(now)));
    }
    hide IsIndex, ConnectionsOK, MailboxesOK, AliasesRefer, CredentialsRefer, AccountsRefer, PlatformCredentialsRefer;
  }

  lemma PutAccountKeeps(t: Tables, a: Account)
    requires Consistent(t) && AccountRefers(a, t.aliases, t.mailboxes)
    ensures Consistent(t.(accounts := t.accounts[a.id := a]))
  {
    hide IsIndex, ConnectionsOK, MailboxesOK, AliasesRefer, CredentialsRefer, PickupKeysRefer, AccountRefers;
  }

  lemma CreateAccountKeeps(t: Tables, a: Account)
    requires Consistent(t)
    ensures Consistent(CreateAccount(t, a).0)
  {
    hide Consistent;
    if CreateAccount(t, a).1.Ok? { PutAccountKeeps(t, a); }
  }

  lemma PutPlatformCredentialKeeps(t: Tables, c: PlatformCredential)
    requires Consistent(t) && c.accountID in t.accounts
    ensures Consistent(t.(platformCredentials := PutPlatformCredential(t.platformCredentials, c)))
  {
    hide IsIndex, ConnectionsOK, MailboxesOK, AliasesRefer, CredentialsRefer, PickupKeysRefer, AccountsRefer;
  }

  lemma UpsertPlatformCredentialKeeps(t: Tables, c: PlatformCredential)
    requires Consistent(t)
    ensures Consistent(UpsertPlatformCredential(t, c).0)
  {
    hide Consistent;
    if c.accountID in t.accounts { PutPlatformCredentialKeeps(t, c); }
  }

  lemma ImportCredentialKeeps(credentials: map<Identity, Credential>, mailboxes: map<string, Mailbox>, item: Item,
      mailboxID: string, isNew: bool)
    requires CredentialsRefer(credentials, mailboxes) && mailboxID in mailboxes
    ensures CredentialsRefer(ImportCredential(credentials, item, mailboxID, isNew), mailboxes)
  {
  }

  lemma ImportAccountKeeps(t: Tables, item: Item, mailboxID: string)
    requires AccountsRefer(t.accounts, t.aliases, t.mailboxes)
             && PlatformCredentialsRefer(t.platformCredentials, t.accounts)
    requires mailboxID in t.mailboxes
    ensures AccountsRefer(ImportAccount(t.accounts, item, mailboxID), t.aliases, t.mailboxes)
    ensures PlatformCredentialsRefer(ImportPlatformCredential(t.platformCredentials, item),
            ImportAccount(t.accounts, item, mailboxID))
  {
  }

  lemma ImportPickupKeyKeeps(t: Tables, item: Item, mailboxID: string)
    requires IsIndex(t.pickupKeys, t.pickupByDigest, PickupDigest) && PickupKeysRefer(t.pickupKeys, t.mailboxes)
             && mailboxID in t.mailboxes
    ensures var r := ImportPickupKey(t.pickupKeys, t.pickupByDigest, item, mailboxID);
            r.Ok? ==> IsIndex(r.value.0, r.value.1, PickupDigest) && PickupKeysRefer(r.value.0, t.mailboxes)
  {
    if item.pickupKey.Some? {
      var k := item.pickupKey.value.(mailboxID := mailboxID);
      if k.id !in t.pickupKeys && k.digest !in t.pickupByDigest {
        IndexAdd(t.pickupKeys, t.pickupByDigest, PickupDigest, k.id, k);
      }
    }
    hide IsIndex;
  }

  lemma ImportRestKeeps(t: Tables, item: Item, mailboxID: string, isNew: bool)
    requires Consistent(t) && mailboxID in t.mailboxes
    ensures var r := ImportRest(t, item, mailboxID, isNew);
            r.Ok? ==>
              && Consistent(r.value)
              && r.value.mailboxes == t.mailboxes
              && r.value.mailboxByIdentity == t.mailboxByIdentity
  {
    hide IsIndex, ConnectionsOK, MailboxesOK, AliasesRefer, CredentialsRefer, PickupKeysRefer, AccountsRefer,
      PlatformCredentialsRefer;
    hide ImportCredential, ImportAccount, ImportPlatformCredential, ImportPickupKey;
    ImportCredentialKeeps(t.credentials, t.mailboxes, item, mailboxID, isNew);
    ImportAccountKeeps(t, item, mailboxID);
    ImportPickupKeyKeeps(t, item, mailboxID);
  }

  lemma IndexedMailbox(t: Tables, identity: Identity)
    requires Consistent(t) && identity in t.mailboxByIdentity
    ensures t.mailboxByIdentity[identity] in t.mailboxes
            && MailboxIdentity(t.mailboxes[t.mailboxByIdentity[identity]]) == identity
  {
    hide ConnectionsOK, AliasesRefer, CredentialsRefer, PickupKeysRefer, AccountsRefer, PlatformCredentialsRefer;
  }

  lemma ImportOneKeeps(t: Tables, tally: Tally, item: Item, strategy: Strategy)
    requires Consistent(t)
    ensures var r := ImportOne(t, tally, item, strategy);
            r.Ok? ==>
              && Consistent(r.value.0)
              && r.value.0.mailboxByIdentity.Keys == t.mailboxByIdentity.Keys + {MailboxIdentity(item.mailbox)}
  {
    hide Consistent, ImportRest;
    var identity := MailboxIdentity(item.mailbox);
    if identity in t.mailboxByIdentity {
      var id := t.mailboxByIdentity[identity];
      IndexedMailbox(t, identity);
      var kept := item.mailbox.(id := id, createdAt := t.mailboxes[id].createdAt);
      ReplaceMailboxKeeps(t, kept);
      ImportRestKeeps(t.(mailboxes := t.mailboxes[id := kept]), item, id, false);
    } else if item.mailbox.id !in t.mailboxes {
      var t1 := t.(mailboxes := t.mailboxes[item.mailbox.id := item.mailbox],
                   mailboxByIdentity := t.mailboxByIdentity[identity := item.mailbox.id]);
      AddMailboxKeeps(t, item.mailbox);
      ImportRestKeeps(t1, item, item.mailbox.id, true);
    }
  }

  lemma {:induction false} ImportItemsKeeps(t: Tables, tally: Tally, items: seq<Item>, strategy: Strategy)
    requires Consistent(t)
    ensures ImportItems(t, tally, items, strategy).Ok? ==> Consistent(ImportItems(t, tally, items, strategy).value.0)
    decreases |items|
  {
    if items != [] {
      hide Consistent, ImportOne;
      ImportItemsKeeps(t, tally, items[..|items| - 1], strategy);
      var before := ImportItems(t, tally, items[..|items| - 1], strategy);
      if before.Ok? { ImportOneKeeps(before.value.0, before.value.1, items[|items| - 1], strategy); }
    }
  }

  /** A bulk import keeps consistency, and leaves everything as it was when it fails. */
  lemma ImportMailboxesKeeps(t: Tables, items: seq<Item>, strategy: Strategy)
    requires Consistent(t)
    ensures Consistent(ImportMailboxes(t, items, strategy).0)
    ensures ImportMailboxes(t, items, strategy).1.Err? ==> ImportMailboxes(t, items, strategy).0 == t
  {
    ImportItemsKeeps(t, Tally(0, 0, 0, []), items, strategy);
    hide Consistent;
  }

  // ---------------------------------------------------------------- runs of operations

  datatype Op =
    | OpCreateConnection(connection: Connection)
    | OpUpdateConnection(connection: Connection, expectedVersion: nat)
    | OpCreateMailbox(mailbox: Mailbox)
    | OpCreateAlias(alias: Alias)
    | OpUpsertCredential(credential: Credential)
    | OpCreatePickupKey(key: PickupKey)
    | OpRevokePickupKey(mailboxID: string, keyID: string, now: int)
    | OpCreateAccount(account: Account)
    | OpUpsertPlatformCredential(platformCredential: PlatformCredential)
    | OpImport(items: seq<Item>, strategy: Strategy)

  function Apply(t: Tables, op: Op): Tables {
    match op
    case OpCreateConnection(c) => CreateConnection(t, c).0
    case OpUpdateConnection(c, v) => UpdateConnection(t, c, v).0
    case OpCreateMailbox(m) => CreateMailbox(t, m).0
    case OpCreateAlias(a) => CreateAlias(t, a).0
    case OpUpsertCredential(c) => UpsertCredential(t, c).0
    case OpCreatePickupKey(k) => CreatePickupKey(t, k).0
    case OpRevokePickupKey(m, k, now) => RevokePickupKey(t, m, k, now).0
    case OpCreateAccount(a) => CreateAccount(t, a).0
    case OpUpsertPlatformCredential(c) => UpsertPlatformCredential(t, c).0
    case OpImport(items, strategy) => ImportMailboxes(t, items, strategy).0
  }

  function EmptyTables(): Tables {
    Tables(map[], map[], map[], map[], map[], map[], map[], map[], map[], map[], map[])
  }

  function Run(ops: seq<Op>): Tables
    decreases |ops|
  {
    if ops == [] then EmptyTables() else Apply(Run(ops[..|ops| - 1]), ops[|ops| - 1])
  }

  lemma ApplyKeeps(t: Tables, op: Op)
    requires Consistent(t)
    ensures Consistent(Apply(t, op))
  {
    hide Consistent, CreateConnection, UpdateConnection, CreateMailbox, CreateAlias, UpsertCredential, CreatePickupKey,
         RevokePickupKey, CreateAccount, UpsertPlatformCredential, ImportMailboxes;
    match op
    case OpCreateConnection(c) => CreateConnectionKeeps(t, c);
    case OpUpdateConnection(c, v) => UpdateConnectionKeeps(t, c, v);
    case OpCreateMailbox(m) => CreateMailboxKeeps(t, m);
    case OpCreateAlias(a) => CreateAliasKeeps(t, a);
    case OpUpsertCredential(c) => UpsertCredentialKeeps(t, c);
    case OpCreatePickupKey(k) => CreatePickupKeyKeeps(t, k);
    case OpRevokePickupKey(m, k, now) => RevokePickupKeyKeeps(t, m, k, now);
    case OpCreateAccount(a) => CreateAccountKeeps(t, a);
    case OpUpsertPlatformCredential(c) => UpsertPlatformCredentialKeeps(t, c);
    case OpImport(items, strategy) => ImportMailboxesKeeps(t, items, strategy);
  }

  /** After any sequence of operations every index is the exact inverse of its table, and every alias,
      credential, pickup key and account refers to a row that exists. */
  lemma {:induction false} RunIsConsistent(ops: seq<Op>)
    ensures Consistent(Run(ops))
    decreases |ops|
  {
    if ops != [] {
      RunIsConsistent(ops[..|ops| - 1]);
      ApplyKeeps(Run(ops[..|ops| - 1]), ops[|ops| - 1]);
      hide Consistent, Apply;
    }
  }

  /** An import stops at the first item that fails. */
  lemma {:induction false} FailedPrefixFails(t: Tables, tally: Tally, items: seq<Item>, i: nat, strategy: Strategy)
    requires i <= |items|
    ensures ImportItems(t, tally, items[..i], strategy).Err? ==>
              ImportItems(t, tally, items, strategy) == ImportItems(t, tally, items[..i], strategy)
    ensures i < |items| && ImportItems(t, tally, items[..i + 1], strategy).Err? ==>
              ImportItems(t, tally, items, strategy) == ImportItems(t, tally, items[..i + 1], strategy)
    decreases |items|
  {
    hide ImportOne;
    if i < |items| {
      var shorter := items[..|items| - 1];
      assert shorter[..i] == items[..i];
      FailedPrefixFails(t, tally, shorter, i, strategy);
      if i + 1 < |items| { assert shorter[..i + 1] == items[..i + 1]; } else { assert items[..i + 1] == items; }
    } else {
      assert items[..i] == items;
    }
  }

  predicate SameConnectionsAndAliases(t: Tables, t': Tables) {
    && t'.connections == t.connections && t'.connectionByIdentity == t.connectionByIdentity
    && t'.aliases == t.aliases && t'.aliasByIdentity == t.aliasByIdentity
  }

  lemma ImportItemsSnoc(t: Tables, tally: Tally, items: seq<Item>, strategy: Strategy)
    requires items != []
    ensures ImportItems(t, tally, items[..|items| - 1], strategy).Err? ==>
              ImportItems(t, tally, items, strategy) == ImportItems(t, tally, items[..|items| - 1], strategy)
    ensures ImportItems(t, tally, items[..|items| - 1], strategy).Ok? ==>
              var before := ImportItems(t, tally, items[..|items| - 1], strategy).value;
              ImportItems(t, tally, items, strategy) == ImportOne(before.0, before.1, items[|items| - 1], strategy)
  {
    hide ImportOne;
  }

  lemma ImportItemsStep(t: Tables, tally: Tally, items: seq<Item>, i: nat, strategy: Strategy)
    requires i < |items| && ImportItems(t, tally, items[..i], strategy).Ok?
    ensures var before := ImportItems(t, tally, items[..i], strategy).value;
            ImportItems(t, tally, items[..i + 1], strategy) == ImportOne(before.0, before.1, items[i], strategy)
  {
    assert items[..i + 1][..i] == items[..i];
    hide ImportOne;
  }

  /** An import leaves connections and aliases alone. */
  lemma {:induction false} ImportsWhat(t: Tables, tally: Tally, items: seq<Item>, strategy: Strategy)
    ensures var r := ImportItems(t, tally, items, strategy);
            r.Ok? ==> SameConnectionsAndAliases(t, r.value.0)
    decreases |items|
  {
    if items != [] {
      var item, before := items[|items| - 1], ImportItems(t, tally, items[..|items| - 1], strategy);
      ImportsWhat(t, tally, items[..|items| - 1], strategy);
      if before.Ok? { ImportOneWhat(before.value.0, before.value.1, item, strategy); }
      hide ImportOne;
    }
  }

  lemma ImportOneWhat(t: Tables, tally: Tally, item: Item, strategy: Strategy)
    ensures var r := ImportOne(t, tally, item, strategy);
            r.Ok? ==> SameConnectionsAndAliases(t, r.value.0)
  {
    hide ImportCredential, ImportAccount, ImportPlatformCredential, ImportPickupKey;
  }

  // ---------------------------------------------------------------- compare-and-swap across operations

  lemma SecondSwapConflicts(credentials: map<Identity, Credential>, first: Credential, second: Credential)
    requires first.mailboxID == second.mailboxID && first.kind == second.kind && first.version == second.version
    requires SwapCredential(credentials, first).Ok?
    ensures SwapCredential(SwapCredential(credentials, first).value, second) == Err(Conflict)
  {
  }

  /** Of two writes that have read the same version of a credential, the second conflicts. */
  lemma SecondWriteConflicts(t: Tables, first: Credential, second: Credential)
    requires first.mailboxID == second.mailboxID && first.kind == second.kind && first.version == second.version
    requires UpsertCredential(t, first).1.Ok?
    ensures UpsertCredential(UpsertCredential(t, first).0, second).1 == Err(Conflict)
  {
    hide SwapCredential;
    SecondSwapConflicts(t.credentials, first, second);
  }

  /** An import that updates a credential makes a write based on the version before it conflict. */
  lemma ImportOutdatesReads(t: Tables, tally: Tally, item: Item, read: Credential)
    requires Consistent(t) && MailboxIdentity(item.mailbox) in t.mailboxByIdentity && item.credential.Some?
    requires var key := (t.mailboxByIdentity[MailboxIdentity(item.mailbox)], item.credential.value.kind);
             key in t.credentials && read == t.credentials[key]
    requires ImportOne(t, tally, item, Update).Ok?
    ensures UpsertCredential(ImportOne(t, tally, item, Update).value.0, read).1 == Err(Conflict)
  {
    var identity := MailboxIdentity(item.mailbox);
    var id := t.mailboxByIdentity[identity];
    var key := (id, item.credential.value.kind);
    IndexedMailbox(t, identity);
    ReadIsKeyed(t, key);
    hide Consistent, ImportAccount, ImportPlatformCredential, ImportPickupKey;
    var t' := ImportOne(t, tally, item, Update).value.0;
    assert t'.credentials == ImportCredential(t.credentials, item, id, false);
    assert t'.credentials[key].version == read.version + 1 && id in t'.mailboxes;
  }

  lemma ReadIsKeyed(t: Tables, key: Identity)
    requires Consistent(t) && key in t.credentials
    ensures t.credentials[key].mailboxID == key.0 && t.credentials[key].kind == key.1
  {
    hide IsIndex, ConnectionsOK, MailboxesOK, AliasesRefer, PickupKeysRefer, AccountsRefer, PlatformCredentialsRefer;
  }
}
