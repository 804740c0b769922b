/** The accounts of RefreshProtocol as rows of the store of MailboxTables: the compare-and-swap of a refresh
    is that of UpsertCredential, and the import of a credential is that of a bulk import. */
module CredentialRows {
  import opened Wrappers
  import Protocol = RefreshProtocol
  import Tables = MailboxTables
  import Tokens = TokenChain

  /** The sealed text of a credential. */
  type Sealing = Tokens.Credential -> string

  /** A row holds the credential of an account at its version. */
  predicate Holds(credentials: map<Tables.Identity, Tables.Credential>, key: Tables.Identity,
      account: Protocol.Account, seal: Sealing) {
    && key in credentials
    && credentials[key].version == account.version
    && credentials[key].secret == seal(account.credential)
  }

  /** A refresh that has read a version writes by UpsertCredential: it is refused exactly when the version
      has changed, and leaves the row of the account that the protocol leaves. */
  lemma WriteIsUpsert(t: Tables.Tables, key: Tables.Identity, account: Protocol.Account, version: nat,
      credential: Tokens.Credential, outcome: Tokens.Outcome, seal: Sealing)
    requires Tables.Consistent(t) && Holds(t.credentials, key, account, seal)
    ensures var row := t.credentials[key].(version := version, secret := seal(Tokens.Stored(credential, outcome)));
            var (t', r) := Tables.UpsertCredential(t, row);
            && (r.Ok? <==> account.version == version)
            && (r.Err? ==> r == Err(Tables.Conflict) && t' == t)
            && Holds(t'.credentials, key, Protocol.Writing(account, version, credential, outcome), seal)
  {
    RowIsKeyed(t, key);
    hide Tables.Consistent, Tokens.Stored;
  }

  lemma RowIsKeyed(t: Tables.Tables, key: Tables.Identity)
    requires Tables.Consistent(t) && key in t.credentials
    ensures (t.credentials[key].mailboxID, t.credentials[key].kind) == key && key.0 in t.mailboxes
  {
    hide Tables.IsIndex, Tables.ConnectionsOK, Tables.MailboxesOK, Tables.AliasesRefer, Tables.PickupKeysRefer,
      Tables.AccountsRefer, Tables.PlatformCredentialsRefer;
  }

  /** A bulk import that updates a mailbox is an import of the protocol: one version more, with the
      imported credential. */
  lemma UpdateIsImport(t: Tables.Tables, tally: Tables.Tally, item: Tables.Item, account: Protocol.Account,
      credential: Tokens.Credential, server: Tokens.Server, seal: Sealing)
    requires Tables.Consistent(t) && Tables.MailboxIdentity(item.mailbox) in t.mailboxByIdentity
    requires item.credential.Some? && item.credential.value.secret == seal(credential)
    requires var key := (t.mailboxByIdentity[Tables.MailboxIdentity(item.mailbox)], item.credential.value.kind);
             Holds(t.credentials, key, account, seal)
    requires Tables.ImportOne(t, tally, item, Tables.Update).Ok?
    ensures var key := (t.mailboxByIdentity[Tables.MailboxIdentity(item.mailbox)], item.credential.value.kind);
            Holds(Tables.ImportOne(t, tally, item, Tables.Update).value.0.credentials, key,
                  Protocol.Account(account.version + 1, credential, server, account.log), seal)
  {
    var id := t.mailboxByIdentity[Tables.MailboxIdentity(item.mailbox)];
    hide Tables.Consistent, Tables.ImportAccount, Tables.ImportPlatformCredential, Tables.ImportPickupKey;
    assert Tables.ImportOne(t, tally, item, Tables.Update).value.0.credentials
        == Tables.ImportCredential(t.credentials, item, id, false);
  }
}
