# Verified model of the account manager backend

The project models the stateful core of the backend in Dafny and proves properties of it. Four
groups of components are covered.

- **Message sync.** `CacheStore` is the message cache, `MessageSync` one call of Sync with a crash
  possible between any two of its writes. `GraphDelta`, `GraphSync` and `GraphRuns` drive it with
  Microsoft Graph delta pages, `ImapSync` with IMAP UIDs (sections 2.3.1.1 and 6.4.8 of RFC 3501),
  `Backfill` with the backward time cursor. `RangeBisection` is the bisecting retrieval of a range,
  `RangeRestore` caches it, `CacheCleanup` is the retention worker.
- **Credential refresh.** `TokenChain` is the rotating refresh token, `RefreshLocks` the
  reference-counted lock table, and `RefreshProtocol` puts both together with the compare-and-swap
  of the store, as interleaved steps of any number of threads; `CredentialRows` ties it to the store.
- **Import and export.** `DelimitedCodec` and `DelimitedFile`, `TemplateCodec` and `TemplateExact`, the
  store with its secondary indexes (`MailboxTables`, `MailboxStore`), when an import collides and what
  it leaves alone (`ImportCollisions`, `ImportFrame`), and `ImportPreview`.
- **Background work.** `BackupStore`, `BackupLease` and `BackupScheduler`, `RestoreTable`, and the
  refresh job pool `JobPool`.

Code that changes things step by step is a method or a class whose `ensures` ties it to a function
on values; the lemmas are about these functions. Interleavings are step functions over events, and
a run is a sequence of events. `Collections`, `Formats`, `Text` and `Wrappers` are shared helpers.

Conventions. Strings are sequences of code points, so invalid UTF-8 is outside the model, and lower
case is that of ASCII. Times are integers, in nanoseconds. Map keys that the source joins with a NUL
are tuples, and message ids that it derives by hashing are the tuples themselves; mailbox ids are an
arbitrary injective function of provider and address. Message ids and addresses are taken as already
trimmed and lower-cased. Sealing and opening secrets is the identity where it succeeds. The network
is an oracle: pages, replies, token answers and search results are parameters. The clock, drawn ids
and the order of map iteration are parameters or arbitrary choices. A cancelled context is a crash
point or a failed request.

Points where the code does less than one might expect are stated as lemmas with their exact
conditions: a failed fallback retrieval counts as complete and ends a backfill
(`Backfill.FailedRetrieveCoversIff`, `Backfill.FailedRetrieveLosesBackfill`); a cleanup batch size
above the cap of the store stops the cleanup after one batch (`CacheCleanup.RunOnce`,
`CacheCleanup.OversizedBatchStopsShort`); a line or a record is misread when what ends a value occurs
in it (`DelimitedCodec.LineRoundTrip`, `TemplateCodec.MatchRendered`); more messages at one instant
than a provider returns, or any such range of a provider that returns fewer than 500, are lost to a
range restore (`RangeBisection.BurstIsLost`, `RangeBisection.LowCapNeverSplits`); an import that skips
known mailboxes still takes over an account that one of its new mailboxes names
(`ImportFrame.KeepsRowsButAccounts`, `ImportFrame.SkipTakesAccount`).

## Model

| member | source | states |
|---|---|---|
| DelimitedCodec.ParseDelimitedLine | backend/internal/service/importexport.go:350-383 | the scanning loop computes the line parser; only an empty delimiter yields no field at all |
| DelimitedCodec.EncodeDelimitedLine | backend/internal/service/importexport.go:893-902 | the escaping loop computes the printed line |
| DelimitedCodec.LineRoundTrip | backend/internal/service/importexport.go:350-383 | parsing a printed line gives the values back if and only if, for every value but the last that is written unquoted, the delimiter first occurs in value + delimiter at the end of the value |
| DelimitedCodec.DelimiterAlwaysSafeIff | backend/internal/service/importexport.go:893-902 | the round trip holds for all value lists if and only if no proper prefix of the delimiter is also its suffix |
| DelimitedCodec.BuiltinRoundTrip | backend/internal/service/formats.go:248 | for the shipped four-dash delimiter: exactly when no unquoted value but the last ends in a dash |
| DelimitedFile.ParseDelimitedInput | backend/internal/service/importexport.go:289-348 | the line loop with its header, column and required-field rules computes the file parser, errors included |
| DelimitedFile.RenderExport | backend/internal/service/importexport.go:850-865 | the export loop computes the printed file |
| DelimitedFile.FileRoundTrip | backend/internal/service/importexport.go:289-348 | importing an exported file restores every record in order with its line number, for trimmed values without line breaks on separable, non-blank lines, with or without a header |
| DelimitedFile.RestoredRowMeans | backend/internal/service/importexport.go:328-341 | a restored row holds each field, or its default where it was empty, and an error for each required field that has neither |
| TemplateCodec.CompileRecord | backend/internal/service/importexport.go:1017-1060 | a template compiles exactly when it has a capture, no two captures touch, every name resolves and no target repeats |
| TemplateCodec.RenderCompiledTemplateRecord | backend/internal/service/importexport.go:1231-1255 | the rendering loop computes the record text |
| TemplateCodec.MatchSound | backend/internal/service/importexport.go:1171-1200 | what the lazy matcher returns is a way to read the input: literals, captures, then a separator or the end |
| TemplateCodec.MatchLeftmostFirst | backend/internal/service/importexport.go:1048-1052 | among all ways to read the input the matcher returns the one a lazy regular expression prefers: each capture, left to right, as short as possible |
| TemplateCodec.MatchRendered | backend/internal/service/importexport.go:1171-1200 | a rendered record, at the end or in front of a separator, is read back as it was if and only if what follows each captured text (its literal; for the last one its literal and the separator) does not occur earlier in it |
| TemplateCodec.RawTemplateRow | backend/internal/service/importexport.go:1202-1229 | the row loop computes the mapped row: defaults, captures, JSON decoding, required fields |
| TemplateCodec.ParseTemplateRecordSequence | backend/internal/service/importexport.go:1171-1200 | the record loop terminates and computes the parsed sequence, mismatch errors included |
| TemplateCodec.SequenceRoundTrip | backend/internal/service/importexport.go:1171-1200 | parsing the joined renderings of records restores them all, in order and with their line numbers |
| TemplateCodec.TemplateRoundTrip | backend/internal/service/importexport.go:931-971 | the same for a whole file with prefix, suffix and separator, through byte-order-mark and newline normalisation |
| TemplateExact.SequenceRestoredIff | backend/internal/service/importexport.go:1171-1200 | without JSON captures, joined renderings are restored if and only if no text of a record ends early and the last record is not the empty text |
| TemplateCodec.RestoredRowHolds | backend/internal/service/importexport.go:1202-1229 | a restored row holds the exported value of every capture |
| TemplateCodec.AmbiguousTemplateMisreads | backend/internal/service/importexport.go:1048-1052 | a counterexample: a value that contains the literal after it is read back differently |
| RangeBisection.LeavesPartition | backend/internal/service/message_cache.go:107-132 | the pieces whose results are kept follow one another and cover exactly [after, before) |
| RangeBisection.ResultIsLeavesInOrder | backend/internal/service/message_cache.go:107-132 | the result is the results of these pieces, oldest first; one failed query fails the whole |
| RangeBisection.CallsBounded | backend/internal/service/message_cache.go:107-132 | at most 2^21 - 1 queries |
| RangeBisection.CompleteIff | backend/internal/service/message_cache.go:107-132 | nothing is returned twice or from outside, and everything is returned if and only if no kept piece holds more messages than the provider cap |
| RangeBisection.CompleteIffFinestHold | backend/internal/service/message_cache.go:107-132 | on the range and the mailbox alone, for a provider cap of at least 500: complete if and only if no finest halving of the range, down to one second or twenty halvings, holds more messages than the cap |
| RangeBisection.RestoreIsComplete | backend/internal/service/message_cache.go:107-132 | a retrieval of up to 2^20 seconds returns every message exactly once unless one second holds more than the cap |
| RangeBisection.LowCapNeverSplits | backend/internal/service/message_cache.go:118-121 | a provider that returns fewer than 500 messages at most is never bisected: the result is complete if and only if the whole range holds no more than it returns |
| RangeBisection.BurstIsLost | backend/internal/service/message_cache.go:118-121 | more messages than the cap at one instant are never all returned |
| RangeRestore.RestoreRange | backend/internal/service/message_cache.go:72-100 | validation, retrieval, the loop that converts the messages, and the upsert, with every error branch |
| RangeRestore.RestoreCachesRange | backend/internal/service/message_cache.go:72-132 | under that condition a restore caches exactly the cacheable messages of the range; it counts the new ones and leaves other entries, viewed times and sync states alone |
| RangeRestore.RestoredEntryIsRetrieved | backend/internal/service/message_cache.go:91-100 | an entry it leaves is a message of the range with the method that found it |
| CacheStore.Store.UpsertCachedMessages | backend/internal/repository/memory/message_cache.go:14-35 | the loop of replacements, with the viewed time kept and new messages counted, up to the first unknown mailbox |
| CacheStore.Store.DeleteCachedMessages | backend/internal/repository/memory/message_cache.go:136-155 | removes exactly the messages of the folder, method and ids given, and counts them |
| CacheStore.Store.SaveMessageSyncState | backend/internal/repository/memory/message_cache.go:74-87 | replaces the state, but for a later time of the newest message |
| CacheStore.Store.MarkCachedMessageViewed | backend/internal/repository/memory/message_cache.go:115-134 | records the first viewing only |
| CacheStore.UpsertMeans | backend/internal/repository/memory/message_cache.go:14-35 | key by key: the last entry of a batch wins, the viewed time survives, other keys are untouched |
| CacheStore.UpsertKeys | backend/internal/repository/memory/message_cache.go:14-35 | an upsert adds the keys of its batch and no others |
| CacheStore.UpsertCounts | backend/internal/repository/memory/message_cache.go:14-35 | the count is the number of keys that are new |
| CacheStore.SaveMeans | backend/internal/repository/memory/message_cache.go:74-87 | the stored time of the newest message never moves back |
| MessageSync.OldestMessageTime | backend/internal/service/message_cache.go:374-383 | the accumulating loop computes the oldest time |
| MessageSync.OldestIsLeast | backend/internal/service/message_cache.go:374-383 | that time is the least receive time of the messages, and missing only if all are undated |
| MessageSync.MessageCacheService.FetchBatch | backend/internal/service/message_cache.go:295-325 | the retry after an invalid cursor, the fallback query and its cursor rule, and every error branch |
| MessageSync.MessageCacheService.CacheEntries | backend/internal/service/message_cache.go:332-346 | the loop that filters, converts and tracks the newest message |
| MessageSync.MessageCacheService.StoreFetched | backend/internal/service/message_cache.go:332-358 | upsert, delete and save of a fetched batch in this order, with a crash possible between any two |
| MessageSync.MessageCacheService.SyncOnce | backend/internal/service/message_cache.go:269-363 | one Sync loads the state, fetches, and stores what it fetched, or saves the error |
| MessageSync.CacheBatchHolds | backend/internal/service/message_cache.go:436-455 | a batch holds exactly the entries of the messages for the target that have an identity and a time |
| MessageSync.NewestIsGreatest | backend/internal/service/message_cache.go:337-345 | the tracked time bounds every entry of the batch and is one of them or the old one |
| MessageSync.StoreCaches | backend/internal/service/message_cache.go:347-358 | a stored batch is cached, forgets nothing, and saves its cursor unless it crashes first |
| GraphDelta.SyncGraphDelta | backend/internal/providers/microsoft.go:875-953 | the page loop with its page cap and message limit computes the reply |
| GraphDelta.DeltaReplyFetches | backend/internal/providers/microsoft.go:905-953 | a request fetches the pages from its cursor on, at least one, and its new cursor leads to the first page not fetched |
| GraphSync.ApplyItemsMeans | backend/internal/providers/microsoft.go:911-927 | item by item, the last item that concerns a message decides how it ends |
| GraphSync.BatchMeans | backend/internal/service/message_cache.go:347-353 | the same for the two writes of a batch: last addition first, then every removal |
| GraphRuns.BatchEqualsSequential | backend/internal/service/message_cache.go:347-353 | a batch leaves the cache that its items leave one by one if and only if nothing removed in it is added again in it later |
| GraphRuns.CompleteIffRoundEnds | backend/internal/providers/microsoft.go:945-952 | Complete is reported exactly when the last page of a round is in; every completed batch takes in at least one page |
| GraphRuns.StepKeeps | backend/internal/service/message_cache.go:296-358 | every attempt, crashed at any point, failed or completed, and every expired link, keeps the cache in agreement with the reference at its position |
| GraphRuns.FinishedRunIsSequential | backend/internal/service/message_cache.go:296-358 | over any number of rounds, whatever the batch sizes and whatever crashed, failed or expired, a run that took in the last page leaves the cache of the items applied one by one |
| GraphRuns.RoundsCompose | backend/internal/providers/microsoft.go:930-944 | where the rounds that a server offers end, later rounds begin: two runs one after the other leave the cache of all items applied in order |
| GraphRuns.EachSuccessAdvances | backend/internal/service/message_cache.go:296-358 | completed attempts are no more than the pages, so draining ends |
| GraphRuns.DrainFolder | backend/internal/service/initial_message_sync_worker.go:81-99 | the drain loop completes within its batch bound whenever the round has at most that many pages, and then holds the reference cache |
| GraphRuns.SyncMailbox | backend/internal/service/initial_message_sync_worker.go:81-99 | inbox, then junk: it fails only past the batch bound, and otherwise leaves the reference cache of both folders |
| GraphRuns.AttemptOutside | backend/internal/service/message_cache.go:269-363 | a sync of one folder leaves everything outside it alone, the sync states included |
| Backfill.AttemptKeepsCoverage | backend/internal/service/message_cache.go:304-320 | every retrieved or crashed batch keeps each mailbox message cached, removed since, older than the cursor, or within the next forward query |
| Backfill.RunCovers | backend/internal/service/message_cache.go:304-358 | the same over whole runs with arrivals, disappearances, retention, deletions, range restores and failed retrievals outside a backfill |
| Backfill.CompleteSyncAfterRun | backend/internal/service/message_cache.go:314-316 | after any run, a Complete sync started without a cursor leaves the whole mailbox cached, but for what was removed |
| Backfill.IncompleteShrinksBacklog | backend/internal/service/message_cache.go:317-319 | an incomplete batch moves the cursor back past a message if and only if its reply has a dated message |
| Backfill.DrainingIsBounded | backend/internal/service/message_cache.go:314-319 | there are no more such batches in a row than messages before the cursor |
| Backfill.FailedRetrieveCoversIff | backend/internal/service/message_cache.go:314-331 | whatever the mailbox and the cache hold, coverage survives a failed retrieval if and only if no backfill is in progress or nothing was cached yet |
| Backfill.ShortRunLeavesOut | backend/internal/service/message_cache.go:304-319 | over whole runs an uncached message older than the overlap stays uncached as long as no backfill is in progress and no reply reaches the batch limit |
| Backfill.FailedRetrieveLosesBackfill | backend/internal/service/message_cache.go:314-331 | a counterexample from a mailbox never synced: 501 messages, the newest 500 cached, one failed retrieval, and the oldest stays uncached through all later syncs as long as no reply reaches the batch limit |
| ImapSync.SyncMicrosoftIMAP | backend/internal/providers/microsoft_imap.go:202-252 | UIDVALIDITY check, search, truncation and fetch compute the reply |
| ImapSync.FetchMails | backend/internal/providers/microsoft_imap.go:236-248 | the fetch loop computes the messages and the highest UID |
| ImapSync.FoundIs | backend/internal/providers/microsoft_imap.go:207-216 | the search finds everything new, in order, and an old message only when it finds nothing else |
| ImapSync.BatchSkipsNothing | backend/internal/providers/microsoft_imap.go:217-252 | everything at or below the reported UID that is new and still there was fetched |
| ImapSync.StepRaises | backend/internal/providers/microsoft_imap.go:203-206 | the saved UID never decreases under one UIDVALIDITY, though the search finds the last message again |
| ImapSync.NeverSkips | backend/internal/service/message_cache.go:321-325 | over whole runs with arrivals, expunges, UIDVALIDITY changes, failures, crashes, retention, deletions and range restores: everything at or below the saved UID is cached or was removed |
| ImapSync.CompleteCachesAll | backend/internal/providers/microsoft_imap.go:221-225 | a Complete batch leaves everything cached that is still on the server and was not removed |
| ImapSync.IncompleteShrinksPending | backend/internal/providers/microsoft_imap.go:221-225 | an incomplete batch leaves fewer pending UIDs |
| ImapSync.DrainingIsBounded | backend/internal/providers/microsoft_imap.go:221-225 | under one UIDVALIDITY there are no more incomplete batches than messages that were pending or arrived, whatever was expunged, failed or crashed in between |
| CacheCleanup.CleanupCachedMessages | backend/internal/repository/memory/message_cache.go:177-203 | one batch removes only expired messages and messages with enough kept ones at least as new, and a short batch leaves nothing to remove |
| CacheCleanup.RunOnce | backend/internal/service/message_cache_cleanup_worker.go:55-64 | the loop terminates with the one-shot retention for every batch size within the cap of the store, the clock advancing in between; with a larger batch size it stops after one batch, and the result is the retention if and only if no more messages have to go than the cap |
| CacheCleanup.RetentionKeepsExactly | backend/internal/repository/memory/message_cache.go:192-200 | without equal times the retention keeps exactly the unexpired messages among the newest of their folder, so batching cannot matter |
| CacheCleanup.JustifiedTrans | backend/internal/service/message_cache_cleanup_worker.go:55-64 | removals of successive batches compose |
| CacheCleanup.RetentionIff | backend/internal/repository/memory/message_cache.go:192-200 | a justified removal takes at most the surplus of every group, and is the retention if and only if it takes all of it |
| CacheCleanup.OversizedBatchStopsShort | backend/cmd/server/main.go:417 | instances: more than 10000 expired messages and a configured batch size above 10000; exactly 10000 go and the rest stays |
| RefreshLocks.RefreshLockTable.Register | backend/internal/service/retrieval.go:636-642 | the first section: a new user shares the lock of the users there are |
| RefreshLocks.RefreshLockTable.Deregister | backend/internal/service/retrieval.go:647-653 | the second section: the last user removes its entry and no other |
| RefreshLocks.LockDiscipline | backend/internal/service/retrieval.go:635-655 | over all interleavings: an entry exists exactly while it has users, counts them, is shared by them all, and lets one inside |
| RefreshLocks.QuiescentTableEmpty | backend/internal/service/retrieval.go:647-653 | without threads the table is empty |
| RefreshLocks.SomeThreadCanGoOn | backend/internal/service/retrieval.go:635-655 | no reachable state deadlocks |
| RefreshLocks.StepsLeftFalls | backend/internal/service/retrieval.go:635-655 | each step but a registration brings quiescence one step closer |
| TokenChain.TokenServer.RefreshGraphAccessToken | backend/internal/providers/microsoft.go:489-496 | the repeated request with the fallback scope |
| TokenChain.RefreshSharedDualCredential | backend/internal/providers/microsoft.go:295-334 | Graph, checkpoint, IMAP, in place on the secret |
| TokenChain.RefreshCredential | backend/internal/providers/microsoft.go:245-293 | the refresh of each kind of credential |
| TokenChain.EnsureMethodToken | backend/internal/providers/microsoft.go:169-218 | the refresh on demand of one method |
| TokenChain.ConservesIff | backend/internal/providers/microsoft.go:245-334 | the stored credential still presents the live token if and only if no replacement was lost on its way or left unsealed; whatever was sealed holds it in the canonical field alone |
| TokenChain.DualConserves | backend/internal/providers/microsoft.go:295-334 | the same for the two requests with the checkpoint between them |
| TokenChain.RunConserves | backend/internal/service/retrieval.go:573-625 | over any run of refreshes with working seals and no lost response the stored token is live, and canonical once anything was sealed |
| TokenChain.EnsuredIsUsable | backend/internal/providers/microsoft.go:188-217 | after ensuring a token the method has a usable one, the other method keeps its own, and ensuring again asks the server nothing |
| TokenChain.DualMakesBothUsable | backend/internal/providers/microsoft.go:295-334 | a dual refresh leaves both methods usable and expires no later than either |
| RefreshProtocol.StoredCredential.Upsert | backend/internal/repository/memory/store.go:384-409 | the compare-and-swap on the version |
| RefreshProtocol.StoredCredential.RefreshUnderLock | backend/internal/service/retrieval.go:563-608 | the body under the lock, from the version check to the write |
| RefreshProtocol.BodyIsItsSteps | backend/internal/service/retrieval.go:439-484 | the steps of a lone thread are that body |
| RefreshProtocol.VersionsIncrease | backend/internal/service/retrieval.go:550-608 | over all interleavings of refreshes and imports each credential version is presented at most once, in increasing order |
| RefreshProtocol.NoConflictsAndTokensLive | backend/internal/service/retrieval.go:550-633 | without imports no write conflicts, and between refreshes every stored token is the live one |
| CredentialRows.WriteIsUpsert | backend/internal/repository/memory/store.go:384-409 | the write of a refresh is UpsertCredential on the row of its credential: refused exactly when the version has changed |
| CredentialRows.UpdateIsImport | backend/internal/repository/memory/store.go:501-513 | a bulk import that updates a mailbox is the import step of the protocol: one version more |
| MailboxTables.LookupIsScan | backend/internal/repository/memory/store.go:276-288 | an indexed lookup finds what a scan of the table finds |
| MailboxTables.UpdateConnectionKeeps | backend/internal/repository/memory/store.go:208-243 | an update with a rename keeps the index an exact inverse |
| MailboxTables.ImportOneKeeps | backend/internal/repository/memory/store.go:480-539 | importing one item keeps every index and reference, and adds its identity |
| MailboxTables.ImportMailboxesKeeps | backend/internal/repository/memory/store.go:440-548 | a bulk import keeps consistency, and changes nothing when it fails |
| MailboxTables.RunIsConsistent | backend/internal/repository/memory/store.go:125-832 | after any sequence of operations every index is the exact inverse of its table and every reference is good |
| MailboxTables.SecondWriteConflicts | backend/internal/repository/memory/store.go:393-404 | of two credential writes that have read the same version the second conflicts |
| MailboxTables.ImportOutdatesReads | backend/internal/repository/memory/store.go:501-513 | an import that updates a credential makes a write based on the version before it conflict |
| ImportFrame.ImportTouchesNamed | backend/internal/repository/memory/store.go:480-592 | under any strategy a bulk import changes only rows that an applied item names, and no alias, connection or pickup key there was |
| ImportFrame.KeepsRowsButAccounts | backend/internal/repository/memory/store.go:480-592 | under skip and error it keeps every mailbox, alias, credential and pickup key, and changes an account if and only if an applied item names it: the account then belongs to a new mailbox |
| ImportFrame.SkipTakesAccount | backend/internal/repository/memory/store.go:571-592 | a counterexample: a row previewed as nothing but a new mailbox takes over the account of another mailbox under skip |
| MailboxStore.Store.CreateProviderConnection | backend/internal/repository/memory/store.go:125-150 | refuses an invalid connection, a taken id or a taken provider and name; otherwise adds the connection and its index entry |
| MailboxStore.Store.UpdateProviderConnection | backend/internal/repository/memory/store.go:208-243 | refuses another provider, a stale version or a taken name; otherwise moves the index entry with the name |
| MailboxStore.Store.CreateMailbox | backend/internal/repository/memory/store.go:245-261 | refuses a taken id or address; otherwise adds the mailbox and its index entry |
| MailboxStore.Store.GetMailboxByIdentity | backend/internal/repository/memory/store.go:276-288 | finds a mailbox exactly when a scan does, and the same one |
| MailboxStore.Store.CreateAlias | backend/internal/repository/memory/store.go:319-338 | refuses an unknown mailbox, a taken id or address; otherwise adds the alias and its index entry |
| MailboxStore.Store.UpsertCredential | backend/internal/repository/memory/store.go:384-409 | writes only over the version that was read, zero for a new one, and counts the version up |
| MailboxStore.Store.CreatePickupKey | backend/internal/repository/memory/store.go:669-688 | refuses an unknown mailbox, a taken id or digest; otherwise adds the key and its index entry |
| MailboxStore.Store.RevokePickupKey | backend/internal/repository/memory/store.go:704-720 | revokes a key of the mailbox once; later revocations keep the first time |
| MailboxStore.Store.CreatePlatformAccount | backend/internal/repository/memory/store.go:738-763 | refuses an unknown mailbox and an alias of another mailbox |
| MailboxStore.Store.UpsertPlatformAccountCredential | backend/internal/repository/memory/store.go:815-831 | a replacement keeps the id and creation time of what it replaces |
| MailboxStore.ImportItem | backend/internal/repository/memory/store.go:481-538 | the body of the import loop on working copies |
| MailboxStore.Store.ImportMailboxes | backend/internal/repository/memory/store.go:440-548 | works on copies and swaps them in only at the end |
| ImportPreview.PreviewImport | backend/internal/service/importexport.go:147-191 | the preview loop computes the preview |
| ImportPreview.PreviewRowMeans | backend/internal/service/importexport.go:153-186 | each row shows whether the store knows its mailbox, whether an earlier valid row names it, and the action that follows |
| ImportPreview.Import | backend/internal/service/importexport.go:193-232 | the import loop over parsed rows, sealing and the bulk import |
| ImportPreview.PreviewPredictsImport | backend/internal/service/importexport.go:153-189 | the import fails for a collision if and only if a pickup key clashes; otherwise rows shown as new are created, conflicts are skipped or updated, and under the error strategy it fails exactly when a conflict is shown; a failed import changes nothing |
| ImportCollisions.NewIDIsFree | backend/internal/domain/id.go:25-38 | the id of a mailbox that the store does not know is free |
| ImportCollisions.OneCollidesIff | backend/internal/repository/memory/store.go:514-569 | an item never collides in its mailbox id; it collides if and only if it writes and its pickup digest belongs to another mailbox or is new under a taken id |
| ImportCollisions.CollidesIffPickupKeysClash | backend/internal/repository/memory/store.go:480-569 | a whole import collides if and only if a pickup key clashes, a condition on the store before and the file |
| ImportCollisions.RunDerivesIDs | backend/internal/domain/id.go:25-38 | after any operations with derived mailbox ids every mailbox has the id of its provider and address |
| BackupStore.Repository.CreateBackupRun | backend/internal/repository/memory/store.go:916-935 | refuses a second active run of a target |
| BackupStore.Repository.CreateScheduledBackupRun | backend/internal/repository/memory/store.go:937-959 | inserts nothing beside an active run or after one created at or after the due time |
| BackupStore.Repository.ClaimPendingBackupRun | backend/internal/repository/memory/store.go:961-987 | starts the pending run that comes before all others by creation time and id |
| BackupStore.NextIsUnique | backend/internal/repository/memory/store.go:972-977 | there is only one such run |
| BackupStore.Repository.UpdateBackupRun | backend/internal/repository/memory/store.go:1018-1033 | replaces a run of the same target |
| BackupLease.ProcessNext | backend/internal/backup/worker.go:93-136 | ends the next pending run, in success only if its target is enabled and the engine succeeds, changes no other run, and gives the lease back |
| BackupLease.LeaseSafety | backend/internal/backup/worker.go:93-195 | over all interleavings: one active run per target, none running while the lease is free or held by a restore, one holder, each acquisition released once |
| BackupLease.EndedForGood | backend/internal/backup/service.go:72-122 | a run that has ended never changes again, whatever happens later |
| BackupLease.ClaimsInOrder | backend/internal/repository/memory/store.go:961-987 | over all interleavings: while a pending run waits, no pending run after it is claimed |
| BackupLease.RestorableIffSucceeded | backend/internal/backup/worker.go:172-174 | over all interleavings a run is ended at most once, records how, and can be restored if and only if that was a success with an object and its checksum |
| BackupScheduler.ListTargets | backend/internal/backup/scheduler.go:135-148 | reading page by page gives all targets |
| BackupScheduler.RunOnce | backend/internal/backup/scheduler.go:85-133 | the loop over targets computes the pass and counts its errors, unparsable schedules and missing ids included |
| BackupScheduler.ScheduledIffDue | backend/internal/backup/scheduler.go:101-128 | undisturbed, a target gets a run exactly when it is enabled, due, has none active, and an unused id was drawn; and exactly when it reports an error |
| BackupScheduler.OneRunPerTick | backend/internal/backup/scheduler.go:101-128 | for any schedules and any interleaving of schedulers with stale reads, requests, workers and edits of targets the due times of the inserted runs of a target strictly increase |
| BackupScheduler.StaleReadsInsertFreshTicks | backend/internal/backup/scheduler.go:101-128 | what a stale scheduler inserts is due when a fresh read of the runs with its schedule says so |
| RestoreTable.RestoreCoordinator.PruneLocked | backend/internal/backup/restores.go:138-155 | pruning in place in the reused buffer computes the pruned order and table |
| RestoreTable.RestoreCoordinator.Start | backend/internal/backup/restores.go:85-94 | prunes, inserts and appends |
| RestoreTable.RestoreCoordinator.Observe | backend/internal/backup/restores.go:119-136 | ends an operation that is still remembered |
| RestoreTable.PruneMeans | backend/internal/backup/restores.go:138-155 | no running operation goes, only the oldest finished ones and no more than needed; fewer than 100 stay unless all of them are running |
| RestoreTable.StartKeepsIff | backend/internal/backup/restores.go:85-94 | a start keeps the order a list of the keys if and only if its id is not remembered |
| RestoreTable.OrderListsOperations | backend/internal/backup/restores.go:59-155 | in every reachable state the order lists the keys once each in start order |
| RestoreTable.RunningIsRemembered | backend/internal/backup/restores.go:119-155 | a restore that has not ended is always found, and found running |
| JobPool.NoJobTwice | backend/internal/service/credential_refresh_worker.go:224-276 | no job is at two workers, over all interleavings and cancellation points |
| JobPool.OverMeansDone | backend/internal/service/credential_refresh_worker.go:224-276 | when the pass is over every job handed out has run and each failure is collected once; uncancelled, every job was handed out |
| JobPool.CanGoOn | backend/internal/service/credential_refresh_worker.go:224-276 | no reachable state deadlocks |
| JobPool.RunsAreBounded | backend/internal/service/credential_refresh_worker.go:224-276 | a pass takes a bounded number of steps |

## Left out

- HTTP handlers, the frontend, PostgreSQL, provider transport, backup storage and database dumps: input and output; the in-memory repository gives the store its meaning.
- Cron parsing, JSON, mail parsing and cryptography: abstract (a next tick, an inverse pair of functions, messages as given, the identity).
- Regular expressions: only literals and lazy captures.
- TemplateCodec.CompileRecord: starts from the literals and the variable names; splitting the template text at its braces, with the error for an unterminated variable, is not modelled.
- CacheStore.Store.MarkCachedMessageViewed: the update time written with the first viewing is not modelled; cache entries carry no discovery and update times.
- GraphRuns.DrainFolder: only mailboxes synced through Graph; for the other two cursors the batches of a drain are bounded by ImapSync.DrainingIsBounded and Backfill.DrainingIsBounded.
- GraphRuns.SyncMailbox: only mailboxes synced through Graph.
- Sync for an alias: it shares the state of the mailbox and drops messages of other recipients while it advances the cursor; its single calls are modelled, its coverage is not claimed.
- Graph pages after an expired link: the server is taken to show all pages again from the first; a mailbox that changed meanwhile shows others.
- The queue of mailboxes to be synced first, its workers and its stop on cancellation.
- Runs of Graph sync are not interleaved with retention, deletions and range restores, which make the cache differ from the applied items; the runs of Backfill and ImapSync are. Viewing a message is not interleaved with any.
- RefreshProtocol.NoConflictsAndTokensLive: the distributed lock of the PostgreSQL store is not modelled; writes fail by conflict only.
- RefreshProtocol.StoredCredential.RefreshUnderLock: whether a refresh is due, by clock and status, is one flag of its job.
- TokenChain.RefreshCredential: the refresh-after time of a sealed credential is not modelled.
- The candidate loop of incremental sync over retrieval methods, and capability records: thin code around the parts modelled.
- MailboxStore.Store.ImportMailboxes: the copies are values; an update through an alias of a copied map is not representable.
- ImportPreview.Import: what follows a committed import (exporting pickup keys, capability records, scheduling the first sync) is not modelled.
- BackupLease.LeaseSafety: status writes succeed and the process does not die; a run whose write fails stays running.
- The direct backup path that creates and runs in one call: no production code calls it.
- The job pool is a state machine only; goroutines and channels have no form in place here.
- Purging and range deletion of cached messages, message formats, settings, validation of backup targets: single-branch code with easy properties only.
- Message listing and exports by page: the page cap of the store against the page size of the exporter is not modelled.
