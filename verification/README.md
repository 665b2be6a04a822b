# A verified model of the browser runtime's protocols

This project models, in Dafny, the stateful core that keeps the application's browser runtime
consistent, and proves what each protocol keeps over every input and every run:

- **Browser Identity Store** (`Identity*.dfy`). Playwright storage state is flattened into entities,
  merged entity by entity against a base revision, rebuilt, and read again. `IdentityState` holds the
  two forms and the conversions, `IdentityLoops` the same conversions as the loops that insert into
  maps, `IdentityEntities` and `IdentityRoundTrip` what one form makes of the other, `IdentityLaws` the
  round trips, `IdentityListing` which states can be read and what they list, told without the conversions,
  `IdentityOnce` that nothing is listed twice, `IdentityCollapse` what exactly is read back under each key,
  `IdentityDecode` how a stored identity is loaded, `IdentityMerge` and
  `IdentityMergeLaws` the compare-and-swap merge and its runs, `IdentityRestarts` when a run leaves the store
  unreadable, `IdentityLostUpdates` what that does to stale writers, `IdentityNested` and
  `IdentityLostChildren` what becomes of stores and records, which depend on other entities,
  `IdentityMigration` the upgrade from schema 1 and how long its fences stand, `IdentityKeys` which entities
  share a key, `IdentityEncoding` the text of the keys.
- **Browser lifecycle** (`BrowserLifecycle.dfy`, `BrowserCommand*.dfy`). The generation registry as an
  object, and the asynchronous create, close and shutdown commands as a state machine whose steps are
  the critical sections and the native calls, next to the set of webviews that really exist;
  `BrowserCommandScripts` follows single creates through a run, `BrowserCommandLiveness` shows that all end.
- **Durable journal** (`DurableJournal*.dfy`, `JournalCodec.dfy`). An append-only log of checksummed
  lines with torn-tail repair and an incremental cursor; files are byte strings. `DurableJournalVerdicts`
  says what makes a line good, bad or foreign, and which files are refused.
- **Browser resource coordinator** (`ResourceCoordinator.dfy`). Single flight over a mutex and a
  condition variable, with threads that block, are notified and may wake up spuriously.
- **Browser runtime authority** (`RuntimeAuthority*.dfy`). The capability table with its sliding
  expiry, generation fences and projected sessions; `RuntimeAuthorityEffects` says what each call does, and how
  long exactly a token stays good.
- **Smaller cores**: the star-export walk and the stub file of the SDK shim generator
  (`ShimExports*.dfy`), the crash-artifact sweep (`CrashRetention.dfy`), and the percent codec of the
  attachment protocol (`PercentCodec.dfy`).

`Common.dfy` and `Sorting.dfy` hold what several of them share. Code that updates state is written as
classes and loops and proved equal to functions on values; the laws are about those functions.
`dafny verify dfyconfig.toml` verifies everything.

## What follows the code rather than its documentation

- `close` leaves a tombstone for a create that has not come yet, but a shutdown forgets tombstones with
  the table. A close is final in every continuation iff its token had been given to a create
  (`CloseIsFinalExactly`); otherwise, whatever happened before, some run lets it go live
  (`ShutdownForgetsEarlyClose`), and `CloseIsFinal` excludes just the shutdown in between.
  The model's shutdown is free at any time. In the program a create holds a spawn permit
  (`src-tauri/src/browser.rs:574`), and an exit or update waits until no create runs and admits none
  (`src-tauri/src/sidecar/shutdown.rs:70-128`). Creates are admitted again only after an update on Windows that
  failed (`src-tauri/src/updater.rs:1043-1078`): there an early close can be forgotten. `LateBirthIsNeverPublished`
  therefore also speaks of runs that the permit keeps from happening.
- A merge may leave a record under store metadata that no longer identify it, and then the state it stores
  cannot be read: `StaysReadableExactly` is the condition, and from any bounded store two requests of one
  writer and one of another, the last without a conflict, are enough (`RestartIsNear`). The next load puts the
  store aside and starts anew, with revision 0 and no fences. What this costs:
  - *Lost updates.* A base revision is compared with a revision of the new history. A writer who read before
    the restart then overwrites what it has never seen (`LostUpdateIsReachable`, from the empty store). Of
    cookies, localStorage items and databases a writer overwrites nothing it has not read iff each request since
    keeps the records' identities, or it has read revision 0 (`NoLostUpdateExactly`).
  - *Fences.* They stand, and keep old writers out, under just the same condition (`FencesStayExactly`,
    `FencedOutExactly`); no fence is beyond reach (`EveryFenceCanFall`).
- Stores and records can be lost without a restart and without a conflict, because an entity that disappears
  with its parent, or moves to another key, is not stamped. A writer that deletes a database takes along a store
  it has never seen (`StoreIsLostUnwritten`); a store written after its database was deleted is stamped and
  dropped (`StoreIsLostWritten`); records that get one identity under a new key path become one
  (`RecordIsLostUnwritten`). A store is safe iff its database has been there at every revision since the base
  and is there after the merge (`NoLostStoreExactly`). An entity of any kind is safe iff it settles in each
  merge since: its parents are among the merged entities, and a record is, or equals, the last listed of those
  with its identity (`NoLostUpdateOfAnyKind`); `SettlesInEveryOrder` says when that holds whatever the order.
- A state that lists a store twice with contradicting metadata can be read, but not once it has been
  flattened and rebuilt (`TwiceListedFails`); `FlattenRebuildFlattenExactly` is the condition.
- Migration keeps the last listed revision of keys that share a fence, not the highest
  (`SharedFenceForgets`, with the exact condition in `ConservativeExactly`). Keys that schema 1 wrote never
  share one.
- `append` does not undo a partial write. In the runs of `AcknowledgedEntriesSurvive` a failed append that has
  left bytes in the file is followed by a reopen. `WithoutReopen` says what recovery returns when it is not, after
  any number of failed appends and whatever is appended later. `AcknowledgedAfterFailures` says exactly when the
  entries acknowledged since survive: when the first of their lines, read together with the remains before it,
  still checks as its own entry. A failed line that has landed whole hides them all (`WholeLineHidesLater`).
- Regenerating a stub file counts the module's own placeholder constants when the walk comes back to
  the file on disk through a cycle, and then strips them. One run can thus drop an export
  (`PlaceholderOnCycleIsLost`); `CompleteExactly` is the condition, and a second run is always final.

## Model

| member | source | states |
|---|---|---|
| BrowserLifecycle.AdmitCoherent | src-tauri/src/browser.rs:285-330 | Admission keeps the tab's desired token equal to its one wanted generation, and asks for at most one native close. |
| BrowserLifecycle.SettleSuccessCoherent | src-tauri/src/browser.rs:332-367 | So does settling a successful birth. |
| BrowserLifecycle.SettleFailureCoherent | src-tauri/src/browser.rs:369-378 | So does settling a failed birth. |
| BrowserLifecycle.CloseCoherent | src-tauri/src/browser.rs:380-411 | So does closing a generation. |
| BrowserLifecycle.SettleNativeCloseCoherent | src-tauri/src/browser.rs:413-426 | So does settling a native close. |
| BrowserLifecycle.AtMostOneWanted | src-tauri/src/browser.rs:230-252 | No two generations of a tab are Creating or Live together. |
| BrowserLifecycle.OthersUntouched | src-tauri/src/browser.rs:332-426 | Closing or settling one token changes no other generation, in this tab or another. |
| BrowserLifecycle.CloseRetries | src-tauri/src/browser.rs:380-426 | A repeated close names the same webview until its native close settles; it names one iff the generation owns one. |
| BrowserLifecycle.AdmitsExactly | src-tauri/src/browser.rs:285-330 | A create closed before it came is turned away once, a known one changes nothing, any other becomes the desired one while all others of its tab retire and the live ones are to be closed. |
| BrowserLifecycle.BirthsSettleExactly | src-tauri/src/browser.rs:332-367 | A birth is published iff its generation is still Creating under its label and desired; else it retires and is to be closed. |
| BrowserLifecycle.ClosesExactly | src-tauri/src/browser.rs:380-411 | A close retires its generation and names its webview, or remembers a token that has not come yet. |
| BrowserLifecycle.RemovalsExactly | src-tauri/src/browser.rs:369-426 | A failed birth removes its generation; a finished native close does so only for the retiring one of its label. |
| BrowserLifecycle.OtherTabsStay | src-tauri/src/browser.rs:285-426 | No operation touches another tab. |
| BrowserLifecycle.BrowserLifecycleRegistry.AdmitCreate | src-tauri/src/browser.rs:285-330 | The object's new table and answer are those of the specification, and the table stays coherent. |
| BrowserLifecycle.BrowserLifecycleRegistry.SupersedeGenerations | src-tauri/src/browser.rs:302-318 | The loop retires every wanted generation and lists exactly the live ones, once each, for closing. |
| BrowserLifecycle.BrowserLifecycleRegistry.SettleCreateSuccess | src-tauri/src/browser.rs:332-367 | The new table and settlement are those of the specification. |
| BrowserLifecycle.BrowserLifecycleRegistry.SettleCreateFailure | src-tauri/src/browser.rs:369-378 | The new table is that of the specification. |
| BrowserLifecycle.BrowserLifecycleRegistry.CloseGeneration | src-tauri/src/browser.rs:380-411 | The new table and the native close to perform are those of the specification. |
| BrowserLifecycle.BrowserLifecycleRegistry.SettleNativeCloseSuccess | src-tauri/src/browser.rs:413-426 | The new table is that of the specification. |
| BrowserLifecycle.BrowserLifecycleRegistry.DrainNative | src-tauri/src/browser.rs:462-479 | Lists the label of every native webview in the table, no other, and empties the table. |
| BrowserCommands.LabelInjective | src-tauri/src/browser.rs:530-576 | Webview labels of tokens of equal length determine tab and token. |
| BrowserCommandTheorems.ReachableInv | src-tauri/src/browser.rs:616-828 | In every interleaving the registry, the running commands and the existing webviews agree. |
| BrowserCommandTheorems.NoWebviewIsLost | src-tauri/src/browser.rs:616-828 | Every existing webview is tracked, or belongs to a birth not yet settled; after a shutdown also drained labels whose close failed. |
| BrowserCommandTheorems.LiveIsReal | src-tauri/src/browser.rs:332-367 | A live token has an existing webview nobody is closing, and is the tab's last admitted one. |
| BrowserCommandTheorems.NothingForgotten | src-tauri/src/browser.rs:1111-1154 | With no command running, a webview is the tab's desired live one, or one whose close failed. |
| BrowserCommandTheorems.CloseIsFinal | src-tauri/src/browser.rs:380-411 | A closed token is never live later, whenever the close came, barring a shutdown before a create that had not started. |
| BrowserCommandTheorems.CloseIsFinalExactly | src-tauri/src/browser.rs:380-479 | For every earlier run, a close keeps its token from being live in all continuations iff a create had been given the token. |
| BrowserCommandTheorems.LateBirthIsNeverPublished | src-tauri/src/browser.rs:772-828 | A create admitted before a shutdown never becomes live after it. |
| BrowserCommandTheorems.ShutdownForgetsEarlyClose | src-tauri/src/browser.rs:462-479 | The excluded case happens after every earlier run: a token closed before any create can still go live, past a shutdown. |
| BrowserCommandTheorems.FreshBirthIsPublished | src-tauri/src/browser.rs:332-367 | A create that nothing disturbs ends with its token live. |
| BrowserCommandScripts.CreateFollowsScript | src-tauri/src/browser.rs:616-828 | In every run each create takes its steps in order: supersede one after another, add the child, settle; a failed step is followed by nothing but settling the failure. |
| BrowserCommandScripts.FailedCreateStops | src-tauri/src/browser.rs:627-640 | A create that cannot close what it supersedes, or cannot add its child, adds none in any continuation and is never live; once settled, its tab neither registers nor desires it. |
| BrowserCommandScripts.SupersededIsReplaced | src-tauri/src/browser.rs:627-645 | Once a create has finished superseding, what was live in its tab at its admission has no webview any more, in any continuation. |
| BrowserCommandLiveness.CommandsEnd | src-tauri/src/browser.rs:561-828 | If no command starts, the running ones take no more steps than the work they have left. |
| BrowserCommandLiveness.CommandsCanEnd | src-tauri/src/browser.rs:561-828 | From every reachable state the running commands can all come to their ends. |
| BrowserCommandLiveness.CommandsCanStart | src-tauri/src/browser.rs:561-590 | Unless a shutdown holds the lock, every command can start, a create once for each token. |
| BrowserCommandLiveness.NativeCallsMayFail | src-tauri/src/browser.rs:553-559 | Wherever a native call may succeed on an existing webview, or add one, it may fail. |
| BrowserCommandLiveness.ShutdownGoesOn | src-tauri/src/browser.rs:1145-1154 | A shutdown tries each drained label once whatever fails, and leaves just those it could not close. |
| ResourceCoordinator.BrowserResourceOperationCoordinator.TryEnter | src-tauri/src/browser_resource.rs:98-125 | One pass of the loop under the lock: join, await the drain, or own the operation. |
| ResourceCoordinator.BrowserResourceOperationCoordinator.LeaveJoined | src-tauri/src/browser_resource.rs:107-115 | A joined waiter takes the terminal result, and the last one notifies. |
| ResourceCoordinator.BrowserResourceOperationCoordinator.Publish | src-tauri/src/browser_resource.rs:131-135 | The owner publishes its result and ends the operation. |
| ResourceCoordinator.ReachableInv | src-tauri/src/browser_resource.rs:90-139 | The waiter count, the owner, the generation and every thread's position agree in every reachable state. |
| ResourceCoordinator.SingleFlight | src-tauri/src/browser_resource.rs:90-139 | At most one thread runs the operation, and all who return from one epoch return the same result. |
| ResourceCoordinator.JoinersGetTheirResult | src-tauri/src/browser_resource.rs:99-116 | Whoever joined or owns an epoch's operation returns exactly that epoch's result, whatever else happens. |
| ResourceCoordinator.GenerationTestIsRedundant | src-tauri/src/browser_resource.rs:102-107 | While a thread waits no new generation starts, so the generation test of the wait loop decides nothing. |
| ResourceCoordinator.NoLostWakeup | src-tauri/src/browser_resource.rs:98-137 | If a thread is blocked, an operation runs or a notified joined thread is about to leave. |
| ResourceCoordinator.NeverStuck | src-tauri/src/browser_resource.rs:98-137 | As long as some call has not returned, some thread can go on without a spurious wakeup. |
| ResourceCoordinator.EveryCallReturns | src-tauri/src/browser_resource.rs:90-139 | Without spurious wakeups n calls take at most n * (n + 4) steps, the operations included. |
| DurableJournal.ScanLoop | src-tauri/src/durable_journal.rs:171-203 | The reading loop yields the entries, the length and the reason to stop that the line-by-line specification yields. |
| DurableJournal.RecoverAndRead | src-tauri/src/durable_journal.rs:139-218 | Creates a missing file, truncates to the accepted bytes, and leaves the file alone on a foreign line or a bad configuration. |
| DurableJournal.ReadValidSuffix | src-tauri/src/durable_journal.rs:238-303 | Reads on from a cursor, forgiving only a line still being written. |
| DurableJournal.OpenJournal | src-tauri/src/durable_journal.rs:59-78 | Opening recovers the file, returns its entries and a journal that goes on after the last number, or refuses and leaves the file alone. |
| DurableJournal.DurableRecordJournal.Append | src-tauri/src/durable_journal.rs:80-136 | The file grows by what the write landed; the number advances only with a durable whole line; refusals write nothing. |
| DurableJournalTheorems.RecoveryIsLongest | src-tauri/src/durable_journal.rs:161-217 | Recovery returns a log and cuts the file to it, and no valid log that begins the file is longer. |
| DurableJournalTheorems.RecoveryIsIdempotent | src-tauri/src/durable_journal.rs:161-236 | Recovering, or reading, a repaired file returns the same entries and the whole length. |
| DurableJournalTheorems.RecoveredNumbers | src-tauri/src/durable_journal.rs:166-203 | Recovered entries are numbered consecutively from 1. |
| DurableJournalTheorems.CursorsCompose | src-tauri/src/durable_journal.rs:226-303 | Reading a prefix and then on from its cursor is reading the grown file: same failure, entries and cursor. |
| DurableJournalTheorems.PreparedLineIsGood | src-tauri/src/durable_journal.rs:80-113 | Every line append accepts is a complete good line within the readers' bound. |
| DurableJournalTheorems.TornTail | src-tauri/src/durable_journal.rs:177-217 | Behind a log, bytes without a newline are dropped and nothing else is. |
| DurableJournalVerdicts.GoodExactly | src-tauri/src/durable_journal.rs:177-203 | A line is good iff it is complete and within the bound, decodes, is of this record and schema, and has its number and its checksum. |
| DurableJournalVerdicts.RecoveryRefusesExactly | src-tauri/src/durable_journal.rs:186-206 | Recovery refuses a file iff, behind a log, a complete line of another record or schema follows, whatever comes after it. |
| DurableJournalVerdicts.ReadingRefusesExactly | src-tauri/src/durable_journal.rs:238-303 | The readers refuse iff the cursor is none, or a complete line that is no next entry stands behind the log at the cursor. |
| DurableJournalVerdicts.PreparedExactly | src-tauri/src/durable_journal.rs:92-113 | Append writes the encoding of the body with its checksum and a newline, iff the numbers are not exhausted and the bound holds. |
| DurableJournalVerdicts.WrongOwnerIsRefused | src-tauri/src/durable_journal.rs:186-206 | A journal with one entry is refused to any other record or schema version. |
| DurableJournalRuns.AcknowledgedEntriesSurvive | src-tauri/src/durable_journal.rs:59-218 | After any run of appends, failed writes, crashes and reopens, with a reopen after each failure that left bytes, recovery returns every acknowledged entry in order, numbered from 1, with at most one more per failure. |
| DurableJournalRuns.NoFailureNothingElse | src-tauri/src/durable_journal.rs:80-136 | Without failures the file holds exactly the acknowledged entries. |
| DurableJournalRuns.WithoutReopen | src-tauri/src/durable_journal.rs:113-136 | After any number of failed appends and no reopen, what recovery makes of their remains, of the next append's bytes and of any bytes that later appends add. |
| DurableJournalRuns.AcknowledgedAfterFailures | src-tauri/src/durable_journal.rs:113-136 | The entries acknowledged since then, however many, survive iff the first of their lines checks as its entry together with the remains before it; none does if that checks as no entry. |
| DurableJournalRuns.NothingLanded | src-tauri/src/durable_journal.rs:113-136 | If the failed appends left no byte, the next one's line checks as its entry. |
| DurableJournalRuns.WholeLineHidesLater | src-tauri/src/durable_journal.rs:113-136 | If a failed line has landed whole, recovery finds its entry and none acknowledged since. |
| JournalCodec.UnaryCodecIsFaithful | src-tauri/src/durable_journal.rs:18-36 | There is a codec whose lines hold no newline and decode to what was encoded, with any checksum. |
| IdentityLoops.FlattenState | src-tauri/src/browser_identity_store.rs:239-347 | The nested loops insert exactly the entities of the state, later ones over earlier ones, or fail. |
| IdentityLoops.RebuildState | src-tauri/src/browser_identity_store.rs:375-461 | The bucketing loop and the nested loops over names build the specified state, or fail. |
| IdentityLoops.CollectEntities | src-tauri/src/browser_identity_store.rs:376-420 | The first loop files each entity's part in its bucket, in order; databases and stores keep the last metadata. |
| IdentityEntities.FlattenWellFormed | src-tauri/src/browser_identity_store.rs:239-347 | Every entity of a flattened state is filed under the key that its value names. |
| IdentityListing.ReadsExactly | src-tauri/src/browser_identity_store.rs:239-347 | A state can be read iff everything it lists has the names, arrays and identities that the store needs. |
| IdentityListing.FlattenExactly | src-tauri/src/browser_identity_store.rs:239-347 | A flattened state holds exactly the listed things, each under its key without what is inside it, the last of those with one key. |
| IdentityListing.OwnKeysAreKept | src-tauri/src/browser_identity_store.rs:167-177 | Each listed record with a key of its own is filed under it, plain before encoded; the last with that key stays. |
| IdentityListing.OwnKeysTellApart | src-tauri/src/browser_identity_store.rs:167-177 | Records with different keys of their own are never filed under one key. |
| IdentityOnce.RebuiltListsOnce | src-tauri/src/browser_identity_store.rs:375-461 | A rebuilt state lists as many things as there are entities with their parents: none twice, none else. |
| IdentityOnce.RebuiltHasJust | src-tauri/src/browser_identity_store.rs:454-460 | A rebuilt state and its origins have the fields of a storage state and no others. |
| IdentityRoundTrip.RebuiltEmissions | src-tauri/src/browser_identity_store.rs:239-461 | A rebuilt state lists exactly the entities whose parents are there, each under its key after the rebuild, or cannot be read. |
| IdentityLaws.ClosureIsLargest | src-tauri/src/browser_identity_store.rs:422-459 | What a rebuild keeps is the largest parent-closed part of a map. |
| IdentityLaws.RebuiltIsReadable | src-tauri/src/browser_identity_store.rs:167-461 | A rebuilt state can be read exactly when every retained record has an identity under its store's metadata. |
| IdentityLaws.RebuiltContents | src-tauri/src/browser_identity_store.rs:239-461 | What is read back are the retained entities under their new keys, all of them and no others. |
| IdentityLaws.RebuiltKeepsAllButRecords | src-tauri/src/browser_identity_store.rs:239-461 | Anything but a record is kept as it was or dropped with its missing parent. |
| IdentityLaws.RebuiltKeepsPlain | src-tauri/src/browser_identity_store.rs:239-461 | Cookies and localStorage items come back exactly. |
| IdentityLaws.RoundTrip | src-tauri/src/browser_identity_store.rs:167-461 | Flattening the rebuilt map returns its largest parent-closed part iff each retained record re-identifies to its own key. |
| IdentityLaws.FlattenIsParentClosed | src-tauri/src/browser_identity_store.rs:239-347 | A flattened state holds every record's store and every store's database. |
| IdentityLaws.FlattenRebuildFlatten | src-tauri/src/browser_identity_store.rs:239-461 | Flatten, rebuild, flatten is flatten, if stores listed under the same names carry the same metadata. |
| IdentityLaws.FlattenRebuildFlattenExactly | src-tauri/src/browser_identity_store.rs:239-461 | In general it is, exactly when the flattened records re-identify to their own keys. |
| IdentityLaws.TwiceListedFails | src-tauri/src/browser_identity_store.rs:239-347 | Without that the law fails: a readable state lists a store twice, and what is rebuilt from it cannot be read. |
| IdentityLaws.RebuildingIsStable | src-tauri/src/browser_identity_store.rs:239-461 | Whatever one rebuild changes, a second changes nothing more. |
| IdentityCollapse.RebuiltExactly | src-tauri/src/browser_identity_store.rs:239-461 | Under each key a rebuilt state says: nothing without the parents, of records with one identity the last listed, else the value there. |
| IdentityCollapse.KeptExactly | src-tauri/src/browser_identity_store.rs:239-461 | A rebuild keeps what is under a key iff its parents are there and, for a record, the last listed of those with its identity is this one or equals it. |
| IdentityCollapse.SettlesInEveryOrder | src-tauri/src/browser_identity_store.rs:375-461 | It does so whatever the listing order iff the parents are there, a record re-identifies to its own key, and no other content gets that identity. |
| IdentityMerge.MergeKeys | src-tauri/src/browser_identity_store.rs:616-643 | The loop that applies one key after another reaches what applying all conflict-free keys at once gives. |
| IdentityMerge.MergeCheckpoint | src-tauri/src/browser_identity_store.rs:586-650 | The method with its early returns and its loop computes the specified merge. |
| IdentityMergeLaws.MergeKeepsTheRest | src-tauri/src/browser_identity_store.rs:643-648 | A merge changes neither schema nor recovery. |
| IdentityMergeLaws.MergedStoreDecodes | src-tauri/src/browser_identity_store.rs:643-648 | What a merge leaves of an up-to-date store can be loaded, as it is, iff its state can be read. |
| IdentityMergeLaws.MergeSaturates | src-tauri/src/browser_identity_store.rs:614 | At the last revision the counter stays and keys are stamped with it. |
| IdentityMergeLaws.MergeFailsOnlyOverInputs | src-tauri/src/browser_identity_store.rs:586-650 | A merge fails iff the base is from the future, a state is unreadable, or the current base does not match; rebuilding never fails. |
| IdentityMergeLaws.MergeAccounts | src-tauri/src/browser_identity_store.rs:602-649 | Applied and conflicting keys add up to the changed ones; the revision grows by one iff a key is applied; just those keys are stamped. |
| IdentityMergeLaws.CurrentWriterNeverConflicts | src-tauri/src/browser_identity_store.rs:616-631 | A checkpoint on the current revision has no conflicts and is applied iff it changes something. |
| IdentityMergeLaws.ReplayAppliesNothing | src-tauri/src/browser_identity_store.rs:616-649 | Repeating an applied checkpoint applies nothing and reports every changed key as a conflict. |
| IdentityMergeLaws.FirstCheckpoint | src-tauri/src/browser_identity_store.rs:41-53 | On an empty store any readable proposal goes through without conflict, and is applied unless it is empty. |
| IdentityMergeLaws.RunInv | src-tauri/src/browser_identity_store.rs:537-650 | In every run key revisions stay at or below the store's, and in the store's present history a root not stamped since a revision has its value of then. |
| IdentityMergeLaws.NoLostUpdate | src-tauri/src/browser_identity_store.rs:586-650 | A checkpoint writes a cookie, localStorage item or database only if it is as the store's present history had it at the base revision; it then holds the proposed value, and others of these kinds keep theirs. For stores and records see NoLostStoreExactly and NoLostUpdateOfAnyKind. |
| IdentityMergeLaws.WritersOfOtherKeysDoNotInterfere | src-tauri/src/browser_identity_store.rs:616-643 | A checkpoint does not change whether a key it did not write conflicts, so different partitions never conflict with each other. |
| IdentityMergeLaws.ConflictsAreOverTheKeyItself | src-tauri/src/browser_identity_store.rs:616-631 | In a store never migrated, a key conflicts iff that key was written after the base. |
| IdentityRestarts.StaysReadableExactly | src-tauri/src/browser_identity_store.rs:586-650 | A merge leaves a readable store readable iff every retained record of the merged entities has an identity under its merged store, or nothing is applied. |
| IdentityRestarts.NoRestartExactly | src-tauri/src/browser_identity_store.rs:537-561 | A run never starts the store anew iff each of its requests keeps the records' identities where it is merged. |
| IdentityRestarts.RecoveryReportsRestart | src-tauri/src/browser_identity_store.rs:537-561 | After every run the store's recovery field says it was put aside iff it was. |
| IdentityRestarts.RestartIsNear | src-tauri/src/browser_identity_store.rs:537-650 | From any bounded readable store, three requests, the last without a conflict, make the store unreadable: a store, its record, and a new key path from a writer that had not seen the record. |
| IdentityRestarts.NoOverwriteSinceRead | src-tauri/src/browser_identity_store.rs:586-650 | While the store is not started anew, a writer on the revision it has read writes no root that differs from what it read. |
| IdentityLostUpdates.RestartLosesUpdate | src-tauri/src/browser_identity_store.rs:537-650 | For every readable state and revision above 0 that a writer has read, some new history lets it overwrite a cookie value it never read. |
| IdentityLostUpdates.NoLostUpdateExactly | src-tauri/src/browser_identity_store.rs:537-650 | For every run, its reader overwrites no other cookie, localStorage item or database in any continuation iff each request since kept the records' identities, or it has read revision 0. |
| IdentityLostUpdates.LostUpdateIsReachable | src-tauri/src/browser_identity_store.rs:537-650 | A run from the empty store over a restart in which a writer overwrites a cookie value it never read. |
| IdentityNested.MergeKeepsExactly | src-tauri/src/browser_identity_store.rs:616-649 | A merge leaves under a key of any kind what it should iff the key settles among the merged entities. |
| IdentityNested.UnmovedExactly | src-tauri/src/browser_identity_store.rs:616-649 | What nobody has written along a run without a restart holds the same all along iff it settles in each merge. |
| IdentityNested.NoLostUpdateOfAnyKind | src-tauri/src/browser_identity_store.rs:586-650 | What a checkpoint writes over has been what the writer read, all along, iff it settled in each merge since; it leaves what it should iff the key settles in its own merge. |
| IdentityNested.RunStoreInv | src-tauri/src/browser_identity_store.rs:422-459 | In every run a store not stamped since a revision is as it was then, if its database has been there at every revision since, and is gone otherwise. |
| IdentityNested.NoLostStoreExactly | src-tauri/src/browser_identity_store.rs:586-650 | A checkpoint that writes a store finds it as it was at the base iff its database has been there ever since or the store was not; it leaves what it should iff the database is there afterwards or there is nothing to keep. |
| IdentityLostChildren.StoreIsLostUnwritten | src-tauri/src/browser_identity_store.rs:422-459 | A run in which a writer without a conflict deletes a database, and with it a store it has never seen and nobody writes. |
| IdentityLostChildren.StoreIsLostWritten | src-tauri/src/browser_identity_store.rs:422-459 | A run in which a store is written without a conflict and stamped, and is not there afterwards. |
| IdentityLostChildren.RecordIsLostUnwritten | src-tauri/src/browser_identity_store.rs:167-234 | A run in which two records get one identity under a new key path and become one, without a conflict, a restart or a write to them. |
| IdentityMigration.ConservativeExactly | src-tauri/src/browser_identity_store.rs:96-125 | No revision is lowered by migration iff, of keys that share a fence, the last listed has the highest revision. |
| IdentityMigration.SharedFenceForgets | src-tauri/src/browser_identity_store.rs:115-122 | Two keys of one fence for which migration lowers the revision. |
| IdentityMigration.MigrationOfSchemaOne | src-tauri/src/browser_identity_store.rs:105-125 | On what schema 1 wrote, migration renames cookie keys to fences and changes no revision and no other key. |
| IdentityMigration.DecodingTwice | src-tauri/src/browser_identity_store.rs:108-125 | Decoding a decoded store again changes nothing and reports no migration. |
| IdentityDecode.DecodesExactly | src-tauri/src/browser_identity_store.rs:108-125 | A store is loaded iff its schema is 1 or 2 and its state can be read; state, revision and recovery stay, and schema 2 comes back unchanged. |
| IdentityMigration.ConflictsExactly | src-tauri/src/browser_identity_store.rs:616-631 | A change conflicts iff its key, its cookie's fence, or the deletion of the origin named in its value is above the base. |
| IdentityMigration.GuardsExactly | src-tauri/src/browser_identity_store.rs:625-631 | For all but cookies that origin is the one in the key. |
| IdentityMigration.FencesAreNeverRewritten | src-tauri/src/browser_identity_store.rs:616-643 | No merge writes a fence: without a restart each fence has the revision it had, and a missing one stays missing. |
| IdentityMigration.FencesStayExactly | src-tauri/src/browser_identity_store.rs:537-650 | A fence is what it was after a run and the next load iff each request of the run kept the records' identities. |
| IdentityMigration.EveryFenceCanFall | src-tauri/src/browser_identity_store.rs:537-650 | From any bounded readable store three requests and the next load lose any given fence. |
| IdentityMigration.FencedOutExactly | src-tauri/src/browser_identity_store.rs:616-643 | A fence keeps all writers based before it from writing a guarded key, at every point of a run, iff each request of the run keeps the records' identities. |
| IdentityMigration.OldWritersStayFencedOut | src-tauri/src/browser_identity_store.rs:105-125 | After migration no checkpoint based before a cookie's old revision writes any partition of that cookie, at any point of a run, iff each request of the run keeps the records' identities. |
| IdentityMigration.DeletedOriginStaysFenced | src-tauri/src/browser_identity_store.rs:625-631 | Nothing based before an origin's deletion is written under that origin, at any point of a run, iff the same holds. |
| IdentityKeys.CookieKeyExactly | src-tauri/src/browser_identity_store.rs:64-94 | Cookies share a key iff name, domain, path, partition and ancestor bit agree; a missing bit counts as cross-site. |
| IdentityKeys.LegacyFenceExactly | src-tauri/src/browser_identity_store.rs:96-103 | Cookies share a legacy fence iff name, domain and path agree, whatever their partitions. |
| IdentityKeys.IdentityIgnoresNonKeyUpdates | src-tauri/src/browser_identity_store.rs:145-234 | Records that agree on an explicit key and under all key paths have the same identity. |
| IdentityKeys.InlineIdentity | src-tauri/src/browser_identity_store.rs:203-231 | An inline identity is the value under the one key path, or the array of the values under all, in their order. |
| IdentityKeys.CookieKeyIs | src-tauri/src/browser_identity_store.rs:64-94 | A cookie's key is its name, domain and path, then its partition and ancestor bit if it has one. |
| IdentityKeys.IdentityExactly | src-tauri/src/browser_identity_store.rs:167-234 | A record's identity is its key, else its encoded key, else what it has under the store's key paths, the array before the single path; it has none iff none of these is there. |
| IdentityKeys.SplitDotsExactly | src-tauri/src/browser_identity_store.rs:145-165 | Splitting a path undoes joining its parts, and leaves no dot in any. |
| IdentityKeys.PlainAtPut | src-tauri/src/browser_identity_store.rs:145-149 | A path finds what was put under it. |
| IdentityKeys.PlainAtElsewhere | src-tauri/src/browser_identity_store.rs:145-149 | It finds what it found before when something is put where the paths part. |
| IdentityKeys.EncodedPathsAgree | src-tauri/src/browser_identity_store.rs:151-165 | A path leads to the same place in a value and in its encoded form. |
| IdentityEncoding.DecodeEncode | src-tauri/src/browser_identity_store.rs:55-62 | Unpadded base64url can be read back. |
| IdentityEncoding.EncodedKeyInjective | src-tauri/src/browser_identity_store.rs:55-62 | Equal key texts have equal kinds and equal parts. |
| IdentityEncoding.KeyTextInjective | src-tauri/src/browser_identity_store.rs:55-94 | The model's structured keys have different texts. |
| IdentityEncoding.KeyTextExactly | src-tauri/src/browser_identity_store.rs:55-62 | A key's text is its kind, a colon, and its parts from the outermost in. |
| IdentityEncoding.DigitExactly | src-tauri/src/browser_identity_store.rs:55-62 | The digits are those of the base64url alphabet, in its order. |
| IdentityEncoding.LegacyFenceOfText | src-tauri/src/browser_identity_store.rs:96-103 | The fence computed on a key's text is the text of the key's fence, and only cookies have one. |
| RuntimeAuthority.BrowserRuntimeAuthority.PruneExpired | src-tauri/src/browser_runtime_authority.rs:36-56 | Drops exactly what has expired, then just the excess over 4096, none of which would outlive one that stays. |
| RuntimeAuthority.BrowserRuntimeAuthority.Issue | src-tauri/src/browser_runtime_authority.rs:58-88 | After pruning and projection a held binding is renewed under its token, any other is stored under the fresh one. |
| RuntimeAuthority.BrowserRuntimeAuthority.ProjectProductSession | src-tauri/src/browser_runtime_authority.rs:90-124 | The new tables and the answer are those of the specification on the pruned tables. |
| RuntimeAuthority.BrowserRuntimeAuthority.VerifyToken | src-tauri/src/browser_runtime_authority.rs:126-172 | So are those of a verification. |
| RuntimeAuthority.SortedListEvicts | src-tauri/src/browser_runtime_authority.rs:44-55 | Removing the first entries of the list sorted by expiry is an eviction as PruneExpired promises it. |
| RuntimeAuthority.NothingEvicted | src-tauri/src/browser_runtime_authority.rs:41-43 | A table within bounds loses nothing but expired entries. |
| RuntimeAuthorityRuns.ReachableInv | src-tauri/src/browser_runtime_authority.rs:36-172 | Every capability keeps its scope, expires one TTL after its last use, and there are at most 4097. |
| RuntimeAuthorityRuns.VerifiedAsMinted | src-tauri/src/browser_runtime_authority.rs:126-172 | A success reports the sidecar, source and host generation fixed at issue, of a token used less than one TTL ago, with the owner's current words. |
| RuntimeAuthorityRuns.VerifiesExactly | src-tauri/src/browser_runtime_authority.rs:36-144 | A verification succeeds iff the token is held, unexpired, of this host generation, its source resolves, and it is not the first to expire of 4097 live tokens, unless several of 4097 expire first. |
| RuntimeAuthorityRuns.FailsOnlyAtOverflow | src-tauri/src/browser_runtime_authority.rs:41-55 | Even then only a token that no other live token expires before, in a table of 4097 live tokens, can fail despite that. |
| RuntimeAuthorityRuns.GoneIsForever | src-tauri/src/browser_runtime_authority.rs:36-172 | A token that left the table never returns and never verifies. |
| RuntimeAuthorityRuns.MismatchIsFinal | src-tauri/src/browser_runtime_authority.rs:133-138 | A token shown with a wrong host generation never verifies again. |
| RuntimeAuthorityRuns.UnusedIsFinal | src-tauri/src/browser_runtime_authority.rs:36-40 | Nor does one left unused for a TTL. |
| RuntimeAuthorityRuns.FirstProjectionWins | src-tauri/src/browser_runtime_authority.rs:98-110 | While a projection lives another product session is refused and nothing moves. |
| RuntimeAuthorityRuns.PendingOwnerReportsProjection | src-tauri/src/browser_runtime_authority.rs:148-157 | Every verification of an owner that is still pending reports the living projection and renews it for a TTL. |
| RuntimeAuthorityRuns.ProjectionReachesEveryToken | src-tauri/src/browser_runtime_authority.rs:111-123 | A new projection gives its session to every token of the source and changes no scope. |
| RuntimeAuthorityEffects.ProjectsExactly | src-tauri/src/browser_runtime_authority.rs:90-124 | A product session is accepted iff it is the current one, or the current one is pending and no other is projected; it is projected, and given to the tokens of just that sidecar life, only in the latter case. |
| RuntimeAuthorityEffects.IssuesExactly | src-tauri/src/browser_runtime_authority.rs:58-88 | A binding is stored for a TTL under one token, an old one iff one holds it; a pending session gives way to the projected one, a contradicting one ends the projection. |
| RuntimeAuthorityEffects.VerifiesEffect | src-tauri/src/browser_runtime_authority.rs:126-172 | A success renews its token, takes session and workspace from the owner, renews or ends the projection, and leaves all other tokens alone. |
| RuntimeAuthorityEffects.FailsEffect | src-tauri/src/browser_runtime_authority.rs:126-144 | A failure removes at most its own token, and that for a wrong host generation. |
| RuntimeAuthorityEffects.ScopeExactly | src-tauri/src/browser_runtime_authority.rs:10-30 | Scopes agree iff sidecar, source generation and host generation do. |
| RuntimeAuthorityEffects.HeldExactly | src-tauri/src/browser_runtime_authority.rs:36-172 | While the table stays within bounds it holds exactly the tokens that were minted, used at least once every TTL, and never shown with a wrong host generation. |
| RuntimeAuthorityEffects.VerifiesWhileInUse | src-tauri/src/browser_runtime_authority.rs:126-172 | So a token verifies exactly as long as that holds and its source resolves. |
| ShimExports.Walk.Extract | scripts/generate-sdk-shims.ts:393-440 | The recursion with a shared visited set closes under star exports, visits only reachable modules, and returns their names. |
| ShimExports.WalkFindsExactly | scripts/generate-sdk-shims.ts:393-440 | The names found are exactly those of modules reachable by chains that avoid the seeds, on any cyclic graph. |
| ShimExports.ExtractHandwrittenExports | scripts/generate-sdk-shims.ts:618-623 | The walk seeded with the module's own stub path returns the names provided without it. |
| ShimExports.Regenerate | scripts/generate-sdk-shims.ts:606-665 | Writes the stripped and augmented module and the stub file of the missing symbols. |
| ShimExportsLaws.StubComplementsWalk | scripts/generate-sdk-shims.ts:634-639 | The stub file exports exactly the upstream names that the walk did not find. |
| ShimExportsLaws.NoAmbiguity | scripts/generate-sdk-shims.ts:372-392 | Nothing is exported both by the stub file and by what the module reaches otherwise. |
| ShimExportsLaws.RunFinds | scripts/generate-sdk-shims.ts:606-623 | A walk finds the module's own names, and its placeholders iff a cycle leads back to the file. |
| ShimExportsLaws.CompleteExactly | scripts/generate-sdk-shims.ts:606-665 | After a run every upstream export is there, iff none was provided only by such a placeholder. |
| ShimExportsLaws.StableExactly | scripts/generate-sdk-shims.ts:606-665 | A second run changes nothing, iff the same holds. |
| ShimExportsLaws.SecondRunIsFinal | scripts/generate-sdk-shims.ts:606-665 | The second run is always complete and stable. |
| ShimExportsLaws.PlaceholderOnCycleIsLost | scripts/generate-sdk-shims.ts:459-468 | Two modules that export each other and a placeholder, for which the first run drops the export. |
| ShimExportsLaws.CompleteIsVisible | scripts/generate-sdk-shims.ts:484-497 | With the augment line in place, importers see every upstream export. |
| ShimExportsLaws.StubExactly | scripts/generate-sdk-shims.ts:634-645 | The stub file holds just the missing symbols, constants as placeholders, and exports nothing on. |
| ShimExportsLaws.ModuleExactly | scripts/generate-sdk-shims.ts:459-497 | The module keeps names and star exports, loses its placeholders, and star-exports the stub file first unless the block is there; no third file changes. |
| ShimExportsLaws.EverythingIsVisible | scripts/generate-sdk-shims.ts:606-665 | When nothing was lost, importers see every upstream export after one run. |
| CrashRetention.FirstPass | src-tauri/src/crash_artifact_retention.rs:101-135 | Counts the artifacts, those deleted for size and for age, and keeps the others in order. |
| CrashRetention.FirstPassAccounts | src-tauri/src/crash_artifact_retention.rs:119-135 | Each scanned artifact is deleted for one reason or survives the first pass. |
| CrashRetention.EnforceBudgets | src-tauri/src/crash_artifact_retention.rs:143-157 | Tries files oldest first up to the first point where both budgets hold; the byte sum stays exact. |
| CrashRetention.SweepCrashArtifacts | src-tauri/src/crash_artifact_retention.rs:88-163 | Scanned is the sum of the three deletion counts and the files left, the bytes are theirs, and they are what the stopping point leaves. |
| CrashRetention.BudgetsHoldOrAllRefused | src-tauri/src/crash_artifact_retention.rs:145-147 | At the end both budgets hold or every file left refused to go. |
| CrashRetention.OlderFilesRefused | src-tauri/src/crash_artifact_retention.rs:136-157 | A file left that is older than one deleted for the budget had refused to go. |
| CrashRetention.DeletedForBudget | src-tauri/src/crash_artifact_retention.rs:145-157 | Deleted for the budget are exactly the files before the stopping point that did not refuse. |
| CrashRetention.NothingDeletedWithinBudgets | src-tauri/src/crash_artifact_retention.rs:145-147 | If the budgets hold, nothing is deleted for them. |
| CrashRetention.NewestStay | src-tauri/src/crash_artifact_retention.rs:136-157 | If no removal fails, the files left are the newest, as many as fit. |
| CrashRetention.RemainingIsSorted | src-tauri/src/crash_artifact_retention.rs:136-142 | The second pass works on the survivors of the first, sorted by time and name. |
| CrashRetention.ArtifactsExactly | src-tauri/src/crash_artifact_retention.rs:101-118 | The artifacts are the log files with readable metadata; an unknown time is the epoch. |
| CrashRetention.EveryLogFileCounts | src-tauri/src/crash_artifact_retention.rs:101-113 | Each of them is counted once. |
| CrashRetention.BytesOf | src-tauri/src/crash_artifact_retention.rs:143 | The byte count is the sum of the sizes. |
| CrashRetention.FirstPassExactly | src-tauri/src/crash_artifact_retention.rs:119-135 | A file goes in the first pass iff it can be removed and is too large or older than the limit; a large one counts as large. |
| CrashRetention.OldestComeFirst | src-tauri/src/crash_artifact_retention.rs:136-142 | The second pass takes files by time, and those of one time by name. |
| CrashRetention.StringLeExactly | src-tauri/src/crash_artifact_retention.rs:136-142 | Names compare as in a dictionary. |
| CrashRetention.NewerFilesStay | src-tauri/src/crash_artifact_retention.rs:136-157 | No file deleted for the budget is newer than one that is left and would have gone. |
| PercentCodec.PercentDecode | src-tauri/src/attachment_protocol.rs:124-140 | The loop computes the unescaped bytes, or returns its input if they are not UTF-8. |
| PercentCodec.PercentEncodePathSegment | src-tauri/src/attachment_protocol.rs:142-153 | The loop escapes every byte that is not unreserved. |
| PercentCodec.RoundTrip | src-tauri/src/attachment_protocol.rs:124-153 | Decoding an encoded string gives it back, for every UTF-8 string. |
| PercentCodec.RoundTripExactly | src-tauri/src/attachment_protocol.rs:139-140 | For byte strings in general it does iff they are UTF-8. |
| PercentCodec.EncodedInjective | src-tauri/src/attachment_protocol.rs:142-153 | No two byte strings are encoded alike. |
| PercentCodec.PlainDecodes | src-tauri/src/attachment_protocol.rs:124-140 | Text without a percent sign decodes to itself. |
| PercentCodec.DecodedIsString | src-tauri/src/attachment_protocol.rs:124-140 | The decoder maps every string to a string. |
| PercentCodec.EncodedIsPathSegment | src-tauri/src/attachment_protocol.rs:142-153 | The encoder's output is unreserved bytes and upper-case triples, and UTF-8. |
| PercentCodec.UnreservedIsFixed | src-tauri/src/attachment_protocol.rs:142-153 | Encoding leaves a string alone iff all of it is unreserved. |
| PercentCodec.UnreservedExactly | src-tauri/src/attachment_protocol.rs:146-148 | The unreserved bytes are letters, digits and four marks. |
| PercentCodec.HexExactly | src-tauri/src/attachment_protocol.rs:155-162 | A hexadecimal digit is read in either case, and nothing else is one. |
| PercentCodec.HexDigitExactly | src-tauri/src/attachment_protocol.rs:149 | The encoder writes upper-case digits. |
| PercentCodec.TripleDecodes | src-tauri/src/attachment_protocol.rs:128-136 | A triple becomes the byte of its two digits, the high one first. |
| PercentCodec.UnchangedExactly | src-tauri/src/attachment_protocol.rs:128-138 | Unescaping changes nothing iff there is no triple. |
| PercentCodec.Utf8Exactly | src-tauri/src/attachment_protocol.rs:139 | Bytes are taken for UTF-8 iff they are the bytes of a sequence of scalars. |

## Left out

- Webview calls, events, bounds, navigation and URL policy in `browser.rs`: a native call only succeeds or fails here. `live_session`, `has_generation` and `native_count` only look things up, and sessions are their webview's label.
- The create command's checks before admission and its logging: a create that fails there never reaches the registry.
- Lifecycle tokens are admitted at most once and have the 36 characters of a hyphenated UUID, as the frontend makes them; the other text forms that a UUID parser accepts are left out. Settlements come only from the create that was admitted.
- The spawn permit of creates and the update and exit gates: a shutdown of the model may come at any time, which admits more runs than the program has.
- Real files, permissions, symbolic links, atomic replacement and fsync: a file is its contents, and a write lands completely, partly or unsynced. Putting an unreadable identity store aside is modelled as starting anew; the quarantined file is not kept.
- I/O errors while opening or repairing a journal; SHA-256 and serde_json, for which any checksum and any newline-free codec stand.
- Error texts of the identity store. Its failures are None.
- The identity of an IndexedDB record is the JSON value itself and not its printed text; `IdentityEncoding` needs only that printing and UTF-8 are injective.
- Iteration order of ordered maps and sets is any order in the identity store; its results depend on it only where migration lets keys share a fence and where records get one identity.
- RebuildState: the second phase visits the names of each origin and database directly, where the source walks all buckets and skips the others.
- NoLostUpdate: is stated for cookies, localStorage items and databases, because it is false of stores and records, which can disappear with their parents or move to another key unstamped; NoLostStoreExactly and NoLostUpdateOfAnyKind say exactly when it holds of them.
- NoLostUpdateExactly: is likewise about cookies, localStorage items and databases.
- NoLostUpdate: covers runs of fewer than 2^64 - 1 checkpoints, after which the revision saturates; MergeAccounts and what follows from it likewise.
- NoLostUpdateExactly: needs 2 * |before| + |reqs| + 1 < 2^64 - 1, because the overwriting run replays as many revisions as the reader had seen. Its writers send what they have read as their base state and observed state.
- Panics, poisoned locks and unwinding inside the guarded operation of the coordinator.
- Download, archive extraction, URL allowlists and publishing in `browser_resource.rs`.
- VerifiesExactly: leaves open which of several tokens goes that expire first in a table of 4097, because the source then follows the order of a hash map.
- AcknowledgedEntriesSurvive: has a reopen follow each failed append that left bytes in the file; WithoutReopen and AcknowledgedAfterFailures cover a journal that is used on.
- Tokens are minted unused; UUID generation is not part of this model. Times are natural numbers and do not overflow.
- How the shim generator reads a module's text (regular expressions, the brace matcher, `extractExports`): a module is the names, placeholders and star exports found in it, and upstream symbols are given. Other modules stay fixed during a run.
- The text of stub functions and the package's exports map.
- Overflow of byte counters and of `usize`, except where the source saturates or wraps explicitly.
- The hourly schedule of the crash sweep, and reading directories: entries and their metadata are given.
- `has_unsafe_segment`, byte ranges and response building in `attachment_protocol.rs`: short branching claims.
