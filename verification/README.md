# CipherMoth verification model

CipherMoth keeps encrypted entries in one SQLite file that several accounts
share: every account wraps the one vault key under its own credential. This
project models the parts whose correctness rests on interleavings, crashes,
round trips or arithmetic, and proves them with Dafny 4.11:

    dafny verify dfyconfig.toml

| files | what they model |
|---|---|
| `KeyMaterials`, `Accounts`, `AccountStore`, `AuthProtocol` | accounts, credentials and sessions: requests that commit, derive keys outside any transaction, and continue in a second one |
| `VaultSessions` | the in-memory session table, its clocks, timeouts and eviction |
| `Storage` | restore and set-aside of the vault's files, with a crash possible after any step |
| `BackupFormat`, `ByteStrings` | the framed, sealed backup file |
| `VaultTables`, `Access` | the rows of entries, folders and grants, and who may see them |
| `Folders`, `FolderLaws`, `FolderRows`, `VaultRuns` | operations on entries and folders, the link migration, and any sequence of them |
| `CsvImport` | importing rows of a file under unique names |
| `BackupRestore`, `BackupRoundTrip` | writing a vault into a backup and merging a backup into a vault |
| `Framing`, `Sidecar` | the pipe between desktop shell and core: frames, and calls with timeouts |
| `PasswordGenerator`, `Totp`, `Arithmetic` | rejection sampling and shuffling, base32 over 32-bit words |

Code that changes state is a class or a method with the loops of the original,
proved equal to a function; what the original promises is proved about that
function, over every input, run or reachable state.

Cryptography is ideal: salts, nonces, tokens and identities are fresh, digests
and name indexes do not collide, a sealed value opens only under the key and
the binding it was sealed with. SQLite commits atomically, reads a snapshot,
and may fold its log only into a file that denotes the same vault. Clocks,
random words, the order in which a pipe splits its bytes, and the point of a
crash are parameters or arbitrary choices.

Six places where the code is not what one might expect, each with its exact
condition:

- `desktop/core/desktop_core/entry.py` migrates an older schema before the
  start-up check for an interrupted set-aside, so such a start can rewrite a
  vault file that is still at the live name. It leaves every file unchanged if
  and only if no database of an older schema is there
  (`Storage.DesktopStartKeepsExactly`, `Storage.DesktopStartMayRewrite`).
- An ended session stays ended while the clocks are not set back
  (`VaultSessions.EndedForever`). With a monotonic clock that goes on, some
  ended session is returned later if and only if the wall clock was set back
  (`VaultSessions.WallClockSetBackRevives`).
- A row that an import or a restore overwrites also gets a new `updated` time,
  because the column has an update default (`backend/models.py`). Everything
  else of it stays, and no other row changes (`CsvImport.NoRowCollapses`,
  `BackupRestore.RestoreLosesNothing`).
- Restoring a file a second time, with conflicts skipped, adds trashed entries
  again where the trash also holds another account's entry of the same name and
  deletion time and the query returns that one
  (`BackupRestore.RestoreAgainChangesNothing`: if and only if;
  `BackupRestore.RestoreAgainMayAdd`).
- Of two trashed entries of one name and deletion time only one is restored
  (`BackupRoundTrip.BackupReproducesVault`: if and only if;
  `BackupRoundTrip.BackupMayLoseTrashed`).
- A service that files a new entry by a folder's name cannot write it afterwards,
  unless that folder is shared with it for writing: the grant for its own
  entries is made only for those without a folder (`FolderLaws.CreatorWritesExactly`: if and
  only if; `FolderLaws.ServiceLosesFiledEntry`).

## Model

| member | source | states |
|---|---|---|
| `AuthProtocol.OldTokensStayRefused` | backend/crud/auth.py:253-342 | once an account lost a key record, no transaction that begins from then on, in any continuation, accepts a session opened under it, whoever verified the old password before |
| `AuthProtocol.OneVaultKeyForAll` | backend/crud/auth.py:131-140 | every account's last issued credential, and no other, opens its record, to the one vault key, which never changes; the vault row equals its owner's record |
| `AuthProtocol.ContextAcceptsExactly` | backend/crud/auth.py:305-342 | in every reachable state a session is accepted exactly when its account is an active human one whose key record is the one the session was opened under (and it need not change its password, or may) |
| `AuthProtocol.OneBootstrap` | backend/crud/auth.py:188-251 | at most one first account is ever committed, by bootstrap or by unlock, and from then on there is an active administrator |
| `AuthProtocol.LoginOpensExactly` | backend/crud/auth.py:253-292 | an undisturbed login opens a session exactly for the active human account of that name whose last issued password it is |
| `AuthProtocol.CommitRetires` | backend/crud/auth.py:578-631 | committing a change, reset or rotation gives the account the new record and takes away the previous one |
| `AuthProtocol.RunKeeps` | backend/api/endpoints/deps.py:41-61 | every interleaving of read and write requests, drops, other commits and restarts keeps the invariant over the log of commits, the sessions and all requests in flight |
| `Accounts.FirstSegmentKeeps` | backend/crud/auth.py:305-342 | whatever a request writes before its first commit keeps the account invariant: one vault key, the vault row equal to its owner's record, unique names, an active administrator |
| `Accounts.UpdateKeeps` | backend/crud/auth.py:419-459 | a change of role or activity never leaves the vault without an active administrator |
| `Accounts.DeleteKeeps` | backend/crud/auth.py:542-576 | deleting an account keeps the invariant; the owner of the vault row, of entries or of services cannot be deleted |
| `Accounts.FoundingKeeps` | backend/crud/auth.py:188-251 | the first account owns the vault row and either seals a new key or adopts the row's own record |
| `Accounts.SecondSegmentKeeps` | backend/crud/auth.py:273-292 | whatever a request writes after its derivation keeps the invariant, and every new key record is the issued one and opens to the unchanged vault key |
| `AccountStore.AccountTables.Bootstrap` | backend/crud/auth.py:222-251 | the rows and the session after the second transaction of a first account are those of the specification, and a refusal leaves them alone |
| `AccountStore.AccountTables.Login` | backend/crud/auth.py:273-292 | the same for a login: the account, its record and the vault key are checked again |
| `AccountStore.AccountTables.ChangePassword` | backend/crud/auth.py:606-631 | the same for a password change, with the vault row kept equal to its owner's record |
| `AccountStore.AccountTables.CreateUser` | backend/crud/auth.py:371-398 | the same for a new account, whose name is checked again |
| `AccountStore.AccountTables.ReplaceCredential` | backend/crud/auth.py:480-540 | the same for a reset and a token rotation |
| `AccountStore.AccountTables.UpdateUser` | backend/crud/auth.py:419-459 | the same for roles and activity; the last active administrator is refused |
| `AccountStore.AccountTables.DeleteUser` | backend/crud/auth.py:542-576 | the same for deletion, with its four refusals |
| `AuthProtocol.FirstKeeps` | backend/crud/auth.py:305-342 | the first transaction of any request, with the eviction of a refused session, keeps the invariant over the whole log of commits and all requests in flight |
| `AuthProtocol.SecondKeeps` | backend/crud/engine.py:187-208 | the second transaction stages its write only under the write lock or on a snapshot that is still the last commit |
| `AuthProtocol.CommitKeeps` | backend/crud/engine.py:187-208 | a commit extends the log so that no key record an account lost can come back |
| `AuthProtocol.HooksKeep` | backend/crud/engine.py:114-135 | the hooks after a commit or a rollback only take sessions away |
| `VaultSessions.EndedForever` | backend/vault_sessions.py:231-250 | with clocks that are not set back, a session whose lifetime ran out under the timeout then in force is never returned again, whatever timeouts follow |
| `VaultSessions.WallClockSetBackRevives` | backend/vault_sessions.py:52-62 | for any two readings of clocks whose monotonic one is not set back, there is a session that has ended by the first and is returned at the second if and only if the wall clock was set back between them |
| `VaultSessions.RunBoundedAndOrdered` | backend/vault_sessions.py:127-160 | the table never exceeds its size and stays in order of last use |
| `VaultSessions.OpenEvictsLeastRecent` | backend/vault_sessions.py:127-146 | opening drops the expired, and then only the least recently used session of a full table |
| `VaultSessions.SessionTable.SetIdleTimeout` | backend/vault_sessions.py:112-121 | a new timeout applies to all sessions; those it ends are dropped, and those the old one ended stay dropped |
| `VaultSessions.SessionTable.Open` | backend/vault_sessions.py:127-146 | the new table and its order |
| `VaultSessions.SessionTable.Live` | backend/vault_sessions.py:231-241 | the session of a token, or none, deleting it when it has ended |
| `VaultSessions.SessionTable.Resolve` | backend/vault_sessions.py:148-160 | the key of a live session, moved to the most recent place when refreshed |
| `VaultSessions.SessionTable.Info` | backend/vault_sessions.py:162-172 | the remaining time, without the tolerance |
| `VaultSessions.SessionTable.DropExpired` | backend/vault_sessions.py:252-260 | exactly the ended sessions go, and the number returned is that of the slots dropped |
| `VaultSessions.SessionTable.RevokeToken` | backend/vault_sessions.py:192-196 | one session ends |
| `VaultSessions.SessionTable.RevokeAllSessions` | backend/vault_sessions.py:198-202 | all sessions end |
| `VaultSessions.SessionTable.RevokeUserSessions` | backend/vault_sessions.py:204-225 | all sessions of a user end, or all but one |
| `Storage.DataDir.RestoreRuns` | backend/storage.py:878-910 | any number of restores, interrupted anywhere, preserve every vault that was live when one of them began |
| `Storage.DataDir.AfterMarker` | backend/storage.py:91-99 | an interrupted set-aside followed by any starts, restores and retries creates nothing at the live names, and the retry that succeeds leaves the four files together in one folder, byte for byte; only if a desktop start occurs and a database of an older schema was still at the live name can the files at that name differ, and then they are what the migration left of them |
| `Storage.DesktopStartKeepsExactly` | desktop/core/desktop_core/entry.py:26-28 | a desktop start during an interrupted set-aside leaves every file unchanged if and only if no database of an older schema is still at the live name |
| `Storage.DesktopStartMayRewrite` | desktop/core/desktop_core/entry.py:26-28 | such a state exists, and the start then rewrites the file |
| `Storage.DataDir.KeepRaw` | backend/storage.py:824-836 | the database file and its log are copied byte for byte, or a torn copy is left when killed |
| `Storage.DataDir.MoveSidecars` | backend/storage.py:838-847 | journals are moved into the kept folder, never deleted |
| `Storage.DataDir.Retire` | backend/storage.py:849-876 | at every crash point the old vault is still denoted at the live name or is whole in a kept folder; when it completes it is wholly kept |
| `Storage.DataDir.Restore` | backend/storage.py:878-910 | the restored file takes the live name alone, next to no journal of the old vault, and only once everything there is kept; any other end loses nothing |
| `Storage.DataDir.MoveFiles` | backend/storage.py:946-952 | at every crash point each of the four files is at exactly one of the two places, unchanged |
| `Storage.DataDir.SetAside` | backend/storage.py:913-958 | the run that succeeds leaves all of them together in one folder |
| `Storage.DataDir.ServerStart` | backend/storage.py:70-116 | a start changes nothing while the marker or an orphaned journal is there |
| `BackupFormat.OnlyWriterOutputReads` | backend/backup_format.py:65-100 | the only byte string it reads to the end is the writer's own output: every truncation, reordering, repetition or extension is rejected |
| `BackupFormat.WriterOutputReads` | backend/backup_format.py:41-100 | the reader returns exactly the frames written, and finishes |
| `BackupFormat.ParsePacked` | backend/helpers.py:380-422 | a packed header parses back |
| `BackupFormat.ParsesOnlyPacked` | backend/helpers.py:400-422 | a header that parses is the packing of what it parsed to |
| `BackupFormat.BindingInjective` | backend/helpers.py:440-442 | what a frame is bound to determines its header, its position and whether it is the last |
| `BackupFormat.BackupWriter.Write` | backend/backup_format.py:50-58 | a frame too many is refused, any other is appended sealed in its place |
| `BackupFormat.BackupWriter.Finish` | backend/backup_format.py:60-62 | finishing succeeds exactly when all frames were written, and then the file is the specified one |
| `BackupFormat.BackupReader.Start` | backend/backup_format.py:73-79 | the header is read first |
| `BackupFormat.BackupReader.Read` | backend/backup_format.py:85-96 | one frame is read and opened in its place |
| `BackupFormat.BackupReader.Finish` | backend/backup_format.py:98-100 | finishing succeeds exactly at the end after all frames |
| `BackupFormat.ReadWholeFile` | backend/backup_format.py:65-100 | reading in place equals the specification on every byte string |
| `Access.PermissionIsStrongestSource` | backend/crud/access.py:48-199 | the permission is the strongest unexpired source of the list, ownership included, and not found when there is none |
| `Access.VisibleIffPermitted` | backend/crud/access.py:224-284 | an entry is listed exactly when its permission is found |
| `Access.EntryNotBelowFolder` | backend/crud/access.py:85-118 | an entry is never less accessible than its folder |
| `Access.ReportIsPermission` | backend/crud/folder.py:423-501 | the folder report's effective level is the level the checks use, with ownership shown as write |
| `Access.RelinquishLeavesFolderAccess` | backend/crud/access.py:451-479 | what is left is exactly what the folder gives |
| `Access.RelinquishTouchesNoOther` | backend/crud/access.py:476-477 | no other access of anybody changes |
| `VaultRuns.EveryEntryStaysLinked` | backend/crud/backup.py:689-700 | after any sequence of requests, imports and restores every entry, active or trashed, has a link exactly when its document names a folder, of that name; so, if no document was in a folder of the empty name to begin with, the exported frame of every entry passes the import's check |
| `FolderRows.VaultRows.MigrateFolderLinks` | backend/crud/folder.py:63-108 | the migration links every entry, or changes nothing, and which of the two follows from each row: an owner, and no link or the right one |
| `FolderLaws.CreatorWritesExactly` | backend/crud/access.py:559-596 | who creates an entry can write it if and only if they act for themselves, choose a folder by its id, name a folder that is there and shared with them for writing, or are a service and file nowhere |
| `FolderLaws.ServiceLosesFiledEntry` | backend/crud/access.py:582-590 | a service that names a new folder of its owner's cannot write what it has just created |
| `Folders.FolderNamedKeeps` | backend/crud/password.py:143-168 | a name finds or makes the owner's folder of that name and changes nothing else |
| `Folders.FolderForKeeps` | backend/crud/password.py:170-184 | a chosen folder and the stored name agree |
| `Folders.CreatePasswordKeeps` | backend/crud/access.py:556-596 | creating keeps links and names together, and all keys and unique indexes |
| `Folders.UpdatePasswordKeeps` | backend/crud/access.py:598-645 | so does updating, also when the folder is carried over or the entry moves |
| `Folders.FavoriteKeeps` | backend/crud/password.py:306-313 | so does marking |
| `Folders.DeleteKeeps` | backend/crud/password.py:315-321 | so does moving to the trash |
| `Folders.RestoreKeeps` | backend/crud/password.py:323-337 | so does taking out of the trash, which a taken name refuses |
| `Folders.PurgeKeeps` | backend/crud/password.py:339-347 | so does purging, with attachments and grants |
| `Folders.AddFolderKeeps` | backend/crud/folder.py:202-218 | so does a new folder |
| `Folders.RenameFolderKeeps` | backend/crud/folder.py:220-244 | so does renaming, which changes the document of every linked entry |
| `Folders.RemoveFolderKeeps` | backend/crud/folder.py:246-260 | so does removing an empty folder |
| `Folders.FindsTrashedExactly` | backend/crud/records.py:225-260 | a trashed entry is found exactly when there is one of the name, and it is the one trashed last |
| `FolderLaws.UpdateChangesOneEntry` | backend/crud/password.py:276-304 | an update changes only the active entry of that name, to the content asked for; the replaced password heads the history, of which ten are kept |
| `FolderLaws.CreateAddsOneEntry` | backend/crud/access.py:556-596 | exactly one active entry is added, with the content asked for, for the owner of the chosen folder or whom the request acts for; a service keeps write access to what it files nowhere |
| `FolderLaws.DeleteThenRestoreReturns` | backend/crud/password.py:315-337 | taking a deleted entry out of the trash brings the same entry back |
| `FolderLaws.PurgeRemovesExactly` | backend/crud/access.py:671-681 | purging, for owners only, takes the entry, its attachments and its grants and nothing else |
| `FolderLaws.RenameBackReturns` | backend/crud/folder.py:220-244 | renaming a folder back restores every document |
| `FolderRows.VaultRows.FolderNamed` | backend/crud/password.py:143-168 | the rows after it, in place |
| `FolderRows.VaultRows.FolderFor` | backend/crud/password.py:170-184 | the rows after it, in place |
| `FolderRows.VaultRows.CreatePassword` | backend/crud/access.py:556-596 | the rows after it, unchanged when refused |
| `FolderRows.VaultRows.UpdatePassword` | backend/crud/access.py:598-645 | the rows after it, unchanged when refused |
| `FolderRows.VaultRows.RenameFolder` | backend/crud/folder.py:220-244 | the rows after it, unchanged when refused |
| `FolderRows.VaultRows.RenameEntries` | backend/crud/folder.py:233-241 | the loop over the linked entries renames all of them and nothing else |
| `FolderRows.VaultRows.LinkEntry` | backend/crud/folder.py:82-106 | one entry is linked to the owner's folder of its name, or refused exactly when it cannot be |
| `CsvImport.NoRowCollapses` | backend/crud/password.py:431-483 | every row is an active entry of its own, under a name no other row has, or was skipped for an entry that is still there; of the earlier entries exactly those are moved to the trash that are active, the importer's and of a name a row is stored under, and only if the import overwrites; imported + skipped + overwritten is the number of rows; active names stay unique |
| `CsvImport.NamesFollowTheRule` | backend/crud/password.py:452-493 | a row keeps its name unless an earlier row is stored under it or another account's active entry has it, and exactly then bears the first free candidate made of its own name |
| `CsvImport.CountsMean` | backend/crud/password.py:431-483 | overwritten is the number of earlier rows that changed, and imported + overwritten the number of rows added |
| `CsvImport.CandidatesDiffer` | backend/crud/password.py:485-493 | the candidate names are pairwise different, also where the name is cut |
| `CsvImport.SearchFree` | backend/crud/password.py:485-493 | the search ends within |taken| + 1 tries, at the first free number |
| `CsvImport.UniqueName` | backend/crud/password.py:485-493 | the name found is that candidate and is free |
| `CsvImport.RenamedIsNew` | backend/crud/password.py:452-476 | the name a row is stored under is new to the file, and only an own entry from before can have it |
| `CsvImport.RowKeeps` | backend/crud/password.py:349-379 | one row keeps the in-memory indexes equal to the table, and the table sound |
| `CsvImport.UpsertEntry` | backend/crud/password.py:349-379 | the rows and the index after one row, in place |
| `CsvImport.StoreImport` | backend/crud/password.py:431-483 | the loop leaves the specified rows and counts, so the final conflict cannot happen |
| `BackupRoundTrip.BackupReproducesVault` | backend/crud/backup.py:378-524 | the backup of a one-account vault is accepted by an empty vault; it reproduces every entry in order, with document, history, times, attachments and the folder names, if and only if no two trashed entries have one name and deletion time |
| `BackupRoundTrip.BackupMayLoseTrashed` | backend/crud/backup.py:787-797 | such a vault exists: two trashed entries of one name and deletion time, of which the restored vault does not have both |
| `BackupRoundTrip.RestoredTwiceIsRestoredOnce` | backend/crud/backup.py:639-769 | restoring it a second time with skip changes nothing, also where it was not reproduced whole |
| `BackupRestore.RestoreLosesNothing` | backend/crud/backup.py:639-769 | a restore that commits keeps every earlier row with its document and attachments; exactly those rows are moved to the trash that are active, the importer's and of a name the file has active, and only if the import overwrites; imported + skipped + overwritten + trashed is the number of entries read |
| `BackupRestore.RestoreAgainChangesNothing` | backend/crud/backup.py:771-832 | restoring any file again with skip changes nothing, whichever rows the query for the trash returns, if and only if before the first restore no other account had a trashed entry of the name and deletion time of one of the file's |
| `BackupRestore.RestoreAgainMayAdd` | backend/crud/backup.py:787-797 | such a vault and file exist: one account's trashed entry, and a file with another of that name and deletion time for a second account |
| `BackupRestore.RestoreCountsMean` | backend/crud/backup.py:771-832 | overwritten is the number of earlier rows that changed, and imported + overwritten + trashed the number of rows added |
| `BackupRestore.CreateBackup` | backend/crud/backup.py:398-524 | the frames of the entries in id order, each with its attachments, and the folder list |
| `BackupRestore.RestoreFoldersKeep` | backend/crud/backup.py:647-653 | the folder list becomes targets of the right names, found or made |
| `BackupRestore.LinkFits` | backend/crud/backup.py:689-700 | an accepted frame's link and document agree |
| `BackupRestore.MergeEntryKeeps` | backend/crud/backup.py:771-832 | after every entry the active map is the table's active names, the trashed map points at such rows, exactly the rows overwritten so far have changed, and what was added is the importer's |
| `BackupRestore.RestoreFolderList` | backend/crud/backup.py:647-653 | the loop in place |
| `BackupRestore.ReadAttachments` | backend/crud/backup.py:721-747 | every attachment frame is checked, and stored when its entry is |
| `BackupRestore.RestoreTrashed` | backend/crud/backup.py:787-797 | a trashed entry is skipped exactly when the importer has it |
| `BackupRestore.RestoreActive` | backend/crud/backup.py:798-816 | an active entry is skipped, refused, overwrites or is added |
| `BackupRestore.RestoreEntry` | backend/crud/backup.py:677-747 | one pass of the loop, in place |
| `BackupRestore.RestoreBackup` | backend/crud/backup.py:639-769 | the whole restore in place: it equals the specification, or changes nothing |
| `BackupRoundTrip.AddedAttachments` | backend/crud/backup.py:333-362 | an entry's attachments come back in order and no other entry's list changes |
| `BackupRoundTrip.FoldersRestored` | backend/crud/backup.py:431-437 | the folder list of a vault makes the same names in an empty one |
| `BackupRoundTrip.AcceptedIffLinked` | backend/crud/backup.py:689-700 | the frame of a normal document passes the link check if and only if link and name agree |
| `Framing.EveryStream` | desktop/core/desktop_core/server.py:85-114 | every byte string is frames and a rest, and what is delivered is one item for each and the end or a desync |
| `Framing.OneItemPerFrame` | desktop/core/desktop_core/server.py:85-114 | one item per frame, in order, also for unknown kinds and oversized lengths, which skip exactly their own bytes |
| `Framing.ReadersAgree` | desktop/src-tauri/src/protocol.rs:68-91 | the Python reader delivers a frame exactly when the Rust reader returns it and its kind is known |
| `Framing.EncodedReadsBack` | desktop/src-tauri/src/protocol.rs:31-91 | what either encoder writes, both readers decode to the same frame |
| `Framing.Pipe.Reader` | desktop/core/desktop_core/server.py:85-114 | the items delivered do not depend on how the pipe splits its bytes |
| `Framing.PrefixRoundTrip` | desktop/core/desktop_core/framing.py:44-63 | a packed prefix parses back |
| `Framing.ParsesOnlyPacked` | desktop/core/desktop_core/framing.py:44-48 | a prefix that parses is the packing of what it parsed to |
| `Framing.EncodeVec` | desktop/src-tauri/src/protocol.rs:31-48 | the appended bytes are the frame, within the limits |
| `Framing.TruncatedIsUnfinished` | desktop/core/desktop_core/server.py:66-73 | a truncated frame delivers the end and nothing else |
| `Framing.ReadersDiffer` | desktop/core/desktop_core/server.py:97-110 | what the Python reader skips, the Rust reader gives up at, or returns when only the kind is unknown |
| `Framing.Pipe.ReadExact` | desktop/core/desktop_core/server.py:66-73 | the bytes asked for, or none at the end, however the pipe splits them |
| `Framing.Pipe.Discard` | desktop/core/desktop_core/server.py:76-82 | exactly the bytes asked for are skipped |
| `Framing.Pipe.ReadItem` | desktop/core/desktop_core/server.py:85-114 | one pass of the reader's loop is the specified item |
| `Framing.Pipe.ReadExactOrEof` | desktop/src-tauri/src/protocol.rs:50-66 | the buffer is filled, or the end or a truncation reported, under any splits and interruptions |
| `Framing.Pipe.ReadFrame` | desktop/src-tauri/src/protocol.rs:68-91 | the frame is the specified one, unless the pipe fails |
| `Sidecar.RunKeeps` | desktop/src-tauri/src/sidecar.rs:158-227 | every interleaving keeps the map of waiting calls, the queue and the calls' own records consistent |
| `Sidecar.WaitingIsBounded` | desktop/src-tauri/src/sidecar.rs:176-189 | at most sixteen calls wait and sixteen frames are queued; after the pipe has ended no call is left without an answer |
| `Sidecar.TimedOutIsCancelled` | desktop/src-tauri/src/sidecar.rs:210-226 | a call that timed out has its CANCEL behind its frame in the same queue, or sent the supervisor a lock |
| `Sidecar.NeverWrittenAfterGivingUp` | desktop/src-tauri/src/sidecar.rs:552-569 | a frame the writer had not looked at when its call gave up, be it queued or already taken, is never written, unless the 32-bit counter wrapped round to another call of the same id |
| `Sidecar.SharedIdsAreAWrapApart` | desktop/src-tauri/src/sidecar.rs:169-172 | two calls share an id only a whole wrap of the counter apart |
| `Sidecar.ReplyGoesToItsCall` | desktop/src-tauri/src/sidecar.rs:579-607 | a reply reaches only the call that waits under its id |
| `PasswordGenerator.PasswordsExactly` | frontend/src/lib/passwordGenerator.js:30-55 | the passwords that can come out are exactly those of the right length over the pools with a character from each |
| `PasswordGenerator.ShuffleIsBijection` | frontend/src/lib/passwordGenerator.js:49-53 | choices map one to one onto arrangements |
| `PasswordGenerator.EveryResidueEquallyOften` | frontend/src/lib/passwordGenerator.js:6-13 | among the accepted 32-bit words every residue below max occurs equally often |
| `Totp.DecodeEncoded` | frontend/src/lib/totp.js:10-28 | decoding inverts encoding, with any padding or none, in any case, with white space |
| `Totp.Base32Decode` | frontend/src/lib/totp.js:10-28 | a secret is refused exactly when a character is outside the alphabet; otherwise the result is the whole bytes of its bits |
| `PasswordGenerator.RandomSource.SecureRandBelow` | frontend/src/lib/passwordGenerator.js:6-13 | the loop returns the first accepted word, reduced |
| `PasswordGenerator.ShuffleInPlace` | frontend/src/lib/passwordGenerator.js:49-53 | the loop in the array is the map that is a bijection |
| `PasswordGenerator.Characters` | frontend/src/lib/passwordGenerator.js:44-48 | one character of each pool first, then any |
| `PasswordGenerator.GeneratePassword` | frontend/src/lib/passwordGenerator.js:30-55 | the password is determined by the draws as specified |
| `Totp.ShiftInBits` | frontend/src/lib/totp.js:19-20 | shifting a group into a 32-bit word keeps the pending bits although the word wraps |
| `Totp.OneReading` | frontend/src/lib/totp.js:10-28 | there is only one such result |
| `Totp.PaddingCases` | frontend/src/lib/totp.js:10-11 | the encoding has the padding of section 6 of RFC 4648 in its five cases |
| `Totp.SpellsItself` | frontend/src/lib/totp.js:10-11 | the standard encoding is one of the spellings that decoding covers |
| `Totp.CounterMessage` | frontend/src/lib/totp.js:40-46 | the message is the counter in eight big-endian bytes |

## Left out

- Cryptographic primitives, key derivation costs, and the KDF parameters of a key record: the ideal model above.
- Rows that were tampered with or damaged: `open_entry` and its relatives always succeed here; key records of an unsupported format are not modelled.
- Service tokens resolving to an account, and MCP routes: `resolve_service_token` is a lookup followed by the same checks.
- Re-keying in `MasterPasswordCRUD.update_master_password`: no route reaches it, and it would leave the account model.
- Parsing of CSV, JSON, ZIP and the legacy backup formats: the model starts from validated rows and decoded frames; the reports of ignored and renamed rows are not modelled.
- Size limits of a whole backup, its manifest, an entry's document and attachment metadata: they only refuse.
- The settings a backup carries, and restoring them into an empty vault.
- Attachment, group and grant editing routes: they change no entry, folder or link; grants appear as tables with their foreign keys.
- Entry owner equal to folder owner: the code does not keep it, since a folder name is resolved against the caller's owner.
- In-place methods for marking, trashing, recovering, purging, and creating or removing a folder: each is a single assignment to a row, given as a function on the tables.
- AuthProtocol.RunKeeps: a transaction's statements are one step; busy timeouts and connection pools are not modelled.
- Storage.DataDir.AfterMarker: a schema migration happens as a whole or not at all; the journals that one killed halfway leaves, and that SQLite replays at its next opening, are not modelled.
- Storage.DataDir.Checkpoint: what SQLite writes is any content that denotes the same vault, not its page format.
- Sidecar.RunKeeps: one core process at a time; calls to another process only draw from the shared counter. Restart policy, logs and process handling are left out.
- Sidecar.TimedOutIsCancelled: that the supervisor acts on the lock message is not modelled.
- PasswordGenerator.GeneratePassword: the browser's random words are a finite list; the loop's termination with probability one is not stated, and lengths stay below 2^32, as those of arrays do.
- Totp.Base32Decode: upper-casing is exact for every character whose upper case lies in the alphabet; others map to themselves and are refused as in the original.
- The truncation of the one-time code, the countdown, clipboard, updater, user interface and command line: small or input and output.
