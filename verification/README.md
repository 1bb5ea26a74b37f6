# MiniGBA, modelled and verified

A Dafny model of the parts of MiniGBA whose correctness does not show in any one
function: the transactional save store, the blob collector, the protocol between
many devices and the server, local saves across crashes, the client's upload
queue, and six pieces of algorithmic code (streaming SHA-256, the audio ring,
the aligned allocator, the ROM library's repair, the UTF-8 decoder and the
request encoding). `dafny verify dfyconfig.toml` checks all of it.

How the pieces fit:

- **Save store.** `SaveTables` holds the PostgreSQL tables as one value and each
  committed transaction as a function; a failed transaction returns the tables it
  was given. `SaveStore.Store` is the Go code statement by statement, on fields,
  with rollback, proved equal to those functions. `StoreInvariants` proves the
  invariant (foreign keys, checks and unique keys, gapless history, live current
  version, exact reference counts, quota, empty erased accounts, bounded jobs) over
  every run with an explicit clock; `StoreTheorems`, `StoreReads`, `Retention` and
  `WorkerProgress` draw the promises from it. `StoreAnswers` says, by what a client
  could read before, what every transaction answers and stores.
- **Blob files.** `Uploads` follows one upload from validation through the
  content-addressed directory to the commit. `BlobGc` interleaves uploads, restores,
  all other transactions, process restarts and the maintenance loop in steps finer
  than a transaction.
- **Devices.** `SyncProtocol` runs any number of clients against the store, with
  requests and replies lost, late and duplicated, and users who change accounts on
  a device over the same save directories; `LineageRuns` holds its two failing runs,
  and `SyncProgress` shows that a settled conflict leads to a successful upload.
  `SyncQueue` and `ClientOrder` are the upload queue, one file per account, and the
  `exclusive` section inside one client.
- **Local saves.** `SaveFiles` records every disk state that a commit passes
  through; file calls may fail at any point, and runs mix operations that complete,
  fail and crash.
- **Algorithms.** `Sha256` against `Fips180` (FIPS 180-4), `AudioRing`,
  `Allocator`, `Library`, `Utf8` (RFC 3629, RFC 2781) and `RequestEncoding`, with
  bit operations in `Bits`. `Runs` (runs of a state machine), `SaveKeys`, `Sums`,
  `Wrappers` and `Scenarios` are shared helpers.

Where a promise needs a condition, the condition is stated and a concrete run or an
equivalence shows that it is needed:

- The head an upload supersedes is the one its device read, whose content it has had,
  if and only if that head's row is still there and is a row of the same account's save
  (`SyncProtocol.NoSilentOverwrite`). Both halves are needed. Revisions restart after
  a purge (`LineageRuns.PurgeBreaksLineage`). And the save directory does not name the
  account: after a change of account the manifest still carries the other account's
  revision (`LineageRuns.AccountSwitchBreaksLineage`). A device that was only ever
  signed in to one account is safe up to purges (`SyncProtocol.OneAccountKeepsLineage`).
- A restore takes no blob lock and must commit within seven days of its read; one
  that commits when they are over can point at a collected file
  (`BlobGc.GraceIsNeeded`).
- `load` after a crash throws for one family of states, which
  `SaveFiles.LoadAfterCrash` describes exactly. Every commit that changes the bytes
  passes through such a state (`SaveFiles.CommitCanStrandIff`): even where
  manifest.json.previous describes the old bytes, it is unlinked before the manifest
  moves. A commit that starts while current.bin is not the last committed save loses
  it (`SaveFiles.CommitKeepsBytesIff`); one that starts while manifest.json is missing
  can leave no manifest, and load then reports that there is no save
  (`SaveFiles.LoadFindsNothingIff`).
- When reading manifest.json fails, the previous manifest is read instead. A revision
  update that did so writes the older manifest over the good one and succeeds, and
  load may throw from then on (`SaveFiles.FailedReadSpoilsTheSave`). A run of commits
  and updates stays loadable exactly when every manifest read described the bytes then
  current (`SaveFiles.LoadAlongRunIff`). Updates also make the `.previous` files
  disagree (`SaveFiles.RevisionUpdateSpoilsTheBackup`).
- A failed cloud delete puts back what it read before removing. An upload enqueued
  between the two steps is lost (`ClientOrder.UnreadTaskIsLost`), and so is one that
  resolving a conflict by hand completes meanwhile (`ClientOrder.CompletedTaskIsLost`),
  and every one if the account changes before the restore, which goes to the queue of
  the account then signed in (`ClientOrder.AccountChangeLosesTask`);
  `ClientOrder.FailedDeleteCoversIff` says exactly which removed uploads are covered.
- A successful cloud delete forgets the uploads it removed in its own account's queue
  only. One that such a misplaced restore had carried into another queue is still
  uploaded from there (`ClientOrder.CarriedTaskOutlivesDelete`,
  `ClientOrder.UploadedAfterDeleteIff`).
- The equal-checksum shortcut runs before the user-status check and is harmless only
  because the service rejects empty checksums
  (`StoreTheorems.ChecksumValidationIsNeeded`).
- The library scan unlinks a ROM when any file is at its canonical path
  (`Library.ScanKeepsContentIff`).

## Model

| member | source | states |
|---|---|---|
| SaveStore.Store.Commit | minigba-api/internal/database/store.go:174-297 | The statements of a commit, run one by one with rollback on error, have exactly the result and tables of the atomic transaction, and keep the store invariant |
| SaveStore.Store.CommitInTx | minigba-api/internal/database/store.go:190-224 | Replay lookup and head upsert before the rest of the transaction |
| SaveStore.Store.CommitOnHead | minigba-api/internal/database/store.go:226-297 | Conflict, equal-checksum shortcut, status and quota checks, then the append, in that order |
| SaveStore.UpsertFirst | minigba-api/internal/database/store.go:219-222 | Inserting the head row before the later checks does not change what the transaction decides |
| SaveStore.Store.AnswerStaleBase | minigba-api/internal/database/store.go:234-243 | A stale base succeeds only with equal content, and then only stores the answer |
| SaveStore.Store.SumUsed | minigba-api/internal/database/store.go:256-259 | The quota query: bytes of every live version of the user, deleted heads included |
| SaveStore.Store.Append | minigba-api/internal/database/store.go:263-296 | Blob reference, version row, head and stored answer change together or the statement fails |
| SaveStore.Store.StoreIdempotency | minigba-api/internal/database/store.go:434-444 | A plain insert: fails when any row, expired or not, has the key |
| SaveStore.Store.Restore | minigba-api/internal/database/store.go:299-310 | A restore is a commit of an older live version's content, or "not found" without change |
| SaveStore.Store.DeleteSaves | minigba-api/internal/database/store.go:402-432 | Soft-deletes exactly the live heads that match, or "not found" without change |
| SaveStore.Store.RequestDeletion | minigba-api/internal/database/store.go:129-160 | An active account becomes deleting, loses its sessions and gets one job, or nothing changes |
| SaveStore.Store.PruneHistory | minigba-api/internal/database/maintenance.go:97-126 | Marks some `limit` oldest prunable versions and releases their blobs |
| SaveStore.PickLeast | minigba-api/internal/database/maintenance.go:113-114 | ORDER BY ... LIMIT n selects n least rows, ties either way |
| SaveStore.Store.PurgeDeletedHeads | minigba-api/internal/database/maintenance.go:128-153 | Removes heads deleted more than a week ago with all their versions, releasing only live ones |
| SaveStore.Store.ForgetBlob | minigba-api/internal/database/maintenance.go:208-214 | Deletes a due row, unless soft-deleted versions still refer to it |
| SaveStore.Store.EraseInTx | minigba-api/internal/database/maintenance.go:55-90 | The erasure statements in order; a device row still referenced elsewhere makes them fail |
| SaveStore.Store.ProcessOneDeletion | minigba-api/internal/database/maintenance.go:31-95 | Completes the oldest pending job, records its failure, or changes nothing when none is pending |
| SaveStore.Store.ProcessDeletionBatch | minigba-api/internal/database/maintenance.go:13-29 | Counts exactly the jobs completed; stops at the limit, an idle queue or the first error |
| StoreInvariants.CommitCases | minigba-api/internal/database/store.go:190-297 | A commit appends one version, or only stores an answer about an existing equal one, or changes nothing |
| StoreInvariants.InvStep | minigba-api/internal/database/migrations/0001_initial.sql:1-92 | Every transaction keeps foreign keys, checks, unique keys and the further invariants |
| StoreInvariants.InvRun | minigba-api/internal/database/migrations/0001_initial.sql:1-92 | So does every run of transactions, in any order, at any times |
| StoreInvariants.RefCountsStep | minigba-api/internal/database/maintenance.go:58-70 | Commit, prune, purge and erasure all keep reference counts equal to the live rows |
| StoreInvariants.QuotaStep | minigba-api/internal/database/store.go:247-262 | No transaction takes a user above the quota |
| StoreTheorems.ReferenceCountsAreExact | minigba-api/internal/database/store.go:263-285 | In every reachable state a blob's count is its number of live versions, and it is scheduled for deletion exactly when that is zero |
| StoreTheorems.ReleaseNeverClamps | minigba-api/internal/database/maintenance.go:117-119 | No release ever exceeds the count, so GREATEST(0, ...) never changes a value |
| StoreTheorems.QuotaHolds | minigba-api/internal/database/store.go:256-262 | Live bytes of a user never exceed the limit, and the 64-bit comparison cannot overflow |
| StoreTheorems.ListedHeadsAreReadable | minigba-api/internal/database/store.go:327-400 | Every live head is listed and its current content can be read |
| StoreTheorems.RetryChangesNothing | minigba-api/internal/database/store.go:195-208 | While a key row exists a commit with the key changes nothing: it replays, or fails |
| StoreTheorems.CommitIsExactlyOnce | minigba-api/internal/database/store.go:190-246 | After a success, the same request within 24 hours returns the stored result whatever ran in between |
| StoreTheorems.KeyRowRun | minigba-api/internal/database/maintenance.go:155-169 | A key row stays as stored until it expires or its user is erased |
| StoreTheorems.HistoryHasNoGaps | minigba-api/internal/database/store.go:274-288 | The versions of a head are exactly revisions 1 to current_revision in every reachable state |
| StoreTheorems.DeletingAccountIsFrozen | minigba-api/internal/database/store.go:247-254 | Once deletion was requested no run gives the user another version |
| StoreTheorems.ErasureIsFinal | minigba-api/internal/database/maintenance.go:68-84 | Once erased, a user owns no head, version, key, session or device in any later state |
| StoreTheorems.CompletedJobErases | minigba-api/internal/database/maintenance.go:55-94 | A worker call completes its job iff nothing fails and no device row is held, and the account is then empty |
| StoreTheorems.StatusRun | minigba-api/internal/database/store.go:51-60 | A user never becomes active again |
| StoreTheorems.ChecksumValidationIsNeeded | minigba-api/internal/save/service.go:51-53 | With an empty checksum the equal-checksum shortcut would store rows for an erased account |
| StoreAnswers.CommitAnswers | minigba-api/internal/database/store.go:213-297 | The whole answer of a commit under a new key: on a base other than the live head's revision (0 without one) the current save as success if its content is the same, else a conflict carrying that save; then inactive account, quota, row constraints; otherwise one new row with all that was sent, read back as current, and the answer kept for 24 hours |
| StoreAnswers.KeyedCommitAnswers | minigba-api/internal/database/store.go:195-211 | Under a stored key: the stored answer, refusal of another request, or after expiry an error instead of a success; never a change |
| StoreAnswers.RestoreAnswers | minigba-api/internal/database/store.go:299-310 | A restore of a readable revision with current base, active account, room and a known device always succeeds and stores that content under the next revision, with this request's device and key; otherwise it answers as an upload of the content would |
| StoreAnswers.ListAnswers | minigba-api/internal/database/store.go:327-354 | A listing holds exactly the current saves of the user's own live heads |
| StoreAnswers.DeleteAnswers | minigba-api/internal/database/store.go:402-432 | A delete marks and counts exactly the live heads named by slot, or by user and ROM, and nothing else |
| StoreAnswers.PruneAnswers | minigba-api/internal/database/maintenance.go:115-116 | Pruning marks the rows chosen with this moment and leaves every other row |
| StoreAnswers.PurgeAnswers | minigba-api/internal/database/maintenance.go:134-143 | A full purge removes exactly the heads deleted more than seven days ago, each with all its versions |
| StoreAnswers.ReleasedBlobWaits | minigba-api/internal/database/maintenance.go:117-119 | Prune, purge and erasure schedule a blob for seven days later exactly when they take its last live version |
| StoreAnswers.ForgetAnswers | minigba-api/internal/database/maintenance.go:208-214 | A blob row goes exactly when it is unreferenced, due, and named by no version row |
| StoreAnswers.LoginAnswers | minigba-api/internal/database/store.go:50-72 | A login is refused for an account that is not active; otherwise it adds one session on one device row and changes no other |
| StoreAnswers.DeletionRequestAnswers | minigba-api/internal/database/store.go:129-160 | A deletion request queues one job for an active account and revokes that account's open sessions and nobody else's |
| StoreAnswers.FailedCallAnswers | minigba-api/internal/database/maintenance.go:33-42 | A failed worker call charges one attempt; the job stays pending until the tenth, then it is failed |
| StoreAnswers.ErasureAnswers | minigba-api/internal/database/maintenance.go:55-90 | An erasure leaves every row of other accounts alone and frees the person's subject, so that the next login makes a new account |
| StoreAnswers.CleanupKeepsSessions | minigba-api/internal/database/maintenance.go:171-187 | Session cleanup ends no active session |
| StoreReads.ReadsAreIsolated | minigba-api/internal/database/store.go:380-400 | No transaction changes what is read or listed of a slot it does not name, whatever it does to others |
| StoreReads.CommitReadsBack | minigba-api/internal/database/store.go:274-297 | What a commit appends is the current content afterwards; older revisions of a live head read as before |
| StoreReads.RestoreReproducesSource | minigba-api/internal/database/store.go:299-310 | A restore makes the old content current again under a new revision, and keeps the old one |
| StoreReads.DeleteHides | minigba-api/internal/database/store.go:410-424 | A delete hides exactly the heads it names and frees no quota |
| StoreReads.LoginOpensSession | minigba-api/internal/database/store.go:50-72 | A login succeeds exactly for a new or active user, opens its session and closes no other |
| StoreReads.DeletionEndsSessions | minigba-api/internal/database/store.go:82-92 | From a deletion request on no session of the account is active, in any run |
| Retention.CandidatesAfterPrune | minigba-api/internal/database/maintenance.go:103-114 | A batch leaves exactly the other candidates: it cannot promote a version into the kept ranks |
| Retention.PruningIsBatchIndependent | minigba-api/internal/database/maintenance.go:97-126 | Any batches, until a call returns 0, end in the tables of one unlimited pass |
| Retention.PruningKeepsNewest | minigba-api/internal/database/maintenance.go:109-112 | The newest 10 or 3 live versions, the current one, young ones and those of deleted heads survive |
| Retention.PruningLeavesExactly | minigba-api/internal/database/maintenance.go:103-114 | Once a call returns 0, the live versions left are exactly those: the current one, the newest 10 or 3, those younger than 30 or 14 days, and those of deleted heads |
| WorkerProgress.WorkRun | minigba-api/internal/database/maintenance.go:31-46 | Worker calls that reach a job are bounded by the attempts left, over any run |
| WorkerProgress.JobBlocksTenRounds | minigba-api/internal/database/maintenance.go:37-37 | One job is charged at most ten times; calls cut off by cancellation or an unrecorded error are not charged |
| WorkerProgress.WaitingJobIsReached | minigba-api/internal/database/maintenance.go:48-48 | While no charged call is for a waiting job, charged calls number at most the attempts left to the jobs ahead of it |
| WorkerProgress.NextJobIsReached | minigba-api/internal/database/maintenance.go:31-48 | With one job ahead, however often it fails, more than ten charged calls reach the next job |
| Uploads.FSStore.Put | minigba-api/internal/blob/store.go:71-134 | With no failing call the result follows from limit, length and digest; whatever fails, only whole content within limit and of the expected digest appears, under its own digest; the temporary file is gone after a success, and after a failure may be the one thing left |
| Uploads.FSStore.Delete | minigba-api/internal/blob/store.go:147-156 | Removes the one file named by a valid digest |
| Uploads.Service.UploadSave | minigba-api/internal/save/service.go:38-85 | A success means the content sent is stored under its digest and, unless replayed, is the slot's current content with its file present; an error leaves the tables alone; when no file call fails, an acceptable request gets the answer of the commit |
| Uploads.CommittedIsCurrent | minigba-api/internal/database/store.go:234-297 | Appended or already equal, the content sent is current after a success |
| Uploads.CommitKeepsFiles | minigba-api/internal/save/service.go:64-84 | A commit of a stored blob leaves every live version its file |
| BlobGc.SysInvStep | minigba-api/cmd/api/main.go:153-180 | Every step of uploads, restores, collector and restarts keeps lock, file and grace invariants; each lock belongs to work in progress |
| BlobGc.LiveVersionsKeepTheirFiles | minigba-api/internal/save/service.go:64-84 | In every interleaving every live version has its blob file |
| BlobGc.SourceIsSafe | minigba-api/internal/database/store.go:299-310 | Within its grace an unlocked restore's source keeps its file |
| BlobGc.CommitTouchesOneBlob | minigba-api/internal/database/store.go:263-266 | A commit touches the one blob whose lock its upload holds, and un-schedules it |
| BlobGc.LocksAreReleased | minigba-api/cmd/api/main.go:153-180 | In every reachable state a new upload gets the lock of its digest iff no other upload and no turn of the collector is at work on it |
| BlobGc.DueBlobIsCollected | minigba-api/cmd/api/main.go:151-180 | From every reachable state with an idle collector, the five steps remove the file and row of a due, unnamed blob nobody works on, and nothing else |
| BlobGc.GraceIsNeeded | minigba-api/internal/database/store.go:299-310 | A run in which a restore commits as its seven days end and its file is gone |
| SyncProtocol.NetInvStep | minigba-app/src/cloud/sync-service.ts:22-31 | Every client and server step, changes of account, imports with a revision read earlier and reads of the previous manifest included, keeps manifests, requests and replies true to the server's history |
| SyncProtocol.NoSilentOverwrite | minigba-api/internal/database/store.go:227-246 | Revision r+1 of a live head comes from a device that had observed revision r of a head of this save directory, in some account, and held its content; that head is the one superseded iff its row is still there and belongs to this account's save; a deleted head accepts only base 0 |
| SyncProtocol.OneAccountKeepsLineage | minigba-app/src/storage/save-repository.ts:13-18 | From a device never signed in to another account the base is always a revision of this save, and of the very row unless that was purged |
| SyncProtocol.RestoresAreInformed | minigba-app/src/cloud/sync-service.ts:31-31 | A history restore replaces a revision number its device has seen listed for this save directory, of the row in the table under the same condition |
| SyncProtocol.AnswersAreKnown | minigba-api/internal/database/store.go:234-246 | Whatever an upload is answered, it is about a real version, and a success about the content sent |
| SyncProgress.SettlingTakesRevisionOver | minigba-app/src/cloud/sync-service.ts:23-30 | After an answered upload, "keep local" and "use cloud" the manifest has the answer's revision and head, with the local number and checksum or the downloaded ones; nothing else changes |
| SyncProgress.SavingKeepsBase | minigba-app/src/storage/save-repository.ts:13-18 | A local save keeps the base it found, an import takes the one its dialog read |
| SyncProgress.RemovalForgetsBase | minigba-app/src/storage/save-repository.ts:60-63 | After a removal the next local save starts at local revision 1 on base 0 |
| SyncProgress.RestoreAsksOverListed | minigba-app/src/cloud/sync-service.ts:31-31 | A history restore asks, in the account signed in to, for the chosen revision over the listed one |
| SyncProgress.ReadsAnswerTheStore | minigba-api/internal/database/store.go:380-400 | Downloads and listings answer what the store holds and change nothing |
| SyncProgress.StaleUploadIsRefused | minigba-api/internal/database/store.go:234-243 | An upload on a stale base with other content is answered with the current save, and changes nothing |
| SyncProgress.SettledDeviceUploads | minigba-app/src/cloud/sync-service.ts:29-30 | A device that settled against the current save uploads next with the current revision as base; with quota and rows in order its content becomes the current save |
| LineageRuns.PurgeBreaksLineage | minigba-api/internal/database/maintenance.go:133-148 | A run in which a device supersedes, after a purge, content it never had |
| LineageRuns.AccountSwitchBreaksLineage | minigba-app/src/storage/save-repository.ts:13-18 | A run in which nothing was purged, but a device changes account over its save directory and supersedes content it never had |
| ClientOrder.StepKeepsOrder | minigba-app/src/cloud/sync-service.ts:11-17 | Each step keeps the promise chain in call order, thrown errors included |
| ClientOrder.OneAtATimeInOrder | minigba-app/src/cloud/sync-service.ts:11-17 | Operations run one at a time in call order |
| ClientOrder.NextCallerCanBegin | minigba-app/src/cloud/sync-service.ts:13-16 | When nothing runs the first waiting caller can begin |
| ClientOrder.StepKeepsInv | minigba-app/src/storage/sync-queue.ts:8-32 | Uploads, deletes, enqueues, changes and completions from outside, each on the queue file of the account signed in at that step, and changes of account keep the invariant of every queue |
| ClientOrder.NoUploadAfterDelete | minigba-app/src/cloud/delete-service.ts:7-13 | What a successful cloud delete removed, or read from the same queue, is never uploaded afterwards, unless a restore had carried it into another account's queue |
| ClientOrder.UploadedAfterDeleteIff | minigba-app/src/cloud/sync-service.ts:19-23 | Of what a successful delete read or removed, exactly the uploads still in some account's queue are sent in some later run; only due tasks are ever sent |
| ClientOrder.CarriedTaskOutlivesDelete | minigba-app/src/cloud/delete-service.ts:25-25 | From any state, a run that carries a queued upload into another account's queue, where it survives the delete that removes it |
| ClientOrder.AnswerIsRecorded | minigba-app/src/cloud/sync-service.ts:22-27 | A completed upload leaves the queue, a conflict or failure is recorded on its entry, and no other entry or queue changes |
| ClientOrder.FailedDeleteRestores | minigba-app/src/cloud/delete-service.ts:9-25 | Once a failed delete has put back what it read, a removed upload whose save was not completed from outside is covered in its queue iff something restored into that queue or enqueued there since covers it; without a change of account what was restored there is all that was read |
| ClientOrder.FailedDeleteCoversIff | minigba-app/src/cloud/delete-service.ts:9-25 | At every point of the restore, the queue removed from covers an upload of the scope iff an equal or newer revision was put into that queue since the removal with no completion of its save after it |
| ClientOrder.AccountChangeLosesTask | minigba-app/src/cloud/client.ts:67-71 | From any state, a run in which the account changes between removal and restore and a queued upload is lost to its account |
| ClientOrder.UnreadTaskIsLost | minigba-app/src/cloud/delete-service.ts:9-11 | From any state, a run in which an upload enqueued between reading and removal is removed and not put back |
| ClientOrder.CompletedTaskIsLost | minigba-app/src/cloud/sync-service.ts:29-30 | From any state, a run in which an upload put back is completed by resolving its conflict by hand |
| ClientOrder.OneTaskPerSave | minigba-app/src/storage/sync-queue.ts:16-21 | Every account's queue holds one upload per save at most, throughout |
| SyncQueue.Queue.EnqueueTask | minigba-app/src/storage/sync-queue.ts:16-21 | Replaces an older or equal revision of the save, keeps a newer one, otherwise appends; loses no save's progress |
| SyncQueue.EnqueueCovers | minigba-app/src/storage/sync-queue.ts:18-19 | After enqueueing, that revision or a newer one is queued, and nothing else was rolled back |
| SyncQueue.EnqueueExactly | minigba-app/src/storage/sync-queue.ts:16-21 | The save's entry is the new upload unless a strictly newer revision is queued, and every other entry stays |
| SyncQueue.ChangeExactly | minigba-app/src/storage/sync-queue.ts:24-27 | The first entry with the ID changes and no other |
| SyncQueue.ChangesRecord | minigba-app/src/storage/sync-queue.ts:24-27 | A retry counts the attempt and keeps the error, a conflict records the server's revision, a manual retry starts over; none changes what is uploaded |
| SyncQueue.DelayDoubles | minigba-app/src/storage/sync-queue.ts:25-25 | The delay starts at five seconds and doubles up to an hour |
| SyncQueue.OperationsKeepOnePerKey | minigba-app/src/storage/sync-queue.ts:16-28 | Every operation keeps one upload per save |
| SyncQueue.Queue.CompleteTask | minigba-app/src/storage/sync-queue.ts:22-22 | Removes exactly the entries with the ID |
| SyncQueue.Queue.ChangeTask | minigba-app/src/storage/sync-queue.ts:24-27 | markConflict, retry, fail and retryNow change one entry and cover what was covered |
| SyncQueue.ChangesScheduleUploads | minigba-app/src/storage/sync-queue.ts:25-27 | A failed upload is due again after ten seconds to an hour, a terminal one never, a manual retry at once |
| SyncQueue.DelayGrows | minigba-app/src/storage/sync-queue.ts:25-25 | The delay grows with the attempts up to an hour |
| SyncQueue.Queue.RemoveKey | minigba-app/src/storage/sync-queue.ts:28-28 | Removes exactly the entries in the scope |
| SyncQueue.Queue.RestoreTasks | minigba-app/src/cloud/delete-service.ts:25-25 | Puts each entry back unless an equal or newer revision is queued |
| SyncQueue.FailedDeleteRestoresIff | minigba-app/src/cloud/delete-service.ts:9-11 | With nothing between removal and restore, what a failed delete removed comes back iff what it had read covers it |
| SyncQueue.UndisturbedDeleteRestores | minigba-app/src/cloud/delete-service.ts:9-11 | With nothing between its steps a failed delete loses nothing |
| SaveFiles.SaveDirectory.Replace | minigba-app/src/platform/fs.ts:90-99 | Every disk state of unlink, rename, rename and the rollback, whichever call fails |
| SaveFiles.SaveDirectory.WriteAtomic | minigba-app/src/platform/fs.ts:25-47 | The same for the write through a temporary file, torn writes included |
| SaveFiles.SaveDirectory.Commit | minigba-app/src/storage/save-repository.ts:8-25 | Content first, manifest second, at every recorded state, with a manifest built from one on disk: its local revision plus one, the cloud revision passed or else its own; success leaves the pair complete and the old pair behind it, and has passed through the states that a crash strands |
| SaveFiles.SaveDirectory.GetManifest | minigba-app/src/storage/save-repository.ts:39-48 | Reads manifest.json, falling back to the previous one when missing or unparsable |
| SaveFiles.SaveDirectory.Load | minigba-app/src/storage/save-repository.ts:27-37 | Returns only a described pair from disk, and exactly what the files determine when no read fails |
| SaveFiles.SaveDirectory.UpdateCloudRevision | minigba-app/src/storage/save-repository.ts:69-69 | Rotates the manifest only, from the manifest it read, which is one of the two on disk |
| SaveFiles.LoadIsConsistent | minigba-app/src/storage/save-repository.ts:27-37 | Whatever is on disk, a loaded save matches key, length and checksum of its manifest and both are on disk |
| SaveFiles.CommitKeepsTheOldSave | minigba-app/src/platform/fs.ts:90-99 | From a matched pair no crash point loses the last committed bytes or their manifest |
| SaveFiles.LoadAfterRunIff | minigba-app/src/storage/save-repository.ts:8-69 | After any run of completed commits and updates, failed reads included, current.bin holds the last committed bytes, and load returns them with the last manifest iff that describes them |
| SaveFiles.LoadAlongRunIff | minigba-app/src/storage/save-repository.ts:8-69 | Such a run is loadable at every point iff every manifest an update read described the bytes then current |
| SaveFiles.SuccessfulReadsDescribe | minigba-app/src/storage/save-repository.ts:42-45 | They do when reading manifest.json never failed |
| SaveFiles.FailedReadSpoilsTheSave | minigba-app/src/storage/save-repository.ts:45-69 | A loadable disk on which a completed update, its read of manifest.json failed, makes load throw |
| SaveFiles.CommitCanStrandIff | minigba-app/src/platform/fs.ts:92-94 | From a matched pair some crash point makes load throw, unless the old manifest describes the new bytes and the previous manifest the old ones |
| SaveFiles.SuccessPassesStrandedStates | minigba-app/src/platform/fs.ts:92-94 | And a commit that succeeds has passed through such a point |
| SaveFiles.LoadAfterCrash | minigba-app/src/storage/save-repository.ts:31-36 | After a crash load gives the old or the new save; it throws iff the manifest is old, the content does not match and no previous manifest describes the old bytes |
| SaveFiles.CommitKeepsBytesIff | minigba-app/src/platform/fs.ts:92-93 | A commit keeps surviving bytes at every crash point iff they are in current.bin |
| SaveFiles.RotationKeepsManifestIff | minigba-app/src/storage/save-repository.ts:41-45 | A commit or update keeps a surviving manifest at every crash point iff it is in manifest.json |
| SaveFiles.LoadFindsNothingIff | minigba-app/src/platform/fs.ts:92-92 | Some crash point of a commit, and of an update, makes load report no save iff manifest.json is missing when it starts |
| SaveFiles.LoadAfterCrashes | minigba-app/src/storage/save-repository.ts:8-69 | Through any run of commits and updates that may each crash or fail anywhere, load returns only bytes some commit wrote with a manifest some commit wrote up to the cloud revision, and one completed commit repairs the rest |
| SaveFiles.SavesAfterUpdateKeepRevision | minigba-app/src/storage/save-repository.ts:13-18 | After an update to a cloud revision any number of local saves keeps it and raises the local revision by one each |
| SaveFiles.LoadDuringRevisionUpdate | minigba-app/src/storage/save-repository.ts:45-69 | During an update load keeps returning the save; after it, it throws iff the manifest read does not describe the bytes and the old one not those of current.bin.previous |
| SaveFiles.RevisionUpdateSpoilsTheBackup | minigba-app/src/storage/save-repository.ts:69-69 | After a revision update the previous pair helps iff the newer manifest describes the older bytes |
| Fips180.ZeroBitsIsSmallest | minigba-app/src/domain/sha256.ts:39-46 | The padding length is the smallest solution of section 5.1.1 of FIPS 180-4 |
| Sha256.Hasher.Update | minigba-app/src/domain/sha256.ts:21-33 | After any split into calls the state is the hash of the whole blocks and the buffer the rest; throws once finished |
| Sha256.Hasher.AbsorbChunk | minigba-app/src/domain/sha256.ts:25-31 | One loop turn buffers a chunk and compresses a full block |
| Sha256.Hasher.CompressBlock | minigba-app/src/domain/sha256.ts:60-82 | The rounds on mixed-sign numbers compute section 6.2.2 of FIPS 180-4 |
| Sha256.Hasher.ExpandBlock | minigba-app/src/domain/sha256.ts:61-69 | The word array is the message schedule |
| Sha256.Hasher.HashPadding | minigba-app/src/domain/sha256.ts:38-51 | Padding in one block or two gives the hash of the padded message |
| Sha256.Hasher.Digest | minigba-app/src/domain/sha256.ts:35-56 | The digest is the FIPS 180-4 hash of everything passed to update, below 2^50 bytes; throws the second time |
| Sha256.TemporariesStep | minigba-app/src/domain/sha256.ts:73-78 | Sums of signed and unsigned 32-bit results agree modulo 2^32 with T1 and T2 |
| Sha256.ScheduleStep | minigba-app/src/domain/sha256.ts:65-68 | So do the sums of the schedule |
| Sha256.BufferMore | minigba-app/src/domain/sha256.ts:25-31 | Filling the buffer and compressing at 64 bytes hashes the longer message |
| Sha256.TwoLastBlocks | minigba-app/src/domain/sha256.ts:40-51 | With more than 55 bytes left the padded message ends in two blocks |
| Sha256.OneLastBlock | minigba-app/src/domain/sha256.ts:39-51 | Otherwise in one |
| Sha256.BigEndianJoin | minigba-app/src/domain/sha256.ts:46-50 | High and low word are the 64-bit length |
| Sha256.Sha256Hex | minigba-app/src/domain/sha256.ts:85-85 | The 64 lower-case hexadecimal digits of the FIPS 180-4 hash of the input, high digit of each byte first |
| Sha256.HexIsInjective | minigba-app/src/domain/sha256.ts:58-58 | A digest and its text determine each other |
| AudioRing.Ring.Init | minigba-core/src/audio_ring.c:6-17 | Refuses zero and overflowing capacities, otherwise leaves an empty ring |
| AudioRing.Ring.Write | minigba-core/src/audio_ring.c:35-58 | The contents become the last `capacity` frames of old contents and input |
| AudioRing.Ring.MakeRoom | minigba-core/src/audio_ring.c:39-50 | Skips input and drops the oldest frames so that the rest fits |
| AudioRing.Ring.Store | minigba-core/src/audio_ring.c:51-57 | The wrapping copy appends the frames |
| AudioRing.Ring.Read | minigba-core/src/audio_ring.c:60-73 | Returns and removes the longest allowed prefix and touches no more of the output |
| AudioRing.RunConservesFrames | minigba-core/src/audio_ring.c:35-73 | Over any run of calls written = read + lost + queued, and what was read is a subsequence of what was written |
| AudioRing.Ring.Conserves | minigba-core/src/audio_ring.c:27-73 | The ring holds exactly what the queue would after the same calls, so its own runs conserve frames |
| AudioRing.WritesCompose | minigba-core/src/audio_ring.c:39-57 | Writing in pieces equals writing at once |
| AudioRing.NothingIsLostIff | minigba-core/src/audio_ring.c:46-50 | A write loses frames iff they do not fit |
| Allocator.PowerOfTwoIff | minigba-core/src/mgba_wx.c:75-77 | The bit trick accepts exactly the powers of two |
| Allocator.AlignUpIsNextMultiple | minigba-core/src/mgba_wx.c:314-314 | The mask gives the next multiple of the alignment at or above the block |
| Allocator.RegionsAreDisjoint | minigba-core/src/mgba_wx.c:313-321 | Live regions are pairwise disjoint, and an address names one at most |
| Allocator.IndexOfIsUnique | minigba-core/src/mgba_wx.c:331-331 | The first entry found for a live address is that entry |
| Allocator.WithoutStaysPlaced | minigba-core/src/mgba_wx.c:336-338 | Removing an entry keeps the others placed and held |
| Allocator.Allocator.Alloc | minigba-core/src/mgba_wx.c:299-325 | Error exactly as documented; otherwise an aligned region inside its block, added in front |
| Allocator.Allocator.Free | minigba-core/src/mgba_wx.c:327-345 | Removes exactly the entry of that address if size and alignment match, otherwise nothing |
| Allocator.Allocator.Unlink | minigba-core/src/mgba_wx.c:336-336 | The cursor write takes one node out of the list |
| Allocator.Allocator.Contains | minigba-core/src/mgba_wx.c:79-91 | True iff the range does not wrap and lies in one live region |
| Allocator.Allocator.ReleaseAll | minigba-core/src/mgba_wx.c:93-100 | Frees every block, each once |
| Library.LibraryRepository.ScanRomFiles | minigba-app/src/storage/library-repository.ts:185-206 | Every valid ROM ends at its canonical path, every invalid file in quarantine, other files as they were, with a matching index |
| Library.LibraryRepository.ScanOne | minigba-app/src/storage/library-repository.ts:188-204 | One turn of the loop |
| Library.LibraryRepository.RepairLibrary | minigba-app/src/storage/library-repository.ts:97-104 | The same, with the index replaced, known games keeping their play time, and the three counts exact |
| Library.RomPathIsInjective | minigba-app/src/storage/library-repository.ts:271-271 | Different hashes have different canonical paths, which the scan recognises as ROM files |
| Library.ScanKeepsInv | minigba-app/src/storage/library-repository.ts:188-204 | Moving, unlinking and quarantining one file keep what was settled before |
| Library.ScanKeepsContentIff | minigba-app/src/storage/library-repository.ts:195-195 | A new valid ROM is kept iff its canonical path is free or already holds it |
| Library.EachRomExactlyOnce | minigba-app/src/storage/library-repository.ts:193-199 | After a repair each valid content is at one path below the ROM directory, its canonical one |
| Library.RepairedIsScannable | minigba-app/src/storage/library-repository.ts:185-206 | A repaired directory needs no collision assumption to be scanned again |
| Library.RepairTwiceChangesNothing | minigba-app/src/storage/library-repository.ts:185-206 | A second repair changes no file |
| Utf8.Decode | minigba-app/src/platform/fs.ts:114-125 | The loop terminates on any bytes and appends the units of each step |
| Utf8.StepDecodes | minigba-app/src/platform/fs.ts:116-122 | The octets of one scalar value decode to its UTF-16 units and no more |
| Utf8.DecodeEncode | minigba-app/src/platform/fs.ts:114-125 | Decoding the UTF-8 encoding of any scalar values gives their UTF-16 form |
| RequestEncoding.RequestDigest | minigba-api/internal/save/service.go:178-184 | The loop hashes the length-prefixed encoding of its parts |
| RequestEncoding.EncodeIsInjective | minigba-api/internal/save/service.go:178-184 | The encoding of any list of byte strings determines the list |
| RequestEncoding.RenderIsInjective | minigba-api/internal/save/service.go:156-176 | A validated key is determined by how it prints |
| RequestEncoding.RequestsAreDecodable | minigba-api/internal/save/service.go:78-98 | Equal encodings mean equal requests, and no upload's equals a restore's |
| RequestEncoding.EqualHashesIff | minigba-api/internal/save/service.go:78-98 | Hashes are equal iff the requests are, up to a collision |

## Left out

- Transactions are atomic and serialised, as the row and advisory locks make them; PostgreSQL's isolation below that is not modelled, nor are audit events, row UUIDs (other than a head's) and display names.
- A deletion job is never committed as running, so the reset of stale running jobs has nothing to act on and is left out; so are the worker's error texts.
- Versions are addressed by slot and revision instead of by head row. The foreign keys make the two agree, and the head's identifier is kept.
- The order of listings is not modelled, only which heads are listed.
- Interleaved code (the maintenance loop, uploads, the promise chain, many devices) is modelled as state machines over its steps, because the interleaving is the point; the statements of each transaction and of each file or queue operation are methods.
- Each repository or queue method of a client is one atomic step in `SyncProtocol` and `ClientOrder`: the client takes no lock around reading and rewriting a manifest or the queue, and the account does not change inside one such method.
- ClientOrder.FailedDeleteRestores: a restore cut short by an error of its own is a delete that ends early; nothing is claimed of it.
- SaveFiles.SaveDirectory.Replace: the existence test answers truthfully, a call that reports failure left the disk unchanged (a failed write may leave a torn temporary file; reads may fail), and renames are durable in order.
- SaveFiles.SaveDirectory.Commit: key validation and directory creation are not modelled, nor are conflict copies and previews, which use the same write.
- Library.LibraryRepository.ScanRomFiles: file calls succeed, no two ROMs present collide under SHA-256, and titles, dates and other display fields are not kept.
- Sha256.Hasher.Digest: messages of 2^50 bytes and more, for which the bit count stops being an exact JavaScript number.
- Allocator.Allocator.Alloc: `malloc` and `calloc` are parameters; a block is non-null, overlaps no live block and does not reach the end of the 32-bit address space.
- AudioRing.Ring.Write: null rings; a released ring is one of capacity zero.
- SyncProtocol.RestoresAreInformed: what a served restore stores is left open there, because its source is read in an earlier transaction; `StoreAnswers` says what one transaction stores.
- Uploads.Service.UploadSave: trimming of the build ID and the UUID formats of device and idempotency key are not modelled; the digest lock is a step of `BlobGc`.
- Uploads whose commit fails leave a file without a row, which nothing collects; the model has such files but claims nothing about them.
- HTTP routing, tokens, WeChat login, configuration, catalog and ZIP import, settings, play history, the emulator core, rendering, audio output and user interface.
