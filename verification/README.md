# Tergum: a verified model of its deduplicating encrypted store

Tergum backs files up into a content-addressable store. A file's BLAKE3 digest names its blob, so
equal files share one blob; with encryption on, each blob is sealed under its own data key, and
that key, wrapped under the master key with AES Key Wrap (RFC 3394), is recorded in the database
row of the run that uploaded the blob. Later runs that find the blob stored already record rows
without a key. Restoring, deleting and expiring therefore depend on rows of other runs, and the
safety of the store is a property of whole histories.

The project models one node in local mode as a state machine over three things: the table of
backup entries, the table of jobs and the blobs. Around it stand the key wrap, the upload and
download streams, the command tunnels, the client registry with its missed backups, and the
watcher's debounce and stability gate. `dafny verify dfyconfig.toml` checks everything.

Every operation appears twice where the source changes state: as methods of a class with the
source's fields and loops, and as a function on values to which the methods are tied by their
postconditions. The theorems are about those functions, over all inputs and all runs. They state
conditions, constants and fields in their own words: the days of a policy in nanoseconds, the guard
of a registration, the steps of the key wrap and the fields of a row are written out where they are
promised, and not taken from the definitions that compute them.

| file | what it covers |
|---|---|
| `Rfc3394.dfy` | the key wrap of RFC 3394, section 2.2.1, on one byte string |
| `KeyWrap.dfy` | AES key wrap and unwrap as the code computes them, and their equality with the standard |
| `Encryption.dfy` | per-file encryption over an abstract AEAD and digest |
| `Catalog.dfy`, `Storage.dfy` | the tables, the repository and the content-addressable store |
| `Reclamation.dfy` | what any sequence of deletion writes keeps, and what a whole one reclaims |
| `Deletion.dfy`, `Retention.dfy` | the two engines that delete |
| `Backup.dfy`, `Ongoing.dfy`, `Accounting.dfy`, `RemoteDiff.dfy` | backup runs, watched files, and the counters they report |
| `Records.dfy` | what the rows of a run say of its files |
| `Restore.dfy`, `Restorability.dfy`, `History.dfy`, `Loss.dfy` | restoring, and which files can be restored after which history |
| `Framing.dfy`, `Transfer.dfy` | upload and download streams, and files that are encrypted, uploaded and restored |
| `Tunnel.dfy` | matching responses to commands |
| `Registry.dfy`, `Scheduler.dfy` | the client registry and the replay of missed backups |
| `Watcher.dfy` | debouncing and the stability gate |

## The main results

- The in-place loops of the key wrap compute what section 2.2.1 of RFC 3394 specifies, and unwrap
  accepts exactly what wrap produces, for every key and every length.
- A file that a client encrypts, uploads in a stream cut up in any way, and restores from what the
  server stored and sends back is the original with its permissions.
- After any history of backups, watched files, deletions and retention runs, whatever was stopped,
  failed or aborted, a recorded hash can be restored if and only if its blob is stored and every row
  that a restore can end up with gives the content: a row with a key must open the blob, and when no
  row has one the blob must be the content itself. A node is sound when every recorded key opens its
  blob; exactly which failures of a run make a sound node unsound is proved too. In a history of
  clean backups every file ever backed up restores to exactly its bytes, whichever row is found
  first, and without a master key if no run encrypted.
- After any history that always encrypts no file lies in the store in the clear. Every row of a run,
  whatever fails, describes one of its files as the scan found it, and a clean run leaves none out.
- No write of a deletion or a retention run, at whatever point it is cut short, removes a blob that
  a surviving row refers to; a run that succeeds removes exactly the blobs that lost their last
  reference and counts each once. A retention run that fails has reaped only rows it found expired,
  and a dry one has written nothing.
- Short histories show what the conditions are for. Deleting the run that uploaded a blob, and a run
  stopped between upload and insertion, each leave a file that no row restores. A failed upload
  leaves a row that does not restore although the row of the next run does, and hides the file
  altogether when the next run does not encrypt. A failed check for a stored blob makes the rows of
  the run that first stored it useless.
- A successful retention run removes a version exactly if more than keep_days have passed since its
  date and neither keep_versions nor being the latest protects it, under an enabled policy of the
  highest priority among those that match its path.
- The tunnel, the registry, the scheduler and the watcher are proved over every interleaving of
  their steps. Every tick of a known, enabled client is accounted for, a client that is up keeps
  its machine unless it is rebound by force, and a caller gets the first response to its own request
  or none.

## Where the code and its documentation differ

- `cmd/retention.go:207` and the design document say that keep_versions versions survive. The code
  compares keep_versions with the count before the run, so four versions under "keep 3" can leave
  one (`Retention.KeepVersionsNotHonoured`); `Retention.KeepVersionsHonouredExactly` says when the
  promise is met. `README.md:16` says that the latest version is always protected; a policy with
  keep_versions 0 deletes it (`Retention.LatestNotAlwaysProtected`), and `Retention.NewestSurvives`
  says exactly when it survives.
- `internal/watcher/watcher.go:406` says that a file is dropped when the channel is full; the code
  waits.
- Local uploads and manifest checks bypass the store's check of the hash format
  (`internal/backup/engine.go:539-585`); the model does the same.
- The server's manifest exchange lists a missing hash once per file
  (`internal/grpc/data_server.go:445-457`), so a run against it counts equal new files more than
  once (`RemoteDiff.RemoteRunCounters`).
- A failed Stat in the local manifest check counts as a missing blob
  (`internal/backup/engine.go:543-548`), so the blob is replaced under a new data key.
- Rows that the server stores for uploaded files carry no job id
  (`internal/grpc/data_server.go:207-222`), and the dry run of a deletion counts that empty id as a
  job (`Deletion.UploadedRowsOvercount`).
- A missed backup's time is written as local wall clock and read back as UTC
  (`Registry.MissTimeSurvivesExactly`).

## What is assumed

The AES block cipher is a keyed bijection with its inverse, GCM is a deterministic AEAD with a
16-byte tag, and the digest is injective; `Encryption.LawsHaveModel` shows that these laws can be
met together. File contents, random draws, clocks and failures are parameters of the operations or
nondeterministic choices in the methods. An object marked `reliable` never fails from outside, and
the methods say that they succeed when everything they use is. SQL and glob patterns are abstract
predicates.

## Model

| member | source | states |
|---|---|---|
| KeyWrap.BigEndianReadsBack | internal/crypto/encrypt.go:190-197 | the eight bytes XORed into the register, read most significant first, are the counter, for every counter that fits |
| KeyWrap.DescendUndoesAscend | internal/crypto/encrypt.go:217-263 | for any mixer with a left inverse, the descending loops undo the ascending ones from any round and iteration |
| KeyWrap.AscendUndoesDescend | internal/crypto/encrypt.go:170-263 | and the ascending loops undo the descending ones, given a right inverse |
| KeyWrap.ShiftIsRotation | internal/crypto/encrypt.go:182-202 | after every single step the indexed registers are the shift register of RFC 3394 section 2.2.1, rotated by the iteration number |
| KeyWrap.WrapIsSpecified | internal/crypto/encrypt.go:159-211 | wrap returns w if and only if w is the outcome of section 2.2.1 of RFC 3394, written out on one byte string: 6n steps from eight bytes A6, each encrypting A and R[1], XORing the counter into A and moving the registers down; the errors are exactly the other lengths and the other key sizes |
| KeyWrap.UnwrapIsSpecified | internal/crypto/encrypt.go:217-278 | unwrap returns p if and only if the standard wraps p to the input; the errors are exactly the other lengths and the other key sizes |
| KeyWrap.UnwrapInvertsWrap | internal/crypto/encrypt.go:159-278 | wrap(p) = w if and only if unwrap accepts w and returns p, errors included |
| KeyWrap.RoundTrip | internal/crypto/encrypt.go:159-278 | every legal key wraps every plaintext of a multiple of 8 and at least 16 bytes to one block more, and it comes back |
| KeyWrap.WrapInjective | internal/crypto/encrypt.go:159-211 | equal wrapped keys come from equal plaintexts |
| KeyWrap.WrapIteration | internal/crypto/encrypt.go:184-200 | the body of the wrapping loop turns the register arrays into one step of the schedule |
| KeyWrap.AesKeyWrap | internal/crypto/encrypt.go:159-211 | the nested in-place loops return exactly what the standard specifies, and an error exactly for the other inputs |
| KeyWrap.UndoRound | internal/crypto/encrypt.go:239-258 | the inner descending loop leaves of the schedule what the earlier rounds still have to undo |
| KeyWrap.AesKeyUnwrap | internal/crypto/encrypt.go:217-278 | the descending in-place loops and the integrity check return p if and only if the standard wraps p to the input |
| Encryption.DecryptExact | internal/crypto/encrypt.go:118-153 | decryption returns p exactly for nonce and sealed p under a data key wrapped for this master key, whatever nonce argument is passed |
| Encryption.EncryptRoundTrip | internal/crypto/encrypt.go:72-153 | encryption succeeds exactly for 32-byte master keys, seals the input under the drawn data key and nonce, wraps that key as RFC 3394 does, decrypts to its input, and has the documented lengths |
| Encryption.LawsHaveModel | internal/crypto/encrypt.go:72-153 | the laws assumed of cipher, AEAD and digest are satisfiable together |
| Storage.Repository.InsertBackupEntry | internal/db/repository.go:294-347 | adds one row under the next id, the entry itself but for its key and the fraction of a second of its date, or nothing |
| Storage.Repository.QueryEntries | internal/db/repository.go:914-942 | lists each selected row once, and no other |
| Storage.Repository.FindByHash | internal/db/repository.go:376-385 | lists exactly the rows with the hash, in any order |
| Storage.Repository.GetFileVersions | internal/db/repository.go:628-638 | lists exactly the versions of a path, newest first |
| Storage.Repository.GetAllFilePaths | internal/db/repository.go:830-846 | lists each recorded path once |
| Storage.Repository.CountHashReferences | internal/db/repository.go:413-419 | counts the rows with the hash |
| Storage.Repository.DeleteEntries | internal/db/repository.go:422-455 | removes exactly the selected rows, or nothing |
| Storage.Repository.DeleteEntryByID | internal/db/repository.go:849-852 | removes one row |
| Storage.Repository.DeleteOrphanJobs | internal/db/repository.go:945-953 | keeps exactly the jobs that have rows and counts the others |
| Storage.CAS.Put | internal/storage/cas.go:85-126 | stores the bytes under a well-formed hash, or changes nothing |
| Storage.CAS.Delete | internal/storage/cas.go:163-181 | removes one blob, tells a missing one apart, and otherwise changes nothing |
| Storage.CAS.RefCount | internal/storage/cas.go:185-194 | the number of rows with the hash, 0 without a counter |
| Reclamation.EveryPrefixPreserves | internal/deletion/engine.go:157-178 | no sequence of row deletions, blob collections and job sweeps, wherever it stops, changes what it keeps or removes a blob a surviving row refers to |
| Reclamation.CollectsInAnyOrder | internal/deletion/engine.go:160-178 | after k collections in any order of the hashes exactly the unreferenced ones among the first k are gone |
| Reclamation.DeletePlanReclaims | internal/deletion/engine.go:157-187 | a complete deletion removes exactly the blobs whose last reference it deleted |
| Reclamation.ReclaimedFollowsRows | internal/deletion/engine.go:160-178 | a blob is gone exactly if some row referred to it before and none does any more; the others keep their bytes |
| Reclamation.ReclaimedKeepsNoGarbage | internal/deletion/engine.go:157-187 | if the blobs were exactly the referenced hashes before, they are afterwards |
| Reclamation.LostGrows | internal/retention/engine.go:135-151 | deleting one more row loses its hash exactly when it was the last with it |
| Reclamation.ReapStep | internal/retention/engine.go:135-151 | expiring one row and collecting its blob keeps the reclamation exact and counts the blob once |
| Deletion.JobsBalance | internal/deletion/engine.go:139-187 | for every database, real JobsRemoved and the ids counted without a job together equal the dry run's count, the jobs already empty and the jobs it overlooks |
| Deletion.OnlyNamelessOverlooked | internal/deletion/engine.go:202-228 | only a job with the empty id can be overlooked |
| Deletion.DryRunPredictsJobs | internal/deletion/engine.go:139-187 | real JobsRemoved is the dry run's plus the jobs already empty if and only if as many ids are counted without a job as jobs are overlooked; so always when the selected rows name jobs that exist |
| Deletion.UploadedRowsOvercount | internal/deletion/engine.go:202-228 | on a database of uploaded rows, deleting everything is estimated to remove one job more than it does |
| Deletion.DeletionEngine.CountHash | internal/deletion/engine.go:191-199 | counts the selected rows with the hash |
| Deletion.DeletionEngine.EstimateFiles | internal/deletion/engine.go:139-152 | the dry run's file count is the number of blobs a real run would remove |
| Deletion.DeletionEngine.EstimateOrphanJobs | internal/deletion/engine.go:202-228 | counts the jobs whose rows are all selected, exactly when every query is answered and never more |
| Deletion.DeletionEngine.ExecuteDelete | internal/deletion/engine.go:121-188 | a real run performs a prefix of its plan, the whole of it when it reports success, with exact entries, bytes, files and jobs; a dry run changes nothing and measures the same |
| Deletion.DeletionEngine.CollectBlobs | internal/deletion/engine.go:160-178 | collects in the order given, stops at the first error, and counts exactly the lost hashes |
| Deletion.DeletionEngine.DeleteByBackupID | internal/deletion/engine.go:68-74 | deletes exactly the rows of the job, the blobs that lost their last reference and the jobs left without rows, or reports the missing argument; it succeeds when nothing outside fails |
| Deletion.DeletionEngine.DeleteByFile | internal/deletion/engine.go:97-112 | the same for the rows of the path, in one job or all |
| Deletion.DeletionEngine.DeleteByFolder | internal/deletion/engine.go:78-93 | the same for the rows under the folder, in one job or all |
| Deletion.DeletionEngine.DeleteAll | internal/deletion/engine.go:115-118 | the same for every row |
| Retention.FindMatchingPolicy | internal/retention/engine.go:219-235 | the first policy in order whose pattern is empty or matches; malformed patterns never do |
| Retention.FirstMatchGoverns | internal/retention/engine.go:90-103 | the policy a run applies to a path is an enabled one that matches it, of the highest priority among those, and there is none only if none matches |
| Retention.SurvivorsOfPath | internal/retention/engine.go:112-261 | each path is left with exactly its closed form: what is in time under purge; everything within keep_versions or without keep_days; else the newest and what is in time |
| Retention.NewestSurvives | internal/retention/engine.go:112-261 | the newest version survives if and only if no purge policy governs the path, the policy never expires anything, or the version is in time |
| Retention.LatestNotAlwaysProtected | internal/retention/engine.go:112-261 | under "keep 0" a file whose only version is out of time is left with none |
| Retention.SecondRunExpiresNothing | internal/retention/engine.go:82-261 | running again at the same clock expires nothing, whichever newest version is listed first |
| Retention.ExpiryGrowsWithClock | internal/retention/engine.go:242-261 | from a given database the expired set only grows as the clock advances |
| Retention.KeepVersionsNotHonoured | internal/retention/engine.go:242-261 | four versions under "keep 3" leave one |
| Retention.KeepVersionsHonouredExactly | internal/retention/engine.go:242-261 | keep_versions versions survive if and only if the count is within it, no keep_days applies, or enough versions besides the newest are in time |
| Retention.OneRanking | internal/retention/engine.go:99-103 | with distinct priorities an unstable sort can leave only one order |
| Retention.TiesExpireAlike | internal/retention/engine.go:112-212 | whichever of equally new versions two runs list first, they find equally many expired |
| Retention.DryRunPredictsRealRun | internal/retention/engine.go:112-212 | a dry run agrees with the real run on evaluated, expired and protected, although the real run deletes as it goes and may break ties of dates differently, and on bytes when versions that tie for the newest are of one size |
| Retention.RetentionEngine.ReapEntry | internal/retention/engine.go:135-151 | deletes the row and then its blob if that was the last reference; on every exit a prefix of these two writes has happened |
| Retention.RetentionEngine.ExpireVersions | internal/retention/engine.go:128-207 | both inner loops expire exactly the closed-form set of the path and count it; cut short, they have reaped distinct rows of that set; dry, they write nothing |
| Retention.RetentionEngine.Evaluate | internal/retention/engine.go:82-215 | a run that reports success has removed a version exactly if backup date plus keep_days times 86400 seconds lies before its clock and neither the count nor being the latest protects it under the governing policy, has reclaimed exactly the blobs that lost their last reference and reported exact counters; every other run has reaped distinct rows it found expired, one after the other, and may have stopped after any write; a dry run writes nothing; it succeeds when nothing outside fails |
| Backup.BuildManifest | internal/backup/manifest.go:20-44 | one entry per file that can be hashed, in order |
| Backup.ComputeDiff | internal/backup/manifest.go:49-71 | the missing hashes once each, nothing else, and the exact deduplication count |
| Backup.LocalServer.ExchangeManifest | internal/backup/engine.go:539-551 | never fails, and answers with the diff against the blobs whose check succeeded, which are stored ones and, with a reliable store, all of them |
| Backup.BackupEngine.UploadLoop | internal/backup/engine.go:311-392 | under any failures and any stop, the loop's blobs, metadata and counters are those of the phase function |
| Backup.BackupEngine.RunBackup | internal/backup/engine.go:93-464 | a run ends before its uploads with nothing but its job recorded, or leaves exactly the node and the result of its failures and its stop |
| Accounting.UploadsCounted | internal/backup/engine.go:311-392 | whatever fails, FilesProcessed after the uploads counts the manifest entries with an uploaded hash, and exactly those blobs are new |
| Accounting.InsertionsTallied | internal/backup/engine.go:404-445 | whatever fails, FilesDeduped is the inserted rows less the distinct needed hashes among them |
| Accounting.CountersBounded | internal/backup/engine.go:300-453 | under any failures and any stop FilesProcessed never exceeds the manifest, and FilesDeduped is exact in terms of the rows added |
| Accounting.StoppedExactly | internal/backup/engine.go:311-453 | a run reports that it was stopped exactly when the stop was seen before the end of either loop, and one stopped while uploading has recorded nothing |
| Accounting.SumCountsExact | internal/backup/engine.go:300-307 | adding up the files of each listed hash counts each once if and only if no hash is repeated |
| Accounting.CleanRunCounters | internal/backup/engine.go:300-453 | without failures: Completed, BytesNew the plaintext bytes read, FilesDeduped the manifest less the needed hashes, and FilesProcessed the manifest if and only if the list repeats no hash |
| RemoteDiff.ExchangeManifest | internal/grpc/data_server.go:424-464 | lists every entry whose blob is missing or could not be checked, once per entry |
| RemoteDiff.DistinctExactly | internal/grpc/data_server.go:445-457 | that list repeats no hash if and only if no two entries asked for have equal content |
| RemoteDiff.RemoteRunCounters | internal/grpc/data_server.go:445-457 | a clean run counts each file once exactly in that case, and more otherwise |
| Records.RunRecordsFiles | internal/backup/engine.go:404-445 | whatever fails and wherever a run stops, every row it adds is of this run and describes a scanned file, the last with its path, under the hash of what it held, and old rows stay |
| Records.ManifestCovers | internal/backup/manifest.go:20-44 | the manifest has exactly one entry for each file that can be hashed, and lists every such file under the hash of its content |
| Records.CleanRunRecordsEveryFile | internal/backup/engine.go:300-453 | a clean run adds exactly one row for each file that can be hashed and leaves none of them out |
| Ongoing.OngoingBackup.ProcessFile | internal/scheduler/ongoing.go:292-357 | one watched file ends in exactly the state and result of its fault: on success one row that describes it and exact counters, on an error no row |
| Restore.RestoreEngine.PickMeta | internal/restore/engine.go:156-165 | metadata without a key gives way to the first row that has both a key and a nonce, if there is an encryptor with a master key |
| Restore.OutcomeCases | internal/restore/engine.go:167-220 | for the row a restore ends up with: a key without a master key is an error, and so is a failed decryption; what is written, decrypted or not, has the digest asked for, with the permissions of the row or as its link |
| Restore.RestoreEngine.RestoreFile | internal/restore/engine.go:138-220 | unless a read or write failed, the outcome is the restore function's on some listing of the rows, at this destination only, and a success is recorded |
| Restore.RestoreEngine.RestoreEntry | internal/restore/engine.go:273-362 | the same with supplied or looked-up metadata, where a failed lookup is no error |
| Restorability.PlainIsNotOpened | internal/restore/engine.go:167-184 | no key opens bytes that are their own content |
| Restorability.RestorableExactly | internal/restore/engine.go:138-220 | on any node, with or without a master key, a recorded hash restores to its content from any row and in any listing order if and only if its blob is stored and every row that a restore can end up with gives the content |
| Restorability.SoundRestorable | internal/restore/engine.go:138-220 | on a sound node that holds if and only if the blob is stored and is the content itself, or decryption is possible and some row carries a key |
| Restorability.ReclaimingKeepsSound | internal/deletion/engine.go:157-187 | every deletion and retention run, complete or cut short, keeps a node intact and sound |
| Restorability.SurvivorRestorableExactly | internal/deletion/engine.go:121-188 | after deletion or retention a surviving entry restores if and only if its blob is plain, or decryption is possible and some surviving row with its hash carries a key |
| History.UploadsAreDone | internal/backup/engine.go:311-392 | position by position: whose metadata the loop has noted, whose bytes it has stored, and which |
| History.BackupLeaves | internal/backup/engine.go:404-445 | the rows a run adds have exactly the hashes of the insertions that succeed, and carry what was noted for them |
| History.BackupKeepsIntact | internal/backup/engine.go:265-453 | no run damages a blob, whatever fails and wherever it stops |
| History.BackupSoundExactly | internal/backup/engine.go:265-453 | for any failures, any stop and any answer of the server, a run leaves a sound node sound if and only if no failed upload's key is recorded and no replaced blob's key is left behind, unless the key opens the stored bytes anyway |
| History.BackupSoundWhenAllFound | internal/backup/engine.go:369-445 | when the server finds every blob it has: if and only if no entry is inserted whose encrypted upload failed |
| History.FileSoundExactly | internal/scheduler/ongoing.go:292-357 | a watched file leaves a sound node sound if and only if it replaces no blob whose older keys do not open the new bytes |
| History.HistoryIsIntact | internal/backup/engine.go:265-453 | every history leaves an intact node |
| History.HistorySoundExactly | internal/backup/engine.go:265-453 | the node is sound at every moment of a history if and only if every event keeps its keys |
| History.RestorableAfterHistory | internal/restore/engine.go:138-220 | the exact condition for restorability after any history whatsoever, with any failures, any changes of files and any master keys |
| History.RestorableAfterSoundHistory | internal/restore/engine.go:138-220 | the simple condition after a history whose events keep their keys |
| History.CleanBackupKeyed | internal/backup/engine.go:311-453 | a clean run records every manifest hash and leaves a key for every ciphertext |
| History.BareHistory | internal/backup/engine.go:265-453 | a history without encryption leaves no keys and only blobs that are their own content |
| History.SealedHistory | internal/backup/engine.go:340-379 | after any history that always encrypts, with any failures, stops and deletions, no blob is its own content |
| History.EveryFileRestores | internal/restore/engine.go:138-220 | after any mix of clean runs and watched files every content ever backed up is written out, exactly its bytes, whichever row is found first: with the master key whatever encrypted, and without one when nothing did |
| Loss.DeletingTheFirstRunLosesTheFile | internal/deletion/engine.go:121-188 | deleting the run that uploaded a blob leaves a row and a blob that no listing order can restore |
| Loss.AStoppedRunSpoilsTheNextOne | internal/backup/engine.go:408-411 | a run stopped between upload and insertion makes the next, successful run unrestorable |
| Loss.AFailedUploadSpoilsTheNextOne | internal/backup/engine.go:369-379 | a failed upload records a key for bytes never stored; its row does not restore although the row of the next run does |
| Loss.AFailedUploadHidesAPlainFile | internal/backup/engine.go:369-379 | if the next run does not encrypt, no row restores the file in any listing order while a master key is configured |
| Loss.AFailedCheckSpoilsTheFirstRun | internal/backup/engine.go:543-548 | a failed check replaces a stored blob under a new key, and the row of the run that first stored it no longer restores |
| Framing.ParseCoversStream | internal/grpc/data_server.go:99-198 | every message sequence is some leading messages and a list of well-formed sections |
| Framing.SectionsReceived | internal/grpc/data_server.go:68-198 | sections are stored one by one in order with matching totals, with or without trailers |
| Framing.UploadOfAnyStream | internal/grpc/data_server.go:68-198 | on every stream whatsoever the files stored are the stream's sections, and everything else is ignored |
| Framing.DataServer.Upload | internal/grpc/data_server.go:68-245 | the receive loop stores those files, adds exactly one row for each in order, which has every field of its header, key and nonce included, and reports their number and bytes; on any error the first n are stored with their rows and nothing else, except perhaps the next blob |
| Framing.DataServer.Download | internal/grpc/data_server.go:248-327 | sends one complete section whose data messages are non-empty, bounded and make up the blob |
| Framing.UploadFile | internal/grpc/remote_connection.go:57-126 | sends one complete section for the file, in full chunks but for the last |
| Framing.RowOfHeader | internal/grpc/remote_connection.go:57-82 | the row the server makes of an uploaded header is the client's entry under the hash and the key sent with it, but for the run, with permissions of zero as none |
| Framing.DownloadFile | internal/grpc/remote_data_source.go:33-69 | returns the concatenation of the data messages |
| Framing.UploadThenDownload | internal/grpc/remote_data_source.go:33-69 | any files in any split with any trailers dropped are stored in order, and whatever a later download sends reassembles to the last file uploaded under the hash |
| Transfer.SealedUploadRestores | internal/grpc/data_server.go:99-245 | files encrypted, cut into messages in any way and uploaded in one stream to any node: what the server sends for the last one under its hash, restored from its row, is the original content with its permissions, whatever other rows there are |
| Transfer.UploadedFileRestores | internal/grpc/data_server.go:99-245 | on a node that does not know its content, an uploaded file restores by its hash alone, a sealed one with the master key and a plain one with or without |
| Tunnel.StepKeepsInv | internal/grpc/tunnel_hub.go:46-193 | each atomic step keeps the matching invariant |
| Tunnel.Matching | internal/grpc/tunnel_hub.go:89-193 | over every interleaving: request ids of a tunnel are distinct, a caller gets only the response with its id, and `pending` holds exactly the calls and grace waits neither cleaned up nor cut off |
| Tunnel.AtMostOneResponse | internal/grpc/tunnel_hub.go:89-162 | once a caller has an outcome no continuation changes it |
| Tunnel.OutcomeExactly | internal/grpc/tunnel_hub.go:111-162 | the one step that gives a waiting caller each outcome: a failed send, the timer, the end of its context, or receiving, which yields the buffered response and otherwise the closed channel |
| Tunnel.PhaseExactly | internal/grpc/tunnel_hub.go:111-162 | how a call moves along; one whose context ends stays pending in its grace period until a late response or the end of that period |
| Tunnel.FirstResponseWins | internal/grpc/tunnel_hub.go:166-193 | over every interleaving, once a waiting caller's channel holds a response the caller can get no other |
| Tunnel.ResponsesAreReceived | internal/grpc/tunnel_hub.go:166-193 | every response a caller gets was received from the call's own client |
| Tunnel.ResponseReachesItsCaller | internal/grpc/tunnel_hub.go:166-193 | a response for a waiting call can be looked up, offered and taken, and is what the caller gets |
| Tunnel.UnregisterReleases | internal/grpc/tunnel_hub.go:61-77 | after Unregister every pending caller can leave at once, with its buffered response or with an error |
| Tunnel.NoSendOnClosedChannel | internal/grpc/tunnel_hub.go:61-193 | the handler never sends on a closed channel |
| Tunnel.TunnelHub.Unregister | internal/grpc/tunnel_hub.go:61-77 | closes exactly the pending channels, in any map order, and forgets the tunnel |
| Tunnel.TunnelHub.Assign | internal/grpc/tunnel_hub.go:99-108 | registers a channel under an id that was not pending |
| Tunnel.TunnelHub.FindChannel | internal/grpc/tunnel_hub.go:166-183 | finds the channel of a pending request and ignores unknown clients and requests |
| Tunnel.TunnelHub.Offer | internal/grpc/tunnel_hub.go:185-192 | fills an empty buffer and drops a duplicate |
| Registry.UpsertIsExact | internal/registry/registry.go:753-776 | the row after an upsert is what memory says if and only if the write empties no known part of the identity |
| Registry.WrittenEmptiesNothing | internal/registry/registry.go:376-661 | no operation does so, except wiping a fingerprint |
| Registry.WipedFingerprint | internal/registry/registry.go:845-855 | memory parts from the row exactly when a known fingerprint is set to the empty string |
| Registry.RunKeepsInv | internal/registry/registry.go:156-781 | over every run with successful writes each row says what memory says up to whole seconds, and the list of misses in memory is the unresolved rows, one for one and in order |
| Registry.RestartRestores | internal/registry/registry.go:156-244 | what a restart gives back of a client: all but the running backup, with a stale online client offline |
| Registry.MissTimeSurvivesExactly | internal/registry/registry.go:285 | the time of a miss is shifted by the zone on a restart, so it survives exactly in UTC |
| Registry.RefreshChangesNothing | internal/registry/registry.go:345-365 | re-reading the disabled flags finds what memory has when nobody else writes them |
| Registry.RefreshReadsFlags | internal/registry/registry.go:345-365 | re-reading takes over the disabled flag of every client that has a row, and nothing else |
| Registry.BindingOverRuns | internal/registry/registry.go:376-478 | over every run, restarts included, a bound machine id never becomes empty and changes only by a forced rebind or while the client is offline, was never seen, or was last seen longer ago than the threshold |
| Registry.ActiveClientIsGuarded | internal/registry/registry.go:381-446 | while a client is online or backing up and was seen within the threshold, another known machine cannot register as it and nobody can rebind it without force, and the attempt changes nothing |
| Registry.InactiveClientIsOpen | internal/registry/registry.go:381-478 | otherwise another machine takes it over by registering, or by rebinding with the same operating system |
| Registry.UnsavedBindingIsLost | internal/registry/registry.go:417-419 | a binding whose write failed is gone after a restart |
| Registry.Database.ResolveMissed | internal/registry/registry.go:704-709 | marks exactly the client's rows resolved |
| Registry.ClientRegistry.constructor | internal/registry/registry.go:156-244 | loads every row, corrects stale clients, and normalises the rows whose write succeeds |
| Registry.ClientRegistry.RegisterWithIdentity | internal/registry/registry.go:376-430 | refused with nothing changed exactly when the client is online or backing up, was seen within the threshold and has another known machine id; otherwise the record is online at this address with the given parts of the identity, in memory and, unless the write fails, in the table |
| Registry.ClientRegistry.RebindClient | internal/registry/registry.go:434-478 | unknown, then active without force, then of another operating system: refused with nothing changed; otherwise the record is as after a registration |
| Registry.ClientRegistry.Apply | internal/registry/registry.go:482-661 | the heartbeat and the setters change exactly their fields |
| Registry.ClientRegistry.CheckOfflineClients | internal/registry/registry.go:321-340 | exactly the stale clients go offline, in any map order |
| Registry.ClientRegistry.RecordMissedBackup | internal/registry/registry.go:665-688 | one row and one list entry, or neither |
| Registry.ClientRegistry.ResolveMissedBackups | internal/registry/registry.go:692-723 | hands out exactly the unresolved rows, in order and resolved, and leaves none |
| Scheduler.LevelSurvives | internal/scheduler/scheduler.go:415-426 | the names of the levels; each reads back as itself, and any other name as AUTO |
| Scheduler.ResolvingSplits | internal/registry/registry.go:692-723 | resolving a client takes exactly its waiting jobs out of the table |
| Scheduler.TicksAreConserved | internal/scheduler/scheduler.go:275-412 | over every interleaving of the steps of ticks and reconnects with restarts and registry changes, the ticks whose client was known and not disabled when they came, read off the events and the registry alone, are those triggered, about to be triggered or recorded, waiting in the table, or given up |
| Scheduler.TickOutcome | internal/scheduler/scheduler.go:381-410 | a tick of an unknown or disabled client does nothing, that of an online one is to be triggered, and that of one that is offline or backing up is to be recorded |
| Scheduler.DroppedExactly | internal/scheduler/scheduler.go:275-412 | none was given up if and only if every miss could be written and no restart fell between deciding or resolving and acting |
| Scheduler.TriggeredOnce | internal/scheduler/scheduler.go:275-412 | no tick is triggered twice, and with nothing waiting, on its way or given up each is triggered exactly once |
| Scheduler.ClientScheduler.Look | internal/scheduler/scheduler.go:381-396 | an unknown or disabled client is to be skipped, an online one triggered, any other recorded |
| Scheduler.ClientScheduler.Act | internal/scheduler/scheduler.go:396-410 | acts on what was seen, whatever has happened to the client since |
| Scheduler.ClientScheduler.RunJob | internal/scheduler/scheduler.go:381-412 | when nothing comes in between: skipped for an unknown or disabled client, triggered for an online one, and otherwise recorded as the last unresolved row and list entry of its client, unless the write fails |
| Scheduler.ClientScheduler.HandleReconnect | internal/scheduler/scheduler.go:275-305 | triggers exactly the client's unresolved rows, in order, at their levels |
| Watcher.EmittedIsStable | internal/watcher/watcher.go:315-411 | over every run an emitted file has the modification time it had one whole stability window before |
| Watcher.EmissionExactly | internal/watcher/watcher.go:354-411 | a step emits exactly when a stability timer of a running watcher fires and finds its own modification time on a readable file, and then this file once |
| Watcher.EmittedInTime | internal/watcher/watcher.go:246-411 | a file whose last event that is not excluded comes at t and that is unchanged afterwards is emitted exactly once at t + debounce + stability, in every continuation that gets past that time |
| Watcher.ChangedFileWaitsAgain | internal/watcher/watcher.go:354-411 | a file found changed when its stability timer fires is held back and, if then left alone, emitted exactly once one more stability window later |
| Watcher.NothingAfterStop | internal/watcher/watcher.go:140-158 | nothing is emitted after Stop, whatever follows |
| Watcher.ExcludedNeverEmitted | internal/watcher/watcher.go:246-252 | an excluded path has no timer and is never emitted |
| Watcher.FileWatcher.HandleEvent | internal/watcher/watcher.go:246-265 | restarts the debounce timer of a path that is not excluded |
| Watcher.FileWatcher.OnDebounceExpired | internal/watcher/watcher.go:315-350 | enters or re-enters the gate with the current modification time, or drops a missing file |
| Watcher.FileWatcher.OnStabilityExpired | internal/watcher/watcher.go:354-411 | emits an unchanged file, re-enters the gate for a changed one, drops a missing one |
| Watcher.FileWatcher.Stop | internal/watcher/watcher.go:140-158 | forgets every timer and keeps what was emitted |

## Left out

- The command line, the web interface, setup and recovery, metrics, logging, service installation and configuration: input, output and presentation. The web delete handler, which leaves blobs behind, is not a step of the store.
- gRPC, TLS, certificates, SQLite, fsnotify, cron parsing and the file system: replaced by message sequences, tables, maps and a clock.
- AES, GCM, Argon2id and BLAKE3 internals, and DeriveKey and VerifyMasterKey.
- The 64-digit format of hashes: a predicate, because a digest of fixed length cannot be injective.
- SQL LIKE and glob semantics: abstract predicates.
- Integer widths: sizes, counters and nanoseconds are unbounded; the key wrap counter fits 64 bits for every input that can exist.
- KeyWrap.AesKeyWrap: the register rows are array elements holding byte strings, not arrays of their own, so the aliasing of rows with the input slice is not modelled.
- Fields of an entry that play no part in the proofs: owner, group, modification time, operating system and extension.
- Status and progress fields of jobs, and the database synchronisation at the end of a run.
- The refusal of uploads and downloads of disabled clients, which comes before the stream is read.
- RestoreBatch's worker pool, its shared counters, and the choice of entries by search or by path.
- Concurrent backups of one hash, and several databases at once.
- internal/migrate, internal/chunk, the semaphore, the write queue, retries and size parsing: they would add only easy members.
- History.BackupSoundExactly: files hold still between hashing and reading, one master key is used and the scan has no links, which the scanner skips (internal/backup/scanner.go:85, 97); History.RestorableAfterHistory assumes none of this.
- Rows that are links: a row that is a link is restored as a link, so it is not among the rows that give the content; local backups write none.
- Retention.DryRunPredictsRealRun: distinct priorities; equal ones may be ranked differently by an unstable sort.
- Scheduler.ClientScheduler.RunJob: the cron entry table is not modelled.
- Tunnel.Matching: one stream handler per client, so a forced rebind with overlapping tunnels is not modelled; the decimal printing of request ids is a pair.
- Registry.RunKeepsInv: writes succeed and no other process writes the tables; rows are scanned in insertion order. Registry.UnsavedBindingIsLost shows what a failed write can do.
- Registry.ClientRegistry.RegisterWithIdentity: client records are values replaced in the map, so the shared reference to the live record that the code returns is not modelled; no caller keeps it.
- Watcher.EmittedIsStable: callbacks are atomic and no timer fires while it is being stopped; hashing of the emitted file is a yes or no.
