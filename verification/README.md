# A verified model of ZenoFS

ZenoFS is a network storage server. It cuts files into slices, stores each slice as a chunk of a
Reed-Solomon stripe, shares chunks between the versions of a file by copy-on-write, and gives
chunks back when no version maps them any more. This project models that core in Dafny and
proves what the code keeps, over every input and every run, and where it does not, the input and
the exact condition.

Tables are fields of type `seq` and `map` that the methods reassign, disks are a map from a disk
and a path to bytes, and a transaction is one step. The code that changes state is modelled as
methods (of `FileHandle`, `Tree`, or on a `PoolDb`), each tied to a function or a relation on
values; the properties of whole runs are lemmas about those.

| part | modules |
|---|---|
| file handles | SliceView, FlatArray, FailedStores, SliceCodec, FileHandles, FileSessions, PoolEdits, HandleSteps |
| versions | Lifecycle, PoolSafety, Recycle, Retention, Garbage, LeakRun, Purging |
| storing and parity | Layout, Allocation, Disks, ChunkStore, WriteQueue, Flushing, ParityState, ParityWorker, Freshness, ParityRuns, DroppedTask |
| stripes and recovery | ErasureCode, Stripes, StripeWorker, DiskLoss, Rebuilding, StaleRebuild, QuietPool, AddedDisk |
| release and cache | Release, ReadCache, CacheCoherence, CacheRuns, StaleCopies |
| directories | Forest, Subtree, Namespace, Trees |
| time-based codes | Base32 |

The erasure code is a parameter with the property that any `ds` of the `ds + ps` shards determine
the rest and that decoding uses the first `ds` there are, the digest is collision-free (a digest is the bytes it was taken of), generated paths
never repeat, and the slice codec is an inverse pair with a size bound.

## Findings

What the code does not keep, each with an input and the condition under which it does.

- **Zeroed slices and regrown files read old bytes.** `slicePlain` looks in the slices of the old
  version when the new version has no row (internal/vfs/file.go:264), also after `dropSlice` or a
  truncation removed the row. Opening a file of four nonzero bytes, overwriting them with zeroes
  and syncing, or truncating to nothing and growing again, reads the old bytes
  (`FlatArray.ZeroedSliceReadsOldBytes`, `FlatArray.RegrownFileReadsOldBytes`); README.md:393-396 of
  the repository promises zeroes. A step agrees with the flat array exactly when it is no hazard
  (`FlatArray.StepIff`), a run exactly when no step of it is (`FlatArray.RunIff`), and a file without
  an old version has none (`FlatArray.FreshFileIsHazardFree`). Reopening shows what the handle showed
  exactly when no old slice shows through (`FlatArray.ReopenIff`).
- **A failed store loses bytes written before.** `flushActive` gives the buffer up before it stores it
  (internal/vfs/file_write.go:150-152). A write that succeeded is gone when the next sync fails, and the
  close that follows commits the file without it (`FailedStores.FailedSyncLosesWrite`). A write of three
  slices that fails at the third reports two as written, keeps one, and leaves it behind the end of the
  file, where it shows when the file grows (`FailedStores.FailedWriteShowsLater`). A failed sync or close
  keeps the flat array exactly when the buffer says what is stored already (`FailedStores.FailedSyncIff`),
  a failed write without hazards keeps what it reports exactly when the last slice of it does
  (`FailedStores.FailedWriteIff`), and a failed truncation keeps the array exactly when the slices it
  dropped made no difference (`FailedStores.FailedTruncateIff`).
- **A version can be taken from under its writer.** Trimming spares the current version and the newest
  others, not those being written (internal/vfs/retention.go:138-186): one goes exactly when the current
  version and newer ones take all places (`Retention.DroppedIff`). Closing then points the file to a
  version without a row (internal/vfs/file_write.go:309-321), the file reads as empty, and the slices
  written since are never released (`Lifecycle.CommitIff`, `Lifecycle.TrimmedWriterCommitsNothing`).
- **A parity round drops the task of a stripe that is being filled.** Slots are given out
  (internal/pool/chunk.go:118-257) before the intent to write them is logged (internal/pool/chunk.go:325).
  If the stripe waits for parity and the worker comes in between, it fails on the missing file
  (internal/pool/parity.go:59-86) and deletes the task all the same (internal/pool/parity.go:239-243, 292).
  From an empty pool of two data disks and one parity disk, with every write succeeding, a chunk that was
  written and flushed is left without parity, task or intent (`DroppedTask.RoundDropsTask`,
  `Freshness.GrantThenRound`): until the second chunk logs its intent, and for good if it never does or its
  write leaves no file. A round keeps a stripe on its way exactly when its parity is fresh, a write of
  it is open, or it is queued with all its chunks on the disk (`Freshness.RoundIff`).
- **A write cut off by a crash is forgotten.** The comment at internal/pool/chunk.go:359-361 says the
  slot is still reserved; it is allocated before the intent is logged. From an empty pool: give out
  a chunk, log the intent, write the file, stop, and clean up at startup. The stripe has data, no
  parity, and nothing that would compute it (`ParityRuns.CutOffWriteIsForgotten`). Cleaning up keeps
  a pool protected exactly when every stripe has fresh parity, a task, or a finished write in the queue
  (`Freshness.CleanUpKeepsIff`).
- **A late deletion takes new parity.** A release resets parity that protects nothing any more,
  keeps its path (internal/pool/release.go:294-321) and puts the file on the list to delete. If the
  slot is written and encoded again before the deletion, the new parity is deleted
  (`ParityRuns.LateDeletionTakesNewParity`). The deletion of a written parity file keeps the pool
  protected exactly when the parity is to be written again (`Freshness.DeleteParityIff`).
- **Discarded versions leak chunks.** `discardNewVersion` leaves the inherited mappings
  (internal/vfs/file_write.go:325-331). Create, write and close a file of one slice, open it for
  writing and close it untouched, then purge it: no file, version or handle is left, and the chunk is
  allocated for good (`LeakRun.DiscardedVersionLeaks`, `LeakRun.NeverReleased`). A chunk that no
  version uses stays allocated after a purge, a trim or a collection exactly when a row of a forgotten
  version maps it (`Lifecycle.DroppedStaysIff`, `Lifecycle.CollectedStaysIff`).
- **A deep rename makes a cycle.** `isDescendant` looks 256 levels up. With 258 nested directories the
  outermost can be moved into the innermost and becomes its own ancestor
  (`Namespace.DeepRenameMakesCycle`). A rename keeps the forest exactly when the entry is not further
  above its new directory than that (`Namespace.RenameKeeps`); purging an entry on a cycle is refused
  (`Subtree.CollectSubtree`).
- **The fallback slice size may not fit.** When the pool cannot be read, the slice size falls back to a
  constant (internal/vfs/fs.go:67-72), which fits exactly the pools with room for it
  (`SliceCodec.FallbackFitsIff`).
- **Base32 text is not canonical.** Decoding accepts any tail bits, so encoding what was decoded gives
  the text back exactly when its tail is canonical (`Base32.ReencodeIff`).
- **A read-only mount can be created in.** Opening with the create flag alone asks for no write
  permission (internal/vfs/file.go:66-70); `Trees.Tree.OpenEntry` states it so.
- **Adding a disk queues no parity.** Every stripe gets a reserved slot on the new disk
  (internal/pool/pool.go:163-230) and nothing more. After a parity disk is added, a stripe without a task
  has the parity it should have exactly when nothing is written to it (`AddedDisk.ParityDiskIff`). After a
  data disk, exactly when nothing is written or the new code happens to have the same parity
  (`AddedDisk.DataDiskIff`), and even then it survives one disk less (`AddedDisk.DataDiskSurvives`).
- **Copies of parity chunks go stale.** Any chunk can be read by its id (internal/api/api.go:638-648), and
  one read often enough is copied whatever its type (internal/pool/cache.go:87-186). The worker rewrites
  parity files in place, a rebuild rewrites missing ones and a release deletes them
  (internal/pool/parity.go:255-292, internal/pool/rebuild.go:420-451, internal/pool/release.go:294-321), and
  none of them drops the entry of the parity chunk. From nothing: a file is written and encoded, its parity
  chunk is read seven times, the file is deleted and another one written in its slot; after the next
  round the copy still has the old parity (`StaleCopies.RoundLeavesStaleCopy`). If the parity file is
  deleted instead, the copy still has the bytes of the file that was purged
  (`StaleCopies.DeletionLeavesCopy`). A round keeps reads in agreement with the disks exactly when every
  copy of parity it computes has those bytes, the deletion of a parity file exactly when there is no copy,
  and a rebuild exactly when the copies say what it writes (`CacheRuns.RoundAgreesIff`,
  `CacheRuns.DeleteParityAgreesIff`, `CacheRuns.RepairAgreesIff`); a run does exactly when all its steps do
  (`CacheRuns.RunAgreesIff`). Copies of data chunks agree in every run, with overwrites and deletions of
  parity, if reads are not interrupted (`CacheRuns.RunWithOverwritesStaysSafe`).
- **A late cache update copies what is gone.** A read loads the entries, reads the bytes, and updates the
  cache at the end, with nothing to hold the chunk in between (internal/pool/chunk.go:882, 919). If the file
  is purged and its slot written again meanwhile, the update copies the old bytes, and the slice of the new
  file reads as that of the old one (`StaleCopies.LateUpdateServesOldBytes`). It keeps agreement exactly when
  each chunk it copies still has the bytes that were read (`ReadCache.UpdateIff`).
- **A rebuild does not notice stale parity.** It checks each shard against its own row only
  (internal/pool/rebuild.go:573-590) and saves the digest of whatever comes out
  (internal/pool/rebuild.go:454-475); the comment at internal/pool/release.go:258-262 knows the danger. While
  a stripe that held [1] and [2] waits for new parity because its first slot holds [5] now, a rebuild of
  the second chunk gives [6], and its row says so (`StaleRebuild.RebuildReplacesChunk`). A rebuild that
  recovers anything restores the recorded bytes exactly when they and the shards it decodes from are of
  one codeword (`StripeWorker.RestoresIff`).
- **A rebuild needs room for empty slots.** Slots never written count as lost when a stripe is rebuilt
  (internal/pool/rebuild.go:340-349), so lost shards and reserved slots together must be at most `ps`
  (`StripeWorker.RebuildStripeJob`, `DiskLoss.DisksLost`).

## Model

| member | source | states |
|---|---|---|
| FlatArray.StepIff | internal/vfs/file_write.go:81-277 | A write, truncation or sync changes the bytes a handle shows as it changes one flat byte array, zeroes in gaps and past the end included, exactly when it is no hazard. |
| FlatArray.RunIff | internal/vfs/file.go:186-268 | A handle shows the flat array at every point of a run exactly when no step of the run is a hazard. |
| FlatArray.RunRefines | internal/vfs/file_write.go:81-290 | A run without hazards ends in the flat array and in a well-formed handle. |
| FlatArray.FreshFileIsHazardFree | internal/vfs/file.go:151-171 | A handle on a file without an old version never meets a hazard. |
| FlatArray.ApplyKeeps | internal/vfs/file_write.go:123-185 | In every state no slice and no buffer is longer than the slice size; what the size becomes. |
| FlatArray.WriteByte | internal/vfs/file_write.go:81-143 | Every byte after a write: what the flat array has there, except in slices that are dropped as zeroes with an old slice behind them. |
| FlatArray.ReadsBackIff | internal/vfs/file_write.go:81-143 | What was written is read back exactly when no old slice shows through where it was written. |
| FlatArray.AppendIsConcat | internal/vfs/file_write.go:70-77 | Writing at the end of the flat array appends. |
| FlatArray.TruncateVisible | internal/vfs/file_write.go:205-277 | What every slice shows after a truncation, the boundary slice cut to its length included. |
| FlatArray.ReopenIff | internal/vfs/file_write.go:294-322 | The committed version reads as the handle did exactly when no old slice shows through. |
| FlatArray.CloseThenReopen | internal/vfs/file.go:61-119 | Open, run without hazards, close and open again: the same flat array, ready for the next run. |
| FlatArray.ZeroedSliceReadsOldBytes | internal/vfs/file.go:257-268 | Overwriting a slice with zeroes and syncing reads the old bytes again. |
| FlatArray.RegrownFileReadsOldBytes | internal/vfs/file_write.go:205-254 | Truncating to nothing and growing again brings the old bytes back. |
| FailedStores.FailedSyncIff | internal/vfs/file_write.go:146-153 | A failed sync or close keeps the flat array exactly when the buffer says what is stored already. |
| FailedStores.FailedWriteIff | internal/vfs/file_write.go:93-112 | If no hazard comes in between, the bytes a failed write reports are there, and no others changed, exactly when the last slice of them is stored already. |
| FailedStores.FailedWriteByte | internal/vfs/file_write.go:93-112 | Outside that slice all of them are there, even behind the end of the file. |
| FailedStores.FailedTruncateIff | internal/vfs/file_write.go:219-248 | A failed truncation keeps the flat array exactly when the slices it dropped show what the old version has there. |
| FailedStores.FailedSyncLosesWrite | internal/vfs/file_write.go:146-153 | A write that succeeded reads as zeroes after a sync that failed and a close that did not. |
| FailedStores.FailedWriteShowsLater | internal/vfs/file_write.go:93-112 | Of eight bytes reported by a failed write four are lost, and the others show when the empty file grows. |
| FileHandles.FileHandle.LoadSnapshot | internal/vfs/file.go:151-171 | The handle knows version, size and slices of the current version, or none if there is none. |
| FileHandles.FileHandle.BeginWrite | internal/vfs/file_write.go:19-47 | A new version maps every slice of the old one; no other version changes. |
| FileHandles.FileHandle.Begin | internal/vfs/file.go:96-110 | The handle shows the version it was opened on. |
| FileHandles.FileHandle.SlicePlain | internal/vfs/file.go:257-268 | The buffer, else the slice written, else the old slice, else nothing. |
| FileHandles.FileHandle.DropSlice | internal/vfs/file_write.go:188-193 | Exactly one mapping goes. |
| FileHandles.StoreOne | internal/pool/chunk.go:634-682 | One chunk is stored exactly when it has bytes, is within the limit, the pool is online, a free slot is picked or all disks for a new stripe are online, and the disk writes it; otherwise the first reason, and nothing changes unless it was the disk. |
| FileHandles.FileHandle.PutSlice | internal/vfs/file_write.go:157-185 | A slice is stored and mapped, or made a hole when all zero; it fails exactly when it is not zero and the pool does not take it, never for its length. |
| FileHandles.FileHandle.FlushActive | internal/vfs/file_write.go:146-153 | The buffer is written out, and nothing else; it fails exactly when there is something but zeroes in it and the pool does not take it, and then the buffer is gone, and nothing else. |
| FileHandles.FileHandle.WriteIntoSlice | internal/vfs/file_write.go:123-143 | One slice is loaded, grown and overwritten in the buffer; it fails exactly when the buffer holds another slice that cannot be stored, and then that is gone. |
| FileHandles.FileHandle.WriteAt | internal/vfs/file_write.go:81-117 | Every error exactly when due, a failed store only where the pool does not take what is in the buffer; otherwise all bytes are written as the view's write says, by edits of the handle's own version only. A failed store leaves the bytes reported as written but for the buffer, and the size as it was; any other error leaves everything. |
| FileHandles.FileHandle.TruncateTo | internal/vfs/file_write.go:205-254 | Every error exactly when due, a failed store included; otherwise the size is set and what lies behind the end is gone. A failed store leaves the size, and the tail dropped without the boundary slice cut. |
| FileHandles.FileHandle.TrimSlice | internal/vfs/file_write.go:260-277 | The slice is cut to a length, in the buffer or in the pool; it fails exactly when what is left of a stored slice has to be stored again and the pool does not take it, and then nothing changes. |
| FileHandles.FileHandle.ReadAt | internal/vfs/file.go:186-233 | Fills the array with exactly the bytes the handle shows, up to the size it shows, and reports the end of the file and every error exactly when due. |
| FileHandles.FileHandle.Sync | internal/vfs/file_write.go:285-290 | Writes the buffer out, or loses it exactly when the pool does not take it. |
| FileHandles.FileHandle.Close | internal/vfs/file_write.go:294-322 | Commits the version written, or drops the row of one nothing was written to; or, exactly when the pool does not take the buffer, loses that and changes no version. |
| FileHandles.FileHandle.Write | internal/vfs/file_write.go:70-77 | Writes at the position, or in append mode at the end of what the handle shows, and moves behind what was written, also when a store fails. |
| FileSessions.WriteAndReadBack | internal/vfs/file.go:186-233 | One handle that writes and then reads there gets all bytes back, and the same ones exactly when no old slice shows through. |
| FileSessions.AppendTwice | internal/vfs/file_write.go:70-77 | Without hazards, two writes in append mode put one after the other behind what was there. |
| FileSessions.OpenFile | internal/vfs/file.go:61-119 | A handle with the flags it was asked for, at the start, shows the current version, or an empty file when it is truncated at once, which never fails; a handle for writing starts a version with the mappings of the current one and then edits that. |
| FileSessions.CloseAndReopen | internal/vfs/file_write.go:294-322 | Closing and opening again shows what the value model says of reopening, and fails exactly when the pool does not take the buffer. |
| PoolEdits.EditsKeep | internal/vfs/file_write.go:157-193 | Whatever a handle does, written chunks keep row and bytes and other versions their slices. |
| HandleSteps.OpenForWriting | internal/vfs/file.go:94-119 | Opening for writing is the Open step, and truncating at once a run of steps of the new version. |
| HandleSteps.EditsAreSteps | internal/vfs/file_write.go:157-193 | What a handle's methods do to the pool, failed stores included, is a run of steps of its version. |
| HandleSteps.CloseHandle | internal/vfs/file_write.go:294-322 | Closing is a run that ends in a commit or a discard, or fails before it. |
| HandleSteps.ReaderStays | internal/vfs/file.go:151-171 | A handle that reads knows the same bytes after any run that does not purge or trim its version. |
| HandleSteps.ReaderStaysValid | internal/vfs/file.go:151-171 | The same of the handle as an object. |
| HandleSteps.WriteThenRead | internal/vfs/file.go:186-233 | After another handle has written, a reader reads what it would have read before. |
| SliceCodec.EncodeDecode | internal/vfs/crypto.go:212-235 | Decoding undoes encoding, for exactly the algorithms that can be used, within the size estimate. |
| SliceCodec.EncodedAs | internal/vfs/crypto.go:212-305 | What is stored for each pair of algorithms, compressed before it is sealed; anything else, a missing key and what is shorter than a nonce are refused. |
| SliceCodec.SliceSizeIs | internal/vfs/fs.go:65-85 | The slice size in closed form: the limit less the overhead, four megabytes without one. |
| SliceCodec.SliceFits | internal/vfs/fs.go:65-85 | For every limit of a kilobyte or more and every pair of algorithms, a slice and its overhead fit. |
| SliceCodec.EncodedSliceFits | internal/vfs/crypto.go:101-110 | No encoded slice is refused for its length. |
| SliceCodec.FallbackFitsIff | internal/vfs/fs.go:67-72 | The fallback size fits exactly the pools that have room for it. |
| Lifecycle.RunStaysSafe | internal/vfs/recycle.go:244-318 | In every state of every run of opens, puts, failed stores, truncations, commits, discards, restores, purges, trims and collections, every mapped chunk is a written data chunk whose bytes are on the disk. |
| Lifecycle.SliceStays | internal/pool/release.go:227-254 | A slice no step touches keeps chunk and bytes through any run, although slots are reused. |
| Lifecycle.SnapshotStays | internal/vfs/file.go:151-171 | A version nobody writes keeps all its slices until it is purged or trimmed. |
| Lifecycle.ReadsWhatWasWritten | internal/pool/chunk.go:838-922 | Reading a mapped chunk by way of the cache gives the bytes its row has the digest of. |
| Lifecycle.OpenInherits | internal/vfs/file_write.go:19-47 | The new version maps every slice of the current one to the same chunk. |
| Lifecycle.DropsExactly | internal/vfs/recycle.go:262-318 | A chunk the removed versions mapped becomes a reserved slot exactly when no surviving row maps it; others are not touched. |
| Lifecycle.ForgottenRowsStay | internal/vfs/file_write.go:325-331 | Rows of a discarded version stay through every run, and their chunks stay allocated. |
| Lifecycle.DroppedStaysIff | internal/vfs/file_write.go:325-331 | A chunk left to nobody by a purge or trim stays allocated exactly when a row of a forgotten version maps it. |
| Lifecycle.CollectedStaysIff | internal/pool/gc.go:126-138 | The same of the collector. |
| Lifecycle.CommitIff | internal/vfs/file_write.go:309-321 | The file is opened on the committed version afterwards exactly when that still has its row; otherwise it is empty and the version forgotten. |
| Lifecycle.TrimmedWriterCommitsNothing | internal/vfs/retention.go:138-186 | After any run that trims or purges a version and ends in committing it, the file is empty and the chunks the version maps are leaked. |
| LeakRun.DiscardedVersionLeaks | internal/vfs/file_write.go:325-331 | A run from nothing to nothing but an allocated chunk. |
| LeakRun.NeverReleased | internal/pool/gc.go:47-80 | No later run releases it. |
| PoolSafety.StoreKeeps | internal/pool/chunk.go:634-682 | Storing a chunk harms no mapped chunk, no cached copy and no pending deletion. |
| PoolSafety.TryKeeps | internal/pool/chunk.go:324-349 | Neither does a store that fails and leaves anything in its file. |
| PoolSafety.ReleaseKeepsAll | internal/pool/release.go:97-128 | No file a release leaves to be deleted, parity aside, is in use or comes into use. |
| PoolSafety.DeleteKeeps | internal/pool/release.go:144-185 | Deleting such a file harms nothing, whatever happened in between. |
| Recycle.PluckVersionIds | internal/vfs/recycle.go:363-376 | All versions of the files, each once, over all batches. |
| Recycle.PluckChunkIds | internal/vfs/recycle.go:380-401 | All chunks the versions map, each once, over all batches. |
| Recycle.DropVersions | internal/vfs/recycle.go:269-309 | Versions and mappings go and their chunks are released, as one step. |
| Recycle.PurgeFiles | internal/vfs/recycle.go:157-203 | Purging files, or all of a share, is the Purge step. |
| Recycle.DeleteStaleFiles | internal/pool/release.go:144-185 | Exactly the listed files go. |
| Purging.PurgeEntry | internal/vfs/recycle.go:244-318 | Purging an entry of the trash is, exactly when it is allowed, the Purge step of the files of its subtree, whose rows go; otherwise the reason is given and nothing changes. |
| Purging.PurgeSparesLive | internal/vfs/recycle.go:244-318 | Every live file keeps its current version, its versions, and every slice of them its chunk and bytes. |
| Purging.PurgeLeavesNothing | internal/vfs/recycle.go:244-318 | No version and no mapping of the subtree is left. |
| Retention.SelectDrop | internal/vfs/retention.go:143-159 | The current version stays, the others that stay are the newest, and min(keep, n) stay, one less when the current one has no row. |
| Retention.TrimVersions | internal/vfs/retention.go:119-192 | Trimming is the Trim step for those versions, or nothing, whoever is writing them. |
| Retention.TrimKeepsContent | internal/vfs/retention.go:110-118 | The file reads as before. |
| Retention.DroppedIff | internal/vfs/retention.go:138-159 | A version goes exactly when it is not current and the current one and newer ones take all places. |
| Garbage.OrphanIds | internal/pool/gc.go:126-138 | Only written data chunks that no version maps, that are older than the grace period and that the write queue does not name, each once, and all of them below the limit. |
| Garbage.GarbageCollect | internal/pool/gc.go:47-80 | A data chunk that is young, mapped or named in the write queue keeps its row and its entry, and its file is not to be deleted; below the limit, which is never more than 5000, every other written data chunk is reserved afterwards and its file is to be deleted. |
| Layout.SlotIsUnique | internal/pool/chunk.go:142-224 | A stripe has one chunk for a kind and an index. |
| Layout.AddStripe | internal/pool/chunk.go:142-224 | A new stripe keeps the layout. |
| Layout.AddShards | internal/pool/pool.go:163-230 | A new shard of every stripe keeps the layout. |
| Disks.AddDisk | internal/pool/pool.go:99-232 | One more disk of the kind; row by row, one reserved slot of every stripe on it and no other change, or a refusal. |
| AddedDisk.ParityDiskIff | internal/pool/pool.go:163-230 | After a parity disk is added, a whole stripe has the parity of the new code exactly when nothing is written to it, and is queued exactly if it was. |
| AddedDisk.DataDiskIff | internal/pool/pool.go:163-230 | After a data disk is added, exactly when nothing is written or both codes give the same parity. |
| AddedDisk.DataDiskWhole | internal/pool/pool.go:163-230 | It is whole exactly when it has that parity. |
| AddedDisk.DataDiskSurvives | internal/pool/rebuild.go:201-258 | Then it survives the loss of one disk less than before. |
| Allocation.GetNewChunks | internal/pool/chunk.go:79-262 | Distinct chunks in item order with size and digest, reserved slots first, the fewest new stripes, the rest of them reserved, nothing else changed; every refusal exactly when due. |
| ChunkStore.PersistChunkData | internal/pool/chunk.go:324-349 | Intents, files, outcomes and a flush, in that order; whether all were written. |
| ChunkStore.AddChunks | internal/pool/chunk.go:634-682 | Every refusal and its reason exactly when due; otherwise slots are given out and written, and it succeeds exactly when all of them were. |
| ChunkStore.AddedHolds | internal/pool/chunk.go:634-682 | After success the chunks hold the items and every chunk written before keeps row and bytes. |
| ChunkStore.CleanupWriteQueueOnStartup | internal/pool/chunk.go:362-381 | One flush, then the log is emptied. |
| Flushing.Flush | internal/pool/chunk.go:399-498 | Exactly the adjacent pairs go, each stripe of one is queued once, rows of failed writes are recalculated. |
| Flushing.FlushedPair | internal/pool/chunk.go:399-498 | The stripe of a finished write is queued, and if it failed and its file can be read, the row has size and digest of that. |
| Flushing.RecalcChunksFromDisk | internal/pool/chunk.go:506-567 | Size and digest of the chunks that can be read are those of the file. |
| Flushing.FlushLogProjects | internal/pool/chunk.go:430-470 | A flush is one pass of cancellation on the log of every chunk. |
| Flushing.SettleLogProjects | internal/pool/chunk.go:399-498 | Repeated flushing ends, and leaves of each chunk's log what cancelling leaves. |
| Flushing.RepeatedFlushEmptiesIff | internal/pool/chunk.go:399-498 | No pair is left, each chunk's balance is kept, and the log is empty exactly when it was balanced without a negative prefix. |
| WriteQueue.SettleIff | internal/pool/chunk.go:430-470 | The same for the log of one chunk. |
| ParityWorker.BuildStripeJob | internal/pool/parity.go:470-508 | The written data rows of the stripe in order, and its parity rows. |
| ParityWorker.CalculateStripeParity | internal/pool/parity.go:186-302 | Exactly the queued stripes that can be read get new parity files and rows; no task is left. |
| ParityWorker.RoundRow | internal/pool/parity.go:255-302 | The row of a parity chunk describes its new file if its stripe was queued, has written data, and has all of it on the disk; otherwise row and file stay. |
| ParityWorker.RoundKeepsData | internal/pool/parity.go:255-302 | A round changes no data row and no data file. |
| StripeWorker.ComputeStripe | internal/pool/parity.go:48-173 | The parity files are the encoding of the chunks padded to the longest, or nothing is written. |
| Freshness.StepKeepsIff | internal/pool/chunk.go:324-349 | A step keeps every stripe fresh, queued or intended exactly when it is careful; only worker rounds, clean-ups, deletions of parity files and changes to the rows of parity chunks can fail to be. |
| Freshness.RunProtectedIff | internal/pool/parity.go:186-302 | Every state of a run is protected exactly when all its steps are careful. |
| Freshness.RoundIff | internal/pool/parity.go:186-302 | What a stripe must have for a worker round to leave it fresh, queued or intended. |
| Freshness.GrantThenRound | internal/pool/chunk.go:118-257 | A slot given out of a stripe that waits for parity, and a round before its intent is logged: the stripe is neither fresh, queued nor intended. |
| Freshness.RunStaysWatched | internal/pool/parity.go:186-302 | Whatever writes, releases and rounds do, a stripe is so only while a chunk given out is missing from the disk. |
| Freshness.CleanUpKeepsIff | internal/pool/chunk.go:362-381 | The exact condition for the clean-up, whatever writes were cut off, on every state the steps lead to. |
| Freshness.NothingOpenIsCareful | internal/pool/chunk.go:355-381 | With no write open the clean-up of a protected pool forgets nothing. |
| Freshness.DeleteParityIff | internal/pool/release.go:144-185 | The exact condition for deleting a written parity file. |
| Freshness.RedescribeKeepsIff | internal/pool/chunk.go:805-816 | The exact condition for the rows of overwritten chunks, which change before the intent is logged: none for data chunks. |
| Freshness.StaleParityIsReused | internal/pool/release.go:294-321 | The path of reset parity is on the list to delete, with that condition. |
| Freshness.EmptyPoolIsTracked | internal/pool/pool.go:74-93 | An empty pool is a starting point. |
| Freshness.QuietIsFresh | internal/pool/parity.go:186-302 | Once the queues are empty, all parity is fresh. |
| ParityRuns.CutOffWriteIsForgotten | internal/pool/chunk.go:355-381 | The run from an empty pool that ends with data and no parity to come. |
| ParityRuns.LateDeletionTakesNewParity | internal/pool/release.go:144-185 | The run from an empty pool that ends with new parity deleted. |
| DroppedTask.RoundDropsTask | internal/pool/parity.go:225-292 | The run from an empty pool whose writes all succeed and that ends with a written chunk without parity, task or intent. |
| QuietPool.QuietIsWhole | internal/pool/parity.go:186-302 | After any run whose writes succeeded, with empty queues, every stripe is whole. |
| QuietPool.QuietSurvives | internal/pool/rebuild.go:330-451 | Every such stripe survives any loss of disks that leaves room for its empty slots. |
| ErasureCode.AnyDataShardsDetermine | internal/pool/parity.go:92-134 | Codewords that agree in `ds` shards are equal. |
| Stripes.DataOrParity | internal/pool/rebuild.go:352-400 | `ds` readable shards include a parity shard or are all the data. |
| Stripes.WidthRecovered | internal/pool/rebuild.go:352-400 | The longest readable shard has the width the stripe was encoded with. |
| Stripes.RemnantReconstructs | internal/pool/rebuild.go:400-420 | Any remnant with `ds` shards gives the whole codeword. |
| Stripes.PaddingComesOff | internal/pool/rebuild.go:420-451 | Cutting to the recorded size gives a data chunk back byte for byte. |
| StripeWorker.ReadVerifiedShards | internal/pool/rebuild.go:573-590 | Exactly the shards whose file has the recorded digest, or has none recorded, are read; the written others are missing. |
| StripeWorker.RebuildStripeJob | internal/pool/rebuild.go:330-451 | Whatever the rows say and the disks do: nothing happens if nothing is missing or the decoder gives nothing; else the files of the missing shards, and no others, get what it gave, cut to the size in the row; the shards written are reported, and whether all were. |
| StripeWorker.DescribedOutcome | internal/pool/rebuild.go:330-451 | If the parity is up to date, that succeeds exactly when nothing is missing or missing shards and slots never written are at most `ps`, and then every written shard is back. |
| StripeWorker.RestoresIff | internal/pool/rebuild.go:573-590 | A rebuild that recovers anything restores the recorded bytes exactly when they and the shards it decodes from are of one codeword. |
| StripeWorker.RebuiltVerifies | internal/pool/rebuild.go:454-475 | Restored or not, what was written has the digest its row gets. |
| ErasureCode.OneWordThrough | internal/pool/rebuild.go:400-420 | Exactly one codeword goes through the first `ds` shards there are. |
| Rebuilding.RebuildStripe | internal/pool/rebuild.go:201-258 | Exactly the chunks whose file lacks the recorded digest get what the decoder gave, or what a failed write leaves; their rows say so exactly when all were written. |
| StaleRebuild.RebuildReplacesChunk | internal/pool/rebuild.go:330-475 | The chunk of a lost disk that held [2] holds [6] after a rebuild that succeeds, and its row says so. |
| StaleRebuild.WaitingIsTracked | internal/pool/release.go:258-262 | In a pool in which every stripe is fresh, queued or intended. |
| DiskLoss.DisksLost | internal/pool/rebuild.go:201-258 | A whole stripe survives the loss of disks that with its empty slots are at most `ps`. |
| DiskLoss.RebuildLostStripe | internal/pool/rebuild.go:201-258 | Rebuilding such a stripe brings every byte back if the disks take what is written, and if it says that it has it has. |
| Release.UniqueIds | internal/pool/pool.go:335-346 | The same ids, each once. |
| Release.FilterUnreferenced | internal/pool/release.go:227-254 | Exactly the candidates no version maps, over all batches. |
| Release.DropCacheRows | internal/pool/release.go:199-220 | The entries go and exactly their files are listed. |
| Release.EnqueueParityRecompute | internal/pool/release.go:351-389 | Stripes not queued already are queued once. |
| Release.RequeueParity | internal/pool/release.go:266-345 | Touched stripes with data left are queued, parity of the others is reset. |
| Release.ReleaseChunks | internal/pool/release.go:51-140 | The batched loops do what the release in one go does, and count it. |
| Release.ReleasedExactly | internal/pool/release.go:51-140 | Exactly the unmapped candidates become reserved; others keep their rows. |
| Release.ReleasedRow | internal/pool/release.go:97-128 | A released chunk is an empty slot at a new path on its disk; its file and its copy are listed, and no entry and no write queue row of it is left. |
| Release.ReleasedParity | internal/pool/release.go:266-345 | Exactly the stripes that lost data and have some left are queued besides those that were; exactly the parity of those with none left is reset, its files are listed, and other parity keeps its rows. |
| Release.ReleaseTwice | internal/pool/release.go:51-140 | A second release does nothing. |
| Release.ReleaseKeepsLayout | internal/pool/release.go:97-128 | A release keeps the layout. |
| ReadCache.UpdateCacheAccess | internal/pool/cache.go:87-186 | Row by row, with the entries as they were loaded: a first read makes an entry with count one on disk `id % n` unless there is one by now; a chunk with a count over five and no copy gets one of the bytes that were read, if it can be written; the others count one more, and nothing else changes. |
| ReadCache.AccessKeepsSoundness | internal/pool/cache.go:87-186 | Reading keeps copies of data chunks in agreement with the source. |
| ReadCache.AccessAgrees | internal/pool/cache.go:87-186 | And of chunks of either kind, if they were. |
| ReadCache.UpdateIff | internal/pool/cache.go:87-186 | An update that comes late keeps every read in agreement exactly when each chunk it copies still has the bytes that were read. |
| ReadCache.ReadChunks | internal/pool/chunk.go:838-922 | No ids, an offline pool, ids that are unknown or repeated, and a chunk with neither copy nor file are refused, in that order and exactly when it is so; otherwise every data chunk, and if all copies agree every parity chunk, is read as from its source disk. |
| CacheCoherence.DropCaches | internal/pool/cache.go:192-215 | Exactly the entries and their files go. |
| CacheCoherence.CleanupColdCache | internal/pool/cache.go:281-308 | Exactly the cold entries go, and what agrees with the source still does. |
| CacheCoherence.DeleteCacheDisk | internal/pool/pool.go:242-278 | No entry of the disk is left, and their number is returned, or it is no cache disk. |
| CacheCoherence.WriteChunks | internal/pool/chunk.go:721-827 | Every refusal exactly when due; overwritten chunks, of either kind, hold the new bytes and have no cache entry; others are as before, and what agrees with the source still does. |
| ChunkStore.PersistedDescribes | internal/pool/chunk.go:506-567 | Whatever the disks do, the row of a chunk that was to be written has the digest of what is in its file. |
| PoolSafety.OverwriteKeepsAll | internal/pool/chunk.go:721-827 | Overwriting keeps every mapped chunk with the digest of its bytes, and changes no other chunk. |
| CacheRuns.RoundAgreesIff | internal/pool/parity.go:255-292 | A worker round keeps reads in agreement with the disks exactly when each copy of parity it computes has those bytes. |
| CacheRuns.DeleteParityAgreesIff | internal/pool/release.go:294-321 | The deletion of a parity file does exactly when the chunk has no copy. |
| CacheRuns.RepairAgreesIff | internal/pool/rebuild.go:420-451 | A rebuild does exactly when the copies of what it writes say that. |
| CacheRuns.RunAgreesIff | internal/pool/cache.go:87-186 | In every state of a run with overwrites, deletions of parity, rebuilds and late updates every read agrees exactly when all its steps are careful. |
| CacheRuns.RunWithOverwritesStaysSafe | internal/pool/chunk.go:721-827 | In every state of a run with overwrites and deletions of parity, careful or not, every mapped chunk has the digest of its bytes and every copy of a data chunk agrees. |
| StaleCopies.RoundLeavesStaleCopy | internal/pool/parity.go:255-292 | The run from nothing, of careful steps, that ends with a round and a copy of parity of a file that is gone. |
| StaleCopies.DeletionLeavesCopy | internal/pool/release.go:294-321 | The run from nothing after which only the copy of its parity has the bytes of a purged file. |
| StaleCopies.LateUpdateServesOldBytes | internal/pool/chunk.go:880-922 | The run from nothing after which the slice of a file reads as that of a purged one. |
| Trees.Tree.Lookup | internal/vfs/fs.go:112-157 | Finds exactly what the path resolves to; otherwise says no directory exactly when a file is in the way. |
| Trees.Tree.Mkdir | internal/vfs/fs_write.go:114-149 | Succeeds exactly when the path leads to a free and valid name, and adds exactly that directory; every refusal exactly when due. |
| Trees.Tree.OpenEntry | internal/vfs/file.go:61-92 | Which file a handle is opened on, exactly when one is made, and every refusal exactly when due. |
| Trees.Tree.CreateFile | internal/vfs/file.go:127-148 | Succeeds exactly when the path leads to a free and valid name; every refusal exactly when due. |
| Namespace.CheckName | internal/vfs/fs_write.go:44-53 | A name is bad exactly when it is empty, a dot or two, or has a slash or a zero; otherwise it is too long exactly beyond 255 bytes. |
| Namespace.ByteLengthAppend | internal/vfs/fs_write.go:49-51 | The bytes of a name are those of its parts. |
| Namespace.ByteLengthOne | internal/vfs/fs_write.go:49-51 | And of one character those of its UTF-8. |
| Namespace.ByteLengthAscii | internal/vfs/fs_write.go:49-51 | Names of ASCII characters are as long as they look. |
| Trees.Tree.Remove | internal/vfs/fs_write.go:152-178 | Succeeds exactly when the path names something without live children, marks its row and no other, and the path then names nothing; every refusal exactly when due. |
| Trees.Tree.IsDescendant | internal/vfs/fs_write.go:57-73 | True exactly when the ancestor is met in at most 256 steps up. |
| Trees.Tree.Rename | internal/vfs/fs_write.go:181-279 | Succeeds exactly when allowed, with the first reason there is against it otherwise; row by row, the entry takes the name and what had it is deleted; the new path names the entry unless it went below itself. |
| Trees.Tree.Restore | internal/vfs/recycle.go:56-108 | Its parent is as it was if that is the root or a live directory, else the root; every refusal exactly when due, `Exists` exactly when the name is taken there. |
| Trees.Tree.RemoveThenRestore | internal/vfs/recycle.go:56-108 | Restoring what was just removed always succeeds and gives back every row, so the path names the entry again. |
| Trees.Tree.Purge | internal/vfs/recycle.go:114-123 | Removes a deleted entry with everything below it, and nothing live; hands on exactly the ids it removed; every refusal exactly when due. |
| Trees.Tree.PurgeAll | internal/vfs/recycle.go:126-147 | When it completes exactly the live entries are left; it stops only at a deleted entry that is on a cycle or has more than 100000 below it, and always if one is on a cycle. What is gone is what lay below the entries purged one by one, and it returns their number. |
| Namespace.RenameKeeps | internal/vfs/fs_write.go:212-216 | A rename that passes the check keeps live parents and unique names, and the forest exactly when the entry is not further above its new directory than the check looks. |
| Namespace.ShallowNeverDeep | internal/vfs/fs_write.go:57-73 | It is not, while no chain of parents is longer. |
| Namespace.DeepRenameMakesCycle | internal/vfs/fs_write.go:57-73 | From 258 nested directories on it can be. |
| Namespace.RestoreKeeps | internal/vfs/recycle.go:65-88 | Restoring keeps live parents, unique names and the forest. |
| Namespace.DeletedBelow | internal/vfs/recycle.go:244-318 | Below a deleted entry nothing is live. |
| Namespace.PurgeKeeps | internal/vfs/recycle.go:244-318 | Purging removes only deleted entries and keeps the tree. |
| Subtree.CollectSubtree | internal/vfs/recycle.go:339-360 | On any graph it stops; it yields every node below the entry once exactly when the entry is on no cycle and at most 100000 nodes lie there. |
| Base32.OrBelowAShiftIsAddition | web/src/totp.ts:14-31 | On 32-bit words the or after a shift is an addition, so the unmasked accumulator loses only bits that are no longer read. |
| Base32.ShlIsBitShift | web/src/totp.ts:14-39 | On words as bit strings the left shift drops the top bits and adds zeroes. |
| Base32.ShrIsBitShift | web/src/totp.ts:14-39 | And the unsigned right shift drops the low ones. |
| Base32.AlphabetMembers | web/src/totp.ts:4 | A character has an index exactly when the alphabet has it. |
| Base32.Encode | web/src/totp.ts:26-40 | The text is the unpadded encoding of section 6 of RFC 4648. |
| Base32.Decode | web/src/totp.ts:6-22 | Fails exactly when, in upper case and without blanks and padding, a character is no digit; otherwise the whole octets of the bits. |
| Base32.SmallLetters | web/src/totp.ts:7 | Small letters count as capitals. |
| Base32.DroppedIff | web/src/totp.ts:7 | Dropped are exactly the white space of ECMAScript and the padding. |
| Base32.OtherLetters | web/src/totp.ts:7 | What the other characters with a capital among the digits count as. |
| Base32.AcceptedIff | web/src/totp.ts:7-13 | Every other character is refused. |
| Base32.RoundTrip | web/src/totp.ts:6-40 | Decoding the encoding of any bytes gives them back. |
| Base32.LooseRoundTrip | web/src/totp.ts:6-40 | Also when the text was typed in small letters, with blanks, or padded. |
| Base32.EncodingUnique | web/src/totp.ts:26-40 | Bytes have one encoding. |
| Base32.ReencodeIff | web/src/totp.ts:6-40 | Encoding what was decoded gives the text back exactly when its tail is canonical. |

## Left out

- Trees.Tree.Mkdir: names are texts, whose length is that of their UTF-8; bytes that are no UTF-8 are not modelled.
- Trees.Tree.PurgeAll: the order of the entries is any; with entries too large but on no cycle whether it completes depends on it.
- Trees.Tree.Lookup: symbolic links and `Copy` are not modelled, and one share is.
- FileHandles.FileHandle.WriteAt: asks that the handle is not closed; the code does not check it, and what it does to a committed version then is not modelled.
- FileHandles.FileHandle.TruncateTo: likewise.
- FileHandles.StoreOne: what the pool does when it is asked to store a chunk (whether it is online, the disks online and their order, the slot its query picks, what the disk does) is a parameter of every operation that stores.
- FileHandles.FileHandle.ReadAt: chunks of the pool can be read; failing reads and the rebuild they trigger are not modelled.
- FileHandles.FileHandle.SlicePlain: reads the source disk; that the cache agrees with it is ReadCache.ReadChunks.
- HandleSteps.OpenForWriting: taking the snapshot and starting the version are one step. A handle on a version that has lost its row is a run of Lifecycle, not of the object, whose rows nobody else removes.
- Lifecycle.RunStaysSafe: storing a chunk and mapping it are one step for the collector, because a reused slot keeps its old creation time (internal/pool/chunk.go:244-246, internal/pool/gc.go:132).
- Lifecycle.SnapshotStays: asks that no handle writes the version; restoring a version that is being written is not excluded by the code.
- Garbage.GarbageCollect: the chunks within the grace period are a parameter.
- Allocation.GetNewChunks: which reserved slots the locking query picks, and the order of the disks, are parameters.
- ReadCache.UpdateCacheAccess: which copies cannot be written or saved is a parameter; entries are identified by their chunk, not by the id of their row.
- CacheCoherence.WriteChunks: an endpoint inside the storage layer, it rewrites chunks that versions map; it is a step of CacheRuns, not of Lifecycle, whose snapshots it would change.
- Lifecycle.ReadsWhatWasWritten: a read and its cache update are one step in Lifecycle; CacheRuns has the update as a step of its own.
- CacheRuns.RunAgreesIff: parity files may be deleted at any time, not only after a release; disks that fail are not among the steps.
- Freshness.RedescribeKeepsIff: the intents and the bytes of overwritten parity chunks are not among the steps.
- Freshness.RunProtectedIff: one worker round is one step with respect to releases, releases spare chunks with a write in flight, and adding a disk is no step of these runs: it changes the code (AddedDisk).
- QuietPool.QuietIsWhole: speaks of runs in which the disks write what they are told, and in which no chunk is overwritten with other bytes.
- StripeWorker.RebuildStripeJob: shards are read and written one after the other, where the code uses parallel tasks.
- Quotas as an invariant: the check compares one call's growth with committed sizes only, so no bound holds over several handles; the check itself is part of WriteAt and TruncateTo.
- The codec and the slice size are fixed over the life of a file, though a share's setting can change.
- Arithmetic of GF(256), BLAKE3, zstd, AES-GCM and PBKDF2: parameters, as said above.
- SQL, locking, transaction timeouts, timers, several pools and shares, audit history, usage statistics, and the HTTP, SMB, SFTP and WebDAV front ends: adapters and plumbing.
