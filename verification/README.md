# A verified model of lsm-db

lsm-db is an embedded log-structured merge engine: a sorted write buffer, a
write-ahead log, immutable sorted run files, a manifest whose rename is the
commit point, per-run filters, a block cache, lock-free snapshot reads and one
background compaction. This project models that engine in Dafny and proves what
it promises.

`dafny verify dfyconfig.toml` checks everything.

## How it is built

Two layers meet in one class.

**The step machine** (`Protocol`, `Invariant`, `Steps`, `Recovery`,
`Refinement`, `Guarantees`, `Failures`, `Witnesses`). Every disk effect and
every lock-protected memory change is one step: log append, temporary write,
rename, sidecar, manifest rename, log removal, a flush or a compaction that
fails, the parts of a compaction, reader snapshots, file drops, each entry of
the recovery scan. A run is any sequence of enabled steps, so it is any schedule
of the threads, and a crash may fall between any two effects, recovery included.
The guards hold only the program's control flow and locks. One inductive
invariant is kept by all 32 kinds of step, and the machine refines a
specification that is nothing but lists of batches.

**The code** (`Bytes`, `Records`, `Codec`, `Wal`, `Checksum`, `RunFormat`,
`RunLayout`, `SsTables`, `Formats`, `Cache`, `Cursors`, `Merging`,
`MergeIterator`, `Reads`, `Scans`, `MemTables`, `ManifestText`). Encoders,
decoders, the run writer, the CLOCK cache, cursors, the merge iterator, point
lookups, scans and the manifest's text, in the form the program gives them:
classes with fields updated in place and loops over bytes.

`Engines.Engine` and `Opening.OpenWith`, with `Links` between, join the two. An
engine holds real run bytes, manifest text, log bytes, a buffer, handles and a
cache, and as ghost state the run of the step machine it has performed. Each
method with an effect proves that the effect is one step of the machine and
that bytes and machine state agree after it, so everything proved about runs
holds of the engine's own executions. Reads and compactions are in parts, and
any other method may come between the parts.

What the definitions the contracts are stated with mean is stated once more, by
position and without them: the key order at the first difference
(`Bytes.LessAtFirstDifference`), the order of writes (`Records.LastWriteWins`,
`Records.LastWriteInHistory`), newest run first (`Records.NewestRecordWins`),
which texts and files are accepted (`ManifestText.LoadsExactly`,
`SsTables.OpensExactly`, `SsTables.ReadsIntact`), the bytes of every format
(`Formats`), when a compaction is requested (`Guarantees.RequestedExactly`) and
what a client reads of its own writes (`Guarantees.AckedWriteIsRead`).

## Where a promise stops

- A flush takes the buffer before its fallible steps. If it returns an error,
  clients no longer see what it took, which is everything acknowledged since the
  last flush and, if a write filled the buffer, that write too. With the log a
  reopening brings it back, until the next successful flush empties the log and
  makes the loss final (src/db.rs:555, 561-586, 591). `Failures` says exactly
  when each of these changes anything for a client: `FailureHidesExactly` from
  the instant the failing call took the lock, `ShownExactly` and
  `FlushLosesExactly` from then on. `Witnesses.AckedWriteLost` is a run in which
  an acknowledged write is lost. A caller avoids it by reopening, or by writing
  the lost batches again before the next flush.
- A compaction that fails loses its request (src/db.rs:704-730). Until a flush
  asks again, the runs may stand at the trigger with nothing requested or
  running: `Guarantees.NoLostCompaction` says exactly when, and
  `Witnesses.FailedCompactionLosesRequest` is such a run.
- Keys and values over 2^30 bytes are accepted and cannot be read back: see
  `Wal.RecordRoundTrip`, `SsTables.ReadBackExactly` and
  `Opening.OversizeWriteLocksOut`.
- The compaction trigger has to be at least 2, as the configuration clamps it:
  see `Witnesses.TriggerBelowTwoFails`.

## Modelling boundaries

- A rename and an appended-and-synced log record are atomic and durable.
  Temporary files may hold anything after a crash.
- An I/O call either succeeds, or the process dies, or, in a flush or a
  compaction before the manifest is renamed, that flush or compaction fails and
  returns.
- A write takes effect in the history when it holds the lock. Lock acquisition
  order is the order of the steps.
- A run file is under 2^44 bytes, so that block numbers fit 32 bits.
- Counters and file offsets do not overflow 64 bits.
- The database directory is keyed by run number, and a manifest name that is no
  run's name is treated as a missing run. `ManifestText.SeqOfFilename` and
  `ManifestText.FilenamesDistinct` connect numbers with file names.
- A filter is the set of keys it answers yes for: every key added to it, and any
  finite set of others.
- Two open handles on one run file never coexist, so the swap compares handles
  by file number where the program compares their identity.
- src/cache.rs:101-102 speaks of a free slot if there is one; the model follows the
  code, which takes the first slot from the hand that is free or unreferenced.
- docs/SSTABLE_FORMAT.md:85-87 describes the cut between blocks differently from
  the code; the model follows the code, which closes a block once an entry has
  brought it to 4 KiB or more.

## Model


| member | source | states |
|---|---|---|
| `Guarantees.CrashSafety` | src/db.rs:164-255 | Whenever an engine is open with its lock free, after any schedule of writers, flushes, compaction and readers, any number of crashes (inside flush, compaction or recovery) and any number of failed flushes and compactions, the database it shows is the in-order fold of the observed history |
| `Refinement.EngineRefinesSpec` | src/db.rs:443-685 | Every run of the step machine, failed flushes included, is observation by observation a run of a specification that has only lists of batches: no memtable, log, run, manifest or file |
| `Refinement.StepRefines` | src/db.rs:443-685 | Each of the machine's steps from a reachable state is one step of the list-of-batches specification under the abstraction `Abs` |
| `Recovery.RunInvariant` | src/db.rs:164-685 | Every state of every run satisfies the inductive invariant `Inv` |
| `Recovery.StepKeeps` | src/db.rs:164-685 | Every enabled step, whichever thread takes it, keeps `Inv`, crashes and recovery steps included |
| `Recovery.SessionStepKeeps` | src/db.rs:443-685 | The same for the 28 steps of a running session: writes, flush sub-steps and failures, compaction sub-steps and failures, reads and file drops |
| `Recovery.DurableAtEveryPoint` | src/db.rs:554-597 | With the log, the disk alone stands for everything logged since the last rotation at every point of every operation, between the manifest commit and the log rotation too, and after a failed flush |
| `Recovery.CrashKeeps` | src/db.rs:554-597 | What a crash leaves is a directory recovery can read: with the log it stands for the whole history, without it for the batches up to the last committed flush, whatever is in the temporaries |
| `Recovery.CrashInRecovery` | src/db.rs:196-220 | A crash during the recovery scan loses nothing further |
| `Recovery.ScanComplete` | src/db.rs:196-215 | When the scan ends, the run files are exactly the live ones, no sidecar is an orphan, no temporary is left, and the counter is past every file |
| `Recovery.OpenLogKeeps` | src/db.rs:217-241 | Opening and replaying the log, and taking the replayed buffer for the checkpoint flush, re-establishes the session invariant |
| `Guarantees.HistoryIsObserved` | src/db.rs:443-481 | For every run, the history it stands for is a function of the observations and of one bit per crash: whether the in-flight batch survived, whole or not at all |
| `Guarantees.AckedBatchesSurvive` | src/durability.rs:110-158 | For every run with the log: until a flush fails, the acknowledged batches at any point are a prefix of those at every later point, crashes included |
| `Guarantees.FlushedBatchesSurvive` | src/db.rs:368-389 | For every run, with or without the log: everything acknowledged before an explicit flush returned is in every later history, across later crashes and later failed flushes |
| `Guarantees.AckedWriteIsRead` | src/db.rs:443-481 | With the log, and if no flush fails: once a write is acknowledged, every later idle moment of the run shows its last record for each of its keys, value or deletion, across any crashes, flushes and compactions, as long as no later write touches the key |
| `Guarantees.FlushedWriteIsRead` | src/db.rs:368-389 | With or without the log: the last write to a key before an explicit flush returned is what every later idle moment shows for it, across any crashes and any failed flushes, as long as no later write touches the key |
| `Guarantees.NothingToFlush` | src/db.rs:535-541 | For every run: when the buffer is empty and the lock free, so that a flush does nothing, the committed runs already show the whole database, and unless a flush has failed a crash would lose nothing |
| `Guarantees.OpenEngineShowsHistory` | src/db.rs:483-505 | With the lock free, memtable over live runs reads as the fold of the acknowledged batches |
| `Guarantees.ReadsAreSnapshots` | src/db.rs:483-533 | For every run: a read answers with the database of the instant its snapshot was taken, whatever writes, flushes, failures, swaps and file drops come before it finishes |
| `Guarantees.FilesAreSafe` | src/sstable.rs:294-305 | In every state each run named by the manifest, the live list, a reader or a compaction still has its file, so recovery never meets a missing run |
| `Guarantees.NamesAreFresh` | src/db.rs:556-571 | When a run file is installed, no run file, sidecar, manifest entry or live run has its number, across restarts and with outputs reserved before later flushes |
| `Guarantees.FiltersAreComplete` | src/bloom.rs:197-219 | In every state a sidecar beside a run answers yes for every key of that run, and possibly for others |
| `Guarantees.ScanReclaims` | src/db.rs:196-215 | The recovery scan, visiting the directory in any order, deletes exactly the temporaries, the runs the manifest does not name and their sidecars |
| `Guarantees.BufferMatchesLog` | src/db.rs:443-481 | With the lock free, the log replays to the memtable over whatever failed flushes took, and the memtable is empty or below capacity |
| `Guarantees.CompactionInputsStayOldest` | src/db.rs:613-685 | From the snapshot to the swap the inputs are the oldest suffix of the live list, however many flushes were published since, and the swap reads the same under every memtable |
| `Guarantees.NoLostCompaction` | src/db.rs:688-730 | Once a flush has succeeded, whenever no compaction is requested or running, the number of runs is below the trigger if and only if no compaction has failed at the trigger with neither a flush finished nor a compaction started since |
| `Guarantees.RequestedExactly` | src/db.rs:593-595 | In every state of every run, a compaction is requested if and only if some flush ended with the runs at the trigger or above and neither a compaction has begun nor a crash come since |
| `Guarantees.FlushedExactly` | src/db.rs:554-597 | A session counts as flushed if and only if one of its flushes has ended |
| `Witnesses.TriggerBelowTwoFails` | src/config.rs:127-130 | With a trigger below 2 that is false of runs in which nothing failed, so the clamp to 2 is needed: with or without the log, a run that ends flushed, with nothing requested, nothing running and the number of runs at the trigger, for every key and value that fit the buffer |
| `Witnesses.FailedCompactionLosesRequest` | src/db.rs:704-730 | The failing case of `NoLostCompaction` as a run, with a trigger of 2 and any key and value that fit the buffer: two flushes, one failed compaction, and nothing is requested or running with the runs at the trigger |
| `Failures.FailureHidesExactly` | src/db.rs:461-481 | At every failed flush of every run, the flush of a `flush` call or the one at the end of a write, what clients see is what they saw when the call took the lock, if and only if the runs then repeated every record of the buffer |
| `Failures.FailureTakesExactly` | src/db.rs:554-586 | The history loses nothing at a failed flush if and only if the runs already repeat every record the flush took; the history counts the write whose own flush it is, which no client has seen |
| `Failures.ReopeningShowsFailedWrites` | src/db.rs:217-241 | With the log, until the next rotation no failed flush loses anything: a reopening shows every batch acknowledged before the failure, and the failed ones |
| `Failures.ShownExactly` | src/db.rs:554-586 | At every point between calls, the session shows what the log would bring back if and only if every lost record is in the buffer again or repeated by the runs |
| `Failures.FlushLosesExactly` | src/db.rs:585-591 | A flush that empties the log loses nothing a reopening would have shown if and only if, when it began, every lost record was in the buffer again or repeated by the runs |
| `Witnesses.AckedWriteLost` | src/db.rs:554-591 | The failing case as a run without a crash, for all keys and values that fit the buffer: write, failed flush, write another key, flush; neither this session nor a reopening shows the first write |
| `Invariant.SwapIsInvisible` | src/db.rs:663-680 | The swapped list is the newer runs followed by the output, without duplicates, all present, and reads the same under every memtable |
| `Steps.PublishSwapKeeps` | src/db.rs:663-683 | Publishing a swap keeps the session invariant with any readers and any runs flushed since the snapshot |
| `Steps.CommitFlushKeeps` | src/db.rs:585-586 | The manifest rename commits a flush: from there the committed runs hold the whole history |
| `Steps.FailFlushKeeps` | src/db.rs:554-586 | A flush that returns an error before its manifest is renamed keeps the session invariant: the runs alone answer for the session, and the log still holds everything |
| `Steps.FailCompactionKeeps` | src/db.rs:604-677 | A compaction that returns an error before its manifest is renamed, at whatever point, keeps the session invariant: the live list, the files it needs and every reader are as they were |
| `Steps.DropRunKeeps` | src/sstable.rs:294-305 | Deleting a superseded run that no list, reader or compaction holds keeps the session invariant |
| `Steps.InstallRunKeeps` | src/db.rs:559-568 | Installing a run file for either thread keeps the session invariant while the other thread may be building its own |
| `Records.CompactionPreservesView` | src/db.rs:640-654 | Replacing the oldest runs by their merge with every tombstone dropped changes no key, for any newer runs and any memtable |
| `Records.FlushPreservesView` | src/db.rs:554-587 | Moving the memtable to a newest run changes no key |
| `Records.ReplayOverFlushed` | src/db.rs:585-591 | Replaying a log whose table is already the newest run changes no key, also over records that reached no run |
| `Records.ApplyIsWrite` | src/db.rs:461-481 | Buffering a batch over any runs is the same as applying its writes to the visible database; `LastWriteWins` and `LastWriteBuffered` say in which order |
| `Records.LastWriteWins` | src/db.rs:476-478 | By position: of several writes of a batch to one key the last decides what the database then says about the key, a value or nothing |
| `Records.UnwrittenStays` | src/db.rs:476-478 | A key no entry of the batch writes keeps its value or its absence |
| `Records.LastWriteBuffered` | src/db.rs:476-478 | The same for the buffer: the last write to a key is the record it ends up with |
| `Records.LastWriteInHistory` | src/db.rs:461-481 | By position over a whole history: the last write to a key in any batch decides what the history says about it |
| `Records.NeverWritten` | src/db.rs:461-481 | A key no batch of a history writes is absent |
| `Records.NewestRecordWins` | src/db.rs:483-505 | By position: the buffer's record for a key decides, else that of the first run that has one, else the key is absent; a tombstone decides as a value does |
| `Records.CompactedIsVisible` | src/db.rs:640-654 | A full compaction writes exactly the visible pairs of its inputs, and no tombstone |
| `Records.AscendingUnique` | src/memtable.rs:83-87 | A table has exactly one strictly ascending listing |
| `Records.FindIsLookup` | src/sstable.rs:237-247 | Searching a strictly ascending list for a key is looking the key up in the table it lists |
| `Engines.Engine.Write` | src/db.rs:461-481 | Log, buffer, flush when full: the visible database becomes the old one with the batch applied, the last write to each key deciding; the batch stays in the buffer unless key and value bytes have reached the capacity, and then the buffer is one new run and empty; the history grows by that batch, reads in flight keep their databases, and the effects are a run of the step machine |
| `Engines.Engine.MaybeFlush` | src/db.rs:544-551 | Flushes exactly if the buffer is not empty and its key and value bytes have reached the capacity, and otherwise leaves buffer and runs alone |
| `Engines.Engine.Put` | src/db.rs:444-451 | The visible database becomes the old one with the key set, whether or not the write flushes |
| `Engines.Engine.Delete` | src/db.rs:453-459 | The visible database becomes the old one without the key |
| `Engines.Engine.Flush` | src/db.rs:535-541 | Empties the buffer into one new run and changes nothing a client sees; with an empty buffer, changes no file, no run and no counter |
| `Engines.Engine.Get` | src/db.rs:483-505 | Returns the value the visible database has for the key, or none, through filters and block cache, and keeps cache and engine consistent; the two parts below, one after the other |
| `Engines.Engine.BeginGet` | src/db.rs:483-491 | The locked part: the buffer's answer, or a snapshot whose database is the visible one of this instant |
| `Engines.Engine.FinishGet` | src/db.rs:492-505 | The lock-free part, after any other methods: the key's value in the database of the instant the read began; superseded runs held only by it are deleted |
| `Engines.Engine.Scan` | src/db.rs:507-533 | Returns exactly the live pairs of the visible database whose keys both bounds admit, each once, in ascending byte order; the two parts below, one after the other |
| `Engines.Engine.BeginScan` | src/db.rs:507-519 | The locked part: the buffered entries of the range and the runs, whose database is the visible one of this instant |
| `Engines.Engine.FinishScan` | src/db.rs:521-533 | The lock-free part, after any other methods: the live pairs of the range in the database of the instant the scan began |
| `Engines.Engine.Release` | src/sstable.rs:294-305 | When a read ends, no superseded run is left that nobody holds, and what other reads will answer is unchanged |
| `Engines.Engine.FlushLocked` | src/db.rs:554-597 | From a buffer to an installed, published newest run with the log rotated: the engine is valid again, the buffer empty, the history unchanged, and a compaction in progress undisturbed |
| `Engines.Engine.FlushTaken` | src/db.rs:561-597 | The same from the point where the buffer has been taken |
| `Engines.Engine.FlushFails` | src/db.rs:554-586 | A flush that fails after any number of its effects before the rename of the manifest, leaving whatever files it had written, leaves an engine that shows what the committed runs hold, with the log as it was and a compaction in progress undisturbed |
| `Engines.Engine.WriteFails` | src/db.rs:461-481 | A write whose flush fails returns an error and leaves an engine that shows what the committed runs hold; its batch is in the log all the same |
| `Engines.Engine.FlushLockedFails` | src/db.rs:554-586 | What such a failure leaves of session and history does not depend on how many effects came before it |
| `Engines.Engine.LogWrite` | src/db.rs:461-475 | The batch is in the log, as bytes that decode to it, before it is buffered or acknowledged |
| `Engines.Engine.BufferWrite` | src/db.rs:476-479 | The buffer becomes the old one with the batch applied, byte count included |
| `Engines.Engine.TakeBuffer` | src/db.rs:555-556 | The entries are the buffer in key order, the number is new, and bytes, machine and cache agree |
| `Engines.Engine.WriteFiles` | src/db.rs:561-576 | The new run's bytes are under a number no file had, no other run changes, and the sidecar is written before anything names the run |
| `Engines.Engine.WriteSome` | src/db.rs:561-576 | The same after any number of the four effects: how far the files have come, and that no other run has changed |
| `Engines.Engine.WriteFilter` | src/bloom.rs:197-212 | The filter written answers yes for every key of the run and for any others its hashing adds |
| `Engines.Engine.BuildRun` | src/db.rs:561-579 | The same, and the file opens to a handle on exactly the table, under a cache id of its own |
| `Engines.Engine.StoreManifest` | src/manifest.rs:70-92 | The temporary holds the text of a manifest with the new run before the live ones, newest first |
| `Engines.Engine.CommitManifest` | src/manifest.rs:93-94 | The rename commits: bytes and machine agree on a manifest that reads back to the same counter and runs |
| `Engines.Engine.CommitFlushed` | src/db.rs:581-596 | Manifest, live list, log rotation and compaction request follow in the order that keeps every point recoverable |
| `Engines.Engine.FinishFlush` | src/db.rs:591-595 | The log is empty and reopened, and a compaction is requested afterwards exactly if one was before or the runs have reached the trigger |
| `Engines.Engine.StartCompaction` | src/db.rs:613-622 | Takes the request and snapshots the runs, or does nothing with fewer than two |
| `Engines.Engine.MergeInputs` | src/db.rs:631-662 | Merges the snapshot into an installed run without changing what clients see; other operations may come before and after |
| `Engines.Engine.SwapOutput` | src/db.rs:663-684 | The output replaces its inputs, the runs flushed since stay, the inputs no read holds are deleted, and clients see no change |
| `Engines.Engine.SwappedList` | src/db.rs:666-674 | The filtered list plus the output is the list the protocol installs, with a live handle for each number, and is shorter by the inputs less one |
| `Engines.Engine.DropLoose` | src/sstable.rs:294-305 | Of a list of runs let go, exactly the superseded ones that no read holds lose their files, and none of them is in the live list or an input |
| `Engines.Engine.CompactOnce` | src/db.rs:604-685 | With two runs or more, exactly one run is left and clients see no change |
| `Engines.Engine.CompactionFails` | src/db.rs:604-730 | A compaction that fails after any number of its effects before the rename of the manifest changes nothing clients see, takes no run from the list and retires none; the compactor is idle and its request is gone |
| `Links.KeepNewer` | src/db.rs:666-673 | The kept runs are the live list without the inputs, in order |
| `Links.OpenedIsCacheable` | src/sstable.rs:46-48 | A run opened under a new id adds its blocks to what the cache may hold and disturbs no other entry |
| `Opening.OpenWith` | src/db.rs:164-255 | Opens exactly the directories whose manifest, named runs and log records parse, and reports the others, having reclaimed orphans if only the log was at fault and touched nothing otherwise; what an engine left behind, at any crash point of any run, gives a valid engine with an empty buffer and a log that replays to nothing, showing exactly the surviving history |
| `Opening.Reopen` | src/db.rs:164-255 | Losing power while idle and reopening succeeds and shows what survives of the history: the same database with the log, and after a flush without it, unless a flush has failed |
| `Opening.PowerLoss` | src/db.rs:554-685 | Losing power between any two effects leaves a directory and log that `OpenWith` opens, whatever the temporaries hold |
| `Opening.OwnDirectoryIsReadable` | src/db.rs:164-221 | What an engine left behind always parses: no run is reported missing or corrupt, and no log record either |
| `Opening.OversizeWriteLocksOut` | src/durability.rs:168-223 | A logged batch with a key or value over 2^30 bytes, its lengths and its count below 2^32, makes every later open fail as long as its record is in the log |
| `Opening.OpenRuns` | src/db.rs:176-192 | Succeeds exactly if every named run has a file that parses, with handles on those files in order and the filters there are; where the files store tables, each handle is on its table |
| `Opening.LoadManifest` | src/manifest.rs:47-67 | Total on every text: accepts exactly those whose first line is the header, whose second is the counter and whose other non-empty lines are run names, with that counter and those numbers in order; none for a directory without one |
| `Opening.LoadedExactly` | src/manifest.rs:47-67 | The same as an equivalence between a text and what it says |
| `Opening.OwnManifest` | src/manifest.rs:47-108 | The engine's own manifest text is read back to the same counter and the same runs in order |
| `Opening.OpenStored` | src/db.rs:164-221 | For every directory and log: succeeds exactly if manifest, named runs and log records parse, in the program's order, so that a failure on the log comes after the scan has reclaimed the orphans and an earlier one leaves the directory as it was; on success the manifest's text says what was loaded, the handles are its runs, the counter is past every run file and the buffer is the replay of the log |
| `Opening.Reclaim` | src/db.rs:194-215 | Scanning any directory in any order leaves exactly the files of the runs the manifest names, and a counter that is the manifest's or one past the highest run file; for a directory an engine left behind each entry is one step of the machine |
| `Opening.ScanOne` | src/db.rs:199-214 | Visiting one entry removes it exactly if it is a temporary or an orphan, and nothing else, and raises the counter past a run's number |
| `Opening.ProgressMatches` | src/db.rs:197-215 | With any part of the directory scanned, the bytes left are those the machine has left |
| `Opening.RecoverLog` | src/db.rs:217-221 | Fails exactly on a record that does not decode; otherwise the fresh buffer holds the replay of the log's batches, and the log stays as it was |
| `Wal.RecordRoundTrip` | src/durability.rs:168-223 | Decoding an encoded batch gives the batch back, if and only if its count and lengths are within the decoder's caps |
| `Wal.RecordsSelfDelimiting` | src/durability.rs:190-223 | No encoded record is a proper prefix of another, so a record decodes to one batch only |
| `Wal.Encode` | src/durability.rs:168-187 | The loop writes the record the format defines |
| `Wal.Decode` | src/durability.rs:190-223 | Total on every byte string: the batch whose encoding it is, which re-encodes to the same bytes, or a corruption error if no batch encodes to them |
| `Wal.OversizeNeverDecodes` | src/durability.rs:168-223 | A batch with a length over the cap that fits its prefix encodes to bytes that are refused, never misread |
| `Wal.Durability.LogBatch` | src/durability.rs:110-127 | A readable log stays readable and gains exactly this batch |
| `Wal.Durability.Replay` | src/durability.rs:149-158 | Fails exactly on an unreadable log; otherwise the buffer is the old one with the batches applied in append order |
| `Wal.ApplyBatch` | src/db.rs:476-478 | The buffer after the loop is the batch applied, the last operation on a key deciding its record, byte count included |
| `MemTables.MemTable.Apply` | src/memtable.rs:39-60 | The record replaces any other for its key, the counter is still the summed key and value bytes, and the subtraction cannot underflow |
| `MemTables.MemTable.Iter` | src/memtable.rs:83-87 | The entries in strictly ascending key order, exactly those held |
| `MemTables.MemTable.Take` | src/memtable.rs:92-95 | Returns what was held and leaves an empty buffer with a zero counter |
| `MemTables.ReplaceSize` | src/memtable.rs:47-60 | How overwriting or adding one key changes the summed size |
| `Sizes.SizeCounts` | src/memtable.rs:43-60 | The size of a buffer is the sum over its keys of the bytes of the key and of its value, a tombstone counting as none |
| `Codec.EncodeAllInjective` | src/sstable.rs:541-575 | Different entry lists encode to different bytes |
| `Codec.EntriesPrefixFree` | src/sstable.rs:417-436 | No encoded entry is a proper prefix of another |
| `Codec.WidePrefixFree` | src/sstable.rs:417-436 | No entry whose lengths fit their prefixes encodes to the beginning of another's bytes, within the readers' cap or not |
| `Codec.DecodedEntry` | src/sstable.rs:541-575 | An entry is read only where its own encoding stands |
| `RunFormat.BlockRoundTrip` | src/sstable.rs:541-575 | A block of entries decodes to those entries if and only if every length is within the cap |
| `RunFormat.DecodeBlock` | src/sstable.rs:541-575 | Total on every byte string: the strictly ascending entries it encodes, which re-encode to the same bytes, or a corruption error if none do |
| `RunFormat.IndexRoundTrip` | src/sstable.rs:509-538 | An index of handles decodes to those handles if and only if each fits the format |
| `RunFormat.ParseIndex` | src/sstable.rs:509-538 | Total on every byte string: the strictly ascending handles it encodes, which re-encode to the same bytes, or a corruption error if none do |
| `RunLayout.CutSound` | src/sstable.rs:417-443 | The blocks and the open block together are exactly the pushed entries in order; each closed block is at or over the target size and was under it before its last entry |
| `RunLayout.BlocksAreOk` | src/sstable.rs:417-465 | The blocks of an ascending list are non-empty, ascending, ascending from block to block, fit 32-bit lengths, and concatenate to the list |
| `RunLayout.BlockPlace` | src/sstable.rs:446-465 | The bytes at a handle's offset and length are exactly its block |
| `RunLayout.BlockCountBound` | src/sstable.rs:251-257 | A file under 2^44 bytes has at most 2^32 blocks, so the 32-bit block number of a cache key does not wrap |
| `Formats.EntryLayout` | docs/SSTABLE_FORMAT.md:91-100 | Field by field with offsets and tags: key length, key, 0 or 1, value length, value |
| `Formats.EntriesLayout` | docs/SSTABLE_FORMAT.md:79-89 | Entries follow one another in order without gaps |
| `Formats.HandleLayout` | docs/SSTABLE_FORMAT.md:106-120 | Field by field: last key length, last key, offset, length, checksum |
| `Formats.FooterLayout` | docs/SSTABLE_FORMAT.md:122-135 | Field by field: entry count, index offset, index length, index checksum, magic bytes |
| `Formats.RunFileLayout` | docs/SSTABLE_FORMAT.md:51-77 | Magic bytes, blocks that tile the file from offset 8, an index with a handle for each, footer |
| `Formats.BlockLayout` | docs/SSTABLE_FORMAT.md:106-120 | A handle has its block's place, length, last key and checksum |
| `Formats.BlockSizes` | src/sstable.rs:417-443 | A block is closed by the entry that brings it to 4096 bytes, and only the last may be smaller |
| `Formats.RecordLayout` | src/durability.rs:168-187 | A log record is the number of its operations and then the operations |
| `Formats.LimitsWrittenOut` | src/durability.rs:190-223 | A run and a log record read back if and only if every key and value is at most 2^30 bytes and the record has fewer than 2^32 operations |
| `SsTables.SsTableWriter.Push` | src/sstable.rs:417-443 | The writer holds the pushed entries plus this one, cut into blocks where the code cuts them; over-long lengths are refused |
| `SsTables.SsTableWriter.FlushBlock` | src/sstable.rs:446-465 | The open block moves to the file with a handle for its place, length and checksum |
| `SsTables.SsTableWriter.Finish` | src/sstable.rs:468-505 | The file is magic, blocks, index and footer of exactly the pushed entries |
| `SsTables.Open` | src/sstable.rs:136-188 | Total on every byte string: opens exactly the files of 44 bytes or more that end in a footer with the magic bytes, naming an index right before it whose checksum matches and whose bytes are ascending handles, and to that index |
| `SsTables.OpensExactly` | src/sstable.rs:136-188 | The same as an equivalence, with every offset and the magic bytes written out |
| `SsTables.WrittenRunOpens` | src/sstable.rs:136-188 | Every file the writer produces within the length cap opens, with its index and its entry count |
| `SsTables.WrittenBlock` | src/sstable.rs:275-286 | Every block of such a file reads back, through offset, length and checksum, as the entries cut into it |
| `SsTables.ReadBackExactly` | src/sstable.rs:417-443 | A written run reads back as its entries if and only if every length is at most 2^30: the writer accepts longer ones that no reader will |
| `SsTables.PartitionPoint` | src/sstable.rs:237-243 | Binary search finds the first block whose last key is not below the key |
| `SsTables.CandidateDecides` | src/sstable.rs:237-247 | That block alone decides whether the run holds the key and with what record |
| `SsTables.CachedBlock` | src/sstable.rs:251-286 | Returns what decoding the block returns, hit or miss: the entries of a block that lies in the file and matches its checksum, and an error exactly if it is no such block; every cached block stays true, and a block read is cached afterwards |
| `SsTables.DecodeBlockAt` | src/sstable.rs:275-286 | Accepts a block exactly if it lies in the file, its bytes match the checksum of its handle and they encode ascending entries, and returns those entries |
| `SsTables.ReadsIntact` | src/sstable.rs:275-286 | The same as an equivalence for every list of entries |
| `SsTables.Lookup` | src/sstable.rs:237-265 | On a written run, finds exactly the record the run's entries have for the key, or none; on any file, answers from the first block whose last key is not below the key if that block matches its checksum, and with an error exactly if it does not |
| `SsTables.DamagedBlockIsReported` | tests/recovery.rs:93-113 | A written run with any damage within four adjacent bytes of a data block still opens, and reading that block reports corruption |
| `SsTables.DamagedIndexIsReported` | src/sstable.rs:169-176 | A written run with any damage within four adjacent bytes of its index does not open |
| `Checksum.BurstDetected` | docs/SSTABLE_FORMAT.md:152-158 | Two byte strings of one length that differ only within four adjacent bytes have different checksums, whatever the bytes |
| `Checksum.CheckValue` | docs/SSTABLE_FORMAT.md:45-46 | The checksum of the text "123456789" is the published check value of CRC32C |
| `SsTables.ScanBlock` | src/sstable.rs:244-247 | The linear search of one block finds the key's record or none |
| `Cache.Shard.FreeOrEvict` | src/cache.rs:103-118 | The slot chosen is the first free or unreferenced one from the hand after at most one sweep of cleared bits, within one step more than the number of slots, and the fallback after the loop is never reached |
| `Cache.Shard.Insert` | src/cache.rs:78-99 | Afterwards the key maps to the block, no key but the CLOCK victim's has left, the index still inverts the slots, and ring and hand are exactly these: bits cleared up to the victim, the new block in its slot with its bit set, the hand just behind |
| `Cache.StaysForATurn` | src/cache.rs:78-118 | Over any sequence of misses, whatever the ring held before, a new block stays until as many newer ones have come in as there are slots |
| `Cache.BlockCache.constructor` | src/cache.rs:131-147 | 16 empty shards: without slots below 4096 bytes of capacity, and otherwise with the fewest slots each, at least one, that hold the capacity in blocks of 4096 bytes |
| `Cache.Shard.Get` | src/cache.rs:69-76 | A hit is the resident block and marks it used; a miss changes nothing |
| `Cache.IndexBounded` | src/cache.rs:54-58 | The index never holds more keys than there are slots |
| `Cache.BlockCache.Get` | src/cache.rs:149-157 | Returns exactly what the key's shard holds, which is the true block for that key; nothing is evicted, and a disabled cache never hits |
| `Cache.BlockCache.Insert` | src/cache.rs:160-168 | The key's shard stores the block where CLOCK puts it, no other shard changes, and every cached block stays true |
| `MergeIterator.Merge.Next` | src/merge.rs:74-112 | Yields the least live key with its newest value and leaves the rest of the merged database; skips newest tombstones; reports a failure only with the error of a source, and the end only when every source is exhausted without failure |
| `MergeIterator.Merge.Settle` | src/merge.rs:76-84 | Reads every source ahead; a reported error is some source's own, and with none reported an exhausted source is one that does not fail |
| `MergeIterator.Merge.LeastHead` | src/merge.rs:86-92 | The least key at the head of any source, or none |
| `MergeIterator.Merge.TakeKey` | src/merge.rs:94-104 | Takes the key from every source that has it at its head; the first, newest source's record wins |
| `Merging.StepMerged` | src/merge.rs:86-109 | Taking the least key from every source removes exactly that key from the merged database, and its newest record says whether and with what value it was there |
| `Merging.NothingLeft` | src/merge.rs:86-92 | When no source has a head, the merged database is empty |
| `Merging.PopConsumes` | src/merge.rs:94-104 | Every round of the merge consumes at least one entry |
| `Cursors.RunCursor.Fill` | src/sstable.rs:333-356 | Loads blocks until an entry is ready, the run ends or a block fails with its own error, losing no entry |
| `Cursors.RunCursor.NextEntry` | src/sstable.rs:365-369 | Yields the first of the entries to come and leaves the rest |
| `Cursors.RunCursor.TakeError` | src/sstable.rs:377-380 | Hands the stored failure over and clears it, changing nothing the cursor has to yield |
| `Cursors.WrittenRest` | src/sstable.rs:313-330 | A cursor at the start of a written run has exactly the run's entries to come and no failure |
| `Reads.SearchRuns` | src/db.rs:492-505 | Newest first through filters, cache and blocks finds exactly the value of the overlaid runs, tombstones hiding older values |
| `Reads.LookupBuffer` | src/db.rs:484-491 | The buffer answers for a key, value or tombstone, exactly if it holds the key, and then as the overlaid database would |
| `Reads.BelowBuffer` | src/db.rs:484-492 | Below a buffer without the key the runs alone decide its value |
| `Reads.WriteRun` | src/db.rs:561-567 | Pushing the entries in order and finishing yields the run file of that list; only an entry too long for the format is refused |
| `Reads.OpenRun` | src/db.rs:577-579 | Opens exactly the files that parse, and a file that stores a table to a handle on that table |
| `Reads.MightContain` | src/sstable.rs:222-226 | Rules out exactly the keys the filter does not answer yes for, so never one that was added; without a filter rules out nothing |
| `Scans.Scan` | src/db.rs:507-533 | Clipping the memtable before the merge and the runs after it, and stopping at the first key above, lists exactly the live pairs whose keys both bounds admit, each once, in ascending byte order |
| `Scans.ListingListsRange` | src/db.rs:507-533 | What a scan returns, by position: every pair of it is in the database and in the range, every such pair is in it, and keys ascend |
| `Scans.MergeRuns` | src/db.rs:637-654 | The compaction loop writes the run file of the merged live pairs and adds exactly their keys to the filter, for all open runs |
| `Scans.HeldIsSmall` | src/db.rs:637-654 | What open runs hold is within the readers' caps, so a merge of them can always be written and read back |
| `Scans.InIsWithin` | src/db.rs:740-755 | The three-way position test says `In` exactly for keys between the bounds |
| `Scans.AboveStays` | src/db.rs:520-530 | Once a key is above the range every later key is, so stopping loses nothing |
| `Scans.ClippedMerge` | src/db.rs:511-519 | Clipping only the memtable leaves the part of the merge inside the range as it was |
| `Scans.FullScanAgreesWithGet` | src/db.rs:483-533 | A full scan lists exactly what point lookups find |
| `Bytes.LessIsStrictTotalOrder` | src/memtable.rs:19-21 | The byte-wise key order is a strict total order |
| `Bytes.LessAtFirstDifference` | src/memtable.rs:19-21 | One key is below another if and only if, after a common prefix, it ends first or has the smaller byte |
| `Bytes.LittleEndianDigit` | src/durability.rs:168-187 | Byte `i` of an encoded number is its digit `i` in base 256 |
| `ManifestText.LoadInvertsStore` | src/manifest.rs:47-95 | Loading a stored manifest gives it back, if and only if the counter is 64-bit and every name survives a line-oriented file |
| `ManifestText.LoadsExactly` | src/manifest.rs:47-67 | For every text: it loads if and only if its first line is "LSMDB-MANIFEST v1" and its second "next_seq=" and a 64-bit number, with that counter and the remaining non-empty lines in order |
| `ManifestText.LinesExactly` | src/manifest.rs:53-66 | The lines of a text: each ended one without a final carriage return, and the last one unless it is empty |
| `ManifestText.NonEmptyOf` | src/manifest.rs:66 | Empty lines are dropped, all others kept in order |
| `ManifestText.ParsesExactly` | src/manifest.rs:58-64 | A text is taken for a number if and only if it is one or more digits, with a plus sign or without, of a number below 2^64 |
| `ManifestText.DigitOfNumber` | src/manifest.rs:58-64 | Each digit counts by its place |
| `ManifestText.SeqOfExactly` | src/manifest.rs:104-108 | A file name is that of a run if and only if it is "run-", a number and ".sst" |
| `ManifestText.Store` | src/manifest.rs:70-95 | The loop writes the manifest text: header, counter and one name per line |
| `ManifestText.SeqOfFilename` | src/manifest.rs:99-108 | A run's file name gives its number back, for every 64-bit number |
| `ManifestText.FilenamesDistinct` | src/manifest.rs:99-108 | Different runs have different names, and none is taken for the manifest, the log, a sidecar or a temporary |
| `ManifestText.ParsePrinted` | src/manifest.rs:99-108 | A zero-padded number parses back exactly if it fits 64 bits |
| `ManifestText.NumbersReadBack` | src/db.rs:168-174 | A stored list of run numbers is read back as that list, and a name is in the loaded set exactly if its number was in the stored one |

## Left out

- The wal-db library: its framing, torn-tail detection, sync and any limit on record size; the log here is a list of whole records.
- The sidecar's byte format and the bloom filter's hashing and sizing; an undecodable sidecar, which the program treats as absent.
- Checksum strength beyond four adjacent bytes: nothing is claimed about damage spread wider, which CRC32C detects with high probability only.
- Errors returned by a log append, by a log rotation, by the files of an open or by a read, the stored error of a failed compaction, lock poisoning and error formatting.
- The condition variable, the shutdown flag and thread start and join; the compactor's loop is the enabling of its steps.
- Configuration builders, the batch builder and the `Scan` iterator wrapper.
- Removal failures when an obsolete run is dropped, which the program ignores and the next open repairs.
- Engines.Engine.Write: requires the batch to be loggable, since its durability is false of others (`Opening.OversizeWriteLocksOut`), the buffer to stay within the modelled file size, and a run number to be left.
- Engines.Engine.Put: the same for one key.
- Engines.Engine.Delete: the same for one key.
- Engines.Engine.MergeInputs: requires the merged file to be under 2^44 bytes and a run number to be left.
- Engines.Engine.CompactOnce: the same.
- Engines.Engine.FlushFails: a failure of the rename of the manifest itself counts as one before it; a failure after it, in the log's rotation, is not modelled.
- Engines.Engine.WriteFails: the same, with the requirements of `Engines.Engine.Write`.
- Engines.Engine.CompactionFails: the same for the rename, with the requirements of `Engines.Engine.MergeInputs` once the output is being written.
- Opening.OpenWith: for a directory that parses, requires it to be one an engine left behind with two run numbers to spare; every other directory is reported. `Opening.OpenStored`, which is everything but the checkpoint, requires nothing.
- Reads.MightContain: says nothing about how rarely a filter answers yes for an absent key.
- Cache.BlockCache.Get: says in which shard a key is looked for only through `ShardOf`; how evenly that spreads keys is not stated.
