# Verification of the shrt link shortener

A Dafny model of the storage engines and of the small state machines around them, with proofs
about whole runs. `dafny verify dfyconfig.toml` checks everything.

## What is modelled

**The append-only-log engine.** Each instance keeps an index of links in memory, queues records for
its own log, and folds the logs of its siblings into the same index. The model starts at the bytes:
`Bytes` and `Codec` print records as the engine does (JSON-shaped lines, escaping as in section 7 of
RFC 8259, a hand-written integer printer), `Parser` is the cursor-driven parser, `RoundTrip` proves
that it inverts the printer, and `ParsedObjects` what it reads from objects it did not print: any
order of fields, blanks, unknown and repeated keys, other escapes. `Aof` is the log writer, the
replay of a file and the offset-tracking tail reader over growing, torn or shrunk files, and
`TornAppend` what becomes of records appended behind a torn line. `Engine` is the fold of one record
into memory. `LocalStores` is the store itself as an object: boot, shorten, bulk shorten, resolve
with its tail-on-miss, update, remove, flush and compact, each tied to the fold and to the exact
bytes it records. `StoreScenarios` runs that object: create, update, remove, bulk create, compact or
boot, and then a lookup on the same store, after a restart from its files, or on a sibling that
polls or misses; its statements speak of urls, times and answers only.

Two transition systems say what runs of that engine guarantee. `Cluster`, `ClusterHits` and
`Convergence` interleave any number of instances (minting, resolving, updating, removing, draining,
writing, tailing, crashing, replaying, booting). `Visibility` and `ByteCluster` carry this over to
bytes: N stores with log files, queues of bytes and a reader per sibling, whose every run is one of
`Cluster`; it ends with a link minted anywhere in a run being looked up by the store object of any
instance. `Compaction`, `CompactionHits`, `Durability`, `CrashHits` and `DurableBytes` interleave
the threads of one instance at the granularity of its locks: a mutation is an index change and a
later log push, a resolve is two separate counter bumps, and compact is a sequence of drains, one
write, row copies, a rename and a truncate, with reboots anywhere.

**The KV and RocksDB backends.** `Resp` is the RESP2 codec with its recursive, stateful reader and
`CutReplies` says what it makes of replies cut short; `KvPool` interleaves threads over pooled
connections; `Cache` is the bounded FIFO cache, the stored value codec and the disk engine's expiry
filter; `Rocks` runs the RocksDB backend beside the same backend without its cache and `RocksStores`
is that backend as an object over stored bytes; `RocksRows` says over whole runs what becomes of
rows created, removed and resolved there; `KvNodes` is several caching nodes over one server;
`KvHits` and `MergeHits` follow hit counts from a node's memory to the stored counter in both key
layouts and through the merge operator.

**Small state machines.** `RateLimit` (token buckets with idle eviction, over exact reals) and
`RateExact` (its limits measured against the greediest client), `Metrics` (the 60-slot ring),
`MiniServer` (the read, parse, reply loop, with the HTTP parser and the handler as parameters) and
`MiniRequests` (which body a head announces, what is refused, and when the connection stays open).

Histories are part of the states: a run carries flags such as "this code was minted away from its
prefix owner", "it was updated or removed", "two mutations of it overlapped", so that theorems are
about every run and say on which of them they apply. An event that is not possible in a state does
nothing. Clocks, random bytes, hash-table orders, the number of bytes a read returns, the choice of
an evicted entry and what other files hold are parameters.

## What the proofs found

- Lines appended after a log that a crash cut inside a line come back as written exactly when the
  cut fell on a line boundary (`Aof.AppendAfterCut`); otherwise the first is glued to the torn piece.
  The parser is lenient, so the glued record is still often read as itself: exactly where in the torn
  line the cut may fall, and before which records, is `TornAppend.RecordsAfterCut`. Otherwise another
  record is read, or none; `TornAppend.GluedRecord` says which. A row without an expiry can come back
  with the torn row's (`TornAppend.ExpiryInherited`), a torn row's code with the appended row's url
  (`TornAppend.UrlTakenOver`), and a hit as a row with an empty url (`TornAppend.HitBecomesRow`).
- An update logs its row with a hit count of zero, so replay forgets the hits flushed before it, and
  gives the live count back exactly when there were none (`Convergence.UpdateForgetsHits`).
- Two mutations of one code that overlap can reach the log in the other order, whatever else goes on
  meanwhile; a restart then serves the row that lost unless both leave the same row
  (`Durability.OverlapDecides`, `Durability.OverlappingUpdatesReorder`). Without overlap this cannot
  happen (`Durability.AcknowledgedRowsSurvive`).
- A crash between the snapshot's rename and the log's truncate forgets flushed hits exactly when a
  flush wrote one before the row it belongs to, and then exactly those
  (`CrashHits.CrashAfterRenameIff`, `CrashHits.EarlyHitForgotten`). If instead the row is lost in a
  crash, whoever creates the code again inherits these hits at the next restart, until a compact drops
  them (`CrashHits.InheritedIff`, `CrashHits.RestartCountsIff`, `CrashHits.HitInherited`). Both need a
  resolve before the record is queued, which no caller of a generated code can make
  (`CrashHits.CrashInCompactKeepsHits`, `CrashHits.PatientCounts`).
- Several logs that mention one code, as when two instances accept the same alias, make instances
  disagree unless all of these logs leave the same row (`Convergence.InterleavingsAgreeIff`).
- A RESP line cut by the end of the stream is taken for a whole line, so a cut integer is a shorter
  integer and a cut text a shorter text, unless the cut falls inside a character; a bulk reply is
  reported as an error unless it is cut right after its first byte; an array cut there is an empty
  one, and else only a cut inside its last item can pass unnoticed (`CutReplies.CutLine`,
  `CutReplies.CutBulk`, `CutReplies.CutReply`).
- The disk engine's expiry filter does not know the version tag, so it never drops a value in the
  current format (`Cache.FilterKeepsTagged`).
- In the RocksDB backend an update with a time to live of zero or less expires the link at once
  (`Rocks.UpdatedServedIff`), where the KV backend makes it live for ever
  (`KvNodes.UpdatedServedIff`), as the local store and its documentation do; the model follows the
  code.
- A bulk create in the RocksDB backend overwrites without looking. A lookup can tell the cache is
  there exactly when such a write gets a code whose cached entry is still served another url, or a
  row that expires before the entry does (`Rocks.CacheIsInvisibleIff`, `Rocks.BlindBatchServesOld`).
- Callers of the limiter pass whole costs. Its bound of one burst plus the refill holds exactly when
  the greediest client gains at most a minute's refill by starting with a full bucket, and its
  eviction is invisible exactly when that client gains nothing by idling for a minute
  (`RateExact.BoundedIff`, `RateExact.EvictionInvisibleIff`). For a whole burst both mean that a
  minute refills the bucket. For a fractional burst that is enough, and what is necessary differs from
  it by less than one millisecond's refill for the bound and two for invisibility
  (`RateExact.CoversIff`, `RateExact.GainsNothingIff`).
- A node of the KV backend goes on serving a cached url after another node changed it until the entry is
  more than the cache's time to live old, counted from when it was cached
  (`KvNodes.OldUrlServedIff`, `KvNodes.OldUrlKept`).
- A content length that does not fit 64 bits counts as no body, where every other length above the
  limit is refused (`MiniRequests.AskIs`); the bytes sent as the body are then read as requests.
- A malformed request closes the connection with the replies of its own read unwritten, so the
  bytes a client gets depend on how its bytes were split, and only then
  (`MiniServer.SplitInvisibleIff`).

## Model

| member | source | states |
|---|---|---|
| Codec.EscInto | src/codec.rs:8-29 | appends exactly the escaped form of the text |
| Codec.Itoa | src/codec.rs:33-50 | appends the decimal text of any 64-bit integer, with every index inside the 20-byte buffer |
| Codec.RowLineInto | src/codec.rs:53-71 | appends exactly the row record's line |
| Codec.HitLineInto | src/codec.rs:80-88 | appends exactly the hit record's line |
| Codec.DelLine | src/codec.rs:96-102 | produces exactly the tombstone's line |
| Codec.RowLineText | src/codec.rs:53-71 | a row line, written out character by character |
| Codec.HitLineText | src/codec.rs:80-102 | the lines of a hit and of a tombstone, written out |
| Codec.EscText | src/codec.rs:8-29 | each byte is escaped on its own |
| Codec.EscByteText | src/codec.rs:8-29 | the two-character escapes, the four-digit form for the other control characters, anything else as it is |
| Parser.Unescape | src/codec.rs:208-245 | the cursor loop computes the unescaped text, ill-formed UTF-8 replaced |
| Parser.ScanQuoted | src/codec.rs:156-169 | finds the closing quote past escapes and whether any escape was met, unterminated strings included |
| Parser.ParseOp | src/codec.rs:122-206 | the cursor-driven parser computes the field-by-field specification on every byte string, malformed ones included |
| RoundTrip.UnescapeInvertsEsc | src/codec.rs:208-245 | unescaping inverts escaping on every byte string |
| RoundTrip.RowRoundTrip | src/codec.rs:53-71 | a printed row parses back to itself, expiry null included |
| RoundTrip.HitRoundTrip | src/codec.rs:80-88 | a printed hit record parses back to itself |
| RoundTrip.DelRoundTrip | src/codec.rs:96-102 | a printed tombstone parses back to itself |
| RoundTrip.LineRoundTrip | src/codec.rs:122-206 | parsing inverts printing for every acceptable code, every UTF-8 url and all 64-bit integers |
| RoundTrip.LineIsOneLine | src/codec.rs:8-29 | a printed record is nonempty and holds no newline |
| ParsedObjects.ObjectRead | src/codec.rs:122-206 | for fields in any order, with any blanks, unknown and repeated keys: the parser reads the last text or number given for each first letter of a key, takes no null for an expiry, counts as zero what is no 64-bit integer, and rejects exactly the objects that name no code |
| ParsedObjects.EscapeRead | src/codec.rs:208-245 | what a backslash and one character stand for, whatever the character but u |
| ParsedObjects.ScalarRead | src/codec.rs:222-238 | four hexadecimal digits of either case stand for the UTF-8 bytes of their scalar value, half a surrogate pair for five characters |
| Bytes.DecimalRoundTrip | src/codec.rs:33-50 | decimal text of a 64-bit integer parses back to it |
| Aof.Log.Push | src/aof.rs:31-34 | queues the line and one newline, file untouched |
| Aof.Log.PushRaw | src/aof.rs:38-40 | queues the bytes verbatim |
| Aof.Log.Flush | src/aof.rs:47-53 | appends the queue to the file and empties it |
| Aof.Log.Truncate | src/aof.rs:62-72 | leaves file and queue empty |
| Aof.ReplayFile | src/aof.rs:81-92 | returns the complete nonempty lines of a file, torn tail ignored |
| Aof.TailReader.ReadNew | src/aof.rs:113-155 | one read delivers the lines completed by the bytes obtained and holds back the rest; a shrunk file is read from its start |
| Aof.TailEqualsSplit | src/aof.rs:113-155 | over any sequence of reads of a growing file, torn anywhere, the lines delivered are exactly the complete nonempty lines of the bytes read, once and in order; an observed shrink starts over |
| Aof.SplitInvertsUnlines | src/aof.rs:31-34 | splitting a file of lines and an unfinished tail returns them |
| Aof.SplitDropsEmpty | src/aof.rs:81-92 | empty lines are dropped and all others delivered as they are |
| Aof.SplitOfTornFile | src/aof.rs:81-92 | a file of lines cut at any byte splits into the lines completed before the cut |
| Aof.AppendAfterCut | src/aof.rs:18-27 | lines appended after a cut are split off again as written, after the completed ones, if and only if the cut is on a line boundary |
| TornAppend.RecordsAfterCut | src/aof.rs:18-27 | records appended after a log cut at any byte are all read back if and only if the cut is on a line boundary or the place of the cut in the torn line spares the first of them; otherwise that one is read as the record GluedRecord names or not at all, and the others are read back |
| TornAppend.GluedRecordIff | src/codec.rs:122-206 | the parser reads a torn line and a record glued to it as that record exactly when the cut spares it, decided field by field |
| TornAppend.GluedRecord | src/codec.rs:122-206 | wherever a line is cut and whatever record is glued to it: the record the parser then reads, or that it reads none |
| TornAppend.UrlTakenOver | src/codec.rs:122-206 | cut inside a field behind the url, the torn row's code comes back with the appended row's url |
| TornAppend.HitBecomesRow | src/codec.rs:122-206 | cut inside the first key of a row, an appended hit comes back as a row of its code with an empty url |
| TornAppend.ExpiryInherited | src/codec.rs:122-206 | cut between fields, a record of at least the torn one's kind is read as itself, except that a row without expiry takes over the torn row's |
| Aof.TornLogRecovery | src/aof.rs:81-92 | for every list of records and every byte cut of its log, replay and parse return exactly the records completed before the cut |
| Aof.LogRoundTrip | src/aof.rs:81-92 | a whole log replays to its records |
| Aof.TailDeliversOps | src/aof.rs:113-155 | tailing a log that grew delivers exactly the records its new bytes complete |
| Engine.AlphaIdx | src/store.rs:127-136 | finds the alphabet position of a byte, or -1 |
| Engine.PrefixNamesOwner | src/store.rs:268-271 | the prefix an instance stamps on its codes names that instance |
| Engine.ApplyView | src/store.rs:149-202 | folding a record into the whole memory acts on each code alone, unless that code's waiting hits are evicted |
| Engine.StrayKept | src/store.rs:171-180 | a code waiting for its row loses its hits to another code only to a hit of an unknown code while 10,000 codes are waiting, and only if it is the one picked |
| Engine.FoldViews | src/store.rs:204-209 | folding a log acts on each code alone |
| Engine.RowFoldForgets | src/store.rs:149-202 | a log either says nothing about a code's row or determines it, whatever the row was before |
| Engine.RowFoldIdempotent | src/store.rs:332-347 | folding a log again over its own result changes no row |
| LocalStores.GeneratedCodeIsOwned | src/store.rs:384-401 | every generated code is acceptable, has eight bytes and names its instance |
| LocalStores.SameCodeIff | src/store.rs:384-401 | two draws give the same code if and only if they agree byte by byte modulo 62 |
| LocalStores.ParsedFields | src/codec.rs:122-206 | every number the parser stores is a 64-bit integer |
| LocalStores.ParseRecord | src/store.rs:204-209 | a line stands for the operation it parses to, or for none |
| LocalStores.LocalStore.ApplyOp | src/store.rs:149-202 | the fold's branches, stray eviction included, compute the specified memory |
| LocalStores.LocalStore.ApplyLines | src/store.rs:204-209 | a batch of lines leaves memory as folding the records they decode to |
| LocalStores.LocalStore.LoadAll | src/store.rs:332-347 | boot leaves the fold of own snapshot, own log and sibling snapshots, and readers at the start of the sibling logs |
| LocalStores.LocalStore.Tail | src/aof.rs:113-155 | one sibling is read to its end and exactly what it delivered is folded |
| LocalStores.LocalStore.Poll | src/store.rs:212-224 | every known or newly listed sibling is read to its end, in some order, and exactly those records are folded |
| LocalStores.LocalStore.TailMissed | src/store.rs:361-382 | a miss on a code whose prefix names a sibling folds exactly the rest of that log and leaves its reader at the end; with an own or unknown prefix every known or listed sibling is read to its end when the last poll is 200 ms old, and nothing before |
| LocalStores.LocalStore.Resolve | src/store.rs:497-553 | memory is asked first; on a miss exactly the log the prefix names, or all of them, is read first and the answer is what memory then serves; a tracked success and nothing else bumps the counters and the unflushed count |
| LocalStores.LocalStore.Shorten | src/store.rs:415-450 | an alias is taken or minted, else the first free drawn code is minted, with expiry now plus a positive time to live and none otherwise; exactly its row is recorded; failures change nothing |
| LocalStores.LocalStore.FreeCode | src/store.rs:469-479 | the retry loop ends in a free, acceptable code of this instance |
| LocalStores.LocalStore.ShortenMany | src/store.rs:453-494 | codes are fresh, distinct, aligned with the urls, nothing else changes, and the rows are recorded in order in one write |
| LocalStores.LocalStore.Update | src/store.rs:571-601 | missing if and only if the code is not there, refused if and only if another instance owns it; otherwise new url and expiry, creation time, owner and counts kept, exactly one row recorded with hit count zero |
| LocalStores.LocalStore.Remove | src/store.rs:604-622 | the same owner rule; the row and nothing else leaves the index, exactly one tombstone recorded |
| LocalStores.LocalStore.FlushLocked | src/store.rs:751-768 | the file gains everything queued and then one hit line per unflushed code; nothing stays unflushed |
| LocalStores.DrainsSum | src/store.rs:751-768 | the lines a flush writes for a code add up to its unflushed count |
| LocalStores.LocalStore.Compact | src/store.rs:681-714 | the snapshot holds each own row once with its own count, the log is empty, nothing is unflushed |
| LocalStores.SnapshotRestores | src/store.rs:332-347 | folding a snapshot restores every own row with its own count and nothing else |
| LocalStores.CompactedFilesRestore | src/store.rs:681-714 | after compact the bytes of the two files alone restore exactly the own rows and own counts |
| StoreScenarios.LookupCounts | src/store.rs:497-525 | a lookup in memory serves an unexpired url, counts one hit when it does and changes nothing else |
| StoreScenarios.CreateThenLookup | src/store.rs:415-450 | a created link is served for its time to live, or for ever without one |
| StoreScenarios.CreateThenRestart | src/store.rs:415-450 | the same after a restart from the files |
| StoreScenarios.CreateThenPoll | src/store.rs:212-224 | the same on a sibling that has polled, which also learns creation time and owner |
| StoreScenarios.CreateThenMiss | src/store.rs:361-382 | the same on a sibling at its first lookup of a generated code, without a poll |
| StoreScenarios.CreateThenMissAlias | src/store.rs:361-382 | the same for an alias with an own or unknown prefix, when the sibling last polled 200 ms before |
| StoreScenarios.UpdateThenLookup | src/store.rs:571-601 | an updated link is served with the new url for the new time to live, for ever when that is not positive, or as long as before when none is given; creation time, owner, counts and other links stay |
| StoreScenarios.UpdateThenRestart | src/store.rs:571-601 | the same after a restart from the files |
| StoreScenarios.UpdateThenPoll | src/store.rs:212-224 | the same on a sibling that has polled, whatever it served before |
| StoreScenarios.RemoveThenLookup | src/store.rs:604-622 | a removed link is not served, other links stay |
| StoreScenarios.RemoveThenRestart | src/store.rs:604-622 | nor after a restart from the files |
| StoreScenarios.RemoveThenPoll | src/store.rs:212-224 | nor on a sibling that has polled |
| StoreScenarios.CreateManyThenLookup | src/store.rs:453-494 | each code of a batch is served with its own url for the batch's time to live |
| StoreScenarios.CreateManyThenRestart | src/store.rs:453-494 | the same after a restart from the files |
| StoreScenarios.CompactThenRestart | src/store.rs:681-714 | after compact a restart serves exactly the own links, as before and with their own hits |
| StoreScenarios.BootThenLookup | src/store.rs:332-347 | a boot finds a sibling's link in that sibling's snapshot alone |
| StoreScenarios.BootThenMiss | src/store.rs:332-347 | after a boot a lookup reads the sibling's log from its first byte |
| Cluster.RowInvRun | src/store.rs:394-401 | in every run, for a code minted only by its prefix owner, only the owner's log ever holds a row or tombstone of it and every instance's row is what it folded of that log |
| Convergence.RowFollowsOwner | src/store.rs:149-202 | at every moment of every run an instance's row is the one left by the part of the owner's log it has folded |
| Convergence.RowsConverge | src/store.rs:212-224 | two instances that have caught up serve the same url, creation time, expiry and owner |
| Convergence.InterleavingsAgree | src/store.rs:149-202 | any two interleavings of the logs of any run fold to the same row for every code, update and remove included |
| Convergence.InterleavingsAgreeIff | src/store.rs:420-430 | for any logs, tombstones included: all interleavings leave the same row of a code if and only if all logs that mention its row leave the same one |
| ClusterHits.HitInvRun | src/store.rs:158-201 | in every run each instance counts exactly the hits in the records it folded and its own unflushed ones, strays folded in once |
| Convergence.HitsConverge | src/store.rs:158-201 | when all have flushed and polled, every instance counts all successful resolves of the run less those lost unflushed in crashes |
| Convergence.HitsConvergeExactly | src/store.rs:497-553 | with reboots only after a flush every instance's count is the exact number of resolves |
| Convergence.UpdateForgetsHits | src/store.rs:596-599 | in any run, from an update on, memory counts more than a replay after a flush would by exactly the hits flushed before the update; they agree if and only if there were none |
| Convergence.FlushedMeansVisible | src/store.rs:361-382 | once the owner has flushed a code, resolve on any live instance answers its url while unexpired, whatever it had tailed before |
| Visibility.TailRefines | src/store.rs:361-382 | reading a sibling's log file to its end, wherever the reader stands, folds in the same memory as the cluster's tailing events and leaves the reader in step |
| Visibility.MissFindsFlushed | src/store.rs:527-552 | the store's lookup that misses in memory and reads the bytes of the owner's log answers a flushed code's url while unexpired |
| ByteCluster.BytesRefine | src/store.rs:212-224 | every run of N stores on bytes, however many bytes each read of a sibling's log obtains, is a run of the cluster on records: files and queues are the printed logs, memories are equal, every reader stands where its instance stands |
| ByteCluster.RowsConverge | src/store.rs:212-224 | in every such run two stores that have read all files to their end hold the same row |
| ByteCluster.LookupFinds | src/store.rs:527-552 | in every such run, once the owner's file holds a code's row, a lookup that misses and reads that file answers its url while unexpired |
| ByteCluster.MintIsServed | src/store.rs:415-450 | in every such run a code minted by its prefix owner, never updated or removed, is served by every sibling that misses and reads the owner's file once the row is in it: with the url given at the mint and for exactly the time to live given there |
| ByteCluster.MemoryServes | src/store.rs:497-525 | and the same by every instance that has it in memory |
| ByteCluster.LookupAnswers | src/store.rs:497-553 | and that is what the store object's lookup answers in the state of any instance of the run |
| Compaction.RowInvRun | src/store.rs:415-450 | in every interleaving of mutators, flushes, fsyncs, resolves, compact and reboots, replaying snapshot, log, queue and the one record still in flight gives the live row |
| Durability.AcknowledgedRowsSurvive | src/store.rs:681-714 | a row whose mutation has returned survives replay of snapshot, log and queue: truncate never discards it |
| DurableBytes.PrintableRun | src/codec.rs:53-102 | with acceptable inputs and counters within 64 bits, every record written, queued or under way in any run can be printed |
| DurableBytes.DurableOnBytes | src/store.rs:332-347 | in every such run the bytes of snapshot, log and queue decode to records that fold to the live row, and to the live own count up to the resolves counted twice and the hits inherited from a lost row, of which there are none unless a resolve preceded the record |
| DurableBytes.TornReplay | src/aof.rs:81-92 | after a crash that leaves any number of bytes, snapshot and log decode to the snapshot's rows and the completed records |
| Durability.CrashInCompactKeepsRows | src/store.rs:687-713 | from the moment compact has written the queue to its end a crash recovers all live rows |
| Durability.ThreeImagesAgree | src/store.rs:708-713 | old snapshot and log, new snapshot and log, new snapshot and empty log give the same rows |
| Durability.OverlapDecides | src/store.rs:575-620 | in any reachable state two overlapping mutations of one code by different threads, with any other events before and between, replay to the live row if and only if they are pushed in index order or both leave the same row |
| Durability.OverlappingUpdatesReorder | src/store.rs:575-599 | there is a run in which two overlapping updates leave the log with the row that lost |
| CompactionHits.HitInvRun | src/store.rs:497-525 | durable, drained and unflushed own hits are the counted resolves plus the double-counted and the inherited ones, at every step, for codes never updated, removed or evicted |
| Durability.CompactionCounts | src/store.rs:681-714 | for codes never updated, removed or evicted, compaction never undercounts; what replay and the unflushed count add up to exceeds the true count by exactly the overlapping resolves and the inherited hits |
| Durability.OvercountIsTheOverlap | src/store.rs:692-709 | the double-counted resolves are those whose first bump preceded the snapshot read and whose second followed the drain |
| Durability.CrashWhileCopying | src/store.rs:692-707 | a crash while compact copies rows recovers exactly the hits counted when it drained the code, and what the files already held too many |
| CrashHits.DeltasPositive | src/store.rs:759-762 | every hit delta queued, drained or logged is positive |
| CrashHits.Refold | src/store.rs:186-196 | folding a log with at most one row of a code again over a newer snapshot loses exactly the hits that had waited for that row |
| CrashHits.OrderRun | src/store.rs:751-768 | in every run hits stand ahead of their row exactly when a flush wrote some before the row was queued since the files were last replaced |
| CrashHits.CrashAfterRenameIff | src/store.rs:709-713 | a crash between rename and truncate recovers the hits flushed when compact drained the code if and only if there were no such early hits; otherwise it forgets exactly these |
| CrashHits.CrashAfterRenameKeepsHits | src/store.rs:709-713 | in every run in which no resolve of the code succeeds before its record is queued, that crash recovers at least the flushed hits |
| CrashHits.CrashInCompactKeepsHits | src/store.rs:687-713 | for such a code a crash at any point from the drain to the end of compact, and after it, recovers at least the hits counted before the drain |
| CrashHits.InheritedIff | src/store.rs:186-189 | in every run hits are recovered without their row if and only if the last boot found early hits whose row was lost, and no compact has renamed its snapshot since |
| CrashHits.RestartCountsIff | src/store.rs:681-714 | with nothing in flight a restart counts what memory counts if and only if no resolve was counted twice and no hit inherited |
| CrashHits.PatientCounts | src/store.rs:681-714 | for a code that nobody resolves before its record is queued, a restart counts what memory counts plus the resolves the last compact saw twice |
| CrashHits.HitInherited | src/store.rs:420-430 | there is a run in which a re-created code inherits a hit: memory counts none, the files one |
| CrashHits.EarlyHitForgotten | src/store.rs:186-196 | there is a run in which a hit flushed before its row is forgotten by that crash |
| Resp.WriteCmd | src/kv.rs:266-277 | appends the encoding of an array of bulk strings |
| Resp.Stream.TakeLine | src/kv.rs:295-299 | reads to the newline or the end of the stream and trims |
| Resp.Stream.TakeBody | src/kv.rs:301-306 | takes the bytes and two more, or fails |
| Resp.Stream.TakeResp | src/kv.rs:308-332 | the recursive reader computes the specified value and consumes exactly its bytes |
| Resp.Stream.TakeMany | src/kv.rs:322-329 | reads exactly that many replies in order |
| Resp.RoundTrip | src/kv.rs:308-332 | every nested canonical value, followed by anything, is read back and exactly its bytes are consumed |
| Resp.RoundTripIff | src/kv.rs:308-332 | a value is read back exactly if and only if it is canonical |
| Resp.CommandRoundTrip | src/kv.rs:266-277 | every written command parses back as itself |
| Resp.LineReplyText | src/kv.rs:308-314 | simple texts, errors and integers written out |
| Resp.BulkText | src/kv.rs:266-277 | bulk strings written out, the null one included |
| Resp.ArrayText | src/kv.rs:266-277 | an array is its header and then its items |
| Resp.OtherTag | src/kv.rs:330 | a reply with any other first byte, or none, is an error |
| Resp.NoNumber | src/kv.rs:311-329 | a length or integer that does not parse is zero, the null string, or no items |
| Resp.OddLengths | src/kv.rs:301-329 | negative lengths are the null string or no items, and the two bytes behind a body are not looked at |
| CutReplies.CutBulk | src/kv.rs:315-321 | a bulk reply cut by the end of the stream fails unless cut right after its first byte |
| CutReplies.CutLine | src/kv.rs:295-299 | any one-line reply cut by the end of the stream fails if and only if the cut is inside a character; otherwise the value read is the text that arrived, or the number without its last digits |
| CutReplies.CutReply | src/kv.rs:308-332 | the same for every canonical reply, nested to any depth and cut at any byte: exactly when it passes for a value, and for which |
| Bytes.LeadingDigits | src/kv.rs:311-314 | the first digits of a printed number are the number divided by a power of ten |
| KvPool.NextReply | src/kv.rs:73-76 | reading one reply of a pipeline yields the next answer and leaves the encoding of the others |
| KvPool.RepliesStayAligned | src/kv.rs:36-86 | in every interleaving of threads, with connections dropped anywhere, idle connections have no unread bytes and every reply handed out is the one meant for its command |
| KvPool.GivenBackComplete | src/kv.rs:79-85 | when a connection goes back its caller holds exactly the server's answers and the discarded read buffer is empty |
| Cache.CacheShard.Get | src/store_kv.rs:64-76 | answers only fresh unexpired entries; forgets exactly a stale one |
| Cache.CacheShard.Put | src/store_kv.rs:78-98 | keeps order duplicate-free, with the map's keys and within capacity; a full shard drops exactly its oldest entry |
| Cache.CacheShard.Remove | src/store_kv.rs:100-104 | removes the code from map and order |
| Cache.ValText | src/store_kv.rs:158-166 | the stored text of a value, written out |
| Cache.ValRoundTrip | src/store_kv.rs:158-180 | decoding inverts encoding for every 64-bit expiry and creation time and every UTF-8 url, bars included |
| Cache.UntaggedRoundTrip | src/store_kv.rs:167-180 | values without the version tag decode the same way |
| Cache.OldestFormIff | src/store_kv.rs:172-179 | the oldest form, expiry and url, comes back if and only if the url has no bar |
| Cache.DroppedIsDead | src/store_rocks.rs:61-76 | what the expiry filter drops is expired, now and later |
| Cache.FilterKeepsTagged | src/store_rocks.rs:61-76 | the filter never drops a value in the current format |
| Cache.FilterDropsUntagged | src/store_rocks.rs:61-76 | on older formats it drops exactly the expired values |
| Rocks.ResolveAgrees | src/store_rocks.rs:257-272 | a coherent cache answers what the database would and stays coherent |
| Rocks.CoherentIff | src/store_rocks.rs:257-272 | for any cache and database: all later lookups agree with the database if and only if every entry still served says what the stored row says for as long as it is served |
| Rocks.BatchAgreesIff | src/store_rocks.rs:307-328 | after a blind bulk create on a coherent cache all later lookups agree if and only if it masks no row behind an entry still served |
| Rocks.CacheIsInvisible | src/store_rocks.rs:243-359 | over every run in which no bulk create masks a row, answers, rows and hit counts equal those of the backend without its cache |
| Rocks.CacheIsInvisibleIff | src/store_rocks.rs:243-359 | for every run: no lookup at any moment, then or later, can tell the cache is there if and only if no bulk create masked a row |
| Rocks.BlindBatchServesOld | src/store_rocks.rs:311-317 | a bulk create over a stored and cached code leaves the old url being served |
| Rocks.UpdatedServedIff | src/store_rocks.rs:330-342 | in every run, after an update with a time to live the new url is served if and only if less than it has passed, so never when it is zero or less |
| RocksStores.RocksStore.Row | src/store_rocks.rs:243-255 | the unexpired row, or none with an expired one deleted |
| RocksStores.RocksStore.Resolve | src/store_rocks.rs:257-272 | the read-through lookup on stored bytes is the value-level one |
| RocksStores.RocksStore.PutNx | src/store_rocks.rs:275-287 | inserts only if the key is absent |
| RocksStores.RocksStore.ShortenMany | src/store_rocks.rs:307-328 | writes every row in order without looking |
| RocksStores.RocksStore.Update | src/store_rocks.rs:330-342 | changes an unexpired row and drops it from the cache |
| RocksStores.RocksStore.Remove | src/store_rocks.rs:344-359 | deletes an unexpired row and drops it from the cache |
| RocksStores.LinkTable.Filter | src/store_rocks.rs:61-76 | the expiry filter removes nothing but a dead row |
| RocksRows.RemoveAnswers | src/store_rocks.rs:344-359 | in every run a removal succeeds if and only if an unexpired row is stored, and changes no other row, with the cache and without it |
| RocksRows.RemovedIsGone | src/store_rocks.rs:344-359 | in every run, once a removal succeeded no lookup finds the link until it is created again, whatever else happens, with the cache and without it |
| RocksRows.CreatedIsServed | src/store_rocks.rs:289-305 | in every run a creation succeeds if and only if no row is stored, and then the link is served for its time to live until somebody changes it |
| RocksRows.BatchIsServed | src/store_rocks.rs:307-328 | in every run each code of a batch is served with the last url given for it, for the batch's time to live, whatever was stored before |
| RocksRows.HitsCounted | src/store_rocks.rs:190-195 | in every run the unflushed count of a code is the number of its lookups that got a url, with the cache and without it |
| KvNodes.ServedIsRecent | src/store_kv.rs:336-354 | in every run of any number of nodes a served url was held by the server at some moment of the last ttl milliseconds and has not expired |
| KvNodes.UpdatedServedIff | src/store_kv.rs:336-354 | in every run, after a node's update with a time to live the node serves the new url if and only if less than it has passed or it is not positive |
| KvNodes.CreatedIsServed | src/store_kv.rs:358-400 | in every run a link created where none is stored is served for its time to live by every node that had not cached an older one, until somebody changes or drops it |
| KvNodes.RemovedIsGone | src/store_kv.rs:484-507 | in every run the node that removed a link, and every node that had not cached it, never serves it again until it is created anew |
| KvNodes.OldUrlServedIff | src/store_kv.rs:64-76 | in every run, after another node's update a node that had cached the link answers the old url if and only if its entry is at most ttl old, counted from caching, or ttl is not positive, and has not expired; otherwise the new row |
| KvNodes.OldUrlKept | src/store_kv.rs:336-354 | whatever other nodes do and however often it is asked, a node goes on serving an entry that is at most ttl old and has not expired |
| KvHits.HitSlotsApart | src/store_kv.rs:134-153 | two codes never share a counter in either layout |
| KvHits.SlotNames | src/store_kv.rs:128-153 | where the row and the counter of a code are, in either layout |
| KvHits.RowAndCounterCollideIff | src/store_kv.rs:128-153 | a row and a counter share a place only in the hash layout and only for a code with the counter prefix, which no acceptable code has |
| KvHits.HitsConserved | src/store_kv.rs:284-334 | over every run, for a code never removed, stored counter, unflushed counts and increments under way add up to the tracked resolves |
| KvHits.ReportIsExact | src/store_kv.rs:611-652 | a node reports the exact count once the others have flushed |
| KvHits.HitBuffer.Bump | src/store_kv.rs:329-334 | adds one to the code's count when tracking |
| KvHits.HitBuffer.DrainAll | src/store_kv.rs:284-307 | empties the counts into increments that add up to each code's count |
| MergeHits.MergeLoop | src/store_rocks.rs:47-58 | the operator returns the sum modulo 2^64, ignoring operands that are not eight bytes |
| MergeHits.LeRoundTrip | src/store_rocks.rs:48-57 | little-endian bytes hold the value modulo their range |
| MergeHits.GroupingIsIrrelevant | src/store_rocks.rs:47-58 | any nesting of partial merges gives the same stored counter |
| MergeHits.MergeInTwo | src/store_rocks.rs:47-58 | merging in two goes is merging once |
| MergeHits.CounterConserved | src/store_rocks.rs:190-228 | merged counter, counts under way and unflushed count add up to the resolves modulo 2^64 over every run |
| RateLimit.Limiter.Allow | src/ratelimit.rs:63-86 | disabled at rate zero; otherwise sweep, refill, spend as specified |
| RateLimit.TokensInRange | src/ratelimit.rs:77-84 | in every run every bucket holds between 0 and burst tokens |
| RateLimit.StayAlike | src/ratelimit.rs:70-76 | when a minute refills a bucket, the limiter with eviction grants the same calls as one without |
| RateLimit.Budget | src/ratelimit.rs:77-84 | granted and remaining tokens of a key fit into one bucket and the refill since |
| RateLimit.GrantedIsBounded | src/ratelimit.rs:63-86 | when a minute refills a bucket, in any stretch of any run, whatever the costs, a key is granted at most burst plus rate times its duration |
| RateLimit.GrantedIff | src/ratelimit.rs:63-86 | in every run, whatever the costs, the limiter that never forgets grants a call if and only if no stretch of the run that ends with it would then exceed one burst plus the refill over its duration; when a minute refills a bucket so does the limiter with eviction |
| RateLimit.FewKeysAreKept | src/ratelimit.rs:70-72 | with fewer than 4096 keys nothing is ever forgotten, whatever the limit |
| RateLimit.RememberedAreRecent | src/ratelimit.rs:70-72 | whenever more than 4096 keys are remembered, all of them called within the last minute |
| RateExact.FullHaul | src/ratelimit.rs:77-84 | no client with whole costs gets more from the limiter that never forgets than the greedy one |
| RateExact.BoundedIff | src/ratelimit.rs:63-86 | for whole costs that bound holds of the evicting limiter in every run if and only if the greedy client gains at most a minute's refill by starting with a full bucket |
| RateExact.CoversIff | src/ratelimit.rs:44-60 | for this it is enough that a minute refills the burst, and necessary that a minute and a millisecond refill more; for a whole burst the former is exact |
| RateExact.EvictionInvisibleIff | src/ratelimit.rs:70-76 | for whole costs eviction never changes an answer in any run if and only if the greedy client gains nothing by idling for a minute between two spells |
| RateExact.GainsNothingIff | src/ratelimit.rs:44-60 | for this it is enough that a minute refills the burst, and necessary that a minute and two milliseconds refill more; for a whole burst the former is exact |
| Metrics.RingIsHistory | src/metrics.rs:95-122 | for every run on a clock that never goes back, gaps of any length included, each slot holds the exact count of its second |
| Metrics.WindowIsHistory | src/metrics.rs:126-135 | each of the 31 reported numbers is the exact count of its second |
| Metrics.Counters.Advance | src/metrics.rs:112-116 | zeroes the slots of all skipped seconds |
| Metrics.Counters.Tick | src/metrics.rs:102-122 | the arrays stay the ring of the history with this request added |
| Metrics.Counters.Snapshot | src/metrics.rs:126-135 | the filled window is the history's counts |
| MiniServer.ServeMore | src/server_mini.rs:125-192 | bytes that arrive later are served as if they had been there, from where serving waits |
| MiniServer.SameCalls | src/server_mini.rs:91-207 | however the bytes are split, the handler gets the same requests and bodies |
| MiniServer.SameReplies | src/server_mini.rs:194-202 | without a malformed request one reply per request is written, in order, however the bytes are split |
| MiniServer.SplitInvisibleIff | src/server_mini.rs:130-134 | the bytes written depend on the split if and only if a malformed request follows a good one |
| MiniServer.NextRequest | src/server_mini.rs:126-174 | one turn of the inner loop: incomplete, malformed, oversized, or a request with its body |
| MiniServer.ServeBuffer | src/server_mini.rs:125-192 | the inner loop serves exactly the complete requests in the buffer |
| MiniServer.HandleConn | src/server_mini.rs:103-206 | the connection loop makes the calls and writes the bytes of the specified reads |
| MiniRequests.ClosesIff | src/server_mini.rs:67-72 | the connection is kept unless the first connection header says close in any letter case or, without that header, the version is not 1.1 |
| MiniRequests.AskIs | src/server_mini.rs:138-165 | POST and PATCH, and no other verb, have a body of the announced content length; a longer one than 4 KiB, or 1 MiB on the bulk path whatever its query, is too long |
| MiniRequests.RequestServed | src/server_mini.rs:125-192 | serving a head, its announced body and more calls the handler with exactly that body and goes on with the rest, or stops if the connection is to be closed |
| MiniRequests.TooLongRefused | src/server_mini.rs:152-164 | a body announced too long ends the connection before any of it is looked at |
| MiniRequests.PartWaits | src/server_mini.rs:165-168 | a body that has not fully arrived is waited for |
| MiniRequests.OneRequest | src/server_mini.rs:103-206 | however the bytes of one request arrive, the connection makes one call with the announced body and writes its reply |
| MiniRequests.OneRefused | src/server_mini.rs:152-164 | a request refused for its length makes no call and gets the refusal only |

## Left out

- The 256 lock shards of the local store, the KV cache and the dirty maps, and the 64 of the
  limiter, are one map each; the choice of shard is modelled only where it names a KV bucket.
- Hit counters of the local store are unbounded integers; their 64-bit wrap-around is not modelled.
  Times and expiries are required to fit 64 bits where a record is printed.
- File, KV and database operations succeed unless a crash step is modelled. In particular the real
  compact truncates the log even if the snapshot's temporary file cannot be created.
- Clocks never go back, and the metrics clock is at least 30 seconds past its epoch.
- LocalStores.LocalStore.Shorten: the retry loop over random codes is given a finite list of draws
  and answers NoDraw when they run out; its termination with probability one is not stated.
- LocalStores.LocalStore.ShortenMany: the same, with a list of spare draws.
- LocalStores.LocalStore.Resolve: one step, where the code releases the shard lock between the two
  bumps; the split is in Compaction.
- StoreScenarios.CreateThenPoll: and the other scenarios: the logs read hold whole printed records whose
  numbers fit 64 bits, and no further file brings anything new; arbitrary interleavings are ByteCluster's.
- ByteCluster.MintIsServed: codes never updated or removed; what updates and removals leave is stated by
  Convergence.RowFollowsOwner and the scenarios.
- MiniRequests.AskIs: content lengths printed as plain decimals; the model reads the other spellings too.
- Convergence.HitsConverge: codes never updated, never removed, minted by their prefix owner and
  never evicted from a stray map, in runs without compaction; a removed code leaves its unflushed
  count behind and a re-created one can inherit it.
- Cluster.RowInvRun: a crash loses whole queued records, never part of one, and so does
  Compaction.RowInvRun; torn bytes are treated in TornAppend and DurableBytes, and no run continues a
  log behind a torn line.
- ByteCluster.BytesRefine: inputs the API accepts and unflushed counts that fit 64 bits, files that only
  grow, and writes that are whole; Compaction's runs are tied to bytes by DurableBytes only.
- Visibility.TailRefines: and Visibility.MissFindsFlushed assume a reader in step and a printable log;
  ByteCluster.BytesRefine proves both of every run.
- Convergence.RowsConverge: runs without compaction, because compact snapshots only own rows and
  siblings read snapshots only at boot.
- Durability.CompactionCounts: and all other statements about counts: codes never updated or removed, and
  never named as a candidate for eviction from the stray map at a boot; the row theorems need none of
  this.
- DurableBytes.DurableOnBytes: inputs the API accepts, and hit counters that fit 64 bits.
- LocalStores.CompactedFilesRestore: own rows must be printable, which holds of rows the API made but
  not of every row a foreign log file could hold.
- RateExact.BoundedIff: costs are whole numbers of at least one, as all callers pass.
- Rocks.UpdatedServedIff: the clock is past zero.
- RocksStores.RocksStore.ShortenMany: code generation, and the retry after a failed batch.
- RocksStores.RocksStore.Remove: the stored hit counter it deletes with the row.
- Metrics.Counters.Tick: one thread at a time; the lost compare-exchange is not modelled.
- KvNodes.ServedIsRecent: a resolve's read of the server and its cache write are one step.
- Rocks.CacheIsInvisible: each operation is one step, and rows are decoded values.
- KvHits.HitsConserved: flushes succeed; a failed pipeline loses the deltas it drained.
- MiniServer.SameReplies: the reply to a call is a function of the connection's own calls so far.
- The key and hash layouts differ by design in alias creation and update on expired rows; only the
  places of rows and counters are modelled for both.
- Floating-point rounding in the limiter and in the reported request rate.
- Claiming an instance id through lock files; instance ids are given and distinct.
- Concurrent ticks of the metrics ring, the Prometheus text, listing and its pagination, and
  `base62::encode`, which would add only easy members.
- Routing, JSON bodies and url validation, the hyper frontend, the command-line tools, the load
  generator, scripts and the user interface.
