# Verification models

Dafny models of the small algorithms in this repository whose correctness is hard to see by
reading: two thread pools, two row stores, a counting-sort lookup, a packed file format, a
fixpoint over files that pin each other's digests, an overlap schedule for two GPU streams,
and several numeric cores. `dafny verify dfyconfig.toml` checks everything.

| file | subject |
|---|---|
| `VocabLookup.dfy` | the whole vocabulary lookup: pool, reads of all threads, failure bits and outputs as one system |
| `EngramLookup.dfy` | the whole Engram lookup: pool, fetches of all threads and outputs as one system |
| `EngramPool.dfy` | the process-wide pool of the Engram row store: atomic tickets, two condition variables, as a transition system over all interleavings |
| `VocabPool.dfy` | the pool of the vocabulary store, which closes its job under the mutex |
| `RowCache.dfy`, `RowStore.dfy` | the set-associative cache as a value, every interleaving of fetches, and the store as an object |
| `EngramTable.dfy`, `PackedLayout.dfy` | the immutable table, the packed shard format, its writer and its reader |
| `PrimeBuckets.dfy` | prime bucket sizes and the partition of the table between ranks |
| `GroupedLookup.dfy` | the lookup grouped by lock stripe, against the sequential loop |
| `VocabStore.dfy` | the direct-mapped vocabulary cache with sticky failures |
| `SourcePins.dfy`, `PinFiles.dfy`, `PinRefresh.dfy` | the propagation of source pins, the names of the files it concerns, and the refresh of the requirements after it |
| `DcpSchedule.dfy`, `DcpHeads.dfy`, `DcpTransport.dfy`, `DcpRanks.dfy` | the overlap schedule as commands on two streams, what it launches and overlaps, the objects that submit it, and every interleaving of both ranks |
| `AttentionMerge.dfy`, `PayloadLayout.dfy` | the distributed attention merge and the wire payload |
| `ExpertDispatch.dfy`, `PrefixEma.dfy`, `Intervals.dfy`, `DraftVocab.dfy` | expert dispatch, prefix survival, busy-time measure, vocabulary subset |
| `Prelude.dfy`, `Threads.dfy` | shared vocabulary |

Conventions. Atomics and mutex sections are sequentially consistent steps. A file is an
immutable byte sequence. An aborting call returns an error value, a raised exception the
result `false`. A digest is an injective constructor of the file it was taken of. Arithmetic
that the repository does in floating point is over exact reals; an exponential is known by
its laws alone. Calls that return one of several admissible results (sorting with ties, the
iteration order of a set, which thread takes which row) are given all of them.

Where the code does not do what one would expect:

- A round of pin propagation is right exactly when it is coherent (`RoundIsRightIffCoherent`):
  if a pinned digest, or the one it should become, is shared by files whose current digests
  differ, some order of the replacements redirects the pin. The results about whole runs hold
  for coherent rounds. Where the loop stops, a pin is right for all its files if and only if
  these agree, whatever the rounds were like (`StoppedPinIsRightIff`). A condition on the
  shapes of the files, checkable before the run, makes all rounds coherent
  (`SeparateIsEnough`) and is needed by no other result.
- The requirements file is refreshed by a single lookup, which misses a digest that becomes
  current again (`RefreshIsRightIff`, `MissedRefresh`). That takes an edit that puts a
  former digest back into a file and leaves all else in it. `transform` replaces digests only in
  `serving/cooperative-native.json`, together with the numbers beside them: the file's shape
  changes unless all of these were in the parent already, and then no file comes back to a
  former digest (`RefreshNeverMisses`).
- `row_store_range` guards pinned scales against a moving range but not an attached packed
  shard, although both are indexed from the range start (`MovedRangeServesOtherRows`,
  `AnyRangeOfWrittenShard`, `MoveBreaksShard`). `ShardRightIff` gives the guard.
- The prefix minima of `observe` never change anything in exact arithmetic: the update keeps
  nonincreasing estimates in order by itself, also after censored observations
  (`UpdateIsExact`). The comment in the code expects that censoring could invert the tail.
- The subset builder divides by the corpus size, so an empty corpus ends in an error before
  anything is written (`Build`).

## Model

| member | source | states |
|---|---|---|
| `EngramPool.StepKeeps` | release/experimental/engram_io/row_store_core.cpp:202-272 | every step of the caller or a worker, spurious wakeups included, keeps the pool invariant: claimed tickets are held by exactly one thread or finished, `remaining` counts the unfinished ones, `active` counts the workers inside drain |
| `EngramPool.InitInv` | release/experimental/engram_io/row_store_core.cpp:195-198 | the freshly constructed pool satisfies the invariant |
| `EngramPool.ExecutionKeeps` | release/experimental/engram_io/row_store_core.cpp:202-272 | every execution of any length keeps the invariant |
| `EngramPool.ServedExactlyOnce` | release/experimental/engram_io/row_store_core.cpp:202-250 | whenever a run has returned, each of its chunks has been served exactly once, over every interleaving |
| `EngramPool.NoServiceAfterReturn` | release/experimental/engram_io/row_store_core.cpp:216-225 | a chunk is only ever served for the run that is published and has not returned |
| `EngramPool.CounterResetIsSafe` | release/experimental/engram_io/row_store_core.cpp:207-218 | the ticket counter moves back only while no worker is inside drain |
| `EngramPool.FinishIsQuiescent` | release/experimental/engram_io/row_store_core.cpp:219-224 | when the wait of run is over, all its chunks are done and no worker is inside drain |
| `EngramPool.NoLostWakeup` | release/experimental/engram_io/row_store_core.cpp:219-223 | a caller asleep on `done_` always has a worker inside drain, and a worker that leaves wakes it |
| `EngramPool.Progress` | release/experimental/engram_io/row_store_core.cpp:216-271 | while a run is in progress some thread can move without a spurious wakeup |
| `EngramPool.EveryRunReturns` | release/experimental/engram_io/row_store_core.cpp:202-272 | an execution with n spurious wakeups has at most Measure + 10n steps, and can only stop once run has returned |
| `EngramPool.CallerAlone` | release/experimental/engram_io/row_store_core.cpp:216-216 | with no worker inside drain the caller alone finishes the whole run |
| `EngramPool.ChunksTile` | release/experimental/engram_io/row_store_core.cpp:206-244 | the chunks of a work tile its ids: every index belongs to exactly one ticket |
| `EngramLookup.StepKeeps` | release/experimental/engram_io/row_store_core.cpp:123-250 | every step of the pool, of a thread at an id, or of a fetch keeps the invariant of the whole: what is written is exactly the chunks served and the passed part of the chunks held, each cell is right, and the fetches are counted |
| `EngramLookup.ExecutionKeeps` | release/experimental/engram_io/row_store_core.cpp:123-250 | every interleaving of these steps keeps it, over any number of runs and stores |
| `EngramLookup.EveryLookupDelivers` | release/experimental/engram_io/row_store_core.cpp:123-250 | whenever run returns, over every interleaving of pool and fetch steps: exactly the outputs of its ids are written, each delivers what its id demands, no id lies past the table, and hits + misses has grown by the owned ids |
| `EngramLookup.QuietBetweenRuns` | release/experimental/engram_io/row_store_core.cpp:216-225 | between two runs no fetch is under way in any store |
| `EngramLookup.Progress` | release/experimental/engram_io/row_store_core.cpp:123-250 | while a run whose ids lie in the table is in progress, some thread can move without a spurious wakeup |
| `EngramLookup.EveryLookupReturns` | release/experimental/engram_io/row_store_core.cpp:202-272 | such a lookup ends: at most Measure + 10n steps for n spurious wakeups, and it only stops once run has returned |
| `VocabPool.StepKeeps` | release/experimental/host_roundtrips/ds41_vocab_row_store.cpp:105-132 | every step keeps the invariant of the job pool that counts joined workers only |
| `VocabPool.ServedExactlyOnce` | release/experimental/host_roundtrips/ds41_vocab_row_store.cpp:179-195 | after the caller has closed the job and seen `remaining == 0`, every queue position of the run has been served exactly once |
| `VocabPool.QueueWritesAreExclusive` | release/experimental/host_roundtrips/ds41_vocab_row_store.cpp:165-178 | while the caller rewrites `order` and `order_count`, no worker is inside drain |
| `VocabPool.JoinsOpenJobOnce` | release/experimental/host_roundtrips/ds41_vocab_row_store.cpp:118-126 | a worker only joins a job that is open, and never the same one twice |
| `VocabPool.NoServiceAfterReturn` | release/experimental/host_roundtrips/ds41_vocab_row_store.cpp:105-111 | no queue position is served for a run that has returned |
| `VocabPool.NoLostWakeup` | release/experimental/host_roundtrips/ds41_vocab_row_store.cpp:127-131 | a caller asleep in its wait always has a joined worker that will notify it |
| `VocabPool.EveryRunReturns` | release/experimental/host_roundtrips/ds41_vocab_row_store.cpp:182-195 | runs terminate: at most Measure + 10 steps for each wakeup, whether helpers wake or not |
| `EngramTable.Table.ExtentTest` | release/experimental/engram_io/row_store_core.cpp:349-351 | the overflow-free extent test of open accepts exactly the tables that fit their file |
| `EngramTable.PagedRowStaysInPage` | release/experimental/engram_io/row_store_core.cpp:141-145 | a page15 row lies in one page, so each miss requests exactly 4096 bytes |
| `EngramTable.DenseRowCrossesPage` | release/experimental/engram_io/row_store_core.cpp:141-145 | exactly which rows of the dense layout cross a page: those with 33 n mod 512 above 479 |
| `PackedLayout.LittleEndianRoundTrip` | release/experimental/engram_io/packing.py:86-86 | the eight bytes of a header word decode to the word |
| `PackedLayout.HeaderWordAt` | release/experimental/engram_io/packing.py:81-86 | each of the eight header words, magic number, layer, range, rows and geometry, is read back from its place |
| `PackedLayout.BodyAppend` | release/experimental/engram_io/packing.py:129-151 | chunks of a multiple of fifteen rows concatenate to the body of all rows, in both layouts |
| `PackedLayout.BodyRowAt` | release/experimental/engram_io/packing.py:89-93 | every row of a body lies at the position the reader computes |
| `PackedLayout.PagedPositionClosed` | release/experimental/engram_io/packing.py:92-93 | the recursive page layout and the closed form of the offset agree |
| `PackedLayout.PagesRoundUp` | release/experimental/engram_io/pack_rank.py:72-72 | the number of pages is the rounded-up quotient |
| `PackedLayout.Pack` | release/experimental/engram_io/packing.py:96-160 | the writer fails on bad shapes and otherwise writes exactly header, rows and padding, whatever the chunk size |
| `PackedLayout.FillPage` | release/experimental/engram_io/packing.py:141-150 | a zeroed page with its rows in their slots, weight before scale, is the page of the layout |
| `PackedLayout.ChunkDense` | release/experimental/engram_io/packing.py:137-139 | the dense grid of a chunk holds its rows side by side |
| `PackedLayout.ChunkPaged` | release/experimental/engram_io/packing.py:140-150 | full pages and a page for the rest hold the rows of a chunk |
| `PackedLayout.RawRowsAreTable` | release/experimental/engram_io/packing.py:129-136 | the bytes read for a chunk are the rows of the table |
| `PackedLayout.WriteRows` | release/experimental/engram_io/packing.py:129-151 | the chunk loop reads, lays out and appends chunk after chunk, which gives the body of the whole range |
| `PackedLayout.ShardIsExact` | release/experimental/engram_io/pack_rank.py:71-74 | a written shard has the predicted size and holds weight and scale of every row of the range at its position |
| `PackedLayout.ShardPastEnd` | release/experimental/engram_io/packing.py:141-160 | behind its last row a written shard yields zeros, as far as the file goes |
| `PackedLayout.WrittenShardAttaches` | release/experimental/engram_io/row_store_core.cpp:402-444 | the reader accepts the header and size of every written shard, with the right layout |
| `PackedLayout.CutShardIsRefused` | release/experimental/engram_io/row_store_core.cpp:402-444 | of a written shard every beginning that lacks a row is refused, without its header or as truncated, and a second attachment is refused as well |
| `PrimeBuckets.IntegerRoot` | release/experimental/engram_io/packing.py:65-65 | the integer square root |
| `PrimeBuckets.TrialDivision` | release/experimental/engram_io/packing.py:62-65 | trial division by 2 and the odd numbers up to the root decides primality |
| `PrimeBuckets.OddDivisor` | release/experimental/engram_io/packing.py:65-65 | the loop over odd candidates finds a divisor exactly when there is one up to the root |
| `PrimeBuckets.PrimeAbove` | release/experimental/engram_io/packing.py:72-72 | there is a prime above every number (Euclid), so the search terminates |
| `PrimeBuckets.NextSize` | release/experimental/engram_io/packing.py:71-73 | the search returns the least unseen prime from the running value on |
| `PrimeBuckets.LayerSizes` | release/experimental/engram_io/packing.py:67-73 | although `current` restarts for each n-gram order, a layer continues the list of first primes |
| `PrimeBuckets.FirstPrimesUnique` | release/experimental/engram_io/packing.py:58-78 | the list of the first n primes from a start on is unique |
| `PrimeBuckets.FirstPrimesAppend` | release/experimental/engram_io/packing.py:72-73 | the next unseen prime extends the list of first primes |
| `PrimeBuckets.PlanLayer` | release/experimental/engram_io/packing.py:66-77 | one layer: its sizes continue the list, and it is rejected exactly when they do not fit its rows |
| `PrimeBuckets.Partitions` | release/experimental/engram_io/packing.py:66-78 | over all layers the sizes are exactly the first primes from the vocabulary size on; each plan keeps its layer, rows and split; all fit, or the last one does not: the first misfit ends the plan |
| `PrimeBuckets.PlansSplitOnHeads` | release/experimental/engram_io/packing.py:74-77 | the two ranges tile the rows and every head lies in one of them |
| `RowCache.HitIsExact` | release/experimental/engram_io/row_store_core.cpp:126-135 | a hit returns the bytes of the table row, for an id that exists |
| `RowCache.FillKeepsValid` | release/experimental/engram_io/row_store_core.cpp:156-163 | a fill keeps the cache invariant and makes the row a hit |
| `RowCache.DifferentStripesCommute` | release/experimental/engram_io/row_store_core.cpp:125-127 | critical sections under different locks touch different slots, so they commute |
| `RowCache.CacheFitsBudget` | release/experimental/engram_io/row_store_core.cpp:362-364 | rows, keys and cursors never exceed the byte budget, and one more set would |
| `RowCache.FilledRowStays` | release/experimental/engram_io/row_store_core.cpp:156-163 | a row that was filled stays until its set has been filled `ways` more times: the victim cursor goes round all ways |
| `RowCache.EveryInterleavingIsExact` | release/experimental/engram_io/row_store_core.cpp:123-164 | for every interleaving of fetches, reads outside the lock and duplicate fills included, returned rows are exact, and hits + misses counts the fetches |
| `RowStore.Store.constructor` | release/experimental/engram_io/row_store_core.cpp:332-376 | open: the cache is empty and sized from the budget, the ways are clamped to 1..16, RAM mode has no cache |
| `RowStore.Store.ReadFrom` | release/experimental/engram_io/row_store_core.cpp:101-116 | a read at any offset delivers exactly the requested bytes if at least as many have come as lie before their end in the pages read, and aborts if and only if fewer have; device reads and bytes are counted by whole pages |
| `RowStore.DeliversBytes` | release/experimental/engram_io/row_store_core.cpp:169-185 | what an output must hold, byte by byte: the row of the id in the checkpoint, or zeros for an id of another store |
| `RowStore.RequestIsTight` | release/experimental/engram_io/row_store_core.cpp:106-110 | a request is a whole number of pages, reaches the end of what is wanted and no page further |
| `RowStore.Store.CompleteIsNotShort` | release/experimental/engram_io/row_store_core.cpp:111-112 | a device that returns all that was asked for makes no read abort that lies in its file |
| `RowStore.Store.ReadWeight` | release/experimental/engram_io/row_store_core.cpp:150-150 | the first read of a miss from the checkpoint |
| `RowStore.Store.ReadScale` | release/experimental/engram_io/row_store_core.cpp:154-154 | its second read, without pinned scales |
| `RowStore.Store.Miss` | release/experimental/engram_io/row_store_core.cpp:138-164 | the part behind a missed probe: it aborts if and only if a read that it made was short |
| `RowStore.Store.FindWay` | release/experimental/engram_io/row_store_core.cpp:129-135 | the scan of a set finds the first matching way |
| `RowStore.Store.Probe` | release/experimental/engram_io/row_store_core.cpp:126-136 | a probe returns what the cache holds for the id and counts a hit |
| `RowStore.Store.Insert` | release/experimental/engram_io/row_store_core.cpp:156-163 | a fill overwrites the victim way, advances the cursor and keeps the cache valid |
| `RowStore.Store.PinScales` | release/experimental/engram_io/row_store_core.cpp:292-328 | the span by span copy of the owned scales is exact whatever the reads return, or nothing is pinned; it is pinned if there is memory and no read fails |
| `RowStore.Store.ReadPacked` | release/experimental/engram_io/row_store_core.cpp:139-146 | a miss from a packed shard is one read and yields the row; from page15 it is 4096 bytes |
| `RowStore.Store.ReadCheckpoint` | release/experimental/engram_io/row_store_core.cpp:147-154 | a miss from the checkpoint yields the row, with one read when the scales are pinned and two otherwise |
| `RowStore.Store.ReadRow` | release/experimental/engram_io/row_store_core.cpp:138-154 | a miss yields the exact table row from whichever source, with one device read or two; it aborts if and only if one of these was short |
| `RowStore.Store.FetchRow` | release/experimental/engram_io/row_store_core.cpp:123-164 | the fetched row is the table row; hits grows if the cache held it, misses if not; a page15 miss costs 4096 bytes; it aborts if and only if a read that it made was short, so never on a hit |
| `RowStore.Store.ServeOne` | release/experimental/engram_io/row_store_core.cpp:169-185 | one id: exact row, or zeros for dead and foreign ids; it aborts if and only if the id is out of bounds or a read was short |
| `RowStore.Store.Serve` | release/experimental/engram_io/row_store_core.cpp:166-187 | a ticket delivers every id of its range and touches no other output; hits + misses grows by the owned ids; it aborts only for an id out of bounds or, exactly then, for a short read |
| `RowStore.Store.SetRange` | release/experimental/engram_io/row_store_core.cpp:446-457 | moving under pinned scales or out of bounds aborts; otherwise the range is replaced, the new scales are pinned if asked for and no read fails, and the store stays valid if and only if an attached shard holds the rows of the new range |
| `RowStore.Store.AttachPacked` | release/experimental/engram_io/row_store_core.cpp:402-444 | missing and foreign shards are ignored, broken ones abort, a matching one is attached unread; the store stays valid if and only if that one holds the rows of the range |
| `RowStore.MovedRangeServesOtherRows` | release/experimental/engram_io/row_store_core.cpp:446-453 | moving any range that is no longer than the attached one keeps a shard right if and only if every new row equals the row at its distance from the old start |
| `RowStore.AnyRangeOfWrittenShard` | release/experimental/engram_io/row_store_core.cpp:446-453 | for any new range whatever: the shard yields its rows, then zeros, then nothing, and is right if and only if these are the rows of the new range |
| `RowStore.ShardRightIff` | release/experimental/engram_io/row_store_core.cpp:446-453 | the guard that is missing: for a table of different rows a written shard is right for a new range if and only if that is empty, or has the attached start and no later end |
| `RowStore.MoveBreaksShard` | release/experimental/engram_io/row_store_core.cpp:446-453 | one concrete move that makes a written shard serve wrong rows: there is no guard like the one for pinned scales |
| `GroupedLookup.PrefixSums` | release/experimental/engram_cpu/bench.cpp:144-144 | the running sums turn counts into segment starts |
| `GroupedLookup.PlaceInSegment` | release/experimental/engram_cpu/bench.cpp:145-148 | the place of an index lies in its stripe segment |
| `GroupedLookup.PlacesDiffer` | release/experimental/engram_cpu/bench.cpp:145-148 | different indices get different places |
| `GroupedLookup.PlaceTaken` | release/experimental/engram_cpu/bench.cpp:145-148 | every place of a segment is taken |
| `GroupedLookup.Scatter` | release/experimental/engram_cpu/bench.cpp:145-148 | the scatter loop puts every owned index at its place |
| `GroupedLookup.SortByStripe` | release/experimental/engram_cpu/bench.cpp:130-148 | classification, prefix sums and scatter together: a counting sort by lock stripe |
| `GroupedLookup.SegmentsHoldOwned` | release/experimental/engram_cpu/bench.cpp:150-153 | the positions of all segments hold the owned indices, each exactly once |
| `GroupedLookup.Classify` | release/experimental/engram_cpu/bench.cpp:130-143 | the first pass zeroes what is not owned, counts the stripes and aborts on an invalid id |
| `GroupedLookup.SearchOne` | release/experimental/engram_cpu/bench.cpp:154-158 | a hit is copied exactly, anything else is left to the misses |
| `GroupedLookup.SearchStripe` | release/experimental/engram_cpu/bench.cpp:150-160 | one locked stripe: every index is served or remembered |
| `GroupedLookup.Search` | release/experimental/engram_cpu/bench.cpp:149-161 | all stripes: hits counted once for the batch, misses in order |
| `GroupedLookup.ServeMisses` | release/experimental/engram_cpu/bench.cpp:163-163 | the misses are served by the baseline |
| `GroupedLookup.Direct` | release/experimental/engram_cpu/bench.cpp:75-98 | the direct variant delivers what the baseline delivers, with the same counts |
| `GroupedLookup.Grouped` | release/experimental/engram_cpu/bench.cpp:106-164 | for every batch and every valid cache state the grouped lookup delivers what the sequential loop delivers, and hits + misses grows by the owned ids; it aborts only for a too large batch, an id out of bounds, or, exactly then, a short read |
| `VocabStore.RequestFitsBuffer` | release/experimental/host_roundtrips/ds41_vocab_row_store.cpp:89-92 | every request is aligned, covers its row and no page more, and fits 16 KiB |
| `VocabStore.QueueMembers` | release/experimental/host_roundtrips/ds41_vocab_row_store.cpp:165-178 | the queue holds exactly the indices of owned rows that are not cached |
| `VocabStore.Store.constructor` | release/experimental/host_roundtrips/ds41_vocab_row_store.cpp:212-231 | each rank owns one half; nothing is cached and nothing has failed |
| `VocabStore.Store.Row` | release/experimental/host_roundtrips/ds41_vocab_row_store.cpp:85-103 | a full read yields the row of the file, a short one sets the I/O failure bit |
| `VocabStore.Store.Probe` | release/experimental/host_roundtrips/ds41_vocab_row_store.cpp:168-177 | one id of the first pass: copied if cached, queued if owned and missing |
| `VocabStore.Store.ServeCached` | release/experimental/host_roundtrips/ds41_vocab_row_store.cpp:165-178 | cached rows are served, all other owned rows are queued in order, hits + misses counts the owned ids |
| `VocabStore.Store.ReadQueued` | release/experimental/host_roundtrips/ds41_vocab_row_store.cpp:179-195 | without a failure every queued cell holds what its device read delivered, in whatever order the threads take them |
| `VocabStore.Store.FillCache` | release/experimental/host_roundtrips/ds41_vocab_row_store.cpp:200-205 | the cache invariant survives slot conflicts and duplicates; each slot holds the row and the id of the last queue entry that falls into it, all other slots are as before |
| `VocabStore.Store.Lookup` | release/experimental/host_roundtrips/ds41_vocab_row_store.cpp:165-195 | the lookup between the two identity checks |
| `VocabStore.Store.WantedBytes` | release/experimental/host_roundtrips/ds41_vocab_row_store.cpp:85-103 | the wanted rows, byte by byte: the row of the id in the file, or zeros for an id of another rank |
| `VocabStore.Store.TrustedDelivers` | release/experimental/host_roundtrips/ds41_vocab_row_store.cpp:152-206 | the lookup delivers every wanted row if and only if the reads that it uses agree with the file |
| `VocabStore.Store.Run` | release/experimental/host_roundtrips/ds41_vocab_row_store.cpp:152-206 | status 0: every output row is exact or zero if and only if the reads that filled it agree with the file, and then the cache stays right; otherwise the cache is unchanged and the store is poisoned: later runs return 8 with zeroed output. A read is a failure if and only if it is short of the row, and each slot is left with its last queue entry |
| `VocabStore.RefilledSlots` | release/experimental/host_roundtrips/ds41_vocab_row_store.cpp:200-205 | filling in queue order leaves in each slot the last entry that falls into it, and all other slots alone |
| `VocabStore.NextRunHits` | release/experimental/host_roundtrips/ds41_vocab_row_store.cpp:200-205 | an id just delivered is a hit in the next run unless a later queue entry took its slot |
| `VocabLookup.StepKeeps` | release/experimental/host_roundtrips/ds41_vocab_row_store.cpp:85-132 | every step of the first pass, of the pool, and of a thread inside `row` keeps the invariant of the whole: queue entries that are settled are right unless a read has failed |
| `VocabLookup.EveryRunDelivers` | release/experimental/host_roundtrips/ds41_vocab_row_store.cpp:85-195 | over every interleaving: when the wait of a run is over and no read has failed, each output is what the cache had, what its read found, or zeros, which from a valid cache is what the sequential lookup delivers |
| `VocabLookup.EveryRunIsExact` | release/experimental/host_roundtrips/ds41_vocab_row_store.cpp:152-206 | as long as the file stays what it was, every run without a failed read delivers every row exactly, over any number of runs |
| `VocabLookup.FinishIsExact` | release/experimental/host_roundtrips/ds41_vocab_row_store.cpp:196-205 | after the second identity check a failure leaves the cache alone, and otherwise each slot takes the last queue entry that falls into it |
| `VocabLookup.FinishedIsHit` | release/experimental/host_roundtrips/ds41_vocab_row_store.cpp:200-205 | after it an id of the run is a hit unless a later queue entry took its slot |
| `VocabLookup.FailsExactly` | release/experimental/host_roundtrips/ds41_vocab_row_store.cpp:93-97 | over every interleaving: when the wait of a run is over, a failure is set if and only if one of its reads was short |
| `VocabLookup.Progress` | release/experimental/host_roundtrips/ds41_vocab_row_store.cpp:165-206 | from the first pass to the end of a run some thread can move without a wakeup |
| `VocabLookup.EveryRunEnds` | release/experimental/host_roundtrips/ds41_vocab_row_store.cpp:105-195 | the service of a run ends: at most Measure + 30n steps for n wakeups, and it only stops when every queue entry is settled |
| `SourcePins.Open` | release/experimental/dspark/prepare_candidate.py:145-156 | the tracked names, the rewritable names and the first digests of every file; which names these are is said by the members of PinFiles |
| `SourcePins.CollectUpdates` | release/experimental/dspark/prepare_candidate.py:160-161 | the update dictionary maps each stale digest to the current digest of the last name that has it |
| `SourcePins.RewriteFile` | release/experimental/dspark/prepare_candidate.py:167-167 | the sequential replacements in one file |
| `SourcePins.RewriteAll` | release/experimental/dspark/prepare_candidate.py:163-168 | one pass over the rewritable files, and whether it changed anything |
| `SourcePins.RoundIsRightIffCoherent` | release/experimental/dspark/prepare_candidate.py:158-169 | a round directs every pin to the current digest of its file, in whatever order it makes the replacements, if and only if neither the digest of a pin nor the one it should become is shared by files whose current digests differ |
| `SourcePins.ChaseIsResolve` | release/experimental/dspark/prepare_candidate.py:167-167 | in a coherent round sequential replacement in any order equals resolving all pins at once |
| `SourcePins.SharedBytesMisdirect` | release/experimental/dspark/prepare_candidate.py:158-169 | otherwise it fails: pins of an unchanged file are redirected to a changed one that used to have the same bytes |
| `SourcePins.SeparateIsCoherent` | release/experimental/dspark/prepare_candidate.py:158-169 | files of distinct shapes (texts between the pins) make a bundle that follows from them coherent |
| `SourcePins.NextFollows` | release/experimental/dspark/prepare_candidate.py:158-169 | rewriting keeps shapes, and exact copies stay copies |
| `SourcePins.NoStalePinRemains` | release/experimental/dspark/prepare_candidate.py:169-169 | where the loop as written stops, a pin meant for some file holds the current digest of one it is meant for, whatever the rounds before were like |
| `SourcePins.StoppedPinIsRightIff` | release/experimental/dspark/prepare_candidate.py:169-169 | there it is right for all files it is meant for if and only if their current digests agree |
| `SourcePins.PropagationIsRun` | release/experimental/dspark/prepare_candidate.py:157-170 | with coherent rounds the loop as written goes through rounds of replacement and has settled where it stops |
| `SourcePins.SeparateIsEnough` | release/experimental/dspark/prepare_candidate.py:157-170 | distinct shapes, checked once before the loop, make all of its rounds coherent |
| `SourcePins.FinalPinsAreRight` | release/experimental/dspark/prepare_candidate.py:169-169 | after coherent rounds, when the loop breaks every pin that was right at the start holds the final digest of the same file |
| `SourcePins.AttestationCannotFail` | release/experimental/dspark/prepare_candidate.py:191-194 | after coherent rounds the final check passes if the private pins were right at the start |
| `SourcePins.AcyclicConverges` | release/experimental/dspark/prepare_candidate.py:158-170 | if no chain of pins has more than d links, nothing changes any more in round d + 1 of coherent rounds |
| `SourcePins.PropagationIsShort` | release/experimental/dspark/prepare_candidate.py:158-170 | so the loop runs at most d + 1 rounds, and 32 rounds are enough for 31 links |
| `SourcePins.CycleNeverConverges` | release/experimental/dspark/prepare_candidate.py:158-170 | files that pin each other in a circle never settle, in however many coherent rounds |
| `SourcePins.SettledIsAcyclic` | release/experimental/dspark/prepare_candidate.py:158-170 | conversely a run that settles has a ranking by which every pin points downwards |
| `SourcePins.Round` | release/experimental/dspark/prepare_candidate.py:159-168 | one round as written is one round of the mathematical run, and its updates know every stale digest |
| `SourcePins.Propagate` | release/experimental/dspark/prepare_candidate.py:157-170 | for every bundle the loop applies rounds of sequential replacement until one changes nothing, or fails after 32, and has replaced exactly the digests that were stale in some round; if its rounds are coherent they are the rounds of the mathematical run, and distinct shapes at the start are enough for that |
| `PinFiles.OpenedByName` | release/experimental/dspark/prepare_candidate.py:145-156 | by name: in serving/ and tools/ the .py, .json, .so and .yaml files are followed unless they are the manifest, and of these the .py and .json files are rewritten |
| `PinFiles.OpenedNamesOnly` | release/experimental/dspark/prepare_candidate.py:145-156 | no other name is followed |
| `PinFiles.TrackedIff` | release/experimental/dspark/prepare_candidate.py:146-155 | the test of names, suffix by suffix, means a directory, a stem and an ending |
| `PinFiles.RewritableIff` | release/experimental/dspark/prepare_candidate.py:165-166 | the same for the names that are rewritten |
| `PinFiles.PropagatePins` | release/experimental/dspark/prepare_candidate.py:145-170 | from opening to the end of the loop: after coherent rounds every pin in a rewritten file that was right at the start is right at the end, and files of any other name keep their contents |
| `PinRefresh.RefreshIsRightIff` | release/experimental/dspark/prepare_candidate.py:172-176 | the single lookup for the requirements yields the final digest if and only if the digest is not current again after having been stale |
| `PinRefresh.NoReturn` | release/experimental/dspark/prepare_candidate.py:157-170 | in a settled run of coherent rounds no file comes back to a digest it had before, its digest in the parent included, if the edit touches only pins that were right in the parent and leaves them meant for the same files |
| `PinRefresh.RefreshNeverMisses` | release/experimental/dspark/prepare_candidate.py:172-176 | so after such an edit the single lookup is right for every digest that files with one current digest have had |
| `PinRefresh.MissedRefresh` | release/experimental/dspark/prepare_candidate.py:145-176 | an explicit parent and edit for which opening, propagating and refreshing go wrong: the first round turns an edited file back into its parent |
| `DcpSchedule.EveryReadIsOrdered` | release/experimental/dcp_overlap/attention.py:207-256 | for every mode and slab sequence all work reads only what is ordered before it by FIFO order and events, a buffer is released only after every side-stream work that uses it, the peer heads on a query included, and the side stream is rejoined at the end |
| `DcpSchedule.EarlyReleaseIsUnsafe` | release/experimental/dcp_overlap/transport.py:147-181 | joining the query right after the concurrent fork is not safe: the peer heads still read its buffer |
| `DcpSchedule.ConcurrentBody` | release/experimental/dcp_overlap/transport.py:147-181 | in concurrent mode joining the result transfer alone also covers the query transfer |
| `DcpSchedule.SlabEffect` | release/experimental/dcp_overlap/attention.py:207-256 | one slab in any mode keeps the ordering between slabs, with or without a merge left over |
| `DcpSchedule.GatherEffect` | release/experimental/dcp_overlap/transport.py:139-144 | the fork through ready and done events orders the exchange after its source |
| `DcpSchedule.JoinEffect` | release/experimental/dcp_overlap/transport.py:33-54 | after a join the exchange, its source and whatever else uses the buffer are ordered before the caller |
| `DcpSchedule.RanksAgree` | release/experimental/dcp_overlap/integration.py:45-66 | the sequence of collectives is query, result of each slab in turn: the same on both ranks and in every mode |
| `DcpSchedule.EverySlabMergedOnce` | release/experimental/dcp_overlap/attention.py:245-256 | every slab is merged exactly once, in order, also when merges are carried to the next slab |
| `DcpSchedule.EveryTransferJoinedOnce` | release/experimental/dcp_overlap/transport.py:44-51 | every transfer is joined exactly once |
| `DcpSchedule.HeadsTile` | release/experimental/dcp_overlap/policy.py:18-30 | own and peer heads of a slab are the 64 heads, each computed once; the own ones in two halves for balanced slabs of fewer than 32 rows, otherwise in one call |
| `DcpHeads.PlanCallsHeads` | release/experimental/dcp_overlap/policy.py:18-30 | of the submitted commands: two calls of 16 own heads in balanced mode for fewer than 32 rows, otherwise one of 32, and always one call of the peer's 32 heads |
| `DcpHeads.PlanCalls` | release/experimental/dcp_overlap/attention.py:207-256 | the commands of a plan that concern the heads or the start of a slab are these calls, and no others |
| `DcpHeads.MergedBeforeNext` | release/experimental/dcp_overlap/attention.py:236-256 | a slab is merged before the next one is prepared if and only if the mode is concurrent, or balanced with fewer than 32 rows |
| `DcpHeads.PlanOverlaps` | release/experimental/dcp_overlap/attention.py:207-256 | every transfer is under way while own heads are computed, those of its slab or, for a result left over, those of the next; only a result left over by the last slab is not covered |
| `DcpHeads.PreparedAt` | release/experimental/dcp_overlap/integration.py:45-61 | a slab is prepared at its beginning and nowhere else |
| `DcpRanks.StepKeeps` | release/experimental/dcp_overlap/transport.py:33-54 | every step of one of the four streams, or of an exchange, keeps all clocks true: what a stream is ordered after has run |
| `DcpRanks.InputsHaveRun` | release/experimental/dcp_overlap/attention.py:207-256 | in every interleaving of both ranks: when a stream comes to a piece of work, what it reads has run on its rank, and what the other rank sends for it has run there |
| `DcpRanks.ReleaseIsLate` | release/experimental/dcp_overlap/transport.py:44-54 | in every interleaving a buffer is given up only after all work that uses it has run |
| `DcpRanks.MergeFollowsPeer` | release/experimental/dcp_overlap/attention.py:245-256 | a merge comes after the other rank has computed this rank's heads of the slab |
| `DcpRanks.MergeFollowsOwn` | release/experimental/dcp_overlap/attention.py:236-256 | and after this rank has computed its own heads of the slab, in the calls that its mode and size demand |
| `DcpRanks.ReleaseFollowsUsers` | release/experimental/dcp_overlap/transport.py:44-54 | where a buffer is given up its exchange and the source of that have run, and the peer's heads too if they read it |
| `DcpRanks.PeerFollowsPrepare` | release/experimental/dcp_overlap/attention.py:207-256 | the heads computed for the peer use a query that the peer has prepared |
| `DcpRanks.StuckIsFinished` | release/experimental/dcp_overlap/integration.py:45-66 | if no stream of either rank can move both have worked off their plans |
| `DcpRanks.ForwardEnds` | release/experimental/dcp_overlap/integration.py:45-66 | so no execution of the two ranks blocks, whatever their modes, and each takes at most two steps for every command of each plan |
| `DcpTransport.Transport.Join` | release/experimental/dcp_overlap/transport.py:33-54 | a join waits, removes the transfer and its dependency from the pending list, and refuses foreign sessions, second joins and unknown transfers |
| `DcpTransport.Transport.Gather` | release/experimental/dcp_overlap/transport.py:110-145 | an exchange adds one pending transfer and submits the fork; bad sizes and a third transfer are refused |
| `DcpTransport.Transport.RemoteResult` | release/experimental/dcp_overlap/transport.py:147-181 | the concurrent fork needs its query as the only pending transfer |
| `DcpTransport.Transport.Finish` | release/experimental/dcp_overlap/attention.py:190-204 | a finished merge leaves nothing of its slab pending |
| `DcpTransport.Transport.StepConcurrent` | release/experimental/dcp_overlap/attention.py:217-235 | the concurrent step submits exactly its commands |
| `DcpTransport.Transport.StepHead` | release/experimental/dcp_overlap/attention.py:243-248 | the first half of a serial step |
| `DcpTransport.Transport.StepTail` | release/experimental/dcp_overlap/attention.py:249-256 | the second half: balanced slabs of fewer than 32 rows are merged at once, all others are left over |
| `DcpTransport.Transport.Step` | release/experimental/dcp_overlap/attention.py:207-256 | one step: exactly the planned commands, or some first ones of them if it raises |
| `DcpTransport.Transport.Slab` | release/experimental/dcp_overlap/integration.py:45-61 | one pass of the slab loop |
| `DcpTransport.Transport.AllSlabs` | release/experimental/dcp_overlap/integration.py:45-61 | the loop submits the commands of all slabs and leaves at most one merge over |
| `DcpTransport.Transport.RunSlabs` | release/experimental/dcp_overlap/integration.py:45-66 | the loop and the merge at its end submit the plan; nothing is left pending |
| `DcpTransport.Transport.Session` | release/experimental/dcp_overlap/transport.py:85-108 | a nested, unfinished or poisoned session is refused and changes nothing; without a fault and with slabs of 1..512 rows a session succeeds; a session that succeeds had slabs of 1..512 rows and has submitted the whole plan, with the head calls, the merge times and the overlaps that the modes demand; an exception at any point, also after the last submission, leaves a safely ordered beginning of it and fails the transport for good |
| `DcpTransport.PrefixIsSafe` | release/experimental/dcp_overlap/transport.py:101-106 | also a session that is cut short has ordered everything it submitted |
| `AttentionMerge.MergeIsUnion` | release/experimental/dcp_overlap/attention.py:155-179 | merging the partial results of two ranks gives softmax attention over the union of their keys, on either rank, empty ranks included |
| `AttentionMerge.NormalizerIsUnion` | release/experimental/dcp_overlap/attention.py:168-170 | the common normalizer is the log-sum of the union, also when infinite |
| `AttentionMerge.WeightIsShare` | release/experimental/dcp_overlap/attention.py:171-173 | when some key has mass, the weight of a side is its share of the total mass |
| `AttentionMerge.WeightIsFinite` | release/experimental/dcp_overlap/attention.py:171-173 | for all normalizers, infinite and undefined ones included, the weight is finite and not negative, and zero unless both normalizers are finite |
| `AttentionMerge.StoredIsLoaded` | release/experimental/dcp_overlap/packed.py:44-50 | storing the normalizer to base two and loading it to base e cancels |
| `AttentionMerge.SplitMergeIsUnion` | release/experimental/dcp_overlap/packed.py:53-68 | combining any splits of the keys, empty ones included, gives output and normalizer of all keys |
| `AttentionMerge.TotalWeightIsMass` | release/experimental/dcp_overlap/packed.py:60-63 | the total weight is the mass, shifted by the maximum |
| `AttentionMerge.FinishedIsAttention` | release/experimental/dcp_overlap/packed.py:41-43 | what the kernel ends with is attention over its keys, whatever maximum was subtracted, also for no keys at all |
| `PayloadLayout.CellInjective` | release/experimental/dcp_overlap/packed.py:44-50 | different tokens or heads have different places in either layout |
| `PayloadLayout.CellBounds` | release/experimental/dcp_overlap/packed.py:44-50 | all places are inside the payload |
| `PayloadLayout.PackedInPlace` | release/experimental/dcp_overlap/attention.py:119-138 | a result packed without a copy lies where its layout flag says |
| `PayloadLayout.AllocatedIsPacked` | release/experimental/dcp_overlap/attention.py:77-82 | what is allocated is never copied, and its layout depends on the row count alone, so both ranks agree |
| `PayloadLayout.StoreVector` | release/experimental/dcp_overlap/packed.py:44-50 | the stores of one program |
| `PayloadLayout.StoreProgram` | release/experimental/dcp_overlap/packed.py:44-50 | the stores of one token and head leave all others alone |
| `PayloadLayout.StorePayload` | release/experimental/dcp_overlap/packed.py:44-50 | after all programs every vector is in its place |
| `PayloadLayout.PeerIsRead` | release/experimental/dcp_overlap/attention.py:154-162 | each rank reads exactly the vector its peer wrote for that token and head |
| `ExpertDispatch.BinCount` | release/experimental/drafter/dspark_torch.py:208-208 | the counts of all experts |
| `ExpertDispatch.SegmentIsExpert` | release/experimental/drafter/dspark_torch.py:212-217 | for any sorting permutation the segment cut by the counts holds exactly positions routed to that expert |
| `ExpertDispatch.AddSegment` | release/experimental/drafter/dspark_torch.py:216-222 | adding one segment to the rows |
| `ExpertDispatch.SumPermutation` | release/experimental/drafter/dspark_torch.py:207-207 | a sum does not depend on the order the sort chose |
| `ExpertDispatch.RangeSum` | release/experimental/drafter/dspark_torch.py:209-210 | over all positions each row receives the sum over its own slots |
| `ExpertDispatch.Dispatch` | release/experimental/drafter/dspark_torch.py:204-223 | the dispatch equals the plain weighted sum over the slots of every row |
| `PrefixEma.UpdateIsExact` | release/experimental/dspark/adaptive.py:49-57 | an observation moves each estimate below the accepted tokens towards 1 by alpha, shrinks the others by 1 - alpha, and after a full acceptance leaves the rest alone; the second pass never changes anything in exact arithmetic |
| `PrefixEma.TraceIsAverage` | release/experimental/dspark/adaptive.py:42-59 | after any trace the estimate of a position is the exponential average of just those observations of the request that say something about it |
| `PrefixEma.RejectionsDecay` | release/experimental/dspark/adaptive.py:48-57 | after n drafts of a new request of which nothing was accepted every estimate is (1 - alpha)^n |
| `PrefixEma.NeverRejected` | release/experimental/dspark/adaptive.py:48-57 | a position that no observation has rejected is still estimated at 1 |
| `PrefixEma.TotalIsMean` | release/experimental/dspark/adaptive.py:80-83 | the summed survival of the first k positions is the mean of the accepted tokens, counted up to k |
| `PrefixEma.UsefulByPosition` | release/experimental/dspark/adaptive.py:80-80 | the expected yield of a batch: one token for each request, and for each position those who survive it |
| `PrefixEma.ExpectedIsUseful` | release/experimental/dspark/adaptive.py:83-83 | the choice without costs rests on the same expectation for a full draft |
| `PrefixEma.SurvivalKept` | release/experimental/dspark/adaptive.py:49-57 | an update keeps the survival a nonincreasing sequence of probabilities, despite censoring |
| `PrefixEma.SurvivalMonotone` | release/experimental/dspark/adaptive.py:49-57 | with equal drafts more accepted tokens keep every survival at least as high |
| `PrefixEma.TraceMonotone` | release/experimental/dspark/adaptive.py:42-59 | the same over whole traces of observations, for all requests |
| `PrefixEma.ChoiceMonotone` | release/experimental/dspark/adaptive.py:61-84 | after the better trace the choice without costs is at least as long |
| `PrefixEma.ChoiceIsShortestBest` | release/experimental/dspark/adaptive.py:76-82 | with costs the choice is the shortest length of maximal score |
| `PrefixEma.ChoiceIsLongestWithin` | release/experimental/dspark/adaptive.py:83-84 | without costs the choice is the longest length within the rounded-up mean survival and margin, or the shortest length |
| `PrefixEma.ShortChoice` | release/experimental/dspark/adaptive.py:68-75 | a choice below the maximum means that no request is structured, unknown, in warmup or due for exploration |
| `PrefixEma.FullDraft` | release/experimental/dspark/adaptive.py:72-75 | a structured, unknown, new or long shortened request forces the maximum, whatever the costs |
| `PrefixEma.ChoiceRefused` | release/experimental/dspark/adaptive.py:68-79 | exactly when a choice is refused: for a bad batch, or for bad costs where they would have been used |
| `PrefixEma.EveryRunExplores` | release/experimental/dspark/adaptive.py:42-88 | over every run of choices, observations and departures no request exceeds `explore_after` short drafts in a row |
| `PrefixEma.PrefixEMA.Observe` | release/experimental/dspark/adaptive.py:42-59 | an invalid observation is refused, an empty draft changes nothing; otherwise the estimates of this request move as `UpdateIsExact` says, its steps and its short drafts in a row are counted, and no other request changes |
| `PrefixEma.PrefixEMA.Update` | release/experimental/dspark/adaptive.py:49-57 | the two passes over the survival list: blending, then prefix minima; on nonincreasing estimates the exact update |
| `PrefixEma.PrefixEMA.Prune` | release/experimental/dspark/adaptive.py:86-88 | the remaining requests are exactly the live ones that had a state, and their states are unchanged |
| `PrefixEma.PruneKeepsChoices` | release/experimental/dspark/adaptive.py:86-88 | so no choice for live requests depends on whether the others were pruned |
| `Intervals.Merged` | release/experimental/dcp_overlap/summarize.py:29-36 | the result is sorted, its intervals do not touch, and it covers exactly the same points |
| `Intervals.BusyIsMeasure` | release/experimental/dcp_overlap/summarize.py:51-52 | on any grid that contains the bounds, the summed lengths of separated intervals are the covered cells |
| `Intervals.OverlapIsMeasure` | release/experimental/dcp_overlap/summarize.py:48-48 | the pairwise overlap sum is the cells that both covers share |
| `Intervals.OverlapCount` | release/experimental/dcp_overlap/summarize.py:48-48 | the overlap of one pair is the cells it shares |
| `Intervals.SameCells` | release/experimental/dcp_overlap/summarize.py:29-36 | intervals that cover the same points have the same cells |
| `Intervals.ReportIsMeasure` | release/experimental/dcp_overlap/summarize.py:46-53 | for real timestamps the report measures the union of each group and the intersection of the two unions |
| `DraftVocab.Choose` | release/experimental/draft_vocab/build_subset.py:42-46 | forced tokens and the most frequent candidates, as many as fit |
| `DraftVocab.Fill` | release/experimental/draft_vocab/build_subset.py:47-49 | filler never runs out and is never more frequent than what it follows |
| `DraftVocab.Sorted` | release/experimental/draft_vocab/build_subset.py:50-50 | the chosen ids in increasing order |
| `DraftVocab.Exchange` | release/experimental/draft_vocab/build_subset.py:38-50 | exchanging tokens for no less frequent ones does not lose coverage |
| `DraftVocab.GreedyIsOptimal` | release/experimental/draft_vocab/build_subset.py:38-50 | a greedy selection covers at least as much as any admissible subset |
| `DraftVocab.SelectRank` | release/experimental/draft_vocab/build_subset.py:39-50 | each rank gets exactly `per_rank` sorted distinct ids of its half, forced ones included, of maximal coverage |
| `DraftVocab.RankTokens` | release/experimental/draft_vocab/build_subset.py:38-50 | they lie in the half of the rank; the first rank has the tokens 0, 1 and 2 |
| `DraftVocab.Build` | release/experimental/draft_vocab/build_subset.py:36-54 | the output passes the structure check of the loader; an empty corpus writes nothing |

## Left out

- VocabStore.Store.Run: the outcomes of the two identity checks and of the device reads are inputs. Here the queue is taken in an arbitrary order; its interleavings are the subject of VocabLookup, which leaves the hit and miss counters to this method.
- VocabPool.EveryRunReturns: `notify_one` may wake any worker, or none, which over-approximates the platform.
- GroupedLookup.Grouped: one search specification for all variants; the SVE and NEON searches are not modelled.
- PackedLayout.Pack: hashing, read-back verification, fsync and the source fingerprint are not modelled; a failed read or write ends the program.
- SourcePins.Propagate: a digest is a token of its own, so digests that straddle text are not modelled; JSON and Python syntax of the files is not either.
- SourcePins.AcyclicConverges: the ranking asks that some file a pin is meant for is lower, or that all files whose shape the pinned digest has are, so it also speaks of pins that only later turn out to hit.
- SourcePins.CollectUpdates: the order of the keys is left open, which covers the insertion order of the dictionary.
- DcpTransport.Transport.Gather: dtype, device, contiguity and capture inventory checks are faults from outside; the shape check keeps the row bound.
- DcpTransport.Transport.Finish: the shape checks before the merge kernel are faults from outside.
- AttentionMerge.MergeIsUnion: exact reals; a sink is one more key with value zero, and how sinks are divided between ranks is not part of this model.
- AttentionMerge.FinishedIsAttention: `_segment`, the loop that accumulates, is not part of this model.
- PayloadLayout.PackedInPlace: a result that is copied is token-major by construction and has no lemma.
- ExpertDispatch.Dispatch: one output channel; the expert's arithmetic is an arbitrary function.
- PrefixEma.PrefixEMA.constructor: the configuration is valid on entry; the program raises otherwise.
- Intervals.Merged: kernels have no negative duration. The measure is counted on a grid that contains all bounds, as any decimal timestamps have; bounds without a common grid are not measured.
- DcpRanks.ForwardEnds: both ranks submit their whole plans. A rank that fails before an exchange leaves the other one waiting in it, as the program does.
- EngramLookup.EveryLookupDelivers: an id past the table aborts the process, which here means that its thread takes no further step.
- The destructors and stop flags of both pools, thread start-up, and the overflow of counters.
- System calls: `O_DIRECT`, `mmap`, `EINTR` loops, and the `catch (...)` path of the vocabulary lookup.
- The C++ memory model below sequential consistency.
- Collectives, kernels and graph capture as such: only what is submitted, and in which order, is modelled.
- Docker, SSH, downloads, publication and audit scripts: plumbing around hash checks.
- `config.py`, `contracts.py` and mode validation: each claim is one branch.
- Floating-point rounding and all claims of bitwise parity.
