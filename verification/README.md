# LinDB in Dafny

A model of the hard core of LinDB, a time-series database written in Go, with proofs
for all inputs, all runs and all reachable states.  `dafny verify dfyconfig.toml`
checks the project.  Words and bytes are sequences of bits, most significant bit
first; integer widths, wrap-around and truncation of the Go code are written out.
Code that updates fields is a class or a method with loops, proved against
specification functions; the laws are lemmas about these functions.

**Codecs.** `Words`, `BitIO`: an unaligned bit writer and reader.  `Xor`: the XOR value
codec of section 4.1.2 of the Gorilla paper (PVLDB volume 8), with this code's six-bit
leading count and inverted control bit.  `Tsd`: presence bits and XOR values in one bit
stream behind a 16-bit header.  `BlockStore`: the 64-slot window of the memory database
and its compaction into a compressed run, with an arbitrary aggregate; the integer and
the float block are one class, they differ in how a value becomes 64 bits.  `BlockScan`:
what a scan of the block hands to the aggregators.  `Stream`,
`Framing`, `Delta`: varints and fixed-width integers, the edit log and replica batch
framings, delta bit packing.

**Key/value store.** `Table`: the table file format, its builder, reader and iterator;
a roaring bitmap is its ascending key list, the bitmap library's marshal pair a
parameter.  `MergeIterator`: the binary heap of cursors with the operations of Go's
`container/heap`.  `CompactJob`: grouping, merging and file rotation of a compaction.
`Versions`: level metadata, edits, compaction picking and file lookup.  `Lsm`: the values
stored under a key.  `Family`: all runs of flushes and compactions of one family.
`FamilyStore`: the same over table bytes.  `Retention`: reference counts, snapshots and
the removal of obsolete files, step by step and interleaved.  `Snapshots`: the two state
machines joined, and what a snapshot reads.  `FileNumbers`: the file
number counter under concurrent commits.  `Manifest`, `VersionSet`: the manifest over
the life of a store, with a stop possible between any two steps, and its bytes.

**Replication.** `Queue`: the fan-out queue.  `Replication`: broker, connection and
storage as one state machine.

**Coordination.** `TaskGroup`, `TaskGroupRuns`, `TaskGroupSafety`, `TaskGroupOutcome`,
`TaskController`: grouped tasks over a versioned key-value store.  `Shards`: replica placement.  `Options` holds the
option type.

Where the code does not do what its comments or its purpose suggest, the code is
modelled, and it is proved exactly when that happens or what it does instead:

- A replication target whose fan-out tail is above the storage's persisted
  acknowledgement loses messages; without that there is never a gap
  (`Replication.NoGapIff`, `Replication.LateTargetSkips`).
- A new, never reset XOR encoder starts with a window every value falls into, so it never
  narrows it and spends 66 bits per change (`XorCodec.SizeFromNew`).
- A time-series run comes back exactly when start and length fit the 16-bit header
  (`Tsd.RoundTripIff`), and a memory block keeps all its slots over one more round of writes
  and compaction exactly under that condition (`BlockStore.RunRounds`).
- A reset time-series encoder keeps its slot count, so its next series comes back exactly
  when that count is a multiple of 2^16 (`Tsd.ResetRoundTripIff`, `Tsd.ReuseEncoder`).
- A scan of a memory block reports a value that only the compressed run has, inside the
  window's range, at a window position; it agrees with what `compact` stores exactly when
  there is no such value or the window starts at slot 0 (`BlockScan.ScanIsMergeIff`,
  `BlockScan.ScanCompactScan`, `BlockScan.MisplacedSlot`).
- Delta packing gives a list back exactly when no delta's excess over the smallest wraps
  (`DeltaPacking.RoundTrip`, `DeltaPacking.WideDeltas`).
- An empty table file cannot be opened (`Table.Open`).
- Every run reads what was flushed if and only if there are two levels or more; with one a
  compaction drops what it compacts (`Family.LevelsIff`, `Family.LosesOne`).
- A commit stores back the file number it loaded plus one, so two numbers handed out
  meanwhile make a later one appear twice (`FileNumbers.StoreUniqueIff`,
  `FileNumbers.NumberReused`).
- A clean-up pass that collects pending outputs while a listed new file is not registered
  yet can remove that file (`Retention.CollectSafeIff`, `Retention.OutputLost`).
- A store open that fails still removes manifests; the one CURRENT names survives only if
  it is the first and no file number was read (`Manifest.FailedOpenKeepsIff`,
  `Manifest.ManifestLost`).
- A group of tasks is judged by error messages, not by states: it ends as OK if and only if
  no failed task has an error text (`TaskGroupSafety.FailureShowsIff`,
  `TaskGroupOutcome.OutcomeShows`, `TaskGroupSafety.OneFailure`).
- A controller that lists everything closes a group whose results are all in if and only if
  it already waits for that submission; a restarted one does not, and reads tasks before
  statuses (`TaskGroupSafety.RelistClosesIff`, `TaskGroupSafety.StuckGroup`).
- The placement of shards spreads the replicas against their leaders, as its second goal
  says; two replicas that are not the leader are spread if and only if there are at most
  three nodes (`Shards.SpreadIff`).

## Model

| member | source | states |
|---|---|---|
| `BitIO.Writer.WriteBit` | pkg/bit/writer.go:39-56 | the bits written so far grow by the bit, at any alignment |
| `BitIO.Writer.WriteByte` | pkg/bit/writer.go:85-95 | the bits written so far grow by the eight bits, across the byte boundary |
| `BitIO.Writer.WriteBits` | pkg/bit/writer.go:59-82 | the bits written so far grow by the low bits of the word; none for a count of zero or less |
| `BitIO.Writer.Flush` | pkg/bit/writer.go:98-104 | the bytes are exactly the written bits, padded with zero bits to the next byte |
| `BitIO.Buffer.GetByte` | pkg/bufioutil/buffer.go:38-46 | delivers the byte at the index and moves on, or fails at the end |
| `BitIO.Reader.ReadBit` | pkg/bit/reader.go:26-35 | delivers the next bit of the stream, fails exactly when none is left |
| `BitIO.Reader.ReadByte` | pkg/bit/reader.go:68-80 | delivers the next eight bits at any alignment, fails exactly when fewer are left |
| `BitIO.Reader.ReadBits` | pkg/bit/reader.go:38-65 | delivers the next bits at the bottom of a word, fails exactly when too few are left |
| `BitIO.WriteThenRead` | pkg/bit/reader.go:26-80 | any mix of bit, byte and multi-bit writes, flushed, is read back item by item without error |
| `XorCodec.BlockInverse` | pkg/encoding/xor.go:72-96 | cutting the significant block out of a difference and pasting it back loses no bit |
| `XorCodec.BlockWidth` | pkg/encoding/xor.go:66-97 | a changed value costs two bits and the window if and only if the difference has no bit outside it; else 14 bits and exactly the bits from its first set one to its last, which become the window |
| `XorCodec.StepInverse` | pkg/encoding/xor.go:134-188 | from synchronised states one decoding step returns the encoded value, leaves the rest of the stream and stays synchronised |
| `XorCodec.RoundTrip` | pkg/encoding/xor.go:53-188 | from any synchronised states every list of values is decoded as it was encoded |
| `XorCodec.RoundTripFromStart` | pkg/encoding/xor.go:27-40 | new and reset encoders are both in step with a new decoder for every list |
| `XorCodec.WideWindowStays` | pkg/encoding/xor.go:72-80 | a full-width window is reused for ever: one bit per repeat, 66 per change |
| `XorCodec.SizeFromNew` | pkg/encoding/xor.go:27-32 | exact size of what a new encoder writes |
| `XorCodec.XOREncoder.Write` | pkg/encoding/xor.go:53-99 | appends exactly the specified bits and moves to the specified state |
| `XorCodec.XOREncoder.Reset` | pkg/encoding/xor.go:34-40 | back to the state with a window no value falls into |
| `XorCodec.XORDecoder.Next` | pkg/encoding/xor.go:134-188 | performs one specified decoding step; on a short stream it reports the error, and true for the first value all the same |
| `XorCodec.XORDecoder.Reset` | pkg/encoding/xor.go:124-130 | back to the initial state |
| `Tsd.SlotsInverse` | pkg/encoding/tsd.go:54-68 | presence bits and values interleaved in one stream decode to the same optional values, for every prefix |
| `Tsd.U16Inverse` | pkg/encoding/tsd.go:76-87 | header numbers come back modulo 2^16 |
| `Tsd.DecodeEncoded` | pkg/encoding/tsd.go:114-132 | total law: decoding yields start and count modulo 2^16 and that many of the values |
| `Tsd.RoundTripIff` | pkg/encoding/tsd.go:76-132 | start and values come back if and only if both fit 16 bits |
| `Tsd.ResetRoundTripIff` | pkg/encoding/tsd.go:47-87 | after a reset they come back if and only if, besides, the slots counted before are a multiple of 2^16 |
| `Tsd.TSDEncoder.AppendTime` | pkg/encoding/tsd.go:54-60 | appends a presence bit and counts the slot |
| `Tsd.TSDEncoder.Reset` | pkg/encoding/tsd.go:47-51 | an empty stream from the reset state; the slot count stays |
| `Tsd.TSDEncoder.AppendValue` | pkg/encoding/tsd.go:63-68 | completes the slot with its value's bits |
| `Tsd.TSDEncoder.Bytes` | pkg/encoding/tsd.go:76-87 | the bytes are the encoding of exactly the appended slots |
| `Tsd.TSDDecoder.Reset` | pkg/encoding/tsd.go:114-132 | reads the header and is ahead of exactly the decodable slots |
| `Tsd.TSDDecoder.Next` | pkg/encoding/tsd.go:150-156 | moves to the next slot while the count allows |
| `Tsd.TSDDecoder.HasValue` | pkg/encoding/tsd.go:159-169 | reads the slot's presence bit |
| `Tsd.TSDDecoder.HasValueWithSlot` | pkg/encoding/tsd.go:172-181 | reads a presence bit only for the slot whose turn it is |
| `Tsd.TSDDecoder.Value` | pkg/encoding/tsd.go:188-193 | delivers the slot's value |
| `Tsd.DecodeSeries` | pkg/encoding/tsd.go:150-193 | driving the decoder yields exactly the decodable slots at consecutive slot numbers |
| `Tsd.SeriesRoundTrip` | pkg/encoding/tsd.go:39-193 | encoder then decoder, for every start and every list of optional values |
| `Tsd.ReuseEncoder` | pkg/encoding/tsd.go:47-87 | one encoder for two series: the second comes back if and only if start and length fit and the first had a multiple of 2^16 slots |
| `BlockStore.ZigZagInverse` | pkg/encoding/encoding.go:5-12 | zig-zag decoding undoes encoding on all 64-bit words |
| `BlockStore.ValueInverse` | tsdb/memdb/block_store.gen.go:70-100 | a block's value survives its 64-bit form, for both kinds of blocks |
| `BlockStore.HasValueIsBit` | tsdb/memdb/block_store.go:140-142 | the mask test is true exactly for the set bit inside the window |
| `BlockStore.SetValueIsUpdate` | tsdb/memdb/block_store.go:145-147 | setting a position changes that bit only |
| `BlockStore.EndTimeIsLast` | tsdb/memdb/block_store.go:161-165 | the end time is the last set position |
| `BlockStore.MergedSlotValue` | tsdb/memdb/block_store.gen.go:252-268 | a merged slot decodes to the aggregate of both, or the one present, or nothing |
| `BlockStore.Block.SetStartTime` | tsdb/memdb/block_store.go:150-153 | sets the window's start |
| `BlockStore.Block.SetValue` | tsdb/memdb/block_store.gen.go:32-35 | stores the value and marks its position |
| `BlockStore.Block.Compact` | tsdb/memdb/block_store.gen.go:48-107 | new bounds; an empty window changes nothing; if the bounds fit 16 bits the stored run decodes at every slot to the merge of window and old run, and if they do not and the last slot holds a value, it does not |
| `BlockStore.Block.OpenScan` | tsdb/memdb/block_store.gen.go:203-218 | the scan covers both ranges |
| `BlockStore.Block.ScanAll` | tsdb/memdb/block_store.gen.go:221-250 | the scan emits the merge of every slot of the covered range, gaps included |
| `BlockStore.Block.MergeSlot` | tsdb/memdb/block_store.gen.go:252-268 | one slot's four cases |
| `BlockStore.StoredSeries` | tsdb/memdb/block_store.gen.go:48-107 | a run of merged slots stores the pointwise merge at every slot number |
| `BlockStore.UnfitLoses` | tsdb/memdb/block_store.gen.go:48-107 | a run that does not fit its header loses or moves a slot, if its last slot holds a value |
| `BlockStore.RunRound` | tsdb/memdb/block_store.gen.go:300-360 | on a run that fits its header, a fill-then-compact round combines its writes with what was stored, slot by slot, if and only if the slots still fit |
| `BlockStore.RunRounds` | tsdb/memdb/block_store.gen.go:48-107 | after any rounds that fitted so far and one more, every slot holds the aggregate of its last write of each round, in order, if and only if the slots still fit 16 bits |
| `BlockStore.TwoRounds` | tsdb/memdb/block_store.gen.go:252-268 | of two values compacted in turn into one slot, the later one is the first argument of the aggregation |
| `BlockStore.NearbyFits` | tsdb/memdb/block_store.gen.go:48-107 | rounds within 65535 slots that start below 2^16 always fit |
| `BlockStore.WindowEnd` | tsdb/memdb/block_store.go:161-165 | the end time of a filled window is its last position written |
| `BlockScan.ScanIsMergeIff` | tsdb/memdb/block_store.gen.go:221-268 | a scan hands over the merged value of every slot under its own number if and only if no slot of the window's range has a value in the run only, or the window starts at 0 |
| `BlockScan.Aggregate` | tsdb/memdb/block_store.gen.go:153-178 | one slot more is handed over, or the calls end with the one that completes the aggregators |
| `BlockScan.MadeIs` | tsdb/memdb/block_store.gen.go:153-178 | the calls made are the shortest complete prefix of all calls, or all of them |
| `BlockScan.ChooseCall` | tsdb/memdb/block_store.gen.go:221-268 | the scanner's choice for a slot |
| `BlockScan.Scan` | tsdb/memdb/block_store.gen.go:109-150 | in all four cases the calls are those for all slots in order, cut after the first one that completes the aggregators and nowhere else |
| `BlockScan.CompactedCalls` | tsdb/memdb/block_store.gen.go:140-149 | a scan of the compacted block hands over the merge |
| `BlockScan.ScanCompactScan` | tsdb/memdb/block_store.gen.go:109-150 | scans before and after a compaction make the same calls if and only if the block agrees |
| `BlockScan.MisplacedSlot` | tsdb/memdb/block_store.gen.go:252-268 | a block whose value at slot 1 is reported at slot 0 |
| `Stream.UvarintInverse` | pkg/stream/reader.go:168-185 | reading undoes writing for every 64-bit number, whatever follows |
| `Stream.ZigZagRange` | pkg/stream/writer.go:32-51 | zig-zag forms number the signed values one to one and onto; they fit 32 or 64 bits exactly when the value does |
| `Stream.UvarintCut` | pkg/stream/reader.go:168-185 | a varint that lost its end is an end-of-data error |
| `Stream.FixedInverse` | pkg/stream/writer.go:54-85 | little-endian fixed-width numbers come back |
| `Stream.UvariantSize` | pkg/stream/encoding.go:4-11 | the computed size is the length of the encoding |
| `Stream.VariantSize` | pkg/stream/encoding.go:14-20 | likewise for signed numbers |
| `Stream.Reader.ReadUvarint64` | pkg/stream/reader.go:46-51 | the number at the position and the position behind it, an error when it is cut off or too long |
| `Stream.Reader.ReadVarint64` | pkg/stream/reader.go:34-39 | likewise signed |
| `Stream.Reader.ReadUvarint32` | pkg/stream/reader.go:41-43 | likewise cut to 32 bits |
| `Stream.Reader.ReadVarint32` | pkg/stream/reader.go:29-31 | likewise signed, cut to 32 bits |
| `Stream.Reader.ReadSlice` | pkg/stream/reader.go:119-134 | the next bytes, fewer and an error at the end |
| `Framing.Unmarshal` | kv/version/edit_log.go:67-88 | a marshalled edit log comes back record for record; any proper prefix of one is an error |
| `Framing.ReadRecord` | kv/version/edit_log.go:76-86 | one typed, length-prefixed record; a cut one fails or leaves the cut to what follows |
| `Framing.Decode` | kv/version/log.go:90-169 | each record kind's data comes back; cut data and an unknown kind are errors |
| `Framing.EditLogRoundTrip` | kv/version/edit_log.go:46-88 | the log list always comes back, the family id exactly when it fits 32 bits |
| `Framing.ParseFrames` | storage/handler/writer.go:130-158 | the parsing loop recovers exactly the appended messages, and of a batch that lost its end exactly the whole messages before the cut |
| `Framing.BatchRoundTrip` | replication/channel.go:465-468 | any list of messages below 4 GiB each survives the batch |
| `DeltaPacking.ValuesOfDeltas` | pkg/encoding/delta_bit_packing.go:52-68 | wrapped deltas rebuild the list |
| `DeltaPacking.OneIff` | pkg/encoding/delta_bit_packing.go:80-92 | a packed delta comes back if and only if its excess is not negative |
| `DeltaPacking.UnpackIff` | pkg/encoding/delta_bit_packing.go:149-160 | the list of deltas comes back if and only if no excess is negative |
| `DeltaPacking.BitWidthSpec` | pkg/encoding/delta_bit_packing.go:71-80 | the chosen width holds the largest excess |
| `DeltaPacking.DecodedIff` | pkg/encoding/delta_bit_packing.go:122-160 | packed bytes decode to the list if and only if the list is packable |
| `DeltaPacking.AscendingPackable` | pkg/encoding/delta_bit_packing.go:52-96 | non-decreasing non-negative lists are packable |
| `DeltaPacking.WideDeltas` | pkg/encoding/delta_bit_packing.go:71-92 | a list of three numbers that is not packable |
| `DeltaPacking.DeltaBitPackingEncoder.Reset` | pkg/encoding/delta_bit_packing.go:39-49 | back to the state of a new encoder |
| `DeltaPacking.DeltaBitPackingEncoder.Add` | pkg/encoding/delta_bit_packing.go:52-68 | the encoder holds one value more |
| `DeltaPacking.DeltaBitPackingEncoder.Bytes` | pkg/encoding/delta_bit_packing.go:71-96 | header and packed excesses of exactly the held values |
| `DeltaPacking.DeltaBitPackingDecoder.constructor` | pkg/encoding/delta_bit_packing.go:111-141 | ahead of exactly the decodable values |
| `DeltaPacking.DeltaBitPackingDecoder.Next` | pkg/encoding/delta_bit_packing.go:149-160 | delivers the next of them |
| `DeltaPacking.RoundTrip` | pkg/encoding/delta_bit_packing.go:52-160 | encoder then decoder give the list back if and only if it is packable |
| `Table.AcceptedAscending` | kv/table/builder.go:85-90 | the accepted adds have strictly ascending keys, and the first add is accepted |
| `Table.EntryInverse` | pkg/bufioutil/bufio_writer.go:69-85 | a length-prefixed entry is read back from anywhere in a file |
| `Table.ValueAtOffset` | kv/table/reader.go:109-142 | every value is found at its recorded offset in any file that starts with the data |
| `Table.OffsetsGrow` | kv/table/builder.go:92-99 | recorded offsets are non-negative and non-decreasing |
| `Table.StoreBuilder.Write` | pkg/bufioutil/bufio_writer.go:69-85 | length, then content |
| `Table.StoreBuilder.Add` | kv/table/builder.go:85-110 | appends a key above the last, drops any other; the recorded bounds stay exact |
| `Table.StoreBuilder.Close` | kv/table/builder.go:138-165 | the file is the table of exactly the entries |
| `Table.ReadBytes` | kv/table/reader.go:130-142 | the entry at an offset, nothing when the file is too short |
| `Table.Open` | kv/table/reader.go:50-106 | a file opens only if its last eight bytes are the magic number, with one offset per key; a table below 2^31 bytes opens if and only if it has an entry, with all its keys and offsets |
| `Table.Get` | kv/table/reader.go:109-117 | finds a key with its value exactly when the table has it |
| `Table.Rank` | kv/table/reader.go:109-117 | the rank of a key among ascending keys |
| `Table.Iterate` | kv/table/reader.go:145-177 | yields the entries in key order |
| `Table.BuildAndRead` | kv/table/builder.go:85-165 | adds and close make the table of the accepted adds; it opens if and only if it is below 2^31 bytes, and iteration and lookup give the accepted adds |
| `MergeIterator.RootLeastPending` | kv/table/iterator.go:113-115 | the root of a heap of sorted cursors has the least key of all pairs to come |
| `MergeIterator.SwapKeeps` | kv/table/iterator.go:118-122 | a swap keeps all pairs although it records crossed positions |
| `MergeIterator.SinkSwap` | kv/table/iterator.go:113-122 | swapping with the smaller child moves the order gap down |
| `MergeIterator.RiseSwap` | kv/table/iterator.go:113-122 | swapping with the parent moves the order gap up |
| `MergeIterator.MergedIterator.constructor` | kv/table/iterator.go:35-60 | a heap holding all pairs of all inputs, empty inputs left out |
| `MergeIterator.MergedIterator.Down` | kv/table/iterator.go:113-145 | sinking restores order from the position on, moves nothing behind the range and keeps all pairs |
| `MergeIterator.MergedIterator.Up` | kv/table/iterator.go:113-145 | raising restores the whole heap and keeps all pairs |
| `MergeIterator.MergedIterator.Init` | kv/table/iterator.go:57-59 | turns any queue into a heap of the same pairs |
| `MergeIterator.MergedIterator.Pop` | kv/table/iterator.go:133-140 | takes out the root's cursor, the rest stays a heap |
| `MergeIterator.MergedIterator.Push` | kv/table/iterator.go:125-145 | adds a cursor and repairs the heap at the position just recorded |
| `MergeIterator.MergedIterator.HasNext` | kv/table/iterator.go:64-83 | true exactly while pairs are left; the current pair is one with the least key and is removed |
| `MergeIterator.Merge` | kv/table/iterator.go:44-83 | draining yields every pair of every input exactly once, keys never going down |
| `CompactJob.GroupNext` | kv/compact_job.go:92-109 | closing a key's group leaves a compaction of all smaller keys and starts the next group |
| `CompactJob.AllValuesOf` | kv/compact_job.go:84-110 | a closed group has a permutation of all values of its key in all inputs |
| `CompactJob.CompactionJob.OpenOutput` | kv/compact_job.go:191-202 | a builder under a fresh, pending number |
| `CompactJob.CompactionJob.FinishOutput` | kv/compact_job.go:205-228 | records a table of the builder's entries with exact bounds and size; an error without a builder |
| `CompactJob.CompactionJob.Add` | kv/compact_job.go:149-170 | an empty value is dropped, any other appended to the concatenated outputs; an output is finished exactly when the file size limit is reached |
| `CompactJob.RotateMore` | kv/compact_job.go:163-168 | an output that reaches the limit is closed and keeps the outputs rotated |
| `CompactJob.RotateEnd` | kv/compact_job.go:122-128 | the last output, below the limit, completes them |
| `CompactJob.CompactionJob.CloseGroup` | kv/compact_job.go:93-101 | merges once and adds; fails exactly when the merger fails |
| `CompactJob.CompactionJob.FinishMerge` | kv/compact_job.go:112-128 | the last group and the last output |
| `CompactJob.CompactionJob.DoMerge` | kv/compact_job.go:76-129 | on success the outputs together are strictly ascending with one entry per key, the non-empty merge of all its values, and every output but the last is filled up to the size limit by its last entry and not before; on failure the merger failed on all values of some key |
| `Versions.ApplyConcat` | kv/version/edit_log.go:91-100 | applying logs in two parts is applying them all |
| `Versions.ApplyCompaction` | kv/compact_job.go:135-144 | with two levels or more the logs of a compaction replace its inputs by its outputs |
| `Versions.OneLevelCompaction` | kv/version/version.go:157-161 | with one level the outputs are ignored |
| `Versions.GetFiles` | kv/version/level.go:33-39 | lists the files of a level exactly once; none for a level that does not exist |
| `Versions.GetOverlappingInputs` | kv/version/version.go:172-184 | a file of the level is picked if and only if it ends at or above the lower bound and starts at or below the upper |
| `Versions.PickL0Compaction` | kv/version/version.go:70-106 | none below the threshold; else all of level 0, and a level-1 file if and only if its range meets that of some level-0 file |
| `Versions.OverlapsIff` | kv/version/version.go:172-184 | two ranges overlap if and only if some key is in both |
| `Versions.MeetsIff` | kv/version/version.go:81-100 | a level-1 file is met if and only if it has a key in common with a level-0 file |
| `Versions.PickExample` | kv/version/version.go:70-106 | on the example of the code's comment, level-0 files 1~10 and 1000~1001 pick 1~5 and neither 100~200 nor 400~500 |
| `Versions.FindFiles` | kv/version/version.go:109-119 | level by level, a file is found if and only if it is in the version and its range covers the key |
| `Lsm.RangeBounds` | kv/table/builder.go:113-120 | a table has no key outside its recorded range |
| `Lsm.FoundReadsAll` | kv/version/version.go:109-119 | reading the found files reads every stored value of the key |
| `Lsm.FindReaders` | kv/version/snapshot.go:49-62 | files of the version covering the key that together hold all of its values |
| `Lsm.OutputsRead` | kv/compact_job.go:76-129 | the outputs hold of each key what the whole compaction yields |
| `Family.FlushKeeps` | kv/flusher.go:52-76 | a flush keeps the invariant and only adds its file to level 0 |
| `Family.MoveKeeps` | kv/compact_job.go:45-56 | a trivial move keeps the invariant: the file shares no key with level 1 |
| `Family.OutputApart` | kv/version/version.go:94-105 | an output shares no key with a level-1 file that was not an input |
| `Family.MergeKeeps` | kv/compact_job.go:135-144 | committing a merge keeps the invariant, whatever was flushed meanwhile |
| `Family.StepKeeps` | kv/family.go:169-200 | every operation keeps the invariant |
| `Family.RunKeeps` | kv/family.go:169-200 | in every reachable state no key is in two level-1 tables, and a running job's inputs are intact |
| `Family.FlushTotal` | kv/flusher.go:52-76 | a flush adds exactly its own value of each key |
| `Family.MoveTotal` | kv/compact_job.go:45-56 | a trivial move changes no key's values |
| `Family.MergeTotal` | kv/compact_job.go:76-144 | a merge replaces all values of a key in its inputs by their outcome and leaves the rest |
| `Family.AssociativeMergerKeeps` | kv/merger.go:6-9 | a merger that ignores order, may merge merges, and treats empty as absent keeps its own reading |
| `Family.StepMeaning` | kv/compact_job.go:45-170 | no operation changes what any key reads, beyond what a flush adds |
| `Family.RunMeaning` | kv/compact_job.go:31-42 | after every run every key reads as all values ever flushed for it would |
| `Family.OneLevelLoses` | kv/version/version.go:157-161 | with one level a committed compaction takes exactly its inputs' values away |
| `Family.LosesOne` | kv/version/version.go:157-161 | a run with one level after which nothing is left of a flushed value |
| `Family.LevelsIff` | kv/compact_job.go:31-42 | all runs read a key as all values ever flushed for it if and only if there are two levels or more |
| `FamilyStore.ReadInputs` | kv/compact_job.go:173-188 | opening and iterating the input files yields their contents |
| `FamilyStore.ApplyLogs` | kv/version/edit_log.go:91-100 | the loop applies all logs in order |
| `FamilyStore.FlushTable` | kv/flusher.go:38-69 | the built file stores the accepted pairs, with exact metadata |
| `FamilyStore.StoredFamily.Flush` | kv/flusher.go:38-76 | over bytes, an allocation and a flush step, both enabled, with one new file of the reported size; nothing without an add |
| `FamilyStore.StoredFamily.Compact` | kv/family.go:181-200 | over bytes, a run of enabled operations of the state machine: nothing exactly below the threshold, else a move or a merge that leaves level 0 empty, its outputs rotated at the size limit, or, only if the merger fails on the picked inputs, an abort; no file changes, and new files have new numbers |
| `FamilyStore.StoredFamily.Get` | kv/version/snapshot.go:49-62 | over bytes, all stored values of the key |
| `Retention.CommitShape` | kv/version/version_set.go:132-143 | a commit installs a new version; the old one goes exactly when no snapshot holds it |
| `Retention.CommitVersions` | kv/version/family_version.go:99-111 | commits keep the active versions exact |
| `Retention.OpenVersions` | kv/version/snapshot.go:34-41 | so does opening a snapshot |
| `Retention.CloseVersions` | kv/version/version.go:41-52 | so does closing one |
| `Retention.CommitStep` | kv/family.go:136-147 | a commit keeps the invariant at every stage of a clean-up pass |
| `Retention.CommitHeld` | kv/version/family_version.go:99-111 | a commit keeps every other version, and the one it replaces if and only if a snapshot holds it |
| `Retention.CloseHeld` | kv/version/version.go:41-52 | closing drops the version if and only if it is not current and no other snapshot holds it |
| `Retention.OtherSteps` | kv/family.go:203-278 | so do creating, registering and unregistering files and all steps of the pass |
| `Retention.RunKeeps` | kv/family.go:236-278 | in every quiet run the invariant holds: counts are exact, and all files in use stay on disk |
| `Retention.PendingStays` | kv/family.go:203-278 | in every quiet run a pending output stays on disk until it is unregistered |
| `Retention.NewFileStays` | kv/flusher.go:38-49 | so does a new file from its registration on |
| `Retention.FileCommits` | kv/flusher.go:38-76 | creating, registering, committing and unregistering a file adds exactly it to the current version |
| `Retention.PassRemoves` | kv/family.go:236-278 | an undisturbed pass removes any file that is neither pending nor in an active version |
| `Retention.ActiveIff` | kv/version/family_version.go:90-111 | a version is active if and only if it is current or has a reference |
| `Retention.CollectSafeIff` | kv/flusher.go:38-49 | collecting is safe in every continuation if and only if no listed file is unregistered |
| `Retention.OutputLost` | kv/family.go:236-278 | a run in which a new file is removed under its writer |
| `Retention.SnapshotStable` | kv/version/version.go:131-139 | an open snapshot sees the same files after any step |
| `Retention.SnapshotKeeps` | kv/version/snapshot.go:34-75 | over a whole run its files are those it saw when opened, and are on disk |
| `Retention.FamilyFiles.GetSnapshot` | kv/version/family_version.go:63-67 | a snapshot of the current version, which gains a reference |
| `Retention.FamilyFiles.CloseSnapshot` | kv/version/snapshot.go:70-75 | only the first close has an effect |
| `Retention.FamilyFiles.RemoveVersion` | kv/version/family_version.go:90-96 | never removes the current version |
| `Retention.FamilyFiles.Release` | kv/version/version.go:47-52 | the last release removes the version |
| `Retention.FamilyFiles.AppendVersion` | kv/version/family_version.go:99-111 | swaps the current version |
| `Retention.FamilyFiles.CommitFamilyEditLog` | kv/version/version_set.go:116-146 | the new version's files; the old version goes exactly when no snapshot holds it; the invariant is kept |
| `Retention.FamilyFiles.NewTableBuilder` | kv/family.go:128-132 | creates a file under a new number, not registered yet |
| `Retention.FamilyFiles.AddPendingOutput` | kv/family.go:203-205 | it becomes a pending output and nothing else changes |
| `Retention.FamilyFiles.RemovePendingOutput` | kv/family.go:208-210 | it is no pending output any more and nothing else changes |
| `Retention.FamilyFiles.GetAllActiveFiles` | kv/version/family_version.go:70-86 | the union over all active versions |
| `Retention.FamilyFiles.DeleteObsoleteFiles` | kv/family.go:236-278 | an undisturbed pass leaves exactly what is pending or active |
| `Snapshots.CommitEdit` | kv/version/version_set.go:132-143 | the files recorded for the new version are those of its levels, for a flush, a move and a merge |
| `Snapshots.StepKeeps` | kv/family.go:128-278 | every step of flushers, jobs, readers and clean-up passes keeps the joint invariant |
| `Snapshots.ReadStable` | kv/version/snapshot.go:49-62 | no step changes what an open snapshot reads of a key |
| `Snapshots.ReadsKeep` | kv/version/snapshot.go:34-75 | in every quiet run the reads of an open snapshot stay the same for every key |
| `Snapshots.ReadsAsOpened` | kv/version/snapshot.go:34-75 | an open snapshot reads every key as all values flushed before it was opened would |
| `Snapshots.FlushThenRead` | kv/flusher.go:38-76 | from every reachable state any non-empty table can be flushed, and a snapshot opened after that reads its values |
| `FileNumbers.RunKeeps` | kv/version/version_set.go:105-108 | while no commit is overtaken twice no number is handed out twice |
| `FileNumbers.StoreUniqueIff` | kv/version/version_set.go:127-139 | later numbers stay new if and only if at most one was handed out between load and store |
| `FileNumbers.NumberReused` | kv/version/version_set.go:127-139 | a run that hands out a number twice |
| `Manifest.ReplayMore` | kv/version/version_set.go:235-246 | a family without records replays to an empty one and disturbs no other |
| `Manifest.SnapshotRebuilds` | kv/version/version_set.go:348-363 | a version's snapshot rebuilds it level by level, in whatever order files are listed |
| `Manifest.SnapshotReplays` | kv/version/version_set.go:334-371 | a snapshot replays to exactly the families it was taken of, and to its number |
| `Manifest.CommitKeeps` | kv/version/version_set.go:116-146 | the appended record replays to what the commit installed |
| `Manifest.CommitGoesIn` | kv/version/version_set.go:116-146 | a commit installs the edited version, appends its record under the next file number and changes no other family or manifest |
| `Manifest.CreateGoesIn` | kv/version/version_set.go:150-162 | a new family starts empty and changes no other |
| `Manifest.WriteKeeps` | kv/version/version_set.go:268-290 | the new manifest is complete before CURRENT names it and never overwrites the old |
| `Manifest.SwitchKeeps` | kv/version/version_set.go:310-321 | switching CURRENT keeps everything recoverable |
| `Manifest.RunKeeps` | kv/version/version_set.go:177-193 | over every run of creations, commits, stops, opens and harmless failed opens the invariant holds |
| `Manifest.Recovers` | kv/version/version_set.go:196-252 | after every such run the manifest in use replays to the committed families, a next number above all files, and a larger manifest number |
| `Manifest.Reopens` | kv/version/version_set.go:177-193 | after every such run a stop and an open bring the store up with exactly the committed families, under a new manifest that is the only one left |
| `Manifest.FailedOpenKeepsIff` | kv/store.go:117-147 | a failed open leaves the manifest in use, and everything recoverable, if and only if it is the first and no number was read |
| `Manifest.ManifestLost` | kv/store.go:117-147 | a run after which CURRENT names a manifest that is gone |
| `VersionSet.Recover` | kv/version/version_set.go:196-232 | the replay of the records the bytes stand for; an error when one of them is cut off or names an unknown family |
| `VersionSet.ReplayRecord` | kv/version/edit_log.go:91-112 | one record, log by log; an error if and only if its family is unknown; else only that family changes |
| `VersionSet.StoreVersionSet.NextFileNumber` | kv/version/version_set.go:105-108 | the old counter, which grows by one |
| `VersionSet.StoreVersionSet.CommitFamilyEditLog` | kv/version/version_set.go:116-146 | an unknown family is an error; else the edited version, the next file number as the manifest number and the next one, exactly as replaying the persisted record gives them |
| `VersionSet.StoreVersionSet.WriteSnapshot` | kv/version/version_set.go:334-388 | persists a snapshot of all families and the next number |
| `VersionSet.StoreVersionSet.FamilySnapshot` | kv/version/version_set.go:348-363 | the logs, replayed on an empty version, give the version |
| `VersionSet.Reopen` | kv/version/version_set.go:177-193 | snapshot, bytes, recovery: the same families, for every memory whose numbers fit their fields |
| `Queue.StepKeepsInv` | pkg/queue/fanout.go:126-186 | every operation keeps the queue's invariant |
| `Queue.RunKeepsInv` | pkg/queue/fanout.go:262-363 | so does every run |
| `Queue.Retention` | pkg/queue/queue.go:181-213 | after every run the queue tail is the least fan-out tail and nothing a fan-out still needs is removed |
| `Queue.TailsOnlyGrow` | pkg/queue/fanout.go:348-363 | tails, log and removal bound never go back |
| `Queue.RestartsAt` | pkg/queue/fanout.go:262-292 | in every run a reopened fan-out continues where the head was at its last acknowledgement that counted, or at the queue tail without one |
| `Queue.MinTailUnique` | pkg/queue/fanout.go:168-186 | the least tail is well defined |
| `Queue.FanOutQueue.Append` | pkg/queue/queue.go:118-152 | the log grows by the message, under the next sequence, and nothing else changes |
| `Queue.FanOutQueue.GetOrCreateFanOut` | pkg/queue/fanout.go:126-143 | a fan-out of that name exists; a new one starts at the queue tail |
| `Queue.FanOutQueue.Consume` | pkg/queue/fanout.go:300-310 | the next sequence, and the head moves to it; none at the queue head |
| `Queue.FanOutQueue.SetHeadSeq` | pkg/queue/fanout.go:313-326 | moves within tail and queue head, else an error |
| `Queue.FanOutQueue.Ack` | pkg/queue/fanout.go:348-363 | an acknowledgement above the tail and below the head becomes the tail, persisted with the head, and the queue tail is then the least fan-out tail; any other changes nothing |
| `Queue.FanOutQueue.Sync` | pkg/queue/fanout.go:168-186 | the loop acknowledges the least tail of all fan-outs |
| `Replication.StepKeeps` | replication/replicator.go:139-319 | every step of broker, connection and storage keeps the invariant |
| `Replication.RunKeeps` | replication/replicator.go:139-319 | so does every interleaving |
| `Replication.NoGapIff` | replication/replicator.go:181-233 | no run has a gap if and only if the fan-out tail starts at or below the persisted acknowledgement |
| `Replication.LateTargetSkips` | replication/replicator.go:209-217 | otherwise three steps of the handshake skip messages |
| `Replication.PositionsOrdered` | storage/handler/writer.go:100-122 | positions stay ordered, the handshake never resets, and everything applied is the queue's data in order |
| `Replication.StoreBatchIs` | storage/handler/writer.go:100-112 | a batch is applied up to the first replica that is not the next one, and the head moves by as many |
| `Replication.CatchesUp` | replication/replicator.go:139-319 | from every state a target that starts without a gap can reach, some steps bring all messages to the disk of the storage, and the broker's tail to the last one |
| `Replication.FlushKeeps` | replication/sequence.go:80-89 | after a flush up to an acknowledgement everything below it is durable, with the queue's data |
| `Replication.WriteHandler.Acknowledge` | replication/sequence.go:80-89 | setting and syncing the acknowledgement is the flush step, and a restart begins there |
| `Replication.WriteHandler.constructor` | replication/sequence.go:92-106 | a node that comes up on the meta page is the restarted storage |
| `Replication.WriteHandler.Write` | storage/handler/writer.go:69-128 | applies exactly the longest prefix of the batch that continues the sequence, in order; answers with the acknowledgement when synced |
| `Replication.WriteHandler.Next` | storage/handler/writer.go:54-66 | the answer is the head of the storage, which the handshake step goes on with |
| `Replication.WriteHandler.Reset` | storage/handler/writer.go:38-52 | performs the step that ends a handshake with a reset |
| `Replication.Replicator.ConsumeBatch` | replication/replicator.go:322-346 | the next messages in order, as many as there are up to the batch size |
| `Replication.Replicator.Adopt` | replication/replicator.go:181-233 | takes over the storage's head when the fan-out can, else asks it to reset |
| `TaskGroupRuns.SubmitKeeps` | coordinator/task/controller.go:95-132 | a submission, also of a name in use, keeps the invariant |
| `TaskGroupRuns.FinishKeeps` | coordinator/task/processor.go:109-129 | a guarded result counts for the submission it was read from, with its state and error text |
| `TaskGroupRuns.SeenKeeps` | coordinator/task/controller.go:158-195 | reading on, in order, with repeats or by relisting, keeps every waiter sound |
| `TaskGroupRuns.ConfirmKeeps` | coordinator/task/controller.go:237-248 | a confirmed result belongs to the waiter's submission as long as the status does |
| `TaskGroupRuns.CloseJustified` | coordinator/task/controller.go:250-266 | a guarded close has the results of the whole submission |
| `TaskGroup.VerdictIs` | coordinator/task/controller.go:252-258 | a closed group is OK exactly when no task has an error message |
| `TaskGroupRuns.StepKeeps` | coordinator/task/controller.go:144-195 | every step keeps the invariant |
| `TaskGroupRuns.DoneIsJustified` | coordinator/task/controller.go:303-323 | in every run a group is shown done only with the results of all executors of one submission, and OK exactly when none has an error message |
| `TaskGroupSafety.ClosesOwnSubmission` | coordinator/task/controller.go:250-266 | in every run a running group becomes done only with the results of all executors of the very submission it was running for |
| `TaskGroupRuns.ResultsStay` | coordinator/task/processor.go:124-129 | a result is written once |
| `TaskGroupSafety.FailureShowsIff` | coordinator/task/controller.go:252-258 | in every run a closed group is OK if and only if every failed task has an error without text |
| `TaskGroupSafety.OneFailure` | coordinator/task/controller.go:252-258 | a run whose only task fails: its group ends as OK if the error has no text, else as failed with that text |
| `TaskGroupOutcome.FinishRecords` | coordinator/task/processor.go:109-129 | a report changes its own task only: OK without text on success, failed with the text of the error otherwise |
| `TaskGroupOutcome.ResultsAreTold` | coordinator/task/processor.go:109-129 | in every run the results are exactly what the executors reported |
| `TaskGroupOutcome.OutcomeShows` | coordinator/task/controller.go:250-266 | in every run a closed group is OK if and only if every executor of its submission reported success or an error without text |
| `TaskGroupOutcome.GroupCloses` | coordinator/task/controller.go:144-195 | from every reachable state a running group can still be closed by some steps |
| `TaskGroupSafety.RelistClosesIff` | coordinator/task/controller.go:165-186 | listing everything closes a complete group if and only if the controller already waits for that submission; else it waits for every executor again |
| `TaskGroupSafety.StuckGroup` | coordinator/task/controller.go:165-186 | a run that ends with all results in, everything read and the group open |
| `TaskController.StatusWaiter.constructor` | coordinator/task/controller.go:218-235 | waits for all executors |
| `TaskController.StatusWaiter.Confirm` | coordinator/task/controller.go:237-248 | replaces the first task of an executor waited for, ignores others |
| `TaskController.StatusWaiter.UpdateStatus` | coordinator/task/controller.go:250-266 | OK if and only if no task has an error text, and the store without exactly the tasks of the group |
| `TaskController.Controller.Submit` | coordinator/task/controller.go:95-132 | the three early returns, else one transaction with status and tasks |
| `TaskController.Controller.TryAdd` | coordinator/task/controller.go:288-301 | ignores done groups, replaces a waiter |
| `TaskController.Controller.TryNotify` | coordinator/task/controller.go:303-323 | confirms; closes the group if and only if no other executor is waited for and the status is unchanged |
| `TaskController.NotifyIs` | coordinator/task/controller.go:303-323 | the protocol step does the same: the one task is taken, the group closed if and only if it is complete and unchanged |
| `Shards.ReplicasDiffer` | coordinator/database/shard_assign.go:95-98 | a shard's replicas take different positions, for every start and shift |
| `Shards.PlaceInRound` | coordinator/database/shard_assign.go:72-90 | within a round each replica moves on by one node per shard |
| `Shards.SpotIsPlace` | coordinator/database/shard_assign.go:72-98 | the position of a replica in one formula: leaders round the nodes, replicas at a distance that grows with each round |
| `Shards.RoleLoadIs` | coordinator/database/shard_assign.go:72-90 | each position is met once per full round by each replica |
| `Shards.LoadBounds` | coordinator/database/shard_assign.go:72-90 | load per node between factor times rounds and one factor more |
| `Shards.Balanced` | coordinator/database/shard_assign.go:13-30 | loads differ by at most the factor, and not at all for whole rounds |
| `Shards.LeadersBalanced` | coordinator/database/shard_assign.go:76-80 | leaders differ by at most one |
| `Shards.LoadCounts` | coordinator/database/shard_assign.go:79-86 | the load counts a node's occurrences in one shard's replica list |
| `Shards.OccursIsLoad` | coordinator/database/shard_assign.go:71-90 | summed over all shards, it counts a node's occurrences in the assignment |
| `Shards.LedBounds` | coordinator/database/shard_assign.go:13-30 | any two nodes are leader and replica of one shard once in as many rounds as there are other nodes, but for one |
| `Shards.FollowersTogether` | coordinator/database/shard_assign.go:95-98 | a shard's later replica is as many places after an earlier one as they are apart, or one more |
| `Shards.SpreadIff` | coordinator/database/shard_assign.go:13-30 | the second goal: spread evenly, but for one, if and only if one of the two replicas is the leader or there are at most three nodes |
| `Shards.AssignReplicas` | coordinator/database/shard_assign.go:54-92 | the loop gives every shard from the first on its specified replicas |
| `Shards.Assign` | coordinator/database/shard_assign.go:31-50 | refuses exactly the three bad configurations; else factor replicas per shard at the positions of the round-robin formula, on different nodes, and all nodes hold equally many but for the factor |

## Left out

- Real I/O, memory mapping, fsync, gRPC, the etcd client, TOML and JSON, tickers and goroutine scheduling: disk, network and the key-value store are abstract state.
- The bitmap library: its marshal pair is a parameter that is assumed to be inverse on ascending key lists; `Table.GoodCodecs` shows that such pairs exist.
- Table.Open: for footer positions outside the file, where the Go code panics, it reports that the file cannot be opened.
- Table.BuildAndRead: claims reading for files below 2^31 bytes only, the range of the recorded offsets.
- FamilyStore.StoredFamily.Compact: for files below 2^31 bytes, which it has to open; runs one job without other steps in between, which `Family` covers.
- FamilyStore.StoredFamily.Get: likewise for files below 2^31 bytes.
- Family.RunMeaning: a commit is one step; the window inside it is the subject of `FileNumbers`.
- Retention.RunKeeps: reference counts change in one step each; the order of reading and taking a reference on the current version is not split.
- Manifest.Recovers: a record is appended in one step; that a cut record makes the next open fail is in `VersionSet.Recover`.
- Level-1 ranges may overlap; only key sets are claimed to be disjoint.
- Replication.NoGapIff: the storage sets and syncs its acknowledgement in one step, never above its head, as the flush that drives it is outside this model.
- BlockScan.Scan: values are handed over as they are stored, the conversion of integers to `float64` is not modelled; the aggregators are a function of the calls so far that says when they are complete.
- A second `Bytes` call of the delta encoder.
- TaskGroupRuns.DoneIsJustified: that a complete group is eventually closed is not claimed, only that it always can be (`TaskGroupOutcome.GroupCloses`); `TaskGroupSafety.RelistClosesIff` shows when a listing does not close it.
- Retries, concurrency limits and panics of task processors, and task parameters.
- `pkg/queue/segment`, `pkg/queue/page`, the metric stores under `tsdb`, query planning and execution, time calculators, SQL, HTTP, configuration, logging and monitoring.
