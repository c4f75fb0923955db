# Verified model of the minkowski-lsm storage engine

A Dafny model of the log-structured storage engine of `crates/minkowski-lsm`, with
proofs of what it promises: the manifest log, the sorted-run file format and its
reader, the compaction scheduler, writer and executor, and the store over time.
`dafny verify dfyconfig.toml` checks all of it.

## Layout

| part | modules |
|---|---|
| bytes, bits, orders | `Bytes`, `Bits`, `Order` |
| manifest and its log | `Manifest`, `EntryCodec`, `ManifestLog`, `LogRecovery`, `LogDamage`, `OversizedCommit` |
| run file and reader | `Schema`, `SchemaCodec`, `SerializedPage`, `SparsePage`, `AllocatorMeta`, `Fingerprint`, `Bloom`, `RunFormat`, `RunReader`, `RunFile` |
| compaction of runs | `Archetypes`, `Merge`, `OutputSchema`, `CompactionPlan`, `CompactionWriter`, `Carry`, `RunAgreement`, `CompactRun` |
| what compaction means | `RunMeaning`, `OutputRun`, `CompactionMeaning`, `CompactionClosed`, `CompactionFile` |
| what a flush writes | `Flush`, `FlushGaps` |
| scheduling and commit | `Picker`, `Executor`, `Protocol`, `Engine`, `CompactionLoop`, `OutputNames` |
| the store over time | `RunHistory`, `Recency`, `StoreView`, `StoreRuns` |
| runs of the store that go wrong | `Realization`, `RowHistories`, `MixedSignatures`, `SpanningRun`, `FlushGaps` |

Byte formats are specified by encoding functions over byte sequences; a decoder is a
method proved to yield a value exactly when that value's encoding is there. Objects
that the program updates in place (manifest, log, bloom filter, output file, store) are
classes whose methods are proved against functions of the state before.

## Main results

- **A compaction preserves meaning** (`CompactionMeaning.CompactionPreservesMeaning`,
  `CompactionMeaning.LookupKeptIff`), from input bytes to output bytes, over any runs that
  flushes and compactions write, and its output is a well-formed run again, complete and
  with no signature twice (`CompactionClosed.CompactionIsWellFormed`). Exactly when it is
  refused: `CompactionClosed.RefusedIff`.
- **A flush is a well-formed run** (`Flush.FlushIsWellFormed`), and exactly when it is
  complete and when its signatures differ (`Flush.FlushCompleteIff`, `Flush.FlushDistinctIff`).
- **Crash safety** (`Protocol.CrashSafe`, `Protocol.CrashIsAtomic`): the executor's steps, in
  the order the code takes them (`Engine.Store.CommitOutput`), are steps of a machine that
  may crash anywhere, inside an append at any byte.
- **Recovery of the log** is idempotent and maximal on arbitrary bytes, and a cut at any
  byte recovers exactly the whole frames before it (`LogRecovery`).
- **Damage is noticed**: any one changed byte changes a checksum (`Bits.OneByteChangesCrc`), so
  recovery ends before a damaged entry (`LogDamage.DamageStopsRecovery`), a damaged run file
  does not open (`RunFile.DamagedFileRefused`), a damaged page is refused
  (`RunAgreement.DamagedPageFails`); and what recovery does read was framed
  (`LogDamage.RecoveredIsFramed`).
- **The store over time** (`Recency.HistoryKeepsView`, `RunHistory.RewritingBound`,
  `CompactionLoop.CompactAll`): stratified levels, one unchanging view, at most n - 1 rewrites
  for each row, and a loop that always ends.
- **The store that executes** is such a history, through crashes and recoveries at any point
  (`StoreRuns.StepKept`): what recovery would find shows the flushes whose entries reached
  the log whole (`StoreRuns.RunKeepsView`), and committed compactions keep the rewriting bound
  (`StoreRuns.RunRewritingBound`; outputs that are written and never committed are not
  counted). The methods of the store make its steps, the whole loop among them: compacting
  everything changes no lookup (`StoreRuns.LoopKeepsLookups`).
- **What can happen does**: a job that is neither refused nor too big has an output
  (`CompactionFile.CompactionExists`), so the failures below are shown as runs of the store
  from its first byte, with files for every flush and every compaction (`Realization`).
- **Writer and reader agree** (`RunAgreement.FileHolds`, `RunFile.FileOpens`, `RunReader.GetPage`).

## Where the code falls short, and exactly when it does not

- `append` returns Ok for an entry beyond the frame limit and the next recovery drops it:
  `LogRecovery.AppendSurvivesIff`, with `OversizedCommit.OversizedCommitIsLost`.
- A flush writes dirty pages only, column by column, so a row may lack the cell of a
  component of its archetype. A job in which such a row is the one chosen for its entity is
  refused with "source page not found", and the loop is stuck: `CompactionClosed.RefusedIff`,
  with `FlushGaps.UnevenFlushRefused` and `FlushGaps.UnevenStuck`. Flushes with even dirty
  pages never meet this (`Flush.FlushCompleteIff`).
- The signature of a flushed archetype is the set of its dirty columns, so two archetypes of
  a run may have the same one. Only the first is found by it; the rows of the second are
  merged nowhere, and go with the inputs: `CompactionMeaning.LookupKeptIff`,
  `CompactionMeaning.EntitySurvivesIff`, with `FlushGaps.TwinLost`. Flushes that write
  different columns in different archetypes never meet this (`Flush.FlushDistinctIff`). The
  scheduler counts such a run once for each archetype (`Picker.HitsAreTimes`).
- For the same reason the newest row of an entity may be of an archetype without a component
  that older inputs have. The newest row wins as a whole, so that component's bytes go with
  the older inputs: `CompactionMeaning.CellKeptIff`, with `FlushGaps.ColumnLeftBehind`.
- When runs carry different signatures, the inputs of a job may lie on both sides, by
  recency, of a run that is left behind; newest-wins lookup then finds an older image:
  `RunHistory.ViewKeptIff`, with `MixedSignatures.OldImageReturns`.
- A compaction output is named by its range alone and the name is not checked. If it is
  taken, a run of the manifest loses its file: `Protocol.OutputPathMustBeFresh` and
  `OutputNames.OutputTakenIff`; flushes in sequence lead there
  (`SpanningRun.SpanningJobReachable`). A store whose flushes all carry the same signatures
  never meets this (`StoreRuns.UniformFresh`, through `OutputNames.SequenceHasNoSpan`).

## Assumptions

The code relies on these without checking; they are hypotheses of the theorems that name
them.

- Encoded entries fit `MAX_FRAME_PAYLOAD` (`StoreRuns.BeginStep`, `StoreRuns.CommitsFit`;
  for small jobs this is `Realization.CommitLogs`). Output paths are untracked
  (`Protocol.Admissible`, `StoreRuns.OutputsFresh`): of flushes with one signature set this
  is proved.
- Flushes come in sequence, under the names the writer gives them (`StoreRuns.FlushFits`).
- A temporary file that opens at all is a run of the registry (`StoreRuns.TemporaryStep`).
- Runs come from the flush or compaction writer (`RunMeaning.RunWf`): sorted index, entity
  pages of at most PAGE_SIZE rows, a non-empty signature for every archetype, one row for
  each entity, carried pages that pass their checksums. This is proved of both writers
  (`Flush.FlushIsWellFormed`, `CompactionClosed.CompactionIsWellFormed`). Inputs of a
  compaction may lack cells and may repeat signatures.
- A world that is flushed stays within the numbers of the format (`Flush.WorldOk`): each
  entity in one row, at most 65536 pages to a column, fewer archetypes and components than
  reserved ids.
- Runs in which a signature occurs twice are shut out of the store over time
  (`StoreView.Plain`, `StoreView.ExecutionIsMerge`): a flush can break this, as above.
- All runs draw on one component registry (`Executor.Universe`): one layout for each
  component, at most 0xFFFD signatures and 0xFFFE components. With 65535 components slot
  0xFFFE would be taken for the allocator slot.
- The greatest sequence numbers of runs differ (`StoreView.Descending`, `RunHistory.DistinctHi`).
- A manifest has between 1 and 32 levels.
- The orphan sweep borrows the manifest, so it does not overlap a flush or a compaction of
  the same process; between the write of a run file and its log entry it would delete the file.
- Serialized output pages stay below 4 GiB; beyond that `encode` panics and the model
  refuses the job (`CompactionWriter.Oversized`). A file of 2^64 bytes or more counts as a
  failed write.

## Model

| member | source | states |
|---|---|---|
| `Manifest.LsmManifest.AddRun` | crates/minkowski-lsm/src/manifest.rs:109-118 | the run is appended to its level; a level the manifest does not have is refused and nothing changes |
| `Manifest.LsmManifest.RemoveRun` | crates/minkowski-lsm/src/manifest.rs:123-131 | exactly the first run at the path goes, the others keep their order; without such a run nothing changes |
| `Manifest.LsmManifest.PromoteRun` | crates/minkowski-lsm/src/manifest.rs:134-155 | the run moves between levels, or the manifest is untouched |
| `Manifest.ApplyEntry` | crates/minkowski-lsm/src/manifest_log.rs:512-614 | for all six entry kinds and every manifest: all or nothing, against the meaning `Apply` |
| `Manifest.CheckCommit` | crates/minkowski-lsm/src/manifest_log.rs:562-595 | the checks of a commit accept exactly the commits that can be carried out |
| `Manifest.CommitChecked` | crates/minkowski-lsm/src/manifest_log.rs:596-611 | after the checks no step can fail (the two asserts stand where the code panics), and one-at-a-time removal is removal at once |
| `Manifest.CommitConserves` | crates/minkowski-lsm/src/manifest_log.rs:512-614 | conservation: level by level old runs plus output minus one run for each input, sequence number untouched |
| `Manifest.SurvivorsConserve` | crates/minkowski-lsm/src/manifest.rs:123-131 | survivors and removed runs together are the runs there were, one removed for each path present |
| `Manifest.AddMeans` | crates/minkowski-lsm/src/manifest.rs:109-118 | adding appends the run to its level, needs the level, and leaves every other level and the sequence number alone |
| `Manifest.RemoveMeans` | crates/minkowski-lsm/src/manifest.rs:123-131 | removing takes out the first run at the path, by position, and leaves everything else alone |
| `Manifest.PromoteMeans` | crates/minkowski-lsm/src/manifest.rs:134-155 | promoting takes the first run at the path out of its level and appends it to the other one, which may be the same, and leaves everything else alone |
| `Manifest.AddAndSequenceMeans` | crates/minkowski-lsm/src/manifest_log.rs:544-550 | a flush's entry appends the run to its level and sets the sequence number, or is refused without the level |
| `EntryCodec.EncodeEntry` | crates/minkowski-lsm/src/manifest_log.rs:325-398 | encoding succeeds exactly on encodable entries (path and list limits) and yields their image |
| `EntryCodec.CommitEncodableIff` | crates/minkowski-lsm/src/manifest_log.rs:366-396 | a commit can be encoded if and only if it has at most 1024 inputs, its paths are UTF-8 below 64 KiB and its coverage is below 65536 |
| `EntryCodec.DecodeEntry` | crates/minkowski-lsm/src/manifest_log.rs:400-508 | decoding is exact: it yields an entry if and only if the data starts with the image of that entry |
| `EntryCodec.EntryUnique` | crates/minkowski-lsm/src/manifest_log.rs:325-508 | no data starts with the images of two entries: decode never has a choice and never invents |
| `EntryCodec.EncodedParses` | crates/minkowski-lsm/src/manifest_log.rs:325-508 | every encodable entry decodes to itself, whatever bytes follow |
| `EntryCodec.DecodeMeta` | crates/minkowski-lsm/src/manifest_log.rs:300-323 | run metadata decodes exactly, and only when range, page count and coverage are valid |
| `ManifestLog.Log.Append` | crates/minkowski-lsm/src/manifest_log.rs:665-680 | the frame of the entry is written at the write position; an entry that cannot be encoded changes nothing |
| `ManifestLog.ReplayFrames` | crates/minkowski-lsm/src/manifest_log.rs:620-651 | the loop computes replay of the whole file and truncates exactly where replay stops |
| `ManifestLog.Recover` | crates/minkowski-lsm/src/manifest_log.rs:683-706 | recovery of an existing file is `RecoverFile`; without a file a fresh header and an empty manifest |
| `LogRecovery.RecoverIdempotent` | crates/minkowski-lsm/src/manifest_log.rs:620-706 | on arbitrary bytes: recovering again finds the same manifest and position and truncates nothing more |
| `LogRecovery.RecoverMaximal` | crates/minkowski-lsm/src/manifest_log.rs:165-209 | the manifest is the fold of the entries replayed, and at the write position there is no frame, a bad one, one that does not decode, or one that does not apply |
| `LogRecovery.GoodPrefixRecovered` | crates/minkowski-lsm/src/manifest_log.rs:620-651 | whatever follows the frames of good entries, recovery applies all of those entries first |
| `LogRecovery.TornTail` | crates/minkowski-lsm/src/manifest_log.rs:155-209 | cutting the log of good entries at any byte recovers the fold of exactly the entries whose frames lie before the cut |
| `LogRecovery.TornTailThenAppend` | crates/minkowski-lsm/src/manifest_log.rs:665-706 | entries appended after such a recovery recover as that prefix followed by them |
| `LogRecovery.TornAppend` | crates/minkowski-lsm/src/manifest_log.rs:155-163 | a crash inside an append, at any byte, recovers the log before it |
| `LogRecovery.AppendSurvivesIff` | crates/minkowski-lsm/src/manifest_log.rs:665-680 | an appended entry survives recovery if and only if its encoding fits the frame limit, which append does not check |
| `LogRecovery.FrameReadsBack` | crates/minkowski-lsm/src/manifest_log.rs:165-209 | a written frame reads back exactly when its payload is within the limit |
| `LogDamage.FrameReadIff` | crates/minkowski-lsm/src/manifest_log.rs:165-209 | a frame is read if and only if it lies in the file whole, with its length, within the limit, and with the checksum of its payload |
| `LogDamage.RecoveredIsFramed` | crates/minkowski-lsm/src/manifest_log.rs:620-651 | on arbitrary bytes: the log recovery leaves is the header and whole frames with their right checksums, of which exactly the entries replayed are decoded |
| `LogDamage.RecoveryStopsAt` | crates/minkowski-lsm/src/manifest_log.rs:199-207 | behind a clean log recovery ends at a frame whose stored checksum is not its payload's, whatever follows |
| `LogDamage.DamageStopsRecovery` | crates/minkowski-lsm/src/manifest_log.rs:199-207 | one changed byte in the checksum or the payload of any logged entry: recovery finds exactly the entries before it |
| `LogDamage.RecoveredSequence` | crates/minkowski-lsm/src/manifest_log.rs:512-614 | on arbitrary bytes: the sequence number recovered is that of the last entry replayed that sets one, or 0 |
| `LogDamage.OpensIff` | crates/minkowski-lsm/src/manifest_log.rs:68-104 | a log opens if and only if it begins with the magic, version 2 and the number of levels asked for |
| `Bits.OneByteChangesCrc` | crates/minkowski-lsm/src/manifest_log.rs:155-209 | changing any one byte changes the checksum |
| `OversizedCommit.OversizedCommitIsLost` | crates/minkowski-lsm/src/manifest_log.rs:153-180 | a concrete history of the log in which append accepts a commit of more than 1 MiB and the next recovery drops it |
| `Schema.FromComponents` | crates/minkowski-lsm/src/schema.rs:93-135 | one entry for each name, laid out as its first component, slots in name order; refused exactly beyond the slots there are |
| `Schema.SlotNameBijection` | crates/minkowski-lsm/src/schema.rs:138-145 | slots and names are in bijection and slot order is name order |
| `SchemaCodec.WriteTo` | crates/minkowski-lsm/src/schema.rs:177-212 | the section is the encoding of its entries padded to 64; refused exactly on names too long |
| `SchemaCodec.ReadFrom` | crates/minkowski-lsm/src/schema.rs:218-340 | exact: a schema is read if and only if the data starts with its encoding and its slots, names and alignments are valid |
| `SchemaCodec.SchemaRoundTrip` | crates/minkowski-lsm/src/schema.rs:177-340 | a written schema reads back with the same slots and names, whatever follows |
| `Archetypes.FindArchetype` | crates/minkowski-lsm/src/schema_match.rs:17-51 | the first archetype whose component names are the list given, if any |
| `Archetypes.FoundBySet` | crates/minkowski-lsm/src/schema_match.rs:17-51 | identity is the component set: whatever numbering the run has, the archetype found has exactly the components given, and none is found only when none has them |
| `SerializedPage.Encode` | crates/minkowski-lsm/src/serialized_page.rs:13-31 | offset table and values of the rows |
| `SerializedPage.Decode` | crates/minkowski-lsm/src/serialized_page.rs:52-95 | accepts exactly the images of encode: rows come back if and only if the bytes are their page |
| `SerializedPage.PageUnique` | crates/minkowski-lsm/src/serialized_page.rs:13-95 | the bytes of a page determine its rows |
| `SerializedPage.EncodedLenIsLength` | crates/minkowski-lsm/src/serialized_page.rs:34-49 | the length computed from the offset table alone is the length of the whole page |
| `SparsePage.Encode` | crates/minkowski-lsm/src/sparse_page.rs:22-47 | the blob of a name and its entries |
| `SparsePage.Decode` | crates/minkowski-lsm/src/sparse_page.rs:51-95 | accepts exactly the images of blobs with a non-empty valid name; truncated data and trailing bytes are refused |
| `AllocatorMeta.Encode` | crates/minkowski-lsm/src/allocator_meta.rs:6-17 | the image of generations and free list |
| `AllocatorMeta.Decode` | crates/minkowski-lsm/src/allocator_meta.rs:20-59 | accepts exactly the images of snapshots; truncated data and trailing bytes are refused |
| `Fingerprint.DecodeFingerprint` | crates/minkowski-lsm/src/fingerprint.rs:39-51 | the hash of epoch and stream, computed field by field |
| `Fingerprint.StreamInjective` | crates/minkowski-lsm/src/fingerprint.rs:39-51 | the stream that is hashed determines the list of layouts |
| `Fingerprint.OneByteChangesHash` | crates/minkowski-lsm/src/fingerprint.rs:29-35 | streams of equal length that differ in exactly one byte have different hashes |
| `Fingerprint.RunFingerprint` | crates/minkowski-lsm/src/fingerprint.rs:64-86 | 0 when a serialized component is not registered, else the hash of the entries in name order |
| `Fingerprint.RunStreamIff` | crates/minkowski-lsm/src/fingerprint.rs:64-85 | two runs hash the same stream if and only if they have the same serialized components, registered with the same size, alignment and archived size; raw components, schema order and other registrations do not matter |
| `Fingerprint.RunHashIs` | crates/minkowski-lsm/src/fingerprint.rs:64-85 | 0 exactly where a serialized component is not registered, else the hash of that stream behind the epoch |
| `Fingerprint.EveryNumberCounts` | crates/minkowski-lsm/src/fingerprint.rs:39-60 | binaries that differ in one byte of the size, the alignment or the archived size of one serialized component give different fingerprints |
| `Fingerprint.EpochChangesHash` | crates/minkowski-lsm/src/fingerprint.rs:39-60 | so do epochs that differ in their low byte |
| `Bloom.BlockedBloomFilter.Insert` | crates/minkowski-lsm/src/bloom.rs:82-96 | exactly the bits of the key in the one block it probes are set, so the key is in the filter afterwards and every bit that was set stays set |
| `Bloom.BlockedBloomFilter.Contains` | crates/minkowski-lsm/src/bloom.rs:98-115 | the answer is that of the view of the same blocks |
| `Bloom.BlockedBloomFilter.WriteTo` | crates/minkowski-lsm/src/bloom.rs:117-135 | the encoding of blocks and seed; a filter without blocks is refused |
| `Bloom.Build` | crates/minkowski-lsm/src/bloom.rs:254-280 | the filter is that of the keys added in order to an empty one sized for them, and has all of them, whatever the seed |
| `Bloom.FromBytes` | crates/minkowski-lsm/src/bloom.rs:152-230 | exact: a view is read if and only if it is encoded at the offset, so membership survives the file |
| `Bloom.EncodedBloomIsAt` | crates/minkowski-lsm/src/bloom.rs:117-230 | a written filter is the filter read back, with all its keys |
| `Bloom.HasMonotone` | crates/minkowski-lsm/src/bloom.rs:98-115 | more bits never turn a yes into a no |
| `Bloom.EmptyDenies` | crates/minkowski-lsm/src/bloom.rs:98-115 | a filter in which nothing is set denies every key |
| `Bloom.NoBlocksNoDenial` | crates/minkowski-lsm/src/bloom.rs:98-115 | one without blocks denies none |
| `Bloom.WithOnly` | crates/minkowski-lsm/src/bloom.rs:82-96 | adding a key sets no bit but its own eight in one block |
| `Bloom.HashInjective` | crates/minkowski-lsm/src/bloom.rs:52-57 | the hash loses nothing: different keys have different hashes |
| `Bloom.BlocksAreEnough` | crates/minkowski-lsm/src/bloom.rs:64-80 | a filter has 10 bits for each key it is sized for, and no block more than that takes |
| `Bloom.PackedInjective` | crates/minkowski-lsm/src/bloom.rs:59-61 | page keys are told apart in packed form |
| `RunReader.LowerBound` | crates/minkowski-lsm/src/reader.rs:383-386 | the partition point of a sorted index |
| `RunReader.GetPage` | crates/minkowski-lsm/src/reader.rs:232-301 | filter and binary search find on every key what a linear scan of the index finds |
| `RunReader.IndexedWithoutFilter` | crates/minkowski-lsm/src/reader.rs:232-262 | a run without a filter is read by its index alone |
| `RunReader.SlotPages` | crates/minkowski-lsm/src/reader.rs:377-395 | exactly the pages of the index entries of the slot, in order, across gaps, or an error when one of them is corrupt |
| `RunReader.SlotEntriesRange` | crates/minkowski-lsm/src/reader.rs:382-389 | in a sorted index the entries of a slot are contiguous |
| `RunReader.ArchetypeIdsAre` | crates/minkowski-lsm/src/reader.rs:467-482 | the archetypes of a run are those of its index entries, reserved ones left out |
| `RunReader.ComponentSlotsAre` | crates/minkowski-lsm/src/reader.rs:484-498 | the slots of an archetype are those of its index entries, the entity slot left out |
| `RunFormat.SortIndex` | crates/minkowski-lsm/src/format.rs:190-214 | sorting entries of distinct keys gives a strictly sorted index of the same entries |
| `RunFile.Open` | crates/minkowski-lsm/src/reader.rs:91-208 | exact: opening yields a run if and only if the file parses as it, both checksums included |
| `RunFile.OpensUnique` | crates/minkowski-lsm/src/reader.rs:91-208 | a file opens as one run at most |
| `RunFile.OpensChecked` | crates/minkowski-lsm/src/reader.rs:91-206 | what opens has magic, version, both checksums, range, page count and fingerprint at their places in the file |
| `RunFile.DamagedFileRefused` | crates/minkowski-lsm/src/reader.rs:91-206 | a run file of which any one byte has changed does not open |
| `RunFile.Assemble` | crates/minkowski-lsm/src/compaction_writer.rs:742-789 | checksums patched in place give the file with its checksums |
| `RunFile.FileOpens` | crates/minkowski-lsm/src/compaction_writer.rs:364-789 | a written file opens, and gives back schema, index, filter, range, counts and fingerprint |
| `RunAgreement.DenseAgrees` | crates/minkowski-lsm/src/reader.rs:510-551 | for every raw, serialized and entity page the length the reader computes is the one laid down |
| `RunAgreement.PageReadsBack` | crates/minkowski-lsm/src/reader.rs:397-450 | a page reads back wherever it lies |
| `RunAgreement.PageValidates` | crates/minkowski-lsm/src/reader.rs:313-339 | every written page passes its checksum when read back, padding left out |
| `RunAgreement.DamagedPageFails` | crates/minkowski-lsm/src/reader.rs:313-339 | a page of which one byte of the body has changed since it was written is refused |
| `RunAgreement.ValidIffSum` | crates/minkowski-lsm/src/reader.rs:313-339 | and it passes if and only if the bytes before the padding have the checksum written |
| `RunAgreement.PagesTile` | crates/minkowski-lsm/src/compaction_writer.rs:484-509 | pages tile the region between schema and index: each begins where the one before ends |
| `RunAgreement.FileHolds` | crates/minkowski-lsm/src/compaction_writer.rs:718-723 | the index is strictly sorted with one entry for each page; every key reads the page written for it and no other key reads anything |
| `Merge.VisitArch` | crates/minkowski-lsm/src/compaction_writer.rs:98-123 | after an archetype the winner map is right for everything up to it, across page gaps; fails exactly when a page is corrupt |
| `Merge.MergeEntityImages` | crates/minkowski-lsm/src/compaction_writer.rs:70-139 | refines a simple specification: lists ascend by entity, hold the least (input, signature, row) of each entity, and every entity is in one; refused exactly on lengths that disagree or an unreadable page |
| `Merge.EmittedOnce` | crates/minkowski-lsm/src/compaction_writer.rs:126-138 | no entity is emitted twice, over all signatures |
| `Merge.EmittedIsFirst` | crates/minkowski-lsm/src/compaction_writer.rs:91-124 | what is emitted for an entity comes first of all its rows: from the newest input that has it, there under the first signature, there from the first row |
| `Merge.MergeUnique` | crates/minkowski-lsm/src/compaction_writer.rs:91-138 | inputs and archetype table determine the emit lists, whatever order the winner map is walked in |
| `Merge.MergeExists` | crates/minkowski-lsm/src/compaction_writer.rs:91-138 | every inputs and table have emit lists that meet the specification |
| `Merge.PagesAreScan` | crates/minkowski-lsm/src/reader.rs:377-395 | the scan of a slot visits what lookups by key find, in page order |
| `OutputSchema.CollectComponents` | crates/minkowski-lsm/src/compaction_writer.rs:830-842 | the distinct component names of all signatures, ascending |
| `OutputSchema.BuildSchema` | crates/minkowski-lsm/src/compaction_writer.rs:846-878 | a slot for each component of any signature and for no other, laid out as in the first input that has it; refused exactly without a usable layout or slot |
| `OutputSchema.OutputSchemaUnique` | crates/minkowski-lsm/src/compaction_writer.rs:846-878 | inputs and signatures determine the output schema |
| `OutputSchema.OutputSchemaExists` | crates/minkowski-lsm/src/compaction_writer.rs:846-878 | unless a component has no usable layout or there are more than slots, there is an output schema |
| `OutputRun.OutputLayoutIs` | crates/minkowski-lsm/src/compaction_writer.rs:846-882 | every component of an output has the storage, the size and the alignment of the first input that knows it; where that alignment was recorded as 0 it is 1 |
| `OutputRun.FingerprintIffAgreed` | crates/minkowski-lsm/src/compaction_writer.rs:734-740 | the output has a fingerprint other than 0 if and only if all inputs have that one |
| `OutputRun.OutputMetaTrue` | crates/minkowski-lsm/src/compaction_writer.rs:801-826 | the metadata of an output (range, archetypes, page count, size) is what opening its file shows |
| `CompactionWriter.BuildTranslations` | crates/minkowski-lsm/src/compaction_writer.rs:884-909 | the translation tables of a signature, input by input |
| `CompactionWriter.ReadCell` | crates/minkowski-lsm/src/compaction_writer.rs:432-481 | the cell copied for an emitted row, with the zero-fill and every error branch |
| `CompactionMeaning.UnknownCell` | crates/minkowski-lsm/src/compaction_writer.rs:432-481 | of a component its input does not know a raw cell is filled with zeros to the size of the component, and a serialized one is missing |
| `CompactionWriter.BuildColumnPage` | crates/minkowski-lsm/src/compaction_writer.rs:414-602 | the page holds the source cell of every row of its range, or some source cell is missing or the page too large |
| `CompactionWriter.BuildEntityPage` | crates/minkowski-lsm/src/compaction_writer.rs:609-659 | the page holds the entity ids of its rows |
| `CompactionWriter.WriteDense` | crates/minkowski-lsm/src/compaction_writer.rs:384-660 | exactly the wanted pages are written, each once and in key order, and as many as were counted before |
| `CompactionWriter.WrittenHasPages` | crates/minkowski-lsm/src/compaction_writer.rs:414-602 | where all wanted pages are written no source cell was missing and no page too large |
| `CompactionWriter.PageSink.Push` | crates/minkowski-lsm/src/compaction_writer.rs:485-509 | a page is laid down behind its header where its index entry says |
| `CompactionWriter.NothingBetweenSlots` | crates/minkowski-lsm/src/compaction_writer.rs:398-405 | no page of a signature lies between two of its consecutive slots |
| `Carry.FindNewest` | crates/minkowski-lsm/src/compaction_writer.rs:317-318 | the last of the inputs with the greatest hi |
| `Carry.CarryAllocator` | crates/minkowski-lsm/src/compaction_writer.rs:317-330 | the allocator pages of the newest input, renumbered, or one of them is unusable |
| `Carry.CarrySparse` | crates/minkowski-lsm/src/compaction_writer.rs:265-280 | all sparse pages of the newest input under their own keys, or one of them is unusable |
| `CompactRun.BuildBloom` | crates/minkowski-lsm/src/bloom.rs:254-280 | the filter of exactly the index keys, which denies none of them; none exactly when the block count wraps to 0 or there is no key |
| `CompactRun.Coverage` | crates/minkowski-lsm/src/compaction_writer.rs:810-816 | the archetypes with rows, strictly ascending |
| `CompactRun.WriteRun` | crates/minkowski-lsm/src/compaction_writer.rs:181-825 | the file opens as a run that holds the planned and carried pages and no others, with page count equal to index entries, and its metadata describes it; what is refused meets one of the listed reasons, what is written meets none, and what fails is too big in bytes or pages or in filter blocks |
| `CompactRun.NotRefusable` | crates/minkowski-lsm/src/compaction_writer.rs:237-604 | no reason for refusal holds of a job one plan of which can be written: merge and schema are determined by the arguments |
| `CompactRun.PartsExist` | crates/minkowski-lsm/src/compaction_writer.rs:718-789 | pages that are not too big for the format have a file of exactly them, under the filter of its own index |
| `CompactionFile.CompactionExists` | crates/minkowski-lsm/src/compaction_writer.rs:181-825 | every well-formed job that is neither refused nor too big has an output file, of any sequence range |
| `CompactionFile.OutputExists` | crates/minkowski-lsm/src/compactor.rs:221-295 | so has every job on disk: under the name of its range, described as the code describes it |
| `CompactionFile.ModestWritable` | crates/minkowski-lsm/src/compaction_writer.rs:718-789 | a job of few signatures and components, over runs of small raw cells, 16-bit entity ids and few sparse pages, is not too big |
| `CompactionFile.OutputModest` | crates/minkowski-lsm/src/compaction_writer.rs:181-825 | the output of such runs is such a run |
| `CompactRun.FirstEntityPage` | crates/minkowski-lsm/src/compaction_writer.rs:810-816 | an archetype is covered if and only if it has a first entity page |
| `RunMeaning.OneImage` | crates/minkowski-lsm/src/compaction_writer.rs:59-69 | lookup in a well-formed run, complete or not, finds one image of every entity it has |
| `RunMeaning.EmittedIsNewest` | crates/minkowski-lsm/src/compaction_writer.rs:91-124 | an emitted row is the row of its entity in the newest input that has the entity in the first archetype of its signature |
| `CompactionMeaning.TranslationFinds` | crates/minkowski-lsm/src/compaction_writer.rs:884-909 | the table translates an output slot to the input slot of the same component, whatever either numbering |
| `CompactionMeaning.SourceIsColumn` | crates/minkowski-lsm/src/compaction_writer.rs:436-482 | neither zero-fill nor the missing-column error is taken: the cell copied is the source row's own cell of the component, there or missing |
| `CompactionMeaning.CompactionPreservesMeaning` | crates/minkowski-lsm/src/compaction_writer.rs:237-825 | through merge, slot translation, re-paging and read-back: lookup in the output finds an image, signature and all bytes, if and only if newest-wins lookup over the inputs finds it, for every entity whose newest row is not in an archetype behind another one of its signature |
| `CompactionMeaning.CompactionMerges` | crates/minkowski-lsm/src/compaction_writer.rs:237-825 | without any such condition: lookup in the output is newest-wins lookup over the inputs through the first archetype of each signature |
| `CompactionMeaning.LookupKeptIff` | crates/minkowski-lsm/src/compaction_writer.rs:91-124 | one compaction keeps what lookup finds for an entity if and only if the entity is not passed over |
| `CompactionMeaning.EntitySurvivesIff` | crates/minkowski-lsm/src/schema_match.rs:17-51 | an entity is in the output if and only if some input has it in the first archetype of its signature; any other is lost with the inputs |
| `CompactionMeaning.ChosenCellsOnly` | crates/minkowski-lsm/src/compaction_writer.rs:91-124 | component by component the cells of an entity in the output are those of the row chosen for it, present or missing, whatever older inputs have |
| `CompactionMeaning.CellKeptIff` | crates/minkowski-lsm/src/compaction_writer.rs:91-124 | the output has of a component what newest-wins lookup of that component finds over the inputs if and only if the chosen row has a cell of it or no input has |
| `CompactionClosed.CompactionIsWellFormed` | crates/minkowski-lsm/src/compaction_writer.rs:237-825 | the output of well-formed runs is a well-formed run, so compactions can be repeated; and, whatever the inputs, it has every cell of every row and no signature twice |
| `CompactionClosed.CompactionCarries` | crates/minkowski-lsm/src/compaction_writer.rs:259-332 | allocator and sparse pages of the newest input reach the output whole and unchanged |
| `CompactionClosed.RefusedIff` | crates/minkowski-lsm/src/compaction_writer.rs:432-563 | a job over well-formed runs is refused if and only if it has nothing to write, more than the format can hold, or a chosen row that lacks the cell of a component of its archetype |
| `OutputRun.OutputRow` | crates/minkowski-lsm/src/compaction_writer.rs:606-659 | the rows of an output archetype are the emit list, entity by entity |
| `OutputRun.OutputSignature` | crates/minkowski-lsm/src/compaction_writer.rs:398-402 | an output archetype has the signature it was written for |
| `Flush.FlushIsWellFormed` | crates/minkowski-lsm/src/writer.rs:87-560 | a flush of any world within the numbers of the format is a well-formed run with rows in every archetype |
| `Flush.FlushRow` | crates/minkowski-lsm/src/writer.rs:439-500 | the rows of a flush are those of the pages on which some column was dirty |
| `Flush.FlushCell` | crates/minkowski-lsm/src/writer.rs:344-437 | a row of a flush has the cell of a component exactly where the component's page was dirty, and it is the world's |
| `Flush.FlushSignature` | crates/minkowski-lsm/src/writer.rs:103-120 | the signature of a flushed archetype is the set of its columns that were dirty somewhere |
| `Flush.FlushCompleteIff` | crates/minkowski-lsm/src/writer.rs:103-120 | a flush is complete if and only if on every page written of an archetype all its columns that are written at all are |
| `Flush.FlushDistinctIff` | crates/minkowski-lsm/src/writer.rs:103-120 | the signatures of a flush differ if and only if no two archetypes write the same columns |
| `Flush.FullFlush` | crates/minkowski-lsm/src/writer.rs:87-120 | a flush of everything is complete and its signatures differ as the archetypes do |
| `Flush.FlushPageAgrees` | crates/minkowski-lsm/src/reader.rs:510-551 | every page of a flush has the length the reader computes for it |
| `Flush.FlushFile` | crates/minkowski-lsm/src/writer.rs:244-620 | a flush whose pages are not too big for the format is written as a file that opens as the flush, with the filter of its own index, seeded with its lo, and the fingerprint given |
| `Flush.FlushLayoutIs` | crates/minkowski-lsm/src/writer.rs:87-560 | every component written is recorded with its registered storage, size and alignment |
| `Flush.FlushBlobs` | crates/minkowski-lsm/src/writer.rs:87-560 | the chunks of the allocator and of every sparse component are there whole, and no others |
| `FlushGaps.UnevenFlushRefused` | crates/minkowski-lsm/src/compaction_writer.rs:456-463 | four flushes of a world with two pages, one column dirty on one of them only: the job is refused for that cell alone |
| `FlushGaps.UnevenStuck` | crates/minkowski-lsm/src/compactor.rs:385-423 | a run of the store, on any number of levels, that records these four flushes and no more: its next job is refused, so the loop is stuck |
| `FlushGaps.TwinLost` | crates/minkowski-lsm/src/schema_match.rs:17-51 | four flushes in which two archetypes have the same one dirty column: the job is not refused, it has an output, and no output of it has the entity of the second |
| `FlushGaps.ColumnLeftBehind` | crates/minkowski-lsm/src/compaction_writer.rs:91-124 | four flushes, all with the signature of the job, the newest with one of two columns dirty for an entity: the job is not refused and has an output, older inputs have the cell of the other column, and no output does |
| `Picker.CollectRunSigs` | crates/minkowski-lsm/src/compactor.rs:112-135 | the non-empty signatures of a run, archetype by archetype |
| `Picker.NoEmptySig` | crates/minkowski-lsm/src/compactor.rs:118-138 | no empty signature is ever seen |
| `Picker.RunSigsAre` | crates/minkowski-lsm/src/compactor.rs:112-135 | the scheduler sees a signature once for each archetype of the run that has it |
| `Picker.GroupRuns` | crates/minkowski-lsm/src/compactor.rs:144-153 | one group for each signature in order of first appearance, holding its runs |
| `Picker.HitsAreTimes` | crates/minkowski-lsm/src/compactor.rs:144-158 | the size of a group counts a run once for every time it has the signature |
| `Picker.CountIsRuns` | crates/minkowski-lsm/src/compactor.rs:144-158 | where no run repeats a signature that is the number of runs that have it |
| `Picker.PickGroup` | crates/minkowski-lsm/src/compactor.rs:156-198 | the first group with enough runs becomes a job of their distinct paths, in the order of the level, and the sorted union of their signatures |
| `Picker.FindCandidate` | crates/minkowski-lsm/src/compactor.rs:90-202 | passes over quiet levels, never looks at the bottom one; picks at the first level that is not quiet, or stops at it when one of its runs does not open |
| `Picker.Schedule` | crates/minkowski-lsm/src/compactor.rs:90-202 | with readable runs: no job exactly when every level but the bottom one has fewer than 4 runs or no signature in 4 archetypes of its runs; a job has distinct inputs of one level, the next level as target and the union of signatures |
| `Picker.QuietIff` | crates/minkowski-lsm/src/compactor.rs:105-160 | a readable level is passed over if and only if it has fewer than 4 runs or no signature is in 4 archetypes of its runs |
| `Picker.JobExists` | crates/minkowski-lsm/src/compactor.rs:156-198 | on every readable level that is not quiet there is a job, of the first signature that is in enough archetypes |
| `Picker.OneFirstDue` | crates/minkowski-lsm/src/compactor.rs:142-160 | that signature is unique: disk and level determine it |
| `Picker.FirstTriggerIs` | crates/minkowski-lsm/src/compactor.rs:135-158 | it is the first that triggers in the order of the runs and of their archetypes: none that comes before it does |
| `Executor.Span` | crates/minkowski-lsm/src/compactor.rs:251-264 | least lo and greatest hi of the inputs |
| `Executor.NewestFirstIs` | crates/minkowski-lsm/src/compactor.rs:269-275 | the inputs are permuted into descending hi |
| `Executor.NewestFirstIsStable` | crates/minkowski-lsm/src/compactor.rs:272-276 | of inputs with the same hi the one that comes first in the job comes first |
| `Executor.ReorderTable` | crates/minkowski-lsm/src/compactor.rs:276-285 | archetype ids follow their readers |
| `Executor.WriteOutput` | crates/minkowski-lsm/src/compactor.rs:221-295 | an output is the compaction of the job's runs, newest first, over their whole range, under the name of that range, and the job met no reason for refusal; without an output an input does not open, or there is such a reason, or the output is too big |
| `Executor.JobRefusedIff` | crates/minkowski-lsm/src/compactor.rs:221-295 | a job on disk is refused if and only if it is empty or huge or a chosen row lacks a cell |
| `Executor.OutputMeaning` | crates/minkowski-lsm/src/compactor.rs:221-295 | the output of a job that covers its inputs is well-formed and complete, and lookup in it is newest-wins lookup over them for every entity that is not behind |
| `Executor.OutputInUniverse` | crates/minkowski-lsm/src/compaction_writer.rs:844-878 | the output stays within the component registry its inputs come from |
| `OutputNames.OutputPathInjective` | crates/minkowski-lsm/src/compactor.rs:432-434 | the output name determines the range |
| `OutputNames.OutputTakenIff` | crates/minkowski-lsm/src/compactor.rs:427-434 | the output path of a job is taken if and only if one of its inputs is a compaction output that spans the job |
| `OutputNames.SequenceHasNoSpan` | crates/minkowski-lsm/src/compactor.rs:427-434 | for inputs in sequence, as one signature set gives, the output path is always fresh |
| `OutputNames.FlushPathInjective` | crates/minkowski-lsm/src/writer.rs:253-256 | the name of a flush determines its range |
| `OutputNames.NamesEndInRun` | crates/minkowski-lsm/src/compactor.rs:427-434 | the names of flushes and outputs end in .run, so what is left of them is swept |
| `SpanningRun.SpanningJobReachable` | crates/minkowski-lsm/src/compactor.rs:342-355 | a run of the store, with files for all of it, of sixteen flushes in sequence and four compactions: its next job is not refused and has an output, and every output it can have bears the name of a tracked run, so that committing it leaves a run of the manifest without a file of its own |
| `Engine.Store.CommitOutput` | crates/minkowski-lsm/src/compactor.rs:297-373 | prevalidate, append, mirror, delete: exactly the states of `CommitTrace`, in this order; done exactly when manifest and log take the commit, and otherwise nothing but the output file is new |
| `Engine.TraceFollows` | crates/minkowski-lsm/src/compactor.rs:295-373 | these states are steps of the protocol where the output path is not tracked and the entry fits a frame |
| `Engine.Store.Execute` | crates/minkowski-lsm/src/compactor.rs:221-383 | a finished compaction has its output on disk, its commit in log and manifest and its inputs gone; what stops one is named |
| `Engine.ExecutedFiles` | crates/minkowski-lsm/src/compactor.rs:331-373 | a finished compaction leaves its output and every file that was not an input, and no input; the log has grown by its entry, and the sequence number is what it was |
| `Engine.Store.RecordFlush` | crates/minkowski-lsm/src/manifest_ops.rs:28-59 | a flushed file is recorded if and only if it opens, has pages, and its size, path and coverage fit an entry; then the run is the last of level 0, described by what its file opens as, and the sequence number is the one given; log first, then memory, in one entry: exactly the states of `CommitTrace`; otherwise only the file is there |
| `Engine.Store.CleanupOrphans` | crates/minkowski-lsm/src/manifest_ops.rs:66-103 | afterwards no file named stem + .run.tmp is left, one named stem + .run is left if and only if it was there and the manifest names it, every other file stays, unchanged; the number returned is that of the files gone |
| `Protocol.CommitTracks` | crates/minkowski-lsm/src/manifest_log.rs:552-614 | a commit tracks its output and no longer its inputs |
| `Protocol.NextKeeps` | crates/minkowski-lsm/src/compactor.rs:295-373 | every step of flush, compaction, failure, sweep, crash and recovery keeps the invariant |
| `Protocol.CrashSafe` | crates/minkowski-lsm/src/compactor.rs:295-373 | in every run of the protocol recovery finds only runs that are on disk as written, and with nothing in flight it finds the in-memory manifest |
| `Protocol.CrashIsAtomic` | crates/minkowski-lsm/src/compactor.rs:338-355 | after a crash the manifest is the one before or the one after the operation, the latter exactly when the whole frame was written |
| `Protocol.OrphansUntracked` | crates/minkowski-lsm/src/manifest_ops.rs:66-103 | the sweep never touches a tracked run |
| `Protocol.OutputPathMustBeFresh` | crates/minkowski-lsm/src/compactor.rs:266-373 | a finished compaction leaves every run a file of its own if and only if the output path was not tracked |
| `CompactionLoop.CompactOne` | crates/minkowski-lsm/src/compactor.rs:412-423 | progress is the job of the first level that is not quiet, carried out, and lightens the manifest; without a job every level is quiet; an error leaves all as it was but for the output of that job, and is one of a run that does not open, a refusal, an output too big, a commit that cannot be encoded |
| `CompactionLoop.CompactAll` | crates/minkowski-lsm/src/compactor.rs:385-398 | from every store the loop ends, after at most as many jobs as the levels weigh: it goes through states each of which is the one before with the scheduler's job carried out; either it ends in the last of them and every level but the bottom one is quiet there, or that state is stuck for one of these reasons and at most the output of its next job is left behind |
| `CompactionLoop.PickedHalts` | crates/minkowski-lsm/src/compactor.rs:221-383 | of what may stop a job only refusal, size and encoding can stop a picked one |
| `CompactionLoop.CommitLightens` | crates/minkowski-lsm/src/compactor.rs:338-355 | runs weighted by the levels left to descend strictly decrease |
| `CompactionLoop.JobCovers` | crates/minkowski-lsm/src/compactor.rs:179-190 | the signatures of a picked job are exactly those of its inputs |
| `CompactionLoop.SettledMeans` | crates/minkowski-lsm/src/compactor.rs:93-160 | once settled no signature is in 4 archetypes of a readable level of 4 or more runs, and in no 4 runs where none repeats a signature |
| `RunHistory.ViewKeptIff` | crates/minkowski-lsm/src/compactor.rs:253-285 | one compaction, of any inputs, keeps a lookup if and only if the entity is not overtaken by a run left behind |
| `RunHistory.ContiguousKeepsView` | crates/minkowski-lsm/src/compactor.rs:269-275 | compacting runs contiguous in recency keeps every lookup |
| `RunHistory.RewritingBound` | crates/minkowski-lsm/src/compactor.rs:161-197 | over every history on n levels committed compactions write at most n - 1 rows for each row flushed |
| `Recency.HistoryKeepsView` | crates/minkowski-lsm/src/compactor.rs:90-202 | over every history with one signature set: levels stay stratified by recency and lookup finds what lookup over all flushes ever made finds |
| `Recency.MergedSigs` | crates/minkowski-lsm/src/compaction_writer.rs:91-138 | an output carries the signatures of its newest input and only those of its inputs |
| `MixedSignatures.OldImageReturns` | crates/minkowski-lsm/src/compactor.rs:142-198 | a run of the store, with files for all of it: after five flushes of two signatures lookup finds the newest image, after the compaction the scheduler picks it finds an older one |
| `StoreView.ExecutionIsMerge` | crates/minkowski-lsm/src/compactor.rs:221-295 | a job carried out on files, of runs without a signature twice, is a merge of the history |
| `StoreView.FlushSimulated` | crates/minkowski-lsm/src/manifest_ops.rs:28-59 | recording a flushed run, in sequence and under a fresh path, is a flush step on what lookups see, level by level |
| `StoreView.CompactionSimulated` | crates/minkowski-lsm/src/compactor.rs:221-383 | a compaction carried out under a fresh output path is a compaction step on what lookups see, level by level, and every run stays readable with a greatest sequence number of its own |
| `StoreRuns.FlushFresh` | crates/minkowski-lsm/src/writer.rs:253-256 | the name of a flush in sequence is that of no tracked run, whatever was compacted before |
| `StoreRuns.UniformFresh` | crates/minkowski-lsm/src/compactor.rs:427-434 | where all flushes carry the same signatures no output of the scheduler's next job has the name of a tracked run |
| `StoreRuns.StepKept` | crates/minkowski-lsm/src/compactor.rs:295-423 | every step of the store (writing, failing, appending, mirroring, deleting, sweeping, crashing at any byte of an append, recovering) leaves what recovery would find a history of the flushes whose entries are in the log whole |
| `StoreRuns.RunIsHistory` | crates/minkowski-lsm/src/compactor.rs:385-423 | so does every run of the store, whatever signatures its flushes carry, as long as no output has the name of a tracked run |
| `StoreRuns.RunKeepsView` | crates/minkowski-lsm/src/compactor.rs:385-423 | at every point of every run of the store, with any crashes and recoveries, recovery finds runs that are all readable, and lookup over them is lookup over the flushes whose entries are in the log whole, as long as flushes carry the same signatures; at rest that manifest is the one in memory |
| `StoreRuns.RunRewritingBound` | crates/minkowski-lsm/src/compactor.rs:385-423 | rows are counted in the run itself, when the frame of a commit becomes whole in the log: at every point of every run, crashes and recoveries among its steps, committed compactions have written at most n - 1 rows for each row flushed, as long as no output has the name of a tracked run; outputs that were written and never committed are not counted |
| `StoreRuns.UniformRewritingBound` | crates/minkowski-lsm/src/compactor.rs:385-423 | where flushes carry the same signatures the bound holds without that condition |
| `StoreRuns.CompactedLeads` | crates/minkowski-lsm/src/compactor.rs:412-423 | what `CompactOne` ensures when it has compacted is a sequence of these steps, which counts the rows of its output |
| `StoreRuns.LoopLeads` | crates/minkowski-lsm/src/compactor.rs:385-398 | what `CompactAll` ensures, settled or stuck, is a sequence of these steps |
| `StoreRuns.LoopKeepsLookups` | crates/minkowski-lsm/src/compactor.rs:385-398 | from wherever a run of the store has got to, `CompactAll` changes what lookup finds for no entity, and after it all compactions ever committed have written at most n - 1 rows for each row flushed; where flushes carry the same signatures and commits fit a frame |
| `StoreRuns.RecordedLeads` | crates/minkowski-lsm/src/manifest_ops.rs:28-59 | what `RecordFlush` ensures when it is done is a sequence of these steps |
| `StoreRuns.StoppedLeads` | crates/minkowski-lsm/src/compactor.rs:412-423 | what `CompactOne` ensures when it has stopped is one of these steps or none |
| `StoreRuns.SweptLeads` | crates/minkowski-lsm/src/manifest_ops.rs:66-103 | what `CleanupOrphans` ensures is one of these steps |
| `Realization.FlushHappens` | crates/minkowski-lsm/src/manifest_ops.rs:28-59 | from every store at rest a flushed file that is newer than all before can be recorded, and what lookups see moves by a flush step |
| `Realization.CompactHappens` | crates/minkowski-lsm/src/compactor.rs:412-423 | whatever signatures are due: where the runs are complete and small, at most 64 on the level, and no run has the range of the output, the scheduler's next job has an output and can be carried out, and what lookups see moves by that compaction step |
| `Realization.SomethingDue` | crates/minkowski-lsm/src/compactor.rs:90-160 | unless all levels but the bottom one are quiet something is due: the first of them that is not, and the first of its signatures that triggers |
| `RowHistories.RowSeen` | crates/minkowski-lsm/src/writer.rs:87-560 | a flush of entities of one component each is seen as exactly their images |

## Left out

- RecordFlush: takes the flushed file as given. What a flush lays down is modelled on a value of the world (`Flush`), not as the loop of the writer; the pages of `Flush.IsFlush` are the specification such a loop would meet.
- WriteRun: the outcome `Failed` does not say which of size, page count and filter block count was exceeded.
- ValidCrc: where a page's row count times its item size exceeds its data the code's slice panics; the model takes the page for invalid.
- FromBytes: words are read as little-endian; the zero-copy decoding of aligned data on little-endian machines is not modelled.
- CleanupOrphans: paths are byte strings and the directory is the domain of a map; file names outside UTF-8 are not treated specially.
- Decode: bytes are compared as values; capacity limits and allocation are not modelled.
- HistoryKeepsView: for flushes with different signature sets the view is not kept in general; `RunHistory.ViewKeptIff` says when.
- File descriptors, mmap, fsync, temporary files, rename and directory sync: files appear and disappear atomically, and what was appended stays; a crash can cut only the frame being appended.
- The observer of emitted entities and the compaction report (byte counts) are plumbing.
- The page-level overlay of `recovery.rs`, dirty-page tracking, WAL, replication and the world engine: a run's view is entity-level newest-wins by sequence number.
- Component values are opaque bytes; rkyv, codecs, alignment of values and unchecked decoding are outside the model.
- Error messages and the kinds of `LsmError`: a result is present or absent.
- Bloom false-positive rates, which block and bits a key probes, and the collision behaviour of CRC-32 beyond one changed byte: no property here depends on them.
- `usize` is unbounded, except where a number is stored in a file.
