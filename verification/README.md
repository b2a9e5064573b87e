# FrenzyKV in Dafny

FrenzyKV is a key-value store built as a log-structured merge tree. This project models its storage
engine from the bytes up and proves what the engine is for: through writes, memtable flushes, compactions,
snapshots and garbage collections in any order, reading a key returns what a plain last-write-wins map
would return, although the answer is dug out of the bytes of block-structured, possibly compressed files
by a two-level skip search. Where a compaction of a deep level can spoil that, the exact condition is proved.

The main results, from the bottom up:

- **Order.** `memcmp_comparator` is dictionary order; sequenced keys are ordered exactly as their
  serialized bytes; serialized user keys are prefix-free, so every comparison that may read past the
  stored prefix is still decided by the stored bytes.
- **Blocks.** A finished block, compressed or not, reads back as exactly the entries added, and
  `block::get` finds a key exactly when it was added, with all of its items, for every interval between
  special segments: the skip search is the linear scan.
- **Tables.** Block lengths tile the data area, the footer's offsets are rebuilt, the recorded keys and
  filter are recovered, lookups return the newest visible version. Both places where the code does less
  than its comments promise have their exact condition.
- **Merge and compaction.** For any way of pairing tables up the merge keeps exactly the newest version of
  every key; writing the result out loses and duplicates nothing, and divides it in the one way the sizes allow.
- **The store.** An inductive invariant is kept by every step, compactions of every level included, and a run of
  any steps keeps the newest stored versions those of a plain map. A read returns the newest version exactly
  when its key is not stale, that is, when no upper level hides that version; no step but a compaction makes
  a key stale, and a compaction does exactly when it strands the key. Runs of harmless compactions, all those of
  levels 0 and 1 among them, never do. The same answers come out of the file bytes. What a held snapshot reads
  changes exactly at flushes that hide a version from it.
- **The database object.** `Database.DbLocal` is a class whose table files are bytes. Its methods run the block and
  table code above. Every insert keeps what the next one needs, and its run of the store is stated exactly: a flush
  when the batch does not fit, then the compaction of the first level that needs one when it is due, a collection, the
  write. Clients that write, flush, compact, collect and read back with and without snapshots are verified in
  `Clients`, up to the exact number of files on level 0 after any number of writes.
- **Guards and garbage.** Reference counts of file and version guards always equal the number of guards; no
  interleaving of guard operations, version changes and collections leaves a dangling guard or a version
  with a deleted file; a whole collection keeps exactly what is still held. Every run of the store is mirrored
  by a run of guard operations, and the store's own collection is that one.
- **Helpers.** The chunked in-memory file, the buffered log with recovery, the Bloom filter, file names and
  version descriptors each refine a simple specification.

## Findings

Where the code does something other than its documentation or its caller expects, the model follows the code
and a lemma says exactly when it matters.

1. The size limit of a table counts four bytes per flushed block: `sstable_builder::add` asks the block
   builder for its size after `flush_current_block` has replaced it (table/sstable_builder.cc:103-105).
   `TableImages.SstableBuilder.Add` states the limit that results.
2. A table can be opened exactly when `max_block_segments_number` is greater than 4: reading the meta data
   insists on one special segment, and the meta block has three segments (`TableTheorems.MetaInterval`,
   `TableTheorems.TableOpens`).
3. A key whose versions are split over two blocks is answered from the last of these blocks only. An older
   version in the earlier block is missed when no version in the last one is visible (`TableLookup.LookupExact`).
   `TableLimits.WriteSplitKey` has the builder write such a file: the older version is missed exactly when one
   entry fills a block.
4. Above level 1 the compaction policy pulls in the next level's files that overlap the oldest file only.
   The level invariant survives exactly when no unselected file of the next level is thereby put below an older
   version (`StoreExact.CompactionExact`). No read notices at that step (`StoreExact.BrokenButNotStale`). A read
   becomes stale exactly at a compaction that moves a key's newest version away from a level where an unselected
   file holds the key too (`StoreStale.StrandsExact`, `StoreRuns.StepStaleExact`). `StoreWitness.StaleRead` goes
   through both steps: a compaction of level 2 that breaks the invariant, then one of level 3 after which a key
   reads as its old value.
5. Where a files are allowed on level 0, every (a-1)-st flush is followed by a compaction, and level 0 is compacted
   then if it has more than a. Filled one file at a time it is compacted at every second of these flushes, and
   holds up to 2(a-1) files (`StoreInserts.RoomLevelZero`, `Clients.Fill`).
6. A table builder asserts that its size limit is not zero. The default options have shares of files for six levels
   and file sizes for five, so that a compaction of level 4 stops there (`StoreExact.AlwaysLimitedExact`,
   `StoreExact.DefaultsUnlimited`).
7. The merge asserts that it gets two tables. It does exactly when the ratio leaves more than one of the candidate
   files (`StoreExact.SelectsTwo`), and always does exactly when the ratio leaves more than one file of the level's
   share, or the share is zero (`StoreExact.AlwaysTwoExact`). With the full ratio every allowed number of files
   but one is safe (`StoreExact.FullRatioSelectsTwo`), with the background task's 0.7 every number but two
   (`StoreExact.BackgroundRatioSelectsTwo`, input `StoreExact.BackgroundRatioSelectsOne`).
8. `insert` retries until the batch fits. With the loop cut off after any number of flushes, a batch is written at
   once, after one flush, or not at all: one larger than an empty memtable is never written
   (`Database.DbLocal.InsertWithin`).
9. Writing an empty value reads back as a removal (`Keys.ValueRoundTrip`).
10. Assigning a guard to itself releases it and leaves it empty, because the target is released before the source
   is read (`RefCenters.Centers.Assign`, `RefCenters.Centers.AssignVersion` and the move assignments).
11. Collecting files before versions would leave files behind exactly when a file hangs on unguarded versions only
   (`GuardSafety.OrderMatters`).
12. Reading the in-memory file at its end is defined exactly when its last block is not full
    (`MemFile.ReadableExactly`).
13. A snapshot pins the files of a version, not the memtable. At a flush a held snapshot loses the versions that
    were in the memtable when it was taken, unless the flush is of an empty one (`StoreRuns.StepSnapshotExact` says
    exactly when an answer changes). In `Clients.WriteTwice` a snapshot taken after the first write reads it, and
    reads nothing once the second write has forced a flush.
14. The number of bits of a filter is rounded up in 64 bits; when that wraps to zero the probes divide by zero
    (`Bloom.HasBitsExactly`).
15. A version descriptor reads back exactly when all file names have the fixed length, that is, for levels of
    at most five digits (`FileNames.DescriptorRoundTrip`, `FileNames.NameLength`).

## Assumptions

- User keys have 1 to 65533 bytes; values written are non-empty or removals. Sequence numbers stay below
  2^32.
- Lengths stay within their fields: `BlockImages.Fits` and `TableWriting.RunsFit` say which. A database keeps them
  when blocks are limited to 256 KiB, entries to 512 MiB, stored versions to 2^28, and the compressor at worst
  doubles its input but for a constant (`TableLimits.LimitsFit`); `Database.Suits` asks this of the configuration
  and `Database.DbLocal.RoomFor` of a batch, along with a size limit for every compaction that is needed
  (`StoreInserts.Limited`).
- The compressor is a pair of functions with decompress(compress(x)) = x; the check sum and the hash are
  arbitrary functions; the filter of a table is required only to keep the keys it was given, which
  `Bloom.DatabaseFilterKeeps` proves for the filter the database uses.
- An insertion, a flush, a compaction with its installation, and a collection are each one atomic step of the
  store. Guard operations, version changes and the two halves of a collection interleave freely in `Guarding`.
- Writes succeed and reads are complete. Memory behind what was read of a block is arbitrary, and another for
  each block of each file: it is the parameter `junk`.
- New files are written at ascending times under ids not used before.

## Layout

| file | subject |
|---|---|
| Bytes.dfy, Keys.dfy | fields, comparators, keys, values and entries, entry streams |
| Segments.dfy, Blocks.dfy, BlockFiles.dfy, BlockImages.dfy | segments, skip search, grouping of entries, the block builder, round trip |
| TableImages.dfy, TableLookup.dfy, TableReads.dfy, TableTheorems.dfy | the table builder, lookups in terms of entries, the readers, their agreement |
| Merging.dfy, TableWriting.dfy, TableLimits.dfy | merging, writing merged entries or a memtable out as tables, limits under which all lengths fit |
| Store.dfy, StoreInvariant.dfy, StoreRefinement.dfy, StoreStale.dfy, StoreRuns.dfy | the store as a state machine, its invariants, what reads return, stale keys, runs and snapshots |
| StoreExact.dfy, StoreWitness.dfy, StoreBytes.dfy, StoreLimits.dfy | exact conditions on compactions, a stale read step by step, reads from bytes, bounds on what is stored |
| StoreLevels.dfy, StoreInserts.dfy | how many files a level has, what an insertion does to the store |
| Memtables.dfy, Database.dfy, Clients.dfy | memtable, sequence counter, the database object, clients of it |
| Guarding.dfy, GuardSafety.dfy, RefCenters.dfy, StoreGuards.dfy | guards, versions and collections: meaning, safety, reference counts, link to the store |
| Buffers.dfy, MemFile.dfy, WriteAheadLog.dfy, Bloom.dfy, FileNames.dfy | inner buffer, in-memory file, log, filter, names and descriptors |

## Model

| member | source | states |
|---|---|---|
| Bytes.CompareIsLexicographic | util/comp.cc:12-35 | the comparator's three answers are exactly dictionary order and equality, for spans of any two lengths |
| Bytes.Be16Order | db/kv_entry.cc:62-79 | big-endian two byte fields order as the numbers they hold |
| Bytes.Be32Order | db/kv_entry.cc:62-79 | big-endian four byte fields order as the numbers they hold |
| Keys.KeyOrderIsByteOrder | db/kv_entry.cc:216-232 | the order of sequenced keys is the byte order of their serialized forms, and equal bytes mean equal keys |
| Keys.KeyOrderStrictTotal | db/kv_entry.cc:216-232 | operator< on sequenced keys is a strict total order |
| Keys.UserOrderStrictTotal | include/frenzykv/db/kv_entry.h:321-339 | user_key_less is a strict total order |
| Keys.SerUserOrder | include/frenzykv/db/kv_entry.h:321-339 | shorter-first, then bytewise, is the dictionary order of the length-prefixed user keys |
| Keys.KeyLessByUser | db/kv_entry.cc:216-232 | keys are ordered by user key first and by sequence number within one user key |
| Keys.KeyRoundTrip | db/kv_entry.cc:40-52 | a serialized key parses back to itself whatever follows it |
| Keys.ValueRoundTrip | db/kv_entry.cc:167-178 | a serialized value parses back to itself exactly when it is not an empty put, which becomes a removal |
| Keys.FramedPrefixFree | persistent/block.cc:88-96 | among length-prefixed user keys, being a prefix is being equal |
| Keys.TruncatedCompareAgrees | persistent/block.cc:98-114 | comparing with as many bytes as the probe has, possibly past the stored prefix, gives what comparing with exactly the stored prefix gives |
| Keys.KvEntriesFromBuffer | db/kv_entry.cc:27-38 | the loop yields the entries of the stream, or fails exactly where it would read outside the buffer |
| Keys.EntriesRoundTrip | include/frenzykv/db/kv_entry.h:85-95 | entries written back to back read back as themselves, at the end of the buffer or before four zero bytes and anything |
| Segments.BlockSegmentParse | persistent/block.cc:52-86 | the cursor loop computes the segment the bytes describe, with its completeness flag |
| Segments.ParseSegmentBuilt | persistent/block.cc:416-454 | a written segment parses back as itself; its zero end mark is never taken for an item length nor an item length for the mark |
| Segments.ScanInterval | persistent/block.cc:321-349 | the search over one interval finds the first segment that matches the probe |
| Segments.ScanIsFind | persistent/block.cc:321-362 | scanning written segments finds the first one whose prefix equals the probe |
| Segments.FindMeans | persistent/block.cc:351-362 | the linear scan hits exactly when some segment has the prefix, and then the first such |
| Blocks.OneSpecialSegment | persistent/block.cc:470-525 | a block has one special segment exactly when none of its later segments meets the interval |
| Blocks.SpecialIdxMeans | persistent/block.cc:470-525 | exactly the first segment and those whose index meets the interval are recorded, in order |
| Blocks.BlockOpen | persistent/block.cc:289-319 | reading the special segment offsets and the first prefix computes the block's view, or fails where the code does |
| Blocks.BlockGet | persistent/block.cc:364-399 | the skip search over special segments computes the modelled lookup |
| Blocks.GetFromIsFind | persistent/block.cc:364-399 | from any special segment on, the skip search agrees with the linear scan from there on |
| Blocks.GetIsLinearScan | persistent/block.cc:364-399 | for any ascending choice of special segments the skip search equals the linear scan over all segments |
| BlockFiles.GroupDecodes | persistent/block.cc:116-152 | decoding the segments that entries were grouped into gives the entries back in order |
| BlockFiles.GroupAscends | persistent/block.cc:470-525 | entries in user key order make well formed, strictly ascending segments |
| BlockFiles.GroupHolds | persistent/block.cc:470-525 | a segment exists exactly for the user keys added, and holds all of the key's items in insertion order |
| BlockImages.BlockBuilder.SegmentAdd | persistent/block.cc:426-444 | an item is appended to the last segment exactly when the user keys agree |
| BlockImages.BlockBuilder.NextSegment | persistent/block.cc:446-454 | the segment is closed by the zero mark and the next one opened, its offset recorded when the interval asks for it |
| BlockImages.BlockBuilder.Add | persistent/block.cc:470-525 | the builder's segments grow by the entry's item; storage, offsets and counters stay those of the segments |
| BlockImages.BlockBuilder.Finish | persistent/block.cc:532-603 | the storage becomes the block image of the segments added: length, content, offsets, count, flag, check sum |
| BlockImages.BlockBuilder.AppendOffsets | persistent/block.cc:549-553 | the offset loop appends all recorded offsets in order |
| BlockImages.SealBlock | persistent/block.cc:556-603 | content is compressed if asked for and framed with its length, flag and check sum |
| BlockImages.LastSpecialInside | persistent/block.cc:543-547 | every recorded offset lies before the end of the data, so finish never drops one |
| BlockImages.LoadBuilt | persistent/block.cc:192-259 | whatever was stored, compressed or not, loads to memory that holds the written content |
| BlockImages.OpenBuilt | persistent/block.cc:264-319 | opening a loaded block finds the special segments, data area and first prefix that were written |
| BlockImages.BlockRoundTrip | persistent/block.cc:605-614 | a finished block reads back as exactly the entries added, whatever lies behind it in memory |
| BlockImages.BlockSearch | persistent/block.cc:364-399 | block::get on a finished block returns a segment exactly for user keys that were added, with all of the key's items in insertion order |
| TableImages.SstableBuilder.Add | table/sstable_builder.cc:72-109 | an entry is refused exactly when the limit counted in flushed blocks is reached; otherwise it joins the table, and the block is closed exactly when the pending entries fill the block size |
| TableImages.SstableBuilder.AddToBlock | table/sstable_builder.cc:72-100 | first key, last key, filter and block builder take the entry into account |
| TableImages.SstableBuilder.NoteKey | table/sstable_builder.cc:80-98 | the recorded first and last keys and the filter are those of all entries added |
| TableImages.SstableBuilder.FlushCurrentBlock | table/sstable_builder.cc:111-133 | the pending block's image is appended and a new block begins |
| TableImages.SstableBuilder.Finish | table/sstable_builder.cc:140-177 | the file becomes data blocks, meta block, its offset and the magic number; without entries it stays empty |
| TableImages.SstableBuilder.WriteMeta | table/sstable_builder.cc:160-169 | the meta block holds the filter, the last and the first user key |
| TableLookup.NewestInIsNewest | table/sstable.cc:239-253 | the last visible entry of a sorted list is the version with the greatest sequence number up to the query |
| TableLookup.TableGetFromLast | table/sstable.cc:189-236 | the walk over adjacent blocks answers from the last block that holds the key |
| TableLookup.LookupExact | table/sstable.cc:189-253 | the newest visible version is returned if and only if some version is visible in the last block holding the key, or none in the table |
| TableLookup.LookupNewest | table/sstable.cc:189-253 | it is returned whenever the versions lie in one block or the query is as new as all of them |
| TableLookup.SplitKeyMissed | table/sstable.cc:215-236 | for any two versions of a key and any query between them: found in one block, missed in two |
| TableReads.MetaLoop | table/sstable.cc:90-117 | the loop over the meta segments collects first key, last key and filter |
| TableReads.GenerateBlockOffsets | table/sstable.cc:139-153 | the walk over block lengths yields the offsets of all blocks, or fails on a length of zero |
| TableReads.ParseMetaData | table/sstable.cc:58-126 | footer, meta block and offsets are read as modelled; a wrong magic number refuses the file, a failing assertion aborts |
| TableReads.TableGetSegment | table/sstable.cc:189-236 | filter, then the loop over blocks that stops before the first one beginning after the key |
| TableReads.TableGetKvEntry | table/sstable.cc:238-253 | the backward walk over the segment's items returns the first with a small enough number |
| TableReads.EntriesAtOnce | table/sstable.cc:321-357 | all entries of all blocks, newest key first |
| TableReads.DisjointMeans | table/sstable.cc:278-294 | disjoint on the recorded keys holds exactly when one table lies before the other, and then they share no user key |
| TableTheorems.OffsetsTile | table/sstable.cc:139-153 | the block lengths tile the data area: the offsets rebuilt are those of the blocks written |
| TableTheorems.MetaInterval | table/sstable.cc:88-89 | the meta block has one special segment exactly for intervals above four |
| TableTheorems.TableOpens | table/sstable.cc:58-153 | a finished table parses exactly when the interval is above four, to the keys, filter and offsets written |
| TableTheorems.BlockAnswers | table/sstable.cc:156-187 | each block of the file loads and answers as the entries added to it say |
| TableTheorems.TableAnswers | table/sstable.cc:189-253 | on the bytes of a finished table, get_kv_entry returns for every key and query what the entries say, and never fails |
| TableTheorems.TableEntries | table/sstable.cc:321-357 | reading all blocks gives exactly the entries added, in order, also when a key is split over two blocks |
| TableTheorems.FilterOfMeans | table/sstable_builder.cc:80-98 | the filter of a table is that of its user keys, each of them once, in order |
| Merging.MergeTwoTablesLoop | persistent/compaction.cc:126-152 | merge with a front inserter, then unique, computes the specified merge of two lists |
| Merging.MergeToFront | persistent/compaction.cc:138-141 | the merge loop produces the descending merge of the two lists |
| Merging.EraseOlder | persistent/compaction.cc:142-145 | the unique loop keeps the first of each run of equal user keys |
| Merging.UniqueKeepsNewest | persistent/compaction.cc:142-145 | of a descending list unique keeps one entry per user key, the newest |
| Merging.MergeTwoNewest | persistent/compaction.cc:126-152 | merging two lists gives a descending list with exactly one entry per user key, covering everything in either |
| Merging.MergeTreeNewest | persistent/compaction.cc:40-67 | however tables are paired up, the result is descending and holds for every user key exactly its newest version |
| Merging.MergeTablesNewest | persistent/compaction.cc:69-78 | merge_tables of two or more tables is such a merge, and terminates |
| TableWriting.BuildTables | db/memtable_flusher.cc:65-85 | the writing loop turns sorted entries into finished tables that together hold the entries in order; a block ends with the entry that brings it to the block size, a table with the block that brings it to the limit, and only the last of either may be smaller |
| TableWriting.DividedOnce | persistent/compaction.cc:184-198 | these sizes leave one way only to divide the entries into tables and blocks |
| TableWriting.FinishTable | persistent/compaction.cc:189-190 | a finished builder yields the file of a well formed table with the entries of its run |
| TableWriting.AddNext | persistent/compaction.cc:186-197 | the next entry is added unless the builder reached its limit |
| TableWriting.MergedListToSst | persistent/compaction.cc:164-202 | the concatenated output tables are the reversed merged list, divided by the size limit |
| TableWriting.CompactionOutput | persistent/compaction.cc:164-202 | no output is empty, all are sorted, and their user key ranges are disjoint and ascend |
| TableWriting.CompactionLookup | persistent/compaction.cc:104-118 | a key of the inputs is found in an output, and whatever an output finds is the newest version among the inputs |
| TableLimits.LimitsFit | persistent/block.cc:532-603 | with limited blocks, entries and number of versions, every length of every block and table that any sorted run of held entries gives rise to stays within its field |
| TableLimits.RunIsBlock | persistent/block.cc:470-525 | any sorted run of small entries below the block size makes a block whose lengths and counts fit |
| TableLimits.MetaFits | table/sstable_builder.cc:160-169 | the meta block of any run of held entries fits |
| TableLimits.WriteSplitKey | table/sstable_builder.cc:72-109 | two versions of a key written by the builder: the file holds both, and the older one is missed exactly when one entry fills a block |
| Store.Levels | db/db_local.cc:349-368 | the number of levels to ask lies above the level of every file |
| Store.Kept | persistent/compaction.cc:106-107 | the ratio never drops everything, and drops nothing when it is one |
| StoreInvariant.InitHolds | db/version.cc:72-82 | the empty store satisfies the invariant and the order of levels |
| StoreInvariant.InsertSorts | table/memtable.cc:40-46 | inserting a new key keeps the memtable sorted |
| StoreInvariant.PutOneKeeps | table/memtable.cc:32-38 | a write keeps the invariant, and the order of levels if it holds |
| StoreInvariant.FlushKeeps | db/memtable_flusher.cc:39-94 | a flush keeps the invariant, and the order of levels if it holds |
| StoreInvariant.LowLevelsAreHarmless | persistent/compaction_policy_oldest.cc:25-34 | at levels 0 and 1 an oldest prefix of the level never buries a newer version |
| StoreInvariant.CompactSound | db/db_local.cc:188-218 | installing any compaction of files of the current version keeps the invariant |
| StoreInvariant.CompactKeeps | db/db_local.cc:188-218 | a compaction of any level keeps the invariant, and the order of levels if its selection is harmless |
| StoreInvariant.FilesCanMerge | persistent/compaction.cc:130-136 | the merge's assertions hold for any files of the current version |
| StoreInvariant.SnapshotKeeps | db/db_local.cc:384-387 | taking a snapshot keeps the invariant and the order of levels |
| StoreInvariant.DropKeeps | include/frenzykv/db/snapshot.h:18-35 | dropping a snapshot keeps the invariant and the order of levels |
| StoreInvariant.CollectMeans | db/garbage_collector.cc:19-33 | a collection keeps exactly the last version and the pinned ones, and exactly the files they list |
| StoreInvariant.DropReleases | include/frenzykv/db/snapshot.h:33-35 | after dropping a snapshot a collection leaves exactly the last version and those another snapshot pins, and exactly their files |
| StoreInvariant.CollectKeeps | db/garbage_collector.cc:19-33 | a collection keeps the invariant and the order of levels |
| StoreRefinement.MemGetIsNewest | table/memtable.cc:48-59 | the memtable search returns the newest version of exactly this key up to the query |
| StoreRefinement.LevelAnswerTop | db/db_local.cc:355-366 | the greatest key among one level's answers is the newest version on that level |
| StoreRefinement.SstGetFirst | db/db_local.cc:343-371 | the first level that answers is the first that holds the key, and the answer its newest version there |
| StoreRefinement.ReadExact | db/db_local.cc:292-310 | nothing is found only for keys without a version; what is found is a stored version of the key, the newest if and only if the key is not stale |
| StoreRefinement.LayeredNotStale | db/db_local.cc:343-371 | while levels are ordered by age no key is stale |
| StoreRefinement.GetAgrees | db/db_local.cc:292-310 | a store that agrees with a map answers as the map does for every key that is not stale |
| StoreRefinement.PutAllAgrees | db/db_local.cc:257-284 | a written batch acts on the map write by write, the last one winning |
| StoreRefinement.FlushHolds | db/memtable_flusher.cc:65-85 | a flush neither loses nor adds a stored version |
| StoreRefinement.FlushAgrees | db/memtable_flusher.cc:39-94 | a flush leaves the map alone |
| StoreRefinement.CompactTops | persistent/compaction.cc:104-118 | a compaction may drop versions but never a key's newest one, and adds none |
| StoreRefinement.CompactAgrees | db/db_local.cc:188-218 | a compaction of any level leaves the map alone |
| StoreRefinement.CollectAgrees | db/garbage_collector.cc:19-33 | a collection leaves the map alone |
| StoreStale.StrandsExact | db/db_local.cc:188-218 | a compaction makes a key stale if and only if its newest version moves down from a level where an unselected file holds the key |
| StoreStale.LayeredNotStranded | persistent/compaction_policy_oldest.cc:25-71 | while levels are ordered by age no compaction of any level strands a key |
| StoreStale.PutAllNotStale | db/db_local.cc:257-284 | a written batch makes no key stale |
| StoreStale.FlushNotStale | db/memtable_flusher.cc:39-94 | a flush makes no key stale |
| StoreStale.CollectNotStale | db/garbage_collector.cc:19-33 | a collection makes no key stale |
| StoreRuns.StepRefines | db/db_local.cc:158-310 | every step, compactions of any level included, keeps the invariant and the agreement with the plain map |
| StoreRuns.StepKeepsLevels | db/db_local.cc:158-310 | every step but a harmful compaction keeps the order of levels |
| StoreRuns.StepStaleExact | db/db_local.cc:158-310 | a step makes a key stale if and only if it is a compaction that strands the key |
| StoreRuns.RunRefines | db/db_local.cc:158-310 | so every run from any sound state keeps the newest stored versions those of the plain map |
| StoreRuns.StoreRefinesMap | db/db_local.cc:257-310 | after any run from the empty store, a read of a key that no compaction stranded returns what the plain last-write-wins map holds, removals read as absent |
| StoreRuns.HarmlessRunRefinesMap | db/db_local.cc:257-310 | if every compaction of the run had a harmless selection, this holds for all keys |
| StoreRuns.LowRunRefinesMap | persistent/compaction_policy_oldest.cc:25-34 | in particular if only levels 0 and 1 were compacted |
| StoreRuns.StepSnapshotExact | db/db_local.cc:292-310 | a step changes what a held snapshot finds if and only if it is a flush of a memtable that holds a version the snapshot sees |
| StoreRuns.SnapshotStable | include/frenzykv/db/snapshot.h:18-62 | a run without such a flush leaves a held snapshot's answers alone, whatever else happens |
| StoreRuns.FreshSnapshotReads | db/db_local.cc:384-387 | a snapshot just taken answers like a plain read |
| StoreRuns.SnapshotReadsPast | db/db_local.cc:292-310 | a held snapshot keeps answering with the plain map as it was when the snapshot was taken |
| StoreRuns.LeadsKeepsLevels | util/options.cc:71-75 | when only levels 0 and 1 have a share, what an insert does keeps the order of levels |
| StoreRuns.FlushedSnapshot | include/frenzykv/db/snapshot.h:18-62 | after a flush a snapshot held before finds nothing in the memtable and still the files of its version only |
| StoreExact.HarmfulBreaks | persistent/compaction_policy_oldest.cc:43-68 | a selection that buries a newer version breaks the order of levels |
| StoreExact.CompactionExact | persistent/compaction_policy_oldest.cc:25-71 | for every level, the order of levels survives a compaction if and only if its selection is harmless |
| StoreExact.BrokenButNotStale | db/db_local.cc:188-218 | even a compaction that breaks it changes no answer at that step |
| StoreExact.KeptExact | persistent/compaction.cc:106-107 | of the candidates, compaction keeps the least number that is not below the ratio's part of them |
| StoreExact.KeptBackground | persistent/compaction.cc:106-107 | with ratio 0.7: seven tenths of them, rounded up |
| StoreExact.NeedsFull | util/options.cc:83-87 | with the full ratio a level needs compaction exactly when it has more files than its allowed number, and that is not zero |
| StoreExact.NeedsBackground | util/options.cc:83-87 | with ratio 0.7: exactly when it has more files than seven tenths of the allowed number, and that is at least one |
| StoreExact.ShareExact | util/options.cc:85-85 | the share of files is the ratio's part of the allowed number, rounded down |
| StoreExact.SelectsTwo | persistent/compaction.cc:73-107 | the merge gets two tables if and only if the ratio leaves more than one of the candidate files |
| StoreExact.AlwaysTwoExact | util/options.cc:71-87 | it gets two whenever a level needs compaction if and only if the level's share is zero or the ratio leaves more than one file of it |
| StoreExact.FullRatioSelectsTwo | persistent/compaction.cc:73-107 | with the full ratio: exactly for every allowed number of files but one |
| StoreExact.BackgroundRatioSelectsTwo | db/db_local.cc:133-150 | with ratio 0.7: exactly for every allowed number of files but two |
| StoreExact.BackgroundRatioSelectsOne | db/db_local.cc:133-150 | two files allowed and there, one of them selected |
| StoreExact.AlwaysLimitedExact | util/options.cc:77-81 | every compaction has a size limit for its outputs if and only if every level with a share has a file size one level down |
| StoreExact.DefaultsUnlimited | util/options.cc:24-34 | with the default options it has not: seventeen files on level 4 |
| StoreLevels.FlushLevels | db/memtable_flusher.cc:87-88 | a flush puts its tables on level 0 and leaves every other level alone |
| StoreLevels.CompactLevels | db/db_local.cc:188-218 | a compaction takes the selected files off two levels, puts its outputs on the lower one and leaves the others alone; with the full ratio the newest file is what remains of its level |
| StoreLevels.CollectLevel | db/garbage_collector.cc:19-33 | a collection leaves every level alone |
| StoreInserts.RoomLeads | db/db_local.cc:268-281 | making room is a run of the store: a flush alone exactly when no compaction is due |
| StoreInserts.RoomLevelZero | db/db_local.cc:268-281 | the flushed tables join level 0; when a compaction is due and these are more files than allowed, one file remains, otherwise all of them |
| StoreWitness.StaleRead | persistent/compaction_policy_oldest.cc:43-68 | a state with ordered levels, a compaction of level 2 that breaks the order while the key still reads as its new value, and one of level 3 after which it reads as its old value |
| StoreBytes.FileAnswers | db/db_local.cc:325-341 | opening a file's bytes and searching them answers as its entries say |
| StoreBytes.BytesRefineMap | db/db_local.cc:292-371 | after any run, reading a key that was not stranded from the memtable and the files' bytes gives what the plain map holds, and nothing fails |
| StoreLimits.BoundedFits | db/memtable_flusher.cc:65-85 | in a bounded store every sorted run of held entries fits blocks and tables |
| StoreLimits.PutAllBounded | db/db_local.cc:257-284 | a batch keeps the store bounded and adds at most one version per entry |
| Memtables.Memtable.CouldFit | table/memtable.cc:104-108 | a batch fits exactly when its serialized size and the table's do not exceed the bound |
| Memtables.Memtable.Insert | table/memtable.cc:16-38 | all of the batch is inserted in order and counted, or nothing changes |
| Memtables.Memtable.Get | table/memtable.cc:48-65 | the greatest key not above the query, if it is of the same user key |
| Memtables.SnapshotCenter.GetNextUnused | include/frenzykv/db/snapshot.h:50-54 | returns the counter and advances it modulo 2^32 |
| Memtables.PutAllNumbered | db/db_local.cc:261-268 | inserting a batch under consecutive numbers is writing its entries one after the other |
| Database.DbLocal.constructor | db/db_local.cc:51-64 | a new database satisfies the invariant and agrees with the empty map |
| Database.DbLocal.AskFile | db/db_local.cc:325-341 | one file's answer, from its bytes |
| Database.DbLocal.AskLevel | db/db_local.cc:353-367 | the greatest of one level's answers |
| Database.DbLocal.Find | db/db_local.cc:299-371 | memtable, then levels upwards until one answers |
| Database.DbLocal.Get | db/db_local.cc:292-310 | returns what the store answers, which is what the plain map holds unless the key is stale |
| Database.DbLocal.GetAt | db/db_local.cc:292-310 | with a held snapshot, returns the snapshot's answer; with one that has no number, what a plain read returns |
| Database.DbLocal.WriteTables | db/db_local.cc:176-186 | new files get the tables' bytes under fresh ids and ascending times |
| Database.DbLocal.InstallTables | db/db_local.cc:158-174 | the new version lists the added files and the old ones not compacted, in the order the delta gives them |
| Database.DbLocal.FlushToDisk | db/memtable_flusher.cc:39-94 | performs a flush step whose tables are divided by the file size of level 0, keeps the object valid, holds no more versions than before and leaves an empty memtable |
| Database.DbLocal.FilesAtLevel | persistent/compaction_policy_oldest.cc:25-34 | exactly the level's files, oldest first |
| Database.DbLocal.SortBySize | persistent/compaction_policy_oldest.cc:55-57 | the same files, ascending by size |
| Database.DbLocal.PullFiles | persistent/compaction_policy_oldest.cc:43-68 | exactly the files of the next level whose recorded keys overlap the oldest file's, ascending by size |
| Database.DbLocal.ReadTables | persistent/compaction.cc:112-114 | the files' bytes give their entries, newest key first |
| Database.DbLocal.Compact | persistent/compaction.cc:81-124 | at any level, choosing, pulling in, merging and writing out prepares a compaction step: how many of the candidates are merged is stated by the ratio, and the outputs are divided by the next level's file size |
| Database.DbLocal.CompactLevel | db/db_local.cc:193-216 | a compaction step of this level exactly when it needs one, which for the full ratio and for 0.7 is stated by its number of files |
| Database.DbLocal.MayCompact | db/db_local.cc:188-218 | exactly the first level up to the greatest that needs a compaction gets one |
| Database.DbLocal.DoGC | db/garbage_collector.cc:19-33 | the state becomes the collected one, files included, and validity is kept |
| Database.DbLocal.LiveLoop | include/frenzykv/db/version.h:242-254 | the versions kept are the last one and the pinned ones |
| Database.DbLocal.TakeSnapshot | db/db_local.cc:384-387 | pins the current version and the last used sequence number beside the other snapshots, and answers as the plain map for every key that is not stale |
| Database.DbLocal.DropSnapshot | include/frenzykv/db/snapshot.h:33-35 | the snapshot is gone and every other one is as before |
| Database.DbLocal.MakeRoom | db/db_local.cc:268-281 | a flush; and when the hint says that a compaction is due, that of the first level that needs one, if any does, and a collection |
| Database.DbLocal.InsertWithin | db/db_local.cc:257-284 | with the loop cut off after any number of flushes: written at once if it fits, after exactly one flush if it fits an empty memtable, otherwise never; every turn made room as stated for its hint |
| Database.DbLocal.Insert | db/db_local.cc:257-284 | the map becomes the map with the batch applied; the state is that of the write alone when it fits, else of making room once, compaction and collection included when due, and then the write; counter, snapshots and bounds are such that the next insert can follow |
| Clients.OpenAndWrite | db/db_local.cc:51-64 | a new database, a write and a snapshot that answers with it |
| Clients.WriteTwice | db/db_local.cc:257-310 | two writes that force a flush: plain reads see both, a snapshot from in between reads nothing afterwards, one taken later reads again |
| Clients.Forget | include/frenzykv/db/snapshot.h:33-35 | dropping a snapshot and collecting leaves the current version, those another snapshot pins, and their files |
| Clients.Fill | db/db_local.cc:268-281 | any number of writes that each fill the memtable: plain reads see all, and the number of files on level 0 is exactly what OnLevelZero says |
| Clients.NextOnLevelZero | db/db_local.cc:268-281 | that number grows by one at each flush, until a compaction is due and finds more files than allowed |
| Guarding.SetDifferenceExact | db/version.cc:52-57 | the two-pointer walk over sorted guards is exactly the multiset difference |
| Guarding.SortedKeeps | db/version.cc:52-53 | sorting by level and id orders the guards and keeps each as often as it was there |
| Guarding.DeltaExact | db/version.cc:43-61 | installing a delta gives the added files and the old ones that were not compacted, each as often as it was there |
| Guarding.DeltaNoDuplicates | db/version.cc:43-61 | the new list holds no file twice exactly when the added files are distinct and none is an old file that stays |
| GuardSafety.CollectVersionsKeeps | include/frenzykv/db/version.h:242-254 | collecting versions removes exactly those without a guard and keeps the invariant, the current one staying last |
| GuardSafety.CollectFilesKeeps | util/file_center.cc:136-150 | collecting files removes exactly the reps nobody holds and keeps the invariant |
| GuardSafety.DoGCExact | db/garbage_collector.cc:30-32 | an uninterrupted collection keeps exactly the guarded versions and the files still held without the others; a second one changes nothing |
| GuardSafety.OrderMatters | db/garbage_collector.cc:30-32 | collecting files first gives the same result exactly when no file hangs on unguarded versions alone |
| GuardSafety.StepKeeps | include/frenzykv/util/file_guard.h:24-142 | every guard operation, version change and collection keeps the invariant |
| GuardSafety.RunSafe | include/frenzykv/db/version.h:112-179 | in every state of every run no guard dangles, the current version is the last, and every file of every version is registered and on disk |
| GuardSafety.HeldVersionStays | include/frenzykv/db/version.h:230-275 | a version guarded throughout a run keeps its files, readable, whatever else happens |
| RefCenters.FileCountZero | include/frenzykv/util/file_rep.h:33-56 | a file's count is zero exactly when nothing holds it, outside or inside a version |
| RefCenters.VersionCountZero | include/frenzykv/db/version.h:260-263 | a version's count is zero exactly when no guard points to it |
| RefCenters.Centers.Release | include/frenzykv/util/file_guard.h:131-138 | the slot becomes empty and every count stays the number of guards |
| RefCenters.Centers.Copy | include/frenzykv/util/file_guard.h:46-50 | a second guard of the same file, counted |
| RefCenters.Centers.Assign | include/frenzykv/util/file_guard.h:52-58 | the target points where the source does, or is empty when assigned to itself; every count stays exact |
| RefCenters.Centers.Move | include/frenzykv/util/file_guard.h:39-44 | the guard moves and the source is empty, both empty when moved to itself; every count stays exact |
| RefCenters.Centers.ReleaseVersion | include/frenzykv/db/version.h:168-175 | as for file guards |
| RefCenters.Centers.CopyVersion | include/frenzykv/db/version.h:139-143 | as for file guards |
| RefCenters.Centers.AssignVersion | include/frenzykv/db/version.h:145-151 | as for file guards |
| RefCenters.Centers.MoveVersion | include/frenzykv/db/version.h:127-132 | as for file guards |
| RefCenters.Centers.GetFile | util/file_center.cc:117-134 | a guard of the registered file, or of a newly registered one |
| RefCenters.Centers.TakeCurrent | db/version.cc:117-122 | a counted guard of the current version |
| RefCenters.Centers.AddNewVersion | db/version.cc:63-70 | a copy of the last version with its own file guards becomes current, and a guard of it is handed out |
| RefCenters.Centers.ApplyDelta | include/frenzykv/db/version.h:216-221 | the guarded version's list becomes the delta's result; all temporary copies are uncounted again |
| RefCenters.Centers.VersionGC | include/frenzykv/db/version.h:242-254 | the callback sees exactly the erased versions, and the guarded ones stay with their files counted |
| RefCenters.Centers.FileGC | util/file_center.cc:136-150 | exactly the files nobody holds lose registration, file and rep |
| RefCenters.Centers.DoGC | db/garbage_collector.cc:19-33 | the whole collection, or nothing when another one runs |
| RefCenters.GoneMeans | include/frenzykv/db/version.h:247-252 | the descriptors handed over for deletion are those of the versions nobody guards |
| StoreGuards.InstallMirrored | db/db_local.cc:158-174 | installing tables is a run of guard operations |
| StoreGuards.CollectMirrored | db/garbage_collector.cc:19-33 | collecting in the store keeps the versions and files that collecting by guards keeps |
| StoreGuards.DropMirrored | include/frenzykv/db/version.h:168-175 | dropping a snapshot releases the version guard in its slot and no other |
| StoreGuards.StepMirrored | include/frenzykv/util/file_guard.h:24-142 | every step of the store is mirrored by guard operations, a collection by the two halves of the collector |
| StoreGuards.RunMirrored | include/frenzykv/db/version.h:112-179 | every run of the store from its start is mirrored by a run of guards from theirs |
| Buffers.Buffer.Append | include/frenzykv/io/inner_buffer.h:95-107 | all of the bytes are appended or, when they do not fit, none |
| Buffers.Buffer.Commit | include/frenzykv/io/inner_buffer.h:126-130 | what was written to the writable span becomes valid |
| MemFile.ReadableExactly | io/in_mem_rw.cc:65-76 | a read is defined before the end, and at the end exactly when the last block is not full |
| MemFile.InMemRw.NextWritableBuffer | io/in_mem_rw.cc:21-29 | the last block has room and the content is unchanged |
| MemFile.InMemRw.Append | io/in_mem_rw.cc:46-61 | the content grows by exactly the bytes given, over as many blocks as it takes |
| MemFile.InMemRw.TargetSpans | io/in_mem_rw.cc:63-84 | the spans are the content from the offset on, enough of it or all, and none more than needed |
| MemFile.InMemRw.Read | io/in_mem_rw.cc:98-112 | reads exactly the bytes from the offset on, as many as there are and fit, and touches nothing behind them |
| MemFile.InMemRw.ReadNext | io/in_mem_rw.cc:114-122 | reads where the last read stopped and advances by what was read |
| MemFile.InMemRw.FileSize | io/in_mem_rw.cc:124-133 | the size is the length of the content |
| MemFile.InMemRw.DumpTo | io/in_mem_rw.cc:135-149 | all of the content is appended to the other file |
| MemFile.ReadsTile | io/in_mem_rw.cc:114-122 | consecutive reads of any sizes tile the content |
| WriteAheadLog.SerializeTo | db/kv_entry.cc:61-127 | the entry's bytes are written at the place given and nothing else changes, or nothing when there is no room |
| WriteAheadLog.SerializeKey | db/kv_entry.cc:61-79 | the key's fields are written one behind the other |
| WriteAheadLog.SerializeValue | db/kv_entry.cc:93-108 | the value's length and bytes are written |
| WriteAheadLog.IouringWritable.FlushValid | io/iouring_writable.cc:154-163 | everything written is on disk and the buffer is empty |
| WriteAheadLog.IouringWritable.Append | io/iouring_writable.cc:86-119 | in buffered mode disk and buffer together grow by exactly the bytes given; what of it goes to disk depends on the room left and the capacity as stated |
| WriteAheadLog.IouringWritable.Commit | io/iouring_writable.cc:172-184 | the committed bytes join what was written; the disk gets everything exactly when the buffer is full |
| WriteAheadLog.WriteAheadLogger.LogOne | log/write_ahead_logger.cc:44-58 | the entry is logged exactly when it fits the whole buffer; the entries before it are flushed exactly when it does not fit what is left, itself exactly when it fills the buffer |
| WriteAheadLog.WriteAheadLogger.Insert | log/write_ahead_logger.cc:37-61 | the entries before the first too large one are logged in order; disk and buffer hold everything logged, the disk a prefix of whole entries, as many as these steps and the final flush put there |
| WriteAheadLog.WriteAheadLogger.TruncateFile | log/write_ahead_logger.cc:63-70 | nothing is logged any more |
| WriteAheadLog.Recover | log/write_ahead_logger.cc:94-125 | the entries of the file in order and their greatest sequence number |
| WriteAheadLog.MaxSeqIsGreatest | log/write_ahead_logger.cc:112-122 | the accumulated number is the greatest one |
| WriteAheadLog.DiskRecovers | log/write_ahead_logger.cc:94-125 | at any time the disk alone reads back as the entries flushed so far, in order, with or without four zero bytes behind them |
| Bloom.SetProbes | util/bloom_filter.cc:50-60 | the in-place loop with wrapping double hashing sets one key's bits |
| Bloom.AppendNewFilter | util/bloom_filter.cc:38-63 | the filter of all keys is appended behind the destination |
| Bloom.TryMatch | util/bloom_filter.cc:65-83 | the probing loop computes the membership test |
| Bloom.SetKeysMeans | util/bloom_filter.cc:50-60 | a bit is set exactly when it was, or when a probe of a listed key hits it |
| Bloom.HasBitsExactly | util/bloom_filter.cc:40-43 | the filter has at least one byte exactly when rounding up the number of bits does not wrap 64 bits to zero |
| Bloom.ByteCountExact | util/bloom_filter.cc:40-43 | as long as nothing wraps, the filter has the least number of bytes that hold the bits of all keys, and at least eight |
| Bloom.KExact | util/bloom_filter.cc:26-33 | the number of probes is 0.69314 times the bits per key, rounded down, between 1 and 60 |
| Bloom.ProbeExact | util/bloom_filter.cc:16-19 | the i-th probe is the hash plus i times the hash turned by 31 bits, modulo 2^64 |
| Bloom.MatchExact | util/bloom_filter.cc:65-83 | a key matches exactly when all its probes hit probes of listed keys, or more than 30 probes are used |
| Bloom.ListedKeysMatch | util/bloom_filter.cc:38-83 | every listed key matches, for any hash and any number of bits per key |
| Bloom.DatabaseFilterKeeps | db/db_local.cc:55-55 | with 64 bits per key a table's filter keeps every key, although filters are concatenated |
| Bloom.DatabaseFilterGrows | util/bloom_filter.cc:38-63 | with 64 bits per key one key adds nine bytes |
| FileNames.NameRoundTrip | util/file_center.cc:35-72 | parsing a table file's name gives back its level and id |
| FileNames.RetrieveRefuses | util/file_center.cc:45-48 | exactly the names without the prefix or the ending are no table's |
| FileNames.RetrieveExact | util/file_center.cc:50-72 | of any other name with these parts, the level is the number behind the stars; it throws exactly when there is none or it is too large |
| FileNames.NameLength | include/frenzykv/util/file_center.h:30-34 | the name has the fixed length exactly for levels up to 99999 |
| FileNames.AppendVersionDescriptor | db/version_descriptor.cc:76-91 | every name is appended on a line of its own |
| FileNames.ReadVersionDescriptor | db/version_descriptor.cc:93-108 | the chunk loop returns the whole chunks without their line ends and reaches the end |
| FileNames.DescriptorRoundTrip | db/version_descriptor.cc:76-108 | names read back as written exactly when all have the fixed length |
| FileNames.VersionSurvives | db/version_descriptor.cc:140-153 | levels and ids survive writing, reading and parsing exactly for levels of at most five digits |

## Left out

- Coroutines, io_uring, file locks, directories, JSON options, statistics and debug writers: no part of the logic.
- zstd, CRC32C, MurmurHash, the skip list's towers, the table cache and uuids: abstract, with the laws stated above.
- Unserialized interleavings of insertions and compactions: sequence numbers are taken before the memtable lock
  (db/db_local.cc:261-266) and the compaction flag is released before the delta is installed; the store's steps are atomic.
- Recovery at start-up as a durability theorem: the result of inserting the recovered batch is ignored
  (db/db_local.cc:116); `Recover` and the log file are modelled, the database object does not call the log.
- Removal in mixed batches (util/write_batch.cc:45-72), unbuffered appends, tombstone compaction, partial entries: unfinished in the original.
- Finishing of version centers by moving, loading several old versions at start-up: `Guarding` starts from one version, or from any state that satisfies its invariant.
- Database.DbLocal.Find: levels are visited by number instead of sorting the files and cutting runs of one level; answers of one level are taken in list order instead of concurrently, and only the greatest key counts.
- RefCenters.Centers.ApplyDelta: the delta's guards are slots of the state, and slots stand for guard objects; two names for one guard show as equal slot numbers.
- MemFile.InMemRw.Append: the blocks are values holding their valid bytes, as the vector holds its buffers; `Buffers.Buffer` models one buffer's storage in place.
- TableImages.SstableBuilder.Add: sizes in bytes of finished tables are not bounded, since the limit does not bound them.
- Database.DbLocal.Compact: a selection of a single file, on which the original stops, is excluded by the allowed numbers of files the constructor asks for; the background task, which compacts with another ratio, is not part of the object, its compactions are steps of `Store`.
- Database.DbLocal.Insert: a batch larger than an empty memtable is excluded, since the original never returns from it; `Database.DbLocal.InsertWithin` says so of the loop.
- MemFile.InMemRw.DumpTo: the target is another in-memory file, not any sequential writable.
- Bloom.AppendNewFilter: the floating point factor is a real number; bit counts that wrap to zero are excluded, since the original divides by them.
- Store.Share: products with a ratio are real numbers, not rounded doubles; so is `Store.Kept`.
- Database.DbLocal.CompactLevel: the flag that keeps two compactions of one level apart; the original has none for the greatest level.
