# A verified model of ZboxFS

ZboxFS keeps an encrypted file system in a depot of fixed-size blocks. This
project models, in Dafny, the five layers its correctness rests on and proves
what each promises to the one above.

**Content** (`MerkleSpec`, `MerkleWriter`, `MerkleTree`, `Extents`, `Spans`,
`Entries`, `Coverage`, `EntryLists`, `ContentReader`, `Content`, `Segments`,
`ChunkMaps`, `References`, `DroppedChunks`, `VersionCounts`, `ContentWriter`,
`Versions`).
A file is a list of entries, each a list of spans over the chunks of a segment,
with a Merkle tree in a flat array beside it. Overwrites and truncations are
chunk-aligned cuts of the nested lists; the bytes they denote are spliced and cut
like a plain byte string, the tree updated in place is node for node the rebuilt
one, and reads of any size return those bytes. Segments count the spans over each
chunk and are compacted without any linked content noticing; `DroppedChunks` says
exactly what a compaction loses. `Versions` puts a file together - content, older
versions, segments, chunk map - and takes a write from its pieces through chunker and
content writer to the linked version.

**Transactions** (`Armor`, `Transactions`, `TransactionsInv`, `TransactionsProof`,
`Recovery`, `Reentrancy`, `Retirement`, `FailingRuns`, `WalQueue`, `Cows`, `TxMgr`). Every stored
item has two arms with sequence numbers; a queue of doing and done transactions and a log per transaction
decide what survives. `Transactions` is a step machine with one step per operation
on the store, each of which may fail, and a stop possible between any two.
`Recovery` proves crash atomicity over every run of careful steps, and `FailingRuns`
that care is exactly what it takes. `Reentrancy` proves, for careful and careless runs
alike, that hot and cold redo can be interrupted and repeated at will, and that
recovery can always be completed; `Retirement` says which transactions the queue
remembers and that no older one has left a log. `WalQueue` and `Cows` are
the same code with its fields changed in place, tied to the functions the machine
uses; `TxMgr` has several transactions at work at once and proves what each
thread reads.

**Chunker** (`RollingHash`, `ChunkSpec`, `Chunker`). The rolling hash, the circular
window and the sliding buffer compute the cuts a plain function of the stream
gives, whatever the writes.

**Index** (`IndexTabs`, `IndexLevels`, `Compaction`, `IndexOrder`, `IndexMgr`,
`DoubleKeys`, `FailingCompactions`). A memory table over levels of sorted tabs. With no
key twice in level 0, compaction keeps every lookup exactly if it resurrects no deleted
key; with double keys `DoubleKeys` says the same of each key that occurs once, and
has the exact condition for one that occurs several times. Compaction keeps the order
the next compaction relies on exactly if no tab lies above the compacted keys. All
three conditions can fail, and `FailingCompactions` shows it with levels filled by
young tabs as the program fills them.

**Blocks** (`BlockSpans`, `Sectors`, `SectorSpec`, `SectorMgr`, `Addresses`,
`FrameSpec`, `StorageSpec`, `Storage`, `StorageReader`). Sectors of the file depot
refine a plain map of blocks through deletions and repeated shrinking. Entities are
encrypted frame by frame into blocks allocated among those of other writers, read
back through a frame cache that always agrees with the blocks stored.

Hash functions are parameters, so every result holds for all of them. A cipher is a
pair of functions of which only two things are assumed: decryption undoes
encryption under any salt, and encryption adds a fixed overhead. Salts, paddings,
evictions from caches and the outcomes of fallible operations are arbitrary. Integers
are unbounded except where the width matters: rolling-hash words are a 64-bit type
whose arithmetic is checked not to overflow, and reference counts stop at the 32-bit
maximum.

Where the code does not do what its documentation promises, the model follows the
code:

- A thread reads an entity another transaction has just created before that
  commits, and `make_mut` on it succeeds (`src/trans/cow.rs:134-136`,
  `src/trans/cow.rs:266-277`). If that transaction is aborted the entity stays with
  its holders and can be read and updated like any other
  (`src/trans/cow.rs:417-429`). `TxMgr.Isolation` says exactly when isolation holds.
- Until a failed abort is redone the store may show what was not committed
  (`src/trans/txmgr.rs:153-173`), and since an aborted entity is no longer pinned
  (`src/trans/cow.rs:470-481`) it can be dropped from the cache and loaded again.
  Loading a committed entity that way, from the arm the abort has yet to delete, makes
  a later update overwrite the committed version; `FailingRuns.CommittedValueLost` is
  such a run, and `FailingRuns.CareIsNeeded` says that for crash atomicity
  nothing else can go wrong.
- Finishing a write puts back the chunk map as it was before retired chunks were taken
  out of it (`src/fs/fnode.rs:776-796`), so a chunk that a compaction dropped can be
  found again and linked. Right after the compaction that fails an assertion
  (`src/content/segment.rs:273-280`), later it can succeed. The counts stay
  right, but the span denotes other bytes or none: `DroppedChunks.RetiredMisread` shows
  it, `DroppedChunks.RelinkKeeps` says exactly when a list still denotes what was
  staged, and `Versions.File.Finish` exactly when the map put back is right.
- Compaction drops a deletion mark together with the item it deletes even if an
  older one lies deeper (`src/volume/storage/index_mgr.rs:154-160`).
- Compaction appends its tabs to the next level without reordering
  (`src/volume/storage/index_mgr.rs:499-502`), and the next compaction merges the
  tabs it finds in the order they are listed.
- Level 0 may hold a key twice, and compaction sorts the items by address where keys
  are the same (`src/volume/storage/index_mgr.rs:422-425`), so an older item can win.

`dafny verify dfyconfig.toml` checks the whole project.

## Model

| member | source | states |
|---|---|---|
| `MerkleTree.BuildFromWrites` | src/content/merkle_tree.rs:421-461 | However a content is split over writer calls, the built array is the reference tree of the bytes node for node, and its first node is the root of the pairwise reduction |
| `MerkleTree.MerkleTree.Merge` | src/content/merkle_tree.rs:172-254 | Merging staged leaves into the tree of the old bytes gives, node for node, the tree a full rebuild gives for the overwritten bytes, for every old string, offset within it and non-empty data; old inner nodes are reused in place |
| `MerkleTree.MerkleTree.MergeLeaves` | src/content/merkle_tree.rs:186-213 | After the leaf step the leaf level is that of the new bytes where the merge has to be right, and no old node still needed has been overwritten |
| `MerkleTree.MerkleTree.MergeInnerNodes` | src/content/merkle_tree.rs:215-249 | The inner levels, some copied from the old tree in place and some re-hashed, complete the tree of the new bytes |
| `MerkleTree.MerkleTree.Truncate` | src/content/merkle_tree.rs:257-321 | Truncating the tree of any bytes at any position gives the tree of the prefix, though only the last node of each level is re-hashed |
| `MerkleTree.MerkleTree.TruncateInnerNodes` | src/content/merkle_tree.rs:286-316 | The smaller tree filled level by level from the larger one is the tree of the prefix |
| `MerkleTree.MerkleTree.Build` | src/content/merkle_tree.rs:140-169 | The array built from leaf hashes is the flattened reference tree over them |
| `MerkleTree.TreeNodeCnt` | src/content/merkle_tree.rs:62-70 | The node count is that of the reference tree with so many leaves |
| `MerkleSpec.FlatShape` | src/content/merkle_tree.rs:140-169 | The flat array of a level and its parents has the leaves last and the tree of the parents before them |
| `MerkleSpec.FlatHeadIsRoot` | src/content/merkle_tree.rs:421-448 | Node 0 of the flat array is the root of the pairwise reduction the tests compute |
| `MerkleWriter.Writer.Write` | src/content/merkle_tree.rs:356-384 | A write of any length extends the staged bytes and keeps every finished piece hashed and the rest in the running state |
| `MerkleWriter.Writer.FinishWithLeaves` | src/content/merkle_tree.rs:348-353 | The leaves handed over are the hashes of the staged bytes of each piece, the last one completed |
| `MerkleWriter.PieceHash` | src/content/merkle_tree.rs:43-59 | The hash of the piece an offset lies in, however short the single reads are |
| `Spans.CutOffKeeps` | src/content/span.rs:120-134 | What cutting a span off at any position keeps is a well-formed span that denotes the bytes before the cut |
| `Spans.CutToKeeps` | src/content/span.rs:136-151 | What cutting a span up to any position keeps is a well-formed span that denotes the bytes from there on |
| `Spans.LocateInside` | src/content/span.rs:60-87 | Every position of a span is found in one of its chunks, and aligning down never goes below zero |
| `Spans.MergeUpJoins` | src/content/span.rs:90-95 | Merging with the next span in the segment concatenates the bytes |
| `Entries.EntryCutOffKeeps` | src/content/entry.rs:27-57 | Cutting an entry off keeps a well-formed entry that denotes the bytes before the cut |
| `Entries.EntryCutToKeeps` | src/content/entry.rs:59-89 | Cutting an entry up to a position keeps a well-formed entry that denotes the bytes from there on |
| `Entries.EntryAppendJoins` | src/content/entry.rs:121-134 | Appending a span, merged with the last one or not, appends its bytes |
| `EntryLists.EntryList.SplitOff` | src/content/entry.rs:27-57 | The list keeps exactly the bytes before the cut, wherever that falls in chunks, spans and entries |
| `EntryLists.EntryList.SplitTo` | src/content/entry.rs:59-89 | The list keeps exactly the bytes from the cut on |
| `EntryLists.EntryList.Join` | src/content/entry.rs:252-256 | Joining the list that continues this one concatenates the bytes |
| `EntryLists.EntryList.Append` | src/content/entry.rs:236-250 | Appending the span of a chunk appends its bytes and keeps the list well formed |
| `EntryLists.EntryList.WriteWith` | src/content/entry.rs:260-295 | Overwriting with a staged list is a splice of the bytes: old up to its start, staged, old after its end; the entries are those of the cut list, the staged ones and those of the other cut |
| `EntryLists.EntryList.Check` | src/content/entry.rs:368-391 | The check passes exactly if entries and spans follow each other without gaps, none is empty, and the lengths add up |
| `EntryLists.WellFormedChecked` | src/content/entry.rs:368-391 | Every well-formed list passes the check |
| `EntryLists.ListTransfer` | src/content/span.rs:56-69 | When segments change but every span of a list stays good, the list denotes the same bytes |
| `ContentReader.Reader.Read` | src/content/content.rs:174-221 | A read of any size returns exactly the bytes of the content at the position, as far as they go |
| `Content.Content.MergeFrom` | src/content/content.rs:64-80 | Merging staged content splices its bytes in and leaves the tree of the result |
| `Content.Content.Truncate` | src/content/content.rs:82-98 | Truncation keeps the prefix and leaves its tree |
| `Content.Content.Hash` | src/content/content.rs:53-55 | The content hash is the reference Merkle root of the bytes |
| `Content.Replay` | src/content/content.rs:64-98 | Over every run of non-empty writes and truncations from the empty content, with segments that only grow in between, the list stays well formed, denotes the plain byte string, and the tree is the rebuilt one |
| `ChunkMaps.ChunkMap.GetRefresh` | src/content/chunk.rs:102-111 | A lookup finds a location exactly if the map is enabled and has the hash; refreshing makes it the newest, keeps the order of the others and changes no location |
| `ChunkMaps.ChunkMap.Insert` | src/content/chunk.rs:113-135 | The chunk is remembered as the newest, instead of any other with its hash; all others stay in their order, except that the least recently used one goes if the map would reach its capacity |
| `ChunkMaps.ChunkMap.RemoveChunks` | src/content/chunk.rs:148-161 | Exactly the locations of those chunks of the segment are forgotten |
| `ChunkMaps.ChunkMap.RemoveSegment` | src/content/chunk.rs:163-173 | Exactly the locations in the segment are forgotten |
| `ContentWriter.Writer.AppendFound` | src/content/content.rs:319-345 | A chunk found again is staged as a span over it; the assertion on its length fails only if two chunks share a hash |
| `ContentWriter.Writer.AppendChunk` | src/content/content.rs:269-295 | A new chunk is appended to the current segment, or to a new one exactly if that is full, staged, and remembered at its place |
| `ContentWriter.Writer.StageChunk` | src/content/content.rs:308-352 | A chunk the map knows is found again and nothing is stored; any other is appended to the current segment, or to a new one if that is full, and known from then on |
| `ContentWriter.Writer.Write` | src/content/content.rs:308-352 | Each chunk written is staged as a chunk of the same hash and length, stored exactly if its hash is not known, and its bytes go to the leaves; what the chunk map finds stays right; a failed assertion means another chunk with the same hash |
| `ContentWriter.Writer.Finish` | src/content/content.rs:298-306 | The leaves are those of the bytes written; the list denotes the same bytes if and only if every chunk found again is the chunk written |
| `ContentWriter.StagedIsWritten` | src/content/content.rs:308-352 | Chunks of the same hashes and lengths make up the same bytes if and only if they are the same chunks |
| `Versions.File.PutChunk` | src/content/segment.rs:503-525 | Writing a chunk appends it to the segment unless that is full, and leaves the current content well formed with the same bytes and tree |
| `VersionCounts.WrittenCounts` | src/content/entry.rs:260-295 | An overwritten list names a chunk at most twice as often as the old one, and as often as the new one on top |
| `VersionCounts.CutCounts` | src/content/entry.rs:27-89 | Neither side of a cut names a chunk more often than the list did |
| `VersionCounts.CanLinkIff` | src/content/segment.rs:273-287 | In well-formed segments a list that names no dropped chunk can be linked if and only if no count overflows: the assertion on the length in use cannot fail |
| `VersionCounts.RoomLinks` | src/content/entry.rs:298-308 | With room for the names of what is written, any overwritten version can be linked |
| `Versions.File.Adopt` | src/fs/fnode.rs:584-586 | A new version is linked exactly if no count overflows and no assertion fails for the list it names, else nothing changes |
| `Versions.File.Overwrite` | src/fs/fnode.rs:773-800 | Any staged write that is well formed becomes a linked new version whose bytes are the splice and whose tree is the rebuilt one, if and only if the overwritten list can be linked, which it can while no count comes near its maximum; else nothing changes |
| `Versions.File.Cut` | src/content/content.rs:82-98 | A cut becomes a linked new version that denotes the prefix, if and only if the cut list can be linked, which it can while no count comes near its maximum; else nothing changes |
| `Versions.File.Drop` | src/fs/fnode.rs:588-592 | Dropping an older version leaves the current content well formed with the same bytes and tree; segments go exactly if nothing uses them and are rewritten exactly if less than a quarter of them is still in use; the chunk map keeps exactly the chunks that remain, and any other map is right exactly for those |
| `Versions.File.Finish` | src/fs/fnode.rs:776-800 | Merge, link, eviction of a version and the change of chunk maps: the bytes are the splice, exactly if the overwritten list can be linked; the evicted version is the only one that goes; and the map put back is right if and only if every chunk it names remains |
| `Versions.File.WriteFrom` | src/fs/fnode.rs:763-800 | A write in any pieces, through chunker, chunk map, content writer, merge, link and eviction, overwrites exactly those bytes of the file, and does so whenever three times every count plus the number of chunks written is within 32 bits |
| `Segments.RefKeepsUsed` | src/content/segment.rs:273-295 | Counting a chunk up or down keeps `used` equal to the length of the chunks with a positive count |
| `Segments.Shrink` | src/content/segment.rs:320-377 | Compaction keeps every referenced chunk with its bytes, the new data has exactly `used` bytes, and the indices returned are exactly the orphans |
| `Segments.ShrinkTiles` | src/content/segment.rs:320-377 | A compacted segment is again well formed, so compaction may be repeated any number of times |
| `Segments.ShrinkKeeps` | src/content/segment.rs:320-377 | A span whose chunks are all referenced is still a span after compaction and denotes the same bytes |
| `Segments.ShrinkCounted` | src/content/segment.rs:320-377 | Compaction changes no count and no length, and its result can be compacted again, whatever was linked |
| `References.RefChunks` | src/content/segment.rs:273-287 | The range is counted up if and only if no count overflows and the assertion on the length in use holds at the end |
| `References.DerefChunks` | src/content/segment.rs:289-302 | Every chunk of the range counts one less, or one of them was at zero |
| `References.RefSpans` | src/content/entry.rs:298-308 | Every chunk counts one more for each span covering it, if and only if no count overflows and the assertion holds at the end |
| `References.DerefSpans` | src/content/entry.rs:312-342 | Giving back counts that are there never underflows |
| `References.SegmentStore.Write` | src/content/segment.rs:503-525 | A chunk goes to a segment with room; counts stay conserved and no linked content notices |
| `References.SegmentStore.Link` | src/content/entry.rs:298-308 | Whatever is linked, each count stays the number of spans of linked contents covering the chunk; linking succeeds if and only if no count overflows and no assertion fails, else nothing changes; the chunks in use stay inside the data, and the chunks still tile it, if and only if the list names none outside it and none dropped |
| `References.LinkTiles` | src/content/entry.rs:298-308 | The chunks not dropped by a compaction still tile the data after a link if and only if the list names no dropped one |
| `References.SegmentStore.Unlink` | src/content/entry.rs:312-342 | Counts stay conserved through removal and compaction, and every other linked content denotes the same bytes; a segment is removed exactly if no linked content uses it, its data is rewritten exactly if less than a quarter of it is still in use, and none is left that could be compacted; the chunk map keeps exactly the chunks that remain, all this even after a dropped chunk was linked again |
| `References.ShrunkSound` | src/content/chunk.rs:148-161 | After a compaction a chunk map that forgets the dropped chunks finds the right bytes for every hash |
| `DroppedChunks.DropLoses` | src/content/segment.rs:320-377 | The converse of keeping: for some data of the segment no compaction keeps what a span over a dropped chunk denotes |
| `DroppedChunks.SurvivesIffLive` | src/content/segment.rs:320-377 | Whatever the data, compaction keeps what a span denotes, if and only if every chunk of the span is referenced |
| `DroppedChunks.RelinkKeeps` | src/content/content.rs:319-345 | A staged list that is linked only after a compaction still denotes what was staged, whatever the data, if and only if it names no dropped chunk |
| `DroppedChunks.FreshlyShrunk` | src/content/segment.rs:273-280 | Right after a compaction, counting up a dropped chunk fails the assertion |
| `DroppedChunks.RetiredMisread` | src/fs/fnode.rs:776-796 | A shrinkable segment, compacted, and one more chunk given up: of three dropped chunks one can be linked again and denotes the bytes of another, one can be and is no longer well formed, one fails the assertion |
| `DroppedChunks.LinkedAvoids` | src/content/segment.rs:320-377 | In a well-formed store no linked content names a chunk a compaction has dropped |
| `Armor.RunHolds` | src/volume/armor.rs:131-152 | Over every run of save attempts the arm in use holds the last item saved and the other one nothing newer |
| `Armor.LoadGivesLastSaved` | src/volume/armor.rs:104-152 | After any run with a success a load gives the last item saved, and the two arms never carry the same sequence number |
| `Armor.HoldsLoads` | src/volume/storage/file/file_armor.rs:222-244 | The file armor, which falls back to the other arm on any error, and the volume armor both load the version in use |
| `Recovery.StepInv` | src/trans/txmgr.rs:47-173 | Every step of the machine - a store operation that works or fails, or a stop - keeps the invariant, if it does not load a committed entity from an arm a pending abort has yet to delete |
| `Recovery.CrashAtomicity` | src/trans/wal.rs:448-573 | After any run of careful steps, with failures and stops anywhere, recovery makes every entity load the value left by the last transaction whose commit-time queue save succeeded, and entities no such transaction created are not found |
| `FailingRuns.CareIsNeeded` | src/trans/cow.rs:240-250 | Care is exactly what crash atomicity takes: after any careful run, a load keeps it for everything that follows if and only if what it loads is not a committed entity from an arm for a pending abort to delete |
| `FailingRuns.CarelessLoadLoses` | src/trans/cow.rs:470-481 | Every careless load, in any state careful runs reach, has a continuation after which recovery loses the committed value |
| `FailingRuns.CommittedValueLost` | src/trans/txmgr.rs:153-173 | A whole run: a failed commit whose abort fails too, a reload of the entity, the redo, an update and a stop, after which a committed entity is not found |
| `Recovery.LiveLoads` | src/trans/cow.rs:240-250 | While a process runs, an entity its transaction does not name loads as its committed version, arm and value, or is not found, if and only if what it loads is not for a pending abort to delete |
| `Recovery.MemoryValue` | src/trans/cow.rs:266-277 | Over every careful run an entity in memory has, inside a transaction, the value of that transaction; outside it has the committed value if its creator committed |
| `FailingRuns.AbortedInMemory` | src/trans/cow.rs:417-429 | A run after which memory shows the value of an entity whose creator was aborted |
| `Reentrancy.QueueShape` | src/trans/wal.rs:272-363 | Over every run, careful or not, pending aborts are among the doing, at most one is doing, none is both doing and done, at most two are done, no transaction runs while an abort is pending, and the queue in memory is the one saved |
| `Retirement.DoneIsNewest` | src/trans/wal.rs:299-311 | Over every run, careful or not, the queue saved remembers exactly the last two transactions committed, in order; none is committed twice; and none that was dropped from the queue has a stored log arm left |
| `Retirement.AbortedLeavesNoLog` | src/trans/trans.rs:148-162 | Over every run, a transaction whose abort ends has left no stored log arm |
| `Retirement.CommitCompletes` | src/trans/wal.rs:277-311 | A commit is never stuck at retiring: from every state of a run in which one is due, removing the log of the oldest transaction enables its queue save |
| `Reentrancy.RecoveryReentrant` | src/trans/wal.rs:343-363 | Cold redo, after every run: recoveries failing or stopped at any step any number of times always leave the same store to recover to, and one that ends has reached it |
| `Reentrancy.RedoReentrant` | src/trans/wal.rs:325-340 | Hot redo, after every run: redoing pending aborts, failing at any step any number of times, always leaves the same store to redo to, and once none is pending it is reached |
| `Reentrancy.RecoveryCompletes` | src/trans/wal.rs:448-486 | From the store any run leaves, some recovery run ends with a process ready for a transaction |
| `FailingRuns.PendingAbortShows` | src/trans/txmgr.rs:153-173 | A careful run after which a pending abort leaves an uncommitted entity visible in the store |
| `TransactionsProof.StepBegin` | src/trans/txmgr.rs:47-88 | Beginning a transaction, saved or not, keeps the invariant |
| `TransactionsProof.StepSaveFirstWal` | src/trans/trans.rs:56-58 | Saving the empty log, or failing to and aborting, keeps the invariant |
| `TransactionsProof.StepCreate` | src/trans/cow.rs:443-455 | Creating an entity inside a transaction keeps the invariant |
| `TransactionsProof.StepModify` | src/trans/cow.rs:132-147 | Changing an entity inside a transaction keeps the invariant |
| `TransactionsProof.StepLoadCow` | src/trans/cow.rs:240-250 | A careful load brings the committed version and its arm into memory, or an uncommitted entity known as such |
| `TransactionsProof.StepSaveWal` | src/trans/trans.rs:91-100 | Saving the log before the entities, or failing to, keeps the invariant |
| `TransactionsProof.StepSaveCowGood` | src/trans/cow.rs:352-399 | Saving an entity to the arm its log entry names keeps the committed version safe |
| `TransactionsProof.StepSaveCowBad` | src/trans/cow.rs:352-399 | A failed entity save, whether its arm is left alone or lost, leads to an abort that keeps the invariant |
| `TransactionsProof.StepRecycleDel` | src/trans/wal.rs:277-297 | Removing the arms of a retired log while committing keeps the running transaction recoverable |
| `TransactionsProof.RetireShort` | src/trans/wal.rs:299-304 | Retiring keeps the newest transaction of a full queue and drops all others |
| `TransactionsProof.StepSaveCommit` | src/trans/wal.rs:299-311 | The queue save is the moment of commit, taken once retired logs are gone: with it the saved versions become the committed ones |
| `TransactionsProof.StepCommitFail` | src/trans/txmgr.rs:120-149 | A commit that fails turns into an abort that keeps the invariant |
| `TransactionsProof.StepCleanDel` | src/trans/wal.rs:116-137 | Deleting one arm of an aborted entity never touches a committed version |
| `TransactionsProof.StepCleanFail` | src/trans/wal.rs:325-340 | A clean-up that fails, with any part of it done, leaves the abort pending |
| `TransactionsProof.StepRemoveWal` | src/trans/trans.rs:148-162 | Removing the log of an aborted transaction, in part or whole, keeps the invariant |
| `TransactionsProof.StepSaveEnd` | src/trans/wal.rs:545-573 | The queue save that ends an abort or a redo, or its failure, keeps the invariant |
| `TransactionsProof.StepOpen` | src/trans/wal.rs:448-486 | Opening restores queue and watermark and starts a redo that can only delete what is safe to delete |
| `WalQueue.WalQueueMgr.BeginTrans` | src/trans/wal.rs:489-526 | A failed save restores the queue but not the watermark; otherwise the queue has the transaction among the doing, as the step machine has it |
| `WalQueue.WalQueueMgr.RecycleTrans` | src/trans/wal.rs:277-297 | The log of the oldest transaction is removed, both arms, unless it is gone already; no other log changes |
| `WalQueue.WalQueueMgr.RetireTrans` | src/trans/wal.rs:299-304 | The transactions taken off the queue are all but the newest, and none of them has a stored log arm left; it fails exactly if one of their logs cannot be loaded or deleted |
| `WalQueue.RetiredIsRecycled` | src/trans/wal.rs:299-304 | The logs the method removes are those the commit step of the crash model asks to be gone |
| `WalQueue.WalQueueMgr.CommitTrans` | src/trans/wal.rs:299-311 | A full queue [.., x] commits t to [x, t], after the logs of the transactions it drops are gone; no other log changes. It succeeds exactly if those logs can be removed and the save works, and a failure anywhere restores the queue |
| `WalQueue.WalQueueMgr.BeginAbort` | src/trans/wal.rs:541-543 | The transaction and its log are pending abort |
| `WalQueue.WalQueueMgr.End` | src/trans/wal.rs:545-573 | Ended transactions leave aborting and doing together, or, if the save fails, neither |
| `WalQueue.WalQueueMgr.Open` | src/trans/wal.rs:448-459 | The queue loaded and the watermark are those saved last |
| `Cows.Cow.Commit` | src/trans/cow.rs:352-399 | The new version is written to the new one's arm, and whether or not that works versions and arm end up as they were |
| `Cows.Cow.Assign` | src/trans/cow.rs:69-147 | Changing through `make_mut` joins the transaction, fails if another one updates the entity, and writes a new entity directly |
| `Cows.Cow.DoCompleteCommit` | src/trans/cow.rs:402-415 | From then on every thread reads the version the transaction saved, in the arm it was saved to, and an updated cow has no other |
| `Cows.Cow.DoAbort` | src/trans/cow.rs:417-429 | From then on every thread reads what others read before: the old version of an updated cow, the aborted one of a new cow |
| `Cows.ChangeUndone` | src/trans/cow.rs:132-147 | A change that is aborted leaves the cow as it was; one that is completed is what every thread reads; until then only its own thread does; one that fails changes what nobody reads |
| `Cows.ViewSteps` | src/trans/cow.rs:402-429 | Completing and aborting do to the fields what the crash model says they do to the entity, new ones included |
| `TxMgr.OneHolder` | src/trans/txmgr.rs:91-110 | At most one running transaction holds an entity, and the entity knows which |
| `TxMgr.Isolation` | src/trans/cow.rs:266-277 | A thread reads what its own transaction staged; any other thread reads a value some transaction committed if and only if the creator of the entity has committed, and then the last one; otherwise what the creator, running or aborted, has left |
| `TxMgr.AbortedLivesOn` | src/trans/cow.rs:417-429 | A run in which an aborted entity is read by a thread outside any transaction, and updated by a later one |
| `TxMgr.NewIsVisible` | src/trans/cow.rs:266-277 | A run in which a thread outside any transaction reads a value nobody committed |
| `TxMgr.ChangeOk` | src/trans/cow.rs:69-147 | Exactly when a change succeeds, fails as in use, or fails for lack of a transaction, and what it stages |
| `TxMgr.TxMgr.Create` | src/trans/cow.rs:443-455 | A created entity is staged in its transaction only |
| `TxMgr.TxMgr.Assign` | src/trans/cow.rs:69-147 | Own transaction: the value is staged; updated by another: nothing changes; created by another: the change goes through to that one |
| `TxMgr.TxMgr.SaveAll` | src/trans/trans.rs:105-125 | The entities of a transaction are saved until one save fails; only sequence numbers change |
| `TxMgr.TxMgr.Commit` | src/trans/txmgr.rs:120-149 | All staged values become committed exactly if the log, every entity and the queue are saved; else none does, and every entity of the transaction is as an abort leaves it |
| `TxMgr.TxMgr.AbortAll` | src/trans/txmgr.rs:153-173 | What others read of an entity stays as it was, arm and value, created entities included, and other transactions are not touched |
| `RollingHash.RollSlides` | src/content/chunker.rs:139-147 | One step of the rolling hash, with its masking and wrapping, gives the polynomial hash of the window moved on by a byte |
| `RollingHash.NewPolyPow` | src/content/chunker.rs:43-46 | The factor of the byte leaving is the prime to the window size, masked, with no overflow on the way |
| `RollingHash.NewIr` | src/content/chunker.rs:53-61 | The table entry of a byte is the sum over the bits of the irreducible polynomial, with no overflow on the way |
| `RollingHash.PolyBits` | src/content/chunker.rs:14-15 | Which of the sixteen bits tested are in the irreducible polynomial |
| `RollingHash.IrIs` | src/content/chunker.rs:53-61 | The table entry of a byte is one plus the masked products of the byte with the powers 0, 1, 7, 8, 10, 11 and 15 of the prime: the low bits of the polynomial |
| `RollingHash.NewParams` | src/content/chunker.rs:40-65 | Both tables agree with the polynomial for every byte |
| `ChunkSpec.NextCutIsFirst` | src/content/chunker.rs:156-160 | The next cut is the first length from the minimum on where the hash of the last 16 bytes matches the entry of the byte before them, or the maximum |
| `ChunkSpec.ChunksAtCuts` | src/content/chunker.rs:126-190 | Every chunk of a stream ends at the first place where a chunk starting there may, and the rest has no such place |
| `ChunkSpec.ChunksExtend` | src/content/chunker.rs:126-190 | More input keeps the chunks already cut, and those to come depend only on the rest and the new bytes |
| `ChunkSpec.Resync` | src/content/chunker.rs:126-190 | Streams that share a tail after a cut of each share all its chunks |
| `ChunkSpec.ChunksConserve` | src/content/chunker.rs:126-190 | Chunks and rest make up the stream, each chunk between the minimal and the maximal size, the rest below the maximum |
| `ChunkSpec.ZerosUncut` | src/content/chunker.rs:155-160 | Where the last 17 bytes are zero a chunk ends only if it is full |
| `ChunkSpec.ZeroChunks` | src/content/chunker.rs:155-160 | A stream of zeros is cut into chunks of the maximal size only |
| `ChunkSpec.AllChunksConserve` | src/content/chunker.rs:192-209 | With the flush the chunks concatenate to the stream, and all but the last have at least the minimal size |
| `ChunkSpec.MaskTest` | src/content/chunker.rs:157-160 | The exclusive or of hash and table entry is zero under the mask if and only if both agree in its bits |
| `Chunker.Chunker.Push` | src/content/chunker.rs:139-151 | The circular window drops its oldest byte for the new one and the hash stays that of the window |
| `Chunker.Chunker.Cut` | src/content/chunker.rs:161-187 | The chunk goes out as it is in the buffer, and what follows it survives the move to the front |
| `Chunker.CutTest` | src/content/chunker.rs:155-160 | From the minimal size on, the test on hash and byte pushed out is the test on the chunk's own last 17 bytes |
| `Chunker.Chunker.Write` | src/content/chunker.rs:126-190 | A write takes something of any non-empty input, so the buffer never fills up, and the chunks out are those of all input so far |
| `Chunker.Chunker.Flush` | src/content/chunker.rs:192-209 | The rest becomes the last chunk and the next stream starts afresh |
| `Chunker.ChunkAll` | src/content/chunker.rs:126-209 | However a stream is split over writes, the chunks are those of the stream |
| `IndexTabs.Merge` | src/volume/storage/index_mgr.rs:140-179 | The merge loop computes the recursive merge |
| `IndexTabs.MergedOrdered` | src/volume/storage/index_mgr.rs:140-179 | Merging tabs in key order gives a tab in key order |
| `IndexTabs.MergedGet` | src/volume/storage/index_mgr.rs:140-179 | A merge answers for every key as the newer tab, else the older, except that a deletion mark and what it deletes are both dropped |
| `IndexTabs.Divide` | src/volume/storage/index_mgr.rs:129-137 | The division loop cuts the tab into runs of the given size |
| `IndexTabs.DividedParts` | src/volume/storage/index_mgr.rs:129-137 | The parts concatenate to the tab, none empty, all but the last of the given size |
| `IndexLevels.LevelIsFlat` | src/volume/storage/index_mgr.rs:310-317 | In a level without double keys a lookup finds the key in whichever tab has it |
| `IndexLevels.SortKeeps` | src/volume/storage/index_mgr.rs:407-427 | Sorting items with distinct keys puts them in key order and changes no lookup |
| `Compaction.NextLevelGet` | src/volume/storage/index_mgr.rs:484-502 | After a compaction the next level answers as the two levels did together, except for deletions carried out |
| `Compaction.NextLevelOk` | src/volume/storage/index_mgr.rs:484-502 | The next level stays without double keys, its tabs in key order each |
| `Compaction.NextLevelSizes` | src/volume/storage/index_mgr.rs:496-502 | No tab a compaction adds is empty or larger than tabs of its level are |
| `Compaction.CompactedGet` | src/volume/storage/index_mgr.rs:456-508 | With no key twice in the level, compaction changes the answer for a key if and only if the key is marked deleted in the level, held in the next and live deeper |
| `Compaction.CompactionKeepsLookups` | src/volume/storage/index_mgr.rs:456-508 | With no key twice in the level, compaction keeps every lookup if and only if no such key exists |
| `DoubleKeys.RunMerged` | src/volume/storage/index_mgr.rs:140-179 | A merge of tabs with repeated keys leaves of each key what spending the newer items on the older ones one by one leaves |
| `DoubleKeys.CompactedRun` | src/volume/storage/index_mgr.rs:456-508 | What a compaction leaves of a key depends on the items of that key in the two levels only |
| `DoubleKeys.SingleGet` | src/volume/storage/index_mgr.rs:456-508 | However often other keys occur, compaction changes the answer for a key that occurs once in each level if and only if it resurrects it |
| `DoubleKeys.DoubledGet` | src/volume/storage/index_mgr.rs:407-427 | For a key that occurs several times in level 0, the answer after its compaction is right whichever item a search hits, if and only if its items in sorted order, less a leading deletion spent on the next level, all agree with the newest |
| `FailingCompactions.CompactionResurrects` | src/volume/storage/index_mgr.rs:511-530 | Four young tabs fill level 0; the compaction the last one sets off brings a deleted key back |
| `IndexOrder.NextLevelListed` | src/volume/storage/index_mgr.rs:496-502 | Starting from tabs listed in key order, they stay so if and only if nothing is added or no tab lies above the compacted keys |
| `FailingCompactions.CompactionLosesKey` | src/volume/storage/index_mgr.rs:511-530 | Eight young tabs, two compactions, the first into tabs in key order; after the second a live key is no longer found |
| `FailingCompactions.DoubleKeyReturns` | src/volume/storage/index_mgr.rs:407-427 | Four young tabs, the first inserting a key, the last deleting it; the compaction brings the inserted item back |
| `FailingCompactions.PushFour` | src/volume/storage/index_mgr.rs:511-530 | Of four young tabs pushed onto an empty level 0 the first three are added and the fourth sets off the compaction |
| `IndexMgr.YoungLevelGet` | src/volume/storage/index_mgr.rs:510-530 | A young tab pushed to level 0 answers for its keys, all other lookups stay |
| `IndexMgr.InsertGet` | src/volume/storage/index_mgr.rs:761-784 | An insertion with everything it sets off is a map update, provided its compactions resurrect nothing |
| `IndexMgr.InsertSize` | src/volume/storage/index_mgr.rs:626-643 | The memory table never reaches its capacity; when it would, exactly the resident number of items stays |
| `IndexMgr.PushLeavesRoom` | src/volume/storage/index_mgr.rs:511-530 | A young tab pushed leaves no level full but one it has just created, and if no level gets full nothing else changes |
| `IndexMgr.InsertResidents` | src/volume/storage/index_mgr.rs:626-643 | When the memory table would fill up, the items used least recently go and the others stay in their order |
| `IndexMgr.RunGet` | src/volume/storage/index_mgr.rs:747-784 | Over any such run of insertions and deletions a lookup gives what was put last |
| `IndexMgr.Manager.Compact` | src/volume/storage/index_mgr.rs:456-508 | Compaction as the program does it, tab by tab, gives the compacted levels |
| `IndexMgr.Manager.Add` | src/volume/storage/index_mgr.rs:510-530 | The young tab is added and every full level compacted in turn |
| `IndexMgr.Manager.Lookup` | src/volume/storage/index_mgr.rs:747-759 | A lookup gives the address or not found, and refreshing changes no answer |
| `IndexMgr.Manager.Save` | src/volume/storage/index_mgr.rs:761-784 | The state after an insertion, and the map update it amounts to when its compactions are sound |
| `BlockSpans.DivideBy` | src/volume/address.rs:42-58 | The parts list the span in order, cut at every multiple and nowhere else |
| `BlockSpans.SplitTo` | src/volume/address.rs:30-39 | The two parts meet at the position and make up the span |
| `Sectors.MarkDeletion` | src/volume/storage/file/sector.rs:79-95 | Exactly the blocks of the span are marked, and once the sector is finished its live size is the number of live blocks |
| `Sectors.Shrink` | src/volume/storage/file/sector.rs:374-423 | Live blocks keep their content, slots are given out anew in order, and the sizes are the number of live blocks |
| `Sectors.ShrunkOk` | src/volume/storage/file/sector.rs:374-423 | Neighbouring live blocks lie in neighbouring slots again, so shrinking may be repeated |
| `Sectors.RunOfSlots` | src/volume/storage/file/sector.rs:273-298 | A run of live blocks occupies a run of slots |
| `SectorSpec.ReadAgrees` | src/volume/storage/file/sector.rs:273-298 | Reading from the first block's slot on gives the blocks of the plain map |
| `SectorSpec.WrittenAgrees` | src/volume/storage/file/sector.rs:304-344 | Writing, with deletion marks overwritten, puts the blocks in the plain map |
| `SectorSpec.ShrunkAgrees` | src/volume/storage/file/sector.rs:374-423 | Shrinking changes no block |
| `SectorMgr.SectorMgr.ReadBlocks` | src/volume/storage/file/sector.rs:273-301 | A read of written blocks gives the bytes written if none is deleted and not found otherwise |
| `SectorMgr.SectorMgr.WriteBlocks` | src/volume/storage/file/sector.rs:304-371 | A write across sectors, finishing and shrinking them on the way, is a put to the plain map; sectors are finished exactly if their last block was written, and none that is stays shrinkable |
| `SectorMgr.SectorMgr.FinishSector` | src/volume/storage/file/sector.rs:346-368 | A sector whose last block is written is finished, and rewritten exactly if at most a quarter of it is live |
| `SectorMgr.SectorMgr.DelPart` | src/volume/storage/file/sector.rs:426-474 | A finished sector left without live blocks goes, file and all; one with at most a quarter of its file live is rewritten to its live blocks; any other keeps its file |
| `SectorMgr.SectorMgr.Delete` | src/volume/storage/file/sector.rs:426-474 | A deletion across sectors, removing and shrinking them on the way, is one from the plain map |
| `SectorMgr.RunOps` | src/volume/storage/file/sector.rs:273-474 | Over every run of writes in increasing order, deletions and reads of written blocks, every read gives what a plain map of blocks gives |
| `Addresses.Append` | src/volume/address.rs:110-125 | The blocks of the span follow those of the address; a span that continues the last is merged with it, any other is added |
| `Addresses.DivideToFrames` | src/volume/address.rs:128-165 | Every frame but the last has exactly 16 blocks and a full length, the frames list the address in order, and each starts with a real span |
| `FrameSpec.PutHolds` | src/volume/storage/storage.rs:621-657 | Blocks written for a frame decrypt to what was encrypted, whatever the salt and the padding |
| `FrameSpec.AppendFrame` | src/volume/storage/storage.rs:621-657 | A frame stored after full ones extends what the address holds |
| `Storage.Storage.Write` | src/volume/storage/storage.rs:661-671 | A write takes what fits the frame being staged and disturbs no other writer, entity or cached frame |
| `Storage.Storage.Finish` | src/volume/storage/storage.rs:681-698 | The entity has exactly what its writer was given; its old blocks are out of the depot and its cached frames gone; no block stays in the depot that no stored entity and no open writer has |
| `Storage.Storage.RemoveOld` | src/volume/storage/storage.rs:681-694 | The entity about to be replaced goes, and exactly its blocks are deleted from the depot |
| `Storage.Storage.Delete` | src/volume/storage/storage.rs:283-299 | Only the entity goes, with exactly its blocks and its cached frames |
| `Storage.Storage.RemoveAddressBlocks` | src/volume/storage/storage.rs:253-275 | Exactly the blocks of the address are deleted and exactly the first-block keys of its frames dropped from the cache |
| `StorageSpec.PutOthers` | src/volume/storage/storage.rs:621-657 | Storing a frame in fresh blocks disturbs nobody else |
| `StorageSpec.RemoveOthers` | src/volume/storage/storage.rs:253-275 | Removing an entity disturbs nobody else and leaves none of its frames cached |
| `StorageSpec.DepotIsHeld` | src/volume/storage/storage.rs:253-299 | At any time the depot has exactly the blocks of stored entities and open writers |
| `StorageReader.CachedIsStored` | src/volume/storage/storage.rs:480-528 | A cached frame is what the blocks now stored for it decrypt to |
| `StorageReader.Reader.Fetch` | src/volume/storage/storage.rs:480-528 | The current frame is there, from the cache or the depot, decrypted |
| `StorageReader.Reader.Read` | src/volume/storage/storage.rs:470-543 | A read of any size gives what comes next, at least a byte until the end |
| `StorageReader.ReadAll` | src/volume/storage/storage.rs:470-543 | One reader, in calls of any sizes, gets back exactly what was written |
| `StorageReader.Perform` | src/volume/storage/storage.rs:470-698 | Every call, with any interleaving of writers, deletions and reads, does what it does on a store without blocks, frames or cache |

## Left out

- Cryptography, compression, serialisation: foreign calls, replaced by functions with the laws named above.
- OS files, Redis, SQLite, HTTP and zbox cloud depots, caches of remote sectors: I/O plumbing.
- `src/repo.rs`, `src/file.rs`, paths, directories, versions, permissions, errors and builders: a thin layer over what is modelled.
- Deletion of entities and direct (segment data) entities in transactions: the step machine has New and Update on cows; recycling therefore only removes logs.
- Overlapping transactions with failed aborts: the step machine runs one transaction at a time; `TxMgr` has overlapping ones without stops.
- In the step machine the transaction manager, its transaction and the queue are one value stepped by functions; what it then does not capture is aliasing between the objects. `WalQueue.WalQueueMgr` and `Cows.Cow` have the in-place form.
- Recovery.CrashAtomicity: asks that steps be careful, because the code does lose committed values after careless loads; `FailingRuns.CareIsNeeded` proves the condition exact.
- Errors of the reader while a Merkle tree is merged or truncated, and of the destination while a chunk is written: the loops stop half way and the object is not used again.
- Truncating an empty content: the code indexes an entry that is not there and panics (`src/content/content.rs:87-88`), so a cut needs some content.
- Empty staged writes in a Merkle merge: the writer hands over one leaf too many (`src/content/merkle_tree.rs:348-353`).
- The lists returned by `split_off` and `split_to`: callers discard them, so only the part kept is specified.
- Spans and entries are changed as values inside the list that owns them, so sharing between lists is not captured.
- ContentWriter.Writer.Write: asks that its chunk map be right and the segments well formed; `DroppedChunks` has what happens otherwise. Between two chunks no other writer or compaction is at work.
- Versions.File.WriteFrom: says that it succeeds while there is room for every count; `Versions.File.Finish` has the exact condition, on the list it links. It asks that the chunk map be right, which `Versions.File.Finish` says exactly when it is left so, and that no other bytes have the hash of a chunk written, as the code does by comparing hashes only; `ContentWriter.Writer.Finish` is exact without that.
- References.SegmentStore.Unlink: asks that the chunks in use lie inside the data. Where a link has broken that, the code panics when it next compacts the segment (`src/content/segment.rs:356-361`).
- Content.Replay: its segments only grow; `Versions.File` has removal and compaction between the writes and cuts, for every sequence of calls.
- The reference counts of contents and the file node above contents (`src/fs/fnode.rs`): link and unlink are modelled from the entry list down.
- Errors while an index level is compacted, and the caches and armor of tabs: tabs are values in their level.
- IndexMgr.InsertGet: asks that its compactions be sound, because level 0 keeps double keys and the order of tabs can be lost; `Compaction.CompactionKeepsLookups` and `IndexOrder.NextLevelListed` say when, `FailingCompactions` shows it matters.
- Compaction.CompactedGet: asks that no key be twice in level 0; `DoubleKeys.SingleGet` and `DoubleKeys.DoubledGet` do without, key by key.
- DoubleKeys.DoubledGet: a search may hit any item of the key in the level. Where the tabs are cut within those items, which of the tabs is asked first is not told apart.
- IndexTabs.TabGet: a scan for the first item with the key stands for the standard library's binary search, which agrees with it on tabs in key order.
- Sector writes out of block order, and failures between the sector file and its map: the sector manager runs without faults, sizes counted in blocks.
- StorageReader.Reader.Read: a frame evicted by another reader between two reads of one reader makes the code panic, so one reader runs at a time; faults of the depot are not part of this layer.
- The address cache and the byte offsets inside addresses: a copy of what is stored, and a field nothing modelled reads.
