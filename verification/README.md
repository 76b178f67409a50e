# A model of ingot's storage core

Ingot puts S3 objects on Forge. This project models, in Dafny, the parts of it
whose correctness is hardest to see from the code, and proves what they promise.

- **BLAKE3 trees** (`blake3tree`). A streaming hasher keeps a stack of aligned
  subtrees and a block list whose block size grows with the body. `Assemble`
  rebuilds a whole object's tree from ranges hashed separately at any byte
  offsets. The specification is the recursive tree of section 2.1 of the BLAKE3
  specification, over chaining values that are free terms: two results that are
  equal here are equal under every pair of compression functions. Where a result
  says that values differ, or that nothing else is accepted, it assumes that
  compression has no collisions.
  Modules `Pow2`, `Blake3Spec`, `ChunkLog`, `Dyadic`, `BlockList`, `HasherSpec`,
  `Hasher`, `Subtrees`, `Cover`, `BlockMarks`, `RootFromBlocks`, `AssembleSpec`,
  `Assemble`, `Outboard`, `Parts`.
- **The Merkle search tree** (`mst`). An ordered map with split and merge whose
  shape depends only on its contents, and the difference of two trees. Modules
  `MstTree`, `MstOps`, `MstSpec`, `MstCanon`, `MstRefine`, `MstMap`, `MstWalk`,
  `MstDiff`, `MstDiffTrees`, `MstKeys`, `MstCodec`.
- **The catalog log** (`logstore`, `bucketop`, with `inmem` as the visible Meta).
  A crash-recovery state machine of one bucket's log: append, commit, seal, ship,
  stamp, retire, lose a file, crash, recover, rebuild from the journal. Modules
  `CatalogLog`, `CatalogLogSafe`, `CatalogRetention`, and the rebuild loop itself
  in `JournalFiling` and `JournalRebuild`, tied to the machine in `RebuildSteps`.
- **Concurrent bookkeeping**: byte counts, holds and the lock-free scan of the two
  blob directories (`BlobDirs`); claims against releases (`ClaimsSpec`, `Claims`);
  delegation caches against revocation (`Revocation`).
- **Indexes and codecs**: the stored blob index (`BlobLists`, `BlobIndex`),
  splitting and reading bodies (`Streams`, `BodySplit`, `BodyRead`), CAR frames
  (`Varint`, `CarScan`) and `.ops` records (`OpsFraming`, `OpsLog`).

`Bytes`, `Options` and `Seal` hold shared definitions. `Seal` is a way to keep a
definition closed: a predicate stated under a quantifier over `Seal.Opened` is
unfolded only where a proof mentions `Opened`.

Code that changes state step by step is modelled as classes and loops proved
against specification functions; pure recursion is modelled as functions; a
protocol of several actors is modelled as a state machine whose steps are the
pieces other actors can see between.

## Where the code does not do what it says

Each of these is a lemma here, with the exact condition under which the promise
does hold.

- `RootFromSubtrees` says that it refuses a list that is not contiguous, and checks
  the two halves one by one: a list with a hole exactly at the cut gets a root
  (`Subtrees.HoleAtTheCut`). A list from 0 of two subtrees or more is contiguous if
  and only if it gets a root and its second half begins where the first one ends,
  so that join is all that is unchecked (`Subtrees.ContiguityChecked`).
- `Assemble` refuses several non-empty ranges that make up at most one chunk
  (`Assemble.Assemble` states the if-and-only-if).
- A tree emptied by `Delete` keeps its layer, and a key of a lower layer added to
  it gives a tree of another shape than the same map has elsewhere
  (`MstMap.EmptiedKeepsLayer`, exact in `MstMap.AddCanonical`). A tree that is
  stored and loaded in between is not affected.
- The encoder of `.ops` records has no limit on a root's length, and the reader
  takes a record over 1 MiB for a torn tail, dropping it and everything after it
  (`OpsLog.OversizeIsDropped`, `OpsLog.OversizeExists`). An uncut file gives back
  all its records if and only if none is over the limit, and otherwise those before
  the first that is (`OpsLog.WriteCutRead`). Such a root is an input of the encoder
  alone: the roots a tree writes are identifiers of a few dozen bytes.
- A lookup over cache, spool and cache again is said to find a blob that moves
  meanwhile. It does if nothing removes the blob before the last look
  (`BlobDirs.LookupFinds`); it can miss one that is on local disk when it begins if
  the cache takes it and then removes it (`BlobDirs.LookupMisses`, exact in
  `BlobDirs.LookupsFindIff`).

## Model

| member | source | states |
|---|---|---|
| `ChunkLog.Compute` | blake3tree/blake3tree.go:69-85 | For every size of an int64, the two loops give the least c from 4 on with size at most 2^(2c+15) and at most 2^(c+25); it is at most 38, and the body then has at most 32768 blocks. |
| `ChunkLog.LogIsLeast` | blake3tree/blake3tree.go:58-85 | A value from 4 on that meets both bounds and has none below it that does is the chunk log: the rule determines it. |
| `ChunkLog.LogMonotone` | blake3tree/blake3tree.go:58-85 | A longer body never has a smaller chunk log, so a part's block never exceeds its object's and a hasher only ever raises its block height. |
| `ChunkLog.BlockBound` | blake3tree/blake3tree.go:58-96 | A body has at most 32768 blocks at its chunk log. |
| `ChunkLog.ShiftsInRange` | blake3tree/blake3tree.go:69-96 | No shift the computation makes leaves an int64. |
| `ChunkLog.AlignedRangeIsLeastCover` | blake3tree/blake3tree.go:837-857 | `AlignedRange` fails exactly on a range that does not ascend or starts outside the body (or a chunk log over 52); otherwise its answer covers the range as far as the body goes, begins on a block and ends on one or at the body's end, and lies inside every other such cover. |
| `ChunkLog.AlignedRangeInRange` | blake3tree/blake3tree.go:837-857 | For every chunk log up to 52, no intermediate value leaves an int64. |
| `Blake3Spec.LeftCountIs` | blake3tree/blake3tree.go:659-662 | The left child's count is the one power of two strictly below the total and at least half of it. |
| `Blake3Spec.LeftCountIsShift` | blake3tree/blake3tree.go:660-662 | That count is the shift by a bit length that the code computes. |
| `Blake3Spec.NodeSplit` | blake3tree/blake3tree.go:289-310 | A subtree's value is the parent of its two halves at an aligned cut: the step by which merging siblings builds the recursive tree. |
| `Dyadic.ReducedUnique` | blake3tree/blake3tree.go:289-310 | A range of chunks has exactly one tiling by aligned subtrees that holds no two siblings: the stack is determined by what was hashed. |
| `Dyadic.ReducedFalls` | blake3tree/blake3tree.go:351-361 | On a stack that begins at a multiple of its tallest tree, heights fall strictly, which is what folding the stack from its top relies on. |
| `Dyadic.PushTiles` | blake3tree/blake3tree.go:293-310 | Pushing the next subtree keeps the stack a reduced tiling with the right values, one subtree longer in span. |
| `BlockList.PushBlocks` | blake3tree/blake3tree.go:293-310 | The nodes a push records at the block height are exactly the aligned blocks that the new chunks complete. |
| `BlockList.BlocksAre` | blake3tree/blake3tree.go:186-198 | A subtree is in the block list exactly when it is an aligned block of that height wholly inside the hashed chunks, with its tree value. |
| `BlockList.FoldIs` | blake3tree/blake3tree.go:354-361 | Folding a falling stack from its top over the last node gives the recursive tree's node. |
| `Hasher.Hasher.constructor` | blake3tree/blake3tree.go:209-240 | A new hasher has hashed nothing at its offset, with the block height growing or fixed. |
| `Hasher.Hasher.Write` | blake3tree/blake3tree.go:243-266 | The bytes are appended to what was written, however they are cut: the stack is the reduced tiling of the hashed chunks, the block list their blocks at the current height, and an unfixed height is the chunk log of the size. |
| `Hasher.Hasher.Flush` | blake3tree/blake3tree.go:272-283 | A full buffer becomes one subtree on the stack if that keeps tiles aligned, else single chunks; the invariant holds either way. |
| `Hasher.Hasher.Promote` | blake3tree/blake3tree.go:318-332 | Raising the block height keeps the block list exactly the aligned blocks of the new height. |
| `Hasher.Merging` | blake3tree/blake3tree.go:293-310 | The merge loop leaves the stack and the block list that the specification's push gives. |
| `Hasher.PairUp` | blake3tree/blake3tree.go:318-332 | Pairing neighbouring blocks at one height gives every aligned block of the next, with no block lost or made up at either end. |
| `Hasher.TailBlock` | blake3tree/blake3tree.go:365-393 | The last, short block of an object is the tree node over the chunks after the last whole block. |
| `Hasher.Hasher.FinishObject` | blake3tree/blake3tree.go:365-393 | At offset 0 the result is the object's size, the recursive BLAKE3 root, the chunk log and every block's tree value, in order. |
| `Hasher.Hasher.FinishRange` | blake3tree/blake3tree.go:398-426 | At any offset the result is the raw bytes before the first and after the last chunk boundary, the reduced tiling between, the blocks wholly inside, and a root when the range begins at 0. |
| `Subtrees.MergeIs` | blake3tree/blake3tree.go:669-680 | Contiguous subtrees that make up an aligned power of two merge to that node's value. |
| `Subtrees.MergeSubtrees` | blake3tree/blake3tree.go:669-680 | The method is that specification on every list, refusals included. |
| `Subtrees.RootOfIs` | blake3tree/blake3tree.go:689-715 | Two or more subtrees that tile a body from 0 give its root. |
| `Subtrees.RootFromSubtrees` | blake3tree/blake3tree.go:689-715 | The method is that specification on every list, refusals included. |
| `Subtrees.RootOfAccepts` | blake3tree/blake3tree.go:689-715 | A root comes back exactly when the list begins at 0, holds two subtrees or more, and splits into two contiguous halves at the left child's count: what the code does check. |
| `Subtrees.HoleAtTheCut` | blake3tree/blake3tree.go:682-715 | Counterexample: a list with a hole at the cut is not contiguous and still gets a root. |
| `Subtrees.ContiguousAccepted` | blake3tree/blake3tree.go:682-715 | Every contiguous list from 0 of two subtrees or more gets a root, whatever its chaining values. |
| `Subtrees.ContiguityChecked` | blake3tree/blake3tree.go:682-715 | Of the lists from 0 of two subtrees or more, exactly the contiguous ones get a root and have the second half begin where the first ends; so a list that gets a root is contiguous if and only if that join is right. |
| `Cover.CoverCV` | blake3tree/blake3tree.go:474-503 | From any unordered, overlapping set of right nodes, an aligned span comes back with its tree value whenever the nodes inside it cover it, and never with another value. |
| `Cover.TileWith` | blake3tree/blake3tree.go:482-499 | Sorted widest-first, taking every node that begins at the next uncovered chunk finds a tiling whenever there is a cover. |
| `RootFromBlocks.SliceIsRun` | blake3tree/blake3tree.go:651-657 | The recursion over a slice of blocks is the recursion over the blocks' index range. |
| `RootFromBlocks.RunCV` | blake3tree/blake3tree.go:638-662 | Merging a run of an object's blocks by `leftCount` gives the tree node over the chunks they cover, a short last block included. |
| `RootFromBlocks.RootMatches` | blake3tree/blake3tree.go:638-646 | Merging the blocks of any finished object of two blocks or more gives its root. |
| `AssembleSpec.RoundIs` | blake3tree/blake3tree.go:536-568 | One round of the loop takes the nodes and pending bytes of a body up to a range's start to those up to its end: a range inside one chunk, one ending a straddling chunk, or one across boundaries. |
| `AssembleSpec.FilledTo` | blake3tree/blake3tree.go:515-527 | Dropping empty ranges keeps the ranges consecutive and their total. |
| `Assemble.AddRange` | blake3tree/blake3tree.go:538-562 | The round as the code makes it, wrap-around of the gap included, gives up exactly where the specification does. |
| `Assemble.CollectNodes` | blake3tree/blake3tree.go:534-568 | For a body cut into ranges the loop ends with nodes that tile it, the last short chunk included; every node comes from a range or is one chunk. |
| `Assemble.RootOfBody` | blake3tree/blake3tree.go:569-579 | The root is the body's, except where several ranges make up at most one chunk: then there is none. |
| `Assemble.BlockInTallSubtree` | blake3tree/blake3tree.go:581-592 | A block hidden inside a range's taller subtree is among that range's own blocks, because its chunk log is no greater than the object's. |
| `Assemble.AllBlocksCovered` | blake3tree/blake3tree.go:581-592 | The nodes and the ranges' blocks together cover every block of the object. |
| `Assemble.CoverBlocks` | blake3tree/blake3tree.go:584-592 | The block loop gives exactly the object's blocks when each is covered. |
| `Assemble.Finish` | blake3tree/blake3tree.go:580-604 | The closing check against the root passes on a right object, and nothing that fails it comes out. |
| `Assemble.Assemble` | blake3tree/blake3tree.go:514-604 | For every body and every cut into consecutive ranges, each hashed at its own offset, the call succeeds if and only if the body is empty, longer than one chunk, or held by one range, and then its size, root, chunk log and blocks are the body's. |
| `Parts.OnePass` | blake3tree/blake3tree.go:243-393 | Any sequence of writes gives the object of the bytes joined. |
| `Parts.InParts` | blake3tree/blake3tree.go:398-426 | A body cut into parts, each hashed at its own offset by any writes, gives ranges that are the body cut up. |
| `Parts.OneObject` | blake3tree/blake3tree.go:101-113 | The tree material of a body at its chunk log is one value. |
| `Parts.AssembleParts` | blake3tree/blake3tree.go:505-604 | Hashing in parts and assembling gives exactly what hashing in one pass gives, whenever it can finish. |
| `Outboard.Preorder` | blake3tree/blake3tree.go:780-792 | The recursive writer returns the merged value of its blocks and appends their pre-order entries to what was written. |
| `Outboard.Make` | blake3tree/blake3tree.go:768-775 | An outboard holds the size and one entry per block but one. |
| `Outboard.DescendsBack` | blake3tree/blake3tree.go:760-792 | Walking an outboard's entries down from the merged value gives back the block list. |
| `Outboard.DescentIsSound` | blake3tree/blake3tree.go:760-792 | Whatever the entries, a walk that checks each node against its parent gives values that merge to the value it began with. |
| `Outboard.OnlyOwnEntries` | blake3tree/blake3tree.go:760-792 | For a finished object, the walk from its root succeeds on the object's own entries and on no other sequence of as many, compression having no collisions. |
| `Outboard.ObjectAccepted` | blake3tree/blake3tree.go:815-831 | `OutboardBlocks` accepts every object's outboard at its chunk log and answers its block count. |
| `MstTree.FindGtOrEqualLeafIndex` | mst/mst.go:811-824 | The loop finds the first leaf at or above the key, skipping subtrees. |
| `MstOps.LiftHalves` | mst/mst.go:369-385 | The loops that lift a split tree's halves give each half as many parents as layers are missing. |
| `MstCanon.GoodIsBuilt` | mst/mst.go:56-67 | A node in good form over sorted leaves is the node built from those leaves alone. |
| `MstCanon.OneShape` | mst/mst.go:56-67 | Two canonical trees with the same contents are the same tree. |
| `MstCanon.BuiltIsCanonical` | mst/mst.go:56-67 | Every set of pairs has a canonical tree: canonical form excludes no map. |
| `MstCanon.LazyLayer` | mst/mst.go:222-265 | The layer recomputed from a node's entries is the layer it was built at. |
| `MstRefine.SplitIs` | mst/mst.go:690-743 | Splitting a good node at an absent key gives the leaves below and above it, each half good at the node's layer or empty, and never fails. |
| `MstRefine.MergeIs` | mst/mst.go:753-789 | Merging two good neighbours of one layer gives a good node with both their leaves; the different-layers error does not occur. |
| `MstRefine.AddIn` | mst/mst.go:271-348 | Adding at or below a node's layer inserts the pair at its place and keeps the node good; a present key is refused. |
| `MstRefine.AddAboveIs` | mst/mst.go:350-409 | Adding above the root's layer gives a good root of the key's layer with the pair inserted. |
| `MstRefine.UpdateIn` | mst/mst.go:446-487 | Replaces the value at the key's place only. |
| `MstRefine.DeleteIn` | mst/mst.go:498-557 | Drops the pair, merges the neighbours and prunes an emptied child; the node stays good. |
| `MstRefine.TrimIs` | mst/mst.go:677-686 | Trimming the top of a good root leaves a canonical tree with the same leaves. |
| `MstMap.AddRefines` | mst/mst.go:271-409 | `Add` on any well-formed tree is insertion into the map; for any key check that refuses the empty key it answers invalid key, undefined value and already-exists exactly when, in that order, the key, the value and the map say so, and nothing else goes wrong: the adjacent-subtrees panic and the different-layers error are unreachable. |
| `MstMap.AddCanonical` | mst/mst.go:271-409 | The tree it gives is canonical if and only if the key's layer is at or above the root's, or the root was trimmed and not empty. |
| `MstMap.GetRefines` | mst/mst.go:418-443 | `Get` is lookup in the map, with not-found exactly for absent keys. |
| `MstMap.UpdateRefines` | mst/mst.go:446-487 | `Update` replaces a present key's value and answers invalid key, undefined value and not-found exactly when, in that order, the key, the value and the map say so. |
| `MstMap.UpdateCanonical` | mst/mst.go:446-487 | `Update` keeps a canonical tree canonical. |
| `MstMap.DeleteRefines` | mst/mst.go:490-557 | `Delete` removes a present key, errs exactly on absent ones, and leaves a canonical tree, an emptied one counting as reloaded. |
| `MstMap.EmptiedKeepsLayer` | mst/mst.go:138-143 | Counterexample: after the last key is deleted the layer stays, and the next `Add` gives a non-canonical tree. |
| `MstMap.RunRefines` | mst/mst.go:267-557 | Over every run of operations, refused ones included, the tree is canonical and holds what a map would. |
| `MstMap.NoHistory` | mst/mst.go:267-557 | Any two runs that reach the same map leave the same tree. |
| `MstWalk.Walk` | mst/mst.go:853-888 | The recursive walk feeds the callback the leaves from the key on, stopping where it says. |
| `MstWalk.WalkLeavesFrom` | mst/mst.go:835-841 | The callback sees a prefix of the leaves at or above the key, all of them unless it stopped or failed, and only a failure is reported. |
| `MstWalk.FromIs` | mst/mst.go:826-834 | Those leaves are exactly the map's pairs at or above the key, once each, in strictly increasing order. |
| `MstDiffTrees.Round` | mst/diff.go:52-131 | Each round of the merge loop keeps the output plus the remaining difference equal to the whole difference and makes progress; it never reaches the equal-leaves error. |
| `MstDiffTrees.Merge` | mst/diff.go:52-160 | The two-index loop terminates with the difference of the two leaf lists, whatever subtrees it skips or opens. |
| `MstDiffTrees.DiffTrees` | mst/diff.go:24-160 | An undefined first root is the empty map, an undefined second one an error; otherwise the answer is the difference. |
| `MstDiffTrees.DiffIsExact` | mst/diff.go:24-176 | The difference names each added, deleted and changed key once, in increasing order, with its values, names no other key, and applied to the first map gives the second. |
| `MstDiff.DiffApplies` | mst/diff.go:24-160 | Applying the difference of two sorted lists to the first's map gives the second's. |
| `MstKeys.RankOrder` | mst/mst.go:811-824 | Keys of at most 1024 bytes stand in one order-preserving correspondence with ranks, so ranks model them. |
| `MstKeys.EmptyKeyIsZero` | mst/mst_util.go:185-198 | The empty key, which no check lets through, is the one key of legal length with rank 0. |
| `MstCodec.Serialize` | mst/mst_util.go:110-165 | The loop writes each leaf with its common prefix left out and each subtree beside the leaf it follows, or fails where a key is invalid or two subtrees are neighbours. |
| `MstCodec.Deserialize` | mst/mst_util.go:68-108 | The loop rebuilds keys from prefix and suffix and puts subtrees back in order. |
| `MstCodec.RoundTrip` | mst/mst_util.go:68-165 | Writing a node succeeds if and only if its keys are valid and no two subtrees are neighbours, and reading it gives the same entries. |
| `CatalogLogSafe.Keeps` | logstore/recovery.go:52-267 | Each step of the log, the world, the recovery scan and the rebuild keeps the invariant, among it that what the journal files under a segment is in its CAR whenever that is on disk. |
| `CatalogLogSafe.AppendKeeps` | logstore/planelog.go:100-130 | Appended and synced blocks are in the CAR before any root or journal row names them. |
| `CatalogLogSafe.CommitKeeps` | inmem/store.go:309-379 | The root and the journal rows go in together, under the segment the blocks were appended to. |
| `CatalogLogSafe.StampKeeps` | inmem/store.go:625-646 | Dropping the journal rows of a stamped segment loses no block: each was in the CAR that the flush published. |
| `CatalogLogSafe.SealFromIdxKeeps` | logstore/recovery.go:361-384 | Sealing a row from an index found on disk keeps the invariant. |
| `CatalogLogSafe.RebuildMoveKeeps` | logstore/recovery.go:407-505 | Journal rows move to a new segment only after their blocks are in its CAR. |
| `CatalogLogSafe.EveryRun` | logstore/recovery.go:52-267 | The invariant holds after every run of steps: crashes anywhere, lost, destroyed and returning files, any number of recoveries. |
| `CatalogLogSafe.NothingCommittedIsLost` | bucketop/bucketop.go:352-399 | In every run, each block of each committed batch is journaled under a segment not stamped shipped, or was in a CAR whose flush succeeded. |
| `CatalogLogSafe.JournalInCar` | inmem/store.go:355-379 | In every run, the journal rows of a segment are among its CAR's blocks whenever the CAR is on disk. |
| `CatalogLogSafe.UnlinkedLast` | logstore/planelog.go:379-507 | In every run, a segment retention unlinks was stamped shipped before that, flushed with success before the stamp, and sealed in Meta with its index written before the flush. |
| `CatalogRetention.EveryRunOrdered` | logstore/planelog.go:454-507 | In every run, the process's list of segments is newest first without repeats. |
| `CatalogRetention.ToRetire` | logstore/planelog.go:458-507 | The loop chooses exactly the shipped segments with at least the retained number of newer shipped ones still on disk. |
| `CatalogRetention.NewestStay` | logstore/planelog.go:454-507 | In every run, the newest shipped segments within the window are not unlinked. |
| `CatalogRetention.WindowStaysFull` | logstore/planelog.go:454-507 | In every run, after retention unlinks a segment, at least the retained number of shipped segments newer than it are on disk. |
| `CatalogRetention.UnshippedStay` | logstore/planelog.go:454-507 | In every run, retention unlinks only segments whose row is stamped shipped. |
| `JournalFiling.MoveRows` | inmem/store.go:566-597 | Moving a span of rows takes exactly those rows from one segment to another. |
| `JournalRebuild.Store.ReadJournal` | inmem/store.go:538-564 | A page is the first rows after the cursor, in order, as many as the limit allows. |
| `JournalRebuild.Store.MoveJournal` | inmem/store.go:568-597 | The rows from the first identifier to the last move, or a duplicate already filed there is dropped; an emptied segment's entry goes. |
| `JournalRebuild.Store.CopyPage` | logstore/recovery.go:431-489 | A page's rows all end under new segments, cut where the next block would pass the limit. |
| `JournalRebuild.Store.RebuildOne` | logstore/recovery.go:423-492 | The pages of a lost segment are all its rows, each read once in order; none is left under it, and no other lost segment is touched. |
| `JournalRebuild.Store.RebuildFromJournal` | logstore/recovery.go:407-505 | Wherever it stops, no block stops being journaled and no CAR found on disk changes; when it gets through, nothing is filed under a lost segment, and each rebuilt CAR is sealed and at most the limit or one block. It gets through unless the world stops it. |
| `JournalRebuild.Store.RebuildThenRecover` | logstore/recovery.go:386-505 | After a crash at any step, the next rebuild finishes, and every journaled block is in a CAR on disk. |
| `RebuildSteps.CreateIsSteps` | logstore/recovery.go:439-447 | What the rebuild loop does to make a new segment is two steps of the log's state machine, from any state the two share to another. |
| `RebuildSteps.CopyIsSteps` | logstore/recovery.go:457-476 | So is appending a chunk of a lost segment's blocks and moving their rows. |
| `RebuildSteps.SealIsSteps` | logstore/recovery.go:477-492 | So is sealing the segment written. |
| `BlobDirs.CountIsTotal` | blockstore/blobdir.go:241-268 | In every interleaving of commits, removals, takes, holds and scans, a directory's count is the sum of its blob files' sizes whenever no change is in progress. |
| `BlobDirs.ScansAgree` | blockstore/blobdir.go:89-106 | In every interleaving, each lock-free scan answers a drift of 0 and leaves the count as it is. |
| `BlobDirs.HeldStays` | blockstore/spool.go:280-296 | In every interleaving, no step unlinks or moves the file of a held blob. |
| `BlobDirs.HeldMeans` | blockstore/spool.go:236-271 | The spool says a blob is held exactly when some hold on it was taken and not ended, however often ends are repeated. |
| `BlobDirs.NoDrift` | blockstore/blobdir.go:82-106 | A scan that no change overlapped saw every file, so its total is the count. |
| `BlobDirs.EndScanKeeps` | blockstore/blobdir.go:82-106 | The comparison that ends a scan answers 0 and changes no count. |
| `BlobDirs.StaysLocal` | blockstore/blobcache.go:180-187 | A blob that a step does not remove stays on local disk, and in the cache once it is there. |
| `BlobDirs.LookupFinds` | blockstore/blobcache.go:180-229 | In every interleaving, a lookup finds a blob that is on local disk when it begins and that no step removes before its last look. |
| `BlobDirs.LookupsFindIff` | blockstore/blobcache.go:180-229 | In every run, some choice of later looks misses a blob that the lookup's beginning finds in the spool alone if and only if a step removes the blob, leaving none in the cache, at or after a moment when the spool has none. |
| `BlobDirs.LookupMisses` | blockstore/blobcache.go:180-229 | Counterexample: the cache takes the blob between the first two looks and removes it before the third. |
| `BlobDirs.LockStepKeeps` | blockstore/blobcache.go:140-178 | A commit, a removal or a take keeps what is owed to both counts, the scans' bookkeeping, and the rule that no hold slips in between the check and the change. |
| `Claims.MemStore.constructor` | inmem/store.go:106-126 | An empty store meets the invariant. |
| `Claims.MemStore.LatchSession` | inmem/stores.go:709-738 | A session moves exactly if it is in the state the caller names, so of two latches away from one state the second fails. |
| `Claims.MemStore.DeleteSession` | inmem/stores.go:740-747 | The session and its parts go, and nothing else. |
| `Claims.MemStore.CommitRoot` | inmem/store.go:309-353 | It succeeds exactly when the bucket is there, the root is the expected one and no claim or pin is refused, with each error exactly when its check is the first to fail; then root, claims and releases are those of the specification, and otherwise nothing changes. Started releases and claims stay apart. |
| `Claims.MemStore.StartRelease` | inmem/stores.go:1319-1342 | A release starts exactly when it is recorded and either started already or named by no claim and no live part; a claimed one's record goes, and nothing else changes. |
| `Claims.MemStore.CancelRelease` | inmem/stores.go:1368-1381 | A started release is not taken back; a pending one goes. |
| `Claims.MemStore.DeleteRelease` | inmem/stores.go:206-211 | The record goes and nothing else. |
| `Claims.MemStore.EnqueueRelease` | inmem/stores.go:120-133 | The record is put in or kept with the later due time, a started one stays started, and no other record changes. |
| `Claims.MemStore.PutPart` | inmem/stores.go:749-798 | Exactly the digests the replaced row named and the new one does not get a release, once each, due now or later; only an open session takes parts. |
| `Claims.MemStore.CountClaims` | inmem/stores.go:94-109 | The loop counts the claims of a space on a digest, and is zero exactly when there is none. |
| `Claims.MemStore.CountLivePartRefs` | inmem/stores.go:956-984 | The loop's count is positive exactly when a part of a live session of the space names the digest. |
| `ClaimsSpec.AddedSafe` | inmem/stores.go:39-81 | Claims that are not refused keep started releases and claims apart. |
| `ClaimsSpec.DropsCovered` | inmem/stores.go:83-92 | After a commit, every dropped digest is claimed still or has a release record, and no record's due time has moved earlier. |
| `Claims.ChecksMean` | inmem/stores.go:42-62 | What a commit's checks let through keeps started releases and claims apart. |
| `Claims.Replay` | inmem/store.go:305-353 | Over every run of calls from an empty store, bucket, location, session, part, release and commit calls alike, no started release coexists with a claim on its blob. |
| `Revocation.Keeps` | iam/keyproofs.go:64-119 | Every step of adding, invalidating, looking up, expiring and sweeping keeps the invariant. |
| `Revocation.CleanStays` | iam/proofcache.go:104-144 | A link remembered as revoked does not get into a store that is without it. |
| `Revocation.RevokedIsGone` | iam/keyproofs.go:84-119 | In every interleaving, once a link's invalidation has returned, and while it is remembered, the store any key is given does not hold it. |
| `Revocation.RevokedIsNotYielded` | iam/proofcache.go:236-264 | In every interleaving, a lookup yields no link whose invalidation had returned when it began, from any store, dropped ones too. |
| `Revocation.RefusedPutsNothing` | iam/proofcache.go:91-144 | In every interleaving, a refused batch has put nothing in; every indexed link is live or still to be swept. |
| `Revocation.UnexpiredIsIndexed` | iam/proofcache.go:28-35 | In every interleaving, a cached delegation that is not past its own expiry is in the index, so a lookup can find it. |
| `Revocation.OnlyPastIsDropped` | iam/proofcache.go:146-170 | In every interleaving, whatever leaves the index is taken by the handler of a swept entry, and is past its own expiry. |
| `Revocation.ExpiredCanBeLost` | iam/proofcache.go:155-169 | Being unexpired is needed there: two overlapping Adds and a sweep can leave an entry, past its expiry, cached and not indexed. |
| `BlobLists.LocateIs` | bucket/blobs.go:161-168 | On a contiguous list, a lookup succeeds exactly inside the span covered, with the one blob that holds the offset. |
| `BlobLists.LocateFlat` | bucket/blobs.go:162-168 | The binary search finds that blob. |
| `BlobLists.LoadTiles` | bucket/blobs.go:331-355 | Whatever entries load, their spans tile the extent exactly. |
| `BlobLists.LoadExtent` | bucket/blobs.go:333-355 | The loop accepts exactly the entries that begin at the extent's start, increase, end before its end and have digests. |
| `BlobLists.AnyLookup` | bucket/blobs.go:357-373 | On any stored list that passes the shape check, a lookup in range fails or gives a blob whose span holds the offset. |
| `BlobLists.AnyRead` | bucket/blobs.go:185-198 | A body read whole from any stored list gives blobs that tile it, from offset 0 if the head loads. |
| `BlobIndex.BuildBlobList` | bucket/blobs.go:200-230 | It succeeds if and only if the list is contiguous from 0, without empty spans or missing digests, and within capacity; what it stores describes the list. |
| `BlobIndex.StoredIndex.Check` | bucket/blobs.go:264-290 | The shape check, made once, answers whether extents rise from the head's last blob and stay inside the body. |
| `BlobIndex.StoredIndex.Load` | bucket/blobs.go:309-329 | An extent's blobs, from the cache or fetched, are the same. |
| `BlobIndex.StoredIndex.Find` | bucket/blobs.go:357-363 | On any stored list it fails or answers a blob whose span holds the offset. |
| `BlobIndex.StoredIndex.Digests` | bucket/blobs.go:375-390 | Every extent's digests in order, or a failure when one does not load. |
| `BlobIndex.ReadBlobRefs` | bucket/blobs.go:188-198 | Reading an extent at a time terminates on any stored list and gives its extents from the one at offset 0 on. |
| `BlobIndex.BuiltAgrees` | bucket/blobs.go:200-242 | The stored index of a built list locates what the flat list locates at every offset, inside the body or not; its digests, and the list read back, are the flat list's. |
| `BodySplit.SplitTiles` | bucket/chunker.go:56-71 | A body's blobs follow one another from 0 to its end. |
| `BodySplit.SplitBlob` | bucket/chunker.go:90-107 | Each blob is named for the body's bytes of its span; all but the last have the maximum size. |
| `BodySplit.SplitBody` | bucket/chunker.go:72-114 | However the source gives its bytes, it fails exactly when the source does; else the blobs are the split and are stored under their digests, and the whole body passed the hashes. |
| `BodySplit.ExpectEnd` | bucket/sized.go:123-138 | It answers that the source ends here, goes on, failed, or made no progress a hundred times. |
| `BodySplit.ExactReader.Read` | bucket/sized.go:83-119 | Yields exactly the blob's bytes and then the end, which on the last blob is the source's end; each error says what is wrong with the source. |
| `BodySplit.SplitSizedBody` | bucket/sized.go:37-79 | Short, long and failed are answered exactly when the source's length and end say so, unless the source stalls where its end should be; what fits has the blobs `SplitBody` gives. |
| `BodyRead.BodyReader.Read` | bucket/chunker.go:228-270 | Each read gives the next bytes of the body, at most as many as asked for; a stop is kept, and its reason is true of the body. |
| `BodyRead.BodyReader.OpenCurrent` | bucket/chunker.go:272-291 | The stream opened is the located blob's, from the position to the blob's or the read's end. |
| `BodyRead.ReadAll` | bucket/chunker.go:208-270 | With any buffer sizes, reading a range always comes to a stop, having given the body's bytes from its start on. |
| `BodyRead.WhyStopped` | bucket/chunker.go:260-290 | A read that reaches the range's end could have every byte of it; one that could stops nowhere else unless the stream of a blob located in the range fails; an unexpected end means that a blob is shorter than its span. |
| `BodyRead.FoundWhole` | bucket/chunker.go:272-291 | Every offset to a located blob's end is located in the same blob, so serving them without looking again is right. |
| `BodyRead.ReadsBack` | bucket/chunker.go:177-188 | A body split, listed and stored reads back byte for byte. |
| `Varint.ReadUvarint` | cars/reader.go:134-155 | The loop is the specification's decoder: value and length, the end of the bytes, or an overflow. |
| `Varint.Decodes` | cars/reader.go:132-155 | Every uint64 that is written reads back, with its length. |
| `Varint.CutShort` | cars/reader.go:134-155 | A number cut inside reads as cut, never as another number. |
| `CarScan.WriteBlocksAt` | cars/encoder.go:71-88 | The bytes written are the blocks' frames, and each reported position is where the block's data lies in the file. |
| `CarScan.FrameSizeIs` | cars/encoder.go:161-167 | `FrameSize` is the number of bytes a block's frame takes. |
| `CarScan.ReadFrame` | cars/reader.go:81-121 | One round of the loop finds the frame at a position, a torn one, or a bad one. |
| `CarScan.ScanCut` | cars/reader.go:68-124 | On any prefix of written frames the scan gives the frames wholly inside it. |
| `CarScan.WriteCutScan` | cars/reader.go:68-124 | A file written and cut anywhere at or after its header scans as exactly the whole frames, at the positions the writer reported, with the last good end, and torn exactly when the cut is inside a frame. |
| `CarScan.AnswerMeans` | cars/reader.go:30-51 | The last good end is where the whole frames end, and the scan is torn exactly when bytes follow it. |
| `OpsLog.HeadBack` | logstore/segment.go:894-965 | Every CBOR head (section 3 of RFC 8949) that is written reads back. |
| `OpsLog.BodyBack` | logstore/segment.go:760-848 | A record's body reads back as the bucket and root it was written from. |
| `OpsLog.EncodeOpRecord` | logstore/segment.go:760-782 | It refuses an undefined root and a bucket name over 64 KiB, and nothing else. |
| `OpsFraming.ReadAllOps` | logstore/segment.go:784-810 | The loop reads records to the first torn one and fails at a whole record it cannot decode. |
| `OpsFraming.ReadCut` | logstore/segment.go:784-810 | On any prefix of written records it gives the records wholly inside, up to one that a read cannot pass. |
| `OpsLog.WriteCutRead` | logstore/segment.go:753-848 | Records written and cut anywhere read back as the whole ones up to the first over 1 MiB; an uncut file gives all of them if and only if none is over. |
| `OpsLog.OversizeIsDropped` | logstore/segment.go:760-810 | A record over 1 MiB is written, and read as a torn tail with all that follows, at the start of any file. |
| `OpsLog.OversizeExists` | logstore/segment.go:760-782 | Counterexample: a record with a root of 1 MiB passes the encoder's checks and is over the limit. |

## Left out

- Hash functions: SHA-256, MD5 and BLAKE3 compression are free terms or injective naming functions, and `bao`, with `VerifyBlocks` over it, is not part of this model; `Outboard.Descend` is the walk any verifier makes. The 16-chunk SIMD compression of the hasher's buffer is the subtree of its chunks.
- Integer width: sizes and offsets are unbounded, with the int64 bounds the code has stated as preconditions of the `blake3tree` members and proved for `ChunkLog` and `AlignedRange`. CAR frame lengths and CBOR lengths at or above 2^63, which the code converts to int, are not modelled.
- `sort.Slice` is an insertion sort and `sort.Search` a binary search written out.
- Aliasing in `mst`: `appendMerge` and `deleteRecurse` append into existing entry slices, and `DiffTrees` splices shared ones, so the old tree value need not survive. The tree is a value here, and nothing is said of the old one.
- Trees are whole values: loading nodes on demand, missing blocks and the pointer cache are left out, and `knownZeros` is always recomputed. Keys are their ranks (`MstKeys.RankOrder`); key hashing is any function, and the key check any that refuses the empty key.
- Node CBOR (`mst/cbor_gen.go`) is generated; `MstCodec` models the entries it carries.
- CatalogLogSafe.NothingCommittedIsLost: covers one live bucket whose uploader publishes what it reports as flushed; the flush of a deleted bucket and the no-op uploader are excluded, as are a Meta restored from an older backup, bytes damaged inside a surviving file, and failed appends, after which the file's offset no longer agrees with the recorded size.
- CatalogLogSafe.UnlinkedLast: unlinking succeeds as one step; a failed unlink in `retire`, which has closed the descriptor by then, is left out.
- CatalogRetention.NewestStay: the newest are counted among the segments that are on disk when retention runs.
- It is not claimed that everything reachable from a bucket's Forge root is on Forge: recovery ships newest first.
- JournalRebuild.Store.RebuildFromJournal: one bucket's lost segments; the size of a batch is checked by the same bound the code uses, and failures of Meta or of the disk are a budget of steps after which the rebuild stops.
- Timers, backoff, retry counts, telemetry, and the order in which flushes are retried.
- Claims.Replay: a bucket belongs to one space throughout, and the claims of a commit name it; upload intents, part trees and queued registrations are left out.
- OpsLog.WriteCutRead: bodies of 4 GiB or more, whose length wraps in the 4-byte prefix, are left out.
- BlobDirs.ScansAgree: assumes that nothing outside the program changes the directories, and that a finished write of a digest always has the same size.
- Revocation.RevokedIsNotYielded: a lookup already under way when the invalidation returns may still yield what it had checked before; the order of matches by remaining life and the time-to-live arithmetic are left out. A key's action set is dropped with its store and is not modelled apart.
- BodySplit.SplitSizedBody: the writer reads its reader to the end, which is what makes the check for trailing bytes happen; a writer that stops at the last byte is left out.
- BodySplit.SplitBody: the choice of hashes, the asynchronous hasher and the local write itself are left out; a failing writer is a failing source.
- BodyRead.BodyReader.Read: closing streams and decryption are left out; an opened blob is its plaintext.
- `/0` manifests, the body's other fields, and the flat list's `Append` (its result is the split's next span).
- The network, the RPC clients, the uploader, HTTP, configuration, migrations, the audit log and Postgres.
