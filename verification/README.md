# NexKV storage engine: verified model

NexKV is a key-value store. This project models the hard parts of its storage engine in Dafny and
proves properties of the model:

- the copy-on-write B+tree with leaf, root and cascading splits - once as a sequential tree that
  refines a finite map (`BTree`), once as a machine of concurrent readers, writers and splitters whose
  every interleaving is a sequence of atomic map updates and reads (`Concurrent*`);
- epoch-based reclamation of unlinked pages (`Epoch*`);
- transactions with one inlined previous version, folded write buffers, undo and compaction
  (`Versions`, `WriteBuffer`, `Transactions`, `TransactionProof`, `CommitPath`), and their byte
  formats (`Codec`, `TxPrepare`);
- slotted 4096-byte pages (`PageBytes`, `SlottedPage`), merging and borrowing (`Merge`), the
  checkpoint walk (`Checkpoint`);
- the page allocator and its Michael-Scott queue (`PageSupply`, `PageManager`, `LockFreeQueue`), and who
  owns a page over every interleaving of the two (`PageOwnership`);
- the ten-level task queue (`PriorityLevels`, `TaskQueue`).

Code that updates state in place is a class or a method with loops, proved against functions on
values; protocols are machines of atomic steps, with theorems over all runs. Verify everything with
`dafny verify dfyconfig.toml`.

## How to read it

| part | files |
|---|---|
| keys and pages as values | `Bytes`, `Finite`, `Pages`, `Search`, `ChildrenCache`, `Merge`, `LeafRoom` |
| pages as bytes | `BigEndian`, `PageBytes`, `SlottedPage` |
| sequential tree | `Forest`, `ForestSplit`, `SplitTheorems`, `RootSplit`, `PageSupply`, `Publish`, `SplitPlans`, `BTree` |
| concurrent tree | `ConcurrentTree` (the machine), `PendingSplits`, `ConcurrentProof` (the invariant), `ConcurrentSteps`, `ConcurrentPublish`, `ConcurrentRuns`, `ConcurrentReads`, `ConcurrentProgress` (writes end) |
| reclamation | `EpochRing`, `EpochManager`, `EpochMachine`, `EpochProof`, `EpochOverlap`, `EpochProgress` (pages are freed) |
| transactions | `Versions`, `WriteBuffer`, `Transactions`, `TransactionProof`, `TransactionEnds`, `CommitPath`, `Codec`, `TxPrepare`, `PrepareLog` |
| allocation, tasks, checkpoint | `LockFreeQueue`, `QueueProgress`, `PageManager`, `PageOwnership`, `AllocatorProgress`, `PriorityLevels`, `PriorityOrder`, `TaskQueue`, `Checkpoint` |

## Hypotheses

- Page IDs held by live references are not reused (the tree looks children up by page ID): a retired
  page comes back through `BTree.BTree.Reclaim`, when no live reference holds it.
  `ChildrenCache.UpdateHitsIntended` says exactly what goes wrong otherwise.
- In the tree the 32-bit page counter does not wrap; `PageOwnership.RunOwnedExact` is about that.
- A reader slot of the epoch manager is held by one reader at a time. Claiming and publishing a ring
  cell are one step, and so is draining one ring: pending cells do not change under the drain.
- In a commit, taking the timestamp and `SetBatch` are one step, and so are a failing `SetBatch` and
  its undo; the storage behind transactions is a map.
- Timestamps and epochs do not overflow 64 bits; lengths handed to the page layer are below 4 GiB.
- A node of the lock-free queue is not reused while a thread holds it (garbage collection).

## Where the code does not meet the obvious property

Each of these is kept as the code has it; the exact condition is proved.

- A previous value of more than 65515 bytes, or one given without a previous version, does not survive
  a round trip of the value format: lengths and positions are 16-bit (`Codec.RoundTrip`).
- A prepare record of a transaction that cancelled an insert counts the cancelled key and reads as
  truncated (`TxPrepare.RoundTrip`).
- The parser of prepare records guards 12 bytes of a fixed part and reads 14: it panics exactly where
  a key ends 12 or 13 bytes before the end (`TxPrepare.ParseOutcome`, `TxPrepare.PanicWitness`).
- Snapshots with two or more newer commits to a key read it as absent, and so do snapshots with one
  newer commit after an undo, which drops the inlined version (`TransactionProof.SnapshotReads`).
- After enough failed allocations the 32-bit page counter wraps and hands out pages again
  (`PageManager.PageManager.Alloc`, `PageOwnership.RunOwnedExact`).
- Two overlapping reclaim passes can free a page under a reader (`EpochOverlap.OverlapUnsafe`): a pass
  takes the smallest reader epoch for its limit even above the epoch it started at. All runs with at
  most n passes at a time are safe exactly for n up to one (`EpochOverlap.PassLimit`); overlapping
  passes that do not go above their epoch are safe (`EpochProof.RunSafe`).
- A node split admits two keys and always refuses them, so a full page with two long keys stays full
  (`Pages.TwoKeysRefused`, `Pages.FullWithTwoKeys`, `Pages.NodeSplitExact`); a zero middle child makes
  the halves unmergeable (`Merge.SplitMergeNode`).
- A leaf whose only entry fills it is reported full and cannot be split, so it refuses every further
  write, even one that would fit (`LeafRoom.LoneEntryRefused`, `LeafRoom.LoneEntryFull`); with small
  entries a full leaf splits if and only if it has two entries (`LeafRoom.SmallSplits`).
- Undo goes on after a key it could not undo: that key keeps what the failed commit wrote
  (`TransactionProof.FailRestores`).
- The layout comment in page_layout.go speaks of a 32-byte header and 12-byte entries; the structures
  have 56 and 16, and the model follows them.

## Model

| member | source | states |
|---|---|---|
| `ConcurrentRuns.RunLinearized` | internal/infrastructure/storage/btree/operations.go:110-327 | Over every interleaving of any number of copy-on-write leaf writers and leaf splitters under one parent: the map read through the children cache is the initial map with the committed writes replayed one by one, and each thread's committed writes are exactly those it was told succeeded, in order, save at most one whose redirect is still to be done. No write is lost between mark, cache publication, redirect and rollback. |
| `ConcurrentRuns.StepLinearized` | internal/infrastructure/storage/btree/operations.go:110-327 | Every atomic step of every thread keeps the invariant and is either invisible or the one step at which the write the thread is working on takes effect: its key reads as its value and every other key as before. |
| `ConcurrentRuns.StartConsistent` | internal/infrastructure/storage/btree/page_ref.go:44-60 | A parent with one empty leaf satisfies the invariant and reads as the empty map. |
| `ConcurrentRuns.SearchPhase` | internal/infrastructure/storage/btree/search.go:69-148 | Descending, following a redirect and loading page infos always leads to a reference whose key range holds the key. |
| `ConcurrentRuns.FailPhase` | internal/infrastructure/storage/btree/operations.go:179-211 | Running out of memory or of retries, at any point, ends in a failure, or in a rollback by the thread that holds the leaf. |
| `ConcurrentProgress.SoloWrite` | internal/infrastructure/storage/btree/operations.go:110-327 | From every consistent state: a write that runs alone on a leaf nobody is splitting ends after its own steps, through the plain or the split path. It takes effect as one map update and returns success if and only if the leaf takes it or, for a full leaf, its halves do and the parent page takes the separator; otherwise it fails and leaves no trace. |
| `ConcurrentProgress.NeverBlocked` | internal/infrastructure/storage/btree/operations.go:110-327 | After every run any thread at rest can still write any key: once the threads that hold leaves have taken their own remaining steps, none of them giving up, the write ends, and with success if and only if there is room. |
| `ConcurrentProgress.NeverStuck` | internal/infrastructure/storage/btree/operations.go:110-327 | After every run, whatever a thread and all others have got to, the write the thread is working on can be brought to success or failure without anybody giving up: no interleaving leads into a deadlock. |
| `ConcurrentProgress.FailsForReason` | internal/infrastructure/storage/btree/operations.go:207-327 | A write fails only for lack of room in the leaf, in a half or in the parent page, for lack of memory, or by giving up - never because another thread was faster. |
| `ConcurrentProgress.Finishes` | internal/infrastructure/storage/btree/operations.go:782-928 | A thread that holds a leaf ends its split or its rollback when it runs alone, whatever stale versions it has loaded; its write takes effect exactly if the leaf can be split and the parent page has room. |
| `ConcurrentProgress.RunAttended` | internal/infrastructure/storage/btree/operations.go:179-205 | Over every run a leaf of the cache is in its normal state or held by a thread: no mark is left behind. |
| `ConcurrentReads.ReadsLinearized` | internal/infrastructure/storage/btree/storage_adapter.go:28-60 | Over every interleaving of writers, splitters and readers: a read that has returned gave the value its key had in the map at some time between its start and its end, also where it went through a leaf that was split meanwhile. |
| `ConcurrentReads.SoloRead` | internal/infrastructure/storage/btree/storage_adapter.go:28-60 | A read that runs alone ends with what the map holds, also at a leaf that is being split. |
| `ConcurrentReads.ReadFinishes` | internal/infrastructure/storage/btree/search.go:69-148 | A read comes to its end in at most five steps of its own from wherever it stands, also where its child was redirected meanwhile. |
| `ConcurrentReads.StepKeeps` | internal/infrastructure/storage/btree/operations.go:110-327 | No step of a writer or splitter changes a page a reader holds, moves a leaf to other keys or takes a leaf away without leaving its last page behind. |
| `ConcurrentSteps.WriteStep` | internal/infrastructure/storage/btree/operations.go:207-300 | The compare-and-swap of the non-split path, whenever it succeeds, is one map update - also on a record that a rollback has put back. |
| `ConcurrentSteps.MarkStep` | internal/infrastructure/storage/btree/operations.go:179-205 | Marking a full leaf as splitting is invisible and gives the splitter sole possession of it. |
| `ConcurrentSteps.RedirectStep` | internal/infrastructure/storage/btree/operations.go:886-906 | The redirect at the end of a split always finds the splitter's own mark, so it cannot fail, and is invisible. |
| `ConcurrentSteps.RollBackStep` | internal/infrastructure/storage/btree/operations.go:308-327 | The rollback always finds the splitter's own mark; putting the old record back is invisible. |
| `ConcurrentSteps.BuildStepOK` | internal/infrastructure/storage/btree/operations.go:782-843 | Building both halves privately is invisible and their references clash with no other thread's. |
| `ConcurrentSteps.LeafInParent` | internal/infrastructure/storage/btree/operations.go:60-76 | A leaf being split is always found in the physical parent page, at the place its left siblings and their pending splits leave for it: the fallback position is never used. |
| `ConcurrentSteps.CasParentOK` | internal/infrastructure/storage/btree/operations.go:35-101 | Replacing the parent page is invisible; the page stays the cache with all pending splits carried out. |
| `ConcurrentPublish.LoadChildrenOK` | internal/infrastructure/storage/btree/operations.go:704-735 | A splitter always finds its leaf in the children cache. |
| `ConcurrentPublish.CasChildrenOK` | internal/infrastructure/storage/btree/operations.go:704-765 | Publishing both halves in the children cache is the step at which a splitting write takes effect. |
| `PendingSplits.InsertExpands` | internal/infrastructure/storage/btree/operations.go:60-101 | Inserting a split into the page at the position of its child is inserting it into the cache with pending splits carried out. |
| `PendingSplits.PublishExpands` | internal/infrastructure/storage/btree/operations.go:704-765 | Publishing a pending split in the cache makes cache-plus-pending agree with the unchanged page. |
| `BTree.BTree.Set` | internal/infrastructure/storage/btree/storage_adapter.go:71-116 | Over every run of sets, with leaf, root and cascading splits and pages that come back: success is a map update, an error leaves the map unchanged, the tree invariant holds (ordered separators, key ranges, equal leaf depth, cache mirrors page, nodes on one page), and success is decided exactly by the leaf, its parent and the pages left. Among entries of up to 240 bytes nothing is refused for lack of room in a leaf of two entries: one page is enough while another key with a value of 205 bytes would fit, and otherwise the pages of a split and room for the middle key in the parent. |
| `BTree.BTree.GetRaw` | internal/infrastructure/storage/btree/storage_adapter.go:28-60 | Descent and leaf search return exactly what the finite map of successful sets holds. |
| `BTree.BTree.SearchPath` | internal/infrastructure/storage/btree/search.go:69-148 | The descent ends at the leaf whose key range holds the key, along the separators, on every sound tree. |
| `BTree.BTree.WriteLeaf` | internal/infrastructure/storage/btree/operations.go:207-300 | The non-split write succeeds exactly when a page is left - freed or never handed out - and the mutation fits, and is then one map update. |
| `BTree.BTree.SplitAndWrite` | internal/infrastructure/storage/btree/operations.go:179-205 | The split branch succeeds exactly when both halves fit, enough pages are left (three under a parent, five for a root leaf) and the parent has room; otherwise the map is unchanged and no mark is left behind. |
| `BTree.BTree.DoSplit` | internal/infrastructure/storage/btree/operations.go:308-327 | A failed split puts the old page info back and leaves the map unchanged. |
| `BTree.BTree.HandleLeafSplit` | internal/infrastructure/storage/btree/operations.go:772-928 | Splitting a leaf under a parent, with the cascade it may start, is exactly one map update; it succeeds if and only if both halves fit, three pages are left and the parent has room. |
| `BTree.BTree.PlanLeafSplit` | internal/infrastructure/storage/btree/operations.go:772-875 | The private part of a leaf split succeeds exactly on that condition and prepares a sound tree with the write applied; the replaced half is freed before the parent page is drawn, so three pages are enough. |
| `BTree.BTree.HandleInternalSplit` | internal/infrastructure/storage/btree/operations.go:345-516 | The cascade terminates on the falling level and keeps the tree invariant and the map at every level. On success it has replaced every page it passed and stopped below a page that is not full, or the root has grown by one level; on an error the level it names does not admit the split: the page cannot be cut, pages are missing, or the page above has no room. |
| `BTree.BTree.SplitBelow` | internal/infrastructure/storage/btree/operations.go:377-505 | One round of the cascade succeeds if and only if the node can be cut, three pages are left and the page above has room; it then replaces one page by two new ones and keeps the invariant, the map and the rest of the path. |
| `BTree.BTree.HandleRootInternalSplit` | internal/infrastructure/storage/btree/operations.go:521-627 | Splitting an internal root succeeds if and only if the node can be cut and four pages are left, adds one level and keeps the map. |
| `BTree.BTree.HandleRootSplit` | internal/infrastructure/storage/btree/operations.go:935-1085 | A full root leaf becomes an internal root over two leaves: one map update, if and only if the halves fit and five pages are left. |
| `BTree.BTree.SplitLeafPages` | internal/infrastructure/storage/btree/operations.go:782-843 | Splitting a leaf and writing into one half on private pages works if and only if three pages are left and both halves fit; on every error path all drawn pages are given back. |
| `BTree.BTree.Reclaim` | internal/infrastructure/storage/btree/epoch.go:171-193 | A retired page that no live reference holds goes back to the allocator: the tree stays sound, the map stays, one page more is left. |
| `PageSupply.TakeDraws` | internal/infrastructure/storage/offheap/page_manager.go:136-164 | A page is handed out if and only if one is left, and it leaves the supply of freed and unused pages. |
| `BTree.BTree.ChildPosition` | internal/infrastructure/storage/btree/operations.go:60-76 | Scanning the physical page by page ID finds the child at its position in the cache. |
| `SplitPlans.PathUnique` | internal/infrastructure/storage/btree/search.go:69-148 | A key has only one path. |
| `SplitPlans.RootHasRoom` | internal/infrastructure/storage/btree/operations.go:1018-1024 | A new root page always has room for its separator. |
| `SplitTheorems.LeafSplitDone` | internal/infrastructure/storage/btree/operations.go:772-928 | Replacing a leaf by its two halves keeps the tree invariant and changes the map at the written key only. |
| `SplitTheorems.SplitAndSetIsUpdate` | internal/infrastructure/storage/btree/operations.go:782-843 | Splitting a leaf and writing into one half is one map update spread over two well-formed leaves that meet at the split key. |
| `SplitTheorems.InnerSplitDone` | internal/infrastructure/storage/btree/operations.go:345-516 | Replacing an internal page by its two halves keeps the tree invariant and the whole map. |
| `RootSplit.RootLeafSplitDone` | internal/infrastructure/storage/btree/root_ref.go:32-48 | Replacing a root leaf by an internal root keeps the invariant and changes the map at the written key only. |
| `RootSplit.RootInnerSplitDone` | internal/infrastructure/storage/btree/root_ref.go:32-48 | Replacing an internal root by a taller one keeps the invariant and the map. |
| `ForestSplit.SplitInv` | internal/infrastructure/storage/btree/operations.go:704-765 | Publishing a split of any level keeps ordered separators, ranges, depth and mirroring for every reference of the tree. |
| `ForestSplit.SplitLookup` | internal/infrastructure/storage/btree/search.go:69-148 | A key whose lookup in the halves agrees with the old page is read the same from the root. |
| `Forest.LeafWritten` | internal/infrastructure/storage/btree/operations.go:248-300 | Publishing a copy of one leaf changes the map at one key. |
| `Forest.Relabel` | internal/infrastructure/storage/btree/page_ref.go:90-96 | Replacing a page info by one with the same page changes neither tree nor map. |
| `Search.CacheSearch` | internal/infrastructure/storage/btree/children_cache.go:39-61 | The cache search returns the number of separators at most the key. |
| `Search.NodeSearch` | internal/infrastructure/storage/btree/node_page.go:59-67 | The node search returns the same number: cache and page route every key alike. |
| `Search.SearchKey` | internal/infrastructure/storage/offheap/page_layout.go:459-495 | Binary search finds the key exactly when it is there, and otherwise its insertion point. |
| `ChildrenCache.UpdateMirrors` | internal/infrastructure/storage/btree/operations.go:704-765 | Updating the cache keeps it in lockstep with inserting the child into the page. |
| `ChildrenCache.UpdateHitsIntended` | internal/infrastructure/storage/btree/operations.go:717-724 | The search by page ID hits the intended child if and only if no earlier sibling carries the same page ID. |
| `ChildrenCache.DistributeMirrors` | internal/infrastructure/storage/btree/operations.go:646-685 | Distributing the cache keeps both halves in lockstep with the split pages. |
| `Pages.LeafSetIsUpdate` | internal/infrastructure/storage/btree/storage_adapter.go:76-109 | The mutation of a set, insert or update, is a map update on the leaf and keeps it sorted, in range and on one page. |
| `Pages.LeafUpdateEntries` | internal/infrastructure/storage/btree/leaf_page.go:112-180 | Both branches of an update, overwrite and rebuild, replace one value and nothing else. |
| `Pages.LeafSplitCuts` | internal/infrastructure/storage/btree/leaf_page.go:216-265 | A leaf split succeeds exactly on two or more entries and cuts them in order at the split key into halves that differ by at most one entry. |
| `Pages.LeafCutMapsSame` | internal/infrastructure/storage/btree/leaf_page.go:216-265 | The half a key belongs to maps it as the whole page did. |
| `Pages.LeafBuildFits` | internal/infrastructure/storage/offheap/page_layout.go:773-806 | Rebuilding a page succeeds exactly when the entries fit, and keeps them. |
| `LeafRoom.LeafFullExact` | internal/infrastructure/storage/btree/leaf_page.go:40-52 | A leaf is reported full if and only if a new entry with a value of 205 bytes does not fit any more. |
| `LeafRoom.NotFullTakes` | internal/infrastructure/storage/btree/leaf_page.go:40-52 | A leaf that is not reported full takes every value of up to 205 bytes, new or in place of another. |
| `LeafRoom.SmallSplits` | internal/infrastructure/storage/btree/leaf_page.go:216-265 | Where no entry takes more than 240 bytes, a full leaf takes the next one after its split if and only if it has two entries, and the split key is the middle one. |
| `LeafRoom.LoneEntryRefused` | internal/infrastructure/storage/btree/leaf_page.go:216-265 | A leaf with a single entry cannot be split, so once it is reported full it refuses every further write. |
| `LeafRoom.LoneEntryFull` | internal/infrastructure/storage/btree/leaf_page.go:40-52 | One write into an empty leaf makes such a leaf. |
| `LeafRoom.NodeFullExact` | internal/infrastructure/storage/btree/node_page.go:39-57 | An index page is reported full if and only if it has 126 keys or a separator of 410 bytes does not fit any more. |
| `Pages.InsertChildSplices` | internal/infrastructure/storage/btree/node_page.go:111-152 | Both branches of inserting a child splice keys and children the same way; it fails exactly on a zero left child or a full page. |
| `Pages.NodeSplitCuts` | internal/infrastructure/storage/btree/node_page.go:200-247 | A successful node split had at least three keys and cuts keys and children around the middle key, in order. |
| `Pages.NodeSplitExact` | internal/infrastructure/storage/btree/node_page.go:200-247 | A node that fits on its page splits if and only if it has three keys and no child that ends up in a half is zero or the page itself. |
| `Pages.TwoKeysRefused` | internal/infrastructure/storage/btree/node_page.go:200-247 | A page with two keys passes the guard of the split and is always refused. |
| `Pages.FullWithTwoKeys` | internal/infrastructure/storage/btree/node_page.go:200-247 | Such a page can be full: two keys of 1800 bytes. |
| `Merge.MergeLeaves` | internal/infrastructure/storage/btree/merge.go:18-55 | Merging builds the page of all left and then all right entries, or fails exactly where that does not fit. |
| `Merge.SplitMergeLeaf` | internal/infrastructure/storage/btree/leaf_page.go:216-265 | Merging the halves of a split leaf gives back its entries. |
| `Merge.HalfFullMerges` | internal/infrastructure/storage/btree/merge.go:18-55 | Two leaves that use at most half a page each always merge. |
| `Merge.BorrowLeftKeeps` | internal/infrastructure/storage/btree/merge.go:73-139 | Borrowing from the left moves one entry and keeps the concatenation of both pages; it fails exactly on an empty sibling or no room. |
| `Merge.BorrowRightKeeps` | internal/infrastructure/storage/btree/merge.go:143-204 | Borrowing from the right moves one entry and keeps the concatenation of both pages; it fails exactly on an empty sibling or no room. |
| `Merge.MergeNodePages` | internal/infrastructure/storage/btree/merge.go:208-253 | The insert loops build exactly the merged node, or stop with the same error. |
| `Merge.SplitMergeNode` | internal/infrastructure/storage/btree/merge.go:208-253 | Merging the halves of a split node with the split key gives back keys and children, if and only if the child that moved into the left header is not zero. |
| `SlottedPage.SlottedPage.InsertLeafEntry` | internal/infrastructure/storage/offheap/page_layout.go:411-453 | Inserting into the bytes, in place, refines inserting into the page value: extents stay disjoint and above the table, all other entries are unchanged, and the accumulated data end equals the recomputed one; it fails exactly when the entry does not fit. |
| `SlottedPage.SlottedPage.OverwriteLeafValue` | internal/infrastructure/storage/offheap/page_layout.go:812-834 | Overwriting succeeds exactly for a value no longer than the old one and changes that value only. |
| `SlottedPage.SlottedPage.GetDataEnd` | internal/infrastructure/storage/offheap/page_layout.go:143-170 | The recomputed data end is the extent of the data area. |
| `PageBytes.InsertRefines` | internal/infrastructure/storage/offheap/page_layout.go:411-453 | The bytes after an insert decode to the entries with the new one at its index. |
| `PageBytes.OverwriteRefines` | internal/infrastructure/storage/offheap/page_layout.go:812-834 | The bytes after an overwrite decode to the entries with one value replaced; the data area is as before. |
| `PageBytes.InsertSlotsOK` | internal/infrastructure/storage/offheap/page_layout.go:411-453 | An inserted extent overlaps no other and lies above the grown table. |
| `EpochProof.RunSafe` | internal/infrastructure/storage/btree/epoch.go:99-197 | Over every interleaving of entering, leaving, unlinking, retiring and any number of overlapping reclaim passes in which no scan ends with a reader epoch above the epoch its pass started at: no page is freed while a reader that entered before its unlink is active, and every unlinked page is with a writer, in a ring, with a pass or freed - in exactly one place, once. |
| `EpochProof.SerialIsBounded` | internal/infrastructure/storage/btree/epoch.go:157-197 | Passes that do not overlap never end a scan above their epoch. |
| `EpochProof.OnePassSafe` | internal/infrastructure/storage/btree/epoch.go:157-197 | Every run with at most one pass at a time is safe and accounts for every page once. |
| `EpochProgress.PassFrees` | internal/infrastructure/storage/btree/epoch.go:157-197 | Over every run with one pass at a time: a pass that meets no reader frees every page that was in a ring when it started, whatever readers and writers do meanwhile, and nothing else if nothing is retired meanwhile. |
| `EpochProgress.QuietPass` | internal/infrastructure/storage/btree/epoch.go:157-197 | From every state of such a run: if no reader is inside or entering, the next pass ends after finitely many steps and has freed exactly the pages in the rings. |
| `EpochProgress.RunReaders` | internal/infrastructure/storage/btree/epoch.go:99-109 | Over every run, whatever the passes do: a slot publishes an epoch exactly while a reader is entering or inside. |
| `EpochProgress.EnterReturns` | internal/infrastructure/storage/btree/epoch.go:99-105 | A reader that is not disturbed comes in with the current epoch published, also on the way through a stale one. |
| `EpochProgress.RetireAlone` | internal/infrastructure/storage/btree/epoch.go:113-131 | Unlinking and retiring a page puts it at the end of one ring with the epoch after its unlink; every slot knows of the unlink. |
| `EpochProof.ScanStep` | internal/infrastructure/storage/btree/epoch.go:160-169 | After looking at a slot, every active reader looked at, or that entered later, is at or above the epoch the pass will free below. |
| `EpochProof.DrainStep` | internal/infrastructure/storage/btree/epoch.go:171-193 | No drained page was unlinked under a reader that is still active. |
| `EpochProof.PushStep` | internal/infrastructure/storage/btree/epoch.go:113-131 | Retiring moves a page from its writer to a ring with the epoch loaded after its unlink. |
| `EpochOverlap.OverlapUnsafe` | internal/infrastructure/storage/btree/epoch.go:244-261 | A concrete run with two passes under way in which a page is freed under a reader that entered before its unlink. |
| `EpochOverlap.PassLimit` | internal/infrastructure/storage/btree/epoch.go:157-197 | All runs with at most n passes at a time are safe if and only if n is at most one. |
| `EpochManager.EpochManager.TryReclaim` | internal/infrastructure/storage/btree/epoch.go:157-201 | A pass frees exactly the longest safe prefix of every ring, in order, keeps retired equal to freed followed by pending in every slot, and empties every ring when no reader is inside. |
| `EpochManager.EpochManager.Retire` | internal/infrastructure/storage/btree/epoch.go:113-131 | Retiring appends one entry to one ring, or fails exactly when that ring is full; nothing that waits is overwritten. |
| `EpochManager.EpochManager.Scan` | internal/infrastructure/storage/btree/epoch.go:160-169 | The scan finds the smallest epoch published by a reader. |
| `EpochRing.EpochRing.Retire` | internal/infrastructure/storage/btree/epoch.go:113-131 | Across the wrap of the ring, an entry is appended and no pending one overwritten. |
| `EpochRing.EpochRing.Drain` | internal/infrastructure/storage/btree/epoch.go:171-193 | Draining takes the longest safe prefix, in order, and leaves the rest. |
| `LockFreeQueue.RunFifo` | internal/infrastructure/storage/offheap/lockfree_queue.go:33-73 | Over every interleaving: what was enqueued is what was dequeued, in order, followed by the queue; head never passes tail; a dequeue that reports empty met an empty queue at one of its own steps. |
| `QueueProgress.EnqueueEnds` | internal/infrastructure/storage/offheap/lockfree_queue.go:33-50 | An enqueue that runs alone ends, from wherever it stands and with whatever stale pointers, with its item at the end of the queue exactly once. |
| `QueueProgress.DequeueEnds` | internal/infrastructure/storage/offheap/lockfree_queue.go:53-73 | A dequeue that runs alone ends, from wherever it stands, with the first item or with no change; from its start it reports an empty queue if and only if the queue is empty. |
| `LockFreeQueue.StepRefines` | internal/infrastructure/storage/offheap/lockfree_queue.go:33-73 | Every atomic step - also with a lagging tail and helping - is invisible, or one enqueue at the end, or one dequeue of the first item. |
| `LockFreeQueue.NoNext` | internal/infrastructure/storage/offheap/lockfree_queue.go:53-63 | A dequeue that loads no next node loads it while the queue is empty. |
| `PageManager.PageManager.Alloc` | internal/infrastructure/storage/offheap/page_manager.go:136-164 | No page is handed to two holders; held, free and new IDs partition the range and used counts the held ones, if and only if the 32-bit counter does not wrap. |
| `PageManager.PageManager.Free` | internal/infrastructure/storage/offheap/page_manager.go:169-184 | Freeing keeps the partition if and only if the caller holds the page. |
| `PageOwnership.RunOwned` | internal/infrastructure/storage/offheap/page_manager.go:136-184 | Over every interleaving of the queue, page counter and usage counter steps of any number of allocating and freeing threads, as long as the counter does not wrap: held, queued, moving and unused pages partition the range, so no page has two holders, and with no call under way the usage counter is the number of held pages. |
| `PageOwnership.RunOwnedExact` | internal/infrastructure/storage/offheap/page_manager.go:153-159 | Every state of a run keeps that partition if and only if the run never wraps the page counter. |
| `AllocatorProgress.AllocAlone` | internal/infrastructure/storage/offheap/page_manager.go:136-164 | An allocation that runs alone ends: with the page that has been free for longest, else with the next unused one, and without one if and only if there is neither. |
| `AllocatorProgress.FreeAlone` | internal/infrastructure/storage/offheap/page_manager.go:169-184 | Freeing a held page alone ends with it at the end of the free list and held by nobody. |
| `TransactionProof.SnapshotReads` | internal/infrastructure/storage/mvcc/transaction.go:285-429 | Over every run: an active transaction reads its own writes, and any other key as the full history held it at its snapshot, if and only if at most one commit is newer (none, if an undo rewrote the record) or there was nothing to see. |
| `TransactionProof.VersionChain` | internal/infrastructure/storage/mvcc/transaction.go:679-719 | Over every run: a stored record is the last commit of its key and inlines the commit just before it, or nothing if that was a delete. |
| `TransactionProof.CommitFolds` | internal/infrastructure/storage/mvcc/transaction.go:559-675 | Committing the folded buffer leaves the latest value of every key as applying the transaction's operations one at a time. |
| `TransactionProof.ReadYourWrites` | internal/infrastructure/storage/mvcc/transaction.go:440-486 | After an own put a transaction reads that value. |
| `TransactionProof.BuffersDisjoint` | internal/infrastructure/storage/mvcc/transaction.go:440-457 | Two active transactions never have buffered the same key. |
| `TransactionProof.FailRestores` | internal/infrastructure/storage/mvcc/transaction.go:775-845 | If any subset of the keys was written and the commit fails, undo restores the latest visible value of every key; a key whose own undo fails keeps what the commit wrote, and no key that was not written is touched. |
| `TransactionProof.UndoRestores` | internal/infrastructure/storage/mvcc/transaction.go:775-782 | Undo gives the same result whatever the order and the repetitions of the keys in the undo buffer and whichever undos fail. |
| `TransactionProof.WatermarkMonotone` | internal/infrastructure/storage/mvcc/gc.go:62-67 | The effective watermark never decreases over any run. |
| `TransactionProof.CompactionInvisible` | internal/infrastructure/storage/btree/compaction.go:97-115 | After any run, every active transaction reads every key as it would had no compaction ever taken place, with the same locks and buffer. |
| `TransactionProof.RunInv` | internal/infrastructure/storage/mvcc/transaction.go:212-234 | Over every run: old versions captured in buffers match the storage while the lock is held, and no snapshot is below the watermark compaction has read. |
| `TransactionEnds.RollbackDrops` | internal/infrastructure/storage/mvcc/transaction.go:726-762 | Over every run: a rollback leaves the stored data, their versions and the clock as they are; the transaction is gone, exactly its locks are released, and no other transaction changes. |
| `TransactionEnds.EndReleases` | internal/infrastructure/storage/mvcc/transaction.go:743-762 | Commit, failed commit and rollback release exactly the locks of their transaction and change no other one. |
| `TransactionEnds.LocksHeld` | internal/infrastructure/storage/mvcc/transaction.go:743-762 | Over every run each locked key is locked by an active transaction: no lock is left behind. |
| `TransactionEnds.EndUnblocks` | internal/infrastructure/storage/mvcc/transaction.go:743-762 | Once a transaction has ended, every other one can lock what it had locked. |
| `TransactionEnds.BeginSees` | internal/infrastructure/storage/mvcc/transaction.go:212-234 | A new transaction reads the latest committed value of every key, with a snapshot above every commit, and disturbs nobody. |
| `TransactionEnds.CommitAdds` | internal/infrastructure/storage/mvcc/transaction.go:559-675 | A commit adds one version, at the new time, to every key of the buffer - what the operations, one at a time, make of the latest value - and touches no other key. |
| `TransactionEnds.CommitIsSeen` | internal/infrastructure/storage/mvcc/transaction.go:440-557 | What a transaction wrote or deleted last is what a transaction that begins after its commit reads. |
| `TransactionEnds.FailLeaves` | internal/infrastructure/storage/mvcc/transaction.go:631-675 | Over every run: a failed commit reads as a rollback but for the keys whose undo fails; these gain one version, as if they had been committed. |
| `TransactionEnds.TombstonesGo` | internal/infrastructure/storage/mvcc/gc.go:62-67 | Reading the watermark and compacting removes exactly the deletes of the visited pages that are older than every active snapshot, and changes nothing else. |
| `Versions.ReadExact` | internal/infrastructure/storage/mvcc/transaction.go:392-429 | When a snapshot read of one record with one inlined version agrees with the full history, both directions. |
| `Versions.CommitStandsFor` | internal/infrastructure/storage/mvcc/transaction.go:679-719 | Committing on top of a record that stands for its history gives a record that stands for the longer one. |
| `WriteBuffer.PutFolds` | internal/infrastructure/storage/mvcc/write_buffer.go:84-115 | A put makes its key read as the value and leaves other keys. |
| `WriteBuffer.DeleteFolds` | internal/infrastructure/storage/mvcc/write_buffer.go:119-148 | A delete, also one that cancels an insert or is refused, makes its key read as absent and leaves other keys. |
| `WriteBuffer.WriteBuffer.Put` | internal/infrastructure/storage/mvcc/write_buffer.go:84-115 | The put updates entries and order as specified and folds. |
| `WriteBuffer.WriteBuffer.Delete` | internal/infrastructure/storage/mvcc/write_buffer.go:119-148 | The delete updates entries and order as specified and is refused exactly for a key found nowhere. |
| `CommitPath.ApplyWriteBuffer` | internal/infrastructure/storage/mvcc/transaction.go:631-660 | Whatever the order and the repetitions of keys, the collected pairs write exactly the live entries, and the undo buffer covers them. |
| `CommitPath.RollbackApplied` | internal/infrastructure/storage/mvcc/transaction.go:775-845 | The undo loop runs from the last entry to the first, goes on after an undo that fails, and reports whether one did. |
| `CommitPath.ActiveTxRegistry.Watermark` | internal/infrastructure/storage/mvcc/active_tx_registry.go:47-60 | The minimum of the active snapshots, 0 when there is none. |
| `CommitPath.ActiveTxRegistry.GCWatermark` | internal/infrastructure/storage/mvcc/gc.go:62-67 | The watermark of a cycle is the effective watermark of every state with these snapshots. |
| `CommitPath.ScanLeafEntries` | internal/infrastructure/storage/btree/compaction.go:97-115 | The filter keeps, in order, exactly the entries that are not tombstones below the watermark. |
| `CommitPath.ScanIsCompact` | internal/infrastructure/storage/btree/compaction.go:97-115 | Keeping those entries of a leaf is the compaction step of the transaction machine. |
| `Codec.RoundTrip` | internal/infrastructure/storage/mvcc/codec.go:92-189 | Parsing undoes building if and only if the previous value has at most 65515 bytes, and none when there is no previous version. |
| `Codec.ReferenceRoundTrip` | internal/infrastructure/storage/mvcc/codec.go:130-148 | References to large objects survive: the overflow page and length of flags 2 and 3, the file ID and length of flags 4 and 5, none for flags 0 and 1. |
| `Codec.OtherFlags` | internal/infrastructure/storage/mvcc/codec.go:77-81 | Bytes with any other flag are refused. |
| `BigEndian.PutOrder` | internal/infrastructure/storage/mvcc/codec.go:181-186 | The bytes of numbers are ordered like the numbers: the most significant byte comes first. |
| `Codec.BuildMVCC` | internal/infrastructure/storage/mvcc/codec.go:164-189 | Building succeeds for exactly the flags 0 to 5 and a timestamp that is not zero; the in-place construction, with its overlapping copy, gives the layout with a 16-bit previous length. |
| `Codec.MetaOfBuilt` | internal/infrastructure/storage/btree/get_with_meta.go:22-34 | What the second reader returns for anything built: the commit timestamp unless its 16-bit offset overflows. |
| `Codec.ReadersAgree` | internal/infrastructure/storage/btree/get_with_meta.go:22-34 | Both readers find the same timestamp in any bytes that parse, unless a previous length comes without a previous version. |
| `TxPrepare.RoundTrip` | internal/infrastructure/storage/mvcc/wal_integration.go:197-265 | Parsing undoes logging, for any number of variable-length entries, if and only if every ordered key is still in the buffer; otherwise the record reads as truncated. |
| `PrepareLog.RecoversBuffer` | internal/infrastructure/storage/mvcc/wal_integration.go:108-183 | Recovery reads every write of a buffer without cancelled keys back at its place: operation, new value and the version to restore; a tombstone is logged if and only if the write is a delete. |
| `TxPrepare.TxPrepareEntry` | internal/infrastructure/storage/mvcc/wal_integration.go:108-183 | Sizing first and filling with a moving offset gives the layout, with a count that covers cancelled keys. |
| `TxPrepare.ParseTxPrepareEntry` | internal/infrastructure/storage/mvcc/wal_integration.go:197-265 | The parse loop returns every entry in order and panics if and only if some entry it reaches ends its key 12 or 13 bytes before the end of the buffer; it succeeds if and only if all counted entries are complete. |
| `TxPrepare.ParseOutcome` | internal/infrastructure/storage/mvcc/wal_integration.go:213-262 | On every buffer, from every offset: when the parser panics, reports a truncated record and succeeds, each if and only if. |
| `TxPrepare.PanicWitness` | internal/infrastructure/storage/mvcc/wal_integration.go:229-241 | A concrete 20-byte record on which the parser reads out of range. |
| `TxPrepare.ParseAll` | internal/infrastructure/storage/mvcc/wal_integration.go:213-262 | Asking for n entries of a logged buffer gives the first n live ones, or fails when there are fewer. |
| `TxPrepare.LiveAt` | internal/infrastructure/storage/mvcc/wal_integration.go:130-173 | Each live key is parsed back at its own position with everything logged for it. |
| `TaskQueue.TaskQueue.Push` | internal/infrastructure/concurrency/executor_percore.go:188-204 | The task joins the end of its clamped level; a bit is set exactly when its level is not empty. |
| `TaskQueue.TaskQueue.Pop` | internal/infrastructure/concurrency/executor_percore.go:208-251 | After a due starvation check, the oldest task of the best level is taken; the bitmap stays exact. |
| `TaskQueue.TaskQueue.PromoteStarvedTasks` | internal/infrastructure/concurrency/executor_percore.go:256-293 | The in-place removal loops move exactly the timed-out tasks of levels 1 to 9 to the end of level 0. |
| `PriorityLevels.NoneStarved` | internal/infrastructure/concurrency/executor_percore.go:256-293 | Promotion conserves tasks and leaves in levels 1 to 9 exactly the tasks submitted no longer ago than the timeout; without a timeout nothing moves. |
| `PriorityLevels.PromoteShape` | internal/infrastructure/concurrency/executor_percore.go:256-293 | Level 0 only grows at its end and survivors keep their order. |
| `PriorityLevels.Level0Served` | internal/infrastructure/concurrency/executor_percore.go:208-251 | A task at position i of level 0 is returned by pop number i + 1 from now, whatever is pushed or promoted meanwhile. |
| `PriorityOrder.FirstCome` | internal/infrastructure/concurrency/executor_percore.go:188-293 | First come first served over every run of pushes, pops and promotions: a task that waits behind another in the same level and was submitted no earlier, or behind it at level 0, is not served before it. |
| `PriorityOrder.PopsBest` | internal/infrastructure/concurrency/executor_percore.go:208-251 | A pop takes the first task of a level whose better levels are all empty, and none only from an empty queue. |
| `PriorityOrder.PushJoins` | internal/infrastructure/concurrency/executor_percore.go:188-204 | A priority from 0 to 9 is its own level, others go to the nearest; nothing else moves. |
| `PriorityLevels.RunConserves` | internal/infrastructure/concurrency/executor_percore.go:188-293 | Over every run, tasks present and pushed are the tasks served and left. |
| `Checkpoint.Checkpoint.Dfs` | internal/infrastructure/storage/btree/btree.go:159-208 | The walk terminates on every finite reference graph, lists each page at most once, visits all children of what it lists, and where a rank falls along the edges lists children before their parent. |
| `Checkpoint.Checkpoint.EnumeratePages` | internal/infrastructure/storage/btree/btree.go:153-214 | Only what is reachable from the root is listed, each page once; with distinct page IDs it is exactly what is reachable, and on an acyclic graph every page comes after its children. |
| `Checkpoint.Complete` | internal/infrastructure/storage/btree/btree.go:153-214 | The listed references contain the root and are closed under children. |
| `Checkpoint.AcyclicIff` | internal/infrastructure/storage/btree/btree.go:159-208 | With distinct page IDs, a rank that falls along every edge exists if and only if no reference leads back to itself. |

## Left out

- Tree-level merge and internal borrow (merge_ops.go): marked as not fully enabled; page-level merge and leaf borrow are modelled.
- The in-place mutation of `BTree.Set`: only the copy-on-write mutation of the storage adapter refines a map.
- `SetBatch` as a tree operation, `GetBatch`, scans: transactions use the map contract of the storage.
- Deletes in the tree: a delete is a tombstone record written by `Set`.
- Retries of `writeOperation` in the sequential tree: without concurrency the first attempt succeeds or fails for good; page infos that are missing or freed cannot occur there.
- Concurrent splits of internal pages: cascades are sequential; in the concurrent machine the parent does not split and only sets run.
- Version numbers in child pointers, tombstone counters, tree size, reference counts of pages, leaf links.
- Large objects: overflow chains, files and their retirement; the value format keeps their references.
- WAL disk layer, recovery, chunk files, checksums, serialization errors of the checkpoint walk.
- First-committer-wins: the write path reads the latest committed value by design.
- Dirty reads between a partly applied batch and its undo: both are one step.
- Waiting: spin loops, backoff, lock timeouts and retry limits appear as steps that may fail or be taken again.
- Remote watermarks, hybrid clocks, garbage-collection statistics.
- `BTree.Set`: keys near the 32-bit length limit are not modelled, because the page layer refuses them long before.
- `PageManager`: header fields of a page other than its place (version, deleted flag) are not modelled.
- `TaskQueue`: the 16-bit map is the set of its set bits, the clock is a parameter.
- Networking, RPC, discovery, CLI, metrics, tracing, compressors.
