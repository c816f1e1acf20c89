# Verified model of neumolmdb

A Dafny model of the embedded key-value store in `neumolmdb/` (a fork of LMDB): a
copy-on-write B+tree with multi-version snapshots, a recycler for freed pages, nested
transactions and crash recovery.  `dafny verify dfyconfig.toml` checks the whole project.

## What is modelled

**Snapshots and page reclamation** (`Protocol`, `ProtocolSafety`, `ProtocolTheorems`,
`ProtocolContent`, `ProtocolOldest`, `ProtocolExamples`).
Readers, one writer and crashes are steps of a state machine that interleave freely.  A reader
claims a slot, loads the last transaction id, stores it, checks again, and copies a meta page;
the writer scans the slots one field at a time or relies on the oldest id cached by its process,
merges freeDB records into `me_pghead`, allocates, touches, loosens, spills and flushes pages,
saves the freelist, syncs, writes the meta page and publishes.  A crash leaves arbitrary contents
in pages that were not synced; a writer that dies is recovered by the next holder of the mutex.
The record invariant quantifies over live readers and the two metas, since leftover pages are
saved again under smaller keys.  `ProtocolContent` ties every committed snapshot, page by page, to
the steps of its transaction.

Two properties one might expect do not hold.  "The records consumed so far are older than
`me_pgoldest`": a scan may lower `me_pgoldest`, because a slot can show an old id before its reader
has checked it again (`OldestCanDrop` is a run, `OldestDrops` says exactly when).  What does hold,
and is all that safety needs, is that they are older than every live reader (`ConsumedIsOld`).
And "a reader gets the snapshot of the id it published": it does if and only if at most one later
commit happened before it copied the meta page (`SnapshotOfOwnId`), as `neumolmdb.h` warns; a
reader overtaken by two commits (`ReaderOvertaken` is a run) gets a newer snapshot, still intact.

**Nested transactions** (`NestedTxn`, `NestedProofs`, `NestedTheorems`, `NestedPages`,
`DirtyMerge`, `SpillPurge`).  A stack of transactions, each with dirty, spilled, loose and freed
pages, and the lookup chain of `mdb_page_get`; who sees what, and where every page is.  `DirtyMerge` and `SpillPurge` are the in-place array algorithms of
a child's commit.

**The B+tree** (`SplitPoint`, `BTree`, `Refusal`, `BTreeShape`, `SortedMap`, `BTreeOrder`,
`BTreeRefines`, `BTreeDelete`, `BTreeTheorems`, `BTreeLeaves`, `RefusalTheorems`,
`RefusalExamples`).  Put, delete and get with splits, separator updates that split, node moves, merges, root growth and root
collapse, all with byte sizes.  Trees are values here; `SlottedPage` and `PageOps` treat the bytes
of one page in place, and `PageRoom` shows that both reckon with the same free space.

That a split always succeeds does not hold.  The split point is searched for except in pages of 32
nodes and more with a small new node; there the middle is taken unseen, and a put or a delete can
then fail with `MDB_PAGE_FULL` although another cut would do.  `SplitBound` gives the exact
condition for one page, `PutKeepsShape` and `DelKeepsShape` the exact condition for a whole
operation, `PutCanBeRefused` and `DelCanBeRefused` an input for each.  A split point that was
searched for never fails, on leaves and on branches, and on pages of up to 2591 bytes nothing does.

**Cursors** (`CursorPaths`, `Cursors`, `CursorTheorems`, `CursorFixup`).  The stack of pages and
indices; sibling, first, next, the search from the root and the shortcuts of `mdb_cursor_set`; what
they answer after any run of puts and deletes; the adjustment of other cursors after a merge.

**ID lists and the freelist** (`MidlSort`, `Midl`, `FreeRun`, `FreelistSave`).  Sorting with an
explicit stack, merging with a sentinel, binary search, contiguous runs, and how
`mdb_freelist_save` reserves and fills freeDB records.

**Whole databases** (`PageTree`, `CompactCopy`, `CopyCommitted`, `DropDb`, `DumpFormat`).  Copy with
compaction, also of any snapshot the protocol commits; drop; and the bytevalue dump format.

Keys are real numbers paired with a length in bytes: any order on byte strings embeds in the
reals, and the length is what page layout depends on.  Page numbers and transaction ids are
unbounded, except where the code relies on `(MDB_ID)-1` being the largest ID.

## Model

| member | source | states |
|---|---|---|
| `ProtocolSafety.StepKeeps` | neumolmdb/mdb.c:2366-2617 | every step of every reader, writer, recovery and crash keeps the whole protocol invariant: slots, metas, scan in progress, page partition, record shielding |
| `ProtocolSafety.RecheckKeeps` | neumolmdb/mdb.c:3047-3052 | after store-then-recheck the id in the slot bounds what any writer may reclaim, whatever scans are under way |
| `ProtocolSafety.SaveKeeps` | neumolmdb/mdb.c:3519-3592 | saving own freed pages under the own id and leftovers under smaller keys exposes no page of a live reader or of either meta |
| `ProtocolSafety.WriteMetaKeeps` | neumolmdb/mdb.c:4184-4304 | the alternating meta write makes the new snapshot current and keeps the other one complete |
| `ProtocolTheorems.SnapshotIsolation` | neumolmdb/mdb.c:2366-2382 | in every state of every run the pages a reader can reach hold exactly what one committed transaction, no older than its slot's id, wrote |
| `ProtocolContent.CommittedContent` | neumolmdb/mdb.c:2711-2778 | over every run, a committed snapshot holds each page as the last step of its transaction that put something there left it: the content written, or for a touched page what was seen at the old number; dropped pages are gone, all others are those of the snapshot it started from |
| `ProtocolTheorems.NothingReachableIsTaken` | neumolmdb/mdb.c:2488-2538 | no step of any run reclaims, allocates, dirties or writes a page reachable from a live reader or from either meta page |
| `ProtocolTheorems.RepeatableReads` | neumolmdb/mdb.c:2983-3100 | between any two moments of a reader's life no page it can see changes |
| `ProtocolTheorems.SnapshotOfOwnId` | neumolmdb/neumolmdb.h:112-114 | a reader sees the snapshot of the id it published if and only if at most one later commit precedes its meta copy |
| `ProtocolExamples.ReaderOvertaken` | neumolmdb/mdb.c:3084-3088 | a run in which a reader that published id 0 is overtaken by two commits and gets snapshot 2 |
| `ProtocolTheorems.CrashSafety` | neumolmdb/mdb.c:4313-4319 | after a crash at any step mdb_env_pick_meta yields the newest committed snapshot, and all pages of both metas' snapshots are intact |
| `ProtocolContent.WrittenMayBeLost` | neumolmdb/mdb.c:2809-2857 | a page written and not synced since may hold anything after a crash, so the two theorems on crashes cover every such outcome |
| `ProtocolTheorems.CommitsAreDurable` | neumolmdb/mdb.c:4007-4025 | a commit that was published survives every later crash, and history only grows |
| `ProtocolTheorems.StaleOldestIsSafe` | neumolmdb/mdb.c:756-767 | an oldest-reader id found by any earlier scan never exceeds the id of any present or future reader |
| `ProtocolOldest.ConsumedIsOld` | neumolmdb/mdb.c:2488-2538 | in every state of every run what the writer has consumed is older than every live reader and every reader still to come |
| `ProtocolOldest.OldestDrops` | neumolmdb/mdb.c:2366-2382 | a scan leaves me_pgoldest at or below me_pglast if and only if it read so old an id in a slot, and then the owner of that slot was no live reader |
| `ProtocolOldest.OldRecordsAreReclaimed` | neumolmdb/mdb.c:2488-2538 | after a scan that met no id so old, the next record of the freeDB can be fetched |
| `ProtocolOldest.EndedReaderIsSilent` | neumolmdb/mdb.c:3302-3334 | until its slot stores an id again, a reader that ended shows none to any scan |
| `ProtocolExamples.OldestCanDrop` | neumolmdb/mdb.c:2366-2382 | a run in which a scan lowers me_pgoldest from 2 to 0 while record 1 is already consumed |
| `ProtocolTheorems.PagesPartitioned` | neumolmdb/mdb.c:964-965 | in every state with a working writer each page of [2, mt_next_pgno) is in exactly one of tree, mt_free_pgs, me_pghead, loose pages, unconsumed records |
| `ProtocolTheorems.AuditBalances` | neumolmdb/mdb.c:1921-1969 | every snapshot ever committed has used pages + freeDB pages + 2 metas = mt_next_pgno |
| `NestedProofs.StepKeeps` | neumolmdb/mdb.c:1348-1353 | every step, giving a dirty or spilled page back to me_pghead included, keeps mt_dirty_room equal to capacity minus the visible dirty pages at every level, lists disjoint, and allocatable pages unused by anybody |
| `NestedProofs.InitInv` | neumolmdb/mdb.c:3056-3082 | a write transaction as it begins satisfies that invariant, so runs exist |
| `NestedTheorems.WorkingIsIsolated` | neumolmdb/mdb.c:2254-2259 | touching, allocating, freeing, spilling and unspilling in a child leave every ancestor's state and page view unchanged |
| `NestedTheorems.SpillIsolated` | neumolmdb/mdb.c:2325-2350 | writing a spilled page over the map is invisible to every ancestor that has the page, because it was not spilled by an ancestor |
| `NestedTheorems.RelocationKeepsOwnView` | neumolmdb/mdb.c:2652-2703 | spilling, unspilling and copying a page into the own dirty list never change what the transaction itself sees |
| `NestedTheorems.TouchMovesPage` | neumolmdb/mdb.c:2711-2776 | a touched clean page reappears with its contents under the new number, and the old number is freed |
| `NestedTheorems.AncestorsUndisturbed` | neumolmdb/mdb.c:6263-6325 | over any run, with further nested begins, commits and aborts, the outer transactions keep their lists and their view by the mdb_page_get lookup |
| `NestedTheorems.AbortRestores` | neumolmdb/mdb.c:3356-3364 | begin, any work, abort: the ancestors' transactions, me_pgstate and every page they see are exactly as before |
| `NestedTheorems.CommitHandsOver` | neumolmdb/mdb.c:3838-3966 | after a child's commit the parent sees every page as the child did, has its tree and its dirty room, and all invariants hold |
| `NestedPages.StepConserves` | neumolmdb/mdb.c:6532-6608 | every step but an abort, begin and commit included, keeps each page of tree, freed lists, loose pages and me_pghead exactly as often, plus what it fetches or takes new |
| `NestedPages.NothingLost` | neumolmdb/mdb.c:3838-3966 | over any run, with further nested begins, commits and aborts, a transaction that stays open loses no page |
| `NestedPages.CommitKeepsPages` | neumolmdb/mdb.c:3838-3860 | from begin to the matching commit, every page the parent had at hand, and every page the child had at hand at any time in between, ends up in the parent's tree, freed list, loose pages or me_pghead |
| `NestedPages.StepSees` | neumolmdb/mdb.c:6263-6325 | a step changes what the transaction sees of the page it writes, allocates or touches to, and of no other; a child begins with its parent's view |
| `NestedPages.Reusable` | neumolmdb/mdb.c:2450-2465 | a loosened page can be allocated again at once, one given back to me_pghead as soon as there is room, a freed or touched one not before the commit |
| `NestedTheorems.MergedListFits` | neumolmdb/mdb.c:3928-3930 | the merged dirty list fits, and with one ancestor its length is capacity minus the child's dirty room |
| `DirtyMerge.Search` | neumolmdb/midl.c:281-314 | the position returned separates smaller page numbers from the rest |
| `DirtyMerge.Insert` | neumolmdb/midl.c:316-345 | 0, -1 or -2 exactly as free, duplicate or full; on success the list is the old one with the entry at its sorted place |
| `DirtyMerge.MergeIsOverride` | neumolmdb/mdb.c:3931-3939 | the merge of two lists is their union with the child's entry winning |
| `DirtyMerge.MergeRises` | neumolmdb/mdb.c:3931-3939 | the merge is sorted and free of duplicates |
| `DirtyMerge.CountMerged` | neumolmdb/mdb.c:3916-3927 | the counting loop finds the length of the merge |
| `DirtyMerge.MergeInto` | neumolmdb/mdb.c:3931-3941 | the backward in-place merge yields the sorted union, overwrites nothing unread, and ends with i == x |
| `DirtyMerge.DropSpilled` | neumolmdb/mdb.c:3894-3911 | exactly the pages the child spilled leave the parent's dirty list |
| `DirtyMerge.CommitDirty` | neumolmdb/mdb.c:3894-3941 | the parent's dirty list becomes its unspilled part overridden by the child's, with either way of finding the length |
| `SpillPurge.Purge` | neumolmdb/mdb.c:3873-3892 | exactly the child's dirty pages leave the parent's spill list, deleted marks being squashed, and the list stays strictly descending as its binary search needs |
| `SplitPoint.FindSplit` | neumolmdb/mdb.c:9654-9687 | the two-directional loop computes the split index of the specification |
| `SplitPoint.SplitPlace` | neumolmdb/mdb.c:9588-9687 | the cut halves the node count when it is not searched for, and else fills the page on the new node's side up to the middle, or the left page for a new last node |
| `SplitPoint.SplitBound` | neumolmdb/mdb.c:9614-9687 | on leaves, and on branches where the right page's first key is dropped, both halves are non-empty and fit in a page if and only if the split point was searched for or the half that takes the new node has the room |
| `SplitPoint.SearchedSplitFits` | neumolmdb/mdb.c:9657-9687 | a split point that was searched for always leaves two halves that fit, on leaves and on branches |
| `SplitPoint.TwoNodesAtLeast` | neumolmdb/mdb.c:4884-4885 | since any two nodes fit in a page, a page that must split has at least two nodes |
| `SplitPoint.MidpointCanOverflow` | neumolmdb/mdb.c:9657-9657 | sizes for which the unsearched middle gives a half larger than a page and another cut gives two that fit |
| `SplitPoint.SmallPageFits` | neumolmdb/mdb.c:9657-9657 | on small pages the unsearched middle always fits |
| `BTreeShape.AddNodeOk` | neumolmdb/mdb.c:7831-7850 | adding a node leaves well-shaped pages, and reports MDB_PAGE_FULL exactly when the page has no room and the split condition fails |
| `BTreeShape.InlineIfTwoFit` | neumolmdb/mdb.c:4884-4885 | data goes to an overflow page exactly when two nodes of its size would not fit in a page |
| `BTreeShape.SplitBranchOk` | neumolmdb/mdb.c:9755-9803 | splitting a branch page leaves well-shaped pages and is refused exactly when the split condition fails |
| `BTreeShape.AddKidOk` | neumolmdb/mdb.c:9701-9740 | giving the parent a separator likewise |
| `BTreeShape.BranchHalves` | neumolmdb/mdb.c:9614-9687 | a split branch page keeps at least two children on each side |
| `BTreeShape.MergeFits` | neumolmdb/mdb.c:9301-9317 | whenever mdb_rebalance merges, all nodes fit in the destination, the restored lowest key included |
| `BTreeShape.MoveFits` | neumolmdb/mdb.c:8746-8970 | whenever mdb_rebalance moves a node, both pages fit and keep enough nodes |
| `BTreeShape.UpdateKeyOk` | neumolmdb/mdb.c:8656-8722 | replacing a separator keeps the page well-shaped, by a split if need be, and is refused exactly when the page without the old key has no room for the new one and that split fails |
| `BTreeShape.PutKeepsShape` | neumolmdb/mdb.c:9494-9844 | put fails with MDB_PAGE_FULL if and only if some page of the search path has no room and its unsearched middle is a cut that does not fit; otherwise uniform depth, page sizes and least node counts are kept, a root growing when the old one splits |
| `BTreeShape.DelKeepsShape` | neumolmdb/mdb.c:9142-9322 | delete fails with MDB_PAGE_FULL if and only if some parent on the path has no room for a new separator and its unsearched middle is a cut that does not fit; otherwise uniform depth, page sizes and least node counts are kept, the root collapsing or going |
| `BTreeOrder.ExplicitOrdered` | neumolmdb/mdb.c:9012-9030 | writing out the implicit key of slot 0 keeps order, separators and entries |
| `BTreeRefines.PutAtHolds` | neumolmdb/mdb.c:9494-9844 | put below any page, through any splits, leaves ordered pages that hold exactly the updated entries |
| `BTreeRefines.GetRefines` | neumolmdb/mdb.c:6331-6408 | the descent by separators finds what the sorted entries hold, or nothing |
| `BTreeDelete.MergeOrdered` | neumolmdb/mdb.c:8975-9042 | a merge keeps order and entries |
| `BTreeDelete.RebalanceHolds` | neumolmdb/mdb.c:9142-9322 | rebalancing moves entries between pages and separators between levels but changes no entry |
| `BTreeDelete.DelAtHolds` | neumolmdb/mdb.c:9326-9440 | delete below any page reports a missing key exactly when it is missing and otherwise leaves exactly the other entries |
| `BTreeTheorems.PutRefines` | neumolmdb/mdb.c:9910-9926 | mdb_put on a database is the map update |
| `BTreeTheorems.DelRefines` | neumolmdb/mdb.c:9441-9480 | mdb_del is the map removal, MDB_NOTFOUND exactly for absent keys |
| `BTreeTheorems.RunRefines` | neumolmdb/mdb.c:9142-9844 | every sequence of puts and deletes breaks off exactly at an operation that meets such a page; otherwise the tree is uniformly deep, correctly separated and holds exactly the plain map |
| `BTreeTheorems.RunAnswers` | neumolmdb/mdb.c:6649-6672 | after every such run mdb_get answers as the plain map for every key |
| `BTreeLeaves.PutLeaves` | neumolmdb/mdb.c:9494-9844 | put changes the one leaf the search ends at, or cuts it in two where mdb_page_split cuts, if and only if it no longer fits; every other leaf stays as it is, whatever splits above |
| `BTreeLeaves.DelLeaves` | neumolmdb/mdb.c:9142-9322 | delete leaves a leaf alone that keeps a node and is at least a quarter full; otherwise it gains the nearest node of its neighbour, if that is a quarter full and has another, or is merged with it; every other leaf stays as it is, whatever is moved, merged or split above |
| `BTreeLeaves.RebalanceRule` | neumolmdb/mdb.c:9142-9322 | nothing, move or merge, on leaves and branches, by bytes and node counts of the page and its neighbour |
| `RefusalTheorems.NarrowIsAccepted` | neumolmdb/mdb.c:9657-9657 | an operation whose search path has fewer than 32 nodes on every page is never refused |
| `RefusalTheorems.SmallPagesNeverRefuse` | neumolmdb/mdb.c:9654-9687 | with pages of up to 2591 bytes every sequence of puts and deletes runs through and leaves exactly the plain map |
| `RefusalExamples.PutCanBeRefused` | neumolmdb/mdb.c:9657-9657 | a run of 32 puts on 4096-byte pages after which one more fails with MDB_PAGE_FULL, although a cut elsewhere would do |
| `RefusalExamples.DelCanBeRefused` | neumolmdb/mdb.c:8656-8722 | a well-formed database on which a delete fails with MDB_PAGE_FULL, because moving a node brings a longer separator |
| `SlottedPage.DelLayout` | neumolmdb/mdb.c:8316-8340 | after the bytes closed up, node extents are even, disjoint and tile [mp_upper, page end) again |
| `SlottedPage.AddLayout` | neumolmdb/mdb.c:8226-8240 | a new node extends the tiling downwards and disturbs no other node |
| `SlottedPage.SlidLayout` | neumolmdb/mdb.c:8688-8712 | after a key changed length the nodes still tile the page and all others keep their bytes |
| `PageOps.DecodeNode` | neumolmdb/mdb.c:8236-8250 | the size read back from a written node header is the size written |
| `PageOps.Page.NodeAdd` | neumolmdb/mdb.c:8161-8284 | MDB_PAGE_FULL exactly when node and offset do not fit; otherwise exactly the new node joins the node sequence at its index, and there the header reads back, the key is at NODEKEY and the data behind it |
| `PageOps.Page.NodeDel` | neumolmdb/mdb.c:8292-8341 | exactly one node leaves the node sequence, every other keeps its bytes |
| `PageOps.Page.UpdateKey` | neumolmdb/mdb.c:8656-8722 | refused exactly when the longer key does not fit; otherwise only that node's key and key size change, its page number and flags stay |
| `PageRoom.SizeLeft` | neumolmdb/mdb.c:1016-1020 | in every well-formed page the free bytes are the page less its header and the sizes of its nodes and offsets |
| `PageRoom.LeafRoomAgrees` | neumolmdb/mdb.c:8106-8117 | on leaf pages mdb_node_add has room for a node exactly when the sizes by mdb_leaf_size say so |
| `PageRoom.BranchRoomAgrees` | neumolmdb/mdb.c:8130-8144 | ... and on branch pages those by mdb_branch_size |
| `CursorPaths.RankIsLookup` | neumolmdb/mdb.c:6919-7052 | the entry at the rank of a key is its own exactly when the map has the key |
| `CursorPaths.RangeIsLeast` | neumolmdb/mdb.c:6919-7052 | the entry at the rank of a key is the least key of the map not below it |
| `Cursors.SearchLeaf` | neumolmdb/mdb.c:5824-5912 | binary search in a leaf finds the first key not below the one sought |
| `Cursors.SearchBranch` | neumolmdb/mdb.c:6360-6374 | binary search from slot 1 on and the step back find the child whose range holds the key |
| `Cursors.Cursor.Sibling` | neumolmdb/mdb.c:6683-6737 | the stack moves to the page whose entries directly follow (or precede), and fails exactly at the edge, unchanged |
| `Cursors.Cursor.PageSearch` | neumolmdb/mdb.c:6331-6408 | the leaf reached has only smaller entries before it and only larger ones after it |
| `Cursors.Cursor.Next` | neumolmdb/mdb.c:6741-6800 | moves exactly one entry on, or stays if a delete left the cursor on the next entry, or fails exactly at the end |
| `Cursors.Cursor.Scan` | neumolmdb/mdb.c:6741-6800 | first and then next until it fails visits exactly the tree's entries in order |
| `Cursors.Cursor.SetOnPage` | neumolmdb/mdb.c:7031-7052 | searching the leaf and going on to the next one gives the answer by rank, and found or not leaves the cursor at the rank of the key |
| `Cursors.Cursor.Set` | neumolmdb/mdb.c:6919-7052 | from any valid position, whichever shortcut applies, found or not found and the entry are those of the rank of the key, for MDB_SET and MDB_SET_RANGE; found or not, the cursor is left where the key belongs, which is where mdb_cursor_put inserts |
| `CursorTheorems.RunRange` | neumolmdb/mdb.c:6919-7052 | after every run of puts and deletes and from any position MDB_SET_RANGE gives the least entry of the plain map from the key on |
| `CursorTheorems.RunSet` | neumolmdb/mdb.c:6919-7052 | ... and MDB_SET the plain map's lookup |
| `CursorTheorems.RunScan` | neumolmdb/mdb.c:6741-6800 | ... and a scan exactly the plain map, keys rising |
| `CursorTheorems.RunEmpty` | neumolmdb/mdb.c:9142-9187 | after every run there is no root page if and only if the plain map is empty |
| `CursorFixup.CursorSurvives` | neumolmdb/mdb.c:9048-9097 | after a merge an adjusted cursor designates the same node at every level, and its stack still hangs together |
| `CursorFixup.FixUp` | neumolmdb/mdb.c:9048-9078 | the loop adjusts every other tracked cursor and no other |
| `MidlSort.Sort` | neumolmdb/midl.c:220-279 | the list becomes a descending permutation of itself unless the sum of a segment's ends overflows an int; 64 stack entries suffice for every length an int can hold |
| `MidlSort.SumsFit` | neumolmdb/midl.c:245-245 | no segment that is partitioned has ends whose sum overflows an int if and only if the list has at most 2^30 + 3 elements |
| `MidlSort.Partition` | neumolmdb/midl.c:244-266 | the segment is permuted into elements at least, equal to and at most the pivot; no scan leaves it |
| `MidlSort.InsertionSort` | neumolmdb/midl.c:232-240 | the segment is sorted without moving anything across its left edge |
| `MidlSort.ShallowStack` | neumolmdb/midl.c:267-276 | since the larger part is stacked, a segment long enough to be divided is at depth below 28 |
| `MidlSort.Divided` | neumolmdb/midl.c:244-276 | partitioning replaces a pending segment by two that are settled between everything left and right of them |
| `MidlSort.Finished` | neumolmdb/midl.c:232-243 | sorting the last pending segment leaves every neighbour outside the others in order |
| `Midl.Search` | neumolmdb/midl.c:34-67 | finds the ID, or the place that separates larger from smaller ones |
| `Midl.Xmerge` | neumolmdb/midl.c:201-213 | the list stays descending and gains exactly the merged IDs; the sentinel ends every scan |
| `Midl.Idl.Need` | neumolmdb/midl.c:143-155 | grows exactly when there is no room, to a quarter more than needed in blocks of 256 words, contents unchanged |
| `Midl.Idl.AppendRange` | neumolmdb/midl.c:185-199 | exactly the run id .. id + n - 1 is appended, highest first; grows exactly when there is no room, by n with the low 17 bits set |
| `Midl.CountdownFalls` | neumolmdb/midl.c:185-199 | a run below everything in the list keeps it descending |
| `FreeRun.FindRun` | neumolmdb/mdb.c:2474-2486 | the end-difference test finds a run of num pages if and only if the list has one, the last such |
| `FreeRun.RemoveRun` | neumolmdb/mdb.c:2600-2604 | the slots of the run are cut out of the list |
| `FreeRun.RunRemoved` | neumolmdb/mdb.c:2600-2604 | exactly the pages of the run are gone and the list stays strictly descending |
| `FreeRun.ScanRecord` | neumolmdb/mdb_stat.c:181-190 | reports a bad sequence exactly for records not strictly descending above page 1, otherwise the longest run |
| `FreeRun.SpanIsSatisfiable` | neumolmdb/mdb_stat.c:183-192 | exactly the requests up to the reported span can be met by the allocator's search |
| `FreelistSave.Reserve` | neumolmdb/mdb.c:3553-3592 | the reservation loop ends, uses only keys in [1, me_pglast] and reserves exactly mop_len slots |
| `FreelistSave.HeadRoom` | neumolmdb/mdb.c:3566-3577 | a shared load gets the least room in multiples of what one overflow page holds for which head_id such records take everything |
| `FreelistSave.Fill` | neumolmdb/mdb.c:3616-3642 | the list is cut into consecutive slices from its low end, each within its record's room, nothing left over, the list restored |
| `FreelistSave.SavedIsPartition` | neumolmdb/mdb.c:3616-3642 | the records are disjoint, strictly descending, and together exactly the list: what the protocol asks of a saved freelist |
| `FreelistSave.SaveHead` | neumolmdb/mdb.c:3553-3642 | reserving and filling together store me_pghead as such a partition |
| `CompactCopy.CWalk` | neumolmdb/mdb.c:10063-10218 | the walk with its explicit stack computes the recursive copy |
| `CompactCopy.CopyNumbers` | neumolmdb/mdb.c:10194-10212 | pages are numbered consecutively in post-order, overflow runs included, the root last |
| `CompactCopy.CopyMeaning` | neumolmdb/mdb.c:10063-10218 | the copy is the original up to page numbers and uses as many pages |
| `PageTree.CountIsCounters` | neumolmdb/mdb.c:1165-1174 | the page numbers below a root are as many as branch, leaf and overflow pages are counted |
| `CompactCopy.CompactedFile` | neumolmdb/mdb.c:10291-10328 | started at page 2 the copy occupies exactly the pages 2 .. root |
| `CopyCommitted.RootAsPredicted` | neumolmdb/mdb.c:10295-10325 | for every snapshot of every run the walk arrives at the root number predicted from the records and page counts if and only if the two core trees leak no page |
| `CopyCommitted.CopyOfCommitted` | neumolmdb/mdb.c:10291-10328 | the copy of such a snapshot is the same database and fills the pages from 2 on, one for each page that was neither free nor part of the freeDB |
| `DropDb.LevelsPartition` | neumolmdb/mdb.c:10802-10890 | every page of a database is a page of one level or an overflow page of one leaf, once |
| `DropDb.OwnAndSub` | neumolmdb/mdb.c:10802-10890 | the pages a drop frees and those of the sub-databases are all pages below the root, each once |
| `DropDb.ChildrenOfLevel` | neumolmdb/mdb.c:10858-10867 | the children listed along one level are the pages of the next |
| `DropDb.FreeOverflow` | neumolmdb/mdb.c:10830-10854 | the leaf pass lists all overflow pages although it stops when md_overflow_pages is used up |
| `DropDb.Drop` | neumolmdb/mdb.c:10802-10890 | every page of the database is freed exactly once |
| `DumpFormat.PrintByte` | neumolmdb/mdb_dump.c:77-88 | the loop prints the line of the byte string |
| `DumpFormat.UnhexHex` | neumolmdb/mdb_load.c:161-173 | unhex undoes hex for every byte |
| `DumpFormat.HexSorts` | neumolmdb/mdb_dump.c:52-56 | the digits are 0-9 and a-f, the high one first, so that printed bytes sort as the bytes do |
| `DumpFormat.DecodedHex` | neumolmdb/mdb_load.c:254-272 | printing what a line decodes to gives the line back up to the case of its letters |
| `DumpFormat.DecodeInPlace` | neumolmdb/mdb_load.c:254-272 | accepts exactly even-length runs of hex digits and leaves the decoded bytes at the front of the same buffer |
| `DumpFormat.GetLine` | neumolmdb/mdb_load.c:200-231 | the doubling loop collects exactly one line, whatever the buffer's size |
| `DumpFormat.ReadLine` | neumolmdb/mdb_load.c:175-272 | succeeds exactly on a blank followed by an even number of hex digits and a newline |
| `DumpFormat.PrintedLineReads` | neumolmdb/mdb_load.c:175-272 | whatever follows, a printed line reads back as its byte string and nothing more is consumed |
| `DumpFormat.Load` | neumolmdb/mdb_load.c:175-272 | reading all lines of a dump gives back the byte strings that were printed |

## Left out

- `MDB_WRITEMAP`, `MDB_NOLOCK`, `MDB_NOSYNC`, `MDB_PREVSNAPSHOT` and read-only environments: they change or weaken the protocol's assumptions.
- mmap, file locks, mutexes, fsync behaviour, threads of the copy, Windows and `MDB_VL32` code: the writer mutex is exclusion, the meta write and a reader's meta copy are single steps.
- `DUPSORT` databases, sub-pages, `LEAF2` pages and xcursors: the main-tree argument repeated with more cases.
- Out-of-memory and I/O errors, `MDB_MAP_FULL`, `MDB_TXN_FULL`: a failed operation leaves the transaction with its error flag, and an abort follows.
- The text dump format: it prints a backslash unescaped which the reader takes for an escape.
- The GUI, bindings, examples and command-line tools around the store.
- BTree: trees are values, so page aliasing and the order of writes inside one put or delete are not captured; the bytes of single pages are, in `PageOps`.
- BTree: whether an overflow page can be overwritten in place depends on its being dirty and large enough and is an input (`reuse`).
- BTreeTheorems.RunRefines: assumes pages of at least 2048 bytes, so that keys up to 511 bytes obey `me_nodemax`; a run ends where a put or delete was refused, since the transaction then carries its error flag and can only be aborted.
- ProtocolSafety.StepKeeps: a multi-page allocation is one step, as all it changes is private to the writer, and freeDB pages are not distinguished from other tree pages.
- ProtocolSafety.SaveKeeps: the records appear in one step; what the puts of `mdb_freelist_save` touch, allocate and fetch are steps before it, and the records they leave unfinished are in dirty pages nobody else reads.
- NestedProofs.StepKeeps: that fetched pages are in nobody's use is a condition of the step here; it is proved in `ProtocolSafety.RecordUnseen`.
- NestedTheorems.WorkingIsIsolated: an overflow run counts as one page, and the pages of a transaction's databases are given as a set.
- MidlSort.Sort: once the sum of two indices exceeds an int, which C leaves undefined, only that the list is still a permutation is stated.
- FreeRun.FindRun: the retry counter and the fetching of more records around the search are not part of it.
- FreelistSave.Reserve: the puts themselves are taken not to change the freelist; the outer retry when they do is not modelled.
- FreelistSave.SaveHead: the loose pages are taken to be merged into the list already.
- Cursors.Cursor.Set: cursors on an empty database and the empty-page check are not modelled, since a page of a well-formed tree is never empty.
- Cursors.Cursor.Next: a cursor with the flag of a delete is built as the delete leaves it, since the tree under a cursor is fixed; `MDB_NEXT_DUP` is not modelled.
- CursorFixup.CursorSurvives: for cursors whose stack reaches the merged pages' level, as the loop itself requires.
- DropDb.Drop: the step from one page of a level to the next is taken from `Cursors.Cursor.Sibling`; dropping a database leaves the pages of named sub-databases to them, as the code does.
- DumpFormat.ReadLine: input without NUL bytes, and only the lines between header and `DATA=END`.
