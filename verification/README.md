# Eddy's index engine, modelled and proved

Eddy is an on-disk cache: a slab file that holds objects in a circle, and an index file with two copy-on-write
B+trees, a page allocator with a list of freed pages, and a table of connections that lets many processes read without
a lock while one writes. This project models that engine in Dafny and proves what it is built to guarantee.

**The B+tree** (`BptTree` … `Bpt`, `BptCost`, `BptSep`, `BptRun`, `BptCommit`). A page store is a map from page numbers
to leaf and branch pages. An abstract tree and a zipper (the cursor's leaf and the branches above it) say what the store
means; `Txn` is the part of the transaction an edit works on. The class `Bpt.Db` edits the store as `lib/bpt.c` does:
find, set with leaf splits, branch splits and new roots, delete without rebalancing, and the wrapping cursor. Each
method is proved against a function on `Txn`, and that function against the sequence of entries. The results a user of
the tree relies on are these:

- `Db.FindSet`, `Db.FindDel` and, over any sequence of such edits, `Db.Run`: the entries are those of a sorted list with
  the same edits, no page of an older transaction is written, and no page is lost or used twice. An edit succeeds if and
  only if its leaf can be cut and the pages it costs are there, and takes exactly so many (`BptCost`): one for each older
  page on the way down, and one for each split.
- `BptRun.Perform`: any run of find, first, next, set and del, one call at a time, is a run on a sorted list with a
  cursor, where every set follows a search for its key with only sets and dels of that key in between.
- `BptCommit.Index.Transact`: root, xid, slab position and contents of a published header change in a commit after edits
  that all succeeded, and in no other case.
- `Db.NextMany` and `Db.PrevMany`: a walk visits the entries in cyclic order and counts its turns.

Keys are naturals up to `KEY_MAX`; the fan-out of leaves (at least 2) and branches (at least 4) is a parameter.

**The allocator** (`Gc`, `GcWords`, `Alloc`). A chain of gc pages with lists of freed pages, as bytes are laid out in
`lib/pg.c`: what a page promises to hold and what it does hold, allocation, compaction, recycling, and storing freed
pages. `GcWords.GcPage` is a page as the array of its words, written in place, and means a `Gc.Page` after every single
write. `Allocator` keeps every page in one place and hands none out before its transaction has passed. Whether a free
ends or runs into one of the code's assertions is decided by the chain before the call (`Alloc.Completes`).

**The transaction protocol** (`Protocol`, `AllocSteps`, `TxnRuns`, `Slots`, `SlotSteps`). One locked writer and any
number of readers as a state machine of 37 steps, each a single write to shared memory or a single decision. An
invariant is kept by every step. Over every interleaving no page a live reader holds is reused. The file never records a
page in two places, wherever the writer is stopped, but while a list of freed pages is being opened over stale bytes
that name pages: that window is given exactly. Over every run the index keeps exactly the pages it had, less those that
four kinds of steps lose, named with what they lose (`Protocol.Conserved`); what a commit discards is listed under it
(`Protocol.CommitFrees`). `AllocSteps` shows that every allocation and every free is a run of these steps, `SlotSteps`
that `Slots.Xmin` is, `TxnRuns` that whole transactions can run and what they leave, and `BptCommit.Publishable` that
what the edits of the trees ensure is what the publishing step demands.

**The slab** (`Leaves`, `Slab`, `SlabWalk`, `SlabCache`, `Object`, `Crc`). Reservation, eviction from both trees, and
publication of objects. The trees are rows of leaves, since a leaf that ran empty stays in the tree and a walk meets
what its first slot still holds. Object data and its checksum do not depend on how the data is cut into writes; the
table-driven CRC-32C is the bitwise one.

**Smaller parts**: in-place path cleaning (`Path`), and the leak check (`Stat`, `BptMark`).

Where the code does not meet a property, the exact condition is proved beside an input that fails:

- the separator of a split leaf: `BptLeaf.HalvesCut`, `BptLeaf.SeparatorTooHigh`;
- the place where a full leaf is cut after steps to the right: `BptLeaf.SplitMoved`, `BptLeaf.RunParted`;
- a replacing set after a del: `BptRun.DelThenSet`;
- the room a gc page promises: `Gc.PromiseKept`, `Gc.PromiseBroken`;
- stopping while a list is opened: `Gc.HalfOpenTags`, `Protocol.NeverShared`, `GcWords.StaleCopy`;
- freeing pages: `Alloc.Allocator.Free`, `Alloc.FreeAborts`, `Alloc.FreeNever`;
- reserving in the slab: `SlabCache.Cache.Create`, `SlabCache.FullTurn`, `SlabCache.EmptiedLeaf`;
- publishing an object: `SlabCache.Cache.Close`, `SlabCache.SameHash`, `SlabCache.EndOfLeaf`;
- cleaning a path: `Path.CleanMeans`, `Path.RootByParent`;
- marking a tree: `BptMark.MarkTree`, `BptMark.NineLevels`;
- reporting leaks: `Stat.Marks.HasLeaks`, `Stat.Survey`, `Stat.PastEnd`.

`dafny verify dfyconfig.toml` checks the project.

## Model

| member | source | states |
|---|---|---|
| Bpt.Db.FindSet | lib/bpt.c:103-187 | find(k) then set of an entry with key k: the entries become the old ones with that entry put before the first key not below k, or in place of the match; the cursor is on it; the tree grows by exactly the predicted number of pages; DUPKEY if and only if the leaf found is full of one key; otherwise it succeeds if and only if the pages it costs are in the supply, and takes exactly these: one for each older page on the way to the leaf found and one for each split, at most twice the height and three; every page taken is a page of the store; older pages are untouched and pages conserved |
| Bpt.Db.FindDel | lib/bpt.c:813-860 | find(k) then del removes exactly the first entry of key k, if there is one, and nothing else; it succeeds if and only if the pages it costs are in the supply, and takes exactly these: none if the leaf found is owned or the key is missing, else one for each older page on the way to it; pages are conserved and older pages untouched |
| Bpt.Db.Run | lib/bpt.c:496-860 | any sequence of edits is the same sequence of edits on a sorted list, with every page conserved and every page of an older transaction as it was; it stops only with the transaction failed; with enough pages, and no key as often as a leaf has room, all edits are done |
| Bpt.CostBound | lib/bpt.c:496-860 | a set costs at most twice the height of the tree and three pages, a del at most the height and one |
| Bpt.FullOfOne | lib/bpt.c:626-661 | after a search the leaf is full and cannot be cut if and only if all its entries have one key |
| Bpt.Crowded | lib/bpt.c:626-661 | a full leaf of one key is a key that often among all entries |
| BptCost.SetNodePaid | lib/bpt.c:496-517 | a climb finishes if and only if there is a page for each older ancestor, takes exactly the first so many of the supply, and leaves no older ancestor |
| BptCost.SetPairPaid | lib/bpt.c:617-623 | both climbs cost what the first does |
| BptCost.InsertPaid | lib/bpt.c:529-624 | the cascade through full branches succeeds if and only if there is a page for each half, for each older ancestor and for a new root, and takes exactly these |
| BptCost.FirstPaid | lib/bpt.c:731-741 | the first entry costs one page |
| BptCost.RoomPaid | lib/bpt.c:751-783 | a put into a leaf with room costs the older pages from the leaf up |
| BptCost.SplitPaid | lib/bpt.c:663-722 | a split costs one page more, and what the cascade costs |
| BptCost.DelPaid | lib/bpt.c:823-850 | a removal from an owned leaf costs nothing, another the older pages from the leaf up |
| BptCost.PriceFrames | lib/bpt.c:529-624 | what the cascade costs is the older branches on the path and the growth find predicts |
| BptSep.RoomKeys | lib/bpt.c:519-527 | an entry that becomes the first of its leaf rewrites the separator before the leaf to its key; no other separator of the branch above changes |
| BptSep.CutEven | lib/bpt.c:549-570 | a full branch is cut into halves of as many children, or one more on the right; their keys with the one that moves up between them are the old ones |
| BptSep.InsertKey | lib/bpt.c:617-623 | the separator between the two halves is the key handed up, at every level |
| BptSep.SplitKeys | lib/bpt.c:663-722 | after a split the right half stands behind its first key, or the key searched for where the cut is at the cursor; an entry that becomes the first of the left half rewrites the separator before it |
| BptRun.Perform | lib/bpt.c:103-860 | any run of find, first, next, set and del as separate calls is a run on a sorted list with a cursor, call by call; pages are conserved and older pages untouched; with enough pages it stops early only at a set while some key fills a leaf, at first without a tree, or at del without an entry |
| BptRun.ReadySettable | lib/bpt.c:785-796 | a set of the key searched for is accepted and safe wherever only sets and dels of that key came after the search, and replaces exactly if asked to on an entry |
| BptRun.SetReady | lib/bpt.c:798-811 | a set leaves the cursor ready for another of the same key |
| BptRun.DelReady | lib/bpt.c:851-859 | so does a del |
| BptRun.DelThenSet | lib/bpt.c:796-796 | a replacing set right after the del of a found entry replaces again: it writes over the entry that followed, and is safe exactly if the leaf has one |
| Bpt.ApplyAt | lib/bpt.c:724-783 | the edit at the lower bound the tree finds is the edit of the sorted list: insertion in front of equals, replacement of the first equal, removal of the first equal |
| Bpt.Db.Find | lib/bpt.c:103-187 | the cursor is at the first entry not below the key, the result is 1 exactly when the key is present, [kmin, kmax] is exactly the window of keys that fit there, and nsplits is the number of pages an insertion would add; in a failed transaction the result is left open |
| Bpt.Db.Set | lib/bpt.c:785-811 | refuses a failed transaction, a missing find and a key outside the window without a change; DUPKEY exactly when the leaf is full and split_point finds no cut; otherwise the entry is in at the cursor's position, counted and conserved as predicted; it costs exactly the older pages on the path and the splits |
| Bpt.Db.Del | lib/bpt.c:813-860 | removes the cursor's entry and no other, keeps all separators valid although none is updated, and leaves a window that is again exact; refuses a failed transaction or a missing find; ends the process exactly when the cursor shows the slot of a leaf without entries; runs out of pages exactly when the supply is shorter than what the removal costs |
| Bpt.Db.constructor | lib/txn.c:107-132 | a transaction begins with the tree the root leads to and no find |
| Bpt.SearchSettable | lib/bpt.c:785-796 | what find leaves behind meets every demand of set for the key searched for |
| Bpt.SearchCut | lib/bpt.c:626-672 | where a search left the cursor, split_point refuses exactly a leaf of one key, and its cut meets what split_leaf asserts |
| Bpt.Db.Own | lib/bpt.c:505-515 | an older page is copied to the next page of the supply and discarded, an owned page is kept; it fails exactly when a copy is needed and the supply is empty |
| Bpt.Db.SetNode | lib/bpt.c:496-517 | the recursive climb is `BptStore.SetNode` |
| Bpt.Db.SetPair | lib/bpt.c:617-623 | left child, separator and right child are hung into the widened branch |
| Bpt.Db.CutInTwo | lib/bpt.c:549-570 | the two halves of a full branch, with the failures of either allocation |
| Bpt.Db.SplitBranch | lib/bpt.c:549-590 | a full branch is cut in the middle and room is shifted into the half that takes the child, as `BptInsert.CutBranch` has it |
| Bpt.Db.AddRoot | lib/bpt.c:536-543 | a new root above the old one |
| Bpt.Db.WidenBranch | lib/bpt.c:596-615 | a branch with room is owned and shifted for one more child |
| Bpt.Db.TakePath | lib/bpt.c:572-593 | the cursor's path goes on through the half that has the room |
| Bpt.Db.InsertIntoParent | lib/bpt.c:529-624 | the recursion through full branches up to a new root is `BptInsert.InsertIntoParent` |
| Bpt.Db.SetLeaf | lib/bpt.c:519-527 | hangs the leaf in and raises its separator when its first entry changed |
| Bpt.Db.PutFirst | lib/bpt.c:731-741 | the first entry of an empty tree |
| Bpt.Db.PutRoom | lib/bpt.c:751-783 | an entry put into a leaf with room, or replaced |
| Bpt.Db.HalveLeaf | lib/bpt.c:677-688 | a full leaf cut in two, the right half on a new page |
| Bpt.Db.FinishSplit | lib/bpt.c:690-719 | the entry goes into the half the cursor is in |
| Bpt.Db.PutSplit | lib/bpt.c:663-722 | the whole leaf split is `BptPut.PutSplit` |
| Bpt.Db.SplitPoint | lib/bpt.c:626-661 | the two scans outward from the middle compute `BptLeaf.SplitPoint` |
| Bpt.Db.InsertIntoEmpty | lib/bpt.c:731-741 | the empty tree becomes one leaf with the entry, for one page, if and only if there is one |
| Bpt.Db.InsertIntoRoom | lib/bpt.c:751-783 | the entries with the new one at the cursor, no page added to the tree; it succeeds if and only if there is a page for each older one on the path, and takes exactly so many |
| Bpt.Db.InsertIntoFull | lib/bpt.c:742-750 | DUPKEY exactly when split_point finds no cut, and then nothing changed; else the entries with the new one at the cursor, if and only if there is a page for each older one on the path and for each split, and exactly so many are taken |
| Bpt.Db.InsertIntoLeaf | lib/bpt.c:724-783 | the three cases together |
| Bpt.Db.Remove | lib/bpt.c:823-850 | the leaf is owned and its entries closed over the cursor's |
| Bpt.Db.TakeOut | lib/bpt.c:823-859 | the entry is gone, everything else, every separator and the page count unchanged; it succeeds if and only if the leaf is owned or there is a page for each older one on the path, and takes exactly so many |
| Bpt.Db.First | lib/bpt.c:371-384 | on the first entry, with an exact window, the walk starting there; on the first slot exactly when the first leaf has no entry; ends the process exactly without a tree |
| Bpt.Db.Last | lib/bpt.c:386-399 | on the last entry, the walk starting there; ends the process exactly without a tree |
| Bpt.Db.StepRight | lib/bpt.c:408-424 | to the next position in cyclic order, the window staying exact; to the slot of a leaf without entries exactly when the next leaf has none |
| Bpt.Db.StepLeft | lib/bpt.c:454-467 | to the previous position in cyclic order |
| Bpt.Db.Visit | lib/bpt.c:426-439 | reports whether what is shown still has the key searched for, and counts a turn exactly when the walk is back at its start |
| Bpt.Db.Next | lib/bpt.c:401-445 | one step forward, onto any leaf: position, match and turn count; KEY_MATCH without a find; nothing on an empty tree |
| Bpt.Db.Prev | lib/bpt.c:447-488 | one step back, likewise |
| Bpt.StepsHave | lib/bpt.c:401-488 | without empty leaves every step, either way, enters a leaf with entries |
| Bpt.Db.NextMany | lib/bpt.c:401-494 | m steps show the m entries after the start in cyclic order and the loop count is m / n, so n steps show every entry once and the count becomes 1 exactly on return |
| Bpt.Db.PrevMany | lib/bpt.c:447-494 | the same backward |
| BptCommit.Index.Open | lib/txn.c:107-132 | the next transaction begins with the tree the header leads to |
| BptCommit.OpenRooted | lib/txn.c:121-132 | what a published header leads to is a tree an edit may start from |
| BptCommit.Index.Commit | lib/txn.c:193-248 | refused without a change of root, xid, slab position and tree once an edit has failed; otherwise all of them become those of the transaction; the tree published before is still stored |
| BptCommit.Index.Close | lib/txn.c:250-258 | without a commit the header leads to the same tree, still stored |
| BptCommit.Index.Transact | lib/txn.c:193-258 | open, any edits, and a commit or not: seen exactly if committed and no edit failed, and then the contents are the edits on the old ones; otherwise root, xid, position and contents are those at open; no page of the published tree is written; the new pages are the old ones less those discarded, and those used; with enough pages, and no key as often as a leaf has room, no edit fails |
| BptCommit.RootedPublished | lib/txn.c:222-235 | a tree that edits left sound is one a header may lead to |
| BptCommit.Accounted | lib/txn.c:201-240 | the pages of the tree after any edits, from the conservation of pages |
| BptCommit.Publishable | lib/txn.c:201-235 | what the commits of the two trees ensure about their pages is what the publishing step of the protocol demands |
| BptFind.BranchSearch | lib/bpt.c:62-75 | the child chosen is the only one whose key range holds the key |
| BptFind.LeafSearch | lib/bpt.c:149-163 | lower bound, match and window within the leaf |
| BptFind.Descend | lib/bpt.c:117-147 | the descent reaches the leaf that may hold the key, with the range the separators leave it and the number of full branches right above it |
| BptFind.Search | lib/bpt.c:103-187 | the whole search on values: lower bound among all entries, presence, exact window, predicted growth, and the empty tree |
| BptFind.FoundAt | lib/bpt.c:149-163 | the lower bound in the leaf is the lower bound among all entries, and the key is in the tree exactly when it is in the leaf |
| BptFind.WindowExact | lib/bpt.c:137-163 | a key is in [kmin, kmax] exactly when an entry of that key can go at the cursor without breaking the leaf's order or a separator |
| BptFind.EqualKeysTogether | lib/bpt.c:626-661 | in every tree that satisfies the invariant equal keys are in one leaf |
| BptTree.FlattenPlug | lib/bpt.c:103-147 | the entries of a tree are those left of the path, those of the leaf and those right of it |
| BptTree.SoundPlug | lib/bpt.c:1104-1144 | fan-out, separator ranges, order and depth of the parts give those of the whole |
| BptTree.StoredPlug | lib/bpt.c:496-517 | pages of a path and of a leaf store the whole tree |
| BptTree.BagPlug | lib/bpt.c:496-517 | pages of the whole are pages of the parts |
| BptOrder.TreeSorted | lib/bpt.c:1072-1144 | separator ranges order all entries of a tree |
| BptOrder.SidesSorted | lib/bpt.c:62-75 | everything left of the path is below its range and everything right of it above |
| BptOrder.LeafLowerBound | lib/bpt.c:149-163 | the lower bound in a leaf is the lower bound in the tree |
| BptWhole.RootedSorted | lib/bpt.c:1072-1144 | the tree under the root is sorted |
| BptWhole.ZipRooted | lib/bpt.c:496-527 | a cursor position restores the whole tree: sound, stored, the same entries and pages |
| BptStore.OwnedKept | lib/txn.c:515-533 | a clone writes no page but the new one |
| BptStore.OwnedLoose | lib/txn.c:515-553 | a clone takes one page from the supply and discards one |
| BptStore.SetNodeClimbed | lib/bpt.c:496-517 | the climb writes only ancestors that this transaction owns or copied, keeps the path's shape, and fails only for want of pages |
| BptStore.SetNodeBag | lib/bpt.c:496-517 | pages on the path, in supply and discarded are conserved by the climb, whether or not it ends |
| BptStore.SetNodeFrames | lib/bpt.c:496-517 | a climb that ends leaves every ancestor owned and pointing at the page below |
| BptInsert.InsertIntoParent | lib/bpt.c:529-624 | however far the split cascades and wherever it stops: only ancestors are written, the path stays valid, and the only failure is running out of pages |
| BptGrow.LeftHoleSound | lib/bpt.c:617-623 | the left of two children put in place of one has a sound path |
| BptGrow.RightHoleSound | lib/bpt.c:617-623 | so has the right one |
| BptGrow.WidenedFrame | lib/bpt.c:596-623 | one more child and separator keep a branch within its order |
| BptGrow.LeftPartSound | lib/bpt.c:549-570 | the left half of a cut branch with the path through it is sound in the range below the middle key |
| BptGrow.RightPartSound | lib/bpt.c:549-570 | the right half likewise above it |
| BptSplit.SplitSound | lib/bpt.c:549-594 | the halves of a cut branch beside each other under their new separator are sound |
| BptSplit.SplitEntries | lib/bpt.c:549-594 | and hold the same entries in the same order |
| BptSplit.SplitBag | lib/bpt.c:549-594 | and the same pages but for the new ones |
| BptInsertFrames.RootInserted | lib/bpt.c:536-543 | a new root keeps entries, order and pages |
| BptInsertFrames.RoomInserted | lib/bpt.c:596-623 | so does a branch with room |
| BptInsertSplit.AgreesSound | lib/bpt.c:572-582 | in a sound tree the comparison that picks the half agrees with the path at every full level |
| BptInsertSplit.InsertIntoParentSound | lib/bpt.c:529-624 | the cascade leaves a sound path around the two children with the same entries at either side, all pages accounted for, and one more page for every full level and for a new root |
| BptLeaf.SplitPointCorrect | lib/bpt.c:626-661 | DUPKEY exactly when all keys are equal, otherwise a cut inside the leaf between two different keys |
| BptLeaf.SplitPointBalanced | lib/bpt.c:626-661 | no other place where the key changes leaves a larger smaller half |
| BptLeaf.SplitMoved | lib/bpt.c:626-661 | after a search and any steps to the right within the leaf: DUPKEY or a cut between different keys as before, unless the cursor has left the run of its key and is taken for its end; then the cut is at a place given by the positions alone, right exactly if the key changes there |
| BptLeaf.RunParted | lib/bpt.c:626-661 | two entries of one key parted by a cursor right behind them |
| BptLeaf.HalvesJoin | lib/bpt.c:690-719 | the two halves after a split are the old entries with the new one at the cursor |
| BptLeaf.HalvesSeparated | lib/bpt.c:663-722 | where a search left the cursor, both halves are sorted, and the separator parts them if and only if not both the cut is at the cursor and the entry is below the key searched for |
| BptLeaf.HalvesCut | lib/bpt.c:663-722 | the same for every cut that meets the assertions of split_leaf, wherever the cursor is |
| BptLeaf.SeparatorTooHigh | lib/bpt.c:670-672 | an entry within the window for which the separator is wrong |
| BptSet.SetLeafZip | lib/bpt.c:519-527 | set_leaf restores a sound stored tree around the leaf, its separator raised, other entries and all pages kept |
| BptPut.PutRoomZip | lib/bpt.c:751-783 | inserting or replacing in a leaf with room leaves a sound stored tree with that leaf changed and no other entry |
| BptPutSplit.HalvesSound | lib/bpt.c:685-719 | each half is a sound leaf in its half of the range |
| BptPutSplit.PutSplitStands | lib/bpt.c:663-722 | a leaf split with its cascade leaves a sound stored tree with the entry in place, pages conserved, grown by one plus the full levels above |
| BptOutcome.FirstOutcome | lib/bpt.c:731-741 | the first entry makes a tree of one page |
| BptOutcome.RoomEdited | lib/bpt.c:751-783 | among all entries, an edit in a leaf with room changes one position and adds no page |
| BptOutcome.SplitEdited | lib/bpt.c:663-722 | among all entries, a split inserts at the cursor's position, and adds what find predicted |
| BptOutcome.DelCareful | lib/bpt.c:823-850 | del writes no older page, and fails only for want of pages |
| BptOutcome.DelZip | lib/bpt.c:823-850 | del leaves a sound stored tree, the ranges of all separators as they were, without that entry |
| BptOutcome.FindKmaxPath | lib/bpt.c:201-211 | the climb of find_kmax ends at the upper bound the separators leave the leaf |
| BptEdit.PutFirstCareful | lib/bpt.c:731-741 | copy-on-write for the first entry |
| BptEdit.PutRoomCareful | lib/bpt.c:753-777 | copy-on-write for an edit in a leaf with room, ended or failed |
| BptEdit.SplitCareful | lib/bpt.c:670-722 | copy-on-write for every split that passes the assertions of split_leaf, its separator right or not, and for its cascade, ended or failed at any allocation |
| BptEdit.SnapshotKept | lib/txn.c:201-204 | a committed tree is still stored, page for page, after any copy-on-write edits, so dropping them restores it |
| BptWalk.MoveFirst | lib/bpt.c:222-252 | down to the first leaf below a page, with the exact upper bound there |
| BptWalk.MoveLast | lib/bpt.c:263-293 | down to the last leaf below a page, and its last key if it has one |
| BptWalk.UpperKey | lib/bpt.c:201-211 | the loop of find_kmax |
| BptWalk.MoveRight | lib/bpt.c:302-331 | up while at the last child, then over and down: the next leaf, or the first after the last, with its exact window, entries or not |
| BptWalk.MoveLeft | lib/bpt.c:340-369 | the previous leaf, or the last before the first; kmin is its last key if it has one, and kmax the separator in front of the subtree moved into, not the one behind it |
| BptWalk.SidesHave | lib/bpt.c:302-369 | without empty leaves the leaf after and the leaf before have entries |
| BptWalk.ZipStart | lib/bpt.c:436-438 | the page and index at which a walk started name one position among all entries |
| BptWalk.EmptyPage | lib/bpt.c:436-438 | no entry is on the page of a leaf without entries, so a walk counts no turn there |
| BptMark.MarkChild | lib/bpt.c:866-881 | one child and what is below it, as deep as the code still looks |
| BptMark.MarkChildren | lib/bpt.c:862-884 | the pages down to the eighth level, although children are no longer mapped once a leaf has fixed the depth |
| BptMark.MarkTree | lib/bpt.c:886-895 | the pages marked are those down to the eighth level of branches and their children, which is the multiset of pages of the tree if and only if it has at most eight such levels |
| BptMark.NineLevels | lib/bpt.c:886-895 | a tree in order, of nine levels of branches with one key each, that is not marked whole |
| BptMark.ShallowWhole | lib/bpt.c:886-895 | the first d levels are the whole tree exactly when there are no more than d levels of branches |
| BptMark.SoundUniform | lib/bpt.c:1104-1144 | in a tree that satisfies the invariant all leaves are equally deep |
| Gc.RemainLast | lib/pg.c:167-176 | on a page with a list the bytes left are in range and a multiple of four |
| Gc.NextOk | lib/pg.c:214-249 | opening a list keeps the page well formed and everything listed, in order |
| Gc.HalfOpenTags | lib/pg.c:238-247 | stopped after the write that counts a new list and before its header is written, the page lists what it listed if and only if the header found there counts no page; else also the pages behind it |
| Gc.PromiseKept | lib/pg.c:196-249 | the promise is kept if and only if not: the page has no list, the stale header there is not older than the transaction, and the room is too small for a list header; with a list the promise is exact |
| Gc.PromiseBroken | lib/pg.c:196-206 | a well-formed page that promises three pages and takes none |
| Gc.FillOk | lib/pg.c:568-574 | filling appends the pages to the last list under its transaction |
| GcWords.GcPage.constructor | lib/pg.c:257-265 | a page of zeros means a page without lists |
| GcWords.GcPage.Room | lib/pg.c:167-176 | the bytes left, from the words, or negative where the assertion trips |
| GcWords.GcPage.PagesFor | lib/pg.c:196-206 | the promise, from the words |
| GcWords.GcPage.CountList | lib/pg.c:233-244 | the first write of gc_list_next: the words then mean the half-open page, with the stale pages found there |
| GcWords.GcPage.NextList | lib/pg.c:214-249 | pages join the last list unless they were freed after it, if four bytes are left; else they get a list of their own, if sixteen are; after all writes the words mean the page with that list; words behind the lists that were zero still are |
| GcWords.GcPage.Append | lib/pg.c:568-572 | pages copied behind the last list and counted fill it |
| GcWords.GcPage.Compact | lib/pg.c:520-526 | the words copied to the front and the state after them mean the moved page |
| GcWords.CopiedMeans | lib/pg.c:522-522 | copying the lists to the front changes nothing while the state leads to the old copy |
| GcWords.CompactedMeans | lib/pg.c:520-526 | once it leads to the front the page is the moved one, and behind its lists stands what stood behind them, as far as it was copied |
| GcWords.OldCopy | lib/pg.c:522-522 | a list in the second half of the page is still there after compaction |
| GcWords.CopiedBehind | lib/pg.c:571-571 | pages copied behind a list mean nothing before they are counted |
| GcWords.FilledMeans | lib/pg.c:571-572 | once they are, they fill it |
| GcWords.OpenedMeans | lib/pg.c:239-247 | the writes that open a list, all done |
| GcWords.BlankJunk | lib/pg.c:263-263 | on words that are zero behind the lists, as on a page never compacted, a header found there counts no page |
| GcWords.StaleCopy | lib/pg.c:238-247 | a page from which 510 pages were taken, then 406 freed after a compaction: the next list is opened over the old copy of a list of 100 pages, and stopped there the page lists them twice |
| Alloc.TakeList | lib/pg.c:419-443 | takes pages from the front of the first list, in order, and drops it when used up |
| Alloc.Take | lib/pg.c:376-444 | taken pages and what stays listed are what was listed, in order; only lists older than xmin are touched; it stops short only at a list that is too young or at the end |
| Alloc.SortPages | lib/pg.c:446-447 | the pages in order, none added or lost |
| Alloc.Allocator.TailPages | lib/pg.c:143-165 | exactly the next pages of the file, which grows in whole steps |
| Alloc.HandedApart | lib/pg.c:366-471 | the chain, its lists, the pages handed out and the tail stay apart, and together are what they were |
| Alloc.HandedGate | lib/pg.c:419-421 | each page taken from a list was freed by a transaction older than xmin, or under none |
| Alloc.HandedFirst | lib/pg.c:376-463 | pages come from lists under no transaction or one below xmin, and the file grows only once the chain has no such list |
| Alloc.Allocator.Alloc | lib/pg.c:366-471 | exactly npg different pages, none in use, none freed too recently; everything else stays in one place; what is left of the chain is a function of the chain before; more than 1024 are refused without a change |
| Alloc.LeftTrimmed | lib/pg.c:376-444 | an allocation keeps the last gc page and only uses up lists from its front |
| Alloc.LeftOk | lib/pg.c:376-444 | an allocation takes no more pages and gc pages together than it is asked for |
| Alloc.Allocator.Compact | lib/pg.c:516-526 | moving the lists to the front of the page keeps them, and only that page changes |
| Alloc.Allocator.Room | lib/pg.c:507-530 | the last gc page is moved exactly when one fresh page is needed and half of it is unused; then how many fresh pages are needed is counted again, unless there is no room for a list header, exactly when it aborts; what is listed does not change |
| Alloc.SeenIs | lib/pg.c:507-530 | one fresh page for each 1015 pages that do not fit; the page is moved exactly where at most one is needed and its lists begin in its second half |
| Alloc.FillLast | lib/pg.c:568-574 | as many pages as fit, in order |
| Alloc.StoreFresh | lib/pg.c:546-575 | freed pages spread over new gc pages, in order, each under its transaction; it succeeds exactly when there are enough |
| Alloc.Store | lib/pg.c:546-578 | the last page is filled first, then new ones: all stored once, in order, under their transaction or in the last list if that is younger, exactly when the new pages suffice |
| Alloc.Allocator.StoreAll | lib/pg.c:546-578 | the same on the allocator, with every page in one place |
| Alloc.Allocator.Free | lib/pg.c:493-581 | all pages stored once, in order, behind what was listed, under their transaction or in the last list if that is younger, if and only if the chain before the call, after the allocation in between, leaves the last page a list or room that was promised; refused if and only if too many gc pages would be needed; else aborted; in every case no page is in two places |
| Alloc.FreeCompletes | lib/pg.c:507-578 | on a page with a list the pages set aside are exactly those used |
| Alloc.CompletesBy | lib/pg.c:507-578 | the condition of Free says that the loop finds room for a header and uses exactly the fresh pages set aside |
| Alloc.ListedCompletes | lib/pg.c:507-578 | it is met whenever the chain holds more than the fresh pages needed |
| Alloc.EmptyCompletes | lib/pg.c:507-578 | for a chain of one page without a list it is met if and only if that page, moved or not, keeps its promise |
| Alloc.FreeAborts | lib/pg.c:577-578 | a gc page whose one list of 247 pages was used up: freeing 765 pages promises four less than the page takes, and one fresh page stays unused |
| Alloc.FreeNever | lib/pg.c:196-206 | a gc page whose one list of 1013 pages was used up: every later free aborts |
| Protocol.InitKept | lib/idx.c:248-380 | a new index satisfies the invariant |
| Protocol.ReadXidKept | lib/idx.c:449-449 | a reader reads the header's xid |
| Protocol.StoreXidKept | lib/idx.c:449-449 | and stores it, possibly late: no page it may come to hold is freed for reuse |
| Protocol.LoadRootKept | lib/idx.c:470-481 | a root loaded after the slot is set is guarded by the slot, even between the two writes that publish |
| Protocol.ReleaseKept | lib/idx.c:454-463 | a reader lets go |
| Protocol.JoinKept | lib/idx.c:184-210 | a slot is taken over from a process that is gone, with what it lists as pending |
| Protocol.DieKept | lib/idx.c:218-229 | a reader that ends anywhere leaves its slot |
| Protocol.LockKept | lib/txn.c:115-132 | one writer at a time |
| Protocol.ClearActiveKept | lib/txn.c:138-141 | pages of an abandoned transaction leave the active list before they are freed |
| Protocol.RestoreKept | lib/txn.c:142-146 | if they cannot be freed, those not freed are listed as active again |
| Protocol.ClearPendingKept | lib/txn.c:150-168 | pending pages leave their list and are freed or kept, never both |
| Protocol.SetActiveKept | lib/txn.c:169-175 | the transaction's pages are listed as active |
| Protocol.UseKept | lib/txn.c:488-498 | a page of the transaction becomes part of the new trees |
| Protocol.DiscardKept | lib/txn.c:535-553 | a page of the published trees is set aside to be freed |
| Protocol.MarkActiveKept | lib/txn.c:474-485 | new pages are listed as active as far as they fit |
| Protocol.StartScanKept | lib/idx.c:416-417 | the scan starts at the last commit |
| Protocol.ScanSlotKept | lib/idx.c:422-433 | the minimum stays below every version a live reader holds or may come to hold |
| Protocol.ScanDeadKept | lib/idx.c:424-431 | only a slot whose owner is gone is wiped |
| Protocol.TakeKept | lib/pg.c:419-443 | a listed page is staged only if no live reader may need it |
| Protocol.RecycleKept | lib/pg.c:391-417 | an emptied gc page is staged |
| Protocol.GrowKept | lib/pg.c:143-165 | a page is staged from the end of the file |
| Protocol.StoreStateKept | lib/pg.c:460-460 | the lists of the gc page reached lose their staged pages when its state is written |
| Protocol.EndAllocKept | lib/pg.c:461-463 | the chain begins at that page in a later write, which takes the staged pages in front of it out of the lists and the chain |
| Protocol.LinkKept | lib/pg.c:549-566 | a gc page is appended |
| Protocol.OpenListKept | lib/pg.c:238-244 | a list is counted before its header is written, and seems to hold what was left there |
| Protocol.StoreHeaderKept | lib/pg.c:246-247 | its header is written |
| Protocol.ListKept | lib/pg.c:568-574 | a page is listed under its transaction or a later one |
| Protocol.DropKept | lib/pg.c:532-538 | a free that fails may lose pages but not share them |
| Protocol.FlushKept | lib/txn.c:210-220 | the active list is flushed before the pages are published |
| Protocol.PublishRootsKept | lib/txn.c:222-233 | both roots change in one write, before the xid; the pages are those `BptCommit.Publishable` gives; `Protocol.CommitFrees` says where the discarded ones go |
| Protocol.PublishXidKept | lib/txn.c:234-240 | the xid follows |
| Protocol.FreedKept | lib/txn.c:316-317 | closing flushes the active list |
| Protocol.CancelKept | lib/txn.c:254-258 | closing without a commit gives up the new pages only |
| Protocol.KeepKept | lib/txn.c:319-338 | pages left over are listed as pending or freed, never both |
| Protocol.ReadFlushKept | lib/txn.c:298-317 | a transaction that only read takes the lock to close if it has pages left, and flushes the active list |
| Protocol.ReadKeepKept | lib/txn.c:319-338 | its pages are listed as pending again or freed, never both |
| Protocol.UnlockKept | lib/txn.c:340-340 | the lock is given up, after a close or when opening failed |
| Protocol.CrashKept | lib/txn.c:129-340 | the writer may end after any write but the first of the two that publish, and the one that opens a list over stale pages |
| Protocol.StepKept | lib/txn.c:107-377 | every step keeps the invariant |
| Protocol.RunKept | lib/txn.c:107-377 | so does every run |
| Protocol.ReadersSafe | lib/pg.c:366-471 | over every interleaving from a new index, a page in a version a live reader holds is not being handed out, not in the writer's hands for writing, not a gc page and not unused |
| Protocol.NeverShared | lib/txn.c:129-340 | stopped at any point, the file records a page in at most one of the trees, the free lists, the gc chain, the active list, one pending list and the tail, and a page is recorded twice if and only if a list is being opened over stale bytes that name it and it is recorded elsewhere |
| Protocol.UnlockedSettled | lib/pg.c:238-247 | over every run no stale pages are named unless a writer is between these writes, so whoever takes the lock finds none |
| Protocol.Unpublished | lib/txn.c:227-235 | over every run the versions published before stay as they were, later ones come behind them, and trees and xid change only in the two steps that publish |
| Protocol.StepKnown | lib/txn.c:107-377 | after each of the steps the index, with the writer, has exactly the pages it had without those the step loses, and these it had |
| Protocol.Conserved | lib/txn.c:107-377 | over every run the pages known are exactly those before without those the steps lose: what a writer that ends has in hand and not in the active list, what a failed free or allocation has in hand, what a wiped slot lists as pending, and the active list of an abandoned transaction when one that only read closes |
| Protocol.NoneLost | lib/txn.c:107-377 | a run without such steps loses no page |
| Protocol.CommitFrees | lib/txn.c:222-240 | from the write of the roots on, whatever readers do, each page of the old trees that is not in the new ones is still to be freed or is listed under the transaction that committed or a later one; so once the free has ended it is listed |
| TxnRuns.OpenRuns | lib/txn.c:107-190 | whenever there is no writer a live connection can open a transaction; pages of an abandoned one and pending ones are then free under no transaction, unless its own transaction still has them |
| TxnRuns.EditRuns | lib/txn.c:460-553 | it can take any number of new pages, use any of its pages and do without any of the published trees |
| TxnRuns.CloseRuns | lib/txn.c:193-345 | it can commit and close: header, versions, lists and slot are then exactly these |
| TxnRuns.CommitRuns | lib/txn.c:107-345 | the whole of it from any state without a writer: the next xid and the new trees are published, the discarded pages are listed under that xid, every page it had and did not use is free, and nothing else has changed |
| TxnRuns.CancelRuns | lib/txn.c:250-345 | closed without a commit, header and versions are as they were, and all its pages are pending or free |
| TxnRuns.ReadCloses | lib/txn.c:298-345 | a connection that only read can close, keeping some of its pages as pending and freeing the others |
| TxnRuns.RestoreRuns | lib/txn.c:134-148 | when the active list cannot be freed, opening fails with everything as it was |
| TxnRuns.DropLetsGo | lib/pg.c:532-538 | a failed free or allocation lets go of what it has in hand, and lists and chain stay |
| TxnRuns.ScanAgain | lib/pg.c:366-376 | after every allocation, finished or not, the slots are scanned anew before another page is taken |
| TxnRuns.ReaderSees | lib/idx.c:437-481 | a reader that takes its slot and loads a root holds exactly that tree of the version published last |
| TxnRuns.ReaderLeaves | lib/idx.c:454-463 | once it lets go it holds nothing, and must read the header again before it takes its slot |
| TxnRuns.TakenOver | lib/idx.c:184-210 | whoever takes over a slot begins without a snapshot and without pages, but for those listed as pending |
| TxnRuns.EndedSlot | lib/idx.c:184-229 | after a process ends its slot can be taken over with what it lists as pending, and its lock by another |
| AllocSteps.AllocRuns | lib/pg.c:366-464 | every allocation is a run of the steps: the file shows the chain before, the chain between its two writes and the chain that `Alloc.Allocator.Alloc` leaves, and the pages handed out are in the writer's hands |
| AllocSteps.StoreRuns | lib/pg.c:545-575 | so is storing freed pages, whatever the order of its writes, to the chain that `Alloc.Store` leaves |
| AllocSteps.OpenShown | lib/pg.c:238-244 | the pages the file seems to list while a list is opened are those of `Gc.HalfOpen` |
| Slots.Xmin | lib/idx.c:409-435 | the result is below the header's xid and at most every transaction read in the table; it is one below the header's or one read there; exactly the slots are cleared that are not its own, have no owner, and are more than sixteen transactions behind or stamped within the last ten seconds, as the unsigned comparison has it |
| SlotSteps.ScanRuns | lib/idx.c:409-435 | the scan slot by slot with the steps of the protocol ends with the minimum and the table that `Slots.Xmin` leaves |
| Leaves.FoundAt | lib/bpt.c:149-163 | the lower bound in the leaf a search ends in is the lower bound among all entries |
| Leaves.EqualInLeaf | lib/bpt.c:103-163 | all entries of a key are in the leaf a search for it ends in |
| Leaves.RemovedFlat | lib/bpt.c:836-843 | a removal takes one entry and leaves the leaf in the tree |
| Leaves.Put | lib/bpt.c:724-783 | an insertion into a leaf or a half of it puts the entry at its place among all, refuses it or fails an assertion of split_leaf, as the leaf, the place and the matches decide |
| Leaves.SetEndNew | lib/bpt.c:626-672 | a key not in the leaf is refused exactly if the leaf is full of one key |
| Leaves.SetEndBehind | lib/bpt.c:626-672 | behind a run of its own key an entry fits a full leaf exactly unless the cut falls right there or parts entries of one key |
| Slab.TargetFits | lib/cache.c:162-171 | a reservation is at the least place from the cursor on where it does not wrap around the end of the slab: at the cursor if it fits there, else at the start of the next turn |
| Slab.SparedIs | lib/cache.c:206-236 | what a reservation leaves is exactly the entries that do not overlap it |
| Slab.ClosedExact | lib/cache.c:247-285 | the keys after publishing are exactly the old ones without those of the object, and its own |
| Slab.CursorAfter | lib/cache.c:525-540 | the write cursor after a reservation is its end, or the start of the slab |
| SlabWalk.DropKey | lib/cache.c:213-227 | exactly the key entry that points at the evicted block is removed |
| SlabWalk.EvictOne | lib/cache.c:206-236 | a block entry and its key entry go together |
| SlabWalk.Evict | lib/cache.c:199-236 | the loop removes exactly the overlapped block entries and their key entries, if and only if the walk is not led onto a leaf without entries whose first slot still holds an overlapped entry |
| SlabWalk.TrappedAt | lib/bpt.c:302-331 | the walk is led there exactly when some leaf ahead is such a leaf, or will be once emptied, and all entries up to it overlap |
| SlabCache.StuckFull | lib/cache.c:206-236 | in a tree without empty leaves that is exactly when every entry overlaps |
| Slab.SparedRun | lib/cache.c:206-236 | the overlapped entries are one run |
| Slab.CreateSound | lib/cache.c:146-245 | after a reservation entries and reservations are disjoint, inside the slab and not cut by the cursor, both trees agree, and no entry points into the region |
| SlabWalk.FindKey | lib/cache.c:266-280 | the entry whose key is the object's among all of its hash, or none has that key |
| SlabWalk.SeatOk | lib/cache.c:266-282 | where the loop ends without a match a new entry keeps the order |
| SlabCache.KnownKey | lib/cache.c:266-282 | an object under a key that is known, and the first object, are never refused |
| SlabCache.NewHash | lib/cache.c:266-282 | a hash of no other object is refused only by a leaf full of one hash |
| SlabCache.SameHash | lib/cache.c:266-282 | behind other objects of its hash an entry is taken, unless a full leaf is cut right there or between equals (an assertion), or they end their leaf: then it is refused, but in a tree of one leaf of that hash only |
| SlabCache.EndOfLeaf | lib/cache.c:266-282 | an object of the same hash at the end of a leaf, and the new one refused |
| SlabCache.PutBlock | lib/cache.c:259-264 | a new block entry always fits, in its place among all |
| SlabCache.PutKey | lib/cache.c:266-284 | the key entry put or replaced, or refused exactly as the two lemmas above say |
| Slab.CloseSound | lib/cache.c:247-285 | publishing adds one block entry, makes the object the only one under its key, and keeps everything else and the invariant |
| Slab.ClosedLookup | lib/cache.c:247-285 | afterwards the key leads to the new object, and other keys to theirs |
| Slab.DiscardSound | lib/cache.c:765-776 | giving up a reservation keeps the invariant |
| SlabCache.Cache.constructor | lib/cache.c:287-311 | an empty cache |
| SlabCache.Cache.Create | lib/cache.c:146-245 | reserves at the cursor, or at the start of the next turn where the object does not fit before the end; exactly what overlaps is gone, and the keys that named it; the region has the object's header and the cursor is behind it; it goes wrong exactly when the walk over the block tree is led onto an emptied leaf that seems to overlap |
| SlabCache.FullTurn | lib/cache.c:206-236 | a sound slab in which it does, since every entry overlaps |
| SlabCache.EmptiedLeaf | lib/bpt.c:237-247 | a sound slab in which it does although an entry does not overlap: a leaf emptied before lies on the way |
| SlabCache.Cache.Close | lib/cache.c:713-763 | the reservation becomes a block entry and the only entry of its key, the entries of other keys and all blocks as they were; or it is given up with both trees unchanged, exactly as the key tree takes the entry or not |
| SlabCache.Cache.Discard | lib/cache.c:765-776 | the reservation is given up, nothing else changes |
| Object.CutAnywhere | lib/cache.c:123-138 | two writes leave the same bytes, checksum and padding as one |
| Object.WrittenHolds | lib/cache.c:123-138 | where each byte of a write stands, what is before and behind it, and the checksum |
| Object.Writer.Write | lib/cache.c:668-685 | read-only and oversized writes are refused without a change; otherwise the bytes stand at the position, all others are as they were or, once the object is complete, zero behind its end; the running checksum goes on over them and is stored at the end |
| Object.Writer.WriteAll | lib/cache.c:668-685 | however the data is cut into writes, all of it stands in the region in order and the result is that of one write; an object written from start to end has the checksum of its bytes stored |
| Crc.ShiftLinear | lib/hash.c:366-379 | the shift register is linear |
| Crc.ShiftSum | lib/hash.c:366-379 | shifting a sum over the bits of a byte shifts what the bits stand for |
| Crc.Table3Ok | lib/hash.c:331-364 | the fourth table is the register shifted by one byte, for all 256 entries |
| Crc.Table2Ok | lib/hash.c:298-331 | the third by two bytes |
| Crc.Table1Ok | lib/hash.c:265-298 | the second by three bytes |
| Crc.Table0Ok | lib/hash.c:232-265 | the first by four bytes |
| Crc.Lookup4Ok | lib/hash.c:372-379 | four table lookups shift by four bytes |
| Crc.Lookup1Ok | lib/hash.c:366-370 | one table lookup is one byte of CRC-32C |
| Crc.FourBytes | lib/hash.c:372-379 | four bytes at once are four bytes one by one |
| Crc.FoldFour | lib/hash.c:396-407 | the word loop continues the byte loop |
| Crc.Resume | lib/hash.c:381-416 | a checksum resumed over two buffers is that of their concatenation |
| Crc.Checksum | lib/hash.c:381-416 | for every buffer and alignment the result is the CRC-32C of section 12.1 of RFC 3720, bit by bit |
| Crc.Residue | lib/hash.c:381-416 | the checksum of any data followed by its own checksum is 0x48674bc7, whatever the data |
| Crc.OneLetter | lib/hash.c:381-416 | the checksum of the letter a is 0xc1d04330 |
| Path.Back | lib/path.c:73-76 | back to the slash before the last element, not below the floor |
| Path.Copy | lib/path.c:95-98 | an element moves to the front without touching an unread byte |
| Path.AppendDots | lib/path.c:77-85 | a leading ".." |
| Path.AppendElem | lib/path.c:89-99 | a slash where one is needed, and the element |
| Path.Parent | lib/path.c:70-87 | a ".." element drops the last one, is kept, or is lost at the root |
| Path.Child | lib/path.c:89-99 | any other element is appended |
| Path.CleanPath | lib/path.c:48-105 | in place, the buffer holds the cleaned path, also for length 0 in front of a slash; nothing behind the input is written, no unread byte is overwritten |
| Path.CleanIs | lib/path.c:48-105 | what is written when all is read is the cleaned path |
| Path.ResolveGood | lib/path.c:48-105 | a resolved path has no "." and no empty element, and ".." only at its front and only when relative |
| Path.CleanTwice | lib/path.c:48-105 | cleaning is idempotent |
| Path.CleanMeans | lib/path.c:48-105 | from every directory the cleaned path leads where the path leads, if and only if it is not a rooted path that ".." takes back to the root, unless that is where one stands |
| Path.CleanShape | lib/path.c:48-105 | the cleaned path is ".", "/" or its elements joined by slashes, rooted as before, with no ".", no empty element, and ".." only at the front of a relative one |
| Path.ResolveLeads | lib/path.c:48-105 | the resolved elements lead where all the elements lead, from every directory |
| Path.RootByParent | lib/path.c:102-104 | "/a/.." becomes "." |
| Stat.FullByte | lib/stat.c:132-132 | a byte is full exactly when its eight pages are marked |
| Stat.FullWord | lib/stat.c:129-131 | a word is full exactly when its eight bytes are |
| Stat.PartByte | lib/stat.c:133-134 | the last byte matches exactly when its pages and no others are marked |
| Stat.Marks.constructor | lib/stat.c:37-61 | exactly the pages of the header and of the unused end are marked |
| Stat.Marks.SetRange | lib/stat.c:55-61 | a range is marked and nothing else |
| Stat.Marks.Mark | lib/stat.c:113-123 | marks one page, which may be the one past the end, and records a page marked before |
| Stat.Marks.MarkAll | lib/stat.c:72-99 | marks all references, and records each page as often as it was met again |
| Stat.Marks.HasLeaks | lib/stat.c:125-135 | true if and only if a page below the end is unmarked, or the page past the end is marked and shares a byte |
| Stat.Marks.HasLeak | lib/stat.c:137-141 | true if and only if the page is below the end and unmarked |
| Stat.Survey | lib/stat.c:27-135 | over all references of an index: leaks are reported if and only if a page between header and end is referenced by nothing, or the page past the end is referenced and shares a byte; no double is recorded if and only if every page referenced is referenced once and is neither header nor end; each page is recorded as a double exactly as often as it was met again |
| Stat.PastEnd | lib/stat.c:125-135 | every page below the end is named once and the page past the end as well: a leak is reported if and only if the end is inside a byte |

## Left out

- Bpt.Db.Set: an entry must fit the leaf where the cursor stands, and a full leaf must be cut as split_leaf asserts; `BptLeaf.SplitMoved` and `BptLeaf.HalvesCut` say exactly when it is and what the separator then parts. More matches than entries up to the cursor, which steps to the left can count, are not modelled.
- Bpt.Db.Set: a replacing set must stand on an entry; after a del the code replaces the entry that followed.
- Bpt.Db.FindSet: when an allocation fails inside set_leaf or insert_into_parent the code returns success and leaves the transaction failed; the contract says so and promises the contents only for a transaction that has not failed.
- Bpt.Db.Find: in a transaction that has failed the tree may be half changed, and nothing is promised of find and the walks there.
- Bpt.Db.Next: what the first slot of a leaf without entries holds is a parameter; `SlabWalk.Evict` has it as the entry removed last.
- Bpt.Db.Last: the last leaf has an entry; otherwise the code's index is -1 and it reads in front of the page's data.
- Bpt.Db.StepLeft: the leaf it goes to has an entry, for the same reason.
- Bpt.Db.Prev: likewise.
- Bpt.Db.NextMany: a tree without empty leaves; so for `Bpt.Db.PrevMany`.
- BptRun.Perform: sets of another key than the one searched for, and sets after a step, are left to `Bpt.Db.Set`; a replacing set after a del is left to `BptRun.DelThenSet`.
- Bpt.Db.StepLeft: the window is not claimed to be exact, since the code takes the separator in front of the leaf for its upper bound, as `BptWalk.MoveLeft` states.
- Bpt.Db.Run: pages come from a supply that may run out at any point; the supply stands for ed_txn_alloc.
- Bpt.Db.PutSplit: the code shifts the entries of the half before it inserts into the parent, the model after; the two differ only in pages of a transaction that has then failed.
- BptMark.MarkTree: the marks are the sequence of calls of ed_stat_mark; failures to map a page are not modelled.
- Alloc.Allocator.Free: the bytes after the last list, which a page without lists takes for a list header, are the field `junk`; when lists are moved and these bytes are not, what is found there is the parameter `under`.
- Alloc.Allocator.Alloc: pages in use are a ghost set; mapping pages is not modelled.
- Protocol.CrashKept: no crash between the write of the roots and the write of the xid, after which the next transaction would reuse an xid already stamped on published pages; readers do interleave there. No crash either while a list is opened over stale pages, which would then be listed twice, as `GcWords.StaleCopy` shows.
- Protocol.OpenListKept: the stale pages may be any; `GcWords` says which they are.
- Protocol.RestoreKept: the code puts back the whole list, having listed nothing; the step also covers a part.
- Protocol.ReadersSafe: per tree; a reader may hold the two roots of different commits. One open transaction per connection slot. Slots hold one xid, as in the code.
- Protocol.Conserved: pages are lost as in the code: by a crash those not in the active list, by a free that fails those it was given, by a wiped slot those it lists as pending, by the close of a transaction that only read those an abandoned one left active.
- Protocol.ClearPendingKept: the comparison in ed_txn_open stops at the first page that differs, so pending pages are freed exactly when the transaction has no pages of its own; that is how it is modelled.
- Slots.Xmin: the table stands still during the scan; `Protocol` has the scan step by step. Clearing a slot also forgets the pages it lists as pending, as in the code.
- SlabCache.Cache.Create: the object fits the slab and the range lock is granted at the first try; the path that tries again moves its two counters differently. The trees are rows of leaves under their separators; branches are left to `Bpt`.
- SlabCache.Cache.Close: the separator that set_leaf may raise is left open, either way; mapping errors and a transaction that cannot be opened are not modelled.
- Object.Writer.Write: metadata, headers and expiry are not modelled.
- Crc.Checksum: little-endian hosts only; the SSE4.2 form is not modelled.
- mmap, munmap, ftruncate, fsync, fcntl and pthread locks: a page store, an exclusive writer, and a slot lock that can be taken only when its owner is gone stand for them.
- ed_idx_open, ed_idx_close, header verification and slab sizing: input, output and configuration.
- ed_idx_repair_leaks and ed_pg_mark_gc: the batch counter is never reset and only the head of the gc chain is marked, so there is no general guarantee to state.
- ed_hash (xxHash): a mixing function; the slab takes any hash function.
- lib/mime.c, lib/time.c, listing, tree printing, the command line and the debugging aids: they would only add easy members.
