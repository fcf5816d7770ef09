# Verified models of the index structures

This project models the index structures of the repository in Dafny and proves what they
promise, for all inputs, all chains, and all interleavings of their threads.

**Bw-tree** (`Bw*.dfy`, `SmallSets.dfy`). A leaf or inner node is an immutable chain of
records over a sorted base. Its meaning is replay of the log. Navigation with cached
indices, consolidation by the index-driven merge loop, and the search for a left sibling
are loops over chains, proved against replay for every well-formed chain, nested splits
and merges included. On top, the leaf level is a step machine over the mapping table:
every compare-and-swap of every thread is a step, and the map read through the
next-node ids changes at successful data steps only. `BwTwoLevel` adds a root over that
level and the protocol that finishes splits and merges there, and `BwProgress` shows that
any thread can always finish what others have left undone. Keys are unique, search
shortcuts and preallocation are on, as the code is compiled.

**B-link tree** (`BLink*.dfy`). `BLinkNode` is the in-place code on arrays, a class per
node. `BLinkTree` is the tree under latched tasks, one execution of a task on a node per
step, with inserts that post separators to possibly outdated parents; `BLinkRuns`,
`BLinkSafety` and `BLinkContents` prove what survives every interleaving, and
`BLinkHistory` what callers get for their calls. `BLinkSequential`
and `BLinkCheck` add the strict invariant of one task at a time, the tree's own
consistency checks and its iterator. The unused slots of a leaf are part of both models.

**Lock-free building blocks and locks** (`MpscQueue`, `LeafLink`, `LeafLinkReaders`,
`AtomicStack`, `ChunkAllocator`, `RwSpinLock`, `VersionLock`, `BLinkEpochs`, `BwEpochs`).
Each is a step machine in which every atomic load, store, exchange, addition and compare-and-swap is a
step of its own, with an invariant kept by every step, theorems over every run, and what
an operation achieves when it runs alone.
Execution is sequentially consistent.

Four promises hold only under a condition. The code is modelled as it is; each condition
is stated exactly, and a concrete case shows the promise fail without it:

- An unlink of a Masstree leaf does not always take effect at its last store: when its
  predecessor is a leaf whose own link has not finished, and only then, readers go on
  passing through the unlinked leaf (`LeafLinkReaders.UnlinkedSeenIff`), until the last
  store of that link (`SeenUntilLinked`, `LinkTakesEffect`). `UnlinkedStillSeen` is a run
  from the initial list. In every state a reader's walk ends and visits the leaves of
  the list in order (`RunWalk`).
- The B-link collector computes its minimum before it drains. If every thread was outside
  when the slots were read, a node retired during the drain is freed under a thread that
  joined meanwhile; `BLinkEpochs.UnsafeRun` is such a run from the initial state. With a
  thread and a linked node about, a pass is safe exactly if its minimum does not exceed
  the global epoch (`BLinkEpochs.PassSafeIff`). Entries tagged before the current epoch
  are freed safely by every pass (`BLinkEpochs.FreeSafe`).
- A B-link lookup does not test its index against the node's size, so it may report an
  absent key as found (`BLinkNode.AbsentKeyFound`, on the first leaf of an empty tree). In
  every run this takes a slot never written or one past the array of a full leaf; pairs
  that a split left behind are never taken for the key (`BLinkContents.LookupCorrect`).
- A version seen by an optimistic reader recurs after 2^30 write sections
  (`VersionLock.ValidIff`, with a run in `VersionLock.StaleVersionValidates`).

`dafny verify dfyconfig.toml` checks the whole project.

## Model

| member | source | states |
|---|---|---|
| BwLeafChain.KeysInRange | src/indices/bw_tree/thread/bwtree.h:1564-1750 | the keys a leaf chain replays to lie between its low and high key, through any nesting of splits and merges |
| BwLeafChain.ItemCountIsSize | src/indices/bw_tree/thread/bwtree.h:1564-1750 | the item count cached in every record of a well-formed chain is the size of the replayed map |
| BwLeafNavigation.NarrowedLocate | src/indices/bw_tree/thread/bwtree.h:5238-5298 | a binary search of the narrowed part of the base finds the position a search of the whole base finds |
| BwLeafNavigation.NarrowByRecord | src/indices/bw_tree/thread/bwtree.h:5299-5430 | the index a passed record carries is a correct new bound for the search of another key |
| BwLeafNavigation.NavigateLeafNode | src/indices/bw_tree/thread/bwtree.h:5194-5479 | for every chain and key in range the loop returns what replay holds for the key, and the index pair that a record posted for it must carry |
| BwLeafNavigation.PostInsert | src/indices/bw_tree/thread/bwtree.h:8313-8374 | offers nothing exactly if the key is present; otherwise a well-formed chain whose replay has the pair added |
| BwLeafNavigation.PostUpsert | src/indices/bw_tree/thread/bwtree.h:8446-8524 | offers a well-formed chain whose replay maps the key to the value, and tells whether the key is new |
| BwLeafNavigation.PostDelete | src/indices/bw_tree/thread/bwtree.h:8640-8700 | offers nothing exactly if the key is absent; otherwise a well-formed chain whose replay lacks the key |
| SmallSets.SortedSmallSet.Insert | src/indices/bw_tree/thread/sorted_small_set.h:45-79 | the set becomes the one with the value before the first that is not less, unless an equal one is there |
| SmallSets.SortedSmallSet.InsertNoDedup | src/indices/bw_tree/thread/sorted_small_set.h:88-103 | the set becomes the one with the value behind all that are not greater |
| SmallSets.SortedSmallSet.PopFront | src/indices/bw_tree/thread/sorted_small_set.h:124-131 | removes and returns the first value |
| SmallSets.BloomFilter.Insert | src/indices/bw_tree/thread/bloom_filter.h:128-148 | adds exactly the one value to the set of members |
| SmallSets.BloomFilter.Exists | src/indices/bw_tree/thread/bloom_filter.h:162-190 | answers membership exactly, whatever the hash function |
| BwRecords.MergeIsOverlay | src/indices/bw_tree/thread/bwtree.h:5894-5955 | merging a sorted base with sorted records yields the base map overlaid with the records' effects |
| BwRecords.MergeSorted | src/indices/bw_tree/thread/bwtree.h:5894-5955 | the merged items are in strictly ascending key order |
| BwRecords.MergeBelow | src/indices/bw_tree/thread/bwtree.h:5834-5955 | merging only what is below a high key yields the overlaid map restricted below it |
| BwRecords.BranchGoals | src/indices/bw_tree/thread/bwtree.h:6050-6059 | under a merge record, the left branch restricted to its own high key and the right branch together give the whole overlaid map |
| BwLeafConsolidation.PopEffect | src/indices/bw_tree/thread/bwtree.h:5914-5943 | storing the front record's item and moving the copy position by its index pair leaves the rest of the merge unchanged |
| BwLeafConsolidation.MergeRound | src/indices/bw_tree/thread/bwtree.h:5895-5951 | one round copies the base run before the front record and all records at its index, and keeps output plus remaining merge equal |
| BwLeafConsolidation.MergeBase | src/indices/bw_tree/thread/bwtree.h:5834-5958 | the loop driven by cached indices appends exactly the merge of the base with the gathered records, and consumes them |
| BwLeafConsolidation.GatherRecord | src/indices/bw_tree/thread/bwtree.h:5959-6037 | taking a record whose key is new leaves the map still to be delivered unchanged |
| BwLeafConsolidation.SkipRecord | src/indices/bw_tree/thread/bwtree.h:5959-6037 | dropping a record whose key has been seen leaves the map still to be delivered unchanged |
| BwLeafConsolidation.MergeGoal | src/indices/bw_tree/thread/bwtree.h:6050-6059 | what a merge record must deliver is what its branches must deliver, one after the other |
| BwLeafConsolidation.CollectAllValuesOnLeafRecursive | src/indices/bw_tree/thread/bwtree.h:5818-6069 | appends, in ascending order, exactly the chain's map under the records gathered above it, and consumes those below its high key |
| BwLeafConsolidation.CollectAllValuesOnLeaf | src/indices/bw_tree/thread/bwtree.h:5700-5797 | the new base replays to the same map, has the same bounds, is strictly ascending and fills the buffer sized from the item count exactly |
| BwInnerChain.SepsInRange | src/indices/bw_tree/thread/bwtree.h:1755-1972 | the separators an inner chain replays to lie in its range and include its low key |
| BwInnerChain.ItemCountIsSize | src/indices/bw_tree/thread/bwtree.h:1755-1972 | the cached item count of an inner chain is the number of replayed separators |
| BwInnerNavigation.RoutesUnique | src/indices/bw_tree/thread/bwtree.h:4092-4106 | the child of the largest separator not above a key is unique |
| BwInnerNavigation.NavigateInnerNode | src/indices/bw_tree/thread/bwtree.h:4166-4350 | for every chain and key in range, the range tests and the narrowed search return the child of the largest replayed separator not above the key, across merges |
| BwInnerNavigation.FindSeparator | src/indices/bw_tree/thread/bwtree.h:7855-7979 | tells whether a separator is in the replayed map, with its child, and the location a new record for it must carry |
| BwInnerNavigation.InsertedRoutes | src/indices/bw_tree/thread/bwtree.h:6695-6742 | a posted insert takes over exactly the keys from its separator to the next one |
| BwInnerNavigation.DeletedRoutes | src/indices/bw_tree/thread/bwtree.h:6752-6821 | a posted delete hands exactly the keys of its separator to the previous one |
| BwInnerNavigation.PostInnerInsert | src/indices/bw_tree/thread/bwtree.h:7183-7226 | completing a split offers nothing exactly if the separator is there; otherwise a well-formed chain with it added, which caches the given next separator (that this is the true one: BwTwoLevel.SplitNeighbour) |
| BwInnerNavigation.PostInnerDelete | src/indices/bw_tree/thread/bwtree.h:6992-7023 | completing a merge offers nothing exactly if the separator is gone; otherwise a well-formed chain without it, which caches the given neighbours (that these are the true ones: BwTwoLevel.MergeNeighbours) |
| BwInnerConsolidation.InsertOncePoint | src/indices/bw_tree/thread/sorted_small_set.h:45-79 | newest-record-wins: a record of a key already gathered changes nothing, another goes to its place |
| BwInnerConsolidation.GatherSepGoal | src/indices/bw_tree/thread/bwtree.h:4785-4815 | gathering a record keeps the separators still to be delivered unchanged |
| BwInnerConsolidation.MergeBase | src/indices/bw_tree/thread/bwtree.h:4589-4778 | the two-way merge appends exactly the base overlaid with the gathered records below the high key |
| BwInnerConsolidation.CollectAllSepsOnInnerRecursive | src/indices/bw_tree/thread/bwtree.h:4573-4852 | appends exactly the chain's separators under the records gathered above it, without the low key's on the leftmost branch |
| BwInnerConsolidation.CollectAllSepsOnInner | src/indices/bw_tree/thread/bwtree.h:4499-4560 | the new base replays to the same separators, keeps the low key's child first, has exactly item-count entries and routes every key as before |
| BwLeftSibling.GatherUpTo | src/indices/bw_tree/thread/bwtree.h:8150-8238 | the records kept, applied to the base, give the replayed separators not above the search key |
| BwLeftSibling.SecondFromTop | src/indices/bw_tree/thread/bwtree.h:8036-8149 | the two-step descending merge of records and base finds the second largest of those separators |
| BwLeftSibling.FindLeftSibling | src/indices/bw_tree/thread/bwtree.h:8001-8238 | for every chain, merges included, and every separator but the first: the child of its predecessor in the replayed map |
| BwMappingTable.FindSplitPoint | src/indices/bw_tree/thread/bwtree.h:3001-3048 | the split point never separates equal keys and leaves one half above the threshold; with unique keys it is the middle or there is none |
| BwMappingTable.SplitParts | src/indices/bw_tree/thread/bwtree.h:3077-3124 | the shortened node and its sibling are well formed, meet at the split key and replay to the old map together |
| BwMappingTable.StepCorrect | src/indices/bw_tree/thread/bwtree.h:3750-3764 | every step of every thread, successful or not, keeps the leaf links and changes the map by its data record only |
| BwMappingTable.DataEffect | src/indices/bw_tree/thread/bwtree.h:3750-3764 | a data record is posted on its leaf, and changes the map by exactly itself, if and only if the table still holds the snapshot it was made for; otherwise nothing changes |
| BwMappingTable.ConsolidateEffect | src/indices/bw_tree/thread/bwtree.h:7245-7265 | a consolidated chain replaces its snapshot if the table still holds it, and nothing else ever |
| BwMappingTable.RemoveEffect | src/indices/bw_tree/thread/bwtree.h:7500-7574 | a remove record goes on its snapshot if the table still holds it, and nothing else ever |
| BwMappingTable.InstallEffect | src/indices/bw_tree/thread/bwtree.h:7415-7500 | a split first stores the upper items of its snapshot under the new id, and the map stays |
| BwMappingTable.SplitEffect | src/indices/bw_tree/thread/bwtree.h:7415-7500 | a split record with the new leaf's id goes on its snapshot if the table still holds it, and the new leaf is then linked; otherwise only the thread is done |
| BwMappingTable.MergeEffect | src/indices/bw_tree/thread/bwtree.h:8276-8305 | a merge record goes on the left sibling's snapshot if the table still holds it, and the removed leaf is then unlinked; otherwise only the thread is done |
| BwMappingTable.UpsertNow | src/indices/bw_tree/thread/bwtree.h:8446-8524 | on the leaf of its key, unless that is being removed, an insert or update made for the current chain can be posted and the map then has the pair |
| BwMappingTable.DeleteNow | src/indices/bw_tree/thread/bwtree.h:8640-8700 | on the leaf of its key, unless that is being removed, a delete made for the current chain can be posted and the map then lacks the key |
| BwMappingTable.SplitNow | src/indices/bw_tree/thread/bwtree.h:7415-7500 | undisturbed, any base of two items or more is split at any item but the first, with the map unchanged |
| BwMappingTable.MergeNow | src/indices/bw_tree/thread/bwtree.h:6862-6941 | undisturbed, a base is removed and merged into its live left neighbour, with the map unchanged |
| BwMappingTable.StepSplit | src/indices/bw_tree/thread/bwtree.h:7415-7500 | posting a split, however late after its sibling was installed, keeps the map |
| BwMappingTable.StepRemove | src/indices/bw_tree/thread/bwtree.h:7500-7574 | posting a remove record keeps the map |
| BwMappingTable.StepMerge | src/indices/bw_tree/thread/bwtree.h:8276-8305 | posting a merge, however late after the removed leaf was read, keeps the map |
| BwMappingTable.StepConsolidate | src/indices/bw_tree/thread/bwtree.h:7245-7265 | replacing a chain by its consolidation keeps the map |
| BwMappingTable.MergeFindsLinked | src/indices/bw_tree/thread/bwtree.h:6862-6941 | a merge that succeeds finds the removed leaf linked and unlinks it: it is merged exactly once |
| BwMappingTable.RunCorrect | src/indices/bw_tree/thread/bwtree.h:3750-3764 | over every run the map is the replay of the successful data steps in their order |
| BwMappingTable.TreeIsItsLog | src/indices/bw_tree/thread/bwtree.h:3655-3694 | from the empty tree, every interleaving yields exactly the map of its successful inserts, upserts and deletes |
| BwMappingTable.OrderUnique | src/indices/bw_tree/thread/bwtree.h:4004-4045 | following next-node ids from the first leaf is the only way to read the level |
| BwMappingTable.LowStable | src/indices/bw_tree/thread/bwtree.h:3750-3764 | no step changes a leaf's low key |
| BwMappingTable.GoRight | src/indices/bw_tree/thread/bwtree.h:4004-4045 | following the next-node id on a key at or above the high key lands on a leaf that starts at or below the key |
| BwMappingTable.LeafAnswers | src/indices/bw_tree/thread/bwtree.h:5194-5479 | the leaf whose range covers a key answers for the whole map |
| BwTwoLevel.SplitNeighbour | src/indices/bw_tree/thread/bwtree.h:7025-7226 | in every state in which a split's separator can be posted, the high key below the split record is the root's next separator, although it was read off the leaf |
| BwTwoLevel.MergeNeighbours | src/indices/bw_tree/thread/bwtree.h:6942-7023 | in every state in which a merged leaf's separator can be deleted, it leads to that leaf, the merging leaf's low key is the separator before it and the merged leaf's high key the one after it |
| BwTwoLevel.FinishSplitKeeps | src/indices/bw_tree/thread/bwtree.h:7025-7226 | finishing a split from any snapshots, however old, passes, aborts or posts, and keeps both levels consistent |
| BwTwoLevel.FinishMergeKeeps | src/indices/bw_tree/thread/bwtree.h:6942-7023 | finishing a merge from any snapshots, however old, passes, aborts or deletes, and keeps both levels consistent |
| BwTwoLevel.FinishSplitEffect | src/indices/bw_tree/thread/bwtree.h:7183-7226 | finishing a split posts exactly its separator on the root if the thread's root snapshot is current and lacks it, and the thread may go on; otherwise only the thread's own view changes |
| BwTwoLevel.FinishMergeEffect | src/indices/bw_tree/thread/bwtree.h:6942-7023 | finishing a merge deletes exactly the merged leaf's separator if it is there and the thread's root snapshot is current; otherwise only the thread's own view changes |
| BwTwoLevel.AnyoneFinishes | src/indices/bw_tree/thread/bwtree.h:6337-6394 | any thread, starting at the root and undisturbed, finishes whatever split or merge is on top of a posted leaf, in three steps |
| BwTwoLevel.LeafKeeps | src/indices/bw_tree/thread/bwtree.h:6337-6360 | every leaf step of a thread that has finished what its leaf snapshot owed the root keeps both levels consistent |
| BwTwoLevel.StepKeepsInv | src/indices/bw_tree/thread/bwtree.h:6842-7243 | every step of every thread on the root or on a leaf keeps the invariant of both levels |
| BwTwoLevel.RunCorrect | src/indices/bw_tree/thread/bwtree.h:6337-6394 | over every run the invariant holds and the map is the replay of the data records that took effect |
| BwTwoLevel.FromEmpty | src/indices/bw_tree/thread/bwtree.h:3633-3694 | from the empty tree, a root over one leaf, every run keeps both levels consistent and yields exactly the map of its successful data steps |
| BwTwoLevel.NeverStuck | src/indices/bw_tree/thread/bwtree.h:6337-6394 | the children of a root snapshot and the right neighbour of a finished leaf exist, and a pending split or merge can be finished |
| BwTwoLevel.RootFindsLeaf | src/indices/bw_tree/thread/bwtree.h:4166-4350 | in every state, the child that the root routes a key to is the key's leaf, or its split has not been posted and the new sibling is, or it has just been merged into the leaf that is; that leaf answers for the whole map |
| BwTwoLevel.SearchAlone | src/indices/bw_tree/thread/bwtree.h:4004-4045 | a search that runs alone, if the child the root routes its key to is not being removed, ends on the leaf of the key with nothing left to finish there |
| BwProgress.ReachesKey | src/indices/bw_tree/thread/bwtree.h:6337-6394 | from every reachable state, whatever splits, removes and merges other threads have left half done, any idle thread can come to hold the live leaf of any key, with nothing left to finish there and the map unchanged |
| BwProgress.UpsertCompletes | src/indices/bw_tree/thread/bwtree.h:8446-8524 | from every reachable state any idle thread can complete an upsert of any key, finishing on its own what others have left undone: the map then has the pair and is otherwise unchanged |
| BwProgress.DeleteCompletes | src/indices/bw_tree/thread/bwtree.h:8640-8700 | the same for a delete of any key that is there |
| BwProgress.MergeAway | src/indices/bw_tree/thread/bwtree.h:6862-6941 | any removed leaf can be merged away by one thread, the removed leaves to the left of it first, with the map unchanged |
| BwProgress.Posts | src/indices/bw_tree/thread/bwtree.h:7025-7226 | any linked leaf the root lacks can be posted by one thread, by finishing the split of its left neighbour |
| BwTwoLevel.QuietSeps | src/indices/bw_tree/thread/bwtree.h:6842-7243 | while no leaf has a split or merge on top, the root's separators are exactly the low keys of the linked leaves, each with its leaf |
| BLinkSplit.SplitIsInsertion | src/indices/blinktree/tree.cpp:38-90 | in each of the three branches, the halves and the key that moves up are the insertion cut in two; no child is lost or repeated and both halves are non-empty and leave room |
| BLinkSplit.SplitRoutes | src/indices/blinktree/tree.cpp:38-90 | through the new high key and right link every key goes to the child the unsplit node with the separator inserted would choose |
| BLinkSplit.LeafSplitIsInsertion | src/indices/blinktree/tree.cpp:92-118 | a leaf split is the insertion cut in two sorted non-empty halves that fit |
| BLinkNode.Node.Index | src/indices/blinktree/node.cpp:31-37 | every used key before the returned index is below the searched key and every used key from it on is not |
| BLinkNode.Node.Child | src/indices/blinktree/node.cpp:39-56 | the binary search returns the child of the number of keys not above the searched one |
| BLinkNode.Node.InsertSeparator | src/indices/blinktree/node.cpp:83-96 | shifting inserts the key and the separator one slot further right |
| BLinkNode.Node.InsertValue | src/indices/blinktree/node.cpp:98-111 | shifting inserts the pair at the index |
| BLinkNode.CopySlots | src/indices/blinktree/node.cpp:113-126 | copies a run of slots and leaves the others alone |
| BLinkNode.Node.ContainsSeparator | src/indices/blinktree/node.cpp:128-139 | true exactly if one of the used slots holds the separator |
| BLinkNode.SplitLeafNode | src/indices/blinktree/tree.cpp:92-118 | the in-place split leaves the two halves of SplitLeaf in the nodes, with high keys, right links and parent set; the slots it leaves unused keep their contents, keys at or above the new high key |
| BLinkNode.DistributeInner | src/indices/blinktree/tree.cpp:47-80 | the three in-place branches leave exactly the halves of SplitInner in the two nodes |
| BLinkNode.SplitInnerNode | src/indices/blinktree/tree.cpp:38-90 | the whole in-place split: halves, high keys, right links, and every child of the new node re-parented |
| BLinkNode.CreateNewRoot | src/indices/blinktree/tree.cpp:24-36 | a root over the two nodes with the key between them, which both name it as parent |
| BLinkNode.LookupLeaf | src/indices/blinktree/tbb/lookup_task.cpp:76-82 | for every leaf, full ones included: a present key is found with its value; an absent key is reported absent exactly if its lower bound is a used slot or the slot behind the used ones, past the arrays in a full leaf, holds another key |
| BLinkNode.AbsentKeyFound | src/indices/blinktree/tbb/lookup_task.cpp:76-82 | on the first leaf of an empty tree, the lookup of the key that its first, never written slot holds reports it as found |
| BLinkRuns.AddSepKeeps | src/indices/blinktree/tbb/insert_task.cpp:136-151 | inserting a posted separator keeps every child's low bound equal to its separator, whichever node it is posted to |
| BLinkRuns.SepKeyNew | src/indices/blinktree/tbb/insert_task.cpp:136-151 | a separator being posted is not among the keys of any node it can be posted to |
| BLinkRuns.KeyUpNew | src/indices/blinktree/tree.cpp:38-90 | the key that moves up is the low bound of no other node of the level |
| BLinkRuns.LeavesApart | src/indices/blinktree/tree.cpp:92-118 | leaf ranges do not overlap |
| BLinkRuns.LeafHalvesKeep | src/indices/blinktree/tree.cpp:92-118 | a leaf split under any interleaving keeps the tree's structure |
| BLinkRuns.InnerHalvesKeep | src/indices/blinktree/tree.cpp:38-90 | an inner split under any interleaving keeps the tree's structure |
| BLinkRuns.NewRootKeeps | src/indices/blinktree/tree.cpp:24-36 | growing a root over a split root keeps the tree's structure |
| BLinkSafety.StepKeepsInv | src/indices/blinktree/tbb/insert_task.cpp:70-165 | every step of every interleaving of latched inserts and lookups keeps the invariant |
| BLinkContents.SeekerSafe | src/indices/blinktree/tbb/lookup_task.cpp:66-82 | in every state of every run a seeker stands at a node whose low bound is not above its key, never follows a null right link, and stays only on the one leaf covering its key |
| BLinkContents.LeavesTile | src/indices/blinktree/tree.cpp:92-118 | every key below the largest has exactly one leaf |
| BLinkContents.LeafTurnContents | src/indices/blinktree/tbb/insert_task.cpp:102-134 | an insert executing on its leaf adds exactly its pair, at its place, if the key is new, and changes nothing otherwise |
| BLinkContents.OtherTurnContents | src/indices/blinktree/tbb/insert_task.cpp:136-165 | no other step, splits of inner nodes and new roots included, changes the pairs of the leaf chain |
| BLinkContents.RunCorrect | src/indices/blinktree/tbb/insert_task.cpp:70-165 | in every state of every run the tree is the first-insert-wins map of the inserts that reached their leaf: none lost, none twice |
| BLinkContents.NeverStuck | src/indices/blinktree/tbb/insert_task.cpp:70-99 | a task that can execute always stands on a node of the tree |
| BLinkContents.LookupCorrect | src/indices/blinktree/tbb/lookup_task.cpp:76-82 | a lookup at its leaf returns the value of a present key; an absent key is reported absent unless it is above every key of the leaf and the slot behind them was never written or is past the array |
| BLinkHistory.RunLookup | src/indices/blinktree/tbb/lookup_task.cpp:66-82 | in every run, a lookup executing on its leaf answers for the key it was called with: the value the tree holds at that moment, or nothing if there is none, unless it compares with a slot never written or past the array |
| BLinkHistory.RunTask | src/indices/blinktree/tbb/insert_task.cpp:70-99 | in every run, a seeking insert carries the pair, and a lookup the key, that it was called with |
| BLinkHistory.RunMap | src/indices/blinktree/tbb/insert_task.cpp:102-134 | in every state of every run, the tree is the first-insert-wins map of the pairs that inserts were called with, of those that have executed on their leaf |
| BLinkHistory.RunInserted | src/indices/blinktree/tbb/insert_task.cpp:102-165 | in every state of every run, an insert that has left its leaf, finished or still posting separators, has its key in the tree |
| BLinkHistory.StepContents | src/indices/blinktree/tbb/insert_task.cpp:102-165 | a step changes the map only by executing an insert of a new key on its leaf, and then by that pair |
| BLinkHistory.InsertCall | src/indices/blinktree/tbb/insert_task.cpp:70-165 | an insert that runs alone from any reachable state, whatever other tasks have left undone, ends with its pair in the tree unless the key was there |
| BLinkHistory.LookupCall | src/indices/blinktree/tbb/lookup_task.cpp:66-82 | a lookup that runs alone from any reachable state ends, with the tree untouched and the answer it holds |
| BLinkHistory.PostEnds | src/indices/blinktree/tbb/insert_task.cpp:136-165 | a separator being posted, running alone from any reachable state, ends up in a node, and the map stays |
| BLinkContents.SpareAbove | src/indices/blinktree/tree.cpp:97-115 | in every state of every run, a pair that a split left in an unused slot is at or above its leaf's high key |
| BLinkRuns.LeftBehindAbove | src/indices/blinktree/tree.cpp:97-115 | what a leaf split leaves in the unused slots of the left half fills it up and is at or above its new high key |
| BLinkSequential.AddedKids | src/indices/blinktree/tbb/insert_task.cpp:136-151 | run alone, a posted separator lands right behind the node it was split from, and every child then ends where the next begins |
| BLinkSequential.InnerSplitTidy | src/indices/blinktree/tree.cpp:38-90 | run alone, an inner split leaves exact parents and children that end where the next begins |
| BLinkSequential.NewRootTidy | src/indices/blinktree/tree.cpp:24-36 | run alone, a new root completes the insert with exact parents |
| BLinkSequential.SeqStep | src/indices/blinktree/tbb/insert_task.cpp:70-165 | with one task at a time every step keeps the strict invariant, whose only exception is the node left of the separator being posted |
| BLinkCheck.IsKeyOrderValid | src/indices/blinktree/consistency_checker.cpp:49-70 | the adjacent comparisons hold exactly if the keys are strictly ascending |
| BLinkCheck.IsNoNullSeparator | src/indices/blinktree/consistency_checker.cpp:72-86 | true exactly if no slot of an inner node is null |
| BLinkCheck.IsChildrenOrderValid | src/indices/blinktree/consistency_checker.cpp:88-105 | true exactly if every child's last key is below the next separator |
| BLinkCheck.IsLevelValid | src/indices/blinktree/consistency_checker.cpp:107-126 | the neighbour comparisons hold exactly if siblings and all children are of one kind |
| BLinkCheck.CheckParent | src/indices/blinktree/consistency_checker.cpp:128-164 | true exactly if the node is in its parent's first slot for it with its keys on the right side of the separators there |
| BLinkCheck.TidyPasses | src/indices/blinktree/consistency_checker.cpp:37-164 | between two inserts every node of a non-empty tree passes every check |
| BLinkCheck.AfterInserts | src/indices/blinktree/tree.cpp:120-128 | after any non-empty series of inserts, one at a time, every node passes every check and the tree is the first-insert-wins map |
| BLinkCheck.FirstChild | src/indices/blinktree/tree.h:25-29 | the first child of a level's first node is the first node of the level below |
| BLinkCheck.Advance | src/indices/blinktree/tree.h:19-36 | one step of the iterator goes right, down to the next level's first node, or past the end |
| BLinkCheck.Iterate | src/indices/blinktree/tree.h:12-43 | the iterator ends, having visited the levels from the top, each from left to right |
| BLinkCheck.EachOnce | src/indices/blinktree/tree.h:12-43 | that walk visits each node of the tree exactly once |
| BLinkCheck.Check | src/indices/blinktree/tree.cpp:120-128 | checking a whole tree between inserts finds no error |
| MpscQueue.ExchangeKeeps | src/util/mpsc_queue.h:24-42 | exchanging the head appends the items, one or a batch, while the link to them is still owed |
| MpscQueue.LinkKeeps | src/util/mpsc_queue.h:24-42 | the late link connects the chain exactly where its push was exchanged in |
| MpscQueue.StubReady | src/util/mpsc_queue.cpp:28-34 | the consumer pushes the stub only when it is nowhere in the queue |
| MpscQueue.StepKeepsInv | src/util/mpsc_queue.cpp:5-44 | every step of every interleaving of producers and the consumer keeps the invariant |
| MpscQueue.RunCorrect | src/util/mpsc_queue.cpp:5-44 | in every run, the items of all pushes whose exchange has happened, taken from the producers' calls in the order of the exchanges, are those returned followed by those still queued: none lost, repeated or overtaken |
| MpscQueue.ExchangeAppends | src/util/mpsc_queue.h:24-42 | a producer's second write, its exchange, appends exactly the items it began with and moves the head to their last; no other step but the consumer's own exchange touches the head |
| MpscQueue.RunWriter | src/util/mpsc_queue.h:24-42 | a push under way holds the items it was called with, and its next write follows from its writes so far |
| MpscQueue.PushCompletes | src/util/mpsc_queue.h:37-42 | a push of one item or of a batch, running alone, ends with all its items behind the others, linked, and nothing else changed |
| MpscQueue.PushThenPop | src/util/mpsc_queue.h:24-61 | on an empty queue, a pop after a push returns the pushed item |
| MpscQueue.ReturnSafe | src/util/mpsc_queue.cpp:22-26 | a pop that returns an item returns the oldest, and no push writes to it any more |
| MpscQueue.PopDelivers | src/util/mpsc_queue.cpp:5-44 | with no push under way a pop ends within eight steps of its own, with the oldest item or with nothing exactly if none is queued |
| LeafLink.StepKeepsInv | src/indices/mass_tree/thread/btree_leaflink.hh:32-96 | every load, store and compare-and-swap of every interleaving keeps the invariant |
| LeafLink.RunInv | src/indices/mass_tree/thread/btree_leaflink.hh:50-96 | the invariant holds in every state of every run |
| LeafLink.NeverStuck | src/indices/mass_tree/thread/btree_leaflink.hh:59-96 | in every run an operation under way always finds the leaves its next step reads |
| LeafLink.PrevInverse | src/indices/mass_tree/thread/btree_leaflink.hh:59-69 | in every state prev leads from each leaf of the list the prev stores describe to the leaf before it |
| LeafLink.QuietList | src/indices/mass_tree/thread/btree_leaflink.hh:59-96 | whenever no edge is marked, readers see exactly that list and prev is the inverse of next |
| LeafLinkReaders.StepKeepsReaders | src/indices/mass_tree/thread/btree_leaflink.hh:59-96 | every step of every interleaving keeps what ties next pointers to the list: only behind a leaf being added do they lead through unlinked leaves, and then on to the next leaf of the list |
| LeafLinkReaders.RunReaders | src/indices/mass_tree/thread/btree_leaflink.hh:59-96 | that invariant holds in every state of every run |
| LeafLinkReaders.RunSeesListIff | src/indices/mass_tree/thread/btree_leaflink.hh:59-96 | in every state of every run, readers see the list to which each operation is applied at its last store if and only if no leaf has been unlinked behind a leaf still being linked |
| LeafLinkReaders.SeeListIff | src/indices/mass_tree/thread/btree_leaflink.hh:59-96 | the same for every state the invariant allows |
| LeafLinkReaders.RunWalk | src/indices/mass_tree/thread/btree_leaflink.hh:54-55 | in every state of every run, a reader's walk from the first leaf ends and visits the leaves of the list in order; all it visits besides are unlinked leaves |
| LeafLinkReaders.LinkTakesEffect | src/indices/mass_tree/thread/btree_leaflink.hh:66-68 | in every state, the last store of a link takes effect: the leaf before leads to the new leaf and that one on to the next, past every leaf unlinked behind it; readers see the whole list exactly if no other link was overtaken |
| LeafLinkReaders.UnlinkEffectIff | src/indices/mass_tree/thread/btree_leaflink.hh:92-95 | in every state, after the last store of an unlink readers see the list without the leaf exactly if they saw the list before and the predecessor is not a leaf still being linked |
| LeafLinkReaders.UnlinkedSeenIff | src/indices/mass_tree/thread/btree_leaflink.hh:92-95 | in every state, readers still pass through a leaf after the last store of its unlink exactly if its predecessor is a leaf still being linked |
| LeafLinkReaders.UnlinkIneffective | src/indices/mass_tree/thread/btree_leaflink.hh:92-95 | behind a leaf still being linked, the last store of an unlink changes no next pointer of the list, and the unlinked leaf joins those that readers pass through |
| LeafLinkReaders.SeenUntilLinked | src/indices/mass_tree/thread/btree_leaflink.hh:59-96 | until the last store of the pending link, readers go on passing through every leaf unlinked behind it |
| LeafLinkReaders.QuietSame | src/indices/mass_tree/thread/btree_leaflink.hh:59-96 | whenever no edge is marked, readers see that list, and it is the one the prev stores describe |
| LeafLinkReaders.LinkCompletes | src/indices/mass_tree/thread/btree_leaflink.hh:59-69 | a link that runs alone completes with its leaf inserted |
| LeafLinkReaders.UnlinkCompletes | src/indices/mass_tree/thread/btree_leaflink.hh:80-96 | an unlink that runs alone behind a leaf that leads to it completes with its leaf removed |
| LeafLinkReaders.UnlinkBehindLink | src/indices/mass_tree/thread/btree_leaflink.hh:59-96 | from every state with nothing under way, a link stopped before its last store and a complete unlink of the leaf behind it lead to a state whose readers still reach the unlinked leaf |
| LeafLinkReaders.UnlinkedStillSeen | src/indices/mass_tree/thread/btree_leaflink.hh:92-95 | a run from the initial list after which no unlink is under way, the leaf is out of the list, and a reader still reaches it |
| BLinkEpochs.StepKeepsInv | src/indices/blinktree/epoch_manager.h:40-47 | every step of joins, leaves, retirements and the collector keeps each retired node's epoch at or above those of its holders |
| BLinkEpochs.FreeSafe | src/indices/blinktree/epoch_manager.cpp:29-52 | an entry tagged before the current epoch is freed only when no thread still inside its epoch could have reached its node, whatever the minimum of the pass and whatever happens while it drains |
| BLinkEpochs.OneStepPassSafe | src/indices/blinktree/epoch_manager.cpp:29-52 | with the minimum and the drain in one step, every node freed is held by nobody |
| BLinkEpochs.ScanBounds | src/indices/blinktree/epoch_manager.cpp:67-76 | reading the slot of any thread not outside all epochs brings the minimum down to the global epoch |
| BLinkEpochs.FreeUnsafe | src/indices/blinktree/epoch_manager.cpp:29-52 | from every draining state whose minimum exceeds the global epoch, for every thread and every linked node, steps within the pass lead to freeing the node while the thread may hold it |
| BLinkEpochs.PassSafeIff | src/indices/blinktree/epoch_manager.cpp:29-52 | with a thread and a linked node about, the rest of a pass frees only nodes nobody holds, whatever happens meanwhile, if and only if its minimum does not exceed the global epoch |
| BLinkEpochs.UnsafeRun | src/indices/blinktree/epoch_manager.cpp:29-52 | from every initial state with one thread and a linked node, a run of eleven steps ends in a pass that frees the node while the thread may hold it |
| BLinkEpochs.RunSafe | src/indices/blinktree/epoch_manager.cpp:29-52 | in every state of every run, entries tagged before the current epoch are freed only when nobody holds them, and the pass under way is safe to its end exactly if its minimum does not exceed the global epoch |
| BLinkEpochs.StepFrees | src/indices/blinktree/epoch_manager.cpp:36-51 | draining takes the front entry and frees its node exactly if it is older than the minimum, else defers it; a push appends one entry with its tag; the end of a pass requeues the deferred ones; nothing else changes queue or freed nodes |
| BLinkEpochs.RunFreed | src/indices/blinktree/epoch_manager.cpp:36-51 | in every run, a node that a step frees is older than the pass's minimum and, if tagged before the current epoch, held by nobody |
| BLinkEpochs.PassAlone | src/indices/blinktree/epoch_manager.cpp:21-52 | a pass that runs alone advances the epoch, frees exactly the entries tagged before every slot and requeues the others in order |
| BLinkEpochs.MinLocalEpoch | src/indices/blinktree/epoch_manager.cpp:67-76 | the loop returns the smallest slot |
| BLinkEpochs.DrainConserves | src/indices/blinktree/epoch_manager.cpp:36-51 | every drained entry is freed or requeued, once, according to its epoch |
| BLinkEpochs.Reclaimer.ReclaimEpochGarbage | src/indices/blinktree/epoch_manager.cpp:29-52 | the drain frees the older entries and requeues the others in order |
| BwEpochs.StepKeepsInv | src/indices/bw_tree/thread/bwtree.h:690-705 | every step keeps every thread's garbage list in epoch order and each retired node's epoch at or above those of its holders |
| BwEpochs.FreeSafe | src/indices/bw_tree/thread/bwtree.h:10665-10704 | no node is freed while a thread that could have reached it before it was unlinked is still inside its epoch |
| BwEpochs.RunSafe | src/indices/bw_tree/thread/bwtree.h:10626-10704 | the same in every state of every run, with any number of threads collecting at once |
| BwEpochs.StepFrees | src/indices/bw_tree/thread/bwtree.h:10678-10694 | a freeing step takes exactly the front entry off its thread's own list and frees its node; retiring appends one entry with its tag; no other step changes lists or frees anything |
| BwEpochs.RunFreed | src/indices/bw_tree/thread/bwtree.h:10678-10694 | in every run, a node that a step frees is held by nobody |
| BwEpochs.CollectAlone | src/indices/bw_tree/thread/bwtree.h:10666-10694 | a collection that runs alone frees exactly the entries of its own list tagged before every slot, and keeps the others in order |
| BwEpochs.PrefixExact | src/indices/bw_tree/thread/bwtree.h:10678-10694 | the freed prefix holds exactly the entries older than the minimum, because the list is in epoch order |
| BwEpochs.GarbageList.PerformGC | src/indices/bw_tree/thread/bwtree.h:10665-10704 | the loop frees exactly that prefix and keeps the rest |
| RwSpinLock.EncodesKept | src/util/rw_spinlock.h:176-284 | after every operation the 32-bit word is four times the reader count plus the upgrade bit plus the writer bit |
| RwSpinLock.FlagKept | src/util/rw_spinlock.h:209-239 | after every operation an upgrade bit without the writer bit has an owner |
| RwSpinLock.StepKeepsInv | src/util/rw_spinlock.h:176-284 | every operation, failed attempts and two-step downgrades included, keeps the invariant |
| RwSpinLock.RunExclusive | src/util/rw_spinlock.h:176-284 | in every run of fewer than 2^30 threads: writers exclude everybody, there is one writer or upgrader at most, the upgrade bit alone has one owner, and the word encodes the holders |
| RwSpinLock.RunEncodes | src/util/rw_spinlock.h:176-284 | in every state of every run, whatever the number of threads below 2^30, the word encodes what they hold, and an upgrade bit without the writer bit has an owner |
| RwSpinLock.OpOutcome | src/util/rw_spinlock.h:234-290 | a write lock is got exactly if nobody holds or attempts anything, a read or upgrade lock exactly if nobody writes or upgrades, an upgrade to a write lock exactly if nobody reads; releases and downgrades give what they say |
| RwSpinLock.RunOutcome | src/util/rw_spinlock.h:176-284 | the same for every step of every run |
| RwSpinLock.RoundTrips | src/util/rw_spinlock.h:176-284 | acquiring and releasing, or failing and backing out, leaves the lock word and all holders as they were |
| VersionLock.StepKeepsInv | src/indices/blinktree/optimistic_lock.h:22-74 | every step keeps the lock exclusive and the version equal to the count of section ends and beginnings modulo 2^32 |
| VersionLock.RunExclusive | src/indices/blinktree/optimistic_lock.h:48-69 | in every run one thread at most holds the lock |
| VersionLock.RunEffect | src/indices/blinktree/optimistic_lock.h:48-69 | in every run, a swap takes the lock exactly if the version is the one its thread has seen, and then nobody held it; a release ends the section; nothing else changes holder or version |
| VersionLock.TryLockAlone | src/indices/blinktree/optimistic_lock.h:48-53 | with nobody in between, trying the lock takes it exactly if it is free |
| VersionLock.ValidIff | src/indices/blinktree/optimistic_lock.h:39-42 | a version seen unlocked is found unchanged exactly if the lock is free and the sections completed in between are a multiple of 2^30 |
| VersionLock.ValidationSound | src/indices/blinktree/optimistic_lock.h:22-42 | with fewer than 2^30 sections completed in between, a successful validation means no writer held the lock at any time in between |
| VersionLock.SectionsRun | src/indices/blinktree/optimistic_lock.h:48-69 | for every n there is a run with n completed write sections |
| VersionLock.StaleVersionValidates | src/indices/blinktree/optimistic_lock.h:39-42 | a run in which a version seen unlocked validates although 2^30 write sections were completed in between |
| ChunkAllocator.StepKeepsInv | src/indices/bw_tree/thread/bwtree.h:2071-2186 | every step of every interleaving of allocations keeps the invariant |
| ChunkAllocator.NeverStuck | src/indices/bw_tree/thread/bwtree.h:2159-2186 | in every run an allocation under way always stands on an existing chunk |
| ChunkAllocator.RunDisjoint | src/indices/bw_tree/thread/bwtree.h:2071-2093 | in every run there is one result for every allocation that has ended, and the bytes their callers asked for are disjoint ranges inside their chunk |
| ChunkAllocator.RunGrants | src/indices/bw_tree/thread/bwtree.h:2070-2095 | the last step of an allocation records one block, of the size of its thread's latest request, at the new tail of its chunk; no other step changes the results |
| ChunkAllocator.RequestServed | src/indices/bw_tree/thread/bwtree.h:2070-2150 | a request that fits into a chunk, running alone from any reachable state, ends with one new block of its size |
| ChunkAllocator.OneSuccessor | src/indices/bw_tree/thread/bwtree.h:2105-2147 | no step gives a chunk that has a successor another one |
| ChunkAllocator.RunTailBound | src/indices/bw_tree/thread/bwtree.h:2071-2093 | with N threads and requests of at most S bytes no tail falls more than N*S below its limit |
| AtomicStack.SwapTakesTop | src/indices/bw_tree/thread/atomic_stack.h:301-356 | a swap that succeeds takes the value on top of the stack at that moment, although its slot was read earlier |
| AtomicStack.StepKeepsInv | src/indices/bw_tree/thread/atomic_stack.h:196-285 | every step of one producer and any consumers keeps the invariant |
| AtomicStack.VersionsIncrease | src/indices/bw_tree/thread/atomic_stack.h:246-261 | versions of tops that are not null strictly increase, so an old snapshot never wins |
| AtomicStack.RunCorrect | src/indices/bw_tree/thread/atomic_stack.h:196-356 | in every run what was pushed is what was popped plus what is on the stack |
| AtomicStack.NeverStuck | src/indices/bw_tree/thread/atomic_stack.h:307-330 | in every run a consumer that has loaded a top can read its slot |
| AtomicStack.RunLifo | src/indices/bw_tree/thread/atomic_stack.h:301-356 | in every run a successful pop returns and removes the top of the stack and nothing else |
| AtomicStack.RunStack | src/indices/bw_tree/thread/atomic_stack.h:246-285 | in every run, the store that ends a push puts exactly the items it began with on top, a swap on the current top takes the top item, and nothing else changes the stack |
| AtomicStack.PushAlone | src/indices/bw_tree/thread/atomic_stack.h:246-285 | a push of one item or many, running alone, puts exactly those on top in their order |
| AtomicStack.PopAlone | src/indices/bw_tree/thread/atomic_stack.h:301-356 | a pop that runs alone returns and removes the top item, or nothing exactly if the stack is empty |

## Left out

- NodeID recycling of the Bw-tree: ids are never reused in the model.
- BwTwoLevel.SearchAlone: states the path of a search whose first child is not being removed, because otherwise the thread first merges that leaf away, which BwProgress.MergeAway states.
- Bw-trees of more than two levels: BwTwoLevel has one inner node over the leaves, which neither splits nor merges; abort records on it are covered as replacements that keep its separators.
- Bw-tree inner remove records and the mapping-table steps of inner splits and merges: navigation, posting and consolidation of such chains are modelled on single chains.
- Bw-tree non-unique keys, iterators, backward navigation, and the read-only variant of leaf navigation that collects values with the same loop.
- BwMappingTable.FindSplitPoint: does not model the size test that precedes it, because a node is split only when it holds many items; it is stated for more than three items.
- Standard library searches (`std::lower_bound`, `std::upper_bound`) are functions with their documented results.
- BLinkNode.LookupLeaf: what lies past the arrays of a full leaf is a parameter, because the original reads there.
- BLinkContents.LookupCorrect: what a slot never written, or one past the array, holds is a parameter.
- Keys of the B-link tree are below 2^64 - 1, the value that marks the end of a level.
- The optimistic, reader-writer and transactional latch paths of the B-link tasks, and deletion.
- Memory orders, struct layout, alignment, prefetching and destructors.
- Epoch counters are assumed not to reach their largest value, and stack versions not to wrap.
- AtomicStack.StepKeepsInv: does not model the capacity of the array, because the code leaves it to its callers.
- ChunkAllocator.RunDisjoint: addresses are offsets within a chunk; that chunks themselves do not overlap is the memory allocator's promise.
- LeafLink.StepKeepsInv: leaves are not reused after they are unlinked, and a leaf is worked on by one operation at a time, as the node locks of the callers ensure.
- MpscQueue.StepKeepsInv: a producer pushes items that are neither queued nor being pushed, as the interface demands.
- The Masstree tree itself and its parsers, benchmark drivers, workload loading and command lines: only the leaf list is modelled; the rest is input, output and measurement or rests on code that is not part of this model.
- The single-threaded linked queue used for deferred garbage is a sequence.
