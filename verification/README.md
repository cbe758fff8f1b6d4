# Verified model of the PGASUS runtime core

This project models the parts of PGASUS whose correctness is hardest to see by reading, and proves
that they do what the code's own checkers, assertions and comments promise:

* **The arena allocator** behind every `MemSource` (`ptmalloc3-malloc.c`, and the in-place resize of
  `dlmalloc-malloc.c`). The model runs from the branch-free bit tricks up to whole runs:
  `Words`, `BinMaps`, `Sizes` (words, bin maps, chunk sizes and bin indices), `Rings`, `SmallBins`
  (circular lists), `Tries`, `TreeLinks`, `TreeSteps`, `TreeSearch`, `TreeBins` (bitwise tries and
  their best-fit search), `Bins`, `Heap` (tiling and boundary tags), `Blocks`, `Release`, `Resize`,
  `Choice` (what taking, releasing, resizing and choosing a chunk mean), `Arena` (the allocator as an
  object with the code's fields and branches), `Policy` (what the choices mean for the free
  chunks), `Runs` (what holds over every run), `Programs` (any
  sequence of requests on an arena is such a run), `Checks` (why the run-time checks pass, and where the
  link words lie).
* **Tasks**: `WaitProtocol` (waiting, triggering and the handoff mutex, lock by lock), `Workers`
  (tasks and stack contexts moving between worker threads), `Scheduler` and `Domain` (priority queues
  with work stealing), `Counters` (their lock-free counters), `RWLock` (the one-word reader/writer lock).
* **The NUMA hash table**: `HashBins`, `HashTables`, `Iteration`.
* **Memory source lifetime**: `MemSources`, and `Stores` (sources together with their arenas).

The constants are those of the 64-bit build: `SIZE_T_SIZE` 8, `MALLOC_ALIGNMENT` 8, `MIN_CHUNK_SIZE`
32, `FOOTERS` 0. Addresses and words are natural numbers; wherever the code relies on unsigned
wraparound or truncation, the model writes it out. An allocator address names a chunk (the position
of its `prev_foot`); the block of chunk `p` is at `p + 16`.

Classes keep the source's fields. Ghost fields give their meaning: the trie of a tree bin, the lists of
the small bins, the chunk layout of an arena, the map that a hash table stands for. A method's contract
ties the new meaning to the old one, and the lemmas of `Runs`, `Blocks`, `Release`, `Resize`, `Tries` and
the others say what that meaning guarantees. Concurrent code is a set of atomic steps (`Enabled`, `Do`)
with an invariant and theorems over every finite interleaving (`Run`, `After`).

## Findings

* `init_top` or-s flags into the top size (src/msource/ptmalloc3-malloc.c:2347-2359), which may be any
  number of bytes. A new arena satisfies the heap invariant, with what `do_check_top_chunk`
  (src/msource/ptmalloc3-malloc.c:1691-1703) asserts at the end of `init_user_mstate`, if and only if
  there is room behind the aligned header and `(base + capacity) % 4 == 0` (`Blocks.InitialIntact`).
  With an odd end the head of the top chunk does not tell its size (`Blocks.OddEnd` is an instance).
  With the second lowest bit set it also looks like that of a chunk in use (`Blocks.MisalignedEnd`). It
  stays so, because blocks are cut off the top in multiples of eight bytes (`Blocks.TopStaysMarked`),
  and so the test in front of the merge (src/msource/ptmalloc3-malloc.c:3798) never lets a freed
  neighbour melt into the top (`Blocks.NeverMerged`).
* The guard of `create_mspace_with_base` (src/msource/ptmalloc3-malloc.c:3602-3603) does not count the
  alignment gap in front of the header, so a misaligned base with a barely sufficient capacity makes
  the top size wrap around. The same if-and-only-if covers it; base 0x1001 with capacity 1009 is an
  instance (`Blocks.MisalignedBase`).
* The x86 form of `compute_tree_index` (src/msource/ptmalloc3-malloc.c:1345-1357) truncates to 32 bits.
  It agrees with the definition exactly for sizes below 2^40 and for those whose truncated size still
  lands in the last bin (`Sizes.X86Agrees`, `Sizes.X86Differs`).
* `ParallelIteration` divides by the number of bins on its node
  (include/PGASUS/hashtable/hashtable.hpp:616). This is a division by zero if and only if the node has
  no bin (`Iteration.SplitNode`), and `DistributedIteration` asks for an iteration over every node with
  CPUs (include/PGASUS/hashtable/containers.hpp:135-137), also when the table is on fewer nodes. With
  `min_units` 0, or so large that the sum in front of the division wraps around, there are no units and
  nothing is visited; in between, the units visit every pair of the node once (`Iteration.SplitNode`).
* `nodes()` drops only neighbouring duplicates (include/PGASUS/hashtable/hashtable.hpp:531-537). Its
  list is without duplicates if and only if equal nodes stand next to each other (`Iteration.Nodes`),
  as they do for a table made over distinct nodes; otherwise the parallel iterations over it visit a
  pair as often as its node is in the list (`Iteration.IterateParallel`).
* `add_thread` accepts an id that is already active (src/tasking/task_scheduler.cpp:134-147) and then
  lists it twice. The last assertion of `remove_thread` (src/tasking/task_scheduler.cpp:163-164) holds
  if and only if the id was listed once; otherwise the id stays listed without queues
  (`Domain.SchedulingDomain.RemoveThread`; `Domain.AddedTwice` is an instance). The scheduler itself
  never adds an active id: `create_thread` asserts that the slot of the worker is free
  (src/tasking/task_scheduler.cpp:244-248).

## Model

| member | source | states |
|---|---|---|
| Sizes.IndexCorrect | src/msource/ptmalloc3-malloc.c:1374-1390 | the branch-free index macro computes the floor-log2 index for every size, and stays below 32 |
| Sizes.IndexRange | src/msource/ptmalloc3-malloc.c:1403-1405 | a size from 256 on lies between the minimum size of its bin and that of the next bin, the last bin being open |
| Sizes.X86Agrees | src/msource/ptmalloc3-malloc.c:1345-1357 | the truncating x86 macro gives the same index if and only if the size is below 2^40 or its truncation is in the last bin |
| Sizes.X86Differs | src/msource/ptmalloc3-malloc.c:1345-1357 | for every positive multiple of 2^40 the x86 macro gives another index |
| Sizes.RequestSize | src/msource/ptmalloc3-malloc.c:754-759 | a padded request is aligned, at least 32 bytes and no more for the smallest requests, holds the block and its header, wastes less than 16 bytes otherwise, and is small exactly for small requests |
| BinMaps.LeastIndex | src/msource/ptmalloc3-malloc.c:1444-1459 | the index of the isolated least bit is the lowest marked bin |
| BinMaps.NextBin | src/msource/ptmalloc3-malloc.c:1462-1462 | masking with the left bits finds the next marked bin above an index, or none |
| BinMaps.Mark | src/msource/ptmalloc3-malloc.c:1414-1418 | marking sets exactly one bin of a map |
| BinMaps.Clear | src/msource/ptmalloc3-malloc.c:1415-1419 | clearing resets exactly one bin of a map |
| BinMaps.NextLeft | src/msource/ptmalloc3-malloc.c:3676-3680 | shifting the map down and up again before masking still finds the next marked bin |
| Rings.LinkSecond | src/msource/ptmalloc3-malloc.c:2044-2048 | linking a node behind the head of a circular list yields the list with the node in second place |
| Rings.Unlink | src/msource/ptmalloc3-malloc.c:2061-2065 | joining the neighbours of a node yields the circular list without it |
| SmallBins.SmallBins.constructor | src/msource/ptmalloc3-malloc.c:2362-2370 | fresh bins are empty |
| SmallBins.SmallBins.Insert | src/msource/ptmalloc3-malloc.c:2033-2049 | inserting puts exactly the chunk at the front of the list of its size, also over the stale header links of an emptied bin |
| SmallBins.SmallBins.Unlink | src/msource/ptmalloc3-malloc.c:2052-2069 | unlinking removes exactly the chunk and clears the map bit with the last one |
| SmallBins.SmallBins.UnlinkFirst | src/msource/ptmalloc3-malloc.c:2072-2086 | the chunk at the front of a marked bin, which has the size of the bin, is the only one removed |
| SmallBins.SmallBins.MarkedBins | src/msource/ptmalloc3-malloc.c:1829-1852 | every small chunk is in the bin of its size and that bin is marked |
| Tries.BitDecides | src/msource/ptmalloc3-malloc.c:1398-1400 | within the range of a tree position exactly one digit of a size tells its halves apart |
| Tries.KeyDecides | src/msource/ptmalloc3-malloc.c:2122-2126 | the top digit of the shifted size picks the child whose range holds the size, and doubling moves on to the next digit |
| Tries.FitsRange | src/msource/ptmalloc3-malloc.c:1773-1776 | a size that shares its digits with a path lies in the range and the bin of that path |
| Tries.SidesOrdered | src/msource/ptmalloc3-malloc.c:1808-1810 | every size in the left subtree of a node is below every size in the right one |
| Tries.GrowValid | src/msource/ptmalloc3-malloc.c:2104-2155 | a new node at a free position on the path of its size keeps the trie invariant |
| Tries.UnchainValid | src/msource/ptmalloc3-malloc.c:2158-2160 | a chain without one of its chunks keeps the trie invariant |
| Tries.SubstituteValid | src/msource/ptmalloc3-malloc.c:2161-2168 | an heir whose size fits the path keeps the trie invariant, with everything below left in place |
| TreeSteps.StepDown | src/msource/ptmalloc3-malloc.c:2120-2127 | a step of the descent consumes one digit and keeps the only place where the size can be below the current node |
| TreeSteps.Succeeded | src/msource/ptmalloc3-malloc.c:2175-2186 | the links after a chained head gave way to its successor represent the trie without that chunk |
| TreeSteps.Replaced | src/msource/ptmalloc3-malloc.c:2187-2239 | the links after an inner node gave way to its rightmost leaf represent the trie without that chunk |
| TreeBins.TreeBins.Descend | src/msource/ptmalloc3-malloc.c:2117-2127 | the descent ends at the chain of the size or at the node with the free child slot for it |
| TreeBins.TreeBins.Insert | src/msource/ptmalloc3-malloc.c:2104-2155 | inserting adds exactly the chunk with its size and keeps tries, links, slots and map consistent |
| TreeBins.TreeBins.Unlink | src/msource/ptmalloc3-malloc.c:2172-2241 | unlinking a chained chunk, a chained head, a leaf or an inner node removes exactly that chunk |
| TreeBins.TreeBins.TakeLeaf | src/msource/ptmalloc3-malloc.c:2187-2201 | the walk to the rightmost leaf ends at a leaf below the node and cuts off only that leaf |
| TreeBins.TreeBins.Relink | src/msource/ptmalloc3-malloc.c:2203-2240 | the replacement takes over slot, parent and children, and an emptied bin is unmarked |
| TreeSearch.PathStep | src/msource/ptmalloc3-malloc.c:2809-2829 | a step along the digits of a request keeps every better fit below the path, below the deepest untaken right subtree, or beyond it |
| TreeSearch.LeftmostStep | src/msource/ptmalloc3-malloc.c:2843-2850 | a step to the leftmost child keeps every better fit below it or larger than all below it |
| TreeSearch.NextCovered | src/msource/ptmalloc3-malloc.c:2832-2840 | when the bin of the request holds no fit, all fits are in the next marked bin or larger |
| TreeBins.TreeBins.FindBest | src/msource/ptmalloc3-malloc.c:2798-2850 | the path search, the untaken right subtree and the leftmost walk find a smallest chunk that fits, and none only if none fits |
| TreeBins.TreeBins.WalkPath | src/msource/ptmalloc3-malloc.c:2805-2830 | the walk down the tree of the request leaves a subtree that holds all better fits of the bin, or none |
| TreeBins.TreeBins.WalkLeft | src/msource/ptmalloc3-malloc.c:2843-2850 | from such a subtree the leftmost path yields a smallest fit |
| TreeBins.TreeBins.FindSmallest | src/msource/ptmalloc3-malloc.c:2871-2887 | for a small request the leftmost walk in the first marked bin finds the smallest of all tree chunks |
| TreeBins.TreeBins.Emptiness | src/msource/ptmalloc3-malloc.c:1818-1826 | the tree map is zero if and only if the trees are empty |
| Bins.NearFit | src/msource/ptmalloc3-malloc.c:3653-3659 | the two lowest shifted map bits are set exactly when a bin within eight bytes of the request holds a smallest fit |
| Bins.NextFit | src/msource/ptmalloc3-malloc.c:3669-3680 | otherwise the next marked small bin holds a smallest fit, or no small chunk fits |
| Bins.Bins.Insert | src/msource/ptmalloc3-malloc.c:2245-2247 | a chunk goes to a list or a tree by its size, and the binned chunks gain exactly it |
| Bins.Bins.Unlink | src/msource/ptmalloc3-malloc.c:2249-2251 | the binned chunks lose exactly that chunk |
| Heap.RecastTiled | src/msource/ptmalloc3-malloc.c:1886-1915 | replacing a range of chunks by one or two keeps the segment tiled, aligned, free of overlap and coalesced |
| Heap.RecastTags | src/msource/ptmalloc3-malloc.c:1719-1750 | if the words of the new chunks and of the chunk behind them are right, all heads, feet and in-use bits agree with their neighbours |
| Heap.PinuseBefore | src/msource/ptmalloc3-malloc.c:1719-1727 | the previous-in-use bit of a chunk tells whether the chunk before it is in use, and otherwise the foot gives its size |
| Heap.PayloadWrites | src/msource/ptmalloc3-malloc.c:1719-1750 | whatever a program writes into its own block, all boundary tags stay in order |
| Blocks.InitialIntact | src/msource/ptmalloc3-malloc.c:2347-2359 | a new arena satisfies the heap invariant if and only if its segment has room behind the aligned header and ends at a multiple of four |
| Blocks.OddEnd | src/msource/ptmalloc3-malloc.c:1691-1703 | a segment with an odd end, accepted by the size guard, whose top head does not tell the top size |
| Blocks.MisalignedEnd | src/msource/ptmalloc3-malloc.c:2347-2359 | a segment accepted by the size guard whose new top chunk looks like one in use |
| Blocks.TopStaysMarked | src/msource/ptmalloc3-malloc.c:3730-3739 | if the second bit of the end address is set, the head of the top chunk looks like one in use however much was cut off the top |
| Blocks.NeverMerged | src/msource/ptmalloc3-malloc.c:3798-3832 | then the release of a block in front of the top takes the branch without a merge, and leaves the top head as it was but for the flag |
| Blocks.MisalignedBase | src/msource/ptmalloc3-malloc.c:3597-3610 | a misaligned segment accepted by the size guard whose top chunk would begin behind its end |
| Blocks.TakenRest | src/msource/ptmalloc3-malloc.c:2859-2863 | splitting a binned chunk keeps the heap invariant and leaves exactly the rest to be binned |
| Blocks.DvReplaced | src/msource/ptmalloc3-malloc.c:2090-2098 | exchanging the designated victim leaves exactly the old one to be binned |
| Release.ReleasedChunks | src/msource/ptmalloc3-malloc.c:3785-3830 | a released block and the free chunks next to it become one chunk, all others stay, and the segment stays tiled and coalesced |
| Release.ReleasedSound | src/msource/ptmalloc3-malloc.c:3768-3845 | the words written on release keep the heap invariant, with victim and top updated as in the code |
| Release.MeltedSizes | src/msource/ptmalloc3-malloc.c:3768-3785 | the sizes and bits that the code reads are those of the neighbours, and the mmap bit of a foot is never set |
| Choice.LargeChoice | src/msource/ptmalloc3-malloc.c:2852-2853 | the wrapping comparison with the victim picks a tree chunk exactly when it is a strictly better fit |
| Choice.PickedServes | src/msource/ptmalloc3-malloc.c:3638-3750 | a picked binned chunk is a legal choice, different from victim and top |
| Arena.Arena.constructor | src/msource/ptmalloc3-malloc.c:3555-3576 | a new arena has one top chunk, no victim and empty bins, and is valid if and only if the segment is usable |
| Arena.CreateWithBase | src/msource/ptmalloc3-malloc.c:3597-3610 | an arena is made exactly for capacities within the bounds, and is valid if and only if the segment is usable |
| Arena.Arena.Split | src/msource/ptmalloc3-malloc.c:2859-2861 | splitting an unlinked chunk takes the request from it and leaves the rest as a free chunk |
| Arena.Arena.ReplaceDv | src/msource/ptmalloc3-malloc.c:2090-2098 | the rest becomes the designated victim and the old victim, which is small as the macro asserts, goes to a small bin |
| Arena.Arena.TakeDv | src/msource/ptmalloc3-malloc.c:3711-3728 | a request is served from the victim, which is split or used up |
| Arena.Arena.TakeTop | src/msource/ptmalloc3-malloc.c:3730-3739 | a request is served from the top chunk, which is never used up |
| Arena.Arena.TmallocLarge | src/msource/ptmalloc3-malloc.c:2798-2868 | a smallest fit among tree chunks is taken if it beats the victim; otherwise nothing changes and the victim is at least as good |
| Arena.Arena.TmallocSmall | src/msource/ptmalloc3-malloc.c:2871-2907 | the smallest tree chunk is taken and its rest becomes the victim |
| Arena.Arena.MallocSmall | src/msource/ptmalloc3-malloc.c:3646-3700 | for a small request a smallest binned fit is used if it is within eight bytes or the victim is too small |
| Arena.Arena.MallocRest | src/msource/ptmalloc3-malloc.c:3711-3742 | behind the bins the victim is used if it fits, else the top chunk if it is larger, else the request fails |
| Arena.Arena.Malloc | src/msource/ptmalloc3-malloc.c:3638-3750 | the heap invariant is kept and the request is served by the chunk that the policy names, by the top only if every other free chunk is too small, or fails without any change |
| Policy.TopIsLast | src/msource/ptmalloc3-malloc.c:3710-3739 | the top chunk is cut only when every other free chunk, the victim included, is too small |
| Policy.RefusedWhenFull | src/msource/ptmalloc3-malloc.c:3711-3742 | a request is refused only when every free chunk is too small, and then nothing changes |
| Policy.BinnedIsBest | src/msource/ptmalloc3-malloc.c:3646-3709 | a binned chunk that is chosen is a smallest fit, and it is preferred to a victim that fits only if it leaves less than a chunk over or, for a large request, is smaller |
| Policy.VictimIsBest | src/msource/ptmalloc3-malloc.c:3711-3728 | the victim is chosen only if no other free chunk but the top is to be preferred, ties going to the victim |
| Policy.LargeIsBest | src/msource/ptmalloc3-malloc.c:3703-3728 | for a large request the chosen chunk is a smallest fit among all free chunks but the top |
| Policy.RestIsVictim | src/msource/ptmalloc3-malloc.c:3690-3739 | a block is cut to the size asked for unless less than a chunk is left over, and the rest of the victim, or of a binned chunk for a small request, becomes the victim |
| Arena.Arena.Dispose | src/msource/dlmalloc-malloc.c:2941-3007 | a released block melts with its free neighbours, and victim, top and bins follow |
| Arena.Arena.Free | src/msource/ptmalloc3-malloc.c:3752-3851 | freeing a live block keeps the heap invariant and yields the released layout; freeing null does nothing |
| Policy.VictimFollows | src/msource/ptmalloc3-malloc.c:3768-3826 | after a release the victim is the free chunk that holds the old one, or none if the top swallowed it |
| Arena.Arena.TryRealloc | src/msource/dlmalloc-malloc.c:3389-3466 | a block is resized in place if and only if it is large enough or the free space behind it suffices; otherwise nothing changes; a victim behind the block becomes what is free there afterwards, any other stays the victim |
| Policy.WhenResizable | src/msource/dlmalloc-malloc.c:3400-3460 | the condition for that, in terms of the block and the chunk behind it: the top must not be used up |
| Arena.Arena.CutRest | src/msource/dlmalloc-malloc.c:3402-3406 | cutting the rest off a block and disposing of it yields the resized layout |
| Arena.Arena.ExtendTop | src/msource/dlmalloc-malloc.c:3409-3419 | a block grows into the top chunk |
| Arena.Arena.ExtendDv | src/msource/dlmalloc-malloc.c:3421-3443 | a block grows into the victim, whose rest stays the victim |
| Arena.Arena.ExtendNext | src/msource/dlmalloc-malloc.c:3444-3459 | a block grows into the binned chunk behind it |
| Arena.Arena.Traverse | src/msource/ptmalloc3-malloc.c:1886-1917 | walking the heads from the first chunk to the top adds up to the whole segment |
| Arena.Arena.Drained | src/msource/ptmalloc3-malloc.c:3555-3576 | without live blocks the arena is as good as new: one top chunk of the original size, no victim, both maps zero |
| Runs.Disjointness | src/msource/ptmalloc3-malloc.c:1753-1764 | live blocks are aligned, disjoint from each other and from the malloc_state, and lie within the segment |
| Runs.FailsOnlyWhenFull | src/msource/ptmalloc3-malloc.c:3638-3750 | a request fails if and only if no binned chunk and no victim has the size and the top chunk is not larger |
| Runs.ServedBlock | src/msource/ptmalloc3-malloc.c:1753-1764 | a served request gets a chunk that was free, of at least the size and less than 32 bytes more, and no other block changes |
| Runs.ReleasedBlock | src/msource/ptmalloc3-malloc.c:3752-3851 | freeing takes exactly that block from the live blocks |
| Runs.ResizedBlock | src/msource/dlmalloc-malloc.c:3389-3466 | a resized block keeps its address, has at least the size and less than 32 bytes more, and no other block changes |
| Runs.AllReleased | src/msource/ptmalloc3-malloc.c:1886-1917 | a heap without live blocks consists of the malloc_state and one top chunk of its original size |
| Runs.Conservation | src/msource/ptmalloc3-malloc.c:1886-1917 | the chunks of any heap over a segment add up to the same total |
| Runs.StepGood | src/msource/ptmalloc3-malloc.c:3638-3851 | every operation keeps the heap tiled and changes the live blocks as a map of its own would |
| Runs.Untouched | src/msource/ptmalloc3-malloc.c:3638-3851 | over every run a block is neither moved, resized nor handed out again before it is itself freed or resized |
| Runs.RunRestores | src/msource/ptmalloc3-malloc.c:3638-3851 | every run that begins and ends without live blocks restores the heap, whatever the order of frees |
| Programs.Execute | src/msource/ptmalloc3-malloc.c:3638-3851 | any sequence of malloc, free and resize requests executed on an arena is a run whose operations answer the requests in order, keeps the arena valid, and leaves exactly the live blocks in the hands of the program |
| Programs.RunProgram | src/msource/ptmalloc3-malloc.c:3597-3610 | a program on an arena of its own that holds nothing in the end leaves the arena as it was made |
| Stores.RegionApart | src/msource/msource.cpp:185-200 | the region that an arena hands out overlaps no block of this or another arena, and the blocks stay in their live blocks |
| Stores.StepSound | src/msource/msource.cpp:560-652 | allocation, release and new arenas keep every block of a source in a live block of its arena, and the arenas apart |
| Stores.SourceRun | src/msource/msource.cpp:560-652 | over every run of sources and arenas the regions handed out are never in use, so that the sources go through a run of `MemSources` |
| Stores.GrantedBacked | src/msource/msource.cpp:560-652 | over every run the bytes of a live allocation lie in the payload of a live block of the arena that they came from |
| Checks.ReleaseChecks | src/msource/ptmalloc3-malloc.c:3766-3797 | on the release of a live block the address, in-use and order checks pass for it and its neighbours |
| Checks.SmallLinks | src/msource/ptmalloc3-malloc.c:2061-2062 | the links of a chunk in a small bin lead to its header or to a chunk in a small bin |
| Checks.HeaderLink | src/msource/ptmalloc3-malloc.c:2040-2079 | the header of a marked small bin leads to a chunk in a small bin |
| Checks.ChainLinks | src/msource/ptmalloc3-malloc.c:2139-2178 | the chain links of a tree chunk lead to tree chunks |
| Checks.NodeLinks | src/msource/ptmalloc3-malloc.c:2195-2229 | the child and parent links of a tree node lead to tree chunks, are null, or lead to the slot of a root |
| Checks.BinnedAddress | src/msource/ptmalloc3-malloc.c:1498-1498 | every binned chunk of an arena passes the address check |
| Checks.LinkWords | src/msource/ptmalloc3-malloc.c:1719-1750 | the link words of a free chunk lie within it, apart from all tags, from all payloads and from the link words of other chunks |
| WaitProtocol.StepInv | include/PGASUS/tasking/synchronizable.hpp:60-67 | every lock-level step of registering, waiting, triggering and notifying keeps the protocol invariant |
| WaitProtocol.RegisterInv | include/PGASUS/tasking/synchronizable.hpp:60-67 | a client is registered, or passes, consistently with what it will depend on |
| WaitProtocol.RemoveInv | include/PGASUS/tasking/synchronizable.hpp:119-130 | a signal always finds its triggerable among the dependencies, so the assertion that there are any holds |
| WaitProtocol.NotifyInv | src/tasking/task_base.cpp:77-84 | notify always finds the task waiting and without dependencies |
| WaitProtocol.SetWaitingInv | src/tasking/task_base.cpp:130-143 | the state change to waiting always finds the task running |
| WaitProtocol.NoLostWakeup | include/PGASUS/tasking/synchronizable.hpp:119-199 | a waiting task depends on exactly the triggerables that still have to signal it, none of them already triggered, and when it depends on none exactly one thread is about to notify it |
| WaitProtocol.WokenByNotify | src/tasking/task_base.cpp:77-84 | a task stops waiting only by a notify that follows its last signal, which leaves it suspended, and it runs again only when scheduled |
| WaitProtocol.NotifiedOnce | src/tasking/task_base.cpp:77-143 | in every run each blocking wait is ended by exactly one notify |
| WaitProtocol.MutexLocked | include/PGASUS/mutex.hpp:30-43 | a mutex is locked exactly while it has an owner, and whenever it has waiters |
| WaitProtocol.MutexHandoff | include/PGASUS/mutex.hpp:39-43 | after a release with waiters, in every run the longest-waiting client is the next to be let in, and until then the mutex is locked with nobody inside, so no other call of lock passes |
| WaitProtocol.MutexTurns | include/PGASUS/mutex.hpp:30-43 | over every run tasks are let in in the order in which they called lock, and each leaves before the next is let in |
| WaitProtocol.MutualExclusion | include/PGASUS/mutex.hpp:30-43 | after every run from the start at most one task is inside, it is the owner and the mutex is locked; those let in are those that left and the one inside, those that called are those let in and those waiting |
| WaitProtocol.WaitReturns | include/PGASUS/tasking/synchronizable.hpp:150-174 | when a wait is over, everything it was for has triggered, and the task is inside every mutex among it |
| WaitProtocol.WaitDone | include/PGASUS/tasking/synchronizable.hpp:150-174 | over every run a wait called with a list returns only when every entry of that list has triggered, or for a mutex belongs to the task |
| WaitProtocol.WaitCalls | include/PGASUS/tasking/synchronizable.hpp:163-174 | over every run a wait that returned has called for every entry of its list, so that every lock is among the arrivals |
| Workers.StepInv | src/tasking/worker_thread.cpp:143-237 | every step of the worker loop, of dropping and of resuming tasks keeps the ownership invariant |
| Workers.OnePlace | src/tasking/worker_thread.cpp:143-219 | an unfinished task is queued, or waiting, or in the hands of exactly one worker |
| Workers.PlaceStep | src/tasking/worker_thread.cpp:143-219 | a task is fetched from the queue, given back, blocked, woken and finished by these steps, and its place changes by no others |
| Workers.AfterDrop | src/tasking/worker_thread.cpp:155-168 | over every run a worker that dropped its task next gives it back if and only if the task yields, and blocks it or finds it woken if and only if it waits |
| Workers.WaitsBlocked | src/tasking/worker_thread.cpp:155-168 | a task dropped to wait and then blocked is on no queue until it is woken |
| Workers.DoneForGood | src/tasking/task_base.cpp:54-65 | a finished task stays finished |
| Workers.ReadyOrder | src/tasking/worker_thread.cpp:130-141 | the last context made ready takes over, else the last one cached, else a new one |
| Workers.OneOwner | src/tasking/worker_thread.cpp:130-141 | every context is reached in exactly one way: as the current one of one worker, from one ready list, from the cache, or through one suspended task |
| Workers.OwnStack | src/tasking/worker_thread.cpp:225-237 | two unfinished started tasks never share a context |
| Workers.ResumeInv | src/tasking/worker_thread.cpp:225-237 | a resumed context continues in the task that dropped it, and the assertion that it differs from the worker's current one holds |
| Workers.DropsIntoLoop | src/tasking/worker_thread.cpp:225-228 | the neutral context that takes over continues in the scheduler loop |
| Workers.FinishesAtHome | src/tasking/task_base.cpp:54-65 | the worker returned by a finished task is the one that executes it |
| RWLock.StepInv | include/PGASUS/base/rwlock.hpp:44-89 | under every interleaving of fewer than 2^30 threads the word is the number of readers plus the flag while a writer has claimed it |
| RWLock.ChecksHold | include/PGASUS/base/rwlock.hpp:55-88 | no fail or assert of the lock can fire |
| RWLock.Exclusion | include/PGASUS/base/rwlock.hpp:67-84 | a writer inside excludes all readers and writers |
| RWLock.NoEntry | include/PGASUS/base/rwlock.hpp:44-84 | from setting the flag until its release no reader and no other writer enters, and readers only leave |
| Scheduler.TaskCollection.TryGet | src/tasking/task_collection.cpp:62-89 | a task is returned if and only if there is one, and exactly that one is popped |
| Scheduler.OwnFirst | src/tasking/task_collection.cpp:62-67 | a thread with tasks of its own gets the first of them |
| Scheduler.GlobalSecond | src/tasking/task_collection.cpp:69-71 | a thread without gets the first of the global tasks |
| Scheduler.NearestThird | src/tasking/task_collection.cpp:73-86 | without global tasks it gets the first of the filled queue that comes first behind the random start |
| Scheduler.TaskCollection.Put | src/tasking/task_collection.cpp:94-99 | the task is appended to the queue of its thread, or to the global one if there is none |
| Scheduler.TaskCollection.RegisterThread | src/tasking/task_collection.cpp:31-34 | a queue is added for the thread if it had none, and every task stays where it is |
| Scheduler.TaskCollection.DeregisterThread | src/tasking/task_collection.cpp:39-57 | the queue of the thread is emptied into the global one in order, and no task is lost or doubled |
| Scheduler.FullTurn | src/tasking/task_collection.cpp:74-86 | a scan of one turn from any start looks at every queue |
| Domain.SchedulingDomain.TryGetTask | src/tasking/task_scheduler.cpp:81-92 | a task of the highest level present is taken, and none only if all levels are empty |
| Domain.SchedulingDomain.PutTask | src/tasking/task_scheduler.cpp:97-131 | the task goes to the end of the queue of its thread if that is active, else to the end of the global queue; the level is created if needed, the top level rises to it, and nothing else changes |
| Domain.SchedulingDomain.AddThread | src/tasking/task_scheduler.cpp:134-147 | every created level has a queue for the thread afterwards, also if it had one, the id is appended, and every task stays where it is |
| Domain.SchedulingDomain.RemoveThread | src/tasking/task_scheduler.cpp:150-168 | one entry of the id goes and every created level loses its queue, whose tasks go to the end of the global one in order; the id is gone if and only if it was listed once, and the domain stays in order if and only if that holds or no level exists |
| Domain.AddedTwice | src/tasking/task_scheduler.cpp:163-164 | an id added twice and removed once is still listed, without queues |
| Counters.StepInv | src/tasking/task_scheduler.cpp:81-131 | under every interleaving a count is queued plus popped but not discounted minus pushed but not counted, modulo 2^64 |
| Counters.RunInv | src/tasking/task_scheduler.cpp:123-131 | over every run the top level never sinks and is as high as any finished put |
| Counters.AtRest | src/tasking/task_scheduler.cpp:81-131 | between operations the count of a level is the number of its tasks |
| Counters.SearchVisits | src/tasking/task_scheduler.cpp:81-92 | a search begins at the top level, visits every lower one in turn, and comes back empty only after the lowest |
| HashBins.BinData.GetOrCreate | include/PGASUS/hashtable/hashtable.hpp:378-420 | the value of the key is returned, the initial one is inserted if there was none, and nothing else changes, whether or not the bin is resized |
| HashBins.BinData.Remove | include/PGASUS/hashtable/hashtable.hpp:451-461 | the pair is removed if present, and the result tells which |
| HashBins.BinData.Resize | include/PGASUS/hashtable/hashtable.hpp:341-357 | rehashing into twice the buckets keeps every pair, in the bucket its hash selects |
| HashBins.BinData.Search | include/PGASUS/hashtable/hashtable.hpp:394-398 | the scan of the bucket finds the key if and only if the bin has it |
| HashTables.HashTable.GetOrCreate | include/PGASUS/hashtable/hashtable.hpp:543-547 | the whole table behaves as a finite map under operator[] |
| HashTables.HashTable.Remove | include/PGASUS/hashtable/hashtable.hpp:554-558 | the whole table behaves as a finite map under remove |
| HashTables.HashTable.Size | include/PGASUS/hashtable/hashtable.hpp:524-529 | the sum of the bin counts is the number of keys |
| HashTables.HashTable.constructor | include/PGASUS/hashtable/hashtable.hpp:510-516 | a new table is empty, its bins spread in order over the nodes |
| HashTables.ShareOf | include/PGASUS/hashtable/hashtable.hpp:510-516 | the node of a bin is the one whose equal share of the bins it is in |
| HashTables.HashDigits | include/PGASUS/hashtable/hashtable.hpp:221-223 | the low digits of a hash select the bin and the next ones the bucket |
| Iteration.BucketSpaceIterator.Next | include/PGASUS/hashtable/containers.hpp:66-71 | advancing drops exactly the current pair from what is still to be visited in a bin |
| Iteration.TableIterator.Next | include/PGASUS/hashtable/containers.hpp:26-71 | advancing drops exactly the current pair from what is still to be visited in the table |
| Iteration.Iterate | include/PGASUS/hashtable/hashtable.hpp:578-598 | iteration from begin to end visits each pair exactly once |
| Iteration.SplitNode | include/PGASUS/hashtable/hashtable.hpp:607-626 | a node without bins is a division by zero; otherwise the units visit each pair of the node exactly once and no other if min_units is in range, and nothing if it is not, and there are at least min_units of them up to 64 |
| Iteration.ClaimAll | include/PGASUS/hashtable/hashtable.hpp:631-639 | for every sequence of claims by any threads on any iterations, all threads together visit exactly what the units handed out so far hold, each unit once |
| Iteration.Nodes | include/PGASUS/hashtable/hashtable.hpp:531-537 | the node list has exactly the nodes of the bins, and each once if and only if equal nodes stand next to each other |
| Iteration.IterateParallel | include/PGASUS/hashtable/hashtable.hpp:600-640 | whichever threads make which claims in whichever order, no pair is visited twice, and when all units are claimed, all threads together visited each pair, with its value, exactly once |
| MemSources.AlignDownBits | src/msource/msource.cpp:56-65 | masking out the digits below a power of two aligns downwards |
| MemSources.AlignedFits | src/msource/msource.cpp:618-638 | an aligned block is aligned, lies behind both footers and within its chunk |
| MemSources.GetFooterForMem | src/msource/msource.cpp:407-416 | following the links from any live pointer ends at the real footer of its block, which names the allocating source |
| MemSources.Packed | src/msource/msource.cpp:230-247 | the packed word decodes to the numbers of handles and blocks |
| MemSources.CountInv | src/msource/msource.cpp:237-260 | the thread that takes the last count is to destroy the source exactly when handles and blocks have both become zero, and the destructor's assertion holds |
| MemSources.AllocInv | src/msource/msource.cpp:560-638 | allocation, aligned or not, keeps footers, counts and disjointness of live blocks |
| MemSources.AllocRange | src/msource/msource.cpp:185-190 | an allocation of either kind hands out one new pointer, whose bytes and footers lie in its region |
| MemSources.GrantedApart | src/msource/msource.cpp:560-638 | over every run two live allocations overlap neither in the bytes asked for nor in their footers |
| MemSources.CountsKept | src/msource/msource.cpp:230-262 | over every run the packed word counts the handles made and dropped and the blocks allocated and freed |
| MemSources.FreeInv | src/msource/msource.cpp:640-652 | freeing takes the block from the source its footer leads to |
| MemSources.DestroyedOnce | src/msource/msource.cpp:459-482 | over every run a source is destroyed at most once, and never while it has handles or blocks |

## Left out

- The branches behind the allocator's run-time corruption checks (`ok_address`, `ok_next`, `ok_cinuse`, `ok_pinuse`): in a valid arena the checks pass (`Checks`). `ok_magic` compares a word of the malloc_state that nothing changes.
- Trimming and `release_checks`: the segment is external, so both release nothing and only adjust bookkeeping.
- Directly mapped chunks, `sys_alloc`, several segments, footers and internal locks of the allocator: not reachable from the default arena path.
- Memory as one array of bytes: head words, prev_foot words, list links and tree links are separate maps by chunk address. `Heap.PayloadWrites` covers writes of the program into its blocks, and `Checks.LinkWords` says that link words, tags and payloads do not overlap.
- TreeBins.TreeBins.Insert: uses the portable index macro; the x86 macro gives the same index for all sizes below 2^40, and `Sizes.X86Agrees` says exactly when it differs.
- Arena.Arena.Free: is stated for null and for live blocks; a pointer that is not a live block is an error of the caller, which the code detects only in part.
- Arena.Arena.TryRealloc: `can_move` and mapped chunks are left out, as are `realloc` itself, `memalign` and the other entry points built on malloc and free.
- The concurrent parts (`WaitProtocol`, `Workers`, `Counters`, `RWLock`, `MemSources`) are relations over atomic steps on values instead of methods on shared objects; memory is sequentially consistent. Deadlock freedom and progress are not stated.
- WaitProtocol.EnterInv: the list of a wait names each triggerable once; a list that repeats one is not modelled.
- WaitProtocol.MutualExclusion: unlock is called by a task that came back from lock and has not called unlock since; the code does not check its caller, and an unlock by another task is an error of the caller.
- WaitProtocol.RegisterInv: the short critical section of `register_wait` is one step, since nothing else can happen while its lock is held.
- Worker shutdown, sleeping on the semaphore, timeouts and the `KEEP_THREAD` flag, which nothing sets; the worker set is fixed.
- Storage lifetime of tasks and synchronizers after their notification.
- A put into a queue that is being deregistered at the same time: queue operations of `Scheduler` and `Domain` are atomic.
- Scheduler.TaskCollection.TryGet: the random start of the scan is a parameter.
- Counters.StepInv: a try_get on filled queues may come back empty, as it can when tasks move between the looks at two queues.
- HashTables.HashTable.GetOrCreate: one call is atomic; two threads creating the same key at once are not modelled. The reference it returns is modelled by `Assign`.
- `lookup`, `set`, `find` and iterators over a bucket that changes under them.
- Calls into the operating system (mapping, page migration, NUMA binding), logging, statistics, topology discovery and the C malloc wrappers.
- MemSources.AllocInv: that the region is not in use is an enabling condition there; `Stores.SourceRun` derives it from the arenas over every run. Directly mapped blocks are left out.
