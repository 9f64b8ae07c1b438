# Memory management of the Yega kernel, modelled in Dafny

This project models the kernel's physical memory stack and proves what it keeps over whole runs:

- the buddy page allocator (`memory-management/buddy.c`): eleven orders of free lists, splitting, merging, initialisation;
- the slab allocator on top of it (`memory-management/slab.c`): caches with three slab lists, in-object free chains, colouring, on-slab and off-slab descriptors, destruction of surplus slabs, `kmalloc` and `kfree`;
- the circular list both use (`data_structures/list.c`), at the level of its link words;
- the two-level page tables (`memory-management/mm.c`) and the address conversions of `include/page.h`.

`dafny verify dfyconfig.toml` checks everything.

## How it is built

Every operation exists twice. A function on values says what the operation does to the whole state; the theorems are about these functions. A class with fields and arrays does it in place with the loops of the source, and each method's `ensures` ties the new state to that function of the old state. `BuddyZone`, `SlabAllocator` and `PageTables` are those classes.

List nodes lie in one memory of link words, two words each (`ListHead.Links`): the `lru` of every page, then the eleven `free_list` heads. A word holds NULL, a node, or the address of a descriptor. `list_add` and `list_del` are proved on such a memory once, and `BuddyZone` runs its lists through them; a slab's owner pair is stored in the same two words of a page.

| modules | content |
|---|---|
| `Bits`, `Blocks`, `Sequences`, `PageFlags`, `PageAddr` | XOR, AND and masks as arithmetic; aligned blocks, coalescing and canonicity; sequences of distinct indices; flag words; address conversions |
| `ListHead` | the circular list |
| `Zone`, `ZoneProofs`, `ZoneTheorems`, `ZoneExact`, `ZoneInit`, `ZoneRuns`, `ZoneLinks`, `BuddyZone` | the buddy allocator, its link words |
| `SlabLayout`, `SlabModel`, `SlabLists`, `SlabPlaces`, `SlabLocal`, `SlabObjects`, `SlabPages`, `SlabGrow`, `SlabDrop`, `SlabFrames`, `SlabAlloc`, `SlabFree`, `SlabSystem` | the slab allocator: layout, state and invariant, each elementary step, allocation, release, whole runs |
| `SlabTheorems`, `SlabExact`, `SlabMoves`, `SlabUses`, `SlabReuse`, `SlabColours`, `SlabBoot`, `SlabRequests`, `SlabConserves`, `SlabAllocator` | what holds in every reachable state and over every run, which slab and object each operation takes, colouring, bootstrapping, the sizes served, conservation of pages, the allocator in place |
| `Paging`, `PagingTest`, `PagingSetup` | page tables, the 32-bit walk, the self-test |

The invariant of the page allocator is `Zone.Inv(z, live)`: the free lists hold exactly the pages flagged private with the order of their list, `nr_free` is the length of each list, free and handed-out blocks together are disjoint, aligned and inside the zone, and no two free buddies remain unmerged below order 10. The invariant of the whole system is `SlabModel.KInv(k)`. It contains the rings: the link words of heads and free pages form one ring per order through the pages on its list, and the words of a slab's pages hold its cache and descriptor. It is not assumed but established, by `SlabBoot.InitIsClean` and `SlabBoot.InitialIsGood` from zone initialisation and by `SlabBoot.BootSucceeds` after cache initialisation. The fields `homes`, `live` and `marked` of the slab state only record history for the proofs.

Where code and comments disagree the model follows the code:

- `~PG_FLAG_private` expands to `(~1)<<4` and clears bits 0 to 4; `~PG_FLAG_slab` clears bits 0 to 8 (`include/zone.h:42-46`).
- A comment in `kmem_cache_init` gives 100 bytes for a cache descriptor; the structure has 104 (both round up to 128).
- `create_zone` already counts every page as free and initialisation counts the free ones again, so `free_pages` is ahead of the lists by a constant; only that difference is invariant.
- `ralign` is computed in `kmem_cache_create` and never used: objects are aligned as requested by `align`, not to the cache line.
- `count_pgdir_entries` rounds down: the last pages of a zone whose size is no multiple of 1024 pages are not mapped.
- `get_free_page` returns 0 both for page 0 and for no page; `setup_paging` and its self-test do not look, and use page 0.
- `test_buddy` frees what it asked for even when it got NULL.

Properties that fail, with their exact conditions:

- Destroying an off-slab slab gives back the right pages exactly when its first object lies in its first page (`SlabBoot.OffSlabPageIff`), for every colour exactly when the cache is page-safe (`SlabBoot.PagesGoBackExactly`). `SlabBoot.UnsafeCache` is a cache that is not; the size table has none. Such caches may be created and used; what a run excludes is the free that would destroy such a slab.
- The page tables agree with `__pa` after the table loops exactly when enough pages were free (`Paging.TablesRefinePaExactly`). The self-test at the end of `setup_paging` stores through them: it comes back with the tables right exactly when more than as many mapped pages as tables were free, or exactly as many pages and page 0 was not one of them (`PagingTest.PagingSurvivesTestExactly`). Otherwise it faults or overwrites a table entry. In the second case it also clears TAKEN on page 0.
- The self-test of the buddy allocator restores the zone exactly when the two runs it asks for are free (`ZoneRuns.SelfTestRestoresExactly`).
- Freeing and allocating again returns the same object except in one situation (`SlabReuse.ReuseExactly`).

## Model

| member | source | states |
|---|---|---|
| `Bits.BuddyIsOtherHalf` | memory-management/buddy.c:133 | XOR with the block size of an aligned index is the other half of the enclosing block |
| `Bits.AndIsCommonBase` | memory-management/buddy.c:150 | AND of two buddies is the first page of the merged block |
| `Bits.BuddyArithmetic` | memory-management/buddy.c:133-150 | both bit tricks together as additions and subtractions of a power of two, with the alignment of the result |
| `Bits.HighBits` | include/kernel.h:19-21 | masking the low bits of a 32-bit word rounds down to a multiple of the power of two |
| `Blocks.CoveringBlock` | memory-management/buddy.c:123-159 | if the blocks are coalesced, every covered aligned run lies inside one block |
| `Blocks.BlockIsMaximalRun` | memory-management/buddy.c:123-159 | in a coalesced tiling the blocks are exactly the maximal aligned runs of covered pages |
| `Blocks.Canonical` | memory-management/buddy.c:123-159 | two coalesced block sets covering the same pages are equal |
| `Blocks.CoalescedMeansNoFreeBuddy` | memory-management/buddy.c:115-152 | the coalescing condition says that no free block below order 10 has a free buddy of its order |
| `PageFlags.ClearPrivateDecodes` | memory-management/buddy.c:43-46 | the unparenthesised macro clears bits 0 to 4 of the flag word and keeps the others |
| `PageFlags.ClearSlabDecodes` | memory-management/buddy.c:48-51 | the unparenthesised macro clears bits 0 to 8 |
| `PageAddr.PageOfAddress` | include/page.h:14-28 | every address inside the direct map of a page leads back to that page |
| `PageAddr.RoundTripIffMapped` | include/page.h:19-25 | page to address to page is the identity exactly below the direct-map limit |
| `PageAddr.PaOfVa` | include/page.h:14-21 | `__pa` inverts `__va` exactly on the addresses that do not wrap |
| `Zone.FirstNonEmpty` | memory-management/buddy.c:70-76 | the search finds the least order from the requested one on with a non-empty list |
| `ZoneProofs.SplitKeepsInv` | memory-management/buddy.c:87-98 | splitting a block down keeps every part of the invariant |
| `ZoneProofs.MergeKeepsInv` | memory-management/buddy.c:132-158 | merging a returned block upwards keeps the invariant, including maximal coalescing |
| `ZoneProofs.AllocKeepsInv` | memory-management/buddy.c:63-100 | allocation keeps the invariant and hands out a block that overlaps nothing |
| `ZoneProofs.FreeKeepsInv` | memory-management/buddy.c:123-159 | freeing a handed-out block keeps the invariant |
| `ZoneTheorems.AllocIsComplete` | memory-management/buddy.c:63-100 | allocation returns NULL exactly when no aligned run of free pages of that order exists |
| `ZoneTheorems.AllocTakesBlock` | memory-management/buddy.c:63-100 | exactly the pages of the returned block stop being free |
| `ZoneTheorems.FreeReturnsBlock` | memory-management/buddy.c:123-159 | exactly the pages of the freed block become free |
| `ZoneTheorems.MergeUndoesSplit` | memory-management/buddy.c:63-159 | merging from a half upwards removes the halves a split put on the lists, in order |
| `ZoneExact.AllocTakesLeast` | memory-management/buddy.c:70-100 | the block taken is the first of the least order that is large enough, no free block has an order in between, and exactly its upper halves, one per order, are put on their lists; all other lists keep their order; `free_pages` drops by the pages asked for |
| `ZoneExact.FreeMergesExactly` | memory-management/buddy.c:123-159 | the freed block ends inside one free block at the head of its list; each order merged on the way loses one buddy inside it, and every other list stays element for element |
| `ZoneTheorems.FreeUndoesAlloc` | memory-management/buddy.c:63-159 | freeing the block just allocated restores the zone exactly: every list element for element, every counter, flag and order |
| `ZoneTheorems.AccountingIsConserved` | memory-management/buddy.c:84-158 | `free_pages` minus the pages on the lists does not change in an allocation or a free |
| `ZoneTheorems.AllocKeepsFlags` | memory-management/buddy.c:82-97 | allocation changes no flag but the private bit |
| `ZoneTheorems.FreeKeepsFlags` | memory-management/buddy.c:146-156 | freeing changes no flag but the private bit |
| `ZoneInit.BlockOrderIsLargest` | memory-management/buddy.c:189-208 | the chosen order is the largest that is aligned, fits the rest of the run and exists |
| `ZoneInit.GreedyIsMaximal` | memory-management/buddy.c:178-217 | every block the greedy split takes is a maximal aligned run of usable pages |
| `ZoneInit.FreeDoesNotMerge` | memory-management/buddy.c:132-152 | `free_block` finds no buddy to merge with during initialisation |
| `ZoneInit.RegionTiles` | memory-management/buddy.c:178-217 | adding a region equals inserting its greedy blocks one by one, without a merge, and covers each page once |
| `ZoneInit.ScanTiles` | memory-management/buddy.c:234-271 | the scan adds every maximal run of usable pages exactly once, and no `free_block` on the way merges: it equals the merge-free scan |
| `ZoneInit.InitTiles` | memory-management/buddy.c:219-271 | for every pattern of taken and reserved pages the result satisfies the invariant, is maximally coalesced, frees exactly the pages that are neither TAKEN nor RESERVED, counts them, has every list in descending order, and equals the merge-free scan |
| `ZoneRuns.RunIsSafe` | memory-management/buddy.c:63-159 | over any run of allocations and valid frees: invariant, same covered pages, same flags, same accounting excess |
| `ZoneRuns.ReachableStates` | memory-management/buddy.c:63-275 | in every state reached from initialisation a page is free or held exactly when it was neither taken nor reserved, never both, and `free_pages` is the number of free pages plus a constant |
| `ZoneRuns.FreePagesDetermineLists` | memory-management/buddy.c:123-159 | two reachable states with the same free pages have the same blocks on every list |
| `ZoneRuns.FreeingEverythingRestores` | memory-management/buddy.c:123-159 | once everything is freed, in any order, every list holds the blocks it started with |
| `ZoneRuns.RunNest` | memory-management/buddy.c:63-159 | any properly nested sequence of allocations and frees, with no free for a failed allocation, restores the zone exactly |
| `ZoneRuns.SelfTestRestoresExactly` | memory-management/buddy.c:277-302 | the self-test frees only what it was given and restores the zone, exactly when a run of order 9 is free and, that taken, one of order 4 |
| `ZoneLinks.OnListIff` | memory-management/buddy.c:115-121 | a page is on the list of an order exactly when it carries the private flag and that order |
| `ZoneLinks.RelinkedMatches` | memory-management/buddy.c:63-159 | the link words after an allocation or a free form one ring per order through the new lists |
| `ZoneLinks.RelinkedLink` | memory-management/buddy.c:94-97 | the stores of `list_add` on one list leave the other ten rings and the words of every page on no list |
| `ZoneLinks.RelinkedUnlink` | memory-management/buddy.c:146-149 | the stores of `list_del` likewise, and the page that leaves has no links |
| `BuddyZone.BuddyZone.constructor` | memory-management/mm.c:138-154 | `create_zone`: empty lists whose heads are rings of their own, every present page counted as free |
| `BuddyZone.BuddyZone.UnlinkPage` | memory-management/buddy.c:146-149 | `list_del` through the words of the page and its neighbours: one page leaves its list, the rings stand, and only words of the head and of pages on that list were written |
| `BuddyZone.BuddyZone.LinkPage` | memory-management/buddy.c:94-97 | `list_add` through the words of head, page and old first page: the rings stand, and no word of another page was written |
| `BuddyZone.BuddyZone.FindOrder` | memory-management/buddy.c:70-76 | the search loop reads the heads and finds the first non-empty order |
| `BuddyZone.BuddyZone.SplitDown` | memory-management/buddy.c:87-98 | the split loop refines the recursive split, link words included |
| `BuddyZone.BuddyZone.CarveBlock` | memory-management/buddy.c:78-99 | taking the head off a list and splitting it, link words included |
| `BuddyZone.BuddyZone.AllocateBlock` | memory-management/buddy.c:63-100 | `allocate_block` in place refines the allocation on values; the words of heads and list pages form the new rings and no page that is on no list before and after has a word changed |
| `BuddyZone.BuddyZone.MergeUp` | memory-management/buddy.c:132-158 | the merge loop refines the recursive merge, link words included |
| `BuddyZone.BuddyZone.FreeBlock` | memory-management/buddy.c:123-159 | `free_block` in place refines the release on values, link words included |
| `BuddyZone.BuddyZone.ChooseOrder` | memory-management/buddy.c:186-208 | the halving loop computes the block order |
| `BuddyZone.BuddyZone.AddFreeRegion` | memory-management/buddy.c:178-217 | the region loop refines the recursive region and keeps the rings |
| `BuddyZone.BuddyZone.SkipBlocked` | memory-management/buddy.c:256-260 | skipping stops at the first usable page and leaves the rest of the scan the same |
| `BuddyZone.BuddyZone.ResetLinks` | memory-management/buddy.c:225-229 | every page becomes a ring of its own and the list heads keep theirs |
| `BuddyZone.BuddyZone.ScanZone` | memory-management/buddy.c:234-271 | the scan loops refine the recursive scan and keep the rings |
| `BuddyZone.BuddyZone.InitZone` | memory-management/buddy.c:219-271 | `init_zone` up to its self-test establishes the invariant and the rings and frees exactly the usable pages |
| `BuddyZone.BuddyZone.SelfTest` | memory-management/buddy.c:277-302 | `test_buddy` in place: with the runs it asks for free, the zone is as before and the rings stand |
| `BuddyZone.BuddyZone.FreeBuddySystem` | memory-management/buddy.c:9-19 | all rings end empty, every page that was on a list is cleared, every other page keeps its words |
| `ListHead.InitListHead` | data_structures/list.c:4-8 | an empty ring; no other node is written |
| `ListHead.InitListNull` | data_structures/list.c:10-14 | a node with no links |
| `ListHead.GenericAdd` | data_structures/list.c:15-21 | four stores between two neighbours of a ring insert at that index of its sequence; no other node is written |
| `ListHead.ListAdd` | data_structures/list.c:29-32 | prepending to the sequence; every ring that shares no node stays |
| `ListHead.ListAddTail` | data_structures/list.c:33-36 | appending to the sequence; every ring that shares no node stays |
| `ListHead.GenericDel` | data_structures/list.c:23-27 | two stores through the words of the node remove it from the sequence; no other node is written |
| `ListHead.ListDel` | data_structures/list.c:38-42 | removal, the node's links are cleared, every ring that shares no node stays |
| `ListHead.ListDelInit` | data_structures/list.c:44-48 | removal, the node is an empty ring, every ring that shares no node stays |
| `ListHead.ListIsEmpty` | data_structures/list.c:50-58 | true exactly for the empty sequence |
| `ListHead.DeleteAll` | include/list.h:32-34 | the deleting traversal visits each node once, in order, terminates, clears them all and leaves every other ring |
| `ListHead.RingStays` | data_structures/list.c:15-48 | a ring none of whose nodes is written stays a ring through the same nodes |
| `SlabLayout.AlignUpIsMask` | include/kernel.h:19-21 | the rounding used here is the mask expression of `ALIGN` in 32 bits |
| `SlabLayout.EstimateIsOptimal` | memory-management/slab.c:286-321 | the count is the largest that fits beside the descriptor, one decrement suffices, the left-over is exact |
| `SlabLayout.SlabOrderIsFirst` | memory-management/slab.c:757-772 | the chosen order is the first whose estimate is not zero |
| `SlabLayout.CalculateSlabOrder` | memory-management/slab.c:748-781 | the search loop returns that order with its count and left-over, or none |
| `SlabLayout.CreationFits` | memory-management/slab.c:827-861 | creation picks the least order that holds an object; one more object would not fit; the colours are as many steps of cache line or alignment as the left-over holds; an object is its size rounded up to a word and then to the alignment, and no further, as is the descriptor; it fails only if no order up to ten holds an object |
| `SlabLayout.OffsetInRange` | memory-management/slab.c:438-443 | a colour in range gives an offset within the left-over space |
| `SlabLayout.PlacementIsSound` | memory-management/slab.c:389-418 | for every page, colour and index: descriptor before objects, objects inside the slab, each aligned as requested |
| `SlabLayout.ObjectIsAligned` | memory-management/slab.c:333-334 | every object address is a multiple of the requested alignment |
| `SlabLayout.FirstPageIff` | memory-management/slab.c:509-512 | the page of the first object is the slab's first page exactly when the offset is under a page |
| `SlabLayout.SmallObjectsArePageSafe` | memory-management/slab.c:500-516 | off-slab caches of objects up to a page only use such offsets |
| `SlabLists.TakenOK` | memory-management/slab.c:586-620 | taking an object moves the slab between lists so that all lists stay right |
| `SlabLists.ReturnedOK` | memory-management/slab.c:691-729 | returning an object to a kept slab keeps all lists and the count right, with at most one empty slab; when the slab becomes the empty one every other is full |
| `SlabLists.DroppedOK` | memory-management/slab.c:707-712 | giving up a surplus slab keeps all lists and the count right |
| `SlabLists.GrownOK` | memory-management/slab.c:467-468 | adding a fresh slab, which happens only without a free object, keeps all lists and the count right, with one empty slab |
| `SlabPages.AllocPagesKeepsInv` | memory-management/buddy.c:102-105 | handing out pages keeps the invariant of the whole system |
| `SlabPages.FreePagesKeepsInv` | memory-management/buddy.c:161-164 | taking back pages no slab owns keeps it |
| `SlabPages.MarkKeepsInv` | memory-management/slab.c:133-135 | setting the slab flag on a held block keeps it |
| `SlabPages.UnmarkKeepsInv` | memory-management/slab.c:151-153 | clearing the flags of a block no slab owns keeps it |
| `SlabGrow.ThreadedChain` | memory-management/slab.c:323-353 | after threading, the chain runs through all objects of the slab in order to NULL |
| `SlabGrow.MappingKeepsRings` | memory-management/slab.c:362-381 | writing cache and slab into the words of a held block's pages leaves every free-list ring intact |
| `SlabGrow.InsertKeepsInv` | memory-management/slab.c:362-468 | mapping the pages, threading the objects and listing the slab keeps the invariant |
| `SlabDrop.DropKeepsInv` | memory-management/slab.c:500-516 | removing a slab whose last object came back keeps the invariant |
| `SlabObjects.HandOutKeepsInv` | memory-management/slab.c:478-489 | taking the head of the chain keeps the invariant; the object is not NULL, no descriptor, and now held |
| `SlabObjects.PutKeepsInv` | memory-management/slab.c:491-498 | chaining a returned object keeps the invariant |
| `SlabAlloc.GetPagesKeepsInv` | memory-management/slab.c:116-138 | `kmem_getpages` keeps the invariant; without pages nothing changes |
| `SlabAlloc.PutPagesKeepsInv` | memory-management/slab.c:140-159 | `kmem_freepages` keeps the invariant and ends the block's life |
| `SlabAlloc.PutUndoesGet` | memory-management/slab.c:116-159 | pages taken for a slab and given straight back leave the zone exactly as it was |
| `SlabAlloc.CacheGrow` | memory-management/slab.c:433-476 | growth either adds one empty slab on new pages and extends everything held, or moves nothing but colours; the recursion into the descriptor cache ends |
| `SlabAlloc.GrowOffSlab` | memory-management/slab.c:389-405 | the same when the descriptor comes from the descriptor cache |
| `SlabAlloc.TakeNext` | memory-management/slab.c:586-620 | once a slab has room, the allocation completes with an object nobody held; that it adds nothing else is `TakeNextHoldsExactly` |
| `SlabAlloc.CacheAlloc` | memory-management/slab.c:554-657 | an allocation yields NULL with nothing moved but colours, or an object of the cache that nobody held, while everything held stays held and its words unchanged; that nothing further becomes held is `AllocHoldsExactly` |
| `SlabFree.LookupOnAnyPage` | memory-management/slab.c:82-107 | any address on any page of a slab leads to that slab and its cache |
| `SlabFree.LookupFindsOwner` | memory-management/slab.c:98-107 | every held object leads back to the slab and cache that handed it out |
| `SlabFree.HeldObjectsDisjoint` | memory-management/slab.c:478-489 | two held objects share no byte, whatever their caches |
| `SlabFree.ChainWriteIsSafe` | memory-management/slab.c:491-498 | the chain write of a free touches no byte of anything still held |
| `SlabFree.DestroyedPageIsBase` | memory-management/slab.c:500-516 | destruction frees the very block the slab was built on |
| `SlabFree.CacheFree` | memory-management/slab.c:679-734 | freeing keeps the invariant, ends the life of the object (and of the descriptor of a slab given up) and of nothing else, and gives back the pages of a slab that goes |
| `SlabFree.FreeWithDescriptor` | memory-management/slab.c:509-512 | the same for an off-slab slab, whose descriptor goes back to its cache; the recursion ends |
| `SlabSystem.NewCacheKeepsInv` | memory-management/slab.c:827-866 | registering a cache keeps the invariant |
| `SlabSystem.Create` | memory-management/slab.c:783-876 | creation keeps the invariant whether it succeeds or fails |
| `SlabSystem.SizeIndex` | memory-management/slab.c:878-897 | the search finds the first general size that is large enough |
| `SlabSystem.KfreeFindsCache` | memory-management/slab.c:899-909 | for every held object the page's back pointer names the cache it came from, so `kfree` frees it there |
| `SlabSystem.Step` | memory-management/slab.c:554-909 | every allowed operation of the system keeps the invariant, the size table and the page records |
| `SlabSystem.Run` | memory-management/slab.c:554-909 | any sequence of allowed operations does |
| `SlabTheorems.NothingOverlaps` | memory-management/slab.c:323-516 | across all caches any two things in use (objects, on-slab and off-slab descriptors, page blocks) are disjoint stretches of memory |
| `SlabTheorems.RegionInBlock` | memory-management/slab.c:389-418 | each of them lies inside its held page block |
| `SlabTheorems.OffSlabDescriptorIsObject` | memory-management/slab.c:394-404 | an off-slab descriptor is a held object large enough for it |
| `SlabTheorems.SlabListsTellTheTruth` | memory-management/slab.c:433-734 | each slab is on exactly the list its `inuse` calls for; its chain lists exactly the objects not held, `num - inuse` distinct ones (that every step keeps this is `TakenOK`, `ReturnedOK`, `DroppedOK`, `GrownOK`) |
| `SlabTheorems.EmptySlabAmongFull` | memory-management/slab.c:696-716 | when a slab is put on the free list every other slab of the cache is full |
| `SlabTheorems.IdleCacheKeepsOneSlab` | memory-management/slab.c:696-734 | a cache none of whose objects is held keeps at most one slab: nothing leaks |
| `SlabTheorems.SomeObjectIsOut` | memory-management/slab.c:478-498 | a slab with `inuse` above zero has an object that is held |
| `SlabTheorems.StockMeansRoom` | memory-management/slab.c:567-590 | `free_objects` is zero exactly when the partial and free lists are empty |
| `SlabTheorems.OnSlabAllocFailsExactly` | memory-management/slab.c:554-637 | allocation from an on-slab cache fails exactly when it has no free object and the zone no aligned run for a slab |
| `SlabTheorems.OffSlabAllocFailsExactly` | memory-management/slab.c:389-476 | the same for off-slab caches, where a missing descriptor also counts |
| `SlabExact.OffSlabAllocFailsOnInput` | memory-management/slab.c:389-476 | with descriptors from one-page slabs: failure exactly without a free object and either without a run for a slab, or when that run is all that is free and no descriptor is in stock |
| `SlabExact.TakeHoldsExactly` | memory-management/slab.c:478-489 | taking the head of a chain adds that object to the held ones and nothing else |
| `SlabExact.TakeNextHoldsExactly` | memory-management/slab.c:586-620 | the same with the list moves around it |
| `SlabExact.AllocHoldsExactly` | memory-management/slab.c:554-657 | after an allocation exactly the returned object, and the descriptor of a new off-slab slab, are held besides what was held |
| `SlabTheorems.FailedAllocMovesNothing` | memory-management/slab.c:471-475 | a failed allocation leaves every free list, counter, descriptor and slab as it was |
| `SlabTheorems.AllocTouchesNothingHeld` | memory-management/slab.c:323-489 | allocation changes no word of anything held |
| `SlabTheorems.FreeTouchesNothingHeld` | memory-management/slab.c:491-516 | freeing changes no word of anything still held |
| `SlabTheorems.FreeReleasesExactly` | memory-management/slab.c:679-734 | after a free exactly the object, and the descriptor of a slab given up, is no longer held |
| `SlabTheorems.FreeWithIs` | memory-management/slab.c:509-512 | an off-slab slab's pages go back first, and then its descriptor is freed like any object of the descriptor cache |
| `SlabRequests.KmallocServes` | memory-management/slab.c:25-47 | with all general caches there, a request is served with the least size among the powers of two from 32 to 131072 and 96 and 192: exact for powers of two, under twice the request above 32; larger requests get NULL |
| `SlabRequests.BootedKmallocServes` | memory-management/slab.c:266-285 | this holds after initialisation with one free page and any run |
| `SlabRequests.CreateHoldsExactly` | memory-management/slab.c:821-876 | a failed creation leaves exactly the objects held and the caches there were; a successful one adds its descriptor |
| `SlabConserves.RunConservesPages` | memory-management/slab.c:116-160 | no run of cache, object and page operations gains or loses a page, and `free_pages` stays ahead of the lists by a constant |
| `SlabConserves.EveryPageIsAccountedFor` | memory-management/mm.c:403-405 | after initialisation and any run a page is free, in a slab or in a directly held block, in only one of them, exactly if it was free at the start |
| `SlabTheorems.KmallocFits` | memory-management/slab.c:878-897 | `kmalloc` serves from the smallest size that fits with memory nobody held, and refuses sizes beyond the table, as long as that cache was created |
| `SlabUses.ListWordsStayOnList` | memory-management/buddy.c:63-159 | the words of a head or of a page on its list name only that head and pages on that list: following links never meets a slab's words |
| `SlabUses.LruHasOneUse` | memory-management/slab.c:76-107 | a page is on a list exactly when flagged so; the pages of a slab are on none and hold its cache and descriptor |
| `SlabUses.AllocWritesNoHeldPage` | memory-management/buddy.c:63-105 | handing out pages changes no link word of a page that is held |
| `SlabUses.FreeWritesNoHeldPage` | memory-management/buddy.c:123-164 | taking pages back changes no link word of a page still held |
| `SlabUses.CreatedAligns` | memory-management/slab.c:829-861 | a created geometry keeps the requested alignment in pages, colours, header and objects |
| `SlabUses.HeldIsAligned` | memory-management/slab.c:332-334 | every object held in a state that satisfies the invariant is aligned as its cache is |
| `SlabUses.RunKeepsCaches` | memory-management/slab.c:554-909 | no run removes a cache or changes its geometry |
| `SlabUses.ObjectsStayAligned` | memory-management/slab.c:554-909 | after any run every object held from a cache has the alignment the cache was created with |
| `SlabUses.SafeCacheCanFree` | memory-management/slab.c:500-516 | every object of a page-safe cache, and so every object of an on-slab one, can be freed at any time |
| `SlabUses.MallocedCanBeFreed` | memory-management/slab.c:878-909 | whatever `kmalloc` gave out `kfree` can free, in the cache it came from |
| `SlabMoves.AllocFromStock` | memory-management/slab.c:554-622 | with an object in stock, the first free object of the first partial slab, or else of the empty slab, is taken; the slab is then first on the partial list, or on the full list if it ran full; no page, word or other slab moves |
| `SlabMoves.AllocFromFresh` | memory-management/slab.c:433-622 | without one, a slab is built on the block the buddy allocator gives for the cache's order and its object at the lowest address is returned |
| `SlabMoves.FreshChainAscends` | memory-management/slab.c:323-352 | a fresh slab's chain starts at its first object and runs through all in address order to NULL |
| `SlabMoves.SurplusExactly` | memory-management/slab.c:696-716 | a slab whose last object comes back is given up exactly when another slab of the cache has room |
| `SlabMoves.FreeMoves` | memory-management/slab.c:679-734 | a free moves no slab but the object's own: to the end of the partial list if it was full, to the free list if it is emptied and kept, out with its pages if given up, otherwise it stays in its place |
| `SlabReuse.ReuseExactly` | memory-management/slab.c:554-734 | allocate, free, allocate returns the same object unless the first one filled a slab while another partial slab waited |
| `SlabColours.AllocPaints` | memory-management/slab.c:433-476 | an allocation moves on the colour of exactly the caches it calls `cache_grow` on, successful or not, and every new slab gets the colour that was next |
| `SlabColours.ColourCycles` | memory-management/slab.c:438-441 | after any run the next colour of a cache is the number of calls of `cache_grow` on it, modulo the number of colours |
| `SlabColours.SlabGetsItsColour` | memory-management/slab.c:438-443 | the slab added by the call after `n` others lies at the descriptor size plus `n` colour steps, counted modulo the number of colours |
| `SlabColours.SuccessiveSlabsDiffer` | memory-management/slab.c:252-257 | slabs less than one cycle of colours apart have different offsets |
| `SlabBoot.OffSlabPageIff` | memory-management/slab.c:509-512 | off-slab destruction frees the slab's first page exactly when its colour offset is under a page |
| `SlabBoot.PageSafeIff` | memory-management/slab.c:438-443 | a geometry is page-safe exactly when every colour in range has such an offset |
| `SlabBoot.PagesGoBackExactly` | memory-management/slab.c:500-516 | off-slab destruction is right for every colour exactly for page-safe geometries |
| `SlabBoot.UnsafeCache` | memory-management/slab.c:748-781 | an off-slab cache of 8200-byte objects is not page-safe |
| `SlabBoot.TableIsSafe` | memory-management/slab.c:26-46 | every general cache of the size table exists and is page-safe |
| `SlabBoot.CacheCacheGeometry` | memory-management/slab.c:211-263 | the cache of cache descriptors holds 31 of 128 bytes per one-page slab, in three colours |
| `SlabBoot.DescriptorGeometry` | memory-management/slab.c:267 | an object of the descriptor cache has 32 bytes, which hold a slab descriptor, and a page has 127 of them |
| `SlabBoot.InitialIsGood` | memory-management/slab.c:198-263 | with only the static cache of cache descriptors and nothing handed out, the invariant of the whole system holds |
| `SlabBoot.InitIsClean` | memory-management/mm.c:396-403 | a zone just initialised from page flags clear but for TAKEN and RESERVED is where cache initialisation can start |
| `SlabBoot.AllocStock` | memory-management/slab.c:478-489 | an allocation takes one from the stock, after a slab's worth is added to an empty one |
| `SlabBoot.CreateSucceeds` | memory-management/slab.c:783-876 | creation succeeds when a descriptor can be had, adds the cache with its geometry, empty and at its first colour, and changes nothing of the others |
| `SlabBoot.Boot` | memory-management/slab.c:189-284 | initialisation ends in a state that satisfies the invariant, with the caches it created in the table, however far it got |
| `SlabBoot.FillTable` | memory-management/slab.c:277-283 | the loop over the sizes keeps the invariant and the caches created so far |
| `SlabBoot.FillTableSucceeds` | memory-management/slab.c:277-283 | with enough cache descriptors in stock no creation in the loop fails |
| `SlabBoot.BootSucceeds` | memory-management/slab.c:189-284 | if one page is free, initialisation creates the descriptor cache and all fifteen general caches |
| `SlabBoot.BootFails` | memory-management/slab.c:189-284 | if none is, nothing is created and the zone is as it was |
| `SlabBoot.BootedRunsAreSafe` | memory-management/slab.c:189-909 | after initialisation, complete or not, and any run: no overlap, correct lookup, at most one empty slab per cache |
| `SlabAllocator.PlanCache` | memory-management/slab.c:827-861 | the layout of a cache, computed by the search loop |
| `SlabAllocator.SlabAllocator.constructor` | memory-management/slab.c:198-263 | the static cache of cache descriptors, empty |
| `SlabAllocator.SlabAllocator.MarkPages` | memory-management/slab.c:128-135 | the loop sets the slab flag on the block and nothing else |
| `SlabAllocator.SlabAllocator.UnmarkPages` | memory-management/slab.c:151-153 | the loop clears the flags of the block and nothing else |
| `SlabAllocator.SlabAllocator.TakePages` | memory-management/slab.c:116-138 | `kmem_getpages` in place refines the operation on values |
| `SlabAllocator.SlabAllocator.ReturnPages` | memory-management/slab.c:140-159 | `kmem_freepages` in place refines the operation on values |
| `SlabAllocator.SlabAllocator.MapPages` | memory-management/slab.c:362-381 | the loop points every page of the block to its first page, cache and slab, and every ring without a page of the block stays |
| `SlabAllocator.SlabAllocator.InitObjects` | memory-management/slab.c:323-353 | the loop threads all objects of the slab |
| `SlabAllocator.SlabAllocator.AddSlab` | memory-management/slab.c:389-469 | descriptor, page records, chain, list and count of a fresh slab, as on values |
| `SlabAllocator.SlabAllocator.GetObject` | memory-management/slab.c:478-489 | chain, `inuse` and `free_objects` after an object is taken |
| `SlabAllocator.SlabAllocator.TakeObject` | memory-management/slab.c:586-620 | the object is taken and the slab ends on the list its state calls for |
| `SlabAllocator.SlabAllocator.GrowCache` | memory-management/slab.c:433-476 | `cache_grow` in place refines the operation on values, recursion included |
| `SlabAllocator.SlabAllocator.AllocObject` | memory-management/slab.c:554-657 | `kmem_cache_alloc` in place refines the operation on values |
| `SlabAllocator.SlabAllocator.FindSlab` | memory-management/slab.c:103-107 | the lookup through the first page |
| `SlabAllocator.SlabAllocator.PutObject` | memory-management/slab.c:491-498 | chain and `inuse` after an object is put back |
| `SlabAllocator.SlabAllocator.CountBack` | memory-management/slab.c:688-729 | counter and list after an object came back; whether the slab is surplus |
| `SlabAllocator.SlabAllocator.ReturnObject` | memory-management/slab.c:685-729 | the object is back and its slab kept or dropped, as on values |
| `SlabAllocator.SlabAllocator.DestroySlab` | memory-management/slab.c:500-516 | pages first, then an off-slab descriptor, as on values |
| `SlabAllocator.SlabAllocator.FreeObject` | memory-management/slab.c:679-734 | `kmem_cache_free` in place refines the operation on values, recursion included |
| `SlabAllocator.SlabAllocator.CreateCache` | memory-management/slab.c:783-876 | `kmem_cache_create` in place refines the operation on values |
| `SlabAllocator.SlabAllocator.Kmalloc` | memory-management/slab.c:878-897 | the search loop and the allocation refine the operation on values |
| `SlabAllocator.SlabAllocator.Kfree` | memory-management/slab.c:899-909 | the page's own back pointer selects the cache, as on values |
| `SlabAllocator.SlabAllocator.InitCaches` | memory-management/slab.c:267-283 | descriptor cache, then the loop over the sizes, as on values |
| `Paging.EntryDecodes` | memory-management/mm.c:346-356 | an entry is present, leads to the frame it was made for, allows stores, and has no other bit set |
| `Paging.FirstFree` | memory-management/mm.c:167-177 | the search finds the first page that is not TAKEN |
| `Paging.TablesDistinctExactly` | memory-management/mm.c:167-177 | successive calls of `get_free_page` give different pages exactly when enough are free |
| `Paging.SetupBuilds` | memory-management/mm.c:343-360 | the directory and every table no later table overwrote are as intended |
| `Paging.WalkIsPa` | memory-management/mm.c:333-360 | with each table on its own page the 32-bit walk agrees with `__pa` on all addresses, and both entries on the way are writable, for the kernel only, with no other bit set |
| `Paging.SharedTableMisleads` | memory-management/mm.c:344-356 | with two tables on one page some address is translated wrongly |
| `Paging.TablesRefinePaExactly` | memory-management/mm.c:333-360 | after the table loops every address of the low and kernel maps goes to `__pa` of it, writable for the kernel alone at both levels, and every other is not present, exactly when enough pages were free |
| `Paging.EntriesRoundDown` | memory-management/mm.c:159-165 | one directory entry per full 4 MiB |
| `Paging.AllPagesMappedExactly` | memory-management/mm.c:159-165 | every page of the zone is in the kernel map exactly when their number is a multiple of 1024 |
| `Paging.KernelPgd` | memory-management/mm.c:269-272 | the kernel half starts at directory entry 768 |
| `Paging.SetupTakesTables` | memory-management/mm.c:333-360 | exactly the pages of the tables, all free before, become TAKEN, and no other page's flags or contents change |
| `PagingTest.CallsBelow` | memory-management/mm.c:167-177 | `get_free_page` takes the lowest free pages first |
| `PagingTest.StoreOnTable` | memory-management/mm.c:280-284 | a store on the page of a table sends the first address of its stretch astray |
| `PagingTest.SharedStaysWrong` | memory-management/mm.c:280-284 | tables that share a page stay wrong whatever page the test stores to |
| `PagingTest.PagingSurvivesTestExactly` | memory-management/mm.c:333-379 | after `setup_paging` with its self-test the tables agree with `__pa` and with those rights on every address, exactly when there was room for the tables and the test |
| `PagingTest.FlagsAfterTest` | memory-management/mm.c:274-379 | with that room the pages of the tables end up TAKEN, the test's page is free again and no other flag differs, except that page 0 is released when no page was left for the test |
| `PagingTest.MemoryAfterTest` | memory-management/mm.c:274-379 | memory changes only on the pages of the tables and in the first word of the test's page, which carries no table |
| `PagingTest.TestKeepsTablesTaken` | memory-management/mm.c:179-183 | then the pages of the tables are TAKEN after the test too |
| `PagingSetup.PageTables.constructor` | memory-management/mm.c:16 | the directory starts as zeros |
| `PagingSetup.PageTables.GetFreePage` | memory-management/mm.c:167-177 | the loop marks the first free page and returns its address, or 0 |
| `PagingSetup.PageTables.FillTable` | memory-management/mm.c:352-359 | the inner loop fills the table until it or memory ends |
| `PagingSetup.PageTables.BuildTables` | memory-management/mm.c:344-360 | the nested loops refine the setup on values |
| `PagingSetup.PageTables.ReleasePage` | memory-management/mm.c:179-183 | TAKEN is cleared on that page and nowhere else |
| `PagingSetup.PageTables.TestMmu` | memory-management/mm.c:274-330 | the self-test in place: its store goes where the tables send the address, or it faults |
| `PagingSetup.PageTables.SetupPaging` | memory-management/mm.c:333-379 | `setup_paging` in place: the tables and then the self-test, as on values |
| `PagingSetup.PageTables.InitPaging` | memory-management/mm.c:398-401 | it comes back and the directory translates as `__pa`, exactly when there was room for the tables and the test; then the page flags are exactly those expected |
| `PagingSetup.TablePagesStayOut` | memory-management/mm.c:396-403 | with that room, after zone initialisation and any run of the page allocator no page of a table is free or handed out |

## Left out

- SlabSystem.Create: alignments are powers of two up to a page; the source has no check and its `ALIGN` macro needs a power of two.
- SlabSystem.Step: a run excludes the one free that would destroy an off-slab slab whose first object lies beyond its first page, because the code then gives back the wrong pages; `SlabBoot.OffSlabPageIff` says exactly when.
- SlabTheorems.KmallocFits: a size whose general cache was never created, after an initialisation that ran out of pages, is excluded; the code then follows a NULL cache pointer.
- The three slab lists of a cache are sequences; that ring operations act as these sequence operations is proved in `ListHead`, and only the page lists run through it.
- Memory is typed: descriptors, page records and chain words are separate maps, and a link word says whether it holds a node or a descriptor; `SlabTheorems.NothingOverlaps` shows that the addresses are disjoint.
- The bytes of user objects, constructors and destructors (all callers pass NULL), and `kmem_cache_zalloc`.
- `colour_next` of a created cache is taken to start at zero; `kmem_cache_create` does not set it.
- 32-bit wrap-around of counters; addresses and page-table arithmetic are modelled in 32 bits.
- `KMALLOC_MINALIGN` is taken as 8 and `sizeof(slab_t)` as 28, the values of the 32-bit target.
- Interrupts and concurrency: the allocators take no locks; runs are sequential.
- Building `mem_map` from the Multiboot tables (`create_mem_map`, `copy_mem_map`): the page flags are an arbitrary input.
- What the code does after `test_buddy` frees a NULL page or `test_mmu` faults; the models stop there.
- `show_buddy`, `test_slab` and all printing.
- Loading CR3 and the TLB: the walk reads the directory given to `enable_paging`.
- The directory array is taken to be disjoint from the pages `get_free_page` returns.
- The chain of all caches (`cache_chain`), which nothing reads.
- The file systems, the buffer cache, `allocator.c`, drivers and string routines.
