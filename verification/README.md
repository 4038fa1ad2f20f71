# CellKernel memory, IPC, scheduling and hashing: a verified model

This project models the stateful core of CellKernel and proves what holds over every run of it:

| component | source | modules |
|---|---|---|
| buddy frame allocator | `kernel/memory/frame_alloc.c` | `Blocks`, `FrameLists`, `FrameAccounts`, `FrameAllocator`, `FrameSafety`, `FrameRuns`, `FrameZones`, `FrameRoundTrip`, `FrameBuddies`, `FrameChains`, `FrameRepair`, `FrameStaleLink`, `FrameExamples`, `FrameMachine` |
| four-level page tables | `kernel/memory/paging.c` | `Paging`, `PagingTree`, `PagingMap`, `PagingSupply`, `PagingAccess`, `PagingIdentity`, `PagingBoot` |
| lock-free IPC ring with a rate limiter | `kernel/ipc/message.c` | `IpcRing`, `IpcQuota`, `IpcCalls`, `IpcSenders` |
| slab caches | `kernel/memory/slab.c` | `SlabLayout`, `SlabLists`, `SlabCache`, `SlabSafety`, `SlabMoves`, `SlabRuns`, `SlabFrees`, `SlabRoundTrip`, `SlabStores`, `SlabKernel`, `SlabMachine`, `SlabFill` |
| O(1) run queue | `kernel/core/scheduling.c` | `RunQueue`, `RunQueueSafety`, `RunQueueRuns`, `RunQueueMachine` |
| streaming SHA-512 | `boot/secure/verify_signature.c` | `ByteWords`, `Sha512`, `Sha512Padding`, `Sha512Machine` |

`Bits` holds the machine operators `^`, `&`, `|` and `>>` over unsigned numbers, written over binary digits.

Each component has the same shape. Functions on plain states say what one call does, branch by branch and with the
source's word sizes. Lemmas state the invariant, that every call keeps it, and the theorem over all runs. A class holds
the fields the kernel keeps and updates them in place with the source's loops; each of its methods is proved to make the
state change of the function on states.

## How memory and callers are modelled

Pages, objects, slabs and threads are named by number, and 0 is NULL. Free lists are not abstract sequences: frame and
slab lists are heads, counts and link words in memory, and what list they denote is computed by walking them. What a
caller may do with memory it owns is part of a run: owners of live pages and objects store arbitrary words into them at
any time, so nothing is assumed about words left behind in freed pages.

Initialisation of the frame allocator leaves every list empty, so managed memory starts out as blocks that are handed
out and enters the lists through `free_pages`.

## Where the code does less than it seems to

The code is modelled as it is. Where a natural property fails, the exact condition under which it holds is proved as an
if-and-only-if, with a concrete state that shows the failure.

- **Freeing a page block.** A split lists the upper half without writing its link word, and the merge test looks at the
  head of a list without looking at its count. A stale link word can therefore stand as the head of an empty list. Freeing a
  live block is sound if and only if every head that equals the buddy looked for belongs to a list that is not empty
  (`FrameRuns.FreeKeepsIff`). `FrameStaleLink` exhibits a run in which a page in use is handed out again, and
  `FrameExamples.ScrubbingDoesNotHelp` one in which no owner ever writes to a page: a merge leaves a link behind that a
  later split lists. Above the first largest block, without splits every free is sound (`FrameChains.UnsplitRun`). With
  one line added to the split, a NULL link for the upper half, every free is sound over every run, splits included
  (`FrameRepair.MarkRunKeeps`).
- **The free-page counter.** A split debits the order at which a block was found and a merge credits the order reached, so
  `g_free_pages` is not the number of free pages. It is that number plus `order * 2^(order-1)` summed over all listed and
  handed-out blocks plus a constant, modulo `2^64` (`FrameAllocator.Counted`, kept by every run).
- **Allocate, then free.** The state is restored if and only if the block taken apart does not name its own buddy as its
  successor (`FrameRoundTrip.AllocThenFree`; `FrameStaleLink.RoundTripFails` reaches a state where it does).
- **Free buddies side by side.** Over a run no two free buddies are ever listed together if and only if no free stops joining
  at a list that holds the joined block's buddy below its head (`FrameBuddies.RunSpreadIff`). Allocations never cause it.
  `FrameExamples.BuddiesCoexist` is a run of three frees that does.
- **Freeing a slab object.** Only the head of the full list is moved back, and a slab that becomes empty is unlinked as if
  from the partial list. A free is sound if and only if the slab is partial, or heads the full list and holds at least two
  objects, or is further down the full list and holds one (`SlabFrees.FreeKeepsIff`). For the 2048-byte cache the very first
  free is unsound (`SlabFrees.FirstFreeBreaks`); in every other cache so is a free from the older of two full slabs
  (`SlabFill.OlderSlabBreaks`).
- **Slab colouring.** A colour pushes objects past the end of the page exactly when it exceeds the slack of the object
  size, which is zero for every coloured cache set up at boot (`SlabLayout.ObjectsFit`, `SlabLayout.PowersOfTwoOverrun`).
  A new slab then keeps the objects and descriptors of its cache apart if and only if no other slab of the cache is on a
  neighbouring page (`SlabRuns.AllocKeeps`). `SlabFill.SmallCacheOverrun` fills a slab of the 64-byte cache and puts the next
  descriptor on a live object. The page behind may as well belong to another cache or to anyone else. With all caches and
  all other owners in one memory, a run is sound if and only if frees meet their guard and no two owned pages are ever
  neighbours where the objects of the first overrun it (`SlabKernel.RunKeepsIff`). `SlabFill.NextOwnerStore`
  shows the free chain broken by a store into such a page.
- **`kfree`.** It looks at partial slabs only. A live object is freed if and only if its slab is partial; an object of a
  full slab silently stays allocated (`SlabKernel.KfreeFreesIff`). Unlike `kmem_cache_free` it is therefore sound
  for every live object.
- **User pages.** The tables above a page are linked present and writable but without the user bit, so no mapping is reachable
  from user mode, whatever flags it asks for (`PagingAccess.MapGrants`, over runs `PagingAccess.RunGrants`).
- **Unmapping what is not mapped.** `unmap_page` reports success if and only if the leaf table of the address exists, whether
  or not the page itself was mapped (`PagingAccess.UnmapSucceedsIff`).
- **Several senders.** The comment calls the ring multi-producer. For any number of senders delivery stays in order if and
  only if every copy and every publication meets its guard (`IpcSenders.RunKeepsIff`), which it does when no send reads the
  tail between another one's reading and its publication (`IpcSenders.ExclusiveSenders`). Two sends from the same tail move
  it once for two messages in every interleaving in which they are the next two to publish (`IpcSenders.SameTailMovesOnce`).
- **Rate limit.** The first second admits 10000 messages (`IpcQuota.FirstSecond`), a new limit does not touch the window it is
  set in (`IpcQuota.LimitTakesEffect`), and windows start with the first send that finds the old one over.
  The largest number of sends that can pass in an interval is computed exactly and attained (`IpcQuota.PassedAtMost`,
  `IpcQuota.MostIsAttained`).
- **Time slices.** `schedule` leaves the thread it picks on its queue, so the end of that thread's slice queues it a second
  time (`RunQueueSafety.SliceEndRequeues`). A call sequence keeps the run queue consistent if and only if each call meets
  its guard (`RunQueueRuns.RunKeepsIff`).
- **Destroying the running thread.** Nothing clears `current`, so a thread may be destroyed if and only if it is queued and
  is not the one that runs (`RunQueueSafety.DestroyKeepsIff`). After the destruction of the running thread the next
  tick writes to freed memory (`RunQueueSafety.DestroyRunning`).
- **SHA-512 padding.** The length is taken after padding and stands in the high half of the length field. The padding is
  still injective, but it is that of section 5.1.2 of FIPS 180-4 exactly for messages of `896 * 2^61` bytes
  (`Sha512Padding.StandardIff`).

## Model

| member | source | states |
|---|---|---|
| Bits.XorPair | kernel/memory/frame_alloc.c:66-70 | flipping bit `order` of a frame number on a `2^order` boundary gives the other half of the aligned pair it belongs to, and the bits both share are the pair's start |
| FrameLists.AllocZoneSpec | kernel/memory/frame_alloc.c:114-143 | allocation fails exactly when every list at or above the order is empty; otherwise it takes the head of the smallest sufficient order, leaves exactly one upper half on each list in between, touches no other list, and debits the order found |
| FrameLists.CoalesceRefinesJoin | kernel/memory/frame_alloc.c:173-186 | when every merge takes a listed block, the merging loop on heads, counts and link words does to the denoted lists what joining with listed buddies does |
| FrameLists.BadMergeWraps | kernel/memory/frame_alloc.c:177-180 | a merge with a block that is not listed wraps that list's count to 2^64 - 1 |
| FrameLists.PushLists | kernel/memory/frame_alloc.c:188-191 | linking a page that is on no list puts it in front of its list and changes no other list |
| FrameAccounts.SplitSum | kernel/memory/frame_alloc.c:119-140 | splitting from order f down to k conserves, over the listed blocks and the one handed out, how often each frame is covered and the number of pages, and lowers the drift weight by 2^f - 2^k |
| FrameAccounts.JoinSum | kernel/memory/frame_alloc.c:173-193 | joining conserves coverage and pages and raises the drift weight by the difference of the two block sizes |
| FrameSafety.OneZone | kernel/memory/frame_alloc.c:163-170 | an aligned block of any order lies on one side of byte address 256 MB |
| FrameSafety.AllocKeeps | kernel/memory/frame_alloc.c:114-152 | NULL is returned exactly when every list at or above the order is empty, and then nothing changes; a block handed out joins the live blocks with tiling, zone placement and the counter law kept |
| FrameSafety.JoinKeeps | kernel/memory/frame_alloc.c:163-186 | under the guard the merging loop keeps the invariant with the joined block live instead of the freed one, in the same zone |
| FrameSafety.PushKeeps | kernel/memory/frame_alloc.c:188-193 | listing a live block keeps tiling, placement and the counter law with the block no longer live |
| FrameRuns.FreeKeeps | kernel/memory/frame_alloc.c:160-194 | a guarded free keeps the invariant and leaves the lists joined and pushed in the zone that the byte address selects, below or from 256 MB on, other zones untouched |
| FrameRuns.FreeKeepsIff | kernel/memory/frame_alloc.c:160-194 | freeing a live block keeps the invariant if and only if no merge test matches the head of an empty list |
| FrameRuns.AllocFresh | kernel/memory/frame_alloc.c:114-152 | a block handed out is aligned to its order, lies inside managed memory and overlaps no live block |
| FrameRuns.StoreKeeps | kernel/memory/frame_alloc.c:188-191 | a store by its owner into a live page disturbs no list |
| FrameRuns.RunKeepsInv | kernel/memory/frame_alloc.c:114-194 | over every run of allocations, guarded frees of live blocks and stores by owners, listed and live blocks are aligned and cover each managed frame exactly once, each listed block is in the zone its address selects, and the counter obeys the drift law |
| FrameRuns.RunCovers | kernel/memory/frame_alloc.c:114-194 | after every such run each managed frame lies in a listed or live block whose start is a multiple of its size, which is managed throughout and shares no frame with any other block |
| FrameZones.RunLies | kernel/memory/frame_alloc.c:163-170 | after every guarded run a block listed in zone 0 ends at or below byte address 0x10000000, a block in zone 1 starts at or above it, and zone 2 lists nothing |
| FrameZones.RunAllocLies | kernel/memory/frame_alloc.c:146-170 | after every guarded run an allocation from zone 0 returns memory wholly below 0x10000000, one from zone 1 or an invalid zone memory from there on, and one from zone 2 nothing |
| FrameZones.JoinStops | kernel/memory/frame_alloc.c:173-186 | the merging loop stops only at order 11 or where the head of the list is not the buddy |
| FrameRuns.InitialInv | kernel/memory/frame_alloc.c:103-110 | the state after initialisation satisfies the invariant for any tiling of managed memory by handed-out blocks, and fixes the constant of the drift law |
| FrameRuns.SameBlocksSameCounter | kernel/memory/frame_alloc.c:140-193 | any two runs from one state that end with the same listed and live blocks end with the same counter |
| FrameRoundTrip.AllocThenFree | kernel/memory/frame_alloc.c:114-194 | allocating at any order and freeing at once restores every list and the counter if and only if the block split is not joined with what its own link word names |
| FrameBuddies.FreeBringsBuddiesIff | kernel/memory/frame_alloc.c:173-191 | starting with no two buddies listed, a free lists two buddies together exactly when the buddy of the joined block is on its list but not at the head |
| FrameBuddies.AllocSpread | kernel/memory/frame_alloc.c:114-143 | an allocation never brings two buddies together |
| FrameBuddies.RunSpreadIff | kernel/memory/frame_alloc.c:114-194 | over every guarded run no list ever holds two buddies if and only if no free stops joining at a list that holds the joined block's buddy below its head |
| FrameChains.EndedMeetsGuard | kernel/memory/frame_alloc.c:173-186 | where every chain of links ends in NULL and all frames lie above the first largest block, every merge test of a free meets a list that is not empty |
| FrameChains.UnsplitRun | kernel/memory/frame_alloc.c:114-194 | over every run in which no allocation splits a block, every free of a live block meets its guard, whatever owners store |
| FrameChains.BootedUnsplitRun | kernel/memory/frame_alloc.c:103-194 | the same for every such run from initialisation, for any contents of memory |
| FrameRepair.MarkKeeps | kernel/memory/frame_alloc.c:114-143 | a marked repair, not the code as it is: with a NULL link written into the upper half of a split (after line 127), an allocation returns the page it returns without, keeps the invariant, and leaves every chain ended in NULL |
| FrameRepair.MarkRunKeeps | kernel/memory/frame_alloc.c:114-194 | with that repair, where all frames lie above the first largest block, every free of a live block meets its guard and the invariant is kept over every run of allocations, frees of live blocks and stores by owners |
| FrameRepair.BootedMarkRun | kernel/memory/frame_alloc.c:103-194 | the same for every run from initialisation, for any contents of memory |
| FrameExamples.BuddiesCoexist | kernel/memory/frame_alloc.c:177-191 | a guarded run that frees three of four single pages and leaves two free buddies listed |
| FrameExamples.ScrubbingDoesNotHelp | kernel/memory/frame_alloc.c:123-181 | a guarded run without a single store, on frames above the largest block size, after which freeing a live page fails the guard and doing it makes the next allocation return a page in use |
| FrameStaleLink.UnguardedFreeReusesLivePage | kernel/memory/frame_alloc.c:126-181 | a run that honours every other rule reaches a state where a free fails the guard, and doing it makes the next allocation return a page in use |
| FrameStaleLink.RoundTripFails | kernel/memory/frame_alloc.c:119-193 | the state after three calls of that run, in which allocating a page and freeing it at once does not restore the lists |
| FrameMachine.PageAllocator.constructor | kernel/memory/frame_alloc.c:73-111 | both counters are the conventional pages of the memory map modulo 2^64 and every list is empty |
| FrameMachine.PageAllocator.AllocPagesZone | kernel/memory/frame_alloc.c:114-143 | the mutating recursion makes the zone and counter change of the specification |
| FrameMachine.PageAllocator.AllocPages | kernel/memory/frame_alloc.c:146-152 | an invalid zone index selects the normal zone; the state change is that of the specification |
| FrameMachine.PageAllocator.Merge | kernel/memory/frame_alloc.c:172-186 | the while loop computes the coalesced zone, block and order, and touches only its zone |
| FrameMachine.PageAllocator.FreePages | kernel/memory/frame_alloc.c:160-194 | the in-place free makes the state change of the specification, whose zone boundary `FrameZones.RunLies` states in bytes |
| Paging.FrameIsMask | kernel/memory/paging.c:61-90 | the address mask selects exactly bits 12 to 51 of an entry |
| Paging.EntryBits | kernel/memory/paging.c:87-90 | bit by bit, an entry has bits 12 to 51 of the address and every bit of the flags, and no other |
| Paging.ReferencedOnce | kernel/memory/paging.c:93-143 | in an ownership tree no table is named by two entries |
| PagingTree.NextKeepsTree | kernel/memory/paging.c:95-109 | finding or making the next table keeps the ownership tree, in which an entry that names a table is its address with bits 0 and 1 and an absent entry is zero; a new table takes the one free place its index denotes |
| PagingTree.NextKeepsWalk | kernel/memory/paging.c:95-143 | linking an empty table changes no walk of any address |
| PagingTree.LeafKeepsWalk | kernel/memory/paging.c:145-147 | writing a leaf entry changes no walk of an address on another page |
| PagingMap.MapPageSpec | kernel/memory/paging.c:93-153 | the tables stay a tree, every link in it present and writable and nothing else; success gives the page its new entry and leaves every other translation alone, and failure changes none |
| PagingMap.UnmapPageSpec | kernel/memory/paging.c:156-179 | the tables stay a tree; the page has no translation afterwards and every other translation is unchanged, whether or not it was mapped |
| PagingMap.ApplyRefines | kernel/memory/paging.c:93-179 | one map or unmap changes the meaning of the tables, a map from 36-bit page number to entry, by one update, one removal or nothing |
| PagingMap.RunRefines | kernel/memory/paging.c:93-179 | over every run the tables are a tree and mean what the same requests make of a plain map |
| PagingMap.EmptyTree | kernel/memory/paging.c:194-200 | a zeroed root table is a tree that maps nothing |
| PagingSupply.MapFailsIff | kernel/memory/paging.c:99-143 | a mapping fails if and only if the allocator denies it a page it asks for |
| PagingSupply.RunConserves | kernel/memory/paging.c:99-143 | over every run the tables and what the page allocator still has to give are together the same pages: a mapping that fails half way loses none |
| PagingAccess.LinkRights | kernel/memory/paging.c:106-140 | an entry that links a table allows writing, not user access, and does not forbid execution |
| PagingAccess.EffectiveIs | kernel/memory/paging.c:93-153 | in every tree the rights of a page, taken over all four entries of its path, are those of its leaf entry without user access |
| PagingAccess.MapGrants | kernel/memory/paging.c:93-153 | after a successful mapping the four entries together allow writing exactly if the flags have bit 1, forbid execution exactly if they have bit 63, and never allow user access |
| PagingAccess.RunGrants | kernel/memory/paging.c:93-179 | over every run the rights of each address are those of the entry that the same requests leave in a plain map, without user access |
| PagingAccess.UnmapSucceedsIff | kernel/memory/paging.c:156-178 | an unmapping reports success if and only if the tree has the leaf table of the address |
| PagingAccess.UnmapAfterMap | kernel/memory/paging.c:93-179 | after a successful mapping it succeeds for every address in the same 2 MB |
| PagingIdentity.IdentityEntry | kernel/memory/paging.c:88-90 | with the boot flags an identity entry is its own page's address plus the flags, names its own page and is no-execute exactly when that flag is given |
| PagingBoot.BootViews | kernel/memory/paging.c:202-212 | whatever prefixes of the two ranges got mapped, every mapped page maps to itself; with both complete, exactly the low 4 GB and the kernel image are mapped, each page by its address plus 0x103, and bit 63 exactly in the kernel image |
| PagingBoot.BootAccess | kernel/memory/paging.c:193-213 | after a complete boot mapping the path of every mapped page lets the kernel write, keeps user mode out, and forbids execution exactly in the kernel image; nothing else is reachable |
| PagingBoot.AddressSpace.FindTable | kernel/memory/paging.c:95-109 | the in-place step makes the state change of the specification, and one denial is counted exactly when a page was needed and refused |
| PagingBoot.AddressSpace.MapEntry | kernel/memory/paging.c:93-153 | the in-place mapping makes the state change of the specification |
| PagingBoot.AddressSpace.MapPage | kernel/memory/paging.c:93-153 | the meaning of the tables changes at that page's key or, on failure, nowhere; on success the path allows writing exactly as the flags ask and never user access; it fails exactly when a page is denied |
| PagingBoot.AddressSpace.ClearEntry | kernel/memory/paging.c:156-179 | the in-place unmapping makes the state change of the specification |
| PagingBoot.AddressSpace.UnmapPage | kernel/memory/paging.c:156-179 | the meaning of the tables loses that page's key and nothing else |
| PagingBoot.AddressSpace.CreateIdentityMap | kernel/memory/paging.c:182-191 | the loop maps exactly a page-by-page prefix of the range to itself, all of it on success, and nothing else; it stops early exactly when a page is denied |
| PagingBoot.AddressSpace.MapLowAndKernel | kernel/memory/paging.c:202-212 | every mapped page maps to itself; when no page is denied the boot mapping is complete |
| PagingBoot.AddressSpace.PagingInit | kernel/memory/paging.c:194-213 | from nothing: with a root, a tree in which every page maps to itself; when no page is denied, exactly the low 4 GB and the kernel image, each page present, writable and global, no-execute exactly on the image |
| IpcRing.CreatedInv | kernel/ipc/message.c:67-101 | a new channel satisfies the invariant whichever node allocations failed |
| IpcRing.ProduceKeeps | kernel/ipc/message.c:104-150 | each atomic step of a send keeps the invariant |
| IpcRing.ConsumeKeeps | kernel/ipc/message.c:153-183 | each atomic step of a receive keeps the invariant |
| IpcRing.RunKeeps | kernel/ipc/message.c:104-183 | every interleaving of one sender and one receiver, byte by byte, keeps the invariant |
| IpcRing.FirstInFirstOut | kernel/ipc/message.c:123-179 | over every interleaving the messages delivered are a prefix of those published, in order and unaltered; the parties never copy to and from one slot; the receiver never meets a bad node |
| IpcRing.CountersAgree | kernel/ipc/message.c:116-182 | at every point occupancy is sent minus received, corrected by one for a publication and one for a delivery not yet counted, and at most 1023; sent plus dropped plus no-memory results is the number of completed sends |
| IpcRing.MissingNodeClosesChannel | kernel/ipc/message.c:134-137 | once the tail stands at a slot whose node is missing, nothing is published again in any continuation |
| IpcQuota.AdmittedIsPassed | kernel/ipc/message.c:110-121 | in every run, whatever limits it sets on the way, the sends that get past the limiter are those the limiter alone passes under the limits in force |
| IpcQuota.PassedAtMost | kernel/ipc/message.c:110-121 | under any limits up to a bound, changed at any time, once a window of such a limit is entered: at most bound*(t/1000+1) sends pass in [a, a+t], plus bound-1 when t is not a whole number of seconds, and none when the bound is 0, for all clock readings, a and t |
| IpcQuota.PassedAfterFirstWindow | kernel/ipc/message.c:84-121 | the same bound from any left-over quota, such as the initial 10000, for intervals that start once its window is over |
| IpcQuota.PassedPerSecond | kernel/ipc/message.c:84-121 | at most (ceil(t/1000)+1)*bound sends pass in any interval of length t after the first window |
| IpcQuota.AttemptsSorted | kernel/ipc/message.c:110-114 | the clock readings of the sends a run starts are in order when the clock never goes back |
| IpcQuota.AdmittedAtMost | kernel/ipc/message.c:110-121 | over every run of a channel under limits up to a bound, set at any time and interleaved with the receiver in any way, no interval after the current window admits more than that |
| IpcQuota.CreatedAdmitsAtMost | kernel/ipc/message.c:84-121 | for a new channel whose limit is never raised, at most 1000 sends per started second and 1000 more in any interval from one second on |
| IpcQuota.FirstSecond | kernel/ipc/message.c:84-121 | of the sends a new channel sees in its first second exactly the first 10000 pass, whatever limits are set meanwhile |
| IpcQuota.SecondWindow | kernel/ipc/message.c:84-121 | the first window a new channel opens after that admits exactly 1000 |
| IpcQuota.OpenedPasses | kernel/ipc/message.c:111-121 | a window admits exactly as many sends as the limit in force when it opened, whatever is set later |
| IpcQuota.LimitTakesEffect | kernel/ipc/message.c:205-210 | after `ipc_set_rate_limit` the current window goes on with what it had left, and the next one admits exactly the new limit |
| IpcQuota.MostIsAttained | kernel/ipc/message.c:110-121 | for every limit, start and length some state and attempts pass exactly that many sends |
| IpcCalls.SendAppends | kernel/ipc/message.c:104-150 | an uninterrupted send appends its message exactly on success, which is when the limiter passes it, fewer than 1023 messages wait and the node at the tail exists; it is busy exactly when the limiter refuses and overflows exactly at 1023; sends, and drops by both causes, are counted |
| IpcCalls.ReceiveTakesFirst | kernel/ipc/message.c:153-183 | an uninterrupted receive takes the oldest message and counts it, finds none exactly when the queue is empty, and never fails on a node |
| IpcCalls.SoloSend | kernel/ipc/message.c:104-150 | the atomic steps of a send carried out alone make the state change of the whole call |
| IpcCalls.SoloReceive | kernel/ipc/message.c:153-183 | the atomic steps of a receive carried out alone make the state change of the whole call and deliver what it returns |
| IpcSenders.MoveKeepsIff | kernel/ipc/message.c:104-183 | with any number of senders each step keeps delivery in order if and only if a byte is written only where nobody may read and a slot is published only as the tail of a ring that is not full, holding its message |
| IpcSenders.RunKeepsIff | kernel/ipc/message.c:104-183 | delivery stays in order throughout an interleaving if and only if every copy and publication meets its guard |
| IpcSenders.CoreMeans | kernel/ipc/message.c:116-182 | what in order means: delivered is a prefix of published, occupancy is sent minus received plus the publications not yet counted, at most 1023, and every completed send is accounted for |
| IpcSenders.ExclusiveSenders | kernel/ipc/message.c:123-147 | over every interleaving in which no send reads the tail between another one's reading and its publication, delivery stays in order and the counters agree |
| IpcSenders.SameTailMovesOnce | kernel/ipc/message.c:123-147 | when two sends past the full-queue check hold the same tail, in every interleaving in which they are the next two to publish the tail moves once for two published messages |
| IpcSenders.SameTailLoses | kernel/ipc/message.c:123-147 | delivery is out of order after every such interleaving |
| IpcSenders.TwoSendersLose | kernel/ipc/message.c:104-150 | a run on a new channel in which two sends complete and are counted but the tail stands at one and the first message is gone |
| IpcCalls.IpcChannel.constructor | kernel/ipc/message.c:79-97 | a new channel is empty with the default limit and first quota, and has exactly the nodes that were obtained |
| IpcCalls.IpcChannel.Send | kernel/ipc/message.c:104-150 | the in-place send makes the state change of the specification and appends exactly on success |
| IpcCalls.IpcChannel.CopyIn | kernel/ipc/message.c:139-140 | the byte loop replaces one slot's message and nothing else |
| IpcCalls.IpcChannel.SetRateLimit | kernel/ipc/message.c:205-210 | replaces the limit; what is left of the current window and when it ends stay |
| IpcCalls.IpcChannel.Receive | kernel/ipc/message.c:153-183 | the in-place receive takes the oldest message |
| SlabLayout.SizeRoundsTo | kernel/memory/slab.c:107-108 | for every accepted size the alignment macro rounds up to whole cache lines |
| SlabLayout.DescriptorRoundsTo | kernel/memory/slab.c:154 | with an alignment that is no power of two, the macro rounds the descriptor to the largest power of two dividing the object size |
| SlabLayout.ObjectsFit | kernel/memory/slab.c:107-116 | for every accepted size objects start past the descriptor and end inside the page exactly when the colour is at most the slack, which is never negative |
| SlabLayout.AtLeastTwo | kernel/memory/slab.c:110-112 | a slab holds at least one object, and at least two exactly for sizes up to 1984 |
| SlabLayout.MostObjects | kernel/memory/slab.c:107-112 | a slab holds as many objects as fit behind a descriptor of 64 bytes, and no more |
| SlabLayout.PowersOfTwoOverrun | kernel/memory/slab.c:110-116 | for sizes that round to a power of two, objects end exactly the colour past the page end |
| SlabLists.LinkSpec | kernel/memory/slab.c:158-164 | pushing an unlisted slab puts it in front of a well-formed doubly linked list and touches no other list |
| SlabLists.UnlinkSpec | kernel/memory/slab.c:180-189 | unlinking any member leaves the well-formed list without it |
| SlabMoves.ChainWordsSpec | kernel/memory/slab.c:79-86 | the chain written into a new slab links each slot to the next, ends in NULL and touches no other word |
| SlabMoves.MeetsIff | kernel/memory/slab.c:71-154 | an object shares memory with a descriptor of a slab of its cache exactly when objects overrun their page and the descriptor is on the page right behind |
| SlabMoves.NewSlabKeeps | kernel/memory/slab.c:66-87 | a new slab starts with all slots free and leaves every other slab in order, for every accepted size and colour |
| SlabSafety.PopKeeps | kernel/memory/slab.c:169-176 | the object taken was a free slot and no live object; chain and live objects still partition the slots of every slab |
| SlabSafety.PushKeeps | kernel/memory/slab.c:240-243 | a live object returned becomes free; the partition holds in every slab |
| SlabSafety.SlotsAre | kernel/memory/slab.c:79-86 | the slots of a slab are exactly the positions one object size apart from its first object on |
| SlabRuns.EnsureKeeps | kernel/memory/slab.c:128-167 | unless nothing is free and no page comes, the partial list gets a slab to allocate from, all lists in order |
| SlabRuns.AllocOrdered | kernel/memory/slab.c:123-207 | wherever a new page lies, an allocation leaves lists, chains and counts in order |
| SlabRuns.AllocKeeps | kernel/memory/slab.c:123-207 | NULL exactly when no slab is partial or free and no page comes, so the empty-freelist return is unreachable; otherwise an object that was not live; the invariant of the cache is kept if and only if a new page, where objects overrun theirs, is next to no slab of the cache (other owners of neighbouring pages: `SlabKernel.StepKeepsIff`) |
| SlabFrees.OwnerSpec | kernel/memory/slab.c:215-234 | the search through the partial and then the full list finds the slab the live object is a slot of |
| SlabFrees.FreeKeepsIff | kernel/memory/slab.c:210-286 | freeing a live object keeps the cache in order if and only if its slab is partial, or heads the full list with at least two objects, or is further down it with one |
| SlabRoundTrip.FreeThenAllocPartial | kernel/memory/slab.c:169-243 | an object freed from the first partial slab, which keeps another one, is what the next allocation returns, and the cache is as before but for the object's first word |
| SlabRoundTrip.FreeThenAllocFull | kernel/memory/slab.c:169-285 | the same for an object of the first full slab, which goes to the partial list and back to the head of the full one |
| SlabFrees.StoreKeeps | kernel/memory/slab.c:24-34 | what owners write into live objects, or anyone into words that are neither part of a slab descriptor nor the first of a slot, cannot disturb the cache |
| SlabFrees.OutsideIsForeign | kernel/memory/slab.c:71-116 | while objects stay inside their pages, words outside the slabs' pages are neither part of a descriptor nor a slot |
| SlabFrees.RunKeeps | kernel/memory/slab.c:123-286 | for every accepted size and colour, over every run of one cache's allocations under the page guard, guarded frees, and stores into live objects or words outside descriptors and slots, the three lists are acyclic, doubly linked and disjoint with 0 < inuse < total, inuse = total and inuse = 0, chain and live objects partition the slots, and no object shares memory with a descriptor of the cache |
| SlabStores.StoreKeepsIff | kernel/memory/slab.c:79-86 | a store outside the descriptors keeps the cache in order if and only if it goes to a live object, to no slot, or changes nothing: every change to the link of a free slot breaks the chain |
| SlabKernel.SlabsApart | kernel/memory/slab.c:71-78 | under the invariant of all caches together, the objects of two slabs, of one cache or of two, share no memory |
| SlabKernel.OwnersMayWrite | kernel/memory/slab.c:24-34 | a store anywhere in a live object, or on a page of another owner, hits no descriptor and no free slot of any cache |
| SlabKernel.StepKeepsIff | kernel/memory/slab.c:123-286 | with all caches and all other page owners in one memory, each step (allocation, free, a page taken or given back by another owner, a store by an owner) keeps every cache in order and every object on memory of its own if and only if: a page handed out is not right behind a slab whose objects overrun their page, no owned page is right behind a new slab whose own objects do, and a freed object meets the free guard |
| SlabKernel.RunKeepsIff | kernel/memory/slab.c:123-286 | every state of a run of all caches and owners is sound if and only if every step meets that guard |
| SlabKernel.BootKernel | kernel/memory/slab.c:335-344 | any number of empty caches, with layouts such as `SlabMachine.LayoutFits` shows creation to compute, beside any taken pages is a sound start |
| SlabKernel.KfreeFreesIff | kernel/memory/slab.c:312-332 | `kfree` of a live object returns it to its own cache exactly when its slab is partial and changes nothing otherwise; the invariant of all caches is kept either way |
| SlabFrees.EmptyCache | kernel/memory/slab.c:99-105 | a new cache is in order and empty |
| SlabFrees.FirstFreeBreaks | kernel/memory/slab.c:248-254 | where slabs hold one object, the first object allocated cannot be freed soundly |
| SlabFill.FillSlab | kernel/memory/slab.c:123-207 | a cache without room fills one more slab by one allocation per slot, asking for one page |
| SlabFill.OlderSlabBreaks | kernel/memory/slab.c:272-285 | a run that fills two slabs of two objects or more, after which freeing an object of the older one fails the guard |
| SlabFill.StuckBreaks | kernel/memory/slab.c:272-285 | and that free breaks the invariant |
| SlabFill.AdjacentPageBreaks | kernel/memory/slab.c:148-154 | where objects overrun their page, a run that fills a slab, after which the page right behind it breaks the invariant |
| SlabFill.SmallCacheOverrun | kernel/memory/slab.c:107-116 | in the 64-byte cache set up at boot, the descriptor of a slab on page 8192 lands on live object 61 of the slab on page 4096 |
| SlabFill.NextOwnerStore | kernel/memory/slab.c:107-116 | in that cache after one allocation from page 4096, a store at 8192, on the next page, leaves the cache in order if and only if it changes nothing |
| SlabFill.NextOwnerBreaks | kernel/memory/slab.c:107-116 | and handing page 8192 to any other owner breaks the invariant of all caches and owners |
| SlabFrees.InuseCountsLive | kernel/memory/slab.c:176-243 | inuse is the number of live objects in the slab |
| SlabFrees.ObjectsIsSum | kernel/memory/slab.c:199-245 | the object count is the sum of inuse over all slabs that have live objects |
| SlabMachine.LayoutFits | kernel/memory/slab.c:107-117 | for every accepted size and count objects start past the descriptor and take up no more than a page; they overrun it exactly when the cache is coloured and 64 * (count mod 8) exceeds the slack |
| SlabMachine.FlagMovesObjects | kernel/memory/slab.c:71-117 | without the flag objects never overrun their page; with it the first object starts exactly 64 * (count mod 8) bytes later and nothing else changes |
| SlabMachine.BootLayouts | kernel/memory/slab.c:335-344 | the seven caches set up at boot as values: object size, objects per slab, first object |
| SlabMachine.CacheCreate | kernel/memory/slab.c:90-120 | creation is refused exactly for a table of 64 caches or a size outside 32 to 2048; a new cache satisfies the invariant and its objects overrun their pages exactly when it is coloured and 64 * (number mod 8) exceeds the slack |
| SlabMachine.KmemCache.constructor | kernel/memory/slab.c:99-117 | the new cache has the computed layout and no slabs, satisfies the invariant, and overruns exactly when it is coloured beyond the slack |
| SlabMachine.KmemCache.BuildChain | kernel/memory/slab.c:79-86 | the loop writes exactly the chain of the slab's slots |
| SlabMachine.KmemCache.PushFront | kernel/memory/slab.c:158-164 | the pointer updates are those of the specified push |
| SlabMachine.KmemCache.TakeOut | kernel/memory/slab.c:180-189 | the pointer updates are those of the specified unlinking |
| SlabMachine.KmemCache.GetSlab | kernel/memory/slab.c:128-167 | the in-place step gets a slab onto the partial list as specified |
| SlabMachine.KmemCache.ToFull | kernel/memory/slab.c:179-197 | the in-place move to the full list as specified |
| SlabMachine.KmemCache.Take | kernel/memory/slab.c:169-199 | the in-place pop as specified |
| SlabMachine.KmemCache.AllocObject | kernel/memory/slab.c:123-207 | the in-place allocation makes the state change of the specification |
| SlabMachine.KmemCache.Alloc | kernel/memory/slab.c:123-207 | returns an object that was not live, keeping the invariant of the cache exactly under the page guard, which is about slabs of the cache; NULL exactly when there is nothing to allocate from |
| SlabMachine.KmemCache.Search | kernel/memory/slab.c:216-223 | the list walk finds what the specified search finds |
| SlabMachine.KmemCache.FindOwner | kernel/memory/slab.c:215-234 | the two walks find the owner |
| SlabMachine.KmemCache.GiveBack | kernel/memory/slab.c:240-285 | the in-place return makes the state change of the specification |
| SlabMachine.KmemCache.Free | kernel/memory/slab.c:210-286 | frees a live object, keeping the invariant exactly under the guard |
| RunQueue.SetBitSpec | kernel/core/scheduling.c:67 | the or sets its bit and no other |
| RunQueue.ClearBitSpec | kernel/core/scheduling.c:88 | the and with the 64-bit complement clears its bit and no other |
| RunQueue.TopLevelSpec | kernel/core/scheduling.c:102-103 | count-leading-zeros xor 63 is the highest set bit |
| RunQueue.PickIsScan | kernel/core/scheduling.c:97-110 | when the bitmap agrees with the queues, the constant-time pick is the head of the highest non-empty queue found by a linear scan, or the idle thread |
| RunQueueSafety.EnqueueKeepsIff | kernel/core/scheduling.c:53-71 | enqueueing keeps the invariant if and only if the pointer is NULL or an existing thread and a ready thread is neither queued already nor the idle thread; bitmap, counter and queues agree after enqueueing the idle thread too, and only the clause that bars it from the queues is lost |
| RunQueueSafety.DequeueKeepsIff | kernel/core/scheduling.c:74-94 | dequeueing keeps the invariant if and only if the pointer is NULL or a queued thread (which thread goes, and the order of the others: `RunQueueSafety.DequeueKeepsLine`) |
| RunQueueSafety.DequeueKeepsLine | kernel/core/scheduling.c:84-89 | from a queue a, t, b a dequeue of t leaves a, b in that order, and no other queue changes |
| RunQueueSafety.ScheduleSpec | kernel/core/scheduling.c:113-135 | afterwards current heads the highest non-empty queue or is idle, no queued thread has higher priority, it is not blocked, and the switch counter moved exactly if current did |
| RunQueueSafety.BlockKeepsIff | kernel/core/scheduling.c:149-157 | blocking is sound if and only if the pointer is NULL or a queued thread; the thread then is blocked, on no queue and not current, and the best thread is current |
| RunQueueSafety.BlockRunsNext | kernel/core/scheduling.c:149-157 | when the first in line of the highest non-empty queue blocks, the second in line runs and the others keep their order |
| RunQueueSafety.WakeupKeepsIff | kernel/core/scheduling.c:160-167 | a wakeup is sound if and only if the pointer is NULL or an existing thread: a blocked thread is on no queue before, and stands last on the queue of its priority and nowhere else after |
| RunQueueSafety.TickKeepsIff | kernel/core/scheduling.c:189-206 | a tick, which counts down the slice of a current thread that exists, is sound if and only if no slice ends under a thread still queued |
| RunQueueSafety.TickSpec | kernel/core/scheduling.c:189-206 | a sound tick takes one from the slice or, at its end, makes the thread ready with ten more ticks and last in line of its priority, and the best thread current |
| RunQueueSafety.SliceRunsOut | kernel/core/scheduling.c:199-206 | a current thread that is queued stays current through the ticks of its slice, and the last of them breaks the invariant |
| RunQueueSafety.SliceEndRequeues | kernel/core/scheduling.c:113-206 | after any schedule with a queued thread, the picked thread's own slice run out tick by tick breaks the invariant |
| RunQueueSafety.QueuedOnce | kernel/core/scheduling.c:63-64 | a queued thread stands at one place of one queue |
| RunQueueSafety.CreateKeeps | kernel/core/scheduling.c:209-231 | a new thread disturbs nothing and is on no queue; enqueueing it puts it last in line at the priority it was created with, with ten ticks to run |
| RunQueueSafety.InitialInv | kernel/core/scheduling.c:248-272 | the state after initialisation is consistent, with or without an idle thread, which is current, has priority 0 and is on no queue |
| RunQueueSafety.DestroyKeepsIff | kernel/core/scheduling.c:234-245 | destroying is sound if and only if the pointer is NULL or a queued thread that is not current; the thread then is gone and on no queue |
| RunQueueSafety.DestroyRunning | kernel/core/scheduling.c:192-244 | after any schedule with a queued thread, destroying the current thread passes the test on the queues but leaves `current` pointing at freed memory, which the next tick follows |
| RunQueueRuns.DestroyRunningRun | kernel/core/scheduling.c:192-244 | the run that destroys the current thread, ticks and destroys it again breaks a guard and ends having used freed memory |
| RunQueueRuns.StepKeepsIff | kernel/core/scheduling.c:53-245 | each call keeps the invariant, which includes that the current and the idle thread exist and no freed memory was used, if and only if its guard holds |
| RunQueueRuns.RunKeepsIff | kernel/core/scheduling.c:53-245 | every state of a run is consistent if and only if every call of it meets its guard, where a guard never lets a call name a destroyed thread |
| RunQueueRuns.BootedRun | kernel/core/scheduling.c:38-245 | after every guarded run from boot, bit p is set exactly when queue p is not empty, the counter is the total queue length modulo 2^64, a blocked thread is on no queue, a queued thread is ready and queued once, the current thread is none or exists, and no call has followed a pointer into freed memory |
| RunQueueRuns.SwitchesCountChanges | kernel/core/scheduling.c:119-129 | in any run the switch counter moves by the number of changes of the current thread, modulo 2^64 |
| RunQueueRuns.RunKeepsOrder | kernel/core/scheduling.c:53-245 | first come, first served: over any run at all, two threads on one queue keep their order for as long as neither is dequeued, blocked or destroyed |
| RunQueueRuns.HeadKeepsProcessor | kernel/core/scheduling.c:97-135 | there is no rotation: the running head of the highest queue stays current through any guarded calls until it is taken off its queue or a thread of higher priority is queued |
| RunQueueMachine.Scheduler.constructor | kernel/core/scheduling.c:38-50 | the loop empties every queue; the initial state is consistent |
| RunQueueMachine.Scheduler.Enqueue | kernel/core/scheduling.c:53-71 | the in-place update as specified, sound exactly under the guard |
| RunQueueMachine.Scheduler.Dequeue | kernel/core/scheduling.c:74-94 | the in-place update as specified, which keeps the line; sound exactly when the pointer is NULL or a queued thread |
| RunQueueMachine.Scheduler.GetNextThread | kernel/core/scheduling.c:97-110 | the pick equals the linear scan whenever the bitmap agrees with the queues |
| RunQueueMachine.Scheduler.Schedule | kernel/core/scheduling.c:113-135 | the in-place update as specified; the best thread is current |
| RunQueueMachine.Scheduler.Block | kernel/core/scheduling.c:149-157 | the in-place update as specified, after which the next in line runs; sound exactly when the pointer is NULL or a queued thread |
| RunQueueMachine.Scheduler.Wakeup | kernel/core/scheduling.c:160-167 | the in-place update as specified, sound exactly when the pointer is NULL or an existing thread |
| RunQueueMachine.Scheduler.Tick | kernel/core/scheduling.c:189-206 | the in-place update as specified, sound exactly when no slice ends under a queued thread |
| RunQueueMachine.Scheduler.CreateThread | kernel/core/scheduling.c:209-231 | a ready thread of the given priority exists, on no queue |
| RunQueueMachine.Scheduler.DestroyThread | kernel/core/scheduling.c:234-245 | the in-place update as specified, sound exactly when the pointer is NULL or a queued thread that is not current |
| ByteWords.RoundTrip | boot/secure/verify_signature.c:266-283 | shifting a word out byte by byte, highest first, and reading it back returns it |
| Sha512.PadLength | boot/secure/verify_signature.c:256-260 | the pad length is between 1 and 128 and ends sixteen bytes before a block boundary |
| Sha512.FoldAppend | boot/secure/verify_signature.c:240-242 | complete blocks in front of a message are absorbed first and leave the rest's leftover |
| Sha512.UpdateHolds | boot/secure/verify_signature.c:226-252 | after an update the state is the fold of the compression function over the complete blocks of message and chunk, the count is the bit length modulo 2^64 and the buffer holds exactly the leftover |
| Sha512.UpdatesHold | boot/secure/verify_signature.c:226-252 | the same for any sequence of chunks, so the context depends on their concatenation only |
| Sha512.InitHolds | boot/secure/verify_signature.c:158-168 | a new context has absorbed the empty message, whatever its buffer holds |
| Sha512.StartIsStandard | boot/secure/verify_signature.c:158-168 | the eight starting words are the first 64 bits of the fractions of the square roots of the first eight primes, as section 5.3.5 of FIPS 180-4 says |
| Sha512.FinalHolds | boot/secure/verify_signature.c:254-271 | finishing absorbs exactly the padded message, whose bytes `Sha512Padding.PaddedBytes` states, and leaves nothing in the buffer |
| Sha512.DigestOfMessage | boot/secure/verify_signature.c:226-284 | for every compression function, chunking and uninitialised buffer the digest is a function of the message: the serialised fold over its padding |
| Sha512.SerializeWords | boot/secure/verify_signature.c:273-283 | bytes 8i to 8i+7 of the digest read, highest byte first, as word i of the state |
| Sha512.SerializeInjective | boot/secure/verify_signature.c:273-283 | different chaining states have different digests |
| Sha512Padding.PaddedBytes | boot/secure/verify_signature.c:259-271 | the byte behind the message is 0x80, all others up to the length field are 0, and the field reads as 2^64 times the bit count of message and padding |
| Sha512Padding.PaddedInjective | boot/secure/verify_signature.c:254-271 | different messages are padded differently |
| Sha512Padding.FewestZeros | boot/secure/verify_signature.c:259-260 | the pad length is the least that ends sixteen bytes before a block boundary |
| Sha512Padding.StandardIff | boot/secure/verify_signature.c:259-271 | among all messages below 2^128 bits the padding is that of section 5.1.2 of FIPS 180-4 (0x80, the fewest zeros, the bit length in sixteen bytes) exactly for those of 896 * 2^61 bytes |
| Sha512Padding.EmptyMessageDiffers | boot/secure/verify_signature.c:259-271 | the empty message is not padded as the standard says |
| Sha512Machine.Context.constructor | boot/secure/verify_signature.c:158-168 | the starting state and count; the buffer is not written |
| Sha512Machine.Context.Copy | boot/secure/verify_signature.c:234-236 | the copy loop overwrites exactly its part of the buffer |
| Sha512Machine.Context.Absorb | boot/secure/verify_signature.c:240-242 | the block loop folds the complete blocks and stops at the leftover |
| Sha512Machine.Context.FillBlock | boot/secure/verify_signature.c:232-243 | the buffer is completed and compressed before the blocks behind it |
| Sha512Machine.Context.Refill | boot/secure/verify_signature.c:232-251 | the leftover ends up at the front of the buffer |
| Sha512Machine.Context.Update | boot/secure/verify_signature.c:226-252 | the in-place update makes the state change of the specification |
| Sha512Machine.Context.Pad | boot/secure/verify_signature.c:255-263 | absorbs the padding as specified: 0x80 and zeros |
| Sha512Machine.Context.AppendLength | boot/secure/verify_signature.c:265-271 | absorbs the length field as specified, from the count after padding |
| Sha512Machine.Context.Final | boot/secure/verify_signature.c:254-284 | padding, length and serialised state as specified |
| Sha512Machine.Context.WriteLength | boot/secure/verify_signature.c:265-270 | the shift loop writes the count big-endian in the first eight bytes and zero in the last eight |
| Sha512Machine.Context.Digest | boot/secure/verify_signature.c:273-283 | the shift loop serialises the eight state words big-endian |
| Sha512Machine.ComputeHash | boot/secure/verify_signature.c:46-51 | the hash of a buffer is the serialised fold over its padding, whatever bytes the stack held |

## Left out

- The SHA-512 compression function itself (`sha512_transform`): it is an arbitrary function, so the results hold for every one.
- Signature checking, TPM, boot, interrupts, panic, system calls, the file system and the Python parts: firmware calls, stubs and prints.
- Memory maps of physical to virtual addresses, TLB invalidation, control registers and page zeroing: the walk reads the tables directly and a fresh table is zero.
- Weak memory ordering: atomic steps are sequentially consistent.
- NULL-argument checks for a missing channel, message or cache: objects exist; NULL pages, objects and threads are modelled.
- The channel table, channel destruction and reference counts, message timestamps: they carry no queue state.
- IPC counters are unbounded and the clock neither wraps nor goes back in the rate-limit laws.
- Page requests of the page-table code are answered from a sequence of frames in which 0 is a refusal; that the answers are distinct fresh page frames is an assumption.
- Page numbers are bits 12 to 47 of an address; the boot mapping is stated for a kernel image below 2^48.
- Frame 0 is not managed memory, because its address is NULL, and managed memory has at most 2^52 pages.
- Allocation bitmaps, `zone_start_pfn`, `zone_size` and `nr_slabs`: never read by what is modelled. Slab magic numbers, which every slab is given and nothing changes.
- `kmalloc`: cache selection by size. `kfree` of a pointer that is no live object.
- Slab search is a function bounded by the number of slabs, which a walk of an acyclic list never exceeds; the loop itself is in `SlabMachine.KmemCache.Search`.
- With several senders the limiter's check and decrement are one step; only delivery and counters are stated for them, not the quota.
- Memory shared by an object and a slab descriptor is not modelled: the invariant excludes it, and nothing is said about a cache once a new page has broken that. Stores into a descriptor are not modelled either; `SlabKernel.OwnersMayWrite` shows that no owner's own memory holds one.
- SlabRuns.AllocKeeps: speaks of one cache; pages of other caches and owners are in `SlabKernel`.
- SlabMachine.KmemCache.Alloc: speaks of one cache, as `SlabRuns.AllocKeeps` does.
- A destroyed thread's memory counts as free even where `kfree` leaves it allocated, and so may be given to a new thread.
- What a thread's freed memory holds: a call that follows a pointer into it is recorded, and ends what is promised. `switch_to`, which is handed the previous thread, is outside.
- Run-queue lists are sequences: adding a queued thread shows as a second occurrence and removing an unqueued one as no change of the list, where linked nodes would be corrupted.
- `sched_yield` and `sched_sleep`, which act on a thread pointer that is always NULL; other CPUs and the context switch. The width of the time-slice counter is not given by the sources.
- Offsets inside one hash chunk are unbounded; a chunk within 128 bytes of 2^64 does not exist in memory.
