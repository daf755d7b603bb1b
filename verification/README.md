# toutOS: a verified model of the kernel's memory, locks, scheduler and timers

toutOS is a small arm64 kernel. This project models its stateful core in Dafny, in the form the C code has:
objects whose methods update fields, arrays of bytes and of flags, intrusive linked lists, loops with
invariants. Each method is proved against a function or predicate over values, and the properties of whole
runs are lemmas about those.

- **Boundary-tag heap** (`bytes`, `heap_blocks`, `heap_memory`, `heap_headers`, `heap`, `heap_theorems`,
  `heap_runs`). The allocator of `mm/mm.c` runs on an array of bytes over the kernel's `sbrk`. A ghost list of
  blocks is the abstraction, and it determines every byte of the pool. One invariant (blocks tile the pool, 8-aligned, free
  blocks all zero, no two free neighbours) survives split, two-way merge and doubling. From it follow: an
  allocation and its release restore memory byte for byte; live ranges are disjoint, zeroed and untouched by
  other calls; a double free is harmless; the pool is 40 bytes doubled at most 23 times. Any legal sequence of
  calls on the bytes is the same sequence on the list.
- **Page pool and page tables** (`arith`, `bits`, `machine`, `descriptor`, `page_table`, `teardown`). A first-fit
  bitmap allocator, and a three-level radix tree of frames in memory, whose entries have the 4K-granule
  VMSAv8-64 layout (section D5.3 of Arm ARM DDI 0487, issues up to G). A ghost map gives every table frame its
  only place in the tree.
- **Address spaces** (`vm_blocks`, `list`, `address_space`, `demand`, `vm_setup`, `brk`, `exit_mm`, `life`).
  Demand faults, `sys_brk` and exit keep an exact account of the page pool: every page in use belongs to the world
  outside, to the page table, to one block of one area, or to the pages whose record could not be kept. The
  heap area's block list is the graph of the page table below the rounded break. `list` is the circular
  doubly linked form of a block list.
- **Fork and families of processes** (`fork`, `family`, `processes`). Copying, rollback at every failure point,
  what the child reads through its own table, and that a child is an address space like any other. Then any
  number of processes that fault, move their breaks, fork and exit in any interleaving on one page pool.
- **Concurrent ring buffer** (`ring`, `ring_buffer`). An interleaved step system, one step for each pointer
  load, byte copied and pointer published, and the sequential code as a bounded queue.
- **Sleeping mutex and spinlock** (`mutex`, `spinlock`). Protocols over any number of tasks or CPUs. The
  spinlock rests on load-exclusive and store-exclusive monitors ("Synchronization and semaphores" in Arm ARM
  DDI 0487).
- **Scheduler and timers** (`sched`, `timer`). Least-run-time choice per core with a bound on waiting, and the
  timer list with its restarting loop.

## Where the code does not do what one expects

Each of these is kept as the code has it, with the exact condition under which things go well.

- A waiter with pid 32 leaves no bit in the 32-bit waiting map (kernel/mutex.c:34, include/mutex.h:12).
  `Mutex.Pid32Sleeps` gives the run, `Mutex.LostWakeUpIff` the condition.
- A fault whose record cannot be allocated has already mapped its page (kernel/isr.c:539-545). `exit_mm` does
  not give such a page back. `Lives.Life` proves from the events which pages are left: those of faults whose
  record failed and that no later shrink covers.
- `sys_fork` copies the pages of a demand-paged area and puts the copies on the block list of the child
  (kernel/isr.c:238-266), but only areas with a load address are mapped (kernel/sched.c:581-583). The child
  never reads the copies: `Families.InheritedUnmapped`, `Families.InheritedUnread`. A shrink of the child drops
  their records and frees nothing (kernel/isr.c:323-344); `Families.ChildLife` gives the exact condition under
  which the pool gets everything back.
- The check of `kfree` looks at eight bytes (mm/mm.c:324-336), and a client may write such bytes into its own
  range: `HeapHeaders.ForgedHeader`, `HeapRuns.ForgeryReachable`. Off user bytes the check is exact:
  `HeapHeaders.HeaderIffLive`. Memory changes exactly when the check passes: `Heap.MemPool.CheckAndClear`.
- Rounding a size above 2^64 - 8 wraps to 0 (include/stddef.h:22), so such a request is served with an empty
  payload; `HeapRuns.RoundsUpIff` gives the condition.
- A timer callback that rearms its timer for the tick being handled keeps the loop of `run_timer_softirq`
  going for ever (kernel/timer.c:113-119). `TimerList.EndsIff` gives the condition. Adding a timer that is queued
  already makes the list cyclic, and only that does: `TimerList.Queue.AddTimer`.
- `spin_unlock` ignores the result of its store (kernel/spinlock.c:95). With a monitor that something other
  than a store can clear, the lock is lost for good exactly when that store fails: `Spinlock.LostLockIff`.
  `Spinlock.DisturbedUnlockWedges` gives a run.
- mm/page_table.c:5 speaks of a 40-bit setup; the three shifts of line 6 with nine bits each cover 39 bits, and
  the model follows the code.

## Model

| member | source | states |
|---|---|---|
| `Bytes.DecodeEncode` | mm/mm.c:49-52 | a field written little-endian reads back as the value written |
| `Bytes.DecodeInjective` | mm/mm.c:49-52 | a field value determines its bytes, so equal headers are equal byte for byte |
| `Bytes.SameByte` | kernel/isr.c:236-237 | words that agree below a byte boundary agree in every byte below it |
| `HeapMemory.ReplaceBlocks` | mm/mm.c:197-219 | rewriting exactly the bytes of some blocks replaces exactly those blocks in the memory image; every other block is still stored |
| `HeapMemory.StoredSame` | mm/mm.c:37-53 | a write that stays outside a block leaves its header, payload and tail stored |
| `HeapMemory.ImageDetermined` | mm/mm.c:14-25 | two memories that hold the same blocks agree on every byte of the pool |
| `HeapMemory.FieldStored` | mm/mm.c:221-235 | storing in_use, user_start or user_len changes that field of that block and nothing else |
| `HeapBlocks.CarvedGood` | mm/mm.c:186-235 | the pieces of a split block cover it exactly, are good blocks, and the first is in use |
| `HeapBlocks.PlaceKeeps` | mm/mm.c:221-255 | serving a request from a fitting free block, with or without a split, keeps tiling, alignment, zeroed free payloads and no two free neighbours |
| `HeapBlocks.RunIsShort` | mm/mm.c:113-142 | under the invariant a merge absorbs at most one free block on either side |
| `HeapBlocks.CoalesceKeeps` | mm/mm.c:113-142 | merging around a just freed block re-establishes the whole heap invariant |
| `HeapBlocks.ReleaseKeeps` | mm/mm.c:338-343 | releasing a block keeps the heap invariant |
| `HeapBlocks.GrowKeeps` | mm/mm.c:144-161 | doubling the pool and merging the new space keeps the heap invariant |
| `HeapBlocks.AllocateKeeps` | mm/mm.c:345-384 | a whole request, however often the pool doubles, keeps the invariant and adds exactly the requested size to the bytes handed out, or nothing when refused |
| `HeapBlocks.TotalRelease` | mm/mm.c:403-408 | releasing a block lowers the bytes handed out by its user_len |
| `HeapBlocks.TotalBound` | mm/mm.c:417-434 | the bytes handed out never exceed the pool, so total_length cannot wrap |
| `HeapBlocks.FirstFit` | mm/mm.c:164-173 | the result is the lowest block that is free and large enough; there is none exactly when the result is the length of the list |
| `HeapBlocks.Served` | mm/mm.c:164-235 | which block serves a request and what becomes of it, in numbers: the lowest free one whose payload holds the rounded size, an exact fit included; up to 40 bytes more stay in it, otherwise the rest becomes a free block of its own; the pointer is 32 bytes into the block |
| `HeapBlocks.PokeKeeps` | mm/mm.c:10-25 | a user store inside a handed-out payload keeps the heap invariant |
| `Heap.MemPool.constructor` | mm/mm.c:272-309 | after init_mm the pool is one free block of 40 bytes |
| `Heap.MemPool.Sbrk` | mm/memory.c:13-27 | moves the break inside [0, MEM_POOL_SIZE], and otherwise fails and changes nothing |
| `Heap.MemPool.InitFreeBlk` | mm/mm.c:37-53 | the bytes of the range become a stored, zeroed free block; no other byte changes |
| `Heap.MemPool.PrevMemBlk` | mm/mm.c:65-78 | the tail word before a header leads to the preceding block; NULL for the first |
| `Heap.MemPool.NextMemBlk` | mm/mm.c:80-92 | the length field leads to the following block; NULL for the last |
| `Heap.MemPool.MostPrev` | mm/mm.c:119-125 | the backward loop ends at the first block of the run of free blocks |
| `Heap.MemPool.MostNext` | mm/mm.c:127-133 | the forward loop ends at the last block of the run of free blocks |
| `Heap.MemPool.MergeFreeBlk` | mm/mm.c:113-142 | the bytes afterwards are the image of the list with the whole run of free blocks merged |
| `Heap.MemPool.EnlargeMemPool` | mm/mm.c:144-161 | succeeds exactly when twice the pool fits in MEM_POOL_SIZE; then the pool is doubled and merged, else no byte changes |
| `Heap.MemPool.Search` | mm/mm.c:168-173 | finds the address of the first fitting block, NULL exactly when none fits |
| `Heap.MemPool.FindAFreeBlk` | mm/mm.c:164-180 | terminates for every request, returns the lowest fitting block of the possibly doubled pool, and NULL only when nothing fits and doubling is refused |
| `Heap.MemPool.SplitMemBlk` | mm/mm.c:198-219 | turns a free block into two free blocks, the first with the wanted payload, touching no other byte |
| `Heap.MemPool.MarkMemBlk` | mm/mm.c:221-235 | splits if more than a minimal block is left over, and marks the block in use; the split-off rest is a stored free block |
| `Heap.MemPool.AllocMem` | mm/mm.c:345-384 | on raw bytes, kmalloc does what the block-level request does, for every size up to 2^64 - 8; NULL for a non-zero size only when the pool cannot double |
| `Heap.MemPool.CheckAndClear` | mm/mm.c:324-340 | kfree up to the merge, for every pointer whose header can be read: a byte of memory changes if and only if mem_blk_ok accepts the header, and then in_use is cleared and total_length lowered by what stands in user_len |
| `Heap.MemPool.FreeMem` | mm/mm.c:386-415 | a live pointer is released; a NULL pointer, or one that is not live and not forged in user bytes, changes no byte |
| `HeapHeaders.BlockHeaders` | mm/mm.c:324-336 | inside one block, off its user bytes, only the header of a block in use passes mem_blk_ok |
| `HeapHeaders.HeaderIffLive` | mm/mm.c:324-336 | mem_blk_ok accepts an aligned pool address off all user bytes if and only if a block in use starts there |
| `HeapHeaders.ForgedHeader` | mm/mm.c:324-336 | whoever holds eight bytes can write a header there that mem_blk_ok accepts, for a pointer that is not live |
| `Heap.MemPool.WriteUser` | mm/mm.c:377-377 | a store through a live pointer changes one payload byte of that block |
| `Heap.MemPool.GetPoolMallocTotalLength` | mm/mm.c:417-434 | the walk over the blocks always agrees with the running total, so the mismatch value is never returned |
| `HeapTheorems.LiveDisjoint` | mm/mm.c:345-384 | live ranges are 8-aligned, inside the pool, and at least a header and a tail apart |
| `HeapTheorems.AllocateLive` | mm/mm.c:345-384 | a granted request adds one all-zero range at a fresh address and leaves every other live range, bytes included, alone; a refused one changes no live range |
| `HeapTheorems.ReleaseLive` | mm/mm.c:386-415 | kfree removes exactly the range it is given |
| `HeapTheorems.PokeLive` | mm/mm.c:345-415 | writing through one range changes no other live range |
| `HeapTheorems.AllocFreeRestores` | mm/mm.c:198-235 | if some block already fits: allocate, overwrite the whole payload with anything, free, and the list of blocks is what it was |
| `HeapTheorems.AllocFillFree` | mm/mm.c:345-415 | the same on the real pool, with data up to the last slack byte of the payload: memory is restored byte for byte, and so are end and total_length |
| `HeapTheorems.FreedTwice` | mm/mm.c:311-336 | after a release the old header no longer passes mem_blk_ok, even if a merge absorbed it, and the address is no longer live |
| `HeapTheorems.FreeTwice` | mm/mm.c:386-415 | two kfree calls in a row on one pointer have the effect of one |
| `HeapRuns.Reachable` | mm/mm.c:113-235 | in every heap reached from init_mm by any legal calls and user writes (sizes that can be rounded; kfree of NULL, of a live pointer, or of any aligned pool pointer whose header lies off all user bytes): blocks tile the pool, lengths are multiples of 8 and at least 40, no two free neighbours, length 40 times 2^k with k at most 23, live ranges aligned, inside and disjoint |
| `HeapRuns.RunFrame` | mm/mm.c:345-415 | over any legal run, a live range that nobody frees or writes keeps its place, length and every byte |
| `HeapRuns.RefusedOnlyWhenFull` | mm/mm.c:175-179 | a request that can be rounded is refused only when the pool has 40 times 2^23 bytes and no free block fits |
| `HeapRuns.RoundsUpIff` | include/stddef.h:22-22 | ALIGNED_TO_8BYTES rounds up if and only if the size is at most 2^64 - 8; above, it yields 0 |
| `HeapRuns.CheckIffLive` | mm/mm.c:386-415 | in every reachable heap a pointer that may be passed to kfree passes its check if and only if it is live |
| `HeapRuns.ForgeryReachable` | mm/mm.c:386-415 | from any reachable heap in which somebody holds eight bytes, legal stores lead to one where the check of kfree passes for a pointer nobody was given |
| `HeapRuns.Perform` | mm/mm.c:345-415 | one call on the real pool is one step of the block-level run |
| `HeapRuns.BootAndRun` | mm/mm.c:272-434 | init_mm and any legal calls and stores: the bytes of the real pool are the image of the block list the run reaches, and total_length is its sum |
| `Machine.MarkUnmark` | mm/memory.c:108-110 | freeing a run that was free when taken restores the usage map |
| `Machine.UsedInjective` | mm/memory.c:72-73 | the set of used pages determines the usage map |
| `Machine.UsedMark` | mm/memory.c:108-110 | marking a run adds, and clearing it removes, exactly the pages of the run |
| `Machine.UsedRun` | mm/memory.c:88-98 | a run is free, or wholly used, exactly when its pages are |
| `Machine.PageMemory.FindFreePages` | mm/memory.c:75-113 | takes the lowest-starting run of that many free pages and marks exactly it; -1 with the map unchanged exactly when there is no such run |
| `Machine.PageMemory.GetFreePages` | mm/memory.c:115-127 | the pages returned were free and are now used, nothing else changes; NULL exactly when no run is long enough |
| `Machine.PageMemory.GetZeroedPages` | mm/memory.c:129-140 | as get_free_pages, with the pages zeroed and every other frame untouched |
| `Machine.PageMemory.FreePages` | mm/memory.c:142-169 | rejects addresses outside the pool or misaligned without a change; frees exactly the pages if all are in use; otherwise the kernel stops in its assert |
| `Descriptor.EntryPhyAddr` | mm/page_table.c:53-57 | the frame put into an entry is the frame get_phy_addr reads back; the table and access bits are set and the high attribute bits kept |
| `Descriptor.EntryBits` | mm/page_table.c:53-57 | the bitwise OR the source stores, of frame, attributes and the two constants, is the entry the model stores, for every aligned frame below 2^48 and attributes off bits 12 to 47 |
| `Descriptor.UserEntry` | kernel/sched.c:583-585 | with the two attribute sets user pages get, the entry is the frame plus 0xF53 (readable and writable from EL0) or plus 0xFD3 (read-only) |
| `Descriptor.PhyAddrBits` | mm/page_table.c:13-16 | the two masks of get_phy_addr cut out exactly the frame, for every 64-bit descriptor |
| `Descriptor.IndexBits` | mm/page_table.c:6-11 | shift and mask of get_pg_entry_index give the three indices |
| `Descriptor.IndicesInjective` | mm/page_table.c:8-11 | inside the 39-bit window the three indices determine the page |
| `Descriptor.SamePageSameIndices` | mm/page_table.c:8-11 | addresses of one page have the same three indices |
| `PageTable.AddMid` | mm/page_table.c:39-54 | hanging a new empty middle table below the directory keeps the tree a tree and changes no translation |
| `PageTable.AddLeaf` | mm/page_table.c:39-54 | the same for a new last-level table |
| `PageTable.SetLeaf` | mm/page_table.c:55-58 | filling or clearing a last-level entry changes the translation of exactly one page |
| `PageTable.InstallTable` | mm/page_table.c:39-54 | takes one zeroed page, links it, and preserves every translation; fails only with the pool empty |
| `PageTable.SetupPgForAddr` | mm/page_table.c:18-67 | the page is mapped to the frame unless it was mapped; all other translations are kept; only pages for tables are taken and only tables written |
| `PageTable.WalkVirtAddr` | mm/page_table.c:73-107 | returns the frame of the last-level entry |
| `PageTable.UnmapOneUserPage` | mm/page_table.c:109-149 | frees the frame of the page, if there is one, and removes exactly that translation |
| `PageTable.MapsOneMore` | mm/page_table.c:161-166 | mapping page by page composes: each page of the range gets its frame, mapped ones keep theirs, outside nothing changes |
| `PageTable.AddSingleMap` | mm/page_table.c:152-167 | every unmapped page of the range now translates to its frame, every mapped page keeps its own, every translation outside the range is unchanged, though tables are allocated on the way |
| `Teardown.WalkAfterMap` | mm/page_table.c:73-107 | after the mapping the walk gives each page its own frame, old or new |
| `Teardown.FreePageTablesLayer1` | kernel/sched.c:307-329 | frees the middle table and the last-level tables below it, each once |
| `Teardown.FreePageTables` | kernel/sched.c:331-349 | frees every table frame of the tree once and no mapped data frame; the assert in free_pages never fires |
| `Teardown.DirectoryLife` | mm/page_table.c:152-167 | a fresh directory, any mappings in any order, teardown: the usage map is as before and no frame in use was written, or the pool ran dry |
| `VmBlocks.Partition` | kernel/isr.c:334-343 | deleting the blocks of a range splits the pages of the list exactly |
| `VmBlocks.OwnedUpdate` | kernel/sched.c:351-365 | changing the block list of a private area changes what exit_mm will free by exactly the difference |
| `AddressSpace.FindVma` | kernel/sched.c:508-528 | the first area that contains the address, the length of the list exactly when none does |
| `AddressSpace.UnmapUserPageMapping` | kernel/sched.c:614-644 | clears exactly the translations of the range and frees each of their frames once, so the assert in free_pages never fires; NULL and unaligned sizes change nothing |
| `AddressSpace.LedgerTables` | kernel/sched.c:367-394 | in the account of an address space tables, data pages, unrecorded pages and foreign pages are pairwise disjoint |
| `DemandPaging.GraphAdd` | kernel/isr.c:539-542 | recording a newly mapped page keeps the block list equal to the graph of the page table |
| `DemandPaging.FaultGraph` | kernel/isr.c:531-548 | the graph invariant of the heap area survives a fault anywhere, recorded or not |
| `DemandPaging.MapUserPage` | kernel/sched.c:565-593 | maps one unmapped page to the given frame, readable and writable by user code (low bits 0xF53), and nothing else |
| `DemandPaging.PageFault` | kernel/isr.c:531-548 | a handled translation fault brings in one fresh frame for exactly that page, mapped readable and writable (low bits 0xF53), and keeps the whole address-space invariant; it reports no memory exactly when the pool is exhausted on entry, and stops only with an exhausted pool; without an area or memory nothing changes |
| `VmSetup.SetupUserPageMappings` | kernel/sched.c:595-612 | in a fresh directory, afterwards every address of an area with a load address has the entry of its frame, low bits 0xF53 if the area is writable and 0xFD3 if not, and no other page is mapped |
| `VmSetup.EntryAt` | kernel/sched.c:581-593 | in a mapped area the entry at every address is load address plus page offset plus the low bits for the write flag |
| `Brk.DeleteBlocks` | kernel/isr.c:333-343 | leaves the blocks outside the range, in order |
| `Brk.GraphTrim` | kernel/isr.c:323-344 | clearing a range and dropping its blocks keeps blocks and page table equal |
| `Brk.LedgerTrim` | kernel/isr.c:323-344 | freeing the mapped frames of a range and dropping all its blocks keeps the account exact, with the pages fork recorded without mapping moving to the leaked ones |
| `Brk.ShrinkKeeps` | kernel/isr.c:323-355 | a shrink keeps account, layout and graph together |
| `Brk.UnmapHeap` | kernel/isr.c:323-332 | unmaps the range between the rounded breaks and frees each mapped frame once |
| `Brk.SettledLayout` | kernel/isr.c:347-355 | the heap area follows the break, or is created, without overlap |
| `Brk.AllTrimmed` | kernel/isr.c:345-355 | a break moved down to its start leaves the heap area without blocks |
| `Brk.Shrink` | kernel/isr.c:323-344 | a shrink unmaps exactly the pages between the rounded breaks, frees each frame once and drops exactly their blocks |
| `Brk.SysBrk` | kernel/isr.c:300-360 | keeps the whole address-space invariant, moves the break exactly for non-zero addresses from start_brk to 0x0C00_0000, moves the end of the heap area with it or creates that area, drops exactly the blocks between the rounded breaks, and on a shrink clears exactly the pages there |
| `Exit.FreePagesBlocks` | kernel/sched.c:351-365 | frees each page of the blocks once |
| `Exit.ExitMm` | kernel/sched.c:367-394 | frees every page of every private block and every table frame exactly once; the assert in free_pages never fires |
| `Exit.LedgerExit` | kernel/sched.c:367-394 | what is left after exit is what was there before, and the pages no list recorded |
| `Lives.HandleEvent` | kernel/isr.c:300-360 | every fault and every sys_brk does exactly what the event relation says and keeps the address-space invariant; the kernel hangs only in a fault, with an exhausted pool |
| `Lives.CreateSpace` | kernel/sched.c:595-612 | a fresh directory with the areas of a program mapped satisfies the address-space invariant; none only with an exhausted pool |
| `Lives.AccountRun` | kernel/isr.c:300-360 | over any run the events alone decide the break, the unrecorded pages, the stale records and the leaked pages |
| `Lives.RunEvents` | kernel/isr.c:300-360 | runs any events of a process, and relates each pair of states by what the event does |
| `Lives.RunAndExit` | kernel/sched.c:367-394 | after any events and exit_mm, the pages in use are those in use outside and the leftovers, which the events determine; none are left if and only if the events are clean |
| `Lives.Life` | kernel/sched.c:367-394 | from the start of a program over any run of faults and sys_brk to its exit: a page is left over if and only if it was mapped by a fault whose record failed and no later accepted shrink covers it; the usage map is restored if and only if there is no such page |
| `Fork.GetOrder` | include/stddef.h:26-37 | the least order whose pages hold the size |
| `Fork.OrderHolds` | include/stddef.h:26-37 | the pages of that order cover every page of an area |
| `Fork.CopyArea` | kernel/isr.c:236-237 | copies, byte by byte up to the end of the area, what the parent reads, writing only the new pages |
| `Fork.CloneShared` | kernel/isr.c:203-209 | a shared area is copied with the same frames and no page of its own |
| `Fork.RecordRun` | kernel/isr.c:210-230 | a fresh run with its area and block, or the pages given back |
| `Fork.CloneLoaded` | kernel/isr.c:210-237 | a private area with a load address gets fresh frames with the parent bytes, or fails because a counted call of kmalloc was refused or no run of pages is free |
| `Fork.CloneDemand` | kernel/isr.c:238-266 | every page of a demand-paged area is copied to a fresh page on the block list of the child |
| `Fork.CopiedPages` | kernel/isr.c:238-266 | after a fork every page recorded for a demand-paged area has a copy, recorded for the same address in the child, in a frame that was free before and with the same words |
| `Fork.CloneAreas` | kernel/isr.c:197-267 | all areas copied with one kmalloc for each area and block, or a failure whose cause is the last kmalloc made or a missing run of pages |
| `Fork.Rollback` | kernel/isr.c:290-297 | exit_mm on whatever exists of the child leaves exactly the pages used before the fork |
| `Fork.SysFork` | kernel/isr.c:156-298 | a failure at any point leaves the usage map as it was and has a real cause: no slot, the last kmalloc that was made, or no run of pages at that moment; it hangs only with an exhausted pool; success copies every area, keeps every parent byte, and maps in the table of the child exactly the copies with a load address |
| `Fork.ChildReads` | kernel/isr.c:197-238 | at every address of a loaded area, through its own table, the child reads in a shared area the frame it is loaded at, in a private one a frame that was free before, where that byte is the byte the parent read there; the low bits of the entry are 0xF53 if the area is writable, 0xFD3 if not |
| `Fork.WholePage` | kernel/isr.c:236-237 | a page that lies wholly inside a private loaded area reads word for word as in the parent, each through its own table |
| `Families.MayFork` | kernel/isr.c:197-266 | any address space in order and in shape is one that sys_fork may copy |
| `Families.ShapeRun` | kernel/isr.c:300-360 | the shape that fork relies on is kept over any run of faults and sys_brk |
| `Families.ChildInOrder` | kernel/isr.c:197-273 | the child of a fork satisfies the address-space invariant beside everything in use before |
| `Families.ChildShape` | kernel/isr.c:197-273 | the child can be forked in its turn |
| `Families.ChildSees` | kernel/isr.c:197-273 | every byte of every loaded area, shared or private, reads in the child as it read in the parent when the fork began |
| `Families.InheritedUnmapped` | kernel/isr.c:238-270 | right after the fork no page of the inherited heap is mapped in the child |
| `Families.InheritedUnread` | kernel/isr.c:238-270 | whatever the child does, no page of its heap translates to one of the copies fork made of heap pages |
| `Families.Survives` | kernel/sched.c:367-394 | an address space stays in order and in shape while only pages that are not its own change |
| `Families.ForkThenExit` | kernel/sched.c:367-394 | a child that exits at once gives back exactly what the fork took; the kernel hangs only with an exhausted pool |
| `Families.ChildLife` | kernel/isr.c:156-298 | fork, any faults and sys_brk of the child, its exit: a fork that fails has one of its three reasons and changes no usage; otherwise the usage map is that of before the fork if and only if no page mapped without a record is left and no shrink of the child covers a heap page it inherited; the parent stays in order and every frame in use before keeps its contents |
| `Processes.EventKeeps` | kernel/isr.c:300-360 | a fault or sys_brk of one process keeps the invariant of the whole system: every process in order, every page in use owned by one process, left behind, or there before |
| `Processes.ForkKeeps` | kernel/isr.c:156-298 | so does a fork |
| `Processes.ExitKeeps` | kernel/sched.c:367-394 | so does an exit |
| `Processes.Isolation` | kernel/isr.c:300-360 | over any steps of other processes, a process keeps its areas and lists, the contents of all its pages, and every translation of its page table |
| `Processes.LeftIff` | kernel/sched.c:367-394 | a page is left behind after a run if and only if some process that exited left it |
| `Processes.AllCleanIff` | kernel/sched.c:367-394 | nothing is left behind if and only if every process that exited was clean |
| `Processes.RunSystem` | kernel/isr.c:156-360 | a program and all its descendants fault, move their breaks, fork and exit in any interleaving: every state satisfies the invariant; the kernel stops only in a fault or a fork that finds the pool exhausted; when all have exited the usage map is as before the start if and only if every one of them was clean |
| `Ring.CellStep` | lib/circular_buffer.c:41-46 | a pointer that wraps at the end is the stream position modulo the length |
| `Ring.CellInjective` | lib/circular_buffer.c:41-46 | positions less than a buffer apart share a cell only if equal |
| `Ring.StoredIsDistance` | lib/circular_buffer.c:67-71 | the stored length computed from the pointers is the distance of the stream positions |
| `Ring.WriteMissesUnread` | lib/circular_buffer.c:41-46 | the cell being written is never one that a reader may still read |
| `Ring.StepKeeps` | lib/circular_buffer.c:18-84 | every single step of either side keeps the invariant, with stale snapshots on the other side |
| `Ring.RunSafe` | lib/circular_buffer.c:18-84 | over every interleaving the delivered bytes are a prefix of the accepted ones, the undelivered ones lie in memory in the cells the read pointer will visit, both pointers are the stream positions modulo the length, at most length - 1 bytes are stored, and cells to be written and cells to be read are disjoint |
| `Ring.NoOverlap` | lib/circular_buffer.c:41-79 | no cell is still to be written and still to be read |
| `Ring.WholeWrites` | lib/circular_buffer.c:31-50 | over every interleaving the delivered bytes are a prefix of the concatenation of the whole writes that were accepted, and memory holds the rest of it between the two pointers |
| `Ring.RefusedIffNoRoom` | lib/circular_buffer.c:31-39 | a write is refused exactly when the free space it saw was too small; then no byte changes and the overflow flag is set |
| `Ring.ReadTakes` | lib/circular_buffer.c:67-72 | the length check of a read fixes min(length, accepted - delivered) bytes to take, and changes nothing else |
| `Ring.ReadDelivers` | lib/circular_buffer.c:53-84 | whatever the writer does meanwhile, a read delivers exactly the next min(length, stored) bytes of the stream, where stored is what had been published when it looked at the write pointer |
| `Ring.WriteStores` | lib/circular_buffer.c:18-51 | whatever the reader does meanwhile, a write is refused with the overflow flag if the room left when it began is too small, and otherwise appends exactly its bytes |
| `Ring.NeverStuck` | lib/circular_buffer.c:104-147 | neither side is ever blocked inside an operation |
| `RingBuffer.QueueAppend` | lib/circular_buffer.c:41-46 | storing in the next free cell appends to the queue |
| `RingBuffer.QueueDrop` | lib/circular_buffer.c:74-79 | advancing the read pointer drops the oldest bytes |
| `RingBuffer.CircularBuffer.Write` | lib/circular_buffer.c:18-51 | appends all the bytes, or none exactly when they do not fit |
| `RingBuffer.CircularBuffer.Read` | lib/circular_buffer.c:53-84 | removes and returns the oldest min(length, stored) bytes |
| `RingBuffer.CircularBuffer.CopyOut` | lib/circular_buffer.c:74-79 | the copy loop reads the oldest bytes in order and ends at the next cell |
| `RingBuffer.CircularBuffer.WriteConcurrent` | lib/circular_buffer.c:124-147 | a refused write sets the overflow flag, which is never cleared |
| `Mutex.MasksDisjoint` | kernel/mutex.c:34-34 | different pids have different bits |
| `Mutex.MaskNonzero` | kernel/mutex.c:34-34 | the bit of a pid is non-zero exactly below 32: pid 32 leaves no trace in the 32-bit map |
| `Mutex.FlagsAfter` | kernel/mutex.c:34-34 | setting and clearing the bit of a pid sets and clears its flag and no other |
| `Mutex.GetNextWaiting` | kernel/mutex.c:42-54 | the bit scan returns the lowest waiting pid, -1 if there is none |
| `Mutex.StepKeeps` | kernel/mutex.c:17-73 | every critical section keeps: locked exactly while held by one task, the map is the set of sleepers, a free mutex with sleepers has a woken task |
| `Mutex.UnlockWakes` | kernel/mutex.c:56-73 | an unlock frees the mutex and wakes exactly the sleeper with the lowest waiting pid, whose bit it clears; nobody if no bit or that of pid 0 is set |
| `Mutex.TrySleeps` | kernel/mutex.c:24-39 | a try takes a free mutex and changes nothing else; on a taken one it sets its bit, if pid is below 32, and sleeps |
| `Mutex.MutualExclusion` | kernel/mutex.c:17-73 | over every interleaving of pids 1 to 31: at most one holder, no lost sleeper bit, a non-empty map means locked or a woken task yet to retry, never free with every contender asleep |
| `Mutex.Pid32Sleeps` | kernel/mutex.c:34-34 | a concrete run in which the waiter with pid 32 sleeps for ever on a free mutex |
| `Mutex.LostWakeUpIff` | kernel/mutex.c:17-73 | among pids 1 to 32 a wake-up can be lost if and only if pid 32 contends with somebody else |
| `Mutex.MutexSystem.LockRound` | kernel/mutex.c:24-39 | one round of the loop on the real bitmap is the protocol step; it acquires exactly a free mutex, and otherwise sets the bit of the caller alone and puts it to sleep |
| `Mutex.MutexSystem.Unlock` | kernel/mutex.c:56-73 | unlocking on the real bitmap is the protocol step: exactly the lowest waiting pid is woken and its bit cleared |
| `Spinlock.StepSafe` | kernel/spinlock.c:54-98 | every instruction of every CPU keeps: at most one owner, and an armed CPU about to take the lock has seen a word that is still zero |
| `Spinlock.Rounds` | kernel/spinlock.c:64-98 | undisturbed, the two instructions of spin_lock take a free lock and leave a taken one alone, and those of spin_unlock free it |
| `Spinlock.MutualExclusion` | kernel/irq.S:174-200 | over every interleaving of any number of CPUs at most one owns the lock, whatever disturbs the monitors |
| `Spinlock.UnlockTakesEffect` | kernel/spinlock.c:91-97 | if only other stores clear a monitor, the unchecked store of spin_unlock always takes effect |
| `Spinlock.DisturbedUnlockWedges` | kernel/spinlock.c:95-95 | a concrete run: one monitor cleared inside spin_unlock and the lock is lost |
| `Spinlock.WedgedForever` | kernel/spinlock.c:64-78 | once lost, no run gets the lock back |
| `Spinlock.LostLockIff` | kernel/spinlock.c:81-98 | over every run of any number of CPUs, the lock is lost for good if and only if some unlock store failed |
| `Spinlock.WedgedOnlyIfDisturbed` | kernel/spinlock.c:81-98 | the lock is lost only if a monitor was disturbed inside a spin_unlock |
| `Spinlock.SpinWord.LoadExclusive` | kernel/spinlock.c:26-37 | returns the word and arms the monitor |
| `Spinlock.SpinWord.StoreExclusive` | kernel/spinlock.c:39-52 | stores exactly if the monitor is still armed, and says so |
| `Spinlock.SpinWord.LockRound` | kernel/spinlock.c:64-78 | an undisturbed round takes the lock exactly when it was free |
| `Spinlock.SpinWord.UnlockRound` | kernel/spinlock.c:91-97 | an undisturbed unlock frees a taken lock |
| `Scheduler.PickIsNext` | kernel/sched.c:76-101 | the scan yields the ready task of the core with the least run time, the lowest slot on a tie, none exactly if none is ready |
| `Scheduler.NeverShared` | kernel/sched.c:103-144 | over any run no task is current on two cores |
| `Scheduler.TickPays` | kernel/isr.c:131-152 | every tick while another task runs lowers by one the sum over the other ready tasks of max(0, T - t + 1) |
| `Scheduler.Chosen` | kernel/sched.c:71-144 | bounded waiting: a ready task with run time T runs after at most that sum of ticks of its core, whatever the other cores do |
| `Scheduler.IdleTick` | kernel/isr.c:131-152 | any tick of an idle core, in user or kernel mode, puts it on the task get_next_proc chooses and charges nobody |
| `Scheduler.ChosenFromIdle` | kernel/sched.c:71-144 | bounded waiting from an idle core: whatever made tasks ready while it idled, its first tick schedules it, and a ready task runs within its debt in further ticks |
| `Scheduler.FairShares` | kernel/isr.c:131-152 | over a steady run the spread of run times never exceeds max(1, initial spread) |
| `Scheduler.Cpus.GetNextProc` | kernel/sched.c:76-101 | the loop over the slots of the core returns that task, said slot by slot in terms of the fields |
| `Scheduler.Cpus.ScheduleCore` | kernel/sched.c:103-144 | the core goes to the next task or the swapper; the other cores keep theirs |
| `Scheduler.Cpus.TimerTick` | kernel/isr.c:131-152 | exactly utime (user mode) or stime (kernel mode) of the running slot grows by one; a core in user mode or on the swapper goes to the next task by the new run times, a kernel-mode task stays; other slots and cores are unchanged |
| `TimerList.FireParts` | kernel/timer.c:113-119 | firing the first due timer removes it from the due ones and puts what it queues in front of the others |
| `TimerList.Persists` | kernel/timer.c:112-123 | a due timer that rearms itself for the same tick is still due after any number of firings |
| `TimerList.EndsIff` | kernel/timer.c:100-125 | the loop ends if and only if no due timer rearms itself for the tick being handled; then the list is the rearmed timers, latest first, before all others in their order |
| `TimerList.Queue.AddTimer` | kernel/timer.c:26-30 | pushes in front; the list stays acyclic exactly when the timer was not queued already |
| `TimerList.Queue.DelTimer` | kernel/timer.c:46-63 | removes exactly that timer, or changes nothing if it is not queued |
| `TimerList.Queue.ModTimer` | kernel/timer.c:79-84 | the timer ends up queued once, in front, with the new expiry |
| `TimerList.Queue.RunTimerSoftirq` | kernel/timer.c:100-125 | terminates although it restarts from the head after every callback; a timer fires if and only if it was queued for this tick, each once and in list order; afterwards exactly the others, with their old expiries, and the rearmed ones, with their new, are queued on an acyclic list |
| `BlockList.Insert` | include/list.h:87-95 | between two neighbours of a ring, the new node joins the ring there, forwards and backwards |
| `BlockList.Remove` | include/list.h:130-149 | the ring closes over the deleted entry, whose links are poisoned |
| `BlockList.PagesBlockList.constructor` | include/list.h:33-37 | an initialised head is an empty ring |
| `BlockList.PagesBlockList.IsEmpty` | include/list.h:76-79 | true exactly for the empty list |
| `BlockList.PagesBlockList.Add` | include/list.h:105-108 | puts the block in front |
| `BlockList.PagesBlockList.AddTail` | include/list.h:118-121 | puts the block at the end |
| `BlockList.PagesBlockList.ForEach` | include/list.h:47-50 | list_for_each_entry meets the entries in order, each once |
| `BlockList.PagesBlockList.DeleteRange` | kernel/isr.c:334-343 | deleting entries while walking with list_for_each_entry_safe leaves exactly the blocks outside the range, in order |

## Left out

- Locking inside the allocator: calls of kmalloc, kfree and of the page pool are atomic, so races of several CPUs on the unlocked page bitmap are not modelled.
- Null-pointer argument checks that only print a message. In lib/circular_buffer.c:21-29 the pointers are used before the check.
- Heap.MemPool.FreeMem: requires that a pointer whose header looks live is live, and that the header can be read. What merge_free_blk does to the pool after a forged header passed the check is not modelled.
- Heap.MemPool.AllocMem: sizes above 2^64 - 8 are excluded; of those only the wrapped rounding is described (HeapRuns.RoundsUpIff).
- HeapRuns.Reachable: runs of legal calls; a pointer outside the pool, unaligned, or with its header inside user bytes is not passed to kfree.
- PageTable.WalkVirtAddr: requires both upper table levels for the address, because the walk does not test for empty upper entries (mm/page_table.c:84-101).
- PageTable.UnmapOneUserPage: requires both upper table levels for the same reason (mm/page_table.c:121-134), and says nothing about memory once the kernel has stopped in the assert of free_pages.
- PageTable.AddSingleMap: frame addresses are page-aligned below 2^48, attributes leave bits 12 to 47 clear, virtual addresses lie in one 39-bit window; a pool that runs dry is reported as not ok, where the kernel hangs in its assert.
- Machine.PageMemory.FreePages: the partly cleared map behind a failed assert is not described; the kernel has stopped.
- Brk.SysBrk: before a shrink the heap area must exist, as the first call with address 0 in usr/unistd.c:54 sees to, and both upper table levels must be there for the pages to unmap; start_brk is page-aligned.
- Lives.Life: events outside that domain end the modelled run; other kinds of fault than translation faults are not modelled.
- Fork.SysFork: areas are disjoint, loaded areas start on a page boundary, and the frames copied from are not free pages; copying of the stack, registers, name and task slot is left out.
- Fork.ChildReads: says nothing of demand-paged areas, whose copies are not mapped; Families.InheritedUnread does for the heap.
- Processes.RunSystem: each fault and each system call is one step; a process that a fault kills may still be given other steps than its exit, so more runs are covered than the kernel has. Pages of loaded areas belong to what was in use before the first process. Stores of user programs into their own pages are not steps.
- The kmalloc'd records themselves: blocks dropped by sys_brk and exit_mm are not given back to the heap by the code, and conservation is claimed for page frames only. Success of kmalloc is an input of the calls that use it.
- AddressSpace.FindVma: areas form a list of values; the vm_next and vm_prev links of the area list are not modelled in memory.
- Brk.DeleteBlocks: works on the value of the list; BlockList.PagesBlockList.DeleteRange proves the same function of the contents for the links in memory.
- Mutex.MutualExclusion: pids 1 to 31, the usable bits; the scheduler's part is the SLEEPING state, and pid 0 never contends.
- Spinlock.SpinWord.LockRound: one round; that spinning ends is not claimed, since it depends on the other CPUs.
- Ring.RunSafe: sequential consistency, one writer and one reader at a time, as the two locks enforce.
- Scheduler.Chosen: run times are unbounded numbers, so the wrap of the 64-bit counters is not modelled; a context switch is a change of the current task.
- TimerList.Queue.RunTimerSoftirq: callbacks do nothing to the list but queue their own timer again, and the set of such timers with their expiries is an input; other CPUs changing the list while the lock is dropped, and timers whose tick was skipped, are left out.
- Hardware: TLB, caches, memory attributes and the weak memory model.
- read_stdin and its wake-ups, the other system calls, boot, device drivers, formatting and the user programs.
