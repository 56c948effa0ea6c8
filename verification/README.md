# Verified model of an xv6 kernel with copy-on-write fork and MLFQ scheduling

This project models the parts of the kernel and its user library whose correctness spans
whole runs, and proves what they promise. `dafny verify dfyconfig.toml` verifies every file.

The model keeps the form of the code: a kernel object is a class with its fields, a loop is a
loop, an in-place list is a list of links. What a method computes is tied to functions on
values, and the theorems are about these functions and about the invariants that every method
keeps. Calls of `panic` are preconditions or results, so each proof also says when a panic can
be reached.

| area | files |
|---|---|
| write-ahead log, crashes and recovery | `LogFormat`, `CrashAtomicity`, `Reservation`, `WriteAheadLog` |
| buffer cache | `BufferCache` |
| page allocator and copy-on-write memory | `PageAllocator`, `CowModel`, `CowFork`, `CowSystem` |
| Sv39 page tables | `TableTree`, `PageTable`, `PageTableOps` |
| copy-on-write memory on the words of page tables | `VmWords`, `Vm` |
| files: bitmap, inodes, indirect blocks, what is logged | `FileModel`, `FileLog`, `FileOps`, `FileLimit` |
| files across crashes, over the log and the cache | `FileCrash`, `FileTransaction` |
| user-level malloc and free | `FreeList`, `Umalloc` |
| virtio disk queue | `Virtio` |
| sleep, wakeup and sleep locks | `SleepLock` |
| pipes | `Pipe` |
| MLFQ scheduler | `MlfqQueues`, `MlfqRings`, `Mlfq`, `MlfqRuns`, `MlfqFailures`, `MlfqQuiet` |
| shell parser | `ShellParser`, `ShellOps`, `ShellGrammar`, `ShellRoundTrip` |
| regular expressions of grep | `Regex` |
| shared types and counting | `Types`, `Counting` |

## Main results

- **Crash atomicity** (`CrashAtomicity.CrashAtomic`, `RunsAreAtomic`). A crash may fall after
  any block write of a commit, and further crashes after any write of any recovery. Completed
  recovery leaves every home block old or every home block new, decided by the header write
  alone. The methods of `WriteAheadLog` perform exactly the writes these theorems are about,
  through the buffer cache, and a commit completes exactly if the cache has buffers for the
  header and the log blocks (`Log.EndOp`).
- **Files survive crashes** (`FileCrash.ChunkIsAtomic`, `WriteSurvives`,
  `FileTransaction.LoggedWrite`, `PowerCut`). A transaction of filewrite logs every block it
  changes (`FileOps.FileSystem.WriteChunk`). Over the log and the cache these blocks make up the
  transaction that end_op commits, so whatever block write the power fails after, the recovered
  disk has a file system in which the file holds its old bytes with a first part of the new ones
  written over them. The cache runs out of buffers exactly if a transaction does not fit it,
  and never if eleven buffers are idle.
- **Reservation** (`Reservation.RunWithin`, `NoPanicIff`). Over every run the logged blocks and
  the unused budgets fit the log, and the "too big a transaction" panic is unreachable for an
  operation within its budget exactly when the log has LOGSIZE data blocks.
- **The chunk bound is tight** (`FileOps.ChunkLogs`, `FileLimit.FullTransaction`). What a chunk
  of filewrite logs is known exactly, is at most ten blocks for every offset and layout, and is
  ten blocks on a disk that is given.
- **Cache transparency** (`BufferCache.Bcache`). The list stays a circular permutation of all
  buffers, keys stay unique, pinned and referenced buffers are never recycled, and eviction
  never changes what a later read returns.
- **Copy-on-write refines private memory** (`CowSystem.RunRefines`), **each operation is carried
  out exactly when its condition holds** (`AcceptsIff`, `CopyOutIff`), and **counts are exact
  exactly when no fork ran out of table pages** (`RunExactIff`). Page tables take their pages
  from the same free list. What a process may read is part of it (`RunReads`): after a fork the
  child reads what the parent read (`ForkReads`), and new memory reads as zero (`GrowReads`).
- **The same holds of the words in memory** (`VmWords.Coupled`, `Vm.Machine`). The
  modelled operations of vm.c, cowfault and stores by the hardware read and write words of Sv39
  tables, and do to the entries these words stand for exactly what the refinement theorem is
  about.
- **Page tables are trees that stand for a flat map** (`PageTableOps.Tables`): walking,
  mapping, unmapping and freeing, with every table page freed exactly once.
- **Files are byte sequences** (`FileOps.FileSystem`): reads, writes and truncation, with block
  ownership.
- **malloc and free** (`Umalloc.Allocator`): every unit of memory belongs to exactly one block,
  the free list is circular, ordered and fully coalesced, both searches terminate, and malloc
  fails exactly when it has to.
- **Virtio ring** (`Virtio.Disk`): chains are disjoint, ring slots are never overwritten early,
  each request is completed and finished once, across 16-bit wrap-around, and moves exactly the
  block that was asked for.
- **No lost wakeup** and mutual exclusion of sleep locks (`SleepLock.NoLostWakeup`,
  `MutualExclusion`, `SleeperIsServed`) for any number of processes and every interleaving.
- **MLFQ** (`Mlfq.Scheduler`, `MlfqRuns.SafeIff`): each process is queued at most once and at its
  own level, no ring overfills, aging moves each entry at most one level, and dispatch takes the
  first RUNNABLE process of the lowest level that has one; the order in which processes join
  the queues is determined. With timer interrupts between any two loads and stores of the
  scheduler this holds over a run exactly if no step of the run is harmful, and without them the
  loads and stores do exactly what the dispatch does (`MlfqQuiet.Undisturbed`).
- **Shell parser** (`ShellRoundTrip.AcceptsIff`): the parser returns a command exactly for the
  texts that the grammar has for it, with redirections anywhere in a command and any white
  space; it terminates on every input, and parsing inverts printing (`PrintReads`).
- **Regular expressions** (`Regex.Match`): the matcher decides the language of the pattern.
- **Pipes** (`Pipe.Ring`): bytes come out in the order they went in, across 32-bit wrap-around.

## Where the code and its promises differ

The model follows the code. These are the points where a promise holds only under a condition:

- `log_write` tests the size of the log before it looks for the block in the log, so logging a
  block that is already there panics exactly when the log is full (`Reservation.RelogPanicIff`),
  and a run gets there (`FullLogPanics`). With a log of LOGSIZE blocks including its header, as
  mkfs makes it, an operation within its budget can meet this panic (`NoPanicIff`).
- `uvmcopy` counts a page before it maps it, so a fork that runs out of pages for the tables of
  the child leaves one count too high: exactly if the missing tables are more than the free
  pages (`CowFork.UvmCopyExactIff`). With three or four free pages every fork is of this kind
  (`CowSystem.FewPagesLeak`), and `CowSystem.SmallLeaks` is such a machine.
- `cowfault` refuses address 0, so `copyout` to page 0 always fails
  (`CowSystem.PageZeroRefused`), and it grants all permissions: contents are preserved,
  permissions are not (`CowFork.CowFaultOk`, `StoreOk`).
- `uvmcopy` marks every page as copy-on-write, those that the parent could not write as well,
  so after a fork both processes can store to them (`CowSystem.ForkStores`).
- `morecore` passes its size to `sbrk` as an int; requests above 2^31 - 32 bytes do not get the
  memory the header claims (`Umalloc.RequestIff`, `Umalloc.Allocator.Malloc`).
- `virtio_disk_rw` computes the sector in 32 bits, which is right exactly for block numbers
  below 2^31 (`Virtio.PlaceIff`).
- `freeproc` clears `qued_fl` but leaves the queue entry; this is sound exactly when the process
  is in no queue (`MlfqQueues.ReapIff`). A process that exits and is reaped before the scheduler
  drops it (`Mlfq.ReapQueued`) and a fork that fails (`MlfqFailures.ForkFails`) break the queues.
- The queues have no lock and the scheduler runs with interrupts on. A timer interrupt between
  `que_front` and the lock moves a process twice (`MlfqFailures.TwoLevelsUp`), and one between
  the load and the store of the size in `que_pop` loses an entry for good
  (`MlfqFailures.LostEntry`). The queues stay consistent over a run exactly if no step of it
  is of one of the harmful kinds (`MlfqRuns.Harmful`, `SafeIff`), whether or not the compiler
  lets `que_pop` load the head and the size a second time.
- `mappages` keeps the pages it mapped before it ran out of memory
  (`PageTableOps.Tables.MapPages`).
- `piperead` loses one byte exactly if it meets a fault before it has delivered what was asked
  for and is there (`Pipe.Ring.Read`, `Pipe.LostByte`).

## Model

| member | source | states |
|---|---|---|
| `LogFormat.ApplyFrame` | kernel/log.c:68-83 | a block that none of the writes names keeps its contents |
| `LogFormat.ApplyHit` | kernel/log.c:68-83 | a block that is written last by one write of the plan holds what that write stores |
| `LogFormat.ApplyShift` | kernel/log.c:193-203 | writing one plan and then another is writing the plan that is both |
| `CrashAtomicity.HeadRoundTrip` | kernel/log.c:86-114 | what write_head puts into the header block read_head gets out of it |
| `CrashAtomicity.InstallAt` | kernel/log.c:68-83 | after install_trans each logged home block holds its logged contents and every other block what it held |
| `CrashAtomicity.InstallAbsorbs` | kernel/log.c:68-83 | installing again over a partly installed disk gives the fully installed disk |
| `CrashAtomicity.RecoveryCut` | kernel/log.c:116-123 | recovery cut off after any number of its writes and run again gives what one uninterrupted recovery gives |
| `CrashAtomicity.CutBeforeHeader` | kernel/log.c:178-203 | a commit cut off before its header write leaves every home block as it was, after recovery |
| `CrashAtomicity.CutAfterHeader` | kernel/log.c:193-203 | a commit cut off after its header write has all its blocks installed, after recovery |
| `CrashAtomicity.CommitCut` | kernel/log.c:193-203 | both cases for a cut after any single block write of a commit |
| `CrashAtomicity.RecoveriesKeepHome` | kernel/log.c:116-123 | any number of further crashes inside recovery do not change what completed recovery leaves in home blocks |
| `CrashAtomicity.CrashAtomic` | kernel/log.c:116-203 | crash atomicity: cut after any write of the commit, then any number of cut recoveries, then recovery: every home block has its old contents if the header write had not happened and its new contents if it had |
| `CrashAtomicity.CommitDone` | kernel/log.c:193-203 | an uninterrupted commit leaves exactly the new contents in home blocks and an empty log |
| `CrashAtomicity.AttemptIsAtomic` | kernel/log.c:116-203 | one transaction, completed or crashed and recovered, is applied as a whole or not at all |
| `CrashAtomicity.RunsAreAtomic` | kernel/log.c:116-203 | over every sequence of completed and crashed transactions the home blocks are those of the committed transactions applied one after the other |
| `Reservation.StepWithin` | kernel/log.c:126-235 | each begin, write and end step keeps logged blocks plus unused budgets within LOGSIZE |
| `Reservation.RunWithin` | kernel/log.c:126-235 | the reservation invariant holds after every run of steps |
| `Reservation.NoPanicIff` | kernel/log.c:214-235 | an operation within its budget can always log a block in every reachable state if and only if the log has LOGSIZE data blocks |
| `Reservation.RelogPanicIff` | kernel/log.c:220-233 | in every reachable state, logging a block that is already logged panics if and only if the log is full, and then every budget is used up |
| `Reservation.FullLogPanics` | kernel/log.c:220-233 | a run within the budgets that fills the log with block 0 among the logged blocks, after which no operation can log block 0 again |
| `WriteAheadLog.LogOne` | kernel/log.c:178-191 | one round of write_log copies the cached home block into the log block; it panics if and only if the log block is not cached and no buffer is idle |
| `WriteAheadLog.WriteLog` | kernel/log.c:178-191 | write_log performs exactly the log writes of the commit plan, in order; it gets through if and only if bread finds a buffer for each log block, and else stops at the first for which it does not |
| `WriteAheadLog.PutWords` | kernel/log.c:102-114 | the loop of write_head builds the header block |
| `WriteAheadLog.WriteHead` | kernel/log.c:102-114 | write_head stores the list of blocks in one write and keeps the rest of the block |
| `WriteAheadLog.InstallOne` | kernel/log.c:68-83 | one round of install_trans writes the logged block home, and unpins it outside recovery |
| `WriteAheadLog.InstallTrans` | kernel/log.c:68-83 | install_trans performs exactly the install writes, in order, and leaves nothing pinned |
| `WriteAheadLog.InstallAndErase` | kernel/log.c:116-123 | installing and erasing the log is the plan of recovery |
| `WriteAheadLog.CommitWrites` | kernel/log.c:193-203 | commit performs exactly the writes of the commit plan, in order, and completes if and only if bread finds buffers for the header and the log blocks; if not, it stops at the first of these without one |
| `WriteAheadLog.CommitInvisible` | kernel/log.c:193-203 | a commit never changes what a reader of a home block sees through the cache |
| `WriteAheadLog.Log.constructor` | kernel/log.c:54-65 | initlog recovers: afterwards the disk is the recovered disk and the log is empty |
| `WriteAheadLog.Log.ReadHead` | kernel/log.c:86-97 | read_head gets the block numbers on disk |
| `WriteAheadLog.Log.RecoverFromLog` | kernel/log.c:116-123 | recover_from_log performs exactly the writes of recovery |
| `WriteAheadLog.Log.BeginOp` | kernel/log.c:126-142 | begin_op admits an operation if and only if no commit is under way and its whole budget fits, and then reserves it |
| `WriteAheadLog.Log.LogWrite` | kernel/log.c:214-235 | log_write adds the block, pinned, or absorbs it; it keeps logged blocks distinct and pinned and never exceeds the reservation |
| `WriteAheadLog.Log.EndOp` | kernel/log.c:146-175 | end_op commits exactly when no other operation is outstanding; only then must no logged buffer be held; the commit completes if and only if bread finds buffers for the header and the log blocks, and the new contents are then on disk; else it stops in the commit plan at the first block without a buffer |
| `WriteAheadLog.Log.Commit` | kernel/log.c:193-203 | commit writes the pending transaction by the commit plan and empties the log, if and only if bread finds buffers for the header and the log blocks |
| `BufferCache.UnlinkKeepsLinks` | kernel/bio.c:128-129 | taking a buffer out of the list leaves a correctly linked list of the others |
| `BufferCache.PushKeepsLinks` | kernel/bio.c:130-133 | putting a buffer at the head leaves a correctly linked list |
| `BufferCache.ListHasAll` | kernel/bio.c:58-89 | the list is a permutation of all buffers |
| `BufferCache.GotRefTransparent` | kernel/bio.c:58-89 | taking a reference, recycling an unused buffer if need be, changes nothing that a reader sees and keeps keys unique |
| `BufferCache.BreadTransparent` | kernel/bio.c:92-103 | reading a block in changes nothing that a reader sees |
| `BufferCache.ServesIs` | kernel/bio.c:58-89 | bget has a buffer for a block if and only if the block is cached or some buffer has no reference |
| `BufferCache.TookOne` | kernel/bio.c:58-89 | a reference taken makes the block busy and no other, and uses up one idle buffer exactly if the block was not busy |
| `BufferCache.WriteThrough` | kernel/bio.c:106-112 | writing a buffer to disk changes nothing that a reader sees |
| `BufferCache.Bcache.constructor` | kernel/bio.c:36-53 | binit links all buffers, the last one first, and shows the disk |
| `BufferCache.Bcache.Bget` | kernel/bio.c:58-89 | bget gives the cached buffer of the block, or recycles the least recently used one with no reference; it panics exactly when there is neither |
| `BufferCache.Bcache.Bread` | kernel/bio.c:92-103 | bread gives a locked buffer with the current contents of the block, if and only if bget has a buffer for it; otherwise it panics and nothing changes |
| `BufferCache.Bcache.Bwrite` | kernel/bio.c:106-112 | bwrite is one disk write of the buffer |
| `BufferCache.Bcache.Brelse` | kernel/bio.c:116-137 | brelse drops the reference and moves a buffer with none left to the head of the list |
| `BufferCache.Bcache.MoveToFront` | kernel/bio.c:128-133 | the buffer moves to the head of the list and the others keep their order |
| `BufferCache.Bcache.Bpin` | kernel/bio.c:139-144 | bpin adds a reference that keeps the buffer in the cache |
| `BufferCache.Bcache.Bunpin` | kernel/bio.c:146-151 | bunpin removes one such reference |
| `PageAllocator.PushChain` | kernel/kalloc.c:66-71 | linking a page in front gives the list with that page first |
| `PageAllocator.PopChain` | kernel/kalloc.c:83-94 | unlinking the first page leaves the list of the others |
| `PageAllocator.Kmem.constructor` | kernel/kalloc.c:37-49 | freerange: every page is on the list once, with count 0, the last one first |
| `PageAllocator.Kmem.Kalloc` | kernel/kalloc.c:77-100 | kalloc takes the first page of the list and sets its count to 1; it fails exactly when the list is empty |
| `PageAllocator.Kmem.Kfree` | kernel/kalloc.c:116-138 | kfree takes one off the count and puts the page on the list exactly when none is left |
| `PageAllocator.Kmem.IncreaseNumRef` | kernel/kalloc.c:102-114 | the count of a page in use goes up by one and nothing else changes |
| `CowModel.KallocFresh` | kernel/kalloc.c:77-100 | kalloc never returns a page that is mapped or that the kernel keeps |
| `CowModel.KallocOk` | kernel/kalloc.c:77-100 | allocation keeps the pages consistent, with one spare count for the new page |
| `CowModel.KfreeOk` | kernel/kalloc.c:116-138 | giving back a spare count keeps the pages consistent |
| `CowModel.MappedIsCounted` | kernel/kalloc.c:37-138 | a mapped page has a positive count, and count 1 means a single mapping |
| `CowFork.PrivatizeOk` | kernel/trap.c:323-336 | the page copy of cowfault gives the process its own page with the same contents, and nobody sees a difference |
| `CowFork.CowFaultOk` | kernel/trap.c:300-339 | cowfault changes no contents; it succeeds if and only if the address is not 0 and below MAXVA, the page is a user page, and a page is free if it is copy-on-write; a copy-on-write page is then private, with all permissions, and any other as it was; on failure nothing changes |
| `CowFork.StoreOk` | kernel/trap.c:300-339 | a user store happens in the memory of the storing process alone, and is refused in exactly the listed cases |
| `CowFork.ShareOk` | kernel/vm.c:318-345 | mapping a counted page into the child shares it with correct counts and shows the child a copy |
| `CowFork.UnmapOneOk` | kernel/vm.c:171-195 | one round of uvmunmap removes one mapping and its count |
| `CowFork.UnmapShows` | kernel/vm.c:171-195 | uvmunmap removes exactly the named pages from what the processes see |
| `CowFork.WalkOk` | kernel/vm.c:86-104 | walk with alloc takes the tables missing on its path from the free list, and succeeds if and only if there are enough |
| `CowFork.FreeTablesOk` | kernel/vm.c:275-302 | freeing the page table gives back every table page of the process and of no other; contents and counts stay |
| `CowFork.UvmCopyShows` | kernel/vm.c:310-346 | after uvmcopy the child sees private copies of all pages; its entries name the pages of the parent and allow the same but for writing, and both are read-only and copy-on-write; after a failure nothing is left of them |
| `CowFork.UvmCopySupplied` | kernel/vm.c:310-346 | uvmcopy succeeds if and only if the free pages suffice for the tables missing on the paths of the pages; on success exactly these are taken |
| `CowFork.UvmCopyCounts` | kernel/vm.c:318-345 | a copy that succeeds leaves every count accounted for; one that fails leaves the count of one page of the parent one too high |
| `CowFork.UvmCopyExactIff` | kernel/vm.c:318-345 | counts stay exact if and only if the tables missing on the paths of the child number at most the free pages |
| `CowFork.UvmAllocShows` | kernel/vm.c:228-253 | growth adds readable user pages, writable and executable as asked for, whose bytes are all 0, or none at all |
| `CowFork.UvmAllocIff` | kernel/vm.c:228-253 | growth succeeds if and only if there are free pages for the new pages and for the missing tables |
| `CowSystem.CopyOutRoundOk` | kernel/vm.c:364-395 | one round of copyout keeps the pages consistent and user pages user pages |
| `CowSystem.CopyOutShows` | kernel/vm.c:364-395 | copyout stores a first part of the bytes in the memory of the process and changes nothing else that any process sees |
| `CowSystem.CopyOutIff` | kernel/vm.c:364-395 | copyout stores all bytes if and only if every page of the range is a user page below MAXVA, page 0 is not among them, and the free pages suffice for private copies of its copy-on-write pages, where a page in its last use gives one back |
| `CowSystem.PageZeroRefused` | kernel/trap.c:304-306 | copyout to page 0 fails at once and changes nothing |
| `CowSystem.CopyInIff` | kernel/vm.c:400-420 | copyin succeeds if and only if every page of the range is a user page |
| `CowSystem.CopyRoundTrip` | kernel/vm.c:364-420 | copyin after a complete copyout returns the bytes |
| `CowSystem.NewTablesOk` | kernel/proc.c:241-271 | proc_pagetable takes the three tables of the top pages, and gives back what it took if it fails |
| `CowSystem.ForkSupplied` | kernel/proc.c:344-360 | fork has memory if and only if there are free pages for all tables of the child; a fork that fails leaves no table |
| `CowSystem.ForkShows` | kernel/proc.c:344-360 | after fork the child sees private copies, with entries that allow what those of the parent allow but for writing, or nothing has changed for anybody but that pages of the parent may have become copy-on-write |
| `CowSystem.ForkReads` | kernel/proc.c:344-360 | after fork a read by the child, of any range, gives what it gave the parent before, failures included, and every other process reads what it read |
| `CowSystem.ForkStores` | kernel/vm.c:318-345 | after fork a store by parent or child succeeds if and only if the page is a user page of the parent, the address is not 0, and a page is free for the copy, whether the parent could write it or not |
| `CowSystem.GrowReads` | kernel/vm.c:228-253 | after growth every range inside the new pages reads as zero bytes |
| `CowSystem.ReadsRefine` | kernel/vm.c:400-420 | copyin gives what it gives in a system with private copies, and fails exactly if it fails there |
| `CowSystem.RunReads` | kernel/vm.c:228-420 | over every run, whatever a process reads is what it reads in a system where every process has its own pages |
| `CowSystem.CopyOutStops` | kernel/vm.c:364-395 | a copyout that does not store all bytes has stored those of all pages before the first one that it cannot store to, and none of that page |
| `CowSystem.ForkCounts` | kernel/proc.c:344-360 | a fork leaves a count too high if and only if the top tables fit the free pages and the tables for its pages do not |
| `CowSystem.FewPagesLeak` | kernel/vm.c:318-345 | with three or four free pages every fork of a process that has memory leaves a count too high |
| `CowSystem.AcceptsIff` | kernel/vm.c:228-395 | each operation is carried out in full if and only if the listed condition on the state before it holds |
| `CowSystem.StepRefines` | kernel/vm.c:228-395 | each fork, store, kernel store, growth, shrinkage, exit and kernel allocation does to what the processes see what it does in a system with private copies, or is refused as it reports |
| `CowSystem.RunRefines` | kernel/vm.c:228-395 | over every run, each process sees exactly the memory of a system where every process has its own pages |
| `CowSystem.KallocSafe` | kernel/kalloc.c:77-100 | in every reachable state what kalloc returns is mapped by nobody, kept by nobody and not a page table |
| `CowSystem.StepCounts` | kernel/vm.c:228-395 | only a fork that runs out of table pages changes what is unaccounted for, by one count of one page |
| `CowSystem.RunExactIff` | kernel/vm.c:310-346 | after every run each count equals the number of mappings and kernel uses if and only if no fork of the run ran out of pages after its top tables |
| `CowSystem.SmallLeaks` | kernel/vm.c:318-345 | a machine of nine pages in order, with one process of one page and three free pages, whose fork leaves a count too high |
| `CowFork.FreeNext` | kernel/vm.c:275-292 | a round of freewalk, with the subtree of its entry freed or with none to free, leads to the freed table |
| `VmWords.WordIs` | kernel/vm.c:86-127 | the level-0 table of a page with an entry is there, and its word for the page is the entry that the maps hold |
| `VmWords.HardwareFinds` | kernel/vm.c:86-127 | the three loads of the paging hardware find the word of the user entry, or of the entry for the trampoline or the trapframe, or zero |
| `VmWords.WordPut` | kernel/vm.c:154-162 | storing the word of one page keeps the words standing for the maps with that one entry changed |
| `VmWords.WordTable` | kernel/vm.c:94-101 | a new table in a free page, and the pointer to it, leave all words standing for the same entries |
| `VmWords.WordRoot` | kernel/vm.c:199-208 | a new root in a free page leaves all words standing for the same entries |
| `VmWords.WordsGone` | kernel/vm.c:275-302 | with the tree of a process without entries gone, the words stand for the entries of the others |
| `VmWords.NothingLeft` | kernel/vm.c:275-302 | no entry of a process in the maps means no leaf in its tables |
| `Vm.Frames.constructor` | kernel/kalloc.c:37-49 | after kinit every page is free and filled with junk |
| `Vm.Frames.FreePage` | kernel/kalloc.c:116-138 | kfree, with its junk fill, computes the modelled kfree on the linked list |
| `Vm.Frames.AllocPage` | kernel/kalloc.c:77-100 | kalloc, with its junk fill, computes the modelled kalloc on the linked list |
| `Vm.Frames.NewPage` | kernel/vm.c:201-207 | kalloc and memset compute the modelled zeroed page, whose 4096 bytes are all 0 |
| `Vm.Machine.constructor` | kernel/kalloc.c:37-49 | after kinit all counts are exact, no process has memory and there are no tables |
| `Vm.Machine.Find` | kernel/vm.c:86-104 | walk without alloc finds the level-0 table in memory if and only if it is there |
| `Vm.Machine.WalkAddr` | kernel/vm.c:109-127 | walkaddr finds the page of the user entry, or fails exactly if there is no user entry below MAXVA |
| `Vm.Machine.CopyWord` | kernel/trap.c:323-336 | the page copy of cowfault and the store of the new word compute the modelled private copy, or fail if no page is free |
| `Vm.Machine.CowFault` | kernel/trap.c:300-339 | cowfault on the words of the page table computes the modelled fault handler |
| `Vm.Machine.TryStore` | kernel/vm.c:86-127 | a store of the hardware through the words it finds writes one byte of the page of the entry, or faults exactly if the entry is not a writable user entry |
| `Vm.Machine.Store` | kernel/trap.c:300-339 | a store, tried again after cowfault, computes the modelled store, which the refinement is about |
| `Vm.Machine.UnmapPage` | kernel/vm.c:179-194 | a round of uvmunmap finds the word of the page, frees the page and clears the word |
| `Vm.Machine.UvmUnmap` | kernel/vm.c:171-195 | the loop of uvmunmap on words computes the modelled unmapping |
| `Vm.Machine.UvmCreate` | kernel/vm.c:199-208 | uvmcreate makes the root of an empty tree from a free page |
| `Vm.Machine.Down` | kernel/vm.c:94-101 | one level of walk follows the pointer or makes the table and the pointer to it; it computes the modelled level |
| `Vm.Machine.Walk` | kernel/vm.c:86-104 | the loop of walk on words, allocating tables from the free list, computes the modelled walk |
| `Vm.Machine.MarkWord` | kernel/vm.c:319-329 | the word of the parent becomes read-only and copy-on-write and the page is counted once more |
| `Vm.Machine.MapWord` | kernel/vm.c:154-162 | mappages of one page finds the word unused and stores it, or has no page for a table |
| `Vm.Machine.UvmCopy` | kernel/vm.c:310-346 | the loop of uvmcopy on words, with its calls of walk and its failure path, computes the modelled copy, whose entries and contents UvmCopyShows states |
| `Vm.Machine.UvmAlloc` | kernel/vm.c:228-253 | the loop of uvmalloc on words, with its calls of walk and both failure paths, computes the modelled growth, whose entries and contents UvmAllocShows states |
| `Vm.Machine.FreeWalk` | kernel/vm.c:275-292 | the recursion of freewalk on words computes the modelled freeing of a subtree of tables, and leaves a tree but for the pointer to it |
| `Vm.Machine.FreeSlot` | kernel/vm.c:279-289 | a round of freewalk frees what the word points to and clears it; the leaf panic is unreachable |
| `Vm.Machine.UvmFree` | kernel/vm.c:296-302 | uvmfree unmaps the pages and frees all tables of the process |
| `Vm.Machine.NewTables` | kernel/proc.c:241-271 | proc_pagetable stores the words for the trampoline and the trapframe and computes the modelled tables of a new process; its second mappages cannot fail |
| `Vm.Machine.FreePagetable` | kernel/proc.c:274-280 | proc_freepagetable clears both words, unmaps the pages and frees all tables of the process |
| `Vm.Machine.Fork` | kernel/proc.c:344-360 | fork, as far as memory is concerned, computes the modelled fork on words, which ForkShows, ForkReads and ForkStores are about |
| `Vm.Machine.CopyOut` | kernel/vm.c:364-395 | the loop of copyout computes the modelled copy and reports success exactly when all bytes are stored |
| `Vm.Machine.CopyIn` | kernel/vm.c:400-420 | the loop of copyin fetches the bytes, or fails at the first page that is not a user page |
| `TableTree.PathDown` | kernel/vm.c:86-104 | one more level of a path has one more missing table exactly if the table of that level is missing |
| `TableTree.PxSplit` | kernel/riscv.h:354-358 | the three indices of a page are its number in base 512 |
| `TableTree.MissingNext` | kernel/vm.c:143-166 | the tables missing for a range of pages are those missing for the first page and those then missing for the rest |
| `PageTable.LookupIs` | kernel/vm.c:86-127 | the three loads of the paging hardware find what the flat map says |
| `PageTable.WithTableOk` | kernel/vm.c:94-101 | a table allocated by walk keeps the tables a tree and changes no translation |
| `PageTable.WithRootOk` | kernel/vm.c:199-208 | a zeroed page for a new root keeps the tables trees and changes no translation |
| `PageTable.WithEntryOk` | kernel/vm.c:154-162 | writing an entry at level 0 changes the translation of one page of one process |
| `PageTableOps.Tables.UvmCreate` | kernel/vm.c:199-208 | a new empty tree; it fails exactly when no page is free |
| `PageTableOps.Tables.Down` | kernel/vm.c:94-101 | one level of walk gives the table below, allocated if asked for; it fails if and only if the table is missing and may not or cannot be allocated; no translation changes |
| `PageTableOps.Tables.Walk` | kernel/vm.c:86-104 | walk finds or makes the level-0 table; with alloc it succeeds if and only if the free pages suffice for the tables missing on the path; no translation changes and no page is lost |
| `PageTableOps.Tables.MapPages` | kernel/vm.c:143-166 | mappages maps a first part of the requested pages and nothing else; it maps all of them if and only if the free pages suffice for the tables missing on their paths, and else as many as they suffice for |
| `PageTableOps.Tables.UvmUnmap` | kernel/vm.c:171-195 | without do_free: the named pages lose their translation and nothing else changes |
| `PageTableOps.Tables.FreeWalk` | kernel/vm.c:275-292 | freewalk frees every table of the subtree exactly once and nothing else, and never meets a leaf |
| `PageTableOps.Tables.FreeSlot` | kernel/vm.c:279-289 | one round of freewalk frees the subtree below one entry and clears the entry; the leaf panic is unreachable |
| `PageTableOps.Tables.UvmFree` | kernel/vm.c:296-302 | after uvmfree no table of the process is left, all its table pages are free, and other processes keep their translations |
| `PageTableOps.ClearSlotOk` | kernel/vm.c:281-285 | clearing the pointer to a freed table restores the tree |
| `PageTableOps.FreeTableOk` | kernel/vm.c:290-290 | freeing a table with none below it keeps the tree, but for the pointer to it, and loses no page |
| `TableTree.BelowIn` | kernel/vm.c:275-292 | all tables above a table are in the tree |
| `TableTree.WholeTree` | kernel/vm.c:296-302 | the tables below a root are all tables of its process |
| `FileModel.WordOfPut` | kernel/fs.c:407-414 | the words of an indirect block are independent of each other |
| `FileModel.NoSharing` | kernel/fs.c:382-453 | two places that hold block addresses never hold the same block; every block held is in range and marked in the bitmap |
| `FileModel.GiveDirectOk` | kernel/fs.c:388-406 | giving a free block to a direct slot, or taking it for the indirect block, keeps ownership and changes one block of one file |
| `FileModel.GiveWordOk` | kernel/fs.c:407-416 | giving a free block to a word of the indirect block keeps ownership and changes one block of one file |
| `FileModel.FillOk` | kernel/fs.c:516-531 | writing into a data block of a file changes that block of that file alone |
| `FileModel.ReleaseOk` | kernel/fs.c:425-453 | giving back a range of slots keeps ownership |
| `FileOps.FileSystem.constructor` | mkfs/mkfs.c:93-111 | the file system that mkfs begins with: the metadata blocks are marked and all files are empty |
| `FileOps.FileSystem.Balloc` | kernel/fs.c:65-88 | balloc marks and zeroes the first free block and logs both blocks; 0 if and only if no block is free |
| `FileOps.FileSystem.Bfree` | kernel/fs.c:91-105 | bfree clears the bit of a block in use |
| `FileOps.FileSystem.Bmap` | kernel/fs.c:382-421 | bmap gives the address of a file block, zeroed if it is new; 0 only when the disk is full; no other block of any file changes; it logs exactly the new blocks, their bits and the indirect block if a word of it changed, and so everything it changed |
| `FileOps.FileSystem.WriteRound` | kernel/fs.c:516-531 | one round of writei splices the bytes into the file and logs exactly the block written and what bmap logs |
| `FileOps.FileSystem.Writei` | kernel/fs.c:505-539 | writei turns the contents into the contents with the first bytes of the source spliced in at the offset, all of them unless the disk is full; -1 exactly for a bad offset or size; the on-disk inode is up to date; exactly which blocks are logged, and that every changed block is |
| `FileOps.FileSystem.Readi` | kernel/fs.c:471-496 | readi returns the matching slice and changes nothing |
| `FileOps.FileSystem.Itrunc` | kernel/fs.c:425-453 | itrunc empties the file and clears exactly the bits of its blocks; it never frees a free block, and logs every block it changes |
| `FileOps.FileSystem.ClearDirect` | kernel/fs.c:432-437 | exactly the bits of the direct blocks of the file are cleared, and its direct addresses |
| `FileOps.FileSystem.ClearIndirect` | kernel/fs.c:439-449 | exactly the bits of the indirect block and the blocks it lists are cleared, and its address |
| `FileOps.SpliceBlock` | kernel/fs.c:516-531 | writing part of one block splices the file, across block boundaries |
| `FileLog.LogTwice` | kernel/fs.c:382-421 | what two allocations log one after the other is what they log together |
| `FileLog.LogBound` | kernel/fs.c:505-539 | a write logs at most two blocks for each file block it comes to, less one if it begins inside a block, and two for the indirect block |
| `FileOps.ChunkLogs` | kernel/file.c:149-160 | what a chunk of filewrite logs, with its inode, is at most MAXOPBLOCKS blocks, for every offset, bitmap and layout |
| `FileOps.FileSystem.WriteChunk` | kernel/file.c:162-167 | one transaction of filewrite: -1 exactly for an offset beyond the file or a size beyond the largest file, and less than asked for only where the disk is full; exactly which blocks it logs; that these are at most MAXOPBLOCKS, are no other blocks than those of files, bitmap and inodes, and include every block that changed |
| `FileOps.FileSystem.FileWrite` | kernel/file.c:149-175 | filewrite splices a first part of the bytes at the file offset, advances it by as much, and returns the length or -1; it stops short only at the chunk that writei refuses or where the disk is full; between its transactions the file holds a first part of what is written |
| `FileLimit.FullTransaction` | kernel/file.c:149-160 | on a valid disk whose four free blocks have their bits in four bitmap blocks, an unaligned chunk of 3072 bytes at file block 11 logs exactly MAXOPBLOCKS blocks: the bound is reached |
| `FileCrash.Readable` | kernel/fs.c:226-241 | the blocks of the disk determine data, bitmap and inodes of the file system on it |
| `FileCrash.EncodedSame` | kernel/fs.c:226-241 | a block that a transaction does not log holds the same for the new file system as for the old one |
| `FileCrash.Installed` | kernel/log.c:68-83 | once the transaction of a chunk is installed, the disk has the new file system |
| `FileCrash.ChunkIsAtomic` | kernel/file.c:162-167 | a chunk of filewrite is atomic: after a crash at any block write and any crashed recoveries the disk has the file system before the chunk or after it |
| `FileCrash.WriteSurvives` | kernel/file.c:149-175 | a filewrite cut off by a crash in any transaction leaves, after recovery, a file system in which the file holds what it held with a first part of the bytes written |
| `FileCrash.WriteThroughCrashes` | kernel/file.c:149-175 | the same for the method: for every run of its transactions, the file survives with a first part of the bytes written |
| `FileTransaction.Update` | kernel/fs.c:226-241 | a block that changes is read through the cache, gets its new contents and is logged and pinned; nothing is written to the disk; bread panics if and only if the block is not cached and no buffer is idle |
| `FileTransaction.PutAndLog` | kernel/log.c:214-235 | the new contents go into the locked buffer, which log_write adds to the log and pins and brelse releases |
| `FileTransaction.StoreAll` | kernel/log.c:214-235 | after one log_write for each block that a chunk changes, the pending blocks are exactly these, pinned, and a reader sees their new contents; this succeeds if and only if the blocks that nobody has in use are at most as many as the idle buffers |
| `FileTransaction.PendingCommits` | kernel/log.c:178-191 | what the log then holds for its commit is a transaction that turns the old file system into the new one |
| `FileTransaction.CommitChunk` | kernel/log.c:146-203 | end_op commits the chunk: the disk is that of the completed transaction, or of a crash inside it if the cache panics for want of buffers, which happens if and only if the buffers do not fit the logged blocks and the log |
| `FileTransaction.FitsIff` | kernel/log.c:146-203 | once the blocks are pinned, the commit finds its buffers if and only if they fitted the cache before |
| `FileTransaction.EnoughFit` | kernel/log.c:146-203 | eleven idle buffers are enough for every chunk |
| `FileTransaction.LoggedChunk` | kernel/file.c:162-167 | begin_op, writei and end_op: from a disk with the file system before the chunk to a disk with the file system after it, by one transaction of the log, if and only if the buffers fit |
| `FileTransaction.LoggedWrite` | kernel/file.c:149-175 | filewrite over the log and the cache: its transactions are the attempts that the crash theorems are about, the disk ends with the new file system, and -1 is returned only for a bad offset, a size beyond the largest file or a full disk; the cache has buffers for all of it if and only if each transaction fits, and always with eleven idle ones |
| `FileTransaction.PowerCut` | kernel/file.c:149-175 | a power failure after any block write of any of these transactions, with any recoveries cut short: the file holds its old bytes with the new ones written over them up to this transaction if its header was written and up to the one before if not |
| `FreeList.Disjoint` | user/umalloc.c:24-90 | blocks, free or allocated, never overlap |
| `FreeList.InsertOk` | user/umalloc.c:33-43 | linking a freed block in at its place keeps the list circular and ordered and every unit in one block |
| `FreeList.MergeOk` | user/umalloc.c:33-42 | joining a block with the next one that it touches keeps the heap in order |
| `FreeList.UnlinkOk` | user/umalloc.c:76-77 | unlinking a whole free block and allocating it keeps the heap in order |
| `FreeList.SplitOk` | user/umalloc.c:78-82 | allocating the tail of a free block keeps the heap in order |
| `FreeList.GrowOk` | user/umalloc.c:54-58 | memory from sbrk beyond all blocks is a new allocated block |
| `Umalloc.RequestIff` | user/umalloc.c:46-61 | sbrk is asked for the memory noted in the header if and only if the request is at most 2^31 - 32 bytes |
| `Umalloc.Allocator.FindPlace` | user/umalloc.c:29-32 | the search loop of free ends at the place of the block |
| `Umalloc.Allocator.Free` | user/umalloc.c:24-44 | free keeps the list circular, ordered and fully coalesced; no unit is lost and other blocks are untouched |
| `Umalloc.Allocator.Morecore` | user/umalloc.c:46-61 | morecore adds exactly the memory from sbrk, and a block that is large enough |
| `Umalloc.Allocator.TakeWhole` | user/umalloc.c:76-83 | an exact fit is unlinked and allocated; all invariants are kept |
| `Umalloc.Allocator.TakeTail` | user/umalloc.c:78-83 | the tail of a larger block is allocated and the block shrinks by as much; all invariants are kept |
| `Umalloc.Allocator.Scan` | user/umalloc.c:74-86 | one time round the list finds the first block that fits, if and only if there is one |
| `Umalloc.Allocator.Search` | user/umalloc.c:74-89 | the loop of malloc terminates; it fails if and only if no free block fits and the kernel refuses, or the request is too large for sbrk |
| `Umalloc.Allocator.Malloc` | user/umalloc.c:63-90 | for every request: a new block of the right size, disjoint from all others; failure if and only if no free block fits and the kernel refuses; the wrong argument of sbrk if and only if no free block fits a request above 2^31 - 32 bytes |
| `Virtio.HasRoom` | kernel/virtio_disk.c:215-292 | a ring always has a slot for a request that is not in it |
| `Virtio.RingAdd` | kernel/virtio_disk.c:271-277 | adding to a ring overwrites no entry that is still to be consumed |
| `Virtio.Counters` | kernel/virtio_disk.c:306-324 | 16-bit indices tell an empty ring and index the ring across wrap-around |
| `Virtio.PlaceIff` | kernel/virtio_disk.c:217-218 | the 32-bit product addresses the right sectors if and only if the block number is below 2^31 |
| `Virtio.StoredReads` | kernel/virtio_disk.c:215-269 | a block written to the disk is read back, and no other block changes |
| `Virtio.Disk.constructor` | kernel/virtio_disk.c:100-154 | virtio_disk_init: all descriptors free, rings empty |
| `Virtio.Disk.DeviceFetch` | kernel/virtio_disk.c:271-281 | the device takes the oldest available request |
| `Virtio.Disk.DeviceComplete` | kernel/virtio_disk.c:238-269 | the device, which knows of a request only what the descriptors and the header say, with their lengths, directions and chaining, moves exactly the requested block between disk and buffer and answers with status 0, or reports an error and moves nothing |
| `Virtio.Disk.IntrOne` | kernel/virtio_disk.c:306-324 | one round of the interrupt handler completes the oldest used request; it panics if and only if the status is not 0 |
| `Virtio.Disk.Intr` | kernel/virtio_disk.c:294-327 | the interrupt handler consumes the completions in order, each once, up to the first with a status that is not 0 |
| `Virtio.Disk.AllocDesc` | kernel/virtio_disk.c:156-166 | a free descriptor is taken, or -1 if there is none |
| `Virtio.Disk.FreeDesc` | kernel/virtio_disk.c:169-182 | a descriptor becomes free and is cleared |
| `Virtio.Disk.Alloc3Desc` | kernel/virtio_disk.c:201-213 | three descriptors, or none if there are fewer than three |
| `Virtio.Disk.FreeChain` | kernel/virtio_disk.c:185-197 | exactly the three descriptors of the request become free |
| `Virtio.Disk.Submit` | kernel/virtio_disk.c:215-281 | a request for the block and the buffer gets a chain of its own and becomes available to the device last; it has to wait if and only if fewer than three descriptors are free |
| `Virtio.Disk.Format` | kernel/virtio_disk.c:238-269 | the header, the three descriptors with addresses, lengths and flags, and the bookkeeping of the request |
| `Virtio.Disk.Enqueue` | kernel/virtio_disk.c:271-277 | the head is appended to the available ring and all invariants hold again |
| `Virtio.Disk.Finish` | kernel/virtio_disk.c:283-291 | a request gives back its descriptors only after completion, and is finished once; the buffer then holds the bytes that the device moved |
| `SleepLock.StepOk` | kernel/proc.c:1008-1077 | every step of every process, and kill, keeps the invariant |
| `SleepLock.MutualExclusion` | kernel/sleeplock.c:21-41 | in every reachable state at most one process holds the sleep lock |
| `SleepLock.NoLostWakeup` | kernel/proc.c:1008-1053 | in every reachable state in which the sleep lock is free and its spinlock is free, no process sleeps on it or is about to |
| `SleepLock.SleeperIsServed` | kernel/proc.c:1008-1053 | while a process sleeps some process inside the protocol can take a step |
| `SleepLock.KillWakes` | kernel/proc.c:1055-1077 | kill leaves the lock and all other processes as they are; a sleeping process is ready to run and, with the spinlock free, gets it and tests the lock again |
| `SleepLock.ReleaseWakes` | kernel/proc.c:1038-1053 | the loop of wakeup, undisturbed, makes every process that sleeps on the lock ready and changes no other |
| `MlfqQueues.PushOk` | kernel/proc.c:1352-1362 | que_push appends to the queue |
| `MlfqQueues.PopOk` | kernel/proc.c:1364-1381 | que_pop takes the first process |
| `MlfqQueues.EnqueueOk` | kernel/proc.c:894-899 | a process that is not queued finds room in its ring |
| `MlfqQueues.DequeueOk` | kernel/proc.c:904-909 | taking the first process of a level |
| `MlfqQueues.ReapIff` | kernel/proc.c:229-235 | freeproc keeps the queues consistent if and only if the process is in no queue |
| `MlfqQueues.AllUpAt` | kernel/proc.c:858-883 | a pass of queue_switch moves the aged front of each level to the end of the level above, and nothing twice |
| `MlfqQueues.LowerAt` | kernel/proc.c:868-869 | the level of a process goes down by one for each time it is moved, and only then |
| `MlfqQueues.AgedIs` | kernel/proc.c:867-867 | the 64-bit difference of two 32-bit ticks is above 30 exactly if the process is aged in the model |
| `MlfqQueues.PassKeeps` | kernel/proc.c:858-883 | the stores of a pass over consistent queues leave consistent queues |
| `MlfqQueues.PassOver` | kernel/proc.c:858-883 | what a pass does that goes past the end of a queue because its size has not been stored yet |
| `Mlfq.Scheduler.constructor` | kernel/proc.c:63-71 | mlfq_init: all queues empty |
| `Mlfq.Scheduler.AllocProc` | kernel/proc.c:178-186 | a new process is queued at level 0 |
| `Mlfq.Scheduler.FreeProc` | kernel/proc.c:229-235 | reaping keeps the queues consistent if and only if the process is in none |
| `Mlfq.ReapQueued` | kernel/proc.c:923-942 | a run in which a process exits, is queued once more by the scheduler, and is reaped: the queues end inconsistent |
| `Mlfq.Scheduler.Tick` | kernel/trap.c:114-127 | the running process is moved down when its slice is used up, and yields then or when a level above has a process; the difference between usertrap and kerneltrap |
| `Mlfq.Scheduler.ClimbLevel` | kernel/proc.c:862-880 | the inner loop of queue_switch stores what the modelled climb stores, whatever the rings hold, and terminates |
| `Mlfq.Scheduler.QueueSwitch` | kernel/proc.c:858-883 | queue_switch moves the aged processes up, restarts their slices and keeps the queues consistent |
| `Mlfq.Scheduler.UpdateTicks` | kernel/proc.c:564-590 | update_ticks charges every running process a tick and then moves the aged processes up |
| `Mlfq.Scheduler.EnqueueAll` | kernel/proc.c:892-901 | the RUNNABLE processes that are not queued go to the ends of the queues of their levels in the order of the process table, with the time noted and the slice restarted; afterwards a process is queued exactly if it was or is RUNNABLE |
| `Mlfq.NewlyUnique` | kernel/proc.c:892-901 | which processes join a level, and in which order, is determined |
| `Mlfq.Scheduler.PopLevel` | kernel/proc.c:904-914 | processes are dropped up to the first RUNNABLE one |
| `Mlfq.Scheduler.Pick` | kernel/proc.c:902-918 | the first RUNNABLE process of the lowest level that has one |
| `Mlfq.Scheduler.Dispatch` | kernel/proc.c:886-922 | the aged processes move up, the RUNNABLE ones that are not queued join in the order of the process table, and the first RUNNABLE process of the lowest level that has one runs; what is left in every queue; none is chosen only if no process is RUNNABLE |
| `Mlfq.Scheduler.PutBack` | kernel/proc.c:923-942 | the process is queued again at its level |
| `MlfqRings.PassRing` | kernel/proc.c:858-883 | a pass of queue_switch leaves in each ring exactly what its places, head, tail and size become, stale places included |
| `MlfqRings.PassTotal` | kernel/proc.c:858-883 | a pass counts as many processes as before, whatever the rings hold |
| `MlfqRings.AllCounted` | kernel/proc.c:1352-1381 | in consistent queues the sizes add up to the number of flagged processes |
| `MlfqRuns.StepKeeps` | kernel/proc.c:858-942 | a step that is not harmful keeps the invariant of the loads and stores under way |
| `MlfqRuns.StepBreaks` | kernel/proc.c:858-942 | after a harmful step the queues are inconsistent once the scheduler has finished what it is doing |
| `MlfqRuns.SafeIff` | kernel/proc.c:858-942 | over every run of single tests, loads and stores of the scheduler, timer interrupts between any two of them, and process events, and for each way to compile que_pop: the queues are consistent wherever the interrupts stop if and only if no step was harmful, which its state before the step decides |
| `MlfqQuiet.Undisturbed` | kernel/proc.c:886-922 | without interrupts the single tests, loads and stores of the scheduler come to an end from consistent queues and together do exactly what Dispatch does; the queues are consistent again |
| `MlfqFailures.TwoLevelsUp` | kernel/proc.c:862-875 | a run in which the timer interrupt comes between que_front and the lock: the process is moved up twice and its level becomes -1 |
| `MlfqFailures.LostEntry` | kernel/proc.c:1364-1373 | a run in which the timer interrupt comes between the load and the store of the size in que_pop: a RUNNABLE process is flagged as queued and every queue is empty |
| `MlfqFailures.ForkFails` | kernel/proc.c:344-360 | a run in which fork fails after allocproc has queued the child, so that freeproc breaks the queues |
| `ShellParser.GetToken` | user/sh.c:266-309 | gettoken makes progress on every token |
| `ShellParser.ParseLine` | user/sh.c:345-360 | parseline terminates on every input and never moves back or past the end; what it returns is stated by LineOk and LineSound of ShellGrammar |
| `ShellParser.ParsePipe` | user/sh.c:362-373 | parsepipe terminates on every input and never moves back or past the end; what it returns is stated by PipesOk and PipesSound of ShellGrammar |
| `ShellParser.ParseExec` | user/sh.c:416-447 | parseexec terminates on every input and never moves back or past the end; what it returns is stated by SimpleOk and SimpleSound of ShellGrammar |
| `ShellParser.ParseBlock` | user/sh.c:400-414 | parseblock terminates on every input and never moves back or past the end; what it returns is stated by BlockOk and BlockSound of ShellGrammar |
| `ShellParser.Redirs` | user/sh.c:375-398 | parseredirs terminates on every input and never moves back or past the end; what it returns is stated by RedirsOk and RedirsSound of ShellGrammar |
| `ShellGrammar.RedirsOk` | user/sh.c:375-398 | a list of redirections is read back in order |
| `ShellGrammar.WrapIs` | user/sh.c:375-398 | the redirections of a command are around it from the last to the first |
| `ShellGrammar.ItemsOk` | user/sh.c:416-447 | fewer than MAXARGS words, with redirections anywhere among them, are read as the command with its words in order and its redirections around it in order |
| `ShellGrammar.ItemsSound` | user/sh.c:416-447 | whatever parseexec reads from its words on is such a list of words and redirections, and the tree is that of the list |
| `ShellGrammar.SimpleOk` | user/sh.c:416-447 | a plain command or a block with its redirections is read by parseexec as its command |
| `ShellGrammar.SimpleSound` | user/sh.c:416-447 | whatever parseexec accepts is a plain command or a block of the grammar, and the tree is its command |
| `ShellGrammar.PipesOk` | user/sh.c:362-373 | commands joined by | are read by parsepipe as their pipe |
| `ShellGrammar.PipesSound` | user/sh.c:362-373 | whatever parsepipe accepts is such a list of commands, and the tree is its pipe |
| `ShellGrammar.BlockSound` | user/sh.c:400-414 | whatever parseblock accepts is a line in parentheses with redirections, and the tree is its command with these around it |
| `ShellGrammar.RedirsSound` | user/sh.c:375-398 | whatever parseredirs reads is a list of redirections, and it returns these in order |
| `ShellGrammar.LineOk` | user/sh.c:345-447 | every line of the grammar, followed by a closing parenthesis or the end, is read as its command: lists, backgrounds, pipes, blocks and commands with redirections |
| `ShellGrammar.LineSound` | user/sh.c:345-447 | whatever parseline accepts is a line of the grammar, and the tree is its command |
| `ShellGrammar.ParseIff` | user/sh.c:328-343 | parsecmd accepts a text if and only if its tokens are those of a line of the grammar, and then returns the command of every such line |
| `ShellRoundTrip.LexOk` | user/sh.c:266-309 | tokens written with white space around them, where they need it, are read back |
| `ShellRoundTrip.LexSound` | user/sh.c:266-309 | every text is its tokens with white space around them |
| `ShellRoundTrip.RoundTrip` | user/sh.c:328-447 | every line of the grammar, written with any white space between its tokens, is read as its command |
| `ShellRoundTrip.AcceptsIff` | user/sh.c:328-447 | parsecmd returns a command if and only if the text is a line of the grammar for that command, written with some white space; it never stops before the end |
| `ShellRoundTrip.PrintReads` | user/sh.c:328-447 | parsing inverts printing for every command tree that has a text |
| `ShellOps.Gettoken` | user/sh.c:266-309 | gettoken with its loops computes the modelled token |
| `ShellOps.PeekAt` | user/sh.c:311-321 | peek skips white space and tells whether the next character is one of the given ones |
| `ShellOps.Parseredirs` | user/sh.c:375-398 | parseredirs with its loop computes the modelled redirections |
| `ShellOps.Parseline` | user/sh.c:345-360 | parseline with its loop computes the modelled parser |
| `ShellOps.Parsepipe` | user/sh.c:362-373 | parsepipe computes the modelled parser |
| `ShellOps.Parseexec` | user/sh.c:416-447 | parseexec with its loop and the limit on arguments computes the modelled parser, which SimpleOk, SimpleSound and AcceptsIff are about |
| `ShellOps.Parseblock` | user/sh.c:400-414 | parseblock computes the modelled parser |
| `Regex.StarStep` | user/grep.c:98-105 | the language of c*r: r, or one more c |
| `Regex.MatchHere` | user/grep.c:84-95 | matchhere is true exactly when the pattern matches at the beginning of the text |
| `Regex.MatchStar` | user/grep.c:98-105 | matchstar is true exactly when c* followed by the pattern matches at the beginning of the text |
| `Regex.Match` | user/grep.c:71-81 | match is true exactly when some substring, anchored as ^ and $ require, belongs to the language of the pattern |
| `Pipe.WrapIff` | kernel/pipe.c:78-132 | indexing the ring by a wrapped counter is right if and only if the size divides 2^32 |
| `Pipe.EmptyAndFull` | kernel/pipe.c:78-132 | the counters tell an empty and a full ring across any number of wraps |
| `Pipe.PutOk` | kernel/pipe.c:90-98 | a byte put in overwrites none that is still to be read |
| `Pipe.TakeOk` | kernel/pipe.c:122-128 | the byte taken out is the oldest |
| `Pipe.Ring.constructor` | kernel/pipe.c:33-36 | a new pipe is empty and open at both ends |
| `Pipe.Ring.Close` | kernel/pipe.c:59-76 | pipeclose closes one end and frees the pipe exactly when both are closed |
| `Pipe.Ring.Write` | kernel/pipe.c:78-105 | pipewrite puts in the source bytes in order, exactly as many as the source, the ring and a fault allow, and sleeps if and only if it is the ring that stops it |
| `Pipe.Ring.Read` | kernel/pipe.c:107-132 | piperead delivers the oldest bytes in order, exactly as many as are asked for, there and storable; it takes out one more, which is lost, if and only if the fault comes before the request and the ring are exhausted |
| `Pipe.LostByte` | kernel/pipe.c:122-128 | a byte that is written and then lost |

## Left out

- Interleaving inside `commit` and `install_trans`: a commit is modelled as an uninterrupted
  sequence of block writes, with crashes between any two of them; readers that run meanwhile see
  what `CommitInvisible` says.
- Sleep locks of buffers as waiting: `Bread` is modelled at the moment the lock is free.
- WriteAheadLog.Log.BeginOp: a refused operation returns false where the code sleeps and tries
  again.
- Several devices: the cache is modelled for the root device, other keys are only kept unique.
- FileOps.FileSystem.constructor: the root directory and the files that mkfs puts in are left
  out, since directories are.
- FileOps.FileSystem.Writei: copies from user memory do not fault; a faulting copy can leave
  bytes in a buffer that is never logged.
- FileOps.FileSystem.Readi: copies to user memory do not fault.
- FileCrash.WriteThroughCrashes: each chunk is the only operation of its transaction; the type
  and the link count in an on-disk inode are words that keep what they hold. That the
  transactions are those of the log is `FileTransaction.LoggedWrite`.
- FileTransaction.LoggedChunk: the new contents of the blocks are worked out first and then stored
  and logged, each block once; the code stores and logs them as it goes, some blocks more than
  once.
- FileTransaction.LoggedWrite: one writer, so every chunk is alone in its transaction.
- Inode allocation, link counts, directories and path names.
- CowSystem.ForkSupplied: the page of the trapframe, which allocproc takes first, is a kernel
  allocation of its own; a process has fewer pages than would reach the trapframe.
- CowFork.WalkOk: the tables of a process are a map from places in the tree to pages; that the
  words in these pages stand for that map is `VmWords.Coupled`, which `Vm.Machine` keeps.
- PageTableOps.Tables.UvmUnmap: unmaps without freeing the pages; the branch with do_free is
  `Vm.Machine.UvmUnmap`.
- PageTableOps.Tables.UvmFree: frees the tables only; the user pages are freed in
  `Vm.Machine.UvmFree`.
- Vm.Machine.UvmCopy: the size of a process is counted in pages.
- Vm.Machine.UvmAlloc: the pages are below the trapframe; beyond, mappages meets the entry of the
  trapframe and panics.
- Vm.Machine.UvmFree: the process has no other pages than those named; with others left freewalk
  panics.
- Vm.Machine.Fork: the page of the trapframe is given. The words of table pages are kept apart
  from the bytes of user pages.
- Execution (`exec`), the contents of the trampoline and the trapframe, the kernel page table,
  `sigalarm` and `sigreturn`.
- TLB flushes and memory fences: page-table changes take effect at once and memory is
  sequentially consistent.
- Virtio.Disk.DeviceComplete: the device moves a block in one step and may complete requests in
  any order; device registers and feature negotiation are left out.
- Umalloc.Allocator.Malloc: ends with -2 before the wrong call of sbrk, whose effect on the
  memory of the process is left out; only malloc calls sbrk.
- SleepLock.StepOk: the scheduler is abstracted to steps that park and resume a process.
- Mlfq.Scheduler.Tick: whether the process yields, not how often; the loop over the levels can
  yield more than once.
- MlfqRuns.SafeIff: one CPU, with the timer interrupt between any two steps of the scheduler. A
  step is a single test, load or store of `que_empty`, `que_front` or `que_pop`, or what runs
  with a lock held. The compiler may leave out the second loads of `que_pop`; that it keeps a
  value from one call to the next is not modelled, and several CPUs are not.
- The FCFS, lottery, round-robin and priority schedulers: single scans.
- ShellOps.Parseexec: the words and redirections of a command are collected and the tree is
  built at the end, where the code fills a node that is already in the tree; that the tree is
  the one of the words and redirections read is `ShellRoundTrip.AcceptsIff`. `nulterminate` and
  running commands are left out.
- Regex.Match: the buffer handling of grep is left out.
- Pipe.Ring.Write: each call models one stretch under the lock; wakeups are left out.
- Pipe.Ring.Read: each call models one stretch under the lock; wakeups are left out.
- Interrupt controllers, boot code, consoles and system-call plumbing.
