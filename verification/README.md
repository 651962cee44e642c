# xv6, verified

A model of the hard parts of the xv6 kernel for RISC-V and of two of its user programs, with
proofs. It has five groups.

- **Crash-safe storage.** The redo log (`LogCore`, `Log`), the buffer cache (`Bio`), both and the disk
  as one concurrent machine in which power may fail between any two block writes (`Storage`,
  `StorageSafety`, `StorageGuard`, `CacheSteps`), the block and inode layer with chunked writes
  (`FsLayout`, `FsTruncate`, `FsCache`, `FsChunks`, `FsSession`, `FileSys`), the same as blocks on a disk, and what a
  crash leaves of the files (`FsImage`, `FileCrash`), and the disk driver against a device that completes
  requests in any order and with any status (`Virtio`, `VirtioSafety`, `VirtioDriver`).
- **Virtual memory.** Sv39 page tables, the physical page allocator, address spaces and copies to
  and from user memory, with the exact number of pages each operation takes and the user memory of every
  process as a plain map (`PageTables`, `VmState`, `VmCount`, `VmTrace`, `VmFree`, `UserMemory`, `Vm`).
- **Processes.** Scheduling, sleep and wakeup, fork, exit, wait and kill as a machine that steps from
  one lock operation or write to the next on any number of CPUs (`Proc`, `ProcSafety`, `ProcWakeups`,
  `ProcWait`), and pipes (`Pipe`).
- **The user allocator** (`FreeRing`, `Umalloc`).
- **Languages.** The shell's parser (`Shell`, `ShellPrint`, `ShellParser`) and grep's matcher (`Grep`).

`Words`, `Counting` and `Options` are shared. Code that works on an object is a class whose methods are
proved against functions of its state; code that runs concurrently is a state machine with an
invariant and theorems about all its runs. Panics are error results, or are proved unreachable. User
memory that faults, the disk being full, memory running out, sbrk()'s answers, kill() and the device's
order are parameters, so the results hold for all of them.

## Model

| member | source | states |
|---|---|---|
| LogCore.RecoveryIsUnique | kernel/log.c:68-123 | a disk image recovers to one set of home blocks only |
| LogCore.HeadAfterPut | kernel/log.c:86-114 | reading a header block back gives exactly the list that was written into it |
| LogCore.CommitIsAtomic | kernel/log.c:178-203 | a crash after any number of commit()'s block writes leaves a disk that recovers to the old state up to the header write and to the new state from it on, and after the last write the home blocks are the new ones and the log is empty |
| LogCore.RecoveryKeeps | kernel/log.c:68-123 | a crash after any number of recovery's own block writes leaves a disk that recovers to the same state; a completed recovery leaves that state in the home blocks and an empty log |
| LogCore.RepeatedCrashes | kernel/log.c:116-123 | any number of crashes during recovery end in the state of the first crash |
| LogCore.CommitOutcome | kernel/log.c:193-203 | what commit() leaves on disk and in the cache, in closed form |
| LogCore.RecoverOutcome | kernel/log.c:116-123 | what recovery passes through and leaves, in closed form |
| Log.RedoLog.LogWrite | kernel/log.c:214-235 | the list gains the block once, at its end, and its buffer one pin, unless one of the two panics comes first, in the source's order; listed blocks stay pinned exactly once and others not at all |
| Log.RedoLog.WriteLog | kernel/log.c:178-191 | every disk on the way is a copy of one more listed block to the log |
| Log.RedoLog.WriteHead | kernel/log.c:102-114 | one block write that puts the list in the header |
| Log.RedoLog.InstallTrans | kernel/log.c:68-83 | every disk on the way has one more listed block copied home; all pins are gone afterwards, and while recovering they are left alone |
| Log.RedoLog.ReadHead | kernel/log.c:86-97 | the list in memory is the one in the header on disk |
| Log.RedoLog.Commit | kernel/log.c:193-203 | the disks it passes through are the commit points that CommitIsAtomic is about, and it ends with home blocks equal to the cache and an empty log |
| Log.RedoLog.Recover | kernel/log.c:116-123 | the disks it passes through are the recovery points that RecoveryKeeps is about, and it ends with the committed home blocks |
| StorageSafety.StepKeeps | kernel/log.c:126-235 | every step of the machine (cache, log, disk, any threads, a crash at any point) keeps the storage invariant |
| StorageSafety.RunInv | kernel/log.c:68-235 | the invariant holds in every state of every run |
| StorageSafety.CrashAtomicity | kernel/log.c:68-203 | at every point of every run, recovery and repeated crashes included, the disk recovers to exactly what was logged at the last completed header write, and no call was in progress at that moment |
| StorageSafety.RecoveryCompletes | kernel/log.c:116-123 | when recovery completes, the home blocks on disk and in the machine are the ones last committed |
| StorageSafety.CacheAgreement | kernel/bio.c:58-151 | whoever holds a loaded buffer not changed since sees the latest logged contents of its block, and its contents on disk if nothing is pending |
| StorageSafety.OneBuffer | kernel/bio.c:58-89 | no block of the file system's device is ever in two buffers |
| StorageSafety.PinnedNotRecycled | kernel/log.c:214-235 | in every run a block that is listed and not yet installed has a loaded buffer in use, so bget() cannot recycle it |
| StorageSafety.Reservation | kernel/log.c:126-175 | the listed blocks and all unused reservations never exceed LOGSIZE together, and a commit runs with no call in progress |
| StorageSafety.CommitIsFrozen | kernel/log.c:178-203 | from the start of a commit until the log is cleared neither the list nor the logged contents nor the calls change |
| StorageSafety.GuardNeverFires | kernel/log.c:214-235 | log_write() does not panic for a call with part of its share left if the region has room for LOGSIZE blocks and a header |
| StorageGuard.NewBlockFiresIff | kernel/log.c:220-223 | from a clean boot some run leads to the panic on a block not listed yet, or with part of the share left, if and only if the region has at most LOGSIZE blocks |
| StorageGuard.ListedBlockFiresIff | kernel/log.c:220-229 | from a clean boot some run leads to the panic on a block that is listed already if and only if the region has more than one block |
| StorageGuard.NeverFires | kernel/log.c:220-223 | in a region with room the panic only meets calls that have used up their share, on listed blocks |
| StorageGuard.SmallCallsFit | kernel/log.c:126-142 | a call that logs blocks of a set of at most MAXOPBLOCKS keeps to its share in every run, however often it logs them |
| StorageGuard.NoBufferIff | kernel/log.c:178-191 | whoever has buffers, readers without begin_op() included: from a clean boot some run leads to a commit that finds no buffer for its next log block if and only if the log region has more than one block and there are fewer buffers than blocks on the disk |
| StorageGuard.StarvedIff | kernel/log.c:178-191 | the same by pins alone, with no thread holding a buffer: if and only if there are at most LOGSIZE buffers and fewer than blocks in the log region |
| StorageGuard.OnePanicOrTheOther | kernel/param.h:9-11 | with NBUF buffers a run leads to bget()'s panic during a commit whenever the log can hold a block; by pins alone, exactly when none leads to log_write()'s panic on a new block, so one of the two can be met at every size even if no thread holds a buffer |
| Bio.BufferCache.constructor | kernel/bio.c:36-53 | the links form one ring through all buffers, each once |
| Bio.BufferCache.Find | kernel/bio.c:65-74 | finds a buffer of the block if and only if there is one |
| Bio.BufferCache.FindUnused | kernel/bio.c:75-87 | finds an unused buffer if there is one, and of these the one that was moved to the front longest ago |
| Bio.BufferCache.Bget | kernel/bio.c:58-89 | a cached block keeps its buffer with one reference more, another takes over the least recently used unused buffer, and the panic comes exactly if there is none; one buffer per block and the ring are kept |
| Bio.BufferCache.Brelse | kernel/bio.c:116-137 | one reference less, and a buffer left unused is relinked at the front of the ring, the order of the others unchanged |
| Bio.BufferCache.PinnedStays | kernel/bio.c:139-151 | whatever calls of bget() and brelse() come between bpin() and bunpin(), the buffer keeps its block and stays in use |
| CacheSteps.BgetStep | kernel/bio.c:58-89 | what the ring does for bget() is a step of the storage machine |
| CacheSteps.BrelseStep | kernel/bio.c:124-137 | what the ring does for brelse() is a step of the storage machine |
| FsLayout.ExclusiveOwnership | kernel/fs.c:50-105 | a bitmap bit is set exactly if the block is metadata or some slot refers to it, and no two slots of all inodes refer to one block |
| FileSys.FileSystem.Balloc | kernel/fs.c:65-88 | the first free block, marked, zeroed and logged; 0 exactly with nothing changed and all bits set |
| FileSys.FileSystem.Bmap | kernel/fs.c:382-421 | the slot of a file block refers to the result, new blocks are zeroed and owned by that slot alone, no mapped block of any file moves or changes, and 0 means that the disk is full |
| FileSys.FileSystem.Itrunc | kernel/fs.c:425-453 | the file is empty, each of its blocks is freed once, all other files are unchanged, every block is singly owned again, the inodes on disk are those in memory, and exactly the bitmap blocks of the file's blocks and the inode's block are logged |
| FileSys.FileSystem.Readi | kernel/fs.c:471-496 | returns exactly the bytes of the file from off on, as many as asked for and there, or 0 or -1 in the source's cases, and changes nothing |
| FileSys.FileSystem.Writei | kernel/fs.c:505-539 | -1 exactly if refused; else the file is the old one with the bytes written, extended if need be, all other files unchanged, and the number returned is given by offset, readable bytes and size unless the disk is full; it replaces exactly those bytes if and only if the readable bytes past the last block boundary repeat the file's; every block changed in the log's view is logged, and a chunk logs at most MAXOPBLOCKS blocks |
| FileSys.FileSystem.WriteThenRead | kernel/fs.c:471-539 | reading the range just written gives the bytes written |
| FileSys.FileSystem.FaultShows | kernel/fs.c:522-525 | in every file system with a nonempty file, a call whose source faults after one byte returns 0 and changes the file |
| FileSys.FileSystem.Evict | kernel/fs.c:522-525 | recycling a buffer with unlogged changes brings back what was logged: after one faulting write, exactly the bytes that were reported |
| FileSys.FileSystem.FileWrite | kernel/file.c:149-175 | the number of bytes written is a function of offset, size, length and readable bytes, all of them if they are readable and fit the largest file, or the disk is full and the write ends at a block the file does not have; the return value, the offset and the file follow from it; what was logged is exactly the bytes the offset moved by (a half-written block that is listed already is committed as its buffer is, which `Absorb` covers); its transactions log all they change, at most MAXOPBLOCKS blocks each, and each leaves a prefix of the bytes written |
| FileSys.FileSystem.Session | kernel/fs.c:425-539 | any sequence of filewrite(), itrunc() and readi() does to the files what the same operations do to plain byte sequences, each write storing as much as it should unless the disk is full at its end; and it is a history of transactions, each of which logged all that it changed, left a sound file system and, on a disk with fewer than MAXOPBLOCKS bitmap blocks over its data, kept to MAXOPBLOCKS blocks |
| FsLayout.TransactionBound | kernel/file.c:149-175 | a write of at most three blocks at any offset of a file mapped up to its size logs at most ten different blocks, its inode's included, even with every allocation in another bitmap block |
| FsLayout.WrittenContent | kernel/fs.c:505-539 | the contents after the size update are the old ones overwritten, and still all mapped |
| FsLayout.TruncateOwns | kernel/fs.c:425-453 | after truncation every block is singly owned again and only that file is changed |
| FsTruncate.TruncationBound | kernel/fs.c:425-453 | a truncation logs at most one block more than there are bitmap blocks over the data blocks |
| FsTruncate.TruncationFits | kernel/param.h:9 | truncating any file of any file system on a disk keeps to MAXOPBLOCKS blocks if and only if there are fewer than that many bitmap blocks over its data blocks |
| FsLayout.WriteFileTwice | kernel/file.c:149-175 | two consecutive writes are one longer write |
| FsLayout.ReadBack | kernel/fs.c:471-539 | the range written holds the bytes written and the rest of the file is unchanged |
| FsChunks.LastChunk | kernel/file.c:149-175 | the chunk that is refused or comes out short leaves exactly the bytes written that offset, size, length and readable bytes determine, or the disk is full |
| FsChunks.ChunkHistoryMore | kernel/file.c:161-166 | one more chunk is one more transaction of the write's history |
| FsImage.InodeAfterSet | kernel/fs.c:225-241 | storing an inode in its block changes that inode and no other, bit for bit as `struct dinode` has it |
| FsImage.BitAfterSet | kernel/fs.c:65-105 | setting or clearing a bit in a bitmap block changes that bit and no other |
| FsImage.DiskFiles | kernel/fs.h:30-51 | the blocks of a disk determine the files on it |
| FsImage.NextDisk | kernel/fs.c:225-241 | from any disk with the files before a call, writing the blocks that the call logged and no others can give the files after it |
| FileCrash.CrashLeavesVersion | kernel/log.c:10-21 | a power failure at any point of a run of the storage machine that carries out a history of transactions, calls overlapping and sharing commits as they may, leaves a disk that recovers to the file system after those calls that had ended at the last header write |
| FileCrash.EndedIsDurable | kernel/log.c:145-175 | once a commit is over, the disk has the file system after all calls that have ended |
| FileCrash.SessionCrash | kernel/file.c:149-175 | a session cut off by a power failure recovers to the files after exactly those of its transactions that were committed: if the last of them ends call k, to the files after call k, and else, in the middle of a write, to those before it with a prefix of its bytes |
| FileCrash.EveryCrash | kernel/log.c:116-123 | over a run with any number of crashes, during recovery or not, with calls in between, the disk recovers to the version that the last commit left, each stretch going on from the version recovered before it |
| FileCrash.SerialCarries | kernel/log.c:126-175 | calls that do not overlap carry out a history if each logs only blocks of its own transaction and ends with all of them as they should be |
| FsCache.ExactReplacementIff | kernel/fs.c:522-525 | a write that reached further than it reports is as if it had not exactly if the bytes beyond repeat what was there |
| FsCache.HarmlessIff | kernel/fs.c:517-529 | the same condition in terms of what the caller passes |
| FsCache.Reverts | kernel/bio.c:76-87 | putting back the logged contents of a block keeps the file system consistent, changes one block of one file at most and leaves the log's view as it is |
| VmState.Follows | kernel/vm.c:85-103 | an entry of a table is valid exactly if the tree has the next table, and leads to it |
| VmState.FindsLeaf | kernel/vm.c:85-126 | the entry found for an address is the mapping of its page |
| VmState.AddRangeAt | kernel/vm.c:142-165 | a map with a range added is the old one outside the range and the requested one on it |
| PageTables.PteRoundTrip | kernel/riscv.h:347-363 | address and flags come back out of an entry |
| PageTables.PxSplits | kernel/riscv.h:347-363 | the three indices of an address determine its page |
| PageTables.AddMid | kernel/vm.c:85-103 | adding a middle table keeps every address space represented and owned |
| PageTables.AddLow | kernel/vm.c:85-103 | adding a lowest-level table keeps every address space represented and owned |
| PageTables.MapLeaf | kernel/vm.c:142-165 | writing one leaf entry maps one page and changes no other translation |
| PageTables.UnmapLeaf | kernel/vm.c:170-192 | clearing one leaf entry unmaps one page and changes no other translation |
| Vm.Kernel.constructor | kernel/kalloc.c:26-40 | every page from the end of the kernel to PHYSTOP is free |
| Vm.Kernel.Kalloc | kernel/kalloc.c:68-82 | the first free page, or 0 with nothing changed exactly if there is none |
| Vm.Kernel.Kfree | kernel/kalloc.c:46-63 | the page is first on the free list, which stays free of duplicates |
| Vm.Kernel.GetFreemem | kernel/kalloc.c:84-91 | PGSIZE times the length of the free list, which fits an int |
| Vm.Kernel.Walk | kernel/vm.c:85-103 | the lowest-level table of the address, exactly the missing ones created with alloc, or 0 exactly if there are fewer free pages than that; no page's translation changes in any address space |
| Vm.Kernel.WalkAddr | kernel/vm.c:108-126 | the physical page of a valid user page, and 0 for everything else |
| Vm.Kernel.Mappages | kernel/vm.c:142-165 | succeeds exactly if there are as many free pages as tables missing for the range, and then exactly the range is added to the map; on failure a part of it from the start |
| Vm.Kernel.Uvmunmap | kernel/vm.c:170-192 | exactly the range is removed from the map, and its pages are freed once if asked to and otherwise left to the caller; its panics are unreachable |
| Vm.Kernel.Uvmcreate | kernel/vm.c:196-205 | an address space that maps nothing, or 0 |
| Vm.Kernel.Uvmalloc | kernel/vm.c:225-249 | exactly the new pages, zeroed, or 0 and no page mapped that was not before; 0 exactly if the free pages are fewer than the new pages and the tables missing for them |
| Vm.Kernel.Uvmdealloc | kernel/vm.c:255-267 | exactly the pages above the new size are unmapped and freed |
| Vm.Kernel.FreeWalk | kernel/vm.c:271-287 | all tables of an address space that maps nothing are freed once; the panic on a leaf is unreachable |
| Vm.Kernel.Uvmfree | kernel/vm.c:291-297 | all pages and tables of the address space are free and nothing else has changed |
| Vm.Kernel.Uvmcopy | kernel/vm.c:305-333 | the child has copies of the parent's pages with their flags, or none; it fails exactly if the free pages are fewer than those pages and the tables missing for them |
| Vm.Kernel.ProcPagetable | kernel/proc.c:176-206 | trampoline and trapframe mapped, or 0 and no trace; 0 exactly with fewer than three free pages |
| Vm.Kernel.ProcFreepagetable | kernel/proc.c:210-216 | the address space is gone with all its pages, and nothing else has changed |
| Vm.Kernel.Growproc | kernel/proc.c:262-278 | the size changes by n and the pages with it, or -1 and the size stays; -1 exactly if it is to grow and the free pages are too few for the new pages and their tables |
| Vm.Kernel.Live | kernel/vm.c:170-333 | after each of any sequence of creating, growing, shrinking, copying and freeing, the sizes and the user memories of all processes, contents and flags of every page, are what the operation makes of those before it, no other process's memory changing; operations fail exactly for want of pages; and once no process is left the free list has exactly the pages it had |
| VmCount.TookFits | kernel/vm.c:85-103 | pages and tables that were taken were there: their number was not short |
| VmCount.TooFewBefore | kernel/vm.c:225-249 | if memory runs out at one page, it was too little for the whole range to begin with |
| VmCount.SpecialTables | kernel/proc.c:176-206 | mapping the trampoline in an empty address space takes exactly two tables |
| VmTrace.CopiedMemory | kernel/vm.c:305-333 | after uvmcopy() the child's memory is the parent's and all others are the same |
| VmTrace.ShrunkMemory | kernel/vm.c:255-267 | after uvmdealloc() the memory is cut off at the new size and all others are the same |
| VmTrace.GrownMemory | kernel/vm.c:225-249 | after uvmalloc() the memory has zeroed pages up to the new size and all others are the same |
| VmState.FewPages | kernel/vm.c:225-249 | a user memory cannot have more pages than there is memory, so it stays clear of the trapframe |
| VmState.AllBack | kernel/proc.c:210-216 | without address spaces every page that the kernel does not hold is free |
| VmFree.AllGone | kernel/vm.c:271-297 | with its tables freed the address space is gone |
| Vm.Kernel.Copyin | kernel/vm.c:376-396 | succeeds exactly if every byte is in a valid user page, and then has the bytes at their translations |
| Vm.Kernel.Copyout | kernel/vm.c:351-371 | succeeds exactly if every byte is in a valid user page; memory is the old one with the bytes stored at their translations |
| Vm.Kernel.CopyBack | kernel/vm.c:351-396 | copyin() of what copyout() wrote gives the same bytes |
| Vm.Kernel.Copyinstr | kernel/vm.c:402-439 | succeeds exactly if a NUL lies within max accessible bytes, and then has exactly that string |
| UserMemory.CopyRoundTrip | kernel/vm.c:351-396 | bytes stored through an injective map are read back |
| UserMemory.SpacesAre | kernel/vm.c:351-439 | in every state of the kernel all address spaces are backed by memory and injective |
| ProcSafety.GoKeeps | kernel/proc.c:282-440 | every step of a thread keeps the lock and CPU invariant |
| ProcSafety.SchedKeeps | kernel/proc.c:449-477 | every step of a scheduler keeps it too |
| ProcWait.StepInv | kernel/proc.c:282-609 | every step of any CPU keeps the whole invariant |
| ProcWait.RunInv | kernel/proc.c:282-609 | the invariant holds in every reachable state |
| ProcWait.SleepersAreWoken | kernel/sleeplock.c:21-41 | in every reachable state with the inner spinlock free, a process that sleeps on a sleep-lock means that it is held |
| ProcWait.ParentsAreWoken | kernel/proc.c:351-440 | in every reachable state with wait_lock free, a process that sleeps in wait() has no zombie child |
| ProcWait.OneCpu | kernel/proc.c:449-515 | a process is current on at most one CPU, and with its lock free it is RUNNING exactly if it is current on one |
| ProcWait.SwitchesSafely | kernel/proc.c:486-504 | whenever a thread switches it holds p->lock and no other spinlock and is not RUNNING, so sched()'s panics are unreachable |
| ProcWait.ZombieEnds | kernel/proc.c:351-440 | the one step that ends a zombie is its parent's in wait(), taken when no CPU is on its stack |
| ProcWakeups.WakeAdvances | kernel/proc.c:571-585 | wakeup() does not pass a process that sleeps on its channel |
| Umalloc.Allocator.FindPlace | user/umalloc.c:30-32 | free()'s search ends, at the block after which the new one belongs |
| Umalloc.Allocator.Free | user/umalloc.c:24-44 | the list gains exactly the units of the block and stays one ascending cycle of blocks that do not touch |
| Umalloc.Allocator.Morecore | user/umalloc.c:46-61 | the list gains at least the units asked for, or nothing changes |
| Umalloc.Allocator.Malloc | user/umalloc.c:63-90 | a block of the size asked for that was free, or 0 exactly if none fits and sbrk() refuses; morecore() is called exactly if nothing fits, and once at most |
| Umalloc.Allocator.Session | user/umalloc.c:24-90 | any sequence of malloc() and free() is answered request by request as it should be, which determines what is held and how much was obtained; the units obtained are those free and those handed out, and once nothing is held all are free |
| Umalloc.Conserved | user/umalloc.c:24-90 | free and handed out blocks are disjoint, no two free ones touch, and their units add up to those obtained |
| Umalloc.RunFits | user/umalloc.c:46-90 | a run of free units lies in one block, so after morecore() the search succeeds |
| FreeRing.InsertGaps | user/umalloc.c:24-44 | linking in and joining keeps the order, with no blocks that touch |
| FreeRing.InsertUnits | user/umalloc.c:24-44 | and conserves units |
| FreeRing.InsertCovers | user/umalloc.c:24-44 | and adds exactly the block's units |
| FreeRing.CarveGaps | user/umalloc.c:74-84 | taking from a block keeps the order |
| FreeRing.CarveUnits | user/umalloc.c:74-84 | and conserves units |
| FreeRing.CarveCovers | user/umalloc.c:74-84 | and takes exactly the units of the block returned |
| VirtioSafety.StepInv | kernel/virtio_disk.c:215-327 | every step of a thread, the handler or the device keeps the virtqueue invariant |
| VirtioSafety.RunInv | kernel/virtio_disk.c:215-327 | the invariant holds in every run |
| VirtioSafety.FreeOrInOneChain | kernel/virtio_disk.c:156-213 | in every reachable state a descriptor is free or in exactly one request's chain |
| VirtioSafety.NoDoubleFree | kernel/virtio_disk.c:169-197 | free_chain() frees three different descriptors in use, so free_desc() does not panic |
| VirtioSafety.AvailNotOverwritten | kernel/virtio_disk.c:271-277 | no entry that the device has not taken is overwritten, even when 16-bit indices wrap |
| VirtioSafety.ReturnsCompleted | kernel/virtio_disk.c:283-291 | virtio_disk_rw() returns only after the device has completed its own request, with success |
| VirtioSafety.HandlerSafe | kernel/virtio_disk.c:294-327 | the handler goes on exactly while completions are left, each of a request that was completed, and its panic comes if and only if the device reported that this request failed |
| VirtioDriver.Disk.AllocDesc | kernel/virtio_disk.c:156-166 | the lowest free descriptor is taken, or -1 and nothing changes |
| VirtioDriver.Disk.FreeDesc | kernel/virtio_disk.c:169-182 | the descriptor is cleared and free |
| VirtioDriver.Disk.FreeChain | kernel/virtio_disk.c:185-197 | exactly the descriptors along the chain are freed |
| VirtioDriver.Disk.Alloc3 | kernel/virtio_disk.c:201-213 | the three lowest free descriptors, or none taken |
| Grep.MatchesFirst | user/grep.c:85-106 | a pattern matches exactly if its first item matches up to some position and the rest from there on |
| Grep.MatchHere | user/grep.c:85-96 | true exactly if the rest of the pattern matches here, under a declarative meaning of literals, '.', '*' and '$' |
| Grep.MatchStar | user/grep.c:99-106 | true exactly if some number of characters can be skipped so that the rest matches |
| Grep.Match | user/grep.c:72-82 | true exactly if the pattern matches at some position, or at the first one with '^' |
| Pipe.PipeBuffer.WriteTurn | kernel/pipe.c:76-103 | the bytes stored and the reason for ending a turn: done, full, or no reader or killed |
| Pipe.PipeBuffer.ReadTurn | kernel/pipe.c:105-130 | the waiting bytes in order, as many as asked for and can be copied out; a byte that cannot is consumed |
| Pipe.PipeBuffer.Traffic | kernel/pipe.c:58-130 | for any interleaving of turns the pipe answers each as a queue of at most PIPESIZE bytes does, outcomes and bytes included; so the bytes read are the first of those written, in order, except those that could not be copied out |
| Pipe.Fifo | kernel/pipe.c:76-130 | between 0 and PIPESIZE bytes wait, as the 32-bit counters say, and the ring holds exactly those |
| Pipe.Counters | kernel/pipe.c:76-130 | what the wrapping counters tell about full, empty and the next slots |
| ShellPrint.RoundTrip | user/sh.c:328-447 | parsing the printed text of any legal tree gives the tree back |
| ShellParser.Parser.GetToken | user/sh.c:266-309 | the kind, start and end of the next token, and the cursor after it and the spaces around it |
| ShellParser.Parser.Peek | user/sh.c:311-321 | whether the next token starts with one of the characters |
| ShellParser.Parser.ParseRedirs | user/sh.c:375-398 | agrees with the specification, in value, position and panics |
| ShellParser.Parser.ParseBlock | user/sh.c:400-414 | agrees with the specification |
| ShellParser.Parser.ParseExec | user/sh.c:416-447 | agrees with the specification |
| ShellParser.Parser.ParsePipe | user/sh.c:362-373 | agrees with the specification |
| ShellParser.Parser.ParseLine | user/sh.c:345-360 | agrees with the specification |
| ShellParser.Parser.NulTerminate | user/sh.c:450-494 | the buffer has NULs exactly at the ends of the command's words |
| ShellParser.Parser.ParseCmd | user/sh.c:328-343 | panics exactly with the specification; else every word of the command is in the buffer the string it is in the line |
| ShellParser.EveryWordEnds | user/sh.c:450-494 | no word is cut short by another one's NUL |
| ShellParser.Reparse | user/sh.c:328-494 | for every legal tree, printing, parsing and marking up gives the tree back with its words as strings |

## Findings

Four properties do not hold of the code as it is. Each has the exact condition under which it does.

| property | fails when | holds exactly when | members |
|---|---|---|---|
| A call that keeps to the share begin_op() promised it never meets log_write()'s panic (kernel/log.c:220) | three calls list 29 blocks in the region of LOGSIZE blocks that mkfs makes (mkfs/mkfs.c:25), and one of them logs its tenth; or a call with nothing left logs a listed block again while the list is full | for blocks not listed yet: the region has more than LOGSIZE blocks; for listed blocks: never, once the region can hold a block | `NewBlockFiresIff`, `ListedBlockFiresIff`, `NeverFires` |
| A commit finds a buffer for the next log block (kernel/log.c:183, kernel/bio.c:88) | one block is listed and threads that read, which needs no begin_op(), hold all other buffers; or, with no thread holding any, calls list as many blocks as there are buffers | the log region has no room for a block, or there are as many buffers as blocks on the disk; with no thread holding a buffer: there are more than LOGSIZE buffers, or at least as many as blocks in the region | `NoBufferIff`, `StarvedIff`, `OnePanicOrTheOther` |
| No call logs more than MAXOPBLOCKS blocks (kernel/param.h:9) | a file with blocks under ten bitmap blocks is truncated | there are fewer than MAXOPBLOCKS bitmap blocks over the data blocks, as on any disk of at most nine times 8192 blocks; writes always keep to it | `TruncationFits`, `Itrunc`, `FileWrite` |
| writei() replaces exactly the bytes it reports (kernel/fs.c:522-525) | the source faults within a block: the bytes before the fault are in its buffer, unlogged, and stay there until the buffer is recycled, or for good if the block gets into a transaction | all of the source can be read, or its readable bytes past the last block boundary repeat what the file has there | `Writei`, `FaultShows`, `Evict`, `HarmlessIff` |

## Left out

- The kernel's own page table, uvmfirst(), uvmclear() and exec(): they would add only more calls of mappages() and uvmalloc().
- Directories, path names, link counts, inode reference counts and ialloc(): the number of links is not an invariant of the code, and the rest would add easy members.
- System-call dispatch and argument fetching, traps, the console, the UART and printf: device input and output or thin wrappers.
- Spinlocks, fences and interrupts: acquire and release are single steps, and a timer interrupt is the choice to yield where no spinlock is held.
- Assembly: swtch() is a step that hands the CPU over.
- runcmd(), grep()'s reading of files, and the other user programs.
- The killed flag: kill() makes a sleeper runnable as in the source, and whether a thread then sees that it was killed is a choice of the step.
- get_nproc() and get_freemem() while others run: they read shared data without locks; GetFreemem is stated for a quiescent kernel.
- The driver's memory barriers and the layout of descriptors and requests in memory: the machine has the fields and their order of writes.
- Pipes' sleeping and waking: a turn is what a reader or writer does from getting the lock to sleeping or returning.
- Recycling of a half-written buffer in the middle of a file-system call: it has the effect of recycling it before the call or after it, where `Evict` puts it.
- mkfs: the file system starts in any state that satisfies the invariant.
- Storage.Apply: clients of the cache log each change before they release the buffer, as all callers but a faulting writei() do; what that one leaves behind is modelled in `FsCache` and `FileSys`.
- FileCrash.CrashLeavesVersion: that locks give overlapping calls the effect of the history is not modelled; for calls that do not overlap SerialCarries asks only that each logs its own blocks.
- FileCrash.EndedIsDurable: the same.
- Vm.Kernel.Uvmunmap: with do_free the range is user memory, because the pages mapped above it belong to the kernel.
- ShellParser.Parser.ParseExec: the argument array that the parser goes on filling after redirections were wrapped around its command is a sequence passed along, not shared memory.
- Umalloc.Allocator.Malloc: requests are bounded so that the argument of sbrk() fits its int; addresses and sizes are counted in units of a header.
- Umalloc.Allocator.Session: the same bound on every request.
- Vm.Kernel.Copyout: like the source, it does not look at the write permission of a page.
