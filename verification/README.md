# xv6 with an MLFQ scheduler, and its small shell: a verified model

This project models the parts of the repository where something can go wrong over time
and proves what they promise. Kernel code that works in place is a class or a method
with loops, proved against a specification; protocols are state machines with an
invariant that every step keeps; the theorems are about every input, every run or every
reachable state. Verify it with `dafny verify dfyconfig.toml`.

| files | what they model |
|---|---|
| LogDisk, LogSystem, CommitBuffers, LogCode, BufferCache | the write-ahead log, crash recovery and the buffer cache |
| Mlfq, MlfqCode, Uniproc, Demotion, MlfqKernel | the multi-level feedback queue scheduler: any number of harts, then fairness and time slices on one |
| PageTable, AddressSpace, MapRange, Vm, FreeWalk, UserMemory, ProcMemory | physical pages, three-level page tables, user memory |
| LazyMemory, LazyEager, ProcTable, ProcRuns | `sbrk` lazy and eager, page faults, copies, fork and exit of many processes |
| FsBlocks, FsFiles, FsCode, FsIo, FsRuns, FsImage | block allocation, inodes, reading and writing, `filewrite`, `mkfs` |
| Umalloc, UmallocCode | the user-level allocator |
| Virtio, VirtioCode | the disk driver and its rings |
| Pipe, PipeCode | pipes with their sleeping readers and writers |
| Grep | the regular-expression matcher |
| Peek, Shell, Spelling, Redirect, ShellCode | the shell's reverse file printing, lexer, parser, redirections, pipelines and job loop |
| Options | a value or nothing, for all of them |

The page tables follow Sv39, section 4.4 of The RISC-V Instruction Set Manual, Volume II:
Privileged Architecture, version 20211203. The rings follow sections 2.6 and 5.2 of
Virtual I/O Device (VIRTIO) Version 1.1.

What the code does where its intention differs, each with its exact condition:

- `malloc` passes an `int` to `sbrk`, so a request above 0x7fff_ffe0 bytes that no free
  block can serve hands out a block that is not memory, or kills the process
  (`UmallocCode.Heap.Malloc`, `UmallocCode.RequestTooLarge`, `UmallocCode.FirstTooLarge`).
- A writer killed half-way through `pipewrite` does not wake a sleeping reader
  (`Pipe.StepWakes`, `Pipe.KilledWriterForgets`).
- `mkfs` rounds the root directory up past a block it never allocates when the directory
  fills its last block (`FsImage.Mkfs`, `FsImage.HoleImage`).
- A user access to the rest of the last page, beyond the process's size, tells lazy from
  eager growth (`LazyMemory.AccessIsObservable`, `LazyMemory.SlackDiffers`).
- A pipeline is turned back into text and lexed again without quotes, so only some words
  survive (`Shell.RelexingKeepsMeaning`, `Shell.QuotedSpaceIsLost`).
- `log_write` panics on a full log even for a block that is logged already
  (`LogSystem.LogWriteRefused`, `LogSystem.FullLogHappens`).
- The cache has as many buffers as the log has blocks, so a commit of a full log finds
  every buffer pinned and panics in `bget` (`CommitBuffers.CommitterGets`,
  `CommitBuffers.NoBufferHappens`).
- A foreground command that is not found, or `activities` with an argument, ends the
  whole line: the jobs behind it are never started, and its argument array is freed twice,
  which is undefined in C (`ShellCode.RunLine`, `ShellCode.NotFoundStopsTheLine`).
- Redirections are looked for in the bare texts, so a quoted `>` redirects
  (`Redirect.ReadAsWritten`, `Redirect.QuotedRedirection`).

## Model

| member | source | states |
|---|---|---|
| `LogDisk.HeaderRoundTrip` | xv6/kernel/log.c:88-116 | reading back a written log header gives the list that was written |
| `LogDisk.CrashesKeepView` | xv6/kernel/log.c:118-125 | any number of crashes at any write of recovery leaves the logical contents of every home block as they were |
| `LogDisk.RecoveryRestoresView` | xv6/kernel/log.c:67-125 | after any crashes a completed recovery makes the home blocks equal the logical contents, empties the log, and doing it again changes nothing |
| `LogDisk.CommitPoint` | xv6/kernel/log.c:181-206 | right after the header write the logical contents are those of the whole transaction |
| `LogDisk.CrashAtomicity` | xv6/kernel/log.c:67-206 | a crash after any prefix of commit's writes and any crashes in recovery end with all logged blocks new or all home blocks old, decided by the header write |
| `LogDisk.LogDevice.ReadHead` | xv6/kernel/log.c:88-99 | the in-memory list is the one in the header block |
| `LogDisk.LogDevice.WriteHead` | xv6/kernel/log.c:105-116 | exactly the header block is written, with the in-memory list |
| `LogDisk.LogDevice.WriteLog` | xv6/kernel/log.c:181-194 | the log area gets the cached contents in order; the header stays |
| `LogDisk.LogDevice.InstallTrans` | xv6/kernel/log.c:67-85 | every logged block is copied to its home, in order |
| `LogDisk.LogDevice.Commit` | xv6/kernel/log.c:196-206 | its disk writes are those of the crash theorem, and the home blocks end up committed with an empty log |
| `LogDisk.LogDevice.RecoverFromLog` | xv6/kernel/log.c:118-125 | the home blocks end up as the logical contents, with an empty log |
| `LogSystem.StepInv` | xv6/kernel/log.c:128-238 | every event of the cache and the log, by any thread, keeps the whole invariant |
| `LogSystem.CrashAnywhere` | xv6/kernel/log.c:67-206 | crash at any moment of any run: recovery gives the changes of exactly the committed operations, each whole |
| `LogSystem.BreadReturnsLatest` | xv6/kernel/bio.c:90-102 | a buffer that bread returned holds the result of all changes made so far |
| `LogSystem.CacheIsSound` | xv6/kernel/bio.c:57-153 | a block has at most one buffer, an unreferenced valid buffer equals its disk block, a logged block is cached and pinned |
| `LogSystem.TagsAreStable` | xv6/kernel/bio.c:57-88 | a referenced, locked or pinned buffer is never given to another block |
| `LogSystem.ProtocolSafety` | xv6/kernel/log.c:128-178 | no operation runs during a commit, the log never overflows, counts never go negative |
| `LogSystem.BeginAdmits` | xv6/kernel/log.c:128-144 | an operation never waits for an unused log; with ten blocks each in a log of thirty, one is admitted exactly when the logged blocks and ten for each running operation leave ten |
| `LogSystem.FullLogMeansSpent` | xv6/kernel/log.c:217-224 | while the log is full every running operation has used its whole reservation; what that means for log_write is in the next two rows |
| `LogSystem.LogWriteRefused` | xv6/kernel/log.c:217-238 | a log_write within its reservation is refused exactly when the log is full; then its block is logged already and every running operation has spent its reservation |
| `LogSystem.FullLogHappens` | xv6/kernel/log.c:217-224 | a reachable state with a full log in which a running operation holds a block that is logged already |
| `CommitBuffers.CommitterGets` | xv6/kernel/log.c:181-194 | the committer gets a buffer for its next log block exactly when that block is cached or some buffer is unreferenced; there is one when the cache has more buffers than logged blocks and buffers in use, there is none when it has as many as logged blocks, and while no thread refers to a buffer that alone decides |
| `CommitBuffers.NoBufferHappens` | xv6/kernel/bio.c:57-88 | a reachable commit, with as many buffers as log blocks, that has no buffer for its log block |
| `LogSystem.SyncWaits` | xv6/kernel/log.c:240-252 | sys_sync returns only after every operation that had ended before its call is installed, and at the latest after the next commit |
| `BufferCache.Bcache.constructor` | xv6/kernel/bio.c:35-52 | all buffers are on the circular list, unreferenced, with no tag |
| `BufferCache.Bcache.Bget` | xv6/kernel/bio.c:57-88 | a cached block is found; else the least recently used unreferenced buffer is recycled; else there is none |
| `BufferCache.Bcache.Brelse` | xv6/kernel/bio.c:116-137 | the count drops, and the last reference moves the buffer to the front of the list, whose links stay circular in both directions |
| `LogCode.LogControl.BeginOp` | xv6/kernel/log.c:128-144 | one pass is the begin event of the protocol or, exactly when that is not possible, a sleep |
| `LogCode.LogControl.EndOp` | xv6/kernel/log.c:146-166 | the end event; a commit starts exactly with the last operation |
| `LogCode.LogControl.CommitDone` | xv6/kernel/log.c:168-178 | the finish event of the protocol |
| `LogCode.LogControl.LogWrite` | xv6/kernel/log.c:217-238 | the list grows by the block unless it is absorbed, and a pin is taken exactly for a new block; the panics are ruled out up to a spent reservation |
| `LogCode.LogControl.SyncTarget` | xv6/kernel/log.c:240-252 | the commit count to wait for is the one of the protocol |
| `LogCode.BgetIsAnEvent` | xv6/kernel/bio.c:57-88 | what bget does to the buffers is a hit or a recycling event of the protocol |
| `Mlfq.StepInv` | xv6/kernel/proc.c:187-806 | every step of every hart, fork, failed fork, sleep, wakeup, kill and boost keeps the invariant |
| `Mlfq.Conservation` | xv6/kernel/proc.c:41-104 | in every interleaving a process is RUNNABLE exactly when it is in one queue slot or one scheduler's hand, never in two; the boost's array does not overflow; no process is on two harts |
| `Mlfq.EnqueueNeverPanics` | xv6/kernel/proc.c:41-55 | whoever is about to be made RUNNABLE has a legal level and a queue with room |
| `Mlfq.TookIsRunnable` | xv6/kernel/proc.c:544-568 | a dequeued process is RUNNABLE, so the scheduler never drops one |
| `MlfqCode.RunQueues.Enqueue` | xv6/kernel/proc.c:41-55 | the process joins the end of its queue; panics exactly for a bad level or a full queue, changing nothing |
| `MlfqCode.RunQueues.Dequeue` | xv6/kernel/proc.c:57-78 | the head is taken and the rest keeps its order |
| `MlfqCode.RunQueues.MergeQueues` | xv6/kernel/proc.c:80-104 | queue 0 holds all queued processes, level by level in order, the others are empty |
| `Uniproc.StepGood` | xv6/kernel/trap.c:81-92 | every event, also a tick that ends in the exit of a killed process, keeps the invariant of one hart, and level 0 changes only by losing its head to a dispatch and by arrivals at its end |
| `Uniproc.DispatchOrder` | xv6/kernel/proc.c:544-571 | over any run level 0 is served first come first served, across boosts and arrivals |
| `Uniproc.TurnComes` | xv6/kernel/proc.c:544-571 | the process at place i of level 0 runs after exactly i dispatches, at most NPROC - 1 |
| `Uniproc.NoStarvation` | xv6/kernel/trap.c:180-196 | in every run a waiting process is dispatched before NPROC + 47 timer ticks have interrupted others, whatever its level |
| `Uniproc.SlotsAndSlices` | xv6/kernel/proc.c:654-688 | a process in queue l has p->queue == l, and has used less than 1, 4, 8 or 16 ticks there |
| `Demotion.PlaceInRun` | xv6/kernel/proc.c:654-688 | in every run without a boost, a process that neither sleeps nor exits has its level and ticks from the timer ticks that interrupted it alone: level 1 after 1, level 2 after 4 more, level 3 after 8 more, a fresh slice there every 16 |
| `Demotion.SliceInRun` | xv6/kernel/proc.c:660-679 | from a fresh slice at any level: fewer than 1, 4, 8 or 16 ticks leave the level, that many bring the next one, or level 3 again |
| `Demotion.SliceEnds` | xv6/kernel/proc.c:673-682 | the last tick of a slice puts the process at the end of the queue of its next level and takes the CPU from it |
| `Demotion.WakeIs` | xv6/kernel/proc.c:762-779 | exactly the sleepers on the channel become runnable, and join the ends of the queues of their levels in table order |
| `MlfqKernel.Kernel.constructor` | xv6/kernel/proc.c:122-137 | boot: process 0 alone is runnable, in queue 0 |
| `MlfqKernel.Kernel.Wakeup` | xv6/kernel/proc.c:762-779 | exactly the sleepers on the channel become runnable, and join the ends of their queues in table order; nothing else changes |
| `MlfqKernel.Kernel.BoostPriority` | xv6/kernel/proc.c:80-104 | everybody is at level 0 with an unused slice, and all queued processes are in queue 0 in level order |
| `MlfqKernel.Kernel.YieldCpu` | xv6/kernel/proc.c:654-688 | one tick is charged: after the 1st, 4th, 8th at levels 0, 1, 2 the process is a level lower with a fresh slice, after the 16th at level 3 it has a fresh slice; it goes to the end of its queue exactly when its slice is over or a higher queue is not empty |
| `MlfqKernel.Kernel.ScheduleNext` | xv6/kernel/proc.c:529-571 | the head of the highest non-empty queue gets the CPU; the branch that drops a process is never taken |
| `MlfqKernel.Kernel.Clock` | xv6/kernel/trap.c:180-202 | the 32-bit tick counter goes on, sleepers on ticks wake up, and exactly at multiples of 48 everybody is back at level 0 with a fresh slice |
| `PageTable.PutTableInv` | xv6/kernel/vm.c:98-116 | hanging an empty page-table page into a tree keeps every page's single owner and changes no translation |
| `AddressSpace.Machine.constructor` | xv6/kernel/kalloc.c:26-40 | freerange frees every page once |
| `AddressSpace.Machine.Kalloc` | xv6/kernel/kalloc.c:65-82 | a page leaves the free list for the caller's hand, or the list is empty |
| `AddressSpace.Machine.Kfree` | xv6/kernel/kalloc.c:42-63 | the page in hand is on the free list again |
| `AddressSpace.Machine.Walk` | xv6/kernel/vm.c:98-116 | the table of the entry; with alloc it may add page-table pages, and no translation, user page or trapframe changes |
| `AddressSpace.Machine.MapOne` | xv6/kernel/vm.c:146-175 | one new translation and no other change; remap exactly when there is one already; out of memory only with fewer than two free pages |
| `AddressSpace.Machine.UnmapOne` | xv6/kernel/vm.c:193-213 | that translation is gone, a user page behind it is free, nothing else changes |
| `MapRange.Mappages` | xv6/kernel/vm.c:146-175 | after any outcome exactly the first `done` pages map consecutive physical pages and every other translation of every tree is as before; all of them unless a page is mapped already or memory runs out |
| `Vm.Uvmunmap` | xv6/kernel/vm.c:193-213 | exactly the range is unmapped and freed, for any mapping below it |
| `FreeWalk.EmptyTable` | xv6/kernel/vm.c:264-280 | every page-table page below is freed and no entry is left; a leaf is never met |
| `UserMemory.Uvmalloc` | xv6/kernel/vm.c:217-242 | all new pages, zeroed, or memory exactly as before; fails only with too few free pages |
| `UserMemory.Uvmdealloc` | xv6/kernel/vm.c:245-260 | exactly the pages above the new size are gone |
| `UserMemory.Vmfault` | xv6/kernel/vm.c:450-475 | a zero page at the faulting address exactly when it is below the size and not mapped, unless memory runs out |
| `UserMemory.Uvmcopy` | xv6/kernel/vm.c:292-326 | the child maps an equal copy of every mapped page, or nothing |
| `UserMemory.Poke` | xv6/kernel/vm.c:344-377 | a store through one mapping changes that page of that address space only |
| `ProcMemory.Freewalk` | xv6/kernel/vm.c:264-280 | the tree is gone and no other address space changes |
| `ProcMemory.Uvmfree` | xv6/kernel/vm.c:284-290 | the address space is gone and nothing else changes |
| `ProcMemory.Uvmcreate` | xv6/kernel/vm.c:179-188 | a new empty address space |
| `ProcMemory.ProcPagetable` | xv6/kernel/proc.c:264-294 | trampoline and trapframe mapped in a new empty address space, or everything as before |
| `ProcMemory.ProcFreepagetable` | xv6/kernel/proc.c:298-304 | the whole address space is gone and nothing else changes |
| `LazyMemory.FaultUnobservable` | xv6/kernel/vm.c:450-475 | a page fault that succeeds changes nothing a process can observe |
| `LazyMemory.AccessIsObservable` | xv6/kernel/trap.c:71-74 | a load or store depends only on the observable memory exactly when it is not in the slack of an unmapped last page |
| `LazyMemory.SlackDiffers` | xv6/kernel/vm.c:450-475 | one byte of memory, grown lazily or eagerly: reading byte 1 differs |
| `LazyMemory.ReachIs` | xv6/kernel/vm.c:344-405 | a copy moves as many bytes as are allowed and stops only at an address that is not |
| `LazyMemory.WrittenBytes` | xv6/kernel/vm.c:341-377 | what copyout leaves, byte by byte: the new bytes in their range and the old ones elsewhere |
| `LazyMemory.SbrkMeans` | xv6/kernel/sysproc.c:39-65 | sbrk in numbers, byte by byte: the new size, the result, bytes that stay, zeroes to read and write in new pages, nothing beyond, and the arguments that change nothing |
| `LazyMemory.Process.Sbrk` | xv6/kernel/sysproc.c:39-65 | lazy or eager, the size, the contents and the result are the same function of the observable memory, unless an eager call has too few free pages |
| `LazyMemory.Process.Copyout` | xv6/kernel/vm.c:341-377 | exactly the reachable prefix is written, and success means all of it |
| `LazyMemory.Process.Copyin` | xv6/kernel/vm.c:380-405 | exactly the reachable prefix is read, and success means all of it |
| `LazyMemory.Process.Load` | xv6/kernel/trap.c:71-79 | the byte, a zero from a page faulted in, or a kill |
| `LazyMemory.Process.Store` | xv6/kernel/trap.c:71-79 | the byte is written or the process is killed and nothing changes |
| `LazyEager.Step` | xv6/kernel/sysproc.c:39-65 | any memory operation acts on the observable memory alone, given as many free pages as its cost |
| `ProcTable.NoPageIsLost` | xv6/kernel/proc.c:187-304 | a page is free or belongs to some process's trapframe, page table or memory |
| `ProcTable.OneOwner` | xv6/kernel/proc.c:187-304 | and to one process only |
| `ProcTable.Procs.Allocproc` | xv6/kernel/proc.c:187-239 | a new process with an empty address space, or everything as before with fewer than six free pages |
| `ProcTable.Procs.Freeproc` | xv6/kernel/proc.c:244-260 | all of the process's pages are free again, no other process changes |
| `ProcTable.Procs.Fork` | xv6/kernel/proc.c:351-401 | the child has an equal copy of the parent's pages and size, or everything is as before |
| `ProcTable.Procs.Do` | xv6/kernel/vm.c:341-475 | a memory operation of one process is not noticed by any other |
| `ProcRuns.RunAll` | xv6/kernel/proc.c:187-401 | any run of allocations, forks, exits and memory operations, lazy or eager: given enough memory it is the run of the observable memories; in any case no page is lost or shared, and none is missing when all processes are gone |
| `ProcRuns.SameMeaning` | xv6/kernel/sysproc.c:39-65 | the meaning of a run does not depend on which calls are lazy |
| `ProcRuns.LazyIsEager` | xv6/kernel/sysproc.c:39-65 | two systems that observe the same and do the same, one lazily and one eagerly, get the same results and keep observing the same |
| `FsBlocks.OnePlace` | xv6/kernel/fs.c:406-445 | no disk block is reachable from two places |
| `FsBlocks.BitmapIsExact` | xv6/kernel/fs.c:67-107 | the bitmap marks exactly metadata, reachable blocks and what is in hand |
| `FsCode.Volume.Balloc` | xv6/kernel/fs.c:67-90 | the lowest free block, zeroed and marked; 0 exactly when the disk is full |
| `FsCode.Volume.Bfree` | xv6/kernel/fs.c:93-107 | the block is free again; it was in use, so there is no panic |
| `FsCode.Volume.Bmap` | xv6/kernel/fs.c:406-445 | the block of the file, added as zeroes if missing, no other file or block changes; every disk block and bitmap bit that changed is logged, and nothing but new blocks, their bitmap blocks and the indirect block |
| `FsCode.Volume.Itrunc` | xv6/kernel/fs.c:449-477 | the file is empty and exactly its blocks, indirect block included, are free again; exactly their bitmap blocks and the inode block are logged, which covers all that changed on the disk |
| `FsIo.Writei` | xv6/kernel/fs.c:522-565 | -1 exactly for an offset beyond the end or an end beyond 268 blocks; otherwise an in-place overwrite of the returned length, other files untouched, short only for a full disk or an unreadable source; every changed disk block, bitmap bit and inode is logged; within ten logged blocks for one chunk of a hole-free file |
| `FsIo.Budget` | xv6/kernel/file.c:148-165 | data, bitmap, indirect and inode blocks of one chunk fit the reservation of an operation |
| `FsIo.Readi` | xv6/kernel/fs.c:491-520 | the bytes of the file from the offset up to the count or the end of the file, none for an offset beyond the end or a range beyond 32 bits; reading a hole-free file changes nothing |
| `FsRuns.WroteIsSplice` | xv6/kernel/fs.c:522-565 | a complete write is a splice of the file's bytes |
| `FsRuns.Step` | xv6/kernel/fs.c:449-565 | one read, write or truncation is the operation on byte arrays unless the disk is full |
| `FsRuns.Run` | xv6/kernel/fs.c:449-565 | any run on any files is the run on independent byte arrays, given enough free blocks |
| `FsRuns.ReadOnIsRest` | xv6/kernel/fs.c:491-520 | reads of any size, one after the other until one returns nothing, return the rest of the file |
| `FsRuns.WriteTransaction` | xv6/kernel/file.c:155-165 | every chunk of filewrite stays within the log budget, and logs every block, bit and inode it changes |
| `FsRuns.TruncTransaction` | xv6/kernel/fs.c:449-477 | a truncation fits the reservation of one operation, whatever the file, on a disk of at most nine bitmap blocks |
| `FsRuns.Filewrite` | xv6/kernel/file.c:134-179 | all bytes written, or -1 with a prefix in place and the reason |
| `FsRuns.FileWrittenIsSplice` | xv6/kernel/file.c:134-179 | a complete filewrite is one splice, whatever its chunks |
| `FsImage.Builder.Ialloc` | xv6/mkfs/mkfs.c:226-238 | the next inode, with no blocks |
| `FsImage.Builder.Iappend` | xv6/mkfs/mkfs.c:256-300 | the file grows by exactly the data and no other file changes; fails only for a full image or file |
| `FsImage.DirectoryEntries` | xv6/mkfs/mkfs.c:121-161 | the root directory, read entry by entry: itself twice, then every file with its inode number and its padded name |
| `FsImage.WriteBitmap` | xv6/mkfs/mkfs.c:240-254 | exactly the blocks handed out are marked, all of them in the one bitmap block |
| `FsImage.RoundedHole` | xv6/mkfs/mkfs.c:169-174 | rounding up leaves a hole exactly when the size is a whole number of blocks |
| `FsImage.Mkfs` | xv6/mkfs/mkfs.c:72-179 | a volume that satisfies the invariant and holds the files and the directory, unless the image, its bitmap block or its inode blocks are too small or a file too large; fit for all that is proved of runs exactly when the directory does not fill its last block |
| `FsImage.HoleImage` | xv6/mkfs/mkfs.c:169-174 | an image with 62 files, whose root directory is two blocks long and lacks the second |
| `Umalloc.OneBlock` | xv6/user/umalloc.c:24-90 | every unit is in exactly one block |
| `Umalloc.FreedKeeps` | xv6/user/umalloc.c:24-44 | free keeps the list address-ordered and fully coalesced and the units partitioned |
| `Umalloc.RelinkedCircular` | xv6/user/umalloc.c:24-44 | the pointers that free writes are the circular list in address order |
| `UmallocCode.RequestFits` | xv6/user/umalloc.c:46-61 | morecore asks sbrk for what it needs exactly up to 0x7fff_ffe0 bytes |
| `UmallocCode.BreakIsSbrk` | xv6/kernel/proc.c:328-347 | the break the allocator sees is the size that sbrk leaves, growing, shrinking or wrapping |
| `UmallocCode.RequestTooLarge` | xv6/user/umalloc.c:46-61 | one byte more makes sbrk's argument -2^31: memory below 2 GB is unchanged, a larger one loses 2 GB, and sbrk returns the old size as if it had grown |
| `UmallocCode.FirstTooLarge` | xv6/user/umalloc.c:46-90 | that request on a fresh heap below 2 GB: malloc hands out 2 GB at a break that has not moved |
| `UmallocCode.Heap.Free` | xv6/user/umalloc.c:24-44 | the block joins the list merged with its neighbours; every other live block keeps its place and size |
| `UmallocCode.Heap.MoreCore` | xv6/user/umalloc.c:46-61 | for any request: a free block of its size, at least 4096 units, is recorded at the old break, which moves as sbrk moved it; or sbrk failed, or the header faulted, and the blocks are as before |
| `UmallocCode.Heap.Malloc` | xv6/user/umalloc.c:63-90 | for any request: a block that no live block overlaps, with room for the bytes behind its header and less than 16 to spare, after one morecore exactly when no free block is large enough; it is memory exactly when no morecore was needed or the request is at most 0x7fff_ffe0; 0 only when sbrk fails, with nothing changed |
| `UmallocCode.Heap.Run` | xv6/user/umalloc.c:24-90 | over any sequence of calls, up to one that goes wrong, the live blocks are exactly those the client holds, the bytes each asked for are its own, with no other block and no header in them, and all are memory; one goes wrong only for a request above 0x7fff_ffe0, and then its block is beyond the break or the process is dead |
| `UmallocCode.LiveApart` | xv6/user/umalloc.c:24-90 | live blocks overlap neither each other nor a free block, and are among the units the allocator asked for, below the top |
| `Virtio.StepInv` | xv6/kernel/virtio_disk.c:154-326 | every driver and device step keeps the invariant, with 16-bit indices that wrap |
| `Virtio.FreeIsComplement` | xv6/kernel/virtio_disk.c:154-212 | a descriptor is free exactly when it is in no chain, and in one chain at most |
| `Virtio.NoEntryOverwritten` | xv6/kernel/virtio_disk.c:214-291 | a new avail entry overwrites none that the device has not read |
| `Virtio.TransferIsRequest` | xv6/kernel/virtio_disk.c:214-291 | the device decodes a request as it was sent, for the first time |
| `Virtio.CompletionIsRequest` | xv6/kernel/virtio_disk.c:293-326 | the handler finds a good status and wakes the buffer of that very request |
| `Virtio.ExactlyOnce` | xv6/kernel/virtio_disk.c:214-326 | each request is transferred once and completed once, in that order |
| `VirtioCode.Driver.Alloc3` | xv6/kernel/virtio_disk.c:198-212 | three different free descriptors, or everything as before exactly when there are fewer |
| `VirtioCode.Driver.FreeChain` | xv6/kernel/virtio_disk.c:183-196 | exactly the three descriptors of the chain are free |
| `VirtioCode.Driver.Begin` | xv6/kernel/virtio_disk.c:214-280 | the submit step of the machine, or a sleep with nothing changed exactly when three are not free |
| `VirtioCode.Driver.Intr` | xv6/kernel/virtio_disk.c:293-326 | everything on the used ring is completed, in order, and nothing else |
| `VirtioCode.Driver.End` | xv6/kernel/virtio_disk.c:282-291 | the release step of a completed request |
| `Pipe.FullAndEmpty` | xv6/kernel/pipe.c:76-134 | the tests on wrapped 32-bit counters are the tests on the counts |
| `Pipe.StepWakes` | xv6/kernel/pipe.c:76-134 | a step leaves nobody asleep who could go on exactly when it is not the exit of a killed writer that has written something while a reader sleeps |
| `Pipe.DeliveredInOrder` | xv6/kernel/pipe.c:58-134 | in every run what was delivered is a prefix of what was written, at most PIPESIZE bytes behind |
| `Pipe.NobodyForgotten` | xv6/kernel/pipe.c:58-134 | in every run without such an exit no reader sleeps on data or a closed pipe and no writer on room or a closed pipe |
| `Pipe.KilledWriterForgets` | xv6/kernel/pipe.c:84-87 | a run of four events that ends with a sleeping reader, a byte in the pipe and no writer |
| `PipeCode.Ring.WriteStretch` | xv6/kernel/pipe.c:76-103 | the bytes between two sleeps go into the ring in order, and the loop stops for the reason the model allows |
| `PipeCode.Ring.ReadStretch` | xv6/kernel/pipe.c:105-134 | the oldest bytes come out in order, with the result of piperead |
| `Grep.Matchhere` | xv6/user/grep.c:84-97 | true exactly when the text begins with a string of the pattern's language |
| `Grep.Matchstar` | xv6/user/grep.c:99-108 | true exactly when a run of c and then the rest of the pattern match here |
| `Grep.Match` | xv6/user/grep.c:72-82 | true exactly when some place, or only the start after ^, begins a match |
| `Peek.SplitJoins` | c-shell/src/peek.c:125-215 | the segments hold no newline and joined by newlines are the file |
| `Peek.LabelledAt` | c-shell/src/peek.c:81-88 | the number of a line is the first one plus the lines before it that are not blank, and blank lines have none |
| `Peek.CountPass` | c-shell/src/peek.c:126-139 | the number of lines that are not blank |
| `Peek.Forward` | c-shell/src/peek.c:81-88 | every line, with consecutive numbers for those that are not blank |
| `Peek.Reverse` | c-shell/src/peek.c:125-215 | for every file and every chunk size exactly the segments in reverse, an empty first one left out, each with its forward number |
| `Peek.ReverseOfForward` | c-shell/src/peek.c:81-215 | reverse output is forward output backwards, but for the empty segment after a last newline and an empty first line |
| `Shell.RelexingKeepsMeaning` | c-shell/src/main.c:540-557 | an accepted segment written out, cut at its bars and lexed again gives its stages exactly when every word is non-empty, does not start with a carriage return, and has no other white space, operator, quote or backslash |
| `Shell.GroupsAccepted` | c-shell/src/pipe.c:445-459 | every stage of an accepted segment is accepted by the parser again |
| `Shell.GroupsJoin` | c-shell/src/pipe.c:350-379 | the stages with pipes between them are the segment, and no stage has a pipe |
| `Spelling.LexIsSpelling` | c-shell/src/lexer.c:47-251 | the lexer accepts exactly the lines that are rows of words and operators with blanks between them, words in bare, escaped, single- and double-quoted pieces, and reads them as what the pieces mean |
| `Shell.QuotedSpaceIsLost` | c-shell/src/pipe.c:350-379 | the line of a quoted `a b` piped to `wc` is accepted and does not come back from its text |
| `ShellCode.Lexer` | c-shell/src/lexer.c:47-251 | the tokens and the verdict of the state machine, for every line |
| `ShellCode.Parser` | c-shell/src/parser.c:14-47 | accepts exactly the lists in which every operator is between two words, or is a last `&` |
| `ShellCode.Split` | c-shell/src/main.c:661-777 | the jobs are, in order, all stretches of tokens between `;` and `&` that are not empty, in the background exactly when `&` follows |
| `ShellCode.JobsAreStretches` | c-shell/src/main.c:661-777 | the same of the cut on which the other results on jobs are stated |
| `ShellCode.JobsKeepTokens` | c-shell/src/main.c:661-777 | the jobs hold all other tokens of the line in order |
| `ShellCode.JobsAccepted` | c-shell/src/main.c:655-680 | every job of an accepted line is accepted by the grammar on its own |
| `ShellCode.BuildLine` | c-shell/src/main.c:540-557 | the buffer holds the words and operators with single spaces and a NUL; refused exactly when they do not fit |
| `ShellCode.Commands` | c-shell/src/pipe.c:350-379 | the non-empty pieces between bars; refused exactly when there are more than 256 |
| `ShellCode.Stage` | c-shell/src/pipe.c:445-459 | the tokens of a stage, or an exit exactly when lexing fails, finds nothing, or the grammar refuses |
| `ShellCode.Pipeline` | c-shell/src/main.c:681-730 | the stages that run are those written exactly when every word survives, and then it is refused only for its size |
| `ShellCode.LineJobs` | c-shell/src/main.c:644-683 | every job of every accepted input line meets the conditions of the pipeline theorem, free of NUL included |
| `ShellCode.HasPipe` | c-shell/src/main.c:530-539 | true exactly when the job has a pipe |
| `Redirect.CleanArgs` | c-shell/src/main.c:346-354 | the texts without redirections and the text behind each |
| `Redirect.FindFiles` | c-shell/src/redirection.c:12-145 | the files of one direction in order, or nothing when a redirection is the last text |
| `Redirect.MeantAt` | c-shell/src/redirection.c:12-145 | what was written, by position: every redirection has the file behind it, for appending exactly for `>>`, and the other words are the arguments |
| `Redirect.ReadAsWritten` | c-shell/src/main.c:328-446 | what runs has the arguments and files that were written exactly when no word has the text of a redirection, unless it is the file of one in the same direction; a built-in command in the background does not run |
| `Redirect.KeptUnmistaken` | c-shell/src/pipe.c:28-79 | the words that survive a pipeline's text are never taken for redirections |
| `Redirect.QuotedRedirection` | c-shell/src/main.c:731-739 | the line that echoes a quoted `>` and `x` writes to x instead |
| `ShellCode.RunLine` | c-shell/src/main.c:644-777 | a line is refused exactly when lexing or the grammar refuses it or it is empty; otherwise the jobs start in order up to the first foreground command that returns 1, all of them exactly when no job before the last does; each is a command read from its bare texts or a pipeline, with the exact conditions under which they run as written; arguments are freed twice exactly when a job stops the line |
| `ShellCode.NotFoundStopsTheLine` | c-shell/src/main.c:740-765 | `nosuch ; ls` has two jobs, and one is started |

## Left out

- Assembly, registers, interrupts and the weak memory model: a critical section under a lock is one atomic step.
- The FIFO and round-robin schedulers: a minimum scan and a plain loop.
- `boost_priority` on several harts: `Mlfq` has its two halves as separate events; fairness is proved for one hart.
- The panic "bget: no buffers" outside a commit: it is an outcome of `Bget`, not ruled out.
- The encoding of page-table entries as bits, and the kernel's own page table: entries are records; `kvmmake` is not part of this model.
- `exec` and `copyinstr`: not part of this model; `copyinstr` does not fault lazily grown pages in, so it is not among the operations for which lazy equals eager.
- The kill of a process after a failed access: the run simply goes on with any events, which includes all runs with the kill.
- `MapRange.Mappages`: works on page numbers, so the panics for unaligned addresses are not in it, and on user slots with pages in hand, as ownership of a page is part of the model; ranges of device or kernel memory belong to the kernel's own page table.
- Order of freeing: a page-table entry, block number or parent entry is cleared before the page or block behind it is freed, where the source frees first; both happen under the same lock.
- `FsImage.Mkfs`: has no image for more files than the inode blocks hold inodes for; `mkfs` does not notice, and writes those inodes over the blocks that follow: first the bitmap block, which it overwrites in turn at the end, then data blocks.
- `FsImage.Builder.Ialloc`: likewise only hands out inodes that the inode blocks hold.
- Bitmap bits and inodes packed in blocks: bits are booleans and inodes records, with the block numbers that are logged.
- Directories, path names, link counts, `iget`, `iput` and inode locks: reads, writes and truncations of one inode are atomic.
- The device's failures: every transfer succeeds, and a buffer has one request at a time, as its sleep lock makes sure.
- `virtio_disk_init`: all descriptors start free.
- Closing a pipe end while a process is inside a read or write through it: the file's reference count prevents it.
- Headers of the allocator overwritten by its user, and alignment: addresses are counted in units of 16 bytes.
- What a client does after `malloc` has handed it a block that is not memory: the run of `UmallocCode.Heap.Run` ends there.
- Size fields of the allocator above 2^32 units: a heap of 64 GB.
- The line buffer of `grep` around the matcher.
- Words longer than the lexer's 4096-byte buffer, and lines with a NUL inside.
- Files with a NUL, reading errors and files that change while `peek` reads them.
- Job control, processes and the other built-in commands of the shell, and opening and copying redirected files: thin layers over the operating system. Whether a command is found is an input of `ShellCode.RunLine`.
- What the shell does after it has freed an array twice: `ShellCode.RunLine` says that it did.
- The other branches of `filewrite`, and `fileread`: they only pass on.
