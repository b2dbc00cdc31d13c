# A verified model of a small SMP kernel

This project models the concurrent core, the memory managers and the file reader of a small
x86 teaching kernel in Dafny, and proves what they promise in every run and for every input.

- **Heap** (`Tiling`, `FreeList`, `BestFit`, `Heap`). The boundary-tag allocator works in
  place on an array of words. The same words are read as a tiling with signed sizes, as a
  doubly linked free list and as user payload; the class keeps all three readings in
  agreement across malloc, free and realloc.
- **Scheduler and semaphores** (`Scheduler`, `Scheduling`, `SchedulerSteps`,
  `SchedulerSafety`, `Queue`, `InterruptLock`). `block()`, the context switch, the timer, the
  reaper and `Semaphore` are a step machine over any number of cores and threads. The
  invariant is kept by every step; from it follow the placement of every thread, the safety
  of saved contexts, and that each semaphore is an atomic counter.
- **What is built on semaphores** (`Counter`, `Counting`, `BoundedBuffer`, `Turnstiles`,
  `ReusableBarrier`). Each is a machine of single statements over any number of threads;
  its semaphores are the counter that the kernel's semaphores are proved to be.
- **Virtual memory** (`Paging`, `Translation`, `AddressSpaces`, `Vmm`). Every physical frame
  plays one role; the class runs the allocator, map, unmap, make_pd, delete_pd, the page
  fault, fork and the sweep of execl in place and keeps that ownership.
- **Files** (`BlockIO`, `Inode`, `Ext2`, `Path`). Reads through two stacked layers of blocks
  return slices of one flat sequence of bytes; directories and paths are read from those.
- **Formatted output** (`FormatInt`, `Printf`). The eight-state loop of `dopr` prints the
  recursive meaning of a format, and integers read back from their text.

Where code and comments of the original disagree the model follows the code: `delete_pd`
leaves the user frames allocated, `realloc` frees the old block even when it fails, `read`
beyond the end of a file moves the offset back by one, `fmtint` gives a shorter field when
the flag 0 meets a longer precision, and a request for nearly 4 GB wraps in `malloc`. Each of
these is stated exactly, with the condition under which the promise does hold and an
instance where it does not.

`dafny verify dfyconfig.toml` checks the whole project.

## Model

| member | source | states |
|---|---|---|
| `Tiling.InitialIsWellFormed` | kernel/heap.cc:134-136 | heapInit leaves a well-formed tiling: taken sentinels at both ends, one available block between, nothing live |
| `Tiling.TilesExactly` | kernel/heap.cc:29-35 | in every well-formed tiling each word of the array lies in exactly one block |
| `Tiling.NeverAdjacentAvailable` | kernel/heap.cc:210-219 | no two adjacent blocks are both available |
| `Tiling.LeftNeighbour` | kernel/heap.cc:61-67 | every block but the first ends exactly one other block: left() and right() are inverse |
| `Tiling.AllocBlocks` | kernel/heap.cc:178-184 | splitting or taking a block changes that block and adds at most the rest, nothing else |
| `Tiling.AllocKeepsTiling` | kernel/heap.cc:176-186 | the tiling stays well formed and exactly one block becomes live |
| `Tiling.MergedSize` | kernel/heap.cc:205-221 | free() builds one block from the freed one and exactly its available neighbours |
| `Tiling.OtherBlock` | kernel/heap.cc:205-221 | every block outside the merged one survives with its size |
| `Tiling.ReleaseKeepsTiling` | kernel/heap.cc:205-221 | coalescing both ways keeps the tiling well formed and ends exactly one life |
| `Tiling.ReleaseUndoesAlloc` | kernel/heap.cc:176-222 | malloc followed by free of the result restores the exact previous tiling |
| `Tiling.FreeingAllRestoresInitial` | kernel/heap.cc:191-222 | freeing all live blocks, in any order, restores the single block of heapInit |
| `FreeList.UnlinkThreads` | kernel/heap.cc:85-99 | remove() takes entry k, and only it, out of the list threaded through the free blocks |
| `FreeList.PushThreads` | kernel/heap.cc:101-110 | makeAvail() puts the block in front of the list, prev staying the inverse of next |
| `FreeList.TakeKeeps` | kernel/heap.cc:112-115 | writing the two tags of a block disturbs no list link and no word of another block |
| `FreeList.InitialImage` | kernel/heap.cc:134-136 | after heapInit the words represent the initial tiling with the list [2] |
| `FreeList.AllocWhole` | kernel/heap.cc:182-184 | taking a whole block: tags, list and tiling agree again |
| `FreeList.AllocSplit` | kernel/heap.cc:179-182 | splitting: tags, list and tiling agree again and the rest is in front of the list |
| `FreeList.ReleaseImage` | kernel/heap.cc:205-221 | free(): tags, list and tiling agree again, with the merged block in front of the list |
| `BestFit.FittingIsComplete` | kernel/heap.cc:164-171 | no large enough block of the list is missed |
| `BestFit.SmallestIsEarliestMinimum` | kernel/heap.cc:164-168 | the chosen block is the earliest smallest of the candidates |
| `BestFit.SearchEnd` | kernel/heap.cc:155-174 | the loop ends with the earliest smallest among the first twenty fitting blocks, or with none only if no block of the list fits |
| `BestFit.TrueBestFit` | kernel/heap.cc:156-173 | with at most twenty fitting blocks the choice is a best fit over the whole list |
| `BestFit.FirstFit` | t0.dir/sbin/heap.c:136-156 | the user-side rule takes the first block that is large enough |
| `HeapModule.NothingFits` | kernel/heap.cc:158-176 | if the list has no large enough block then no block at all is large enough |
| `HeapModule.GrantHoldsRequest` | kernel/heap.cc:145-146 | a granted block holds the bytes asked for if and only if the request is at most 0xFFFFFFFC; it wastes at most three words |
| `HeapModule.LargestRequestWraps` | kernel/heap.cc:145-146 | a request of 0xFFFFFFFF bytes asks for four words, because bytes + 3 wraps |
| `HeapModule.PayloadIsFree` | kernel/heap.cc:185 | writing inside the payload of a live block disturbs neither tags, list nor another block |
| `HeapModule.FreshBlock` | kernel/heap.cc:176-186 | the block of a successful request up to 0xFFFFFFFC bytes is live, large enough, and none of the blocks live before |
| `HeapModule.Heap.MakeTaken` | kernel/heap.cc:112-115 | the in-place writes are those of the specification |
| `HeapModule.Heap.MakeAvail` | kernel/heap.cc:101-110 | the in-place writes are those of the specification |
| `HeapModule.Heap.Remove` | kernel/heap.cc:85-99 | the in-place writes are those of the specification |
| `HeapModule.Heap.constructor` | kernel/heap.cc:126-136 | from 32 bytes on, heapInit establishes the heap invariant, the initial tiling and the list [2] |
| `HeapModule.Heap.Search` | kernel/heap.cc:150-174 | the search loop finds the earliest smallest candidate, or none only if nothing in the list fits |
| `HeapModule.Heap.Carve` | kernel/heap.cc:176-186 | remove, makeTaken and makeAvail of the rest take the tiling to Alloc and touch no word of another live block |
| `HeapModule.Heap.Malloc` | kernel/heap.cc:140-189 | fails exactly when no block is large enough; otherwise grants the earliest smallest candidate; keeps the invariant and every word of every live block |
| `HeapModule.Heap.Merge` | kernel/heap.cc:205-219 | takes exactly the available neighbours out of the list and gives the start and the size of the one block to be, all other taken blocks untouched |
| `HeapModule.Heap.Free` | kernel/heap.cc:191-222 | panics exactly on a block that is not live; otherwise the tiling becomes Release, and every word of every other live block is kept |
| `HeapModule.Heap.MallocFirstFit` | t0.dir/sbin/heap.c:125-161 | as Malloc, with the first large enough block of the list |
| `HeapModule.Heap.Memcpy` | t0.dir/sbin/heap.c:213 | copies the bytes and writes nothing else |
| `HeapModule.Heap.Realloc` | t0.dir/sbin/heap.c:193-218 | fails exactly when no block is large enough; on success the result is the first fitting block of the list before, the old block is freed after it, the first min(newSize, old payload) bytes are kept; on failure the old block is freed all the same; every other live block keeps its words |
| `HeapModule.ReallocLosesBlock` | t0.dir/sbin/heap.c:210-217 | a realloc that fails, on a heap of eight words, after which the block is free |
| `Scheduling.TouchedSuffices` | kernel/threads.h:92-127 | cores, threads and semaphores that a step does not touch keep the invariant, whatever the interleaving |
| `SchedulerSteps.StepKeepsInv` | kernel/threads.h:92-127 | every step of every core keeps the scheduler invariant; the doc comment of each step in Scheduler.dfy names its source lines |
| `SchedulerSafety.BootedInv` | kernel/threads.cc:77-86 | the state after threadsInit satisfies the invariant, for any number of cores and semaphores |
| `SchedulerSafety.RunKeepsInv` | kernel/threads.h:92-127 | so does every state of every run, for any number of cores and threads and any interleaving |
| `SchedulerSafety.NeverInTwoPlaces` | kernel/threads.h:92-127 | no thread is in two of: a core or its handoff, readyQ, zombies, a wait queue, an unfinished up, a reaper |
| `SchedulerSafety.AlwaysInOnePlace` | kernel/threads.h:92-127 | a thread that is not idle is in some place until it is deleted, and in none after; an idle thread never leaves its core |
| `SchedulerSafety.DeletedForGood` | kernel/threads.cc:37-43 | a thread comes to be deleted only by the step that deletes it, and stays deleted |
| `SchedulerSafety.EveryCoreMoves` | kernel/threads.h:92-127 | the step the code prescribes for a core is enabled, except for an idle thread that must block while nothing is ready, one that waits on a semaphore, and a lock that is taken |
| `SchedulerSafety.NoSharedStack` | kernel/threads.h:112-126 | two cores never execute on the stack of one thread |
| `SchedulerSafety.SavedUnlessRunning` | kernel/context.s:9-18 | a context is in its save area exactly while no core needs its registers |
| `SchedulerSafety.ResumedOnlyWhenSaved` | kernel/context.s:55-65 | a thread is resumed only with its context saved, and from the one switch that holds it |
| `SchedulerSafety.DeletedOnlyWhenSaved` | kernel/threads.cc:37-43 | a thread is deleted only after its context is saved and every core has left its stack |
| `SchedulerSafety.HeldWherePlaced` | kernel/threads.h:92-127 | the bookkeeping of where a thread is agrees with the cores, queues and operations that hold it |
| `SchedulerSafety.RequestIsKept` | kernel/threads.h:92-127 | what a thread asked of block() stays with its core, and with the thread, until the handler runs, whatever core moves |
| `SchedulerSafety.ThreadsGoWhereAsked` | kernel/threads.cc:100-118 | the handler puts the thread where it asked to go; readyQ and zombies are served in order, and only yield, preemption, creation, up and stop add to them |
| `SchedulerSafety.TimerNeverReenters` | kernel/pit.cc:145-147 | throughout block() the active thread is marked or interrupts are off, so the timer cannot enter it again; it never interrupts a semaphore section |
| `SchedulerSafety.OneLockHolder` | kernel/atomic.h:250-260 | two threads that hold the lock of one semaphore are the same |
| `SchedulerSafety.LockHeldAcrossSwitch` | kernel/semaphore.h:31-38 | the lock is held, with the count at zero, from the test in down until the next stack has queued the thread, whose context is saved by then |
| `SchedulerSafety.DownReturnsWithToken` | kernel/semaphore.h:40-41 | down returns only with a token and with interrupts still off |
| `SchedulerSafety.InterruptsRestored` | kernel/semaphore.h:22-57 | the interrupt state found by down or up survives every step of every core and is restored at the end |
| `SchedulerSafety.SemaphoreAccounts` | kernel/semaphore.h:19-57 | initial + ups = count + granted; a positive count means no waiter; waiters are granted in the order they were queued |
| `SchedulerSafety.StepCounts` | kernel/semaphore.h:19-57 | each step changes the count by exactly its tokens taken and returned |
| `SchedulerSafety.TokensGoToWaiters` | kernel/semaphore.h:24-25 | every token goes to a thread that is inside down on that semaphore and has none yet |
| `SchedulerSafety.RunRefinesCounter` | kernel/semaphore.h:19-57 | every run, projected on one semaphore, is a run of an atomic counter: nothing is taken below zero, lost, made up or handed out twice |
| `QueueModule.Queue.Add` | kernel/queue.h:23-32 | add appends to the linked list, in place |
| `QueueModule.Queue.Remove` | kernel/queue.h:34-45 | remove returns the first thread and leaves the others in order, null when empty |
| `QueueModule.Queue.RemoveAll` | kernel/queue.h:47-53 | remove_all empties the queue and hands over the whole chain in order |
| `QueueModule.ChainIndex` | kernel/queue.h:8-9 | the next fields lead through the items in order and end in null |
| `InterruptLock.StepKeepsInv` | kernel/atomic.h:200-232 | every access of every core keeps the invariant of InterruptSafeLock |
| `InterruptLock.LockIsSafe` | kernel/atomic.h:214-231 | in every run at most one core holds the lock; it has interrupts off; was is its own flag once recorded; unlock restores exactly that flag |
| `BoundedBuffer.SlotExact` | kernel/bb.h:28 | (head + n) % N is the right position for all head and n below N if and only if N is at most 2^31 |
| `BoundedBuffer.SlotIff` | kernel/bb.h:28 | for one head and n it is right if and only if the sum fits 32 bits |
| `BoundedBuffer.MutualExclusion` | kernel/bb.h:27-30 | at most one thread is between lock.down and lock.up |
| `BoundedBuffer.StepKeepsInv` | kernel/bb.h:25-44 | every statement of every put and get keeps the invariant |
| `BoundedBuffer.RingShift` | kernel/bb.h:38-39 | moving head drops exactly the first value of the ring |
| `BoundedBuffer.FirstInFirstOut` | kernel/bb.h:25-44 | in every run, for N up to 2^31 or as long as no put meets a sum that wraps: the values got are, in lock order, a prefix of the values put; 0 <= n <= N; nEmpty + nFull + threads in flight = N |
| `BoundedBuffer.NoLostWakeup` | kernel/bb.h:25-44 | when no thread can move, callers of put wait only on a full buffer and callers of get only on an empty one |
| `Barrier.StepKeepsInv` | kernel/barrier.h:20-29 | the token is in the semaphore or with one thread: none before release, one after |
| `Barrier.NoEarlyReturn` | kernel/barrier.h:16-29 | no sync returns before all arrived; the count goes negative exactly when one thread too many arrives, at once for a size of zero or above 2^31 |
| `Barrier.NobodyLeftBehind` | kernel/barrier.h:20-29 | when no thread inside can move, nobody is inside or not all have arrived and all who did are waiting |
| `Future.StepKeepsInv` | kernel/future.h:27-39 | value, flag and token appear in this order and stay |
| `Future.GetReturnsTheValue` | kernel/future.h:27-39 | every get returns the value given to set |
| `Future.NobodyLeftBehind` | kernel/future.h:33-39 | when no thread inside can move, nobody is inside or the value was never set |
| `ReusableBarrier.StepKeepsInv` | kernel/barrier.h:48-67 | every statement of sync, wait and notifyAll keeps the invariant, including arrivals = epoch * N + (N - count) |
| `ReusableBarrier.StepKeepsRound` | kernel/barrier.h:53-60 | the threads of the current round are as many as the arrivals in it |
| `ReusableBarrier.LeavesAfterItsRound` | kernel/barrier.h:48-67 | arrival k belongs to round k / N; a thread of round t leaves only after (t + 1) * N arrivals; a size of zero fails at the first call |
| `ReusableBarrier.NoMissedSignal` | kernel/condition.h:56-112 | after a round has ended and notifyAll is over no thread of it is queued, not even one caught between unlock and lock |
| `ReusableBarrier.NobodyLeftBehind` | kernel/barrier.h:48-67 | when no thread inside can move, the lock is free and those inside are queued, of the current round, and fewer than N |
| `Paging.AllocKeepsInv` | kernel/physmem.cc:20-41 | an allocated frame was free or untouched, is zeroed, and is referred to by nothing; every other role stays |
| `Paging.DeallocKeepsInv` | kernel/physmem.cc:43-51 | a frame that nothing refers to joins the free list; every other role stays |
| `Paging.StoreTable` | kernel/vmm.cc:23-26 | a new table gets the one role of that directory entry |
| `Paging.ChangeEntry` | kernel/vmm.cc:27-28 | setting or clearing one table entry keeps the ownership invariant |
| `Paging.NewDirectory` | kernel/vmm.cc:45-51 | a directory with the shared kernel half and an empty private half keeps it too |
| `Paging.DropProcess` | kernel/vmm.cc:59-65 | the frames of a process that goes lose their roles and nobody else does |
| `Paging.MapSharedFirst` | kernel/vmm.cc:74-76 | the kernel map grows by one page through a new table |
| `Translation.UserWalk` | kernel/vmm.cc:19-29 | where the two-level walk of a private page ends |
| `Translation.MappedPageIsOwned` | kernel/vmm.cc:19-29 | a mapped private page is a device page at its own address or a frame owned by exactly that page of that process |
| `Translation.NoSharedFrames` | kernel/vmm.cc:45-57 | two mapped private pages, devices apart, never lie on one frame, nor on a free, untouched, table or directory frame |
| `Translation.NoSharedTables` | kernel/vmm.cc:19-29 | two private directory entries lead to one table only if they are the same entry of the same process; that table is neither free, untouched, nor a directory |
| `Translation.NoSharedDirectories` | kernel/vmm.cc:45-57 | no two processes have one directory, and it is neither free, untouched, nor the shared one |
| `Translation.KernelHalfIsIdentity` | kernel/vmm.cc:74-76 | every process sees physical memory at its own addresses and nothing else below 2 GB |
| `Translation.EntryMapsOnePage` | kernel/vmm.cc:27-28 | writing one table entry changes the translation of one page of one process |
| `Translation.MapUser` | kernel/vmm.cc:19-29 | after map, va translates to pa and no other page of any process is affected, even when a table was allocated |
| `Translation.UnmapUser` | kernel/vmm.cc:31-43 | after unmap, va is not mapped, no other page is affected, and its frame is free |
| `Translation.Counted` | kernel/physmem.cc:25-34 | alloc_frame can give exactly the frames on the list and the untouched ones |
| `Translation.MapCounts` | kernel/vmm.cc:19-29 | map takes a frame exactly when the directory has no table there, and adds that table |
| `AddressSpaces.PaidCopies` | kernel/sys.cc:101-104 | a page copied by fork takes one frame, or two when it is the first of its table in the child |
| `AddressSpaces.ForkIsAPrivateCopy` | kernel/sys.cc:96-108 | the child maps exactly the private pages of the parent, with equal contents, on frames of its own; the parent is unchanged |
| `AddressSpaces.TearEnds` | kernel/vmm.cc:59-65 | after delete_pd the directory and the tables of the process are free, its user frames referred to by nothing, and every other frame plays the role it did |
| `AddressSpaces.OwnedPageIsMapped` | kernel/vmm.cc:19-29 | a frame owned by a private page is what that page translates to |
| `AddressSpaces.LosesNothingIff` | kernel/vmm.cc:59-65 | delete_pd loses no frame if and only if the process has nothing but the devices mapped in its private half |
| `VmmModule.Vmm.constructor` | kernel/vmm.cc:70-72 | PhysMem::init and the first allocation establish the ownership invariant |
| `VmmModule.Vmm.AllocFrame` | kernel/physmem.cc:20-41 | in place; panics exactly when the list is empty and nothing is untouched |
| `VmmModule.Vmm.DeallocFrame` | kernel/physmem.cc:43-51 | in place; the frame becomes the head of the free list |
| `VmmModule.Vmm.Map` | kernel/vmm.cc:19-29 | in place; allocates a table exactly when the directory entry is absent |
| `VmmModule.Vmm.MapPrivate` | kernel/sys.cc:18-28 | a private page of a process: invariant kept, that page mapped, no other affected |
| `VmmModule.Vmm.Unmap` | kernel/sys.cc:29-41 | the page is unmapped, its frame freed if it was mapped, no other page affected |
| `VmmModule.Vmm.GlobalInit` | kernel/vmm.cc:74-76 | completes the kernel half exactly when there is a frame for each of its page tables |
| `VmmModule.Vmm.MakePd` | kernel/vmm.cc:45-57 | succeeds exactly when there are frames for the directory and the tables of the devices; the new space holds the kernel half and the devices and nothing else; the others are unaffected |
| `VmmModule.Vmm.DeletePd` | kernel/vmm.cc:59-65 | the loop leaves what TearEnds says, and loses no frame exactly when nothing but the devices was mapped |
| `VmmModule.FaultThenExit` | kernel/vmm.cc:59-65 | a process that faults in a page and ends loses its frame |
| `VmmModule.Vmm.PageFault` | kernel/vmm.cc:93-110 | succeeds exactly at or above 2 GB with a frame for the page and, if need be, one for its table; it then maps a zeroed frame that was unused, and no other page changes |
| `VmmModule.Vmm.Fork` | kernel/sys.cc:92-108 | succeeds exactly when there are frames for the new space, the copies and their tables; the nested loops then leave the state of ForkIsAPrivateCopy |
| `VmmModule.Vmm.ExecSweep` | kernel/sys.cc:126-140 | the nested loops leave only the devices mapped in the private half, and the free list longer by exactly the number of pages unmapped |
| `BlockIO.ReadBlock` | kernel/ext2.cc:183-203 | a file block is the disk block its direct or indirect number names, read through the disk driver |
| `BlockIO.ReadNumber` | kernel/ext2.cc:188-195 | the number of a block is direct, or the right word of the indirect block |
| `BlockIO.Read` | kernel/block_io.cc:6-33 | -1 beyond the end, 0 at the end, else the bytes of one block from the offset on, and nothing else is written |
| `BlockIO.ReadAll` | kernel/block_io.cc:35-47 | fills the buffer with exactly min(n, size - offset) bytes across blocks, on both layers; 0 for an empty request even beyond the end |
| `BlockIO.FlatAt` | kernel/ext2.cc:183-203 | byte i of the concatenated blocks is byte i % size of block i / size |
| `BlockIO.SliceOfContents` | kernel/block_io.cc:35-47 | what is read through both layers is a slice of the one flat sequence of the file |
| `BlockIO.ConsecutiveSlices` | kernel/sys.cc:255-260 | successive reads return consecutive slices without gap or overlap up to the end |
| `BlockIO.ReadEach` | kernel/sys.cc:255-261 | one read call for each size: together they return the slice of the file from the first offset on, and the offset ends behind it |
| `BlockIO.FileDescriptor.Read` | kernel/sys.cc:255-261 | from an offset in range: the next slice, and the offset moves behind it; from beyond the end: -1, and the offset moves one back |
| `BlockIO.ReadBeyondEnd` | kernel/sys.cc:255-261 | a read one byte beyond the end of a file, which gives -1 and moves the offset back |
| `Inode.NodesApart` | kernel/ext2.cc:99-108 | two i-nodes never share a byte when the tables of the groups do not overlap |
| `Inode.GetNode` | kernel/ext2.cc:96-114 | the node, and whether it is a directory, are decoded from the 128 bytes at its place in the table of its group |
| `Inode.SmallFile` | kernel/ext2.cc:186-199 | a file within the reach of the direct and the indirect block is too small for directory offsets to wrap |
| `Ext2.RecordReadsBack` | kernel/ext2.h:188-198 | the fields of a directory record are found where it was laid out |
| `Ext2.ParseReadsBack` | kernel/ext2.h:184-203 | reading a well-formed directory gives back exactly its entries, in order |
| `Ext2.Entries` | kernel/ext2.h:184-203 | the loop over any directory is Parse, with failed assertions and records of length zero |
| `Ext2.Find` | kernel/ext2.cc:205-215 | find is the lookup in what Parse gives |
| `Ext2.LookupIsLastMatch` | kernel/ext2.cc:208-214 | the number found is that of the last entry of the name, zero if there is none |
| `Ext2.AnnouncedIsLength` | kernel/ext2.cc:167-181 | for a directory that can be listed the announced length is that of all names with one byte after each |
| `Ext2.GetLength` | kernel/ext2.cc:167-181 | the loop computes the announced length of any directory, with missing headers and records of length zero as outcomes |
| `Ext2.GetDirEntries` | kernel/ext2.cc:142-165 | writes exactly the announced length: the names, a space between two, a zero at the end; in an empty directory it writes nothing in the buffer and the zero before it |
| `Path.ComponentsSplit` | kernel/ext2.h:268-280 | the components of p/q are those of p, then those of q |
| `Path.SlashesDoNotCount` | kernel/ext2.h:268 | repeated, leading and trailing slashes are ignored |
| `Path.LookUp` | kernel/ext2.h:281-287 | one component: the directory is read from its i-node on the disk, the last entry of the name gives the next i-node |
| `Path.FindPath` | kernel/ext2.h:263-293 | the loops compute the walk over the components through the i-nodes and directories of the disk, with missing names, a failed assertion and components above 256 bytes |
| `Path.FindIsCompositional` | kernel/ext2.h:263-293 | find(cur, p/q) = find(find(cur, p), q), with missing and failing as outcomes |
| `FormatInt.DigitsReadBack` | kernel/snprintf.cc:432-437 | the digits of a number denote the number, for base 8, 10 and 16 |
| `FormatInt.Convert` | kernel/snprintf.cc:432-439 | the loop leaves exactly the digits, at most eleven of them: the buffer of twenty is never full |
| `FormatInt.OnlyDigits` | kernel/snprintf.cc:432-437 | the digits are digits of the base |
| `FormatInt.IntReadsBack` | kernel/snprintf.cc:400-488 | for every 32-bit value, base, width, precision and flags the text is spaces, sign, a numeral of the base and spaces, and sign and numeral read back to the argument |
| `FormatInt.FieldWidth` | kernel/snprintf.cc:441-449 | the text has the width asked for, except, and only, when the flag 0 and a longer precision meet |
| `FormatInt.ShortField` | kernel/snprintf.cc:441-449 | %06.3d of 5 prints 0005 |
| `FormatInt.FmtInt` | kernel/snprintf.cc:400-488 | fmtint produces exactly that text |
| `FormatInt.WholeString` | kernel/snprintf.cc:361-396 | a string whose padded form fits the precision is printed whole |
| `FormatInt.FmtStr` | kernel/snprintf.cc:361-396 | fmtstr produces the padded string cut to the precision, padding included |
| `Printf.AdvanceReads` | kernel/snprintf.cc:144-233 | each iteration inside a directive has read exactly the flags, width, precision and size up to there |
| `Printf.ReadAll` | kernel/snprintf.cc:234-236 | at the conversion the registers are the directive of the format; a format that ends first has none |
| `Printf.AdvanceDecreases` | kernel/snprintf.cc:130-233 | each iteration inside a directive consumes a character or moves to a later state |
| `Printf.Emit` | kernel/snprintf.cc:235-346 | the conversions print what the directive means |
| `Printf.Dopr` | kernel/snprintf.cc:112-359 | dopr terminates and its output is the recursive meaning of the format, directive by directive, up to the limit |
| `Printf.DirectiveEnds` | kernel/snprintf.cc:144-233 | where a directive ends depends on the format alone |
| `Printf.OverrunIff` | kernel/snprintf.cc:339-347 | dopr reads past the end of the format if and only if the format, scanned by itself, ends in a %w and the limit is not reached before it |
| `Printf.StaysInside` | kernel/snprintf.cc:339-347 | a format that is empty or does not end in the letter w is safe with any arguments |
| `Printf.SkipAtTheEnd` | kernel/snprintf.cc:339-347 | the format %w is not |
| `Printf.PlainText` | kernel/snprintf.cc:137-143 | text without percent signs is printed as it is, up to the limit |

## Left out

- Scheduler, BoundedBuffer, Barrier, Future, ReusableBarrier, InterruptLock: the concurrent protocols are step machines over values, not classes, because every interleaving of their statements counts; where their objects live and how they are shared is not captured.
- Scheduler: `monitor`/`mwait` and spinning are not steps; a lock that is taken disables the step. Liveness and fairness are not stated: `block` that may return leaves `no_preempt` set (kernel/threads.h:108), so preemption is not fair.
- Scheduler: taking a lock and the interrupt change around it are one step, as are the instructions of one group in kernel/context.s; each group touches only its own core and two save areas, with interrupts off or the thread marked.
- Scheduler: the place, saved and history fields (initial, ups, grants, queued, served) are bookkeeping: no guard reads them.
- Scheduler: an idle thread that calls `down` fails an assertion in the handler; the model has no step there. Failed assertions and panics end a run.
- Scheduler: thread identities are never reused, while the original reuses the memory of a deleted thread.
- Scheduler: the 64-bit count of a semaphore and the 64-bit epochs are unbounded.
- BoundedBuffer.FirstInFirstOut: for N above 2^31 nothing is promised after a put whose sum wraps, since it stores at the wrong position (BoundedBuffer.SlotIff).
- BoundedBuffer, Barrier, Future: a semaphore is the atomic counter of SchedulerSafety.RunRefinesCounter; destruction of these objects while in use, and `Shared<T>`, are not modelled.
- Barrier.NoEarlyReturn: the machine stops at the panic, while other cores of the original may go on for a moment.
- Future.GetReturnsTheValue: set is called once, as the thread that computes the value does; two calls that overlap would both pass its assertion.
- ReusableBarrier: accesses under the lock are steps of its holder, and the lock is atomic; `notify` with a limit, and the assertion of `wait` that interrupts are on outside the lock, are left out.
- InterruptLock.LockIsSafe: the holder does not change its interrupt flag itself.
- HeapModule.Heap: malloc and free run under a lock and are one operation each; the lock that heapInit allocates at its end (kernel/heap.cc:137) is not part of this model.
- HeapModule.Heap.Realloc: requests above 0xFFFFFFFC bytes are excluded, because malloc wraps there (HeapModule.LargestRequestWraps).
- HeapModule.Heap.Free, HeapModule.Heap.Realloc: a pointer that is no block of the heap, or one of the two sentinels, is the caller's fault: the sanity check is switched off and the code would free it. Realloc takes no result of malloc(0).
- VmmModule.Vmm: allocation and mapping are one operation each; the TLB and the page-fault entry code are absent; the loader and the argument building of execl, and the descriptors that fork copies, are left out.
- VmmModule.Vmm.DeletePd: the user frames of the process are not freed by the code, and the contract says exactly when that loses one.
- VmmModule.Vmm.Fork: without a free slot for the child the code returns -1 after make_pd; ok then reports that make_pd succeeded.
- VmmModule.Vmm.GlobalInit: memory is at most 2 GB and the two device pages lie above it.
- BlockIO: the disk is a sequence of bytes below 4 GB; block numbers that fail an assertion or lie beyond the disk are the caller's fault; port I/O is left out. A hole is read like the code reads it, as disk block zero.
- BlockIO.FileDescriptor.Read: the checks of the descriptor number and the buffer address are left out.
- Ext2.Entries: a record of length zero never ends the loop; the model returns an outcome for it.
- Ext2.GetDirEntries: in an empty directory the write before the buffer is reported, not performed.
- Path.FindPath: every directory of the disk can be read and blocks have at most 64 KB; a directory is read at once, where the code reads the pieces of its records; changeDir and the cwd string are left out.
- FormatInt, Printf: floating point output is a parameter; `%n` consumes its argument and its store is left out; widths beyond the range of int are unbounded.
- Printf.Dopr: `%w` at the end of a format reads past its end; the model stops there with an outcome of its own.
- The user copy t0.dir/sbin/printf.c of kernel/snprintf.cc, boot, IDE, PIT calibration, keyboard and serial drivers, the shell and the user programs.
