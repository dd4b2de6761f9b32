# Kernel and build-tool models

Dafny models of the parts of the Zephyr kernel and its build scripts where the state is most
intricate, with proofs of what they promise. Each object is modelled twice: as values with step
functions or relations (modules ending in `Spec`), about which the promises are proved for every
state and every run (modules ending in `Runs`), and as a class whose methods follow the code and are
proved to do exactly the specified steps.

- **Memory pool** (`MemPoolTiles`, `MemPoolStore`, `MemPoolComplete`, `Bits`, `MemPoolBits`, `MemPoolRuns`, `MemPool`):
  the quarter-splitting allocator, its free bits and lists, and its locked sections interleaved by any
  number of threads.
- **Pipe** (`PipeSpec`, `Circular`, `PipeRing`, `Pipe`, `PipeRuns`, `PipeReads`,
  `PipeOvertaken`): the stream through a circular buffer
  and two wait queues, with direct copies and refills. Elements are of any type, since the code only
  copies them; the histories use elements that name the call and position they come from.
- **Page tables** (`PageEntries`, `PageRegions`, `PageInput`, `PageTables`, `PageGenerator`): the 4 KB-page generator,
  against a walk of its output as in section 4.3 of the Intel 64 and IA-32 Architectures Software
  Developer's Manual, volume 3A.
- **Mutex** (`MutexSpec`, `MutexRuns`, `Mutex`): priority inheritance with a ceiling, including waits that
  time out and the clean-up they run later.
- **Ready queue** (`ReadySpec`, `ReadyQueue`) and **wait queues** (`WaitQueue`).
- **Mailbox** (`MailboxSpec`, `MailboxRuns`, `Mailbox`) with the stack of asynchronous descriptors.
- **Alerts** (`Alert`), **message queues** (`MsgQueueSpec`, `MsgQueueRuns`, `MsgQueue`) and **memory slabs**
  (`MemSlabSpec`, `MemSlab`, `MemSlabBytes`).
- **Interrupt vectors** (`IdtSpec`, `IdtFixed`, `IdtPlaced`, `Idt`): the three passes of the table builder.
- **Formatted output** (`PrintkSpec`, `Printk`): digits, padding, the format machine and truncation.

A lower number is a higher priority throughout, as in the kernel. Time-outs, interrupts and competing
threads are steps that may come at any point between locked sections. Doubly linked lists are
sequences; pointers into buffers are indices; the null pointer is 0.

These promises turn out to hold only under a condition, which is proved to be exact:

- Cleaning up after a timed-out mutex wait gives the owner the right priority exactly when its own
  priority is not above the ceiling or nobody else waits (`MutexRuns.CleanupIsExactIff`), and it finds an
  owner at all exactly when the mutex is locked at that moment (`MutexRuns.EveryRunCleanupIff`).
- A memory region is mapped to the end asked for exactly when it ends below 4 GB or starts in the last
  4 MB (`PageRegions.MappedToEndIff` on the runs, `PageTables.WholeRegionIff` on the output), and the
  overlap check finds exactly the regions inside earlier ones (`PageInput.EndsInIff`).
- Free bits have room where they are looked up exactly with at most 32 top blocks
  (`MemPoolBits.BitsFitIff`).
- The interrupt map agrees with every entry exactly when none ties its line to vector 0
  (`Idt.MapAgreesIff`), and only after such an entry is a line accepted again (`IdtFixed.FixIff`,
  `Idt.SharedLine`).
- The free list of a new slab is intact, wherever its buffer is, exactly when blocks are not smaller than
  a pointer (`MemSlabBytes.IntactIff`).
- A message queue keeps readers and writers apart, in all runs, exactly when it has capacity
  (`MsgQueueRuns.UnmixedIff`).
- Readers of a pipe are given runs of bytes exactly while only the first of them has received anything
  (`PipeReads.FillInRunsIff`); a read of better priority can change that (`PipeOvertaken.SomeReadIsSplit`).

## Model

| member | source | states |
|---|---|---|
| MemPoolTiles.ExactSizesIff | kernel/mempool.c:96-125 | the level sizes are exact quarters of each other exactly when the largest size is divisible by 4 once per level; this is the pools the model covers |
| MemPoolTiles.BlockNumOfPtr | kernel/mempool.c:31-39 | `block_num` undoes `block_ptr` on every block of every level |
| MemPoolTiles.SplitTiles | kernel/mempool.c:230-253 | replacing a tile by its four quarters keeps the buffer tiled exactly |
| MemPoolTiles.MergeTiles | kernel/mempool.c:193-223 | replacing four siblings by their parent keeps the buffer tiled exactly |
| MemPoolStore.InitialInv | kernel/mempool.c:96-125 | the freshly initialised pool meets the invariant: lists without repetition, free and held blocks tile the buffer, no four free siblings |
| MemPoolStore.TakeInv | kernel/mempool.c:179-191 | taking the head of a free list keeps the invariant |
| MemPoolStore.BreakInv | kernel/mempool.c:230-253 | splitting a held block keeps the invariant |
| MemPoolStore.ReleaseInv | kernel/mempool.c:193-223 | one locked section of freeing, with or without a merge, keeps the invariant |
| MemPoolStore.FreeFullyInv | kernel/mempool.c:193-223 | freeing a block up through all its merges keeps the invariant and removes just that block from the held ones |
| MemPoolComplete.RegionHasHeldOrLarge | kernel/mempool.c:193-223 | no region holds only free blocks smaller than itself: it overlaps a held block or a free block at least as large |
| MemPoolComplete.EmptyListsMeanExhausted | kernel/mempool.c:255-313 | the test "no free block of this or a larger size" is true exactly when every aligned block of the size overlaps a held one |
| MemPoolComplete.NothingHeldMeansWhole | kernel/mempool.c:193-223 | with nothing held, all level-0 blocks are free and every other list is empty |
| MemPoolRuns.EveryRunKeepsInv | kernel/mempool.c:179-253 | the invariant, free bits included, holds after every interleaving of the locked sections of any number of allocators and freers |
| MemPoolRuns.RunKeepsBitsInStep | kernel/mempool.c:193-253 | after every interleaving a free bit is set exactly when its block is on the list of its level |
| MemPoolRuns.RunPartitionsBuffer | kernel/mempool.c:179-253 | in every such run the free, handed-out and in-transit blocks are disjoint and tile the buffer, each once, and no two threads hold overlapping blocks |
| MemPoolRuns.RunReturnsToWhole | kernel/mempool.c:193-223 | whatever the run, once everything is freed the pool is all level-0 blocks again |
| MemPoolRuns.RunNeverStuck | kernel/mempool.c:255-313 | an operation under way can always take its next locked section, and an idle thread can always start one |
| Bits.NibbleBit | kernel/mempool.c:75-84 | the four bits cut from the word are the bits of the four siblings |
| MemPoolBits.BitStorageAgreesIff | kernel/mempool.c:49-57 | bits are looked up where initialisation put them, at every level, exactly when there are fewer than 32 top blocks |
| MemPoolBits.BitsFitIff | kernel/mempool.c:49-57 | every block has a bit inside the words where its level looks, exactly when there are at most 32 top blocks |
| MemPoolBits.ExternalApart | kernel/mempool.c:96-118 | the words that initialisation gives to different levels do not overlap |
| MemPoolBits.ReservedSufficesIff | include/kernel.h:3878-3911 | the words reserved behind the buffer suffice exactly when there are fewer than 16 levels or no level has exactly 32 blocks |
| MemPoolBits.DefinedPoolFits | include/kernel.h:3851-3911 | a pool of exact quarters that the macros define in a 32-bit address space has fewer than 16 levels, enough words, and blocks that hold a list node; it is usable exactly with at most 32 top blocks |
| MemPool.InitialWords | kernel/mempool.c:96-125 | both loops leave the specified words, also when a pointer was left in the word of level 0, and the top list in address order |
| MemPoolBits.InitialMatches | kernel/mempool.c:96-125 | in the new pool each level has its words and a bit is set exactly for listed blocks |
| MemPool.BreakBits | kernel/mempool.c:230-253 | the loop sets the bits of three quarters, one after the other, and lists them |
| MemPoolBits.SplitMatches | kernel/mempool.c:230-253 | after a split bits and list are in step |
| MemPoolBits.NibbleCompletes | kernel/mempool.c:202 | testing four bits for 0xf is testing that the three siblings are on the list |
| MemPoolBits.MergesIff | kernel/mempool.c:200-202 | whether to merge, decided on the bits once the block is marked free, is decided as on the lists |
| MemPool.MergeBits | kernel/mempool.c:203-211 | the merge loop clears the four bits and unlinks the three siblings, never the block itself |
| MemPoolBits.ReleasedMatches | kernel/mempool.c:193-223 | after a locked section of freeing bits and list are in step, merged or not |
| MemPool.FreeBits | kernel/mempool.c:193-223 | the locked section on one level: it merges exactly when the four bits are set, and leaves the specified words and list |
| MemPoolBits.ReleaseKeepsBits | kernel/mempool.c:193-223 | with bits in step the section merges exactly when the three siblings are listed, and all levels stay in step |
| MemPoolBits.SplitKeepsBits | kernel/mempool.c:230-253 | after a split all levels are in step |
| MemPool.Pool.constructor | kernel/mempool.c:96-125 | builds the initial store with bits in step, for a pool whose bits fit |
| MemPool.Pool.AllocBlock | kernel/mempool.c:179-191 | takes the head of a level's list, or fails exactly when it is empty; a free bit is set exactly for listed blocks |
| MemPool.Pool.BreakBlock | kernel/mempool.c:230-253 | performs the specified split and returns the first quarter |
| MemPool.Pool.FreeSection | kernel/mempool.c:193-223 | performs one specified release and says whether it merged |
| MemPool.Pool.FreeBlock | kernel/mempool.c:193-223 | the recursion ends and performs the whole specified release |
| MemPool.Pool.Free | kernel/mempool.c:351-390 | releases the block and readies every waiting thread, in order |
| MemPool.Pool.ChooseLevels | kernel/mempool.c:262-287 | finds the smallest level size that fits and the nearest level at or above it with a free block |
| MemPool.Pool.Claim | kernel/mempool.c:289-313 | with levels chosen before other threads came in: -EAGAIN without effect exactly when the list has been emptied; otherwise a block of the wanted level, inside the buffer and overlapping no held block |
| MemPool.Pool.Alloc | kernel/mempool.c:255-313 | undisturbed: fails, changing nothing, only if no level fits or every aligned block of the chosen level overlaps a held one; otherwise hands out a block of the best level, inside the buffer and overlapping no held block |
| WaitQueue.InsertSorted | kernel/sched.c:343-356 | queueing keeps the wait queue in priority order |
| WaitQueue.InsertContents | kernel/sched.c:343-356 | queueing adds the thread and loses nobody |
| WaitQueue.Pend | kernel/sched.c:343-356 | the insertion loop puts the thread before the first one it strictly outranks |
| PipeSpec.DrainTakesPrefix | kernel/pipes.c:649-712 | taking n pending bytes from waiting writers takes exactly the first n, in queue order, and whoever leaves the queue is finished |
| PipeSpec.FillDelivers | kernel/pipes.c:505-540 | direct copies split the bytes over waiting readers in queue order, none lost |
| PipeSpec.FillKeepsRequests | kernel/pipes.c:505-540 | serving readers keeps who they are and how much each asked for in all |
| PipeSpec.PutKeepsWaitInv | kernel/pipes.c:459-600 | a write keeps the wait invariant: readers and writers never wait together, waiting readers mean an empty buffer, waiting writers a full one, every waiter has something left |
| PipeSpec.GetKeepsWaitInv | kernel/pipes.c:602-743 | a read keeps the wait invariant |
| PipeSpec.GetIsDetermined | kernel/pipes.c:602-743 | a read takes exactly the first min(wanted, available) bytes of the stream, and what it leaves is determined |
| PipeSpec.NoWaitPut | kernel/pipes.c:350-366 | a write that may not wait moves at least its minimum and returns 0, or moves nothing and is refused |
| PipeSpec.NoWaitGet | kernel/pipes.c:350-366 | the same for a read |
| PipeSpec.PutFinishesReaders | kernel/pipes.c:505-540 | every reader a write takes off the queue has received all it asked for, in order |
| PipeSpec.GetFinishesWriters | kernel/pipes.c:649-712 | the writers a read takes off are the first of the queue and have nothing left to send: all their bytes were read or are in the buffer, within its size |
| Circular.WindowExtend | kernel/pipes.c:242-269 | writing a run at the write index appends it to the window, across the wrap |
| Circular.WindowSplit | kernel/pipes.c:279-305 | a window is its first contiguous run followed by the rest, across the wrap |
| PipeRing.Ring.XferIn | kernel/pipes.c:219-232 | copies the smaller of room and source into the buffer and touches nothing else |
| PipeRing.Ring.XferOut | kernel/pipes.c:219-232 | copies the smaller of run and request out of the buffer |
| PipeRing.Ring.PutRun | kernel/pipes.c:251-266 | one round appends a contiguous run to the contents and keeps the indices right |
| PipeRing.Ring.Put | kernel/pipes.c:242-269 | two rounds append as much as there is room for, despite the wrap |
| PipeRing.Ring.GetRun | kernel/pipes.c:287-302 | one round removes a contiguous run from the front of the contents |
| PipeRing.Ring.Get | kernel/pipes.c:279-305 | two rounds remove the oldest bytes, as many as wanted or all there are |
| Pipe.Prepare | kernel/pipes.c:337-404 | refuses exactly when waiting is not allowed and the minimum cannot move; otherwise splits the queue where the bytes run out |
| Pipe.ToReaders | kernel/pipes.c:505-540 | the direct copies of a write are the specified serving of the readers |
| Pipe.TakeDirect | kernel/pipes.c:649-673 | the direct copies of a read take the working writers' bytes in order and ready those used up |
| Pipe.RefillFrom | kernel/pipes.c:691-703 | what the working writers still hold goes to the buffer, in order |
| Pipe.MoveOut | kernel/pipes.c:636-712 | all copies of a read together preserve the stream: what is handed over followed by the new buffer is the old buffer followed by what was taken |
| Pipe.KPipe.constructor | kernel/pipes.c:189-200 | an empty pipe with nobody waiting |
| Pipe.KPipe.Put | kernel/pipes.c:459-600 | `k_pipe_put` does the specified write, readies exactly the finished readers, and keeps the wait invariant |
| Pipe.KPipe.Get | kernel/pipes.c:602-743 | `k_pipe_get` does the specified read, readies exactly the finished writers, and keeps the wait invariant |
| PipeRuns.WriteExtendsLine | kernel/pipes.c:459-600 | a write puts what it moves into the line of delivered and pending bytes as one run, behind all buffered bytes and behind writers of the same or a better priority |
| PipeRuns.GotKeepsLine | kernel/pipes.c:602-743 | a read moves bytes from pending to delivered without changing the line |
| PipeRuns.TimeoutCutsLine | kernel/pipes.c:580-600 | a writer that times out takes its own pending bytes out of the line and no others |
| PipeRuns.WriterCanTimeOut | kernel/pipes.c:580-600 | a waiting writer can time out at any moment of a run |
| PipeRuns.EveryRunKeepsInv | kernel/pipes.c:459-743 | in every run of writes, reads and time-outs, with any priorities, the wait invariant holds and of every write exactly the bytes it reports are delivered or pending, each once and in order |
| PipeRuns.DrainedRunDeliversAll | kernel/pipes.c:459-743 | once the pipe is drained, each write's reported bytes have been delivered, once and in order |
| PipeRuns.OnePriorityRunIsFifo | kernel/pipes.c:459-743 | with writers of one priority the whole pipe is first in, first out |
| PipeReads.EveryRunKeepsReads | kernel/pipes.c:459-743 | in every run, with any priorities, the bytes delivered are exactly those the reads ended up with or hold so far, each with one read, and every read has its bytes in order |
| PipeReads.RunInTurnDeliversRuns | kernel/pipes.c:602-743 | when no read queues in front of one that has already received something, each read's bytes are one run of those delivered, in the order of returning |
| PipeReads.FillInRunsIff | kernel/pipes.c:505-540 | writes extend what waiting readers hold by a run exactly when only the first of them has received anything |
| PipeOvertaken.SomeReadIsSplit | kernel/pipes.c:459-743 | a history in which a read returns bytes that were not delivered in one run, because a read of better priority queued in front of it |
| PipeReads.FillWithin | kernel/pipes.c:505-540 | served readers, completed or not, have their bytes in order |
| PageEntries.OrIsSum | scripts/gen_mmu_x86.py:104-163 | or-ing a number into the free low bits of another adds it |
| PageEntries.PdeFields | scripts/gen_mmu_x86.py:104-123 | a directory entry is present and holds the two right bits and the table frame in their places |
| PageEntries.PteFields | scripts/gen_mmu_x86.py:142-163 | a page entry is present and holds right bits, the alloc bit and the page number |
| PageRegions.MappedToEndIff | scripts/gen_mmu_x86.py:205-255 | a valid region's runs include every address asked for exactly when it ends below 4 GB or starts in the last 4 MB |
| PageTables.WholeRegionIff | scripts/gen_mmu_x86.py:205-255 | in the output for one valid region, a walk is present at every address asked for exactly under that condition |
| PageTables.TopRegionIsCut | scripts/gen_mmu_x86.py:212-213 | the last 8 MB as one region pass the checks, and in every output for them the last address is not present |
| PageRegions.PieceHits | scripts/gen_mmu_x86.py:165-257 | an address falls in an aligned region's run of its page table exactly when the region covers it |
| PageRegions.PieceTouches | scripts/gen_mmu_x86.py:165-257 | an aligned region gets a run in a directory entry exactly when it touches its 4 MB |
| PageRegions.AlignedIff | scripts/gen_mmu_x86.py:1064-1077 | validation passes exactly when the start is page aligned and so is the size of a region ending below 4 GB |
| PageRegions.LastHitIsLastCovering | scripts/gen_mmu_x86.py:304-321 | the run that wins a page entry belongs to the last listed region covering the address |
| PageRegions.FirstTupleIsFirstTouching | scripts/gen_mmu_x86.py:104-109 | the directory entry's rights come from the first listed region that touches its 4 MB |
| PageTables.FrameIsExactIff | scripts/gen_mmu_x86.py:81-87 | a table's frame number gives its address exactly when the directory is page aligned |
| PageTables.WalkIsAsked | scripts/gen_mmu_x86.py:165-327 | walking the output from any 32-bit address gives exactly what the region list asks for, each region up to its mapped end: present where a region covers the address, identity mapped, rights of the last covering region in the table and of the first touching one in the directory |
| PageTables.PresentIffCovered | scripts/gen_mmu_x86.py:165-327 | a walk is present exactly on covered addresses, maps them to themselves, and never leaves the output |
| PageTables.WordsFit | scripts/gen_mmu_x86.py:281-327 | every word fits 32 bits when the tables fit below 4 GB |
| PageGenerator.SortIncreasing | scripts/gen_mmu_x86.py:257 | sorting the table list gives an increasing list of the same entries |
| PageGenerator.IncreasingUnique | scripts/gen_mmu_x86.py:81-87 | two increasing lists with the same members are equal, so the position in the table list is the position in the output |
| PageGenerator.Generator.constructor | scripts/gen_mmu_x86.py:34-36 | nothing collected yet |
| PageGenerator.Generator.SetPdePteValues | scripts/gen_mmu_x86.py:260-279 | appends a run to its directory entry only; the table list keeps naming the entries in use, each once |
| PageGenerator.Generator.PopulateRegion | scripts/gen_mmu_x86.py:166-255 | adds exactly the region's run to every directory entry |
| PageGenerator.Generator.AddExtras | scripts/gen_mmu_x86.py:211-255 | the overflow loop adds exactly the runs beyond the first directory entry |
| PageGenerator.Generator.Populate | scripts/gen_mmu_x86.py:165-257 | collects the runs of all regions in list order and sorts the table list |
| PageGenerator.RunsAlignedIff | scripts/gen_mmu_x86.py:1064-1077 | the collected runs all pass the alignment check exactly when every region's runs do |
| PageGenerator.Generator.Validate | scripts/gen_mmu_x86.py:1064-1077 | reports whether every run is page aligned |
| PageGenerator.PermsFor | scripts/gen_mmu_x86.py:308-314 | the loop over runs finds the last one containing the entry |
| PageGenerator.WriteTable | scripts/gen_mmu_x86.py:305-327 | writes the 1024 words of one table and nothing before them |
| PageGenerator.Generator.CreateDirectory | scripts/gen_mmu_x86.py:281-298 | writes the 1024 directory words |
| PageGenerator.Generator.CreateTables | scripts/gen_mmu_x86.py:300-327 | writes one table after the other where the directory says they are |
| PageInput.EndsInIff | scripts/gen_mmu_x86.py:1043-1058 | the overlap test finds exactly the regions that lie wholly inside an earlier one |
| PageInput.UndetectedIff | scripts/gen_mmu_x86.py:1043-1058 | two regions pass in either order exactly when each has an address of its own, overlapping or not |
| PageInput.ReadList | scripts/gen_mmu_x86.py:1032-1061 | drops empty regions, keeps the rest in order, and reports an overlap exactly when a region lies inside an earlier one |
| PageGenerator.Generator.Generate | scripts/gen_mmu_x86.py:1203-1220 | produces an output exactly when all runs are aligned and no region lies inside an earlier one; the processor's walk of it is what the regions ask for |
| MutexSpec.TargetIsBest | kernel/mutex.c:94-101 | the priority an owner should have is a lower bound of its own and every waiter's clamped priority, and one of them |
| MutexSpec.TargetOfSorted | kernel/mutex.c:178-183 | in a sorted wait queue the first waiter decides it |
| MutexSpec.TargetInsert | kernel/mutex.c:149-160 | a new waiter lowers it to its own clamped priority, wherever it is queued |
| MutexRuns.UnlockHandsOff | kernel/mutex.c:215-252 | the last unlock restores the owner's priority and hands the mutex to the best waiter, which already has the priority it should have |
| MutexRuns.LockThenUnlock | kernel/mutex.c:122-141 | a lock that succeeds is undone by an unlock, nested or not |
| MutexRuns.CleanupIsExactIff | kernel/mutex.c:178-189 | cleaning up a timed-out wait leaves the owner at the right priority exactly when the owner's own is not above the ceiling or nobody waits; otherwise at the ceiling, below its own |
| MutexRuns.EveryRunKeepsShape | kernel/mutex.c:116-255 | in every run a free mutex has no waiters, the queue is sorted, and everyone but the owner has its own priority |
| MutexRuns.EveryRunInherits | kernel/mutex.c:116-255 | in every run whose clean-ups are safe the owner is at least at its own and every waiter's clamped priority, and exactly at the best of them once nobody has to clean up |
| MutexRuns.DemotedOwner | kernel/mutex.c:178-189 | a family of runs in which an owner above the ceiling is demoted by a clean-up |
| MutexRuns.CleanupHasOwnerIff | kernel/mutex.c:178-189 | a clean-up finds an owner exactly when the mutex is locked |
| MutexRuns.EveryRunCleanupIff | kernel/mutex.c:178-189 | in every run a timed-out thread can finish its call exactly when the mutex is locked at that moment |
| MutexRuns.CleanupWithoutOwner | kernel/mutex.c:178-189 | a family of runs in which a clean-up comes when nobody owns the mutex |
| Mutex.KMutex.constructor | kernel/mutex.c:70-82 | a free mutex |
| Mutex.KMutex.AdjustOwnerPrio | kernel/mutex.c:103-114 | sets the owner's priority and no other |
| Mutex.KMutex.Lock | kernel/mutex.c:116-160 | does the specified lock step; returns 0 exactly when the caller owns the mutex, waits exactly when queued, and is refused without effect |
| Mutex.KMutex.Cleanup | kernel/mutex.c:174-194 | goes through the null owner exactly when the mutex has become free; otherwise does the specified clean-up step, with the priority right exactly under the stated condition |
| Mutex.KMutex.Unlock | kernel/mutex.c:204-255 | does the specified unlock step; the last one gives the caller its own priority back |
| ReadySpec.AppendIsInsert | kernel/sched.c:136-218 | appending to the list of a priority is queueing behind all threads of the same or a better one |
| ReadySpec.RemoveIsDrop | kernel/sched.c:229-272 | unlinking from the list of a priority is leaving the line |
| ReadySpec.FlattenHead | kernel/sched.c:89-117 | the line starts with the first thread of the first non-empty list |
| ReadySpec.YieldsTakeTurns | kernel/sched.c:505-540 | yielding is round robin: each thread of the best priority gets its turn in order and a full round restores the line |
| ReadyQueue.BitSet | kernel/sched.c:29-80 | setting or clearing one bit keeps every bit equal to "this list has a thread" |
| ReadyQueue.AddSound | kernel/sched.c:136-218 | adding a thread keeps bitmap, lists and cache in agreement |
| ReadyQueue.RemoveSound | kernel/sched.c:229-272 | so does removing one |
| ReadyQueue.MoveSound | kernel/sched.c:505-522 | so does moving one to the end of its list |
| ReadyQueue.FirstSet | kernel/include/ksched.h:396-439 | the scan finds the lowest set bit of the bitmap |
| ReadyQueue.LowestBit | kernel/include/ksched.h:426 | the lowest set bit of a word |
| ReadyQueue.ReadyQ.HighestReady | kernel/include/ksched.h:396-439 | the index of the best priority that has a ready thread |
| ReadyQueue.ReadyQ.Add | kernel/sched.c:136-218 | the line gets the thread behind its equals; bitmap, lists and cache stay in agreement |
| ReadyQueue.ReadyQ.Remove | kernel/sched.c:229-272 | the line loses just that thread; the cache is the new head |
| ReadyQueue.ReadyQ.MoveToEnd | kernel/sched.c:505-522 | the thread leaves and queues again, also when the early return is taken |
| ReadyQueue.ReadyQ.SetPriority | kernel/include/ksched.h:680-689 | a ready thread leaves and queues again with its new priority; another only changes its priority |
| ReadyQueue.ReadyQ.MustSwitch | kernel/sched.c:434-453 | true exactly when some ready thread strictly outranks the current one |
| MailboxSpec.FindRx | kernel/mailbox.c:325-329 | the first compatible receiver in the queue, or none |
| MailboxSpec.FindTx | kernel/mailbox.c:507-512 | the first compatible message in the queue, or none |
| MailboxRuns.MatchPassesOn | kernel/mailbox.c:192-232 | a match gives each side the other's name and value, the receiver the data or block cut to the smaller size, and loses nothing carried |
| MailboxRuns.PostMissesNone | kernel/mailbox.c:307-380 | after a send no waiting message fits a waiting receiver |
| MailboxRuns.FetchMissesNone | kernel/mailbox.c:493-543 | after a receive no waiting message fits a waiting receiver |
| MailboxRuns.DisposeKeepsInv | kernel/mailbox.c:244-291 | disposal keeps the invariant: the descriptor goes back to the pool or straight to a waiting thread |
| MailboxRuns.TakeBlockKeepsInv | kernel/mailbox.c:440-449 | handing the sender's block to the receiver keeps the invariant |
| MailboxRuns.EveryRunKeepsInv | kernel/mailbox.c:307-543 | in every run no rendezvous is missed; threads, descriptors, semaphores and blocks that go in come out once or are on their way; every descriptor is in exactly one place |
| MailboxRuns.StackFits | kernel/stack.c:75-121 | the descriptor stack never holds more than there are descriptors |
| MailboxRuns.ReleaseThenClaim | kernel/stack.c:75-162 | a descriptor freed while nobody waits is the next one claimed |
| MailboxRuns.DisposeTwice | kernel/mailbox.c:250-253 | disposing a second time does nothing |
| MailboxRuns.DisposeGivesOnce | kernel/mailbox.c:274-282 | disposing of an asynchronous message gives its semaphore once and frees its descriptor once |
| Mailbox.MatchMessages | kernel/mailbox.c:192-232 | matches exactly the compatible pairs, performs all field updates, and changes nothing otherwise |
| Mailbox.ScanRx | kernel/mailbox.c:325-360 | the scan stops at the first compatible receiver; no other descriptor changes, and without one nothing does |
| Mailbox.ScanTx | kernel/mailbox.c:507-522 | the scan stops at the first compatible message; no other changes, and without one nothing does |
| Mailbox.KMbox.constructor | kernel/mailbox.c:80-123 | all descriptors on the stack, nobody waiting |
| Mailbox.KMbox.SyncPut | kernel/mailbox.c:307-388 | does the specified send; returns -ENOMSG, without effect, exactly when it may not wait and no receiver fits, and waits in the queue exactly when it may and none fits |
| Mailbox.KMbox.AsyncAlloc | kernel/mailbox.c:52-55 | takes the top descriptor or waits for one |
| Mailbox.KMbox.AsyncPut | kernel/mailbox.c:391-409 | does the specified asynchronous send |
| Mailbox.KMbox.Get | kernel/mailbox.c:493-535 | does the specified receive; returns -ENOMSG, without effect, exactly when it may not wait and no message fits, and waits exactly when it may and none fits |
| Mailbox.KMbox.AsyncFree | kernel/stack.c:75-121 | hands the descriptor to a waiting thread or pushes it |
| Mailbox.KMbox.Finish | kernel/mailbox.c:244-291 | does the specified disposal: block, sender or descriptor, semaphore and size each once; the push always has room |
| Mailbox.KMbox.DataBlockGet | kernel/mailbox.c:428-460 | discards the data, takes the sender's block over, passes on the pool's failure without effect, or copies into a new block, also for a message that has ended |
| Alert.SubmissionTakesEffect | kernel/alert.c:86-90 | an increment that returns 0 finds the pending bit clear, it stays clear until it is read, and a dequeued item is never dropped |
| Alert.NextKeepsInv | kernel/alert.c:47-92 | every atomic step keeps exactly one party responsible for delivery while something is undelivered |
| Alert.EveryRunDeliversOnce | kernel/alert.c:47-92 | under every interleaving handler calls plus undelivered alerts equal sends, and the item is never queued twice |
| Alert.DeliveryProgresses | kernel/work_q.c:33-55 | delivery never gets stuck, every step brings the end nearer, and at the end every alert sent was handled |
| MsgQueueSpec.PutKeepsRoles | kernel/msg_q.c:78-124 | with capacity, a put never mixes readers and writers in the wait queue |
| MsgQueueSpec.GetKeepsRoles | kernel/msg_q.c:138-190 | with capacity, neither does a get |
| MsgQueueSpec.GetTakesHead | kernel/msg_q.c:138-190 | a get takes the head of the line of buffered and waiting messages and waits or fails exactly when it is empty |
| MsgQueueSpec.PutJoinsLine | kernel/msg_q.c:78-124 | a put goes straight to the first waiting reader, or joins the line at its end or by priority, or fails without effect on a full queue |
| MsgQueueSpec.NoCapacityMixesRoles | kernel/msg_q.c:78-190 | with capacity 0 a put that waits and a get that waits always do so together |
| MsgQueueRuns.EveryRunKeepsInv | kernel/msg_q.c:78-220 | with capacity, in every run roles are never mixed and every message sent is delivered once, waits, or was reported lost |
| MsgQueueRuns.OnePriorityRunIsFifo | kernel/msg_q.c:78-220 | with threads of one priority messages are delivered in the order sent |
| MsgQueue.KMsgq.constructor | kernel/msg_q.c:50-64 | an empty queue over the whole buffer |
| MsgQueue.KMsgq.Enqueue | kernel/msg_q.c:103-109 | appends a message at the write pointer, across the wrap |
| MsgQueue.KMsgq.Dequeue | kernel/msg_q.c:148-153 | removes the oldest message at the read pointer, across the wrap |
| MsgQueue.KMsgq.Put | kernel/msg_q.c:78-124 | does the specified put |
| MsgQueue.KMsgq.Get | kernel/msg_q.c:138-190 | does the specified get |
| MsgQueue.KMsgq.Purge | kernel/msg_q.c:204-220 | wakes every waiter in order and empties the queue |
| MemSlabSpec.UsedIsHeld | kernel/mem_slab.c:114-164 | the use count is the number of blocks held |
| MemSlabSpec.AllocKeeps | kernel/mem_slab.c:114-142 | an allocation gives a block nobody holds, exactly when the list is not empty, and keeps the invariant |
| MemSlabSpec.FreeKeeps | kernel/mem_slab.c:144-164 | freeing a held block keeps the invariant, whether it goes to a waiter or on the list |
| MemSlabSpec.FreeThenAlloc | kernel/mem_slab.c:114-164 | a freed block is the next one given out and the slab is as before |
| MemSlabSpec.EveryRunKeepsInv | kernel/mem_slab.c:114-164 | whatever holders write into their blocks, in every run the chain through memory is finite and visits exactly the blocks nobody holds, and waiters mean it is empty |
| MemSlab.DescendingAt | kernel/mem_slab.c:34-47 | the list visits whole blocks inside the buffer, from the last to the first |
| MemSlab.LinksApartIff | kernel/mem_slab.c:34-47 | the first words of different blocks share no byte exactly when blocks are not smaller than a pointer |
| MemSlabBytes.CreateList | kernel/mem_slab.c:34-47 | the loop, over memory made of bytes, leaves the specified memory and list head |
| MemSlabBytes.IntactIff | kernel/mem_slab.c:34-47 | for two or more blocks of a given size: wherever the buffer is, following the pointers in memory visits all blocks and ends at null, exactly when blocks are not smaller than a pointer |
| MemSlabBytes.DamagedAt257 | kernel/mem_slab.c:34-47 | two blocks of 3 bytes at address 257: the list is damaged |
| MemSlab.BlockInside | kernel/mem_slab.c:34-47 | different blocks do not overlap, and a block lies inside the buffer and holds its link |
| MemSlab.CreateFreeList | kernel/mem_slab.c:34-47 | the loop chains all blocks through their own first words |
| MemSlab.KMemSlab.constructor | kernel/mem_slab.c:100-112 | all blocks free |
| MemSlab.KMemSlab.Alloc | kernel/mem_slab.c:114-142 | does the specified allocation; fails or waits only when all blocks are held |
| MemSlab.KMemSlab.Free | kernel/mem_slab.c:144-164 | does the specified release |
| IdtFixed.FixIff | scripts/gen_idt.py:111-126 | pass 1 succeeds exactly when fixed vectors and lines are in range, no vector is repeated, a line is repeated only after an entry on vector 0, and every other entry has a priority; it then holds exactly their gates |
| IdtPlaced.PickIff | scripts/gen_idt.py:133-141 | a class yields a vector exactly when it has a free one, and that one is free and in the class |
| IdtPlaced.PlaceIff | scripts/gen_idt.py:128-144 | pass 2 succeeds exactly when no class has more requests than free vectors and the lines are free and distinct; it then places every entry in its class, no two together |
| Idt.AcceptableIff | scripts/gen_idt.py:107-144 | the condition of pass 2 in terms of the list alone |
| IdtFixed.StepTables | scripts/gen_idt.py:118-126 | after one more accepted fixed entry the tables hold exactly the gates and shown lines of the entries so far |
| IdtPlaced.StepKeeps | scripts/gen_idt.py:133-144 | one more placed entry takes nothing back: fixed gates and lines are kept and every placed entry keeps its own vector and line |
| Idt.PassOne | scripts/gen_idt.py:111-126 | computes pass 1, with the error of the first entry that fails |
| Idt.FindVector | scripts/gen_idt.py:133-138 | finds the first free vector of a class |
| Idt.PassTwo | scripts/gen_idt.py:128-144 | computes pass 2, with the error of the first entry that fails |
| Idt.PassThree | scripts/gen_idt.py:146-156 | fills every unused vector with the right spurious handler and no other |
| Idt.MapAgreesIff | scripts/gen_idt.py:98-104 | the map gives every entry's line its vector, not reading as unconfigured, exactly when no entry ties its line to vector 0 |
| Idt.SingleLineIsLost | scripts/gen_idt.py:98-104 | one entry on line 3 and vector 0 is accepted and its line stays unconfigured |
| Idt.SharedLine | scripts/gen_idt.py:98-104 | when two entries of an accepted list share a line, one is on vector 0 and the map leads to the other |
| Idt.SharedLineIsAccepted | scripts/gen_idt.py:98-104 | a list that gives line 3 to vector 0 and then to vector 40 is accepted |
| Idt.FirstLineIsLost | scripts/gen_idt.py:98-104 | and its map leads line 3 to vector 40 only |
| Idt.SetupIdt | scripts/gen_idt.py:107-158 | succeeds exactly on acceptable lists; then every entry has its own vector, fixed or in its class, all other vectors are spurious, and the map agrees exactly when no line is tied to vector 0 |
| PrintkSpec.DigitsReadBack | misc/printk.c:441-478 | the digits of a number, in any base up to 16, read back to it |
| PrintkSpec.NoLeadingZero | misc/printk.c:456-460 | only zero starts with a zero |
| PrintkSpec.DecimalWidth | misc/printk.c:441-478 | padding in front gives the width max(digits, min(width, 10)) |
| PrintkSpec.DecimalReadsBack | misc/printk.c:441-478 | a zero-padded number reads back as itself |
| Printk.StrContext.constructor | misc/printk.c:502-504 | nothing put out yet |
| Printk.StrContext.Out | misc/printk.c:486-500 | counts every character, stores those that fit if there is a buffer, and puts a NUL in the last cell if it is reached |
| Printk.DecUlong | misc/printk.c:441-478 | the digit loop puts out the decimal number with its padding, for every value of at most ten digits |
| Printk.HexUlong | misc/printk.c:395-430 | the nibble loop puts out the hexadecimal number with its padding, for every 32-bit value |
| Printk.CopyText | misc/printk.c:214-219 | puts out the characters up to the NUL |
| Printk.ConvertArg | misc/printk.c:161-243 | each conversion puts out its text and takes its argument |
| Printk.Consume | misc/printk.c:119-248 | one character of the format keeps "text out plus text to come" unchanged |
| Printk.VPrintk | misc/printk.c:101-249 | the character-by-character machine puts out the text of the format |
| Printk.Snprintk | misc/printk.c:486-516 | stores the text cut to size - 1 characters and a NUL, touches nothing else, stores nothing for size 0 or without a buffer, and returns the untruncated length |
| MailboxRuns.SenderIsToldSize | kernel/mailbox.c:261-267 | however a message ends, its sender finds the received size in its descriptor, and 0 if the data was dropped |
| MailboxRuns.DiscardKeepsInv | kernel/mailbox.c:414-419 | dropping the data keeps the invariant |
| Mailbox.ReceiverGetsMessage | kernel/mailbox.c:211-223 | a matched receiver finds the sender's bytes in its buffer, from the sender's memory or its block, as many as were sent or fit, and nothing else in memory changes |
| Mailbox.DescriptorEnds | kernel/mailbox.c:250-267 | a receive descriptor keeps what it says of the data when its message ends, but no block |
| Mailbox.KMbox.DataGet | kernel/mailbox.c:412-426 | copies the bytes that the descriptor names, also of a message that has ended; ends the message, with size 0 for the sender when there is no buffer |
| Mailbox.KMbox.DataCheck | kernel/mailbox.c:478-491 | ends a message just received, copying its data if there is a buffer, unless it has data and there is no buffer for it |
| Mailbox.KMbox.Pop | kernel/stack.c:136-162 | gives the thread the top descriptor or queues it by priority |
| MsgQueueRuns.UnmixedIff | kernel/msg_q.c:78-220 | in all runs readers and writers are kept apart exactly when the capacity is not 0 |
| MutexRuns.LockInherits | kernel/mutex.c:116-160 | a lock, taken, nested, refused or waiting, keeps the inheritance promise |
| MutexRuns.TimeoutInherits | kernel/mutex.c:160-174 | a waiter that times out leaves the owner no worse than it should be |
| Mutex.KMutex.Timeout | kernel/mutex.c:160-174 | does the specified time-out step: off the queue, a clean-up to come |
| ReadyQueue.ReadyQ.Head | kernel/sched.c:89-117 | the first thread of the line |
| ReadyQueue.ReadyQ.constructor | kernel/sched.c:136-218 | the queue with its first thread |
| ReadySpec.FlattenSorted | kernel/sched.c:136-218 | the lists in order of priority are one line sorted by priority |
| PipeSpec.FillCompletes | kernel/pipes.c:376-401 | serving completes exactly the readers that leave the queue, and all leave exactly when the bytes cover all requests |
| MemPool.Pool.SplitDown | kernel/mempool.c:303-305 | the splitting loop trades the block for one of the wanted level and changes no other held block |
| MemPoolTiles.Nested | kernel/mempool.c:31-39 | two aligned blocks that share a byte are nested |
| MemSlabSpec.WriteKeeps | kernel/mem_slab.c:34-47 | a holder may write anything into its block without touching the chain |
| Alert.RunCounts | kernel/alert.c:47-92 | the counters of a run are the numbers of sends and handler calls in it |
| PageGenerator.KeyCount | scripts/gen_mmu_x86.py:332-336 | as many tables are reserved in the output as there are entries in the table list |

## Left out

- Pipe writes from memory blocks (`k_pipe_block_put`) and the pool of asynchronous pipe descriptors.
- Transfers of a pipe call are one step: the code releases interrupts between copies but keeps the scheduler locked.
- Memory pools whose level sizes are not exact quarters; the retry loop of `k_mem_pool_alloc`; `k_malloc` and `k_calloc`.
- MemPool.Pool.constructor: is for usable pools. That leaves out more than 32 top blocks, since beyond that the code sets bits outside the words of level 0, as `MemPoolBits.BitsFitIff` states; what it damages there is not modelled. Sixteen levels and blocks below the size of a list node are left out too; by `MemPoolBits.DefinedPoolFits` no pool can be defined with them.
- MemPool.InitialWords: is for usable pools, likewise.
- MemPool.Pool.Alloc: states completeness for one allocator at a time; `MemPool.Pool.Claim` and the runs cover competing ones, without a success guarantee.
- MutexRuns.EveryRunInherits: covers one mutex and no priority changes from outside, so priorities change only by inheritance.
- What happens after a mutex clean-up has followed the null owner; runs end there.
- Page tables in PAE mode. Overlapping regions that pass the reader are covered: the last one wins.
- PageTables.WalkIsAsked: gives the rights of both table levels side by side and does not combine them.
- Delayed work and its cancellation, polling, and the semaphore of pended alerts.
- Alert counts and all lengths are unbounded; the 32-bit wrap-around of `send_count` and of sizes is not modelled.
- Mailbox.KMbox.DataGet: takes a descriptor never received into as empty; memory is handed in and out, and a copy onto itself is taken as simultaneous.
- MemSlab.KMemSlab.constructor: is for blocks not smaller than a pointer, as the interface demands; memory is the first words of blocks, which `MemSlabBytes` relates to bytes for the initial list only.
- ReadyQueue.ReadyQ.Remove: asks for another ready thread, as the idle thread provides.
- Context switches themselves, time slicing, thread suspension and the timeout queue.
- Interrupt list fields below -1, and the encoding of gates.
- Printk.DecUlong: is for numbers of at most ten digits, which covers 32-bit words; longer arguments are cut to a word, as a cast to a 32-bit `long` does.
- Printk.Snprintk: without a buffer it is for texts not shorter than the size; for shorter ones the code writes the NUL through the null pointer.
- A missing or mistyped argument of a format is outside the model.
- System calls, drivers, networking and the remaining subsystems.
