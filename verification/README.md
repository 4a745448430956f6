# AWK, verified

AWK is a small single-core x86 kernel. This project models its parts that hold state across calls
and proves, in Dafny, what they keep over every run and every interleaving. `dafny verify
dfyconfig.toml` checks all of it.

- **Heap** (`LinkMemory`, `HeapSpec`, `HeapModel`, `HeapTheorems`, `HeapRuns`, `HeapCounters`,
  `HeapSystem`, `HeapLayout`, `Heap`). The class `KernelHeap` is the allocator's pointer code over a
  word-addressed memory: two rings through each chunk, 32 class heads, three 32-bit counters. Each
  of its methods is proved to follow an abstract heap, a sequence of blocks and 32 sequences of free
  addresses, and the theorems are about every run of that.
- **Lists** (`PriorityList`, `KernelList`, `Waiters`, `ThreadLists`, `ThreadTables`). Linked nodes
  that follow a stable priority queue; lists whose nodes stand for threads; and sets of lists that
  share their nodes out, so that a node stands in one of them at most.
- **Scheduler** (`SchedulerModel`, `SchedulerInvariant`, `SchedulerTiming`, `SchedulerPace`,
  `SchedulerAging`, `SchedulerOrder`, `SchedulerSleep`, `SchedulerHandover`, `SchedulerFamily`,
  `SchedulerCalls`, `SchedulerExamples`, `SchedulerPlaces`, `Scheduler`). A step machine whose steps
  are the sections with interrupts off and the scheduling interrupt, which may strike between any
  two of them; an invariant of every table; the wake loop, the aging of priorities, who is elected,
  the way of a woken thread, the lists of children, and what single calls record; runs from boot
  that show why the conditions are needed; and the class `KernelScheduler`, the code over linked
  tables and waiting lists. Each of its methods has to show that a node it enlists stands nowhere
  yet.
- **Blocking primitives** (`Semaphore`, `Mutex`, `MessageQueue`, `QueueMemory`, `Mailbox`). Each has a
  class whose methods are the sections between `spinlock_lock` and `spinlock_unlock`, over linked
  waiting lists, and a machine of any number of threads that enter, wait, are woken, are overtaken,
  look again, post and destroy.
- **Interrupts** (`Interrupts`, `Nesting`). The nesting counter and dispatch table, and a language of
  paths through the kernel's calls: a static account of the counter on all paths, and a machine that
  interleaves threads, timer and devices and follows that account.
- **Paging, searching, printing** (`Paging`, `Memmem`, `Numerals`). Each a fast form against what it
  means: the processor's walk (Intel SDM volume 3A, section 4.3), the first occurrence, the value of
  a numeral.

## How to read the model

- Integers are unbounded in Dafny (`Basics` has the word sizes); the widths of the code are written
  out where they matter: 32-bit sizes and counters of the heap, the 32-bit level of a semaphore and
  its 8-bit answer, the 32-bit end of a mapped range, 16-bit node priorities, 32-bit wake times.
- A panic is a value (`None`, `Panicked`, a result `panic`). The panics of the list operations, of an
  empty active table and of scheduling with interrupts off are proved unreachable. Three errors on
  which callers panic are reachable steps of the scheduler's machine, and `SchedulerInvariant.EveryRun`
  says that no others are: idle waiting for an object (`src/sync/semaphore.c:149-155` and the like),
  idle without memory for init (`src/core/scheduler.c:187-193`), and unlocking a thread that is not
  blocked for that reason, which `SchedulerHandover.PosterUnlocks` shows of no poster.
- What the code asks of its callers is asked here: kfree gets a live block; only a parent joins a
  thread, once; a thread exits with an empty list of children; idle creates only init, and does not
  exit; a mutex is posted by its holder (and `PostKeepsIff` says what happens otherwise);
  node priorities are 16-bit; buffers have room; bases below 2 are not used for a number other than 0;
  a mapped range does not reach the last page, beyond which the loop's address wraps to 0.
- Time and memory are inputs: the current time of a wake pass, whether a tick ended a time slice, how
  far the allocations of create_thread get, the memory map.

## Where code and comments disagree

The model follows the code.

- `src/memory/heap.h:70-75` says that kfree of a null or unallocated pointer does nothing; the code
  has no such test (`src/memory/heap.c:349-353`), and null is never a live block (`NullNeverLive`).
- `src/comm/queue.c:50` allocates max_length cells, but the indexes run over 0..max_length. The model
  has max_length + 1 cells; `AllocationSufficesIff` states how many cells suffice, and
  `ChosenSufficesIff` for which chunks those that kmalloc grants do.
- `src/core/scheduler.c:591-594` speaks of 100 ticks; the code counts 25 passes.
- The wake-up order is by the low 16 bits of the time, so a due sleeper can sleep on
  (`LateWakeupExample`, `WakesExactlyDueIff`).
- Priority 64 is allowed for any thread (`src/core/scheduler.c:923-926`), but a thread created with it
  can lose against idle (`LowestPriorityRun`).
- A recursive mutex keeps no depth (`ExclusionIff`), and mutex_try_pend records no owner.
- Mappings never give user access, whatever the flags: the directory entries are for the kernel.

## Model

| member | source | states |
|---|---|---|
| `HeapSystem.EveryRun` | src/memory/heap.c:239-385 | after any sequence of kmalloc and kfree calls from setup, the chunks tile the heap in address order, 4-aligned and of at least MIN_SIZE bytes, no two neighbours are free, each free list holds exactly the free chunks of its power-of-two class once, and the three counters obey their laws |
| `HeapSystem.LiveUntilReleased` | src/memory/heap.c:283-385 | over any sequence of calls a live block keeps its address and size until it is itself freed |
| `HeapSystem.AllReleased` | src/memory/heap.c:349-385 | once every block is freed, in any order, the heap is one free chunk of the original size on the list of its class, as after setup |
| `HeapSystem.FreshHolds` | src/memory/heap.c:239-281 | setup establishes the heap invariant and the counter laws |
| `HeapTheorems.MallocSucceedsIff` | src/memory/heap.c:283-313 | kmalloc succeeds if and only if for the least multiple of 4 that is at least 8 and the request (8 if no 32-bit number is), some free chunk reaches the least power of two that is not below it |
| `HeapTheorems.MallocCuts` | src/memory/heap.c:293-347 | the chunk taken is a free one of the least power of two among those that reach the power required; with 20 bytes or more to spare it is cut to that least multiple, and the rest less a header stays free behind it, else it is handed out whole |
| `HeapTheorems.LargeEnoughIff` | src/memory/heap.c:293 | the block granted is at least as long as asked if and only if the request is at most 2^32 - 4; above, the rounding wraps to 8 bytes |
| `HeapTheorems.MallocGrants` | src/memory/heap.c:283-347 | the block granted was not live, is 4-aligned, lies inside the heap and is at least as long as the rounded size |
| `HeapTheorems.MallocAddsOneLive` | src/memory/heap.c:314-347 | a successful kmalloc adds exactly the granted block to the live blocks: no live block moves or changes size, and the new one overlaps none |
| `HeapTheorems.FreeReleases` | src/memory/heap.c:349-385 | kfree takes exactly the freed block out of the live blocks |
| `HeapTheorems.MallocKeepsInv` | src/memory/heap.c:283-347 | kmalloc keeps tiling, absence of free neighbours and agreement of the free lists, for every 32-bit size, also when it fails |
| `HeapTheorems.FreeKeepsInv` | src/memory/heap.c:349-385 | kfree of a live block keeps the same, whichever neighbours it merges with |
| `HeapTheorems.BlocksDisjoint` | src/memory/heap.c:33-39 | different chunks never overlap |
| `HeapTheorems.NullNeverLive` | src/memory/heap.c:349-353 | the null pointer is never live, in any state of the invariant |
| `HeapTheorems.MallocLayout` | src/memory/heap.c:322-347 | which chunk kmalloc takes and how it is cut, independent of the search |
| `HeapTheorems.FreeLayout` | src/memory/heap.c:349-385 | what the chunks are after merging with either, both or no neighbour |
| `HeapRuns.FreeUndoesMalloc` | src/memory/heap.c:322-385 | kfree straight after a successful kmalloc restores every chunk and every free list including its order, whether the chunk was split or not |
| `HeapCounters.MallocKeepsCounters` | src/memory/heap.c:335-344 | kmalloc keeps mem_meta = 40 + 12 per chunk, mem_used = used bytes - 12 per past unsplit grant, and mem_free = free bytes less what the code leaves out, counting one more unsplit grant exactly when it did not split |
| `HeapCounters.FreeKeepsCounters` | src/memory/heap.c:349-385 | kfree keeps the three laws for the same count of unsplit grants |
| `HeapSpec.SlotBounds` | src/memory/heap.c:209-218 | the size class n of a positive size is the one with 2^n <= size < 2^(n+1) |
| `HeapSpec.ClassForIsCeiling` | src/memory/heap.c:300 | the class where the search starts is the least n with size <= 2^n |
| `HeapSpec.RoundedSizeBounds` | src/memory/heap.c:293-298 | rounding gives a multiple of 4 of at least 8 that is not below the request unless the addition wraps |
| `HeapSpec.RoundedSizeIff` | src/memory/heap.c:293-298 | rounding gives the least multiple of 4 that is at least 8 and not below the request, and 8 when that does not fit in 32 bits |
| `LinkMemory.LinkRing` | src/memory/heap.c:121-141 | four stores around one place turn a circular list in memory into the list with the node inserted there |
| `LinkMemory.UnlinkRing` | src/memory/heap.c:143-149 | two stores take a node out of a circular list in memory |
| `Heap.KernelHeap.constructor` | src/memory/heap.c:239-281 | setup_kheap on linked memory: sentinels, one free chunk, counters |
| `Heap.KernelHeap.Kmalloc` | src/memory/heap.c:283-347 | the pointer code over linked rings, class heads and 32-bit counters leaves exactly the heap and answer of the abstract kmalloc |
| `Heap.KernelHeap.Kfree` | src/memory/heap.c:349-385 | the pointer code leaves exactly the heap of the abstract kfree |
| `Heap.KernelHeap.ListInit` | src/memory/heap.c:115-119 | a node alone on its ring |
| `Heap.KernelHeap.InsertBefore` | src/memory/heap.c:121-130 | the ring with the node before the current one; nothing else in memory changes |
| `Heap.KernelHeap.InsertAfter` | src/memory/heap.c:132-141 | the ring with the node after the current one; nothing else in memory changes |
| `Heap.KernelHeap.Remove` | src/memory/heap.c:143-149 | the ring without the node, and the node alone on its own ring |
| `Heap.KernelHeap.Push` | src/memory/heap.c:151-160 | the node becomes the head of the list |
| `Heap.KernelHeap.Pop` | src/memory/heap.c:162-180 | the head is taken; the list becomes null when it was alone |
| `Heap.KernelHeap.RemoveFrom` | src/memory/heap.c:182-192 | any node is taken off a list, head or not |
| `Heap.KernelHeap.SizeFromLinks` | src/memory/heap.c:201-207 | what memory_chunk_size computes from the links, the distance to the next chunk less the header, is the size of the abstract block, and the address is that of a chunk |
| `Heap.KernelHeap.MemoryChunkSlot` | src/memory/heap.c:209-218 | the halving loop computes the class of SlotBounds, -1 for size 0 |
| `Heap.KernelHeap.RemoveFree` | src/memory/heap.c:220-227 | the chunk leaves the list of its class and mem_free is adjusted modulo 2^32 |
| `Heap.KernelHeap.PushFree` | src/memory/heap.c:229-236 | the chunk becomes the head of the list of its class and mem_free is adjusted modulo 2^32 |
| `Heap.KernelHeap.FindClass` | src/memory/heap.c:307-315 | the loop over the class heads finds the first class with a chunk, or none |
| `Heap.KernelHeap.StoreWord` | src/memory/heap.c:29-39 | whoever writes inside a live block leaves the heap intact |
| `PriorityList.RunKeepsOrder` | src/core/kernel_list.c:126-355 | in every run of enlist, delist and remove, the list stays sorted from head to tail and oldest last among equals |
| `PriorityList.TailIsForemost` | src/core/kernel_list.c:196-252 | delist takes the smallest priority number and the oldest among equals, after every run |
| `PriorityList.InsertMultiset` | src/core/kernel_list.c:126-194 | enlisting neither loses nor doubles an entry |
| `KernelList.EnlistData` | src/core/kernel_list.c:126-194 | on linked nodes: the list is the abstract list with the entry inserted, still doubly linked, acyclic and counted; null arguments are refused; the chaining panic is unreachable |
| `KernelList.DelistData` | src/core/kernel_list.c:196-252 | takes the tail node, unlinked and unmarked, or null from an empty list |
| `KernelList.FindNode` | src/core/kernel_list.c:254-298 | the first node that carries the data, or OS_ERR_NO_SUCH_ID if and only if there is none |
| `KernelList.RemoveNodeFrom` | src/core/kernel_list.c:300-355 | takes the node out wherever it stands; size keeps its value, so that size = length + removals by node, modulo 2^32 |
| `KernelList.Entangled` | src/core/kernel_list.c:182-189 | a linked node never has the same node on both sides |
| `SchedulerInvariant.EveryRun` | src/core/scheduler.c:231-1219 | a run of calls, interrupt-handler posts and scheduling interrupts panics if and only if one of three steps comes up: idle waits, idle cannot create init for want of memory, or a thread is unlocked that is not blocked for that reason; in every state reached the invariant of all tables holds, and idle is active or in the active table |
| `SchedulerInvariant.AfterSelect` | src/core/scheduler.c:457-558 | whenever select_thread returns, exactly the active thread is RUNNING, every READY, SLEEPING and non-init ZOMBIE thread is in exactly its table, every BLOCKED one in one waiting list or held by one poster, every JOINING one is recorded by its child, and thread_count is the length of the global table |
| `SchedulerInvariant.StepKeeps` | src/core/scheduler.c:231-1219 | every single step panics if and only if it is one of the three, and keeps the invariant else |
| `SchedulerInvariant.ScheduleKeeps` | src/core/scheduler.c:566-640 | the scheduling interrupt finds a thread in every state that satisfies the invariant |
| `SchedulerInvariant.CreateKeeps` | src/core/scheduler.c:905-1075 | create_thread keeps the invariant, also when memory runs out half-way, where the pid is used up |
| `SchedulerInvariant.WaitKeeps` | src/core/scheduler.c:1077-1121 | wait_thread keeps the invariant on both ways |
| `SchedulerInvariant.FinishWaitKeeps` | src/core/scheduler.c:1123-1135 | a thread that comes back inside wait_thread finds its child exited, and cleaning it keeps the invariant |
| `SchedulerInvariant.ExitKeeps` | src/core/scheduler.c:231-327 | thread_exit keeps the invariant: the joiner is woken, init goes to no table |
| `SchedulerInvariant.LockKeeps` | src/core/scheduler.c:1137-1163 | lock_thread and the enlisting that follows keep the invariant; idle is refused |
| `SchedulerInvariant.UnlockKeeps` | src/core/scheduler.c:1165-1219 | unlock_thread moves a taken thread back to the active table, once |
| `SchedulerInvariant.DelistKeeps` | src/sync/semaphore.c:221-224 | taking a thread off a waiting list leaves it with its poster only |
| `SchedulerInvariant.TakeChildKeeps` | src/core/scheduler.c:116-142 | init taking a child off its list before it waits for it keeps the invariant |
| `SchedulerInvariant.SleepKeeps` | src/core/scheduler.c:864-883 | sleep keeps the invariant; idle is refused |
| `SchedulerTiming.WakesExactlyDueIff` | src/core/scheduler.c:492-540 | the wake loop wakes exactly the sleepers whose time has come if and only if these stand last in the table, whatever the wake times |
| `SchedulerExamples.LateWakeupExample` | src/core/scheduler.c:484-488 | a run from boot in which a sleeper due at 10 sleeps on at 20, behind one that is due at 65541 and has the smaller 16-bit key |
| `SchedulerTiming.ShortTimesDueLast` | src/core/scheduler.c:484-488 | with wake times below 2^16 the due sleepers stand last |
| `SchedulerPace.EveryRunWakes` | src/core/scheduler.c:484-540 | in every run, with wake times below 2^16, select_thread moves exactly the due sleepers to the active table as READY, keeps exactly the others in a sorted table, and loses or doubles none |
| `SchedulerPace.WakeLeaves` | src/core/scheduler.c:492-540 | on a sorted table the loop takes the sleepers from the tail on up to the first that is not due, which goes behind all others of the same key; nobody else changes places |
| `SchedulerPace.RunKeyed` | src/core/scheduler.c:484-540 | in every run the sleeping table is sorted by the low 16 bits of the wake times |
| `SchedulerPace.EveryRunBounded` | src/core/scheduler.c:578-623 | in every run priority <= init_prio <= 64 and last_sched < 25, for every thread |
| `SchedulerPace.StepCalm` | src/core/scheduler.c:864-1219 | no call but schedule changes priorities, tick counts or the sleeping table |
| `SchedulerAging.EveryRunAges` | src/core/scheduler.c:578-623 | in every run, a thread that stays in the active table for N aging passes from priority p and counter l has priority max(0, p - (l+N)/25) and counter (l+N) mod 25 afterwards, and its node has that priority if it agreed before |
| `SchedulerAging.EveryRunAgrees` | src/core/scheduler.c:578-623 | in every run in which no handler unlocks the active thread, every node of the active table has the priority of its thread |
| `SchedulerExamples.StrayRun` | src/core/scheduler.c:578-587 | a run from boot that ends a time slice while the active thread stands in the active table, unlocked by a handler before its own call of schedule |
| `SchedulerAging.AgeAgreesIff` | src/core/scheduler.c:578-623 | a pass keeps every node's priority equal to its thread's if and only if it is not a timer tick on an active thread that was already put back into the active table |
| `SchedulerAging.AgeFromAt` | src/core/scheduler.c:595-619 | the cursor loop treats every listed thread but idle and init exactly once, and its node with it |
| `SchedulerOrder.PassSortedIff` | src/core/scheduler.c:595-619 | an aging pass keeps the active table sorted if and only if no thread whose counter is full leaves one of equal priority behind that stands nearer to the tail and is not promoted |
| `SchedulerOrder.EveryRunElectsBest` | src/core/scheduler.c:542-558 | in every run in which create_thread gives priority 64 to nobody but idle and no handler unlocks the active thread, the thread elected has the least priority number of all ready threads |
| `SchedulerOrder.EveryRunSorted` | src/core/scheduler.c:595-619 | in every such run the active table is sorted in spite of the aging, and no pass lets a thread overtake another |
| `SchedulerExamples.LowestPriorityRun` | src/core/scheduler.c:905-928 | the first condition is needed: a run from boot that elects idle while a thread of priority 63, created at 64, is ready |
| `SchedulerExamples.SelfUnlockExample` | src/core/scheduler.c:1165-1219 | the second condition is needed: a run from boot in which only it fails, and a thread of priority 5 is elected before one of priority 4 |
| `SchedulerSleep.SleepsLongEnough` | src/core/scheduler.c:864-883 | a thread that sleeps for ms milliseconds sleeps on in every run, whatever the others do, until a wake pass later than its call by more than ms |
| `SchedulerCalls.SleepRecords` | src/core/scheduler.c:864-883 | sleep records the wake time modulo 2^32 in the caller, and nothing else; idle is refused |
| `SchedulerCalls.WakesInTime` | src/core/scheduler.c:484-540 | in every run, with wake times below 2^16, the first wake pass later than that by which a thread sleeps makes it ready |
| `SchedulerCalls.CreateRecords` | src/core/scheduler.c:905-1075 | create_thread makes a thread if and only if the priority is at most 64 and there is memory for all of it: which fields it starts with, in which tables it stands, and that no other thread changes but for the creator's list of children; else only the last pid may change |
| `SchedulerCalls.LockRecords` | src/core/scheduler.c:1137-1163 | lock_thread and the enlisting block the caller for the reason given and put it last in the object's line; no other thread and no other line changes |
| `SchedulerCalls.DelistRecords` | src/sync/semaphore.c:221-224 | a poster takes whoever came first off the line, and somebody if anybody stands there |
| `SchedulerCalls.UnlockRecords` | src/core/scheduler.c:1165-1219 | unlock_thread makes the thread ready and enlists it by its own priority; nothing else changes |
| `SchedulerCalls.WaitRecords` | src/core/scheduler.c:1105-1121 | wait_thread on a child that did not exit records the joiner in the child and makes the caller joining; nothing else changes |
| `SchedulerCalls.ExitRecords` | src/core/scheduler.c:231-327 | thread_exit makes a zombie of the thread, lists it as one unless it is init, and makes ready whoever joins it; nothing else changes |
| `SchedulerCalls.TakesOldest` | src/core/scheduler.c:116-142 | init takes its oldest child off its list, and one if it has any; the others stay there in their order |
| `SchedulerCalls.SliceRestores` | src/core/scheduler.c:578-623 | a scheduling interrupt starts the count of the active thread anew and gives it its initial priority back exactly when its slice is over; with idle or init active it changes no priority and no count |
| `SchedulerCalls.EveryRunExempts` | src/core/scheduler.c:578-623 | in every run idle stays at priority 64 and init at 0, and neither is ever counted |
| `SchedulerFamily.WaitLeavesOthers` | src/core/scheduler.c:360-381 | wait_thread and its rest take the exited child out of the caller's list and out of the threads, and leave every other child there, in its order, and every other thread's list as it was |
| `SchedulerFamily.EveryRunListed` | src/core/scheduler.c:1033-1049 | in every run each thread but idle stands in the list of the thread that created it, which still exists, unless init took it off its own; lists go from the youngest to the oldest child; and whoever has exited has no children |
| `SchedulerHandover.PosterUnlocks` | src/core/scheduler.c:1165-1219 | in every run, whatever happens between a poster's delisting and its unlock_thread, the thread is still blocked for the object's reason, so the poster's panic is unreachable and the thread becomes ready |
| `Scheduler.Start` | src/core/scheduler.c:686-853 | the tables with idle's two nodes: idle active, its second node in the global table, all lists well linked and apart |
| `SchedulerPlaces.NewNotListed` | src/core/scheduler.c:1020-1031 | the node of a new thread stands in no list |
| `SchedulerPlaces.HeldNotListed` | src/core/scheduler.c:1199 | the node of a thread that a poster holds stands in no list, so that it can be enlisted |
| `Scheduler.KernelScheduler.FreeNode` | src/core/scheduler.c:64-78 | a thread that stands in no table and waits for no object has a node that is in none of the linked lists |
| `Scheduler.KernelScheduler.SelectThread` | src/core/scheduler.c:457-558 | over linked lists: from every state of the invariant, no list operation panics, a thread is found, and the state is that of the step |
| `Scheduler.KernelScheduler.PutOldAway` | src/core/scheduler.c:463-490 | the old thread's own node goes into the linked active or sleeping table, where it did not stand before, or stays out |
| `Scheduler.KernelScheduler.WakeSleepers` | src/core/scheduler.c:492-540 | the do-while loop over the tail of the linked sleeping table computes the recursive wake step |
| `Scheduler.KernelScheduler.AgeTable` | src/core/scheduler.c:595-619 | the loop along the links of the active table computes the recursive aging step, editing node priorities in place, modulo 2^16 |
| `Scheduler.KernelScheduler.AgeThreads` | src/core/scheduler.c:578-623 | the whole aging part, including the initial priority at the end of a time slice |
| `Scheduler.KernelScheduler.ScheduleInt` | src/core/scheduler.c:566-640 | from every state that satisfies the invariant: no panic, a running thread, the invariant again, and the lists still linked, apart and in agreement with it |
| `Scheduler.KernelScheduler.CreateThread` | src/core/scheduler.c:905-1075 | for every outcome of the allocations: two new nodes stand in the active and in the global table, nothing panics, and the invariant and the ownership of all nodes are kept |
| `Scheduler.KernelScheduler.LockThread` | src/core/scheduler.c:1137-1163 | the caller's own node, which stands nowhere, goes to the end of the object's line, and only there; null exactly for idle, on which the callers panic |
| `Scheduler.KernelScheduler.TakeWaiter` | src/sync/semaphore.c:221-224 | the node of the thread that waits longest leaves the line, and belongs to its poster |
| `Scheduler.KernelScheduler.UnlockThread` | src/core/scheduler.c:1165-1219 | an error exactly in the states on which the callers panic; else the node held by the poster, which stands nowhere, goes into the active table, and the poster holds it no longer |
| `Scheduler.KernelScheduler.CleanJoinedThread` | src/core/scheduler.c:360-451 | the child is found in the zombie and global tables and taken out of both and out of the list of children, its own node stands in no list after that, and it is counted down once |
| `Scheduler.KernelScheduler.WaitThread` | src/core/scheduler.c:1077-1121 | the call returns at once if and only if the child had exited, and then the child exists no longer; the lists stay linked and in agreement |
| `Scheduler.KernelScheduler.ResumeWait` | src/core/scheduler.c:1121-1135 | the rest of wait_thread: the child is proved to have exited, and is gone after it |
| `Scheduler.KernelScheduler.ThreadExit` | src/core/scheduler.c:231-327 | the joiner's node goes into the active table if it is joining, the thread's own into the zombie table unless it is init, and both stood nowhere before |
| `Semaphore.EveryRun` | src/sync/semaphore.c:124-332 | over every interleaving: level = initial + posts - acquisitions in 32-bit arithmetic, acquisitions never exceed what was provided, and while a thread waits the woken ones that did not look again are at least max(0, level) |
| `Semaphore.StepKeeps` | src/sync/semaphore.c:66-332 | every section of every call keeps the invariant, destruction included |
| `Semaphore.LevelMeansUnits` | src/sync/semaphore.c:146-178 | a level above 0 means that units are left, even after wrap-around |
| `Semaphore.Semaphore.PendSection` | src/sync/semaphore.c:135-190 | one pass over the linked waiting list: an error exactly if the semaphore is not initialized; a place at the end of the line exactly if the level is below 1; else a unit, and nothing but the level changes; enlisting never panics |
| `Semaphore.Semaphore.PostSection` | src/sync/semaphore.c:199-275 | the thread woken, if any, is the one that came first; with a level above 0 none is woken only if none waits |
| `Semaphore.TryPendIff` | src/sync/semaphore.c:277-332 | sem_try_pend acquires exactly when sem_pend would not wait, to the same effect, and changes nothing else |
| `Semaphore.Semaphore.DestroySection` | src/sync/semaphore.c:66-122 | wakes all waiting threads in the order in which they came, and leaves the semaphore uninitialized with its level as it was |
| `Semaphore.PendAnswers` | src/sync/semaphore.c:135-190 | the three answers of a pass and all it changes, each exactly when the code gives it |
| `Semaphore.TryPendAnswers` | src/sync/semaphore.c:277-332 | the three answers of sem_try_pend, which never waits, and the value stored: the level it leaves, in 8 bits |
| `Semaphore.EveryPendWaitsIff` | src/sync/semaphore.c:124-194 | in every reachable state, who enters sem_pend or looks again stands in the line afterwards if and only if no unit is left, and acquires if and only if one is |
| `Semaphore.SomeoneWaits` | src/sync/semaphore.c:147-174 | whatever the initial level, some run brings a thread to wait |
| `Semaphore.EveryRunDestroyed` | src/sync/semaphore.c:66-122 | over every interleaving, after a destruction the semaphore stays uninitialized with nobody waiting, whoever waited is woken, and who looks again or comes new is told at once and changes nothing |
| `Waiters.JoinGoesLast` | src/sync/semaphore.c:157-158 | threads enlisted with priority 0 are served first come, first served within the list |
| `Mutex.EveryRun` | src/sync/mutex.c:129-341 | non-recursive, posted by holders only, over every interleaving: at most one holder, state 0 exactly when there is one, and a free mutex with waiters has a woken one still due to look |
| `Mutex.ExclusionIff` | src/sync/mutex.c:151-197 | posts by holders keep two threads apart in every run if and only if the mutex is not recursive |
| `Mutex.PostKeepsIff` | src/sync/mutex.c:214-285 | a post keeps the invariant if and only if it comes from the holder or nobody holds the mutex |
| `Mutex.RecursiveLetsTwoIn` | src/sync/mutex.c:157-161 | the run in which a recursive mutex lets a second thread in, for want of a depth |
| `Mutex.Mutex.PendSection` | src/sync/mutex.c:138-207 | one pass over the linked waiting list: an error exactly if the mutex is not initialized; a place at the end of the line exactly if it is locked, unless recursively by the caller; else the caller is the recorded owner of a locked mutex; enlisting never panics |
| `Mutex.Mutex.PostSection` | src/sync/mutex.c:214-285 | the thread woken is the one that came first, and none is woken only if none waits, whether or not the mutex was held |
| `Mutex.TryPendIff` | src/sync/mutex.c:287-341 | mutex_try_pend acquires exactly a free mutex, and differs from mutex_pend then in leaving the recorded owner as it was; when it fails nothing changes |
| `Mutex.Mutex.DestroySection` | src/sync/mutex.c:67-127 | wakes all waiting threads in order, and leaves the mutex uninitialized, with its state and owner as they were |
| `Mutex.PendAnswers` | src/sync/mutex.c:138-207 | the three answers of a pass and all it changes, each exactly when the code gives it |
| `Mutex.EveryPendWaitsIff` | src/sync/mutex.c:129-212 | in every reachable state, recursive or not, who enters mutex_pend or looks again stands in the line afterwards if and only if the mutex is locked by somebody else or not recursive, and owns it otherwise |
| `Mutex.SomeoneWaits` | src/sync/mutex.c:151-181 | some run brings a thread to wait |
| `Mutex.EveryRunDestroyed` | src/sync/mutex.c:67-127 | over every interleaving, after a destruction the mutex stays uninitialized with nobody waiting, whoever waited is woken, and who looks again or comes new is told at once and changes nothing |
| `MessageQueue.EveryRun` | src/comm/queue.c:84-294 | over every interleaving: values come out in the order of the posts, what is posted and not received is the queue's content, length stays within 0..max_length; while readers wait there are as many woken readers as values, while writers wait as many woken writers as free places; and waiting and woken writers still carry their values |
| `MessageQueue.AllocationSufficesIff` | src/comm/queue.c:50 | no run of a queue of depth n ever writes outside so many cells if and only if n is 0 or there are more than n |
| `QueueMemory.GrantSufficesIff` | src/comm/queue.c:50 | the block that kmalloc grants for queue_init's request, which wraps at 2^32, is enough for every run of the queue if and only if the depth is 0 or the block has a cell more than asked for |
| `QueueMemory.ChosenSufficesIff` | src/comm/queue.c:50 | without wrapping: if and only if the depth is at most 1, or the free chunk taken is larger than asked for and too small to be split |
| `MessageQueue.PostAppends` | src/comm/queue.c:265-279 | a post appends to the content of the ring of max_length + 1 cells and keeps head = (tail + length) mod (max_length + 1) |
| `MessageQueue.PendTakesOldest` | src/comm/queue.c:156-174 | a pend takes the oldest value and keeps the same |
| `MessageQueue.DoPendKeeps` | src/comm/queue.c:84-202 | a pass of queue_pend keeps: waiting readers imply at least length woken readers, waiting writers at least max_length - length woken writers |
| `MessageQueue.DoPostKeeps` | src/comm/queue.c:204-294 | a pass of queue_post keeps the same |
| `MessageQueue.MessageQueue.PendSection` | src/comm/queue.c:104-174 | one pass over the container and two linked lists: an error exactly if the queue is not initialized; a place at the end of the readers' line exactly if it is empty; else the oldest value, and the writer that came first goes on; the list operations never panic |
| `MessageQueue.MessageQueue.PostSection` | src/comm/queue.c:218-279 | the same for posting: a place at the end of the writers' line exactly if the queue is full, else the value is written in place and the reader that came first goes on |
| `MessageQueue.MessageQueue.DestroySection` | src/comm/queue.c:296-380 | wakes readers, then writers, each in order, and leaves the queue uninitialized, without container, length or indexes |
| `MessageQueue.PendAnswers` | src/comm/queue.c:104-174 | the three answers of a pass of queue_pend and all it changes, each exactly when the code gives it |
| `MessageQueue.PostAnswers` | src/comm/queue.c:218-279 | the same for queue_post |
| `MessageQueue.EveryCallWaitsIff` | src/comm/queue.c:84-294 | in every reachable state, who enters queue_pend or queue_post or looks again stands in its line afterwards if and only if the queue is empty or full, and receives the oldest value or posts its own otherwise |
| `MessageQueue.SomeoneWaits` | src/comm/queue.c:115-149 | whatever the depth, some run brings a reader to wait and some run a writer |
| `MessageQueue.EveryRunDestroyed` | src/comm/queue.c:296-380 | over every interleaving, after a destruction the queue stays uninitialized with nobody waiting, nothing is posted or received any more, whoever waited is woken, and who looks again or comes new is told at once and changes nothing |
| `Mailbox.EveryRun` | src/comm/mailbox.c:73-267 | over every interleaving: every value is received once and in post order, at most one is under way, a full box with waiting readers has a woken reader and an empty one with waiting writers a woken writer, and waiting and woken writers still carry their values |
| `Mailbox.DoPendKeeps` | src/comm/mailbox.c:73-183 | a pass of mailbox_pend keeps this |
| `Mailbox.DoPostKeeps` | src/comm/mailbox.c:185-267 | a pass of mailbox_post keeps this |
| `Mailbox.Mailbox.PendSection` | src/comm/mailbox.c:96-156 | one pass over two linked lists: an error exactly if the box is not initialized; a place at the end of the readers' line exactly if it is empty; else its value, and the writer that came first goes on; no panic |
| `Mailbox.Mailbox.PostSection` | src/comm/mailbox.c:199-249 | the same for posting: a place at the end of the writers' line exactly if the box is full, else it holds the value and the reader that came first goes on |
| `Mailbox.Mailbox.DestroySection` | src/comm/mailbox.c:269-348 | wakes readers, then writers, each in order, and leaves the box uninitialized and empty |
| `Mailbox.PendAnswers` | src/comm/mailbox.c:96-156 | the three answers of a pass of mailbox_pend and all it changes, each exactly when the code gives it |
| `Mailbox.PostAnswers` | src/comm/mailbox.c:199-249 | the same for mailbox_post |
| `Mailbox.EveryCallWaitsIff` | src/comm/mailbox.c:73-267 | in every reachable state, who enters mailbox_pend or mailbox_post or looks again stands in its line afterwards if and only if the box is empty or full, and receives its value or posts its own otherwise |
| `Mailbox.SomeoneWaits` | src/comm/mailbox.c:107-140 | some run brings a reader to wait and some run a writer |
| `Mailbox.EveryRunDestroyed` | src/comm/mailbox.c:269-348 | over every interleaving, after a destruction the box stays uninitialized with nobody waiting, nothing is posted or received any more, whoever waited is woken, and who looks again or comes new is told at once and changes nothing |
| `Paging.MmapMapsExactly` | src/memory/paging.c:251-351 | with flags below 0x1000 exactly the pages of the range go to consecutive frames with the flags given and no other page changes; without remapping it succeeds if and only if the whole range was unmapped, and otherwise answers OS_ERR_MAPPING_ALREADY_EXISTS and maps exactly the pages before the first mapped one |
| `Paging.MmapAddressesIff` | src/memory/paging.c:274-276 | the range leads to the physical range byte for byte if and only if both start at the same offset in a page |
| `Paging.UnmapUndoesMap` | src/memory/paging.c:251-427 | kernel_munmap after mapping a wholly unmapped range restores the whole translation |
| `Paging.MunmapIff` | src/memory/paging.c:353-427 | kernel_munmap succeeds if and only if every page of the range is mapped, and unmaps them; otherwise it answers OS_ERR_MEMORY_NOT_MAPPED and unmaps exactly the pages before the first that is not mapped; no other page is touched |
| `Paging.WrappedRangeMapsNothing` | src/memory/paging.c:267-286 | a range whose 32-bit end wraps below its first page maps nothing and is reported as a success |
| `Paging.PagesAre` | src/memory/paging.c:267-286 | the pages that a call works on: from the page of its first byte on, those that start below its 32-bit end |
| `Paging.PagesTouched` | src/memory/paging.c:267-286 | if the end does not wrap, these are exactly the pages of the bytes of the range |
| `Paging.EntryIs` | src/memory/paging.c:333-335 | the bits of a table entry: frame, flags, present |
| `Paging.PageTables.KernelMmap` | src/memory/paging.c:251-351 | the loop over directory and tables, creating tables on the way, has the processor's walk see exactly the pages that the call means to map |
| `Paging.PageTables.KernelMunmap` | src/memory/paging.c:353-427 | the same for unmapping |
| `Paging.PageTables.InitPaging` | src/memory/paging.c:90-187 | after setup exactly the kernel pages but page 0 are mapped, each to itself, for writing; an error exactly if no memory range with a base other than 0 is available, or the first free frame is outside the first such range |
| `Paging.FindRange` | src/memory/paging.c:96-112 | the first memory range that is available and has a base other than 0, or the number of ranges exactly if there is none |
| `Paging.PageTables.CreateTable` | src/memory/paging.c:296-315 | a new table changes no translation |
| `Paging.PageTables.SetupTables` | src/memory/paging.c:130-161 | the nested setup loops build the identity mapping without page 0 |
| `Paging.CountTables` | src/memory/paging.c:115-119 | the number of 4 MB tables that cover the memory below the user memory, in whole kilobytes |
| `Nesting.EveryInterleaving` | src/core/interrupts.c:226-257 | over every interleaving of threads that run any calls, with timer ticks and device handlers at any moment: the panic for scheduling with interrupts off is unreachable, the one counter is what the active thread made of it, and every other thread left it at 0 |
| `Nesting.CallsReturnAtZero` | src/core/scheduler.c:571-576 | entered at nesting 0, each call of the kernel reaches schedule only at 0 and returns at 0, on every path |
| `Nesting.CreateLeads` | src/core/scheduler.c:905-1075 | all nine ways out of create_thread balance, with the nested allocations |
| `Nesting.WaitLeads` | src/core/scheduler.c:1077-1135 | wait_thread, sleep and thread_exit balance and schedule at 0 |
| `Nesting.PendLeads` | src/sync/semaphore.c:135-194 | the waiting loops schedule at 0 and balance |
| `Nesting.PostLeads` | src/sync/semaphore.c:199-275 | sem_post and mutex_post balance, the latter scheduling at 0 |
| `Nesting.DestroyLeads` | src/comm/queue.c:296-380 | the destroy calls unlock under the lock without scheduling, and balance |
| `Nesting.InitLeads` | src/comm/queue.c:38-82 | the init calls balance |
| `Nesting.SystemThreadsLead` | src/core/scheduler.c:94-223 | init's loop over its children and idle's loop balance |
| `Nesting.HandlerLeads` | src/core/interrupts.c:75-109 | interrupt handlers that only post, try or use memory balance |
| `Nesting.SleepWithInterruptsOff` | src/core/scheduler.c:571-576 | with interrupts off, a call that schedules does reach the panic |
| `Nesting.WhoSchedules` | src/core/scheduler.c:571-576 | of the calls, exactly wait_thread, sleep, sem_pend, mutex_pend, mutex_post and those that pend or post on queues and mailboxes may call schedule, and each may also return without; the others never do |
| `Nesting.WakersEndScheduling` | src/core/scheduler.c:1165-1219 | who wakes a thread through mutex_post, a queue or a mailbox may end with a call of schedule; sem_post, sem_pend and mutex_pend never do |
| `Nesting.ExitSchedules` | src/core/scheduler.c:231-327 | thread_exit calls schedule on every path |
| `Interrupts.InterruptUnit.constructor` | src/core/interrupts.c:111-154 | exceptions and the panic line panic, the last line is spurious, all others are free, and interrupts are off |
| `Interrupts.InterruptUnit.Dispatch` | src/core/interrupts.c:75-109 | an interrupt is ignored if and only if interrupts are off and its line is at least 0x20 and neither 0x21 nor 0x2A; else it goes to its handler, exceptions to the panic handler, and without a handler it is a panic |
| `Interrupts.InterruptUnit.Register` | src/core/interrupts.c:156-195 | exactly one entry changes, only for a free line between the exceptions and the spurious line, and exceptions stay with their handler |
| `Interrupts.InterruptUnit.Remove` | src/core/interrupts.c:197-224 | exactly one entry is freed, under the same limits |
| `Interrupts.NestingIs` | src/core/interrupts.c:226-257 | short of its upper end, the counter is the largest of the balance of all disabling and enabling calls and the balances of their last stretches: enabling calls that are not owed are forgotten |
| `Interrupts.OnAgainIff` | src/core/interrupts.c:226-263 | interrupts are on again if and only if neither all calls nor any last stretch of them disabled more often than it enabled |
| `Interrupts.ExactIff` | src/core/interrupts.c:226-257 | the counter is the plain balance if and only if no enabling call came that was not owed |
| `Memmem.Search` | src/lib/string/memmem.c:20-58 | the first occurrence of a non-empty needle, null exactly when there is none, as trying every position in turn would find it; null for an empty needle |
| `Memmem.SearchLong` | src/lib/string/memmem.c:30-51 | the two strides never jump over an occurrence |
| `Memmem.SearchByte` | src/lib/string/memmem.c:52-57 | a needle of one byte |
| `Memmem.FirstFromIs` | src/lib/string/memmem.c:20-58 | what the position-by-position search finds |
| `Numerals.UitoaReads` | src/lib/stdlib/uitoa.c:31-63 | for every 32-bit value and base 2 to 16: 1 to 32 digits below the base, no leading zero but for 0, that read as the value taken without sign |
| `Numerals.ItoaReads` | src/lib/stdlib/itoa.c:28-46 | base 10 reads back with the sign, also for the smallest value; other bases read as the value without sign |
| `Numerals.OnlyNumeral` | src/lib/stdlib/uitoa.c:49-53 | the digits are the only numeral without leading zero for the value |
| `Numerals.UitoaInjective` | src/lib/stdlib/uitoa.c:31-63 | different values print differently |
| `Numerals.TakeDigits` | src/lib/stdlib/uitoa.c:49-53 | the division loop leaves the digits, last one first, in at most 32 cells |
| `Numerals.CopyBack` | src/lib/stdlib/uitoa.c:55-62 | the copying loop turns them around and terminates them |
| `Numerals.Uitoa` | src/lib/stdlib/uitoa.c:31-63 | the buffer holds the text and a zero, and is unchanged elsewhere; bases above 16 print 0 |
| `Numerals.Itoa` | src/lib/stdlib/itoa.c:28-46 | the same with the sign; bases above 16 write nothing |

## Left out

- Orphans: thread_exit handing children to init, joins by threads that are not the parent, and a second joiner.
- DEAD threads: a joined thread is gone from the model, so no call refers to it again.
- Scheduler.KernelScheduler.CreateThread: pids do not wrap around, and kernel stacks, names and statistics are not modelled.
- Scheduler.KernelScheduler.constructor: the records of the threads are values in a map, and so are the lists of children; the tables, the waiting lists and the nodes in them are linked objects.
- Scheduler.KernelScheduler.LockThread: lock_thread and the enlisting that its callers do under their spinlock are one step.
- Scheduler.KernelScheduler.SleepThread: the two assignments of sleep are one step, although a tick may come between them.
- Scheduler.KernelScheduler.ScheduleInt: saving and restoring registers and stacks, the tick count and the end-of-interrupt signal.
- Semaphore.Semaphore.PendSection: null pointers, and the failure of the list's allocation in the init calls, for all four primitives.
- MessageQueue.MessageQueue.constructor: has one cell more than the code allocates, as said above; queue_length, queue_isempty and mailbox_isempty only read a field.
- Mutex.EveryRun: fairness, which the code does not give: a newcomer may overtake a woken thread, in all four primitives.
- Nesting.CallsReturnAtZero: the branches in which a list operation fails and the kernel panics, which the list proofs show unreachable; drivers and their handlers beyond those that post, try or use memory.
- Paging.PageTables.KernelMmap: ranges that reach the last page, the TLB flush, and the loading of control registers.
- Numerals.Itoa: the negation of the smallest number is taken to wrap, as compiled code does; the C standard leaves it undefined.
- The multi-core branch of the spinlock, which is not compiled.
- Drivers, BIOS calls, ACPI and multiboot tables, text and graphics output: hardware or firmware behaviour that is not in the files.
- The other string and memory functions, get_threads_info, and the packing of descriptor tables: they would only add easy members.
