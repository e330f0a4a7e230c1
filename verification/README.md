# A verified model of the rump kernel core and of two MagicWand protocols

The project models, in Dafny, the parts of the repository whose correctness is hardest to see
from the code, and proves what they are for.

* **Memory.** `Dyadic`, `Bitmap`, `FreeBlocks`, `Pgalloc` and `PgRuns` model the binary buddy
  page allocator: the word-packed bitmap against a set of pages, greedy carving, splitting and
  coalescing. The central theorem is a canonical form: the free lists hold exactly the maximal
  aligned power-of-two blocks of free pages. Completeness of allocation, safety of the header
  reads in coalescing and history independence follow. `Memalloc` stacks the bucket allocator
  with hidden headers on it, and `HeapRuns` shows that over whole runs the heap behaves like
  separate buffers. `RumpuserMem` chooses block sizes, and `RumpRuns` runs both allocators on
  one page allocator.
* **Scheduling.** `Sched` is the cooperative scheduler as a state machine with one step per API
  call, per turn of the scheduler loop, per return from a context switch, and per wakeup from
  anywhere; `SchedTheorems` states what holds in every reachable state and along every run, and
  `Lifecycle` follows a thread from its creation to its end; `SchedCode` is the code updating its queues in place, each method proved to take its step.
  `Synch`, `SynchTheorems`, `SynchOrder` and `SynchCode` do the same for wait lists and mutexes
  on top.
* **Text.** `Jsmn` specifies the JSON tokenizer and `JsmnCode` fills the token array in place;
  `JsonText` proves that every JSON text parses to the preorder flattening of its tree, and
  `JsonCommas` when the parser leaves its array, and `JsonErrors` which error a broken text
  gives. `Printf`, `PrintfCode`, `Numerals`, `Strtoul`, `Numeral` and `PrintRead` model the
  formatted printer and the number reader, prove that they undo each other and say where they
  depart from the C standard; `Formats` and `Printed` prove what formats mean and what the
  conversions print.
* **Protocols.** `BatchSend` follows a buffer from the shim's chunking through the send loop to
  the driver's tally; `Pollset` is the round-robin scan with its fairness theorem.

Code that updates objects in place is modelled by classes whose methods are proved against
specification functions; the theorems are about those functions and about the invariants.

What the model shows about the code, where it differs from what comments or callers expect:

* `bmk_pgalloc_align`, the coalescing loop and the heap meet their promises on all inputs.
* `jsmn_parse` reads `tokens[-1]` at a comma for which no token is the parent, for instance a
  lone comma. `JsonCommas.UndefinedRead` gives the exact condition on the text, and
  `JsonCommas.CommasInsideDefined` the one a caller would use: commas inside open brackets only.
* `bmk_strtoul` sets the end pointer to the start of the string when the number overflows and
  when `0x` is not followed by a hexadecimal digit, unlike the C standard's function;
  `Numeral.EndPointer` proves that these are the only cases.
* `%#.0o` of zero prints nothing in `kprintf`, and `%hu` prints the whole int sign-extended;
  `PrintRead.AltOctalZero` and `PrintRead.ShortUnsigned` say exactly when the result is the
  one of the C standard.
* The shim's `send()` retries a failed write "asserting final" without setting FINI. The driver
  stays in batch mode when, after such a retry, a write fails again or a chunk before the last
  is answered with an error, and also when the first failed write is that of the last chunk.
  `BatchSend.LeftOpen` is the exact condition on the attempts, `BatchSend.Foretold` the one on
  the device and the outcomes, and `BatchSend.StaleWitness` and `BatchSend.ErrorRun` show both
  ways. The next batch's total then includes the old tally (`BatchSend.UnfinishedBatch`,
  `BatchSend.NextBatch`).
* The count of a batch has 16 bits: `BatchSend.FullLength` proves that the result is the length
  if and only if it is positive and below 65536.
* When a chunk is sent in part and a later one is sent, the bytes on the socket have a gap that
  the count does not show (`BatchSend.EndToEnd`, `BatchSend.GapWitness`).
* Short counts and counts with an old tally differ from what the shim has written. In a build
  with `MYDEBUG` or `MYTRAP` its assertions `tot_sent == rc` and `Len == tot_sent`
  (protvm/user/wrapper/tcp_ip_wrapper.c:1091-1092) report such a result, and with `MYTRAP` stop
  there; otherwise it is returned.

## Model

| member | source | states |
|---|---|---|
| `Bitmap.MapAlloc` | ins/ins-rump/lib/libbmk_core/pgalloc.c:143-156 | exactly the pages [first, first+count) are added to the set of pages the words stand for, for every start and length, including ranges that end on a word boundary; no index leaves the bitmap |
| `Bitmap.MapFree` | ins/ins-rump/lib/libbmk_core/pgalloc.c:158-171 | the same for removing the pages |
| `Bitmap.BitOfRun` | ins/ins-rump/lib/libbmk_core/pgalloc.c:126-131 | the mask arithmetic: a difference of two powers of two has exactly the bits between the exponents set |
| `Pgalloc.BitmapCovers` | ins/ins-rump/lib/libbmk_core/pgalloc.c:330-334 | the size computed at load time has a word for every index the map operations can form |
| `Pgalloc.LoadedRange` | ins/ins-rump/lib/libbmk_core/pgalloc.c:319-337 | for every range of memory: the managed pages go from the first whole page behind the bitmap to the last whole page, and the bitmap takes as few pages as hold a bit for each page and a spare byte, in plain arithmetic on the two addresses |
| `FreeBlocks.Laminar` | ins/ins-rump/lib/libbmk_core/pgalloc.c:454-482 | aligned power-of-two blocks that share a frame are nested |
| `FreeBlocks.MaximalDominates` | ins/ins-rump/lib/libbmk_core/pgalloc.c:454-484 | a maximal free block contains every aligned free block it meets |
| `FreeBlocks.MaximalDisjoint` | ins/ins-rump/lib/libbmk_core/pgalloc.c:454-484 | different maximal free blocks are disjoint |
| `FreeBlocks.MaximalIsLargest` | ins/ins-rump/lib/libbmk_core/pgalloc.c:454-484 | a free block that cannot be merged with its buddy is maximal in the usual sense: no larger aligned block around it is free |
| `FreeBlocks.MaximalExists` | ins/ins-rump/lib/libbmk_core/pgalloc.c:454-484 | every free frame lies in a maximal block whose order has a free list, so the merged order never runs off the array |
| `FreeBlocks.CarveMaximal` | ins/ins-rump/lib/libbmk_core/pgalloc.c:281-296 | the chunk `carverange` cuts first is a maximal block of the range |
| `FreeBlocks.CarveStep` | ins/ins-rump/lib/libbmk_core/pgalloc.c:281-296 | it and the rest of the range cover the range, are disjoint, and no aligned block straddles them |
| `FreeBlocks.LeftoverCanonical` | ins/ins-rump/lib/libbmk_core/pgalloc.c:402-406 | the maximal blocks of what a split leaves over are exactly one of each order from the requested one up to, but not including, the source order |
| `Pgalloc.PageAllocator.LoadMem` | ins/ins-rump/lib/libbmk_core/pgalloc.c:306-348 | after loading, the free frames are all managed ones, nothing is used, and the state is canonical |
| `Pgalloc.PageAllocator.CarveRange` | ins/ins-rump/lib/libbmk_core/pgalloc.c:275-301 | carving a range separate from the listed chunks extends the canonical free lists by it |
| `Pgalloc.PageAllocator.FreeChunkLink` | ins/ins-rump/lib/libbmk_core/pgalloc.c:204-213 | links a chunk at the head of its list and stamps its header |
| `Pgalloc.PageAllocator.FindChunk` | ins/ins-rump/lib/libbmk_core/pgalloc.c:350-391 | the first suitable chunk of the lowest level that has one, or none exactly when no listed chunk is suitable |
| `Pgalloc.PageAllocator.TakeChunk` | ins/ins-rump/lib/libbmk_core/pgalloc.c:392-411 | takes the front of the chunk out of the free frames and keeps the canonical form |
| `Pgalloc.PageAllocator.PgAllocAlign` | ins/ins-rump/lib/libbmk_core/pgalloc.c:373-428 | fails if and only if no wholly free block of the order exists at a multiple of its size and of the alignment; otherwise returns such a block from a best-fitting chunk, and the free frames shrink by exactly it |
| `Pgalloc.PageAllocator.PgAlloc` | ins/ins-rump/lib/libbmk_core/pgalloc.c:366-371 | the same at page alignment |
| `Pgalloc.CandidateChunk` | ins/ins-rump/lib/libbmk_core/pgalloc.c:351-364 | testing only the bases of listed chunks loses nothing: around any suitable block the maximal block is suitable |
| `Pgalloc.BuddyIsListed` | ins/ins-rump/lib/libbmk_core/pgalloc.c:185-191 | a managed buddy address whose bit is clear heads a listed chunk of order at most the current one, so the magic assertion never fires |
| `Pgalloc.NoMerge` | ins/ins-rump/lib/libbmk_core/pgalloc.c:455-476 | when the merge test fails the freed block is maximal |
| `Pgalloc.Merge` | ins/ins-rump/lib/libbmk_core/pgalloc.c:463-481 | merging keeps the lists canonical for the frames outside the grown block |
| `Pgalloc.PageAllocator.CanMerge` | ins/ins-rump/lib/libbmk_core/pgalloc.c:455-476 | the three-part test is true exactly when the buddy is a free chunk of the same order, and it reads only valid headers |
| `Pgalloc.PageAllocator.Coalesce` | ins/ins-rump/lib/libbmk_core/pgalloc.c:454-484 | the loop links the maximal block around the freed one; the lists are canonical again |
| `Pgalloc.PageAllocator.PgFree` | ins/ins-rump/lib/libbmk_core/pgalloc.c:430-487 | the free frames grow by exactly the block, all invariants are kept, and no memory outside free frames is written |
| `Pgalloc.CanonicalUnique` | ins/ins-rump/lib/libbmk_core/pgalloc.c:201-202 | the free lists are determined, level by level, by the set of free frames |
| `Pgalloc.HistoryIndependent` | ins/ins-rump/lib/libbmk_core/pgalloc.c:339-347 | lists, bitmap, headers of free chunks and the used counter depend only on the free frames |
| `Pgalloc.ListedIsFree` | ins/ins-rump/lib/libbmk_core/pgalloc.c:201-213 | the listed chunks together hold exactly the free frames |
| `Pgalloc.UsedPlusFree` | ins/ins-rump/lib/libbmk_core/pgalloc.c:339-340 | used kilobytes plus listed kilobytes equal the total loaded |
| `PgRuns.Serve` | ins/ins-rump/lib/libbmk_core/pgalloc.c:373-487 | after any run of allocations and matching frees the outstanding blocks are aligned, managed and pairwise disjoint, and a managed frame is free exactly when in none of them |
| `PgRuns.RunIndependent` | ins/ins-rump/lib/libbmk_core/pgalloc.c:373-487 | two runs that leave the same blocks outstanding, in whatever order, leave the same lists, bitmap and counter |
| `PgRuns.AllocThenFree` | ins/ins-rump/lib/libbmk_core/pgalloc.c:402-411 | an allocation followed by its free restores the free lists, the free frames and the used counter |
| `Memalloc.OneBitIsPow2` | ins/ins-rump/lib/libbmk_core/memalloc.c:168-169 | `x & (x-1)` is zero exactly for powers of two |
| `Memalloc.BucketFits` | ins/ins-rump/lib/libbmk_core/memalloc.c:182-189 | the bit tricks choose the smallest power-of-two block that fits |
| `Memalloc.PadIsAlign` | ins/ins-rump/lib/libbmk_core/memalloc.c:200-202 | rounding up past the header leaves padding of exactly the alignment |
| `Memalloc.ChooseBucket` | ins/ins-rump/lib/libbmk_core/memalloc.c:168-189 | effective alignment and bucket: the smallest block that holds padding and request |
| `Memalloc.MemAllocator.MoreCore` | ins/ins-rump/lib/libbmk_core/memalloc.c:93-120 | a fresh page is cut into blocks, all but the first listed; fails exactly when no page is free |
| `Memalloc.MemAllocator.BucketAlloc` | ins/ins-rump/lib/libbmk_core/memalloc.c:133-157 | a block off the list or from a new page, counted; fails exactly when both are missing |
| `Memalloc.MemAllocator.MemAlloc` | ins/ins-rump/lib/libbmk_core/memalloc.c:159-215 | refuses a bad alignment; otherwise fails exactly when bucket and page allocator are exhausted, else adds one live region at a multiple of the alignment asked and keeps the heap invariant; frames only move from the free ones to those in use |
| `Memalloc.BucketBound` | ins/ins-rump/lib/libbmk_core/memalloc.c:191-193 | the order asked of the page allocator is one it has, so that its assertion holds, if and only if padding and request are at most 2^63 bytes |
| `Memalloc.MemAllocator.MemFree` | ins/ins-rump/lib/libbmk_core/memalloc.c:243-296 | removes exactly the region; a large one returns exactly its frames |
| `Memalloc.PointerAligned` | ins/ins-rump/lib/libbmk_core/memalloc.c:168-203 | the pointer of a region is a multiple of the alignment asked for and of 16, and padding and bytes lie in its block |
| `Memalloc.MemAllocator.MemCalloc` | ins/ins-rump/lib/libbmk_core/memalloc.c:228-241 | refuses a product over 64 bits; otherwise fails exactly when there is no block, else a new region, cleared, with no other byte changed |
| `Memalloc.MemAllocator.MemRealloc` | ins/ins-rump/lib/libbmk_core/memalloc.c:307-339 | the three modes; a call that fits the block returns the pointer, a growing one fails exactly when bucket and page allocator are exhausted; a moved region keeps all usable old bytes, a failed call keeps the old region |
| `Memalloc.LiveApart` | ins/ins-rump/lib/libbmk_core/memalloc.c:159-215 | any two live regions, headers and padding included, are disjoint |
| `Memalloc.LiveApartFromListed` | ins/ins-rump/lib/libbmk_core/memalloc.c:133-157 | a live region is disjoint from every listed block |
| `Memalloc.LiveInTakenFrames` | ins/ins-rump/lib/libbmk_core/memalloc.c:191-196 | live regions lie in frames taken from the page allocator |
| `Memalloc.CopyKeepsOthers` | ins/ins-rump/lib/libbmk_core/memalloc.c:336-337 | the copy in realloc changes no byte of another live region |
| `HeapRuns.Serve` | ins/ins-rump/lib/libbmk_core/memalloc.c:159-339 | after any run of malloc, calloc, realloc, free and writes of the application the live regions are exactly the outstanding ones, each with the padding, owner and size asked for, and memory holds what a run over separate buffers says: calls and writes leave the bytes of other regions alone, calloc clears, realloc carries the bytes over |
| `HeapRuns.RegionsApart` | ins/ins-rump/lib/libbmk_core/memalloc.c:159-339 | of what a run leaves outstanding, each region is aligned as asked and large enough behind its header, and the blocks of any two are apart |
| `RumpuserMem.OrderFits` | ins/ins-rump/lib/libbmk_rumpuser/rumpuser_mem.c:37-47 | `len2order` is the least order whose block holds the length |
| `RumpuserMem.MallocPages` | ins/ins-rump/lib/libbmk_rumpuser/rumpuser_mem.c:49-69 | a large request fails exactly when no block of that order and alignment is free, and takes exactly one block |
| `RumpuserMem.FreePages` | ins/ins-rump/lib/libbmk_rumpuser/rumpuser_mem.c:71-80 | freeing with the same length gives back exactly the frames taken |
| `RumpRuns.Serve` | ins/ins-rump/lib/libbmk_rumpuser/rumpuser_mem.c:49-80 | after any run of `rumpuser_malloc`, `rumpuser_free`, `bmk_memalloc` and `bmk_memfree` on one page allocator, what is outstanding are exactly the live regions and blocks of pages that neither allocator counts as free or its own, and every managed frame is free, in use by the block allocator or in such pages |
| `RumpRuns.AllApart` | ins/ins-rump/lib/libbmk_rumpuser/rumpuser_mem.c:49-80 | the bytes of any two things such a run has outstanding, from whichever allocator, are apart |
| `Sched.TimeqPlace` | ins/ins-rump/lib/libbmk_core/sched.c:195-220 | the insertion place is behind every deadline up to the new one and before the first later one |
| `Sched.WakeInv` | ins/ins-rump/lib/libbmk_core/sched.c:640-646 | a wakeup of any live thread keeps the scheduler invariant |
| `Sched.PrepareInv` | ins/ins-rump/lib/libbmk_core/sched.c:601-614 | preparing to block keeps it |
| `Sched.ExpireMovesDue` | ins/ins-rump/lib/libbmk_core/sched.c:326-340 | an expiry pass moves exactly the due threads, in deadline order, to the tail of the run queue, marked as timed out |
| `Sched.ExpireLeavesNoneDue` | ins/ins-rump/lib/libbmk_core/sched.c:326-340 | no due thread is left on the time queue |
| `Sched.StepInv` | ins/ins-rump/lib/libbmk_core/sched.c:147-380 | every step keeps the invariant, so none of the scheduler's assertions and halts is reached |
| `Sched.ReachableInv` | ins/ins-rump/lib/libbmk_core/sched.c:681-705 | the invariant holds in every reachable state |
| `SchedTheorems.QueueDiscipline` | ins/ins-rump/lib/libbmk_core/sched.c:147-190 | each thread is on exactly the queue its bit names, carries at most one bit, and is on some queue when live and not current |
| `SchedTheorems.ExactlyOneRunning` | ins/ins-rump/lib/libbmk_core/sched.c:355-359 | between calls exactly one thread runs, the current one |
| `SchedTheorems.NoDanglingThread` | ins/ins-rump/lib/libbmk_core/sched.c:371-380 | nothing on a queue was freed, and nothing is freed twice |
| `SchedTheorems.ReapsOnlyTheDead` | ins/ins-rump/lib/libbmk_core/sched.c:371-380 | what the reaper frees is dead, not current and on no queue |
| `SchedTheorems.WakeReachesRunq` | ins/ins-rump/lib/libbmk_core/sched.c:147-190 | a wakeup makes a queued thread runnable, also between `blockprepare` and `block` |
| `SchedTheorems.RunnableUntilDispatched` | ins/ins-rump/lib/libbmk_core/sched.c:342-360 | a runnable thread stays so and never moves back until it gets the CPU |
| `SchedTheorems.BoundedWaiting` | ins/ins-rump/lib/libbmk_core/sched.c:302-360 | it gets the CPU after at most one scheduler round per thread in front |
| `SchedTheorems.YieldsToAll` | ins/ins-rump/lib/libbmk_core/sched.c:741-756 | a thread that yields goes behind all that are runnable |
| `SchedTheorems.TimeqSorted` | ins/ins-rump/lib/libbmk_core/sched.c:195-220 | the time queue is sorted in every reachable state |
| `SchedTheorems.TiesInArrivalOrder` | ins/ins-rump/lib/libbmk_core/sched.c:208-219 | ties are kept in order of arrival |
| `SchedTheorems.IdleMeetsDeadlines` | ins/ins-rump/lib/libbmk_core/sched.c:314-354 | idling never lasts past the earliest deadline |
| `SchedTheorems.BlockResult` | ins/ins-rump/lib/libbmk_core/sched.c:623-638 | `block` reports a timeout exactly when the expiry pass made the thread runnable |
| `SchedTheorems.CauseIsTheMove` | ins/ins-rump/lib/libbmk_core/sched.c:326-346 | the recorded cause is the step that moved the thread |
| `SchedTheorems.JoinAfterExit` | ins/ins-rump/lib/libbmk_core/sched.c:549-579 | the join loop lets its caller through if and only if the target has announced exit |
| `SchedTheorems.DiesOnlyReleased` | ins/ins-rump/lib/libbmk_core/sched.c:509-534 | a joinable thread dies only after a joiner released it |
| `SchedTheorems.OnlyJoinersRelease` | ins/ins-rump/lib/libbmk_core/sched.c:573-578 | only the joiner of a thread that announced exit releases it |
| `SchedTheorems.HandshakeNotLost` | ins/ins-rump/lib/libbmk_core/sched.c:509-525 | neither side of the handshake stays blocked once the other has done its part |
| `Lifecycle.CreatesThread` | ins/ins-rump/lib/libbmk_core/sched.c:441-481 | a created thread was never there before, is alive and runnable, and must be joined exactly when that was asked for; no other thread changes |
| `Lifecycle.LifeStep` | ins/ins-rump/lib/libbmk_core/sched.c:500-580 | for every step and every thread: it dies, or announces its exit when it must be joined, exactly at its own exit gate; it stops having to be joined exactly when its joiner finds the announcement; nothing else changes either |
| `Lifecycle.JoinableLives` | ins/ins-rump/lib/libbmk_core/sched.c:460-461 | along every run after its creation a joinable thread is neither dead nor freed unless a joiner that found its announcement has released it |
| `Lifecycle.DetachedDies` | ins/ins-rump/lib/libbmk_core/sched.c:460-461 | along every run a thread not created joinable can never be joined, and its first pass of the exit gate is its end |
| `Lifecycle.FreesTheDead` | ins/ins-rump/lib/libbmk_core/sched.c:371-380 | when a thread that has run before gets the CPU back, all dead threads are freed |
| `Lifecycle.ExitReachesGate` | ins/ins-rump/lib/libbmk_core/sched.c:503-510 | a thread that exits comes to its gate at once |
| `Lifecycle.JoinWaits` | ins/ins-rump/lib/libbmk_core/sched.c:549-580 | along every run `bmk_sched_join` does not return before its target has announced its exit and been released |
| `Lifecycle.SleepStep` | ins/ins-rump/lib/libbmk_core/sched.c:601-646 | a wakeup ends a sleep, a round of the scheduler ends it as a timeout exactly when the deadline has passed, and no other step of any thread ends it or moves the deadline |
| `Lifecycle.SleepsUntil` | ins/ins-rump/lib/libbmk_core/sched.c:601-646 | along every run from `blockprepare` on: a thread sleeps until the first wakeup or the first scheduler round at or after the deadline it gave, and without a deadline until a wakeup |
| `SchedCode.Scheduler.StartMain` | ins/ins-rump/lib/libbmk_core/sched.c:681-705 | starts in the initial state |
| `SchedCode.Scheduler.SetRunnable` | ins/ins-rump/lib/libbmk_core/sched.c:147-190 | in-place update equal to the specified move |
| `SchedCode.Scheduler.TimeqSortedInsert` | ins/ins-rump/lib/libbmk_core/sched.c:195-220 | the scan inserts at the specified place |
| `SchedCode.Scheduler.Prepare` | ins/ins-rump/lib/libbmk_core/sched.c:601-614 | takes step `DoPrepare` |
| `SchedCode.Scheduler.Block` | ins/ins-rump/lib/libbmk_core/sched.c:623-632 | takes step `DoBlock`; its assertions hold |
| `SchedCode.Scheduler.WakeThread` | ins/ins-rump/lib/libbmk_core/sched.c:640-646 | takes step `DoWake` |
| `SchedCode.Scheduler.Yield` | ins/ins-rump/lib/libbmk_core/sched.c:741-756 | takes step `DoYield` |
| `SchedCode.Scheduler.Create` | ins/ins-rump/lib/libbmk_core/sched.c:441-481 | takes step `DoCreate` with a thread that never existed |
| `SchedCode.Scheduler.ScheduleRound` | ins/ins-rump/lib/libbmk_core/sched.c:314-360 | one turn of the scheduler loop is step `DoTick`; when idle, it says until when |
| `SchedCode.Scheduler.ReapZombies` | ins/ins-rump/lib/libbmk_core/sched.c:371-380 | frees exactly the threads on the zombie queue |
| `SchedCode.Scheduler.ExitGate` | ins/ins-rump/lib/libbmk_core/sched.c:509-537 | one pass of the exit gate is step `DoGate` |
| `SchedCode.Scheduler.JoinRound` | ins/ins-rump/lib/libbmk_core/sched.c:558-578 | one test of the join loop is step `DoTest` |
| `SchedCode.Scheduler.Resume` | ins/ins-rump/lib/libbmk_core/sched.c:371-380 | the return from the context switch is step `DoReturn`, with the result of `block` |
| `Synch.WaiterKept` | ins/ins-rump/lib/libbmk_rumpuser/rumpuser_synch.c:50-70 | whatever other threads do, a thread inside `wait` stays inside, and ready once ready |
| `Synch.SyncStepInv` | ins/ins-rump/lib/libbmk_rumpuser/rumpuser_synch.c:50-94 | every step of wait lists, mutexes and scheduler keeps the combined invariant |
| `SynchTheorems.WakesExactlyOne` | ins/ins-rump/lib/libbmk_rumpuser/rumpuser_synch.c:72-82 | `wakeup_one` on a list that is not empty takes off exactly the head, which is then ready |
| `SynchTheorems.WokenReturnsSuccess` | ins/ins-rump/lib/libbmk_rumpuser/rumpuser_synch.c:65-70 | along any run, a waiter taken off its list stays ready and returns success whenever it returns, even if its deadline passes |
| `SynchTheorems.OnlyWakeupsSucceed` | ins/ins-rump/lib/libbmk_rumpuser/rumpuser_synch.c:72-94 | only a wakeup on its own list makes a waiter succeed, and `wakeup_one` only the head |
| `SynchTheorems.MutualExclusion` | ins/ins-rump/lib/libbmk_rumpuser/rumpuser_synch.c:170-186 | at most one thread is inside a mutex, and the owner field names it |
| `SynchTheorems.EntersOnlyFree` | ins/ins-rump/lib/libbmk_rumpuser/rumpuser_synch.c:170-186 | a mutex is entered by the running thread and only when nobody is inside |
| `SynchTheorems.FreeMutexHasRetrier` | ins/ins-rump/lib/libbmk_rumpuser/rumpuser_synch.c:188-197 | whenever a mutex is free with waiters listed, an already dequeued waiter is ready and still to retry |
| `SynchOrder.FirstComeFirstServed` | ins/ins-rump/lib/libbmk_rumpuser/rumpuser_synch.c:60-82 | along every run: while one thread waits on a list that another was not on when it came, no wakeup takes the other off first, however often that leaves and comes back |
| `SynchOrder.TurnComes` | ins/ins-rump/lib/libbmk_rumpuser/rumpuser_synch.c:60-82 | a waiter with n others in front is off the list after n + 1 wakeups at the latest |
| `SynchOrder.ListStep` | ins/ins-rump/lib/libbmk_rumpuser/rumpuser_synch.c:50-94 | every step changes a wait list in one of five ways: the head goes, all go, the caller joins at the end, the caller leaves, or leaves and joins again |
| `SynchOrder.StartsToWait` | ins/ins-rump/lib/libbmk_rumpuser/rumpuser_synch.c:50-63 | a thread that starts to wait is on the list and sleeps until the deadline |
| `SynchOrder.ReturnsOff` | ins/ins-rump/lib/libbmk_rumpuser/rumpuser_synch.c:65-70 | a thread that returns from `wait` is on no list |
| `SynchOrder.WakesAll` | ins/ins-rump/lib/libbmk_rumpuser/rumpuser_synch.c:84-94 | `wakeup_all` takes off exactly those who are on the list |
| `SynchOrder.EntersWhenFree` | ins/ins-rump/lib/libbmk_rumpuser/rumpuser_synch.c:145-186 | trying, entering and trying again take the mutex if and only if it is free; otherwise the caller of the last two waits |
| `SynchOrder.ExitFrees` | ins/ins-rump/lib/libbmk_rumpuser/rumpuser_synch.c:188-197 | leaving frees the mutex, and the first waiter is on its way |
| `SynchCode.Locks.Wait` | ins/ins-rump/lib/libbmk_rumpuser/rumpuser_synch.c:50-63 | joins the tail of the list and prepares to block with the absolute deadline |
| `SynchCode.Locks.WaitReturn` | ins/ins-rump/lib/libbmk_rumpuser/rumpuser_synch.c:65-70 | leaves the list after a timeout; the result says whether it was still on it |
| `SynchCode.Locks.WakeupOne` | ins/ins-rump/lib/libbmk_rumpuser/rumpuser_synch.c:72-82 | takes step `WakeupOne` |
| `SynchCode.Locks.WakeupAll` | ins/ins-rump/lib/libbmk_rumpuser/rumpuser_synch.c:84-94 | the loop takes every waiter off the list |
| `SynchCode.Locks.MutexTryEnter` | ins/ins-rump/lib/libbmk_rumpuser/rumpuser_synch.c:170-186 | enters exactly when the mutex is free |
| `SynchCode.Locks.EnterTurn` | ins/ins-rump/lib/libbmk_rumpuser/rumpuser_synch.c:145-156 | the first turn of the loop in `rumpuser_mutex_enter` |
| `SynchCode.Locks.EnterAgain` | ins/ins-rump/lib/libbmk_rumpuser/rumpuser_synch.c:152-154 | a later turn, begun when `wait` returns |
| `SynchCode.Locks.MutexExit` | ins/ins-rump/lib/libbmk_rumpuser/rumpuser_synch.c:188-197 | frees the mutex and wakes one waiter |
| `Jsmn.RunValid` | ins/ins-rump/lib/libbmk_core/jsmn.c:174-321 | for every text, accepted or not: spans lie in the text read, tokens are in preorder and properly nested, only containers are open; after success none is |
| `Jsmn.DryRunAgrees` | ins/ins-rump/lib/libbmk_core/jsmn.c:181-320 | a successful parse counts what a dry run counts and allocated exactly that many tokens; with that many tokens a parse never lacks tokens |
| `Jsmn.LargerPool` | ins/ins-rump/lib/libbmk_core/jsmn.c:192-194 | a larger array changes nothing but a lack of tokens |
| `Jsmn.ResumedCall` | ins/ins-rump/lib/libbmk_core/jsmn.c:174-194 | calling again with a larger array after a lack of tokens yields the tokens of a single call, and the counts add up |
| `Jsmn.CommaDefined` | ins/ins-rump/lib/libbmk_core/jsmn.c:263-266 | in a valid state the next character leads to the undefined read exactly when it is a comma and no token is the parent, and then no container is open |
| `JsonCommas.UndefinedRead` | ins/ins-rump/lib/libbmk_core/jsmn.c:263-280 | for every text and every number of tokens, the parse reads `tokens[-1]` if and only if a scan of the text alone meets a comma without a parent and the tokens in front of it fit the array |
| `JsonCommas.CommasInsideDefined` | ins/ins-rump/lib/libbmk_core/jsmn.c:263-280 | when every comma stands inside an open bracket, no parse and no dry run reads `tokens[-1]` |
| `JsonCommas.DryRunDefined` | ins/ins-rump/lib/libbmk_core/jsmn.c:263-266 | a dry run never does |
| `JsonCommas.FailingTexts` | ins/ins-rump/lib/libbmk_core/jsmn.c:264-266 | two texts whose parse does: a lone comma, and a comma behind `[]` |
| `JsonCommas.ColonGivesParent` | ins/ins-rump/lib/libbmk_core/jsmn.c:260-262 | the condition is not only about brackets: behind a colon a comma outside them is harmless |
| `JsonText.ParsesJson` | ins/ins-rump/lib/libbmk_core/jsmn.c:174-321 | every JSON text with enough tokens parses to the preorder flattening of its tree: types, exact spans, size = members of an object, elements of an array, 1 for a key, 0 otherwise |
| `JsonText.CountsJson` | ins/ins-rump/lib/libbmk_core/jsmn.c:174-321 | for every JSON text the dry run counts the tokens of the tree; with at least that many a parse succeeds, with fewer it lacks tokens |
| `JsonText.RunContainer` | ins/ins-rump/lib/libbmk_core/jsmn.c:187-250 | an array or object is read to its flattening and the parent becomes the enclosing container |
| `JsonText.RunComma` | ins/ins-rump/lib/libbmk_core/jsmn.c:263-280 | after a comma the parent is again the container being read, whatever the item was |
| `JsonText.BodyEnd` | ins/ins-rump/lib/libbmk_core/jsmn.c:107-169 | a string body of plain characters, escapes and `\uXXXX` ends at its closing quote |
| `JsonText.AtomEnd` | ins/ins-rump/lib/libbmk_core/jsmn.c:58-102 | an unquoted value ends at its delimiter |
| `JsonText.NumbersAreAtoms` | ins/ins-rump/lib/libbmk_core/jsmn.c:58-102 | every number of the JSON grammar is one unquoted value |
| `JsonText.LiteralsAreAtoms` | ins/ins-rump/lib/libbmk_core/jsmn.c:58-102 | so are true, false and null |
| `JsonErrors.CutText` | ins/ins-rump/lib/libbmk_core/jsmn.c:58-321 | for every initial part of every JSON text: the parse is incomplete if and only if the part ends inside the array, object or string that the text is, at any depth and anywhere in a string or an escape; otherwise it succeeds with the tokens of that part |
| `JsonErrors.ExtraBracket` | ins/ins-rump/lib/libbmk_core/jsmn.c:229-241 | a closing bracket behind a complete value is invalid |
| `JsonErrors.WrongBracket` | ins/ins-rump/lib/libbmk_core/jsmn.c:229-234 | an array or object closed by the bracket of the other kind is invalid, whatever comes behind |
| `JsonErrors.WrongEscape` | ins/ins-rump/lib/libbmk_core/jsmn.c:136-164 | a string with an escape JSON does not have is invalid |
| `JsonErrors.WrongCharacter` | ins/ins-rump/lib/libbmk_core/jsmn.c:75-78 | a control character or one beyond ASCII in an unquoted value is invalid |
| `JsmnCode.Parser.AllocToken` | ins/ins-rump/lib/libbmk_core/jsmn.c:29-42 | the next token of the array, reset, or none when all are used |
| `JsmnCode.Parser.ParsePrimitive` | ins/ins-rump/lib/libbmk_core/jsmn.c:58-102 | appends the token up to the delimiter, or leaves the parser as it was with the right error |
| `JsmnCode.Parser.ScanString` | ins/ins-rump/lib/libbmk_core/jsmn.c:115-166 | the scan finds the closing quote, a bad escape or the end, as specified |
| `JsmnCode.Parser.ParseString` | ins/ins-rump/lib/libbmk_core/jsmn.c:107-169 | appends the string token, or leaves the parser as it was with the right error |
| `JsmnCode.Parser.CloseBracket` | ins/ins-rump/lib/libbmk_core/jsmn.c:205-250 | closes the innermost open token of the right type; the parent becomes the next open one |
| `JsmnCode.Parser.Parse` | ins/ins-rump/lib/libbmk_core/jsmn.c:174-321 | result, position, parent and token array are those of the specified run, from any valid parser |
| `Strtoul.Parse` | ins/ins-rump/lib/libbmk_core/strtoul.c:58-131 | value and end pointer are those of the mathematical reading; halts exactly for a wrong base |
| `Strtoul.ReadDigits` | ins/ins-rump/lib/libbmk_core/strtoul.c:97-124 | the loop computes the value of the longest run of digits, or detects that it exceeds 64 bits |
| `Strtoul.Overflows` | ins/ins-rump/lib/libbmk_core/strtoul.c:100-116 | the test with cutoff and cutlim is exactly the test for overflow |
| `Strtoul.ReadsNumeral` | ins/ins-rump/lib/libbmk_core/strtoul.c:76-130 | digits behind blanks and a prefix read, with base 0, as the number they stand for, to the last character |
| `Strtoul.BlankCharacters` | ins/ins-rump/lib/libbmk_core/strtoul.c:77-79 | the white space skipped are exactly the six blanks of the C standard |
| `Strtoul.DecimalCharacters` | ins/ins-rump/lib/libbmk_core/strtoul.c:103-104 | the ten digits have the values of their places, and no other character has |
| `Strtoul.LetterCharacters` | ins/ins-rump/lib/libbmk_core/strtoul.c:105-110 | letters of either case stand for 10 to 35 in the order of the alphabet, and no other character does |
| `Numeral.EndPointer` | ins/ins-rump/lib/libbmk_core/strtoul.c:88-130 | for every string and base, the end pointer is the end of the numeral of the C standard if and only if the string does not start with a bare hexadecimal prefix and the number fits 64 bits, and is the start of the string otherwise; the value is that of the numeral or the largest number |
| `Numeral.LongestNumeral` | ins/ins-rump/lib/libbmk_core/strtoul.c:88-124 | no initial part of the string, behind white space, is a longer numeral (optional sign, digits of the base, or a prefix with hexadecimal digits) |
| `Numeral.EndsANumeral` | ins/ins-rump/lib/libbmk_core/strtoul.c:88-124 | the end used is that of a numeral, or 0 when there is none |
| `Numeral.DifferentEnds` | ins/ins-rump/lib/libbmk_core/strtoul.c:88-128 | one string of each failing kind: 2^64 in decimal, and `0xg` in base 16 |
| `Numerals.DigitsFit` | ins/ins-rump/lib/libbmk_core/subr_prf.c:57 | 64-bit numbers have at most 22 octal, 20 decimal and 16 hexadecimal digits |
| `Numerals.DigitsValue` | ins/ins-rump/lib/libbmk_core/subr_prf.c:525-550 | the digits printed stand for the number |
| `PrintfCode.WriteDigits` | ins/ins-rump/lib/libbmk_core/subr_prf.c:525-550 | the backward loops write the digits and never leave the 23-byte buffer |
| `PrintfCode.WriteNumber` | ins/ins-rump/lib/libbmk_core/subr_prf.c:510-561 | nothing for a zero of precision zero, else the digits, with the octal zero in the alternate form |
| `Printf.LayoutLength` | ins/ins-rump/lib/libbmk_core/subr_prf.c:587-631 | padding, prefix, zeros and body together fill exactly the larger of width and size, for every mix of flags, width and precision |
| `PrintfCode.Printer.PutField` | ins/ins-rump/lib/libbmk_core/subr_prf.c:587-631 | prints the layout of the field; `ret` grows by exactly its length |
| `PrintfCode.ConvertArg` | ins/ins-rump/lib/libbmk_core/subr_prf.c:408-571 | the conversion switch yields the specified field |
| `PrintfCode.ReadSpec` | ins/ins-rump/lib/libbmk_core/subr_prf.c:318-407 | flags, width, precision and length modifiers are collected as specified |
| `PrintfCode.Printer.Kprintf` | ins/ins-rump/lib/libbmk_core/subr_prf.c:270-640 | prints the text of the format and returns the length of the untruncated text |
| `PrintfCode.Vsnprintf` | ins/ins-rump/lib/libbmk_core/subr_prf.c:186-203 | the returned length is that of the untruncated text; the buffer holds as much as fits, terminated; nothing behind it changes |
| `PrintRead.RoundTrip` | ins/ins-rump/lib/libbmk_core/strtoul.c:76-130 | every 64-bit number printed in decimal, or with the prefix of its base, in a field of any width, is read back with base 0, to the last character |
| `PrintRead.RoundTripDec` | ins/ins-rump/lib/libbmk_core/subr_prf.c:485-491 | `%lu` reads back |
| `PrintRead.RoundTripHex` | ins/ins-rump/lib/libbmk_core/subr_prf.c:495-501 | `%#lx` reads back |
| `PrintRead.RoundTripOct` | ins/ins-rump/lib/libbmk_core/subr_prf.c:444-447 | `%#lo` reads back |
| `PrintRead.RoundTripWidth` | ins/ins-rump/lib/libbmk_core/subr_prf.c:338-346 | `%*lu` reads back for any width among the arguments |
| `PrintRead.ReadsField` | ins/ins-rump/lib/libbmk_core/subr_prf.c:587-631 | for every mix of flags, width and precision the text of a number reads back in its own base, a negative one as its two's complement |
| `PrintRead.SignedReadsBack` | ins/ins-rump/lib/libbmk_core/subr_prf.c:416-424 | the bit pattern of every signed 64-bit number printed by `%ld`, with any flags, width and precision, reads back in base 10 |
| `PrintRead.AltOctalZero` | ins/ins-rump/lib/libbmk_core/subr_prf.c:518-534 | `%#o` prints a number whose first digit is 0 if and only if the number or the precision is not zero |
| `PrintRead.AltOctalEmpty` | ins/ins-rump/lib/libbmk_core/subr_prf.c:518-534 | the failing case: `%#.0o` of zero prints nothing |
| `PrintRead.ShortUnsigned` | ins/ins-rump/lib/libbmk_core/subr_prf.c:249-256 | `%hu`, `%ho` and `%hx` print the low 16 bits if and only if the int passed lies between 0 and 65535 |
| `PrintRead.ShortPrintsAll` | ins/ins-rump/lib/libbmk_core/subr_prf.c:249-256 | the failing case: `%hu` of 65536 prints 65536 |
| `PrintRead.UnsignedReadsBack` | ins/ins-rump/lib/libbmk_core/subr_prf.c:485-501 | every argument of `u`, `o`, `x` and `X`, with any flags, width and precision, reads back in the base of the conversion |
| `Printed.LayoutJustified` | ins/ins-rump/lib/libbmk_core/subr_prf.c:573-632 | a field is at least as wide as asked: on the left side with blanks behind, or filled up with zeros behind the sign or prefix, or on the right side with blanks in front, with zeros up to the precision |
| `Printed.PrintsSigned` | ins/ins-rump/lib/libbmk_core/subr_prf.c:241-248 | `d`, `i` and `D` print, with sign, fill and precision as asked, the decimal digits of the one integer of their size (16, 32 or 64 bits) congruent to the argument |
| `Printed.SignedReads` | ins/ins-rump/lib/libbmk_core/subr_prf.c:416-424 | ... and that text reads back as the two's complement of that integer |
| `Printed.PrintsUnsigned` | ins/ins-rump/lib/libbmk_core/subr_prf.c:249-256 | `u`, `o`, `x`, `X`, `U`, `O` and `p` print the digits, in their base and case and with their prefix, of the argument without sign in its size; with `h` of the int passed, extended to 64 bits |
| `Printed.PrintsString` | ins/ins-rump/lib/libbmk_core/subr_prf.c:463-484 | `s` prints as many characters of the string as the precision allows, `(null)` for a null pointer |
| `Printed.PrintsChar` | ins/ins-rump/lib/libbmk_core/subr_prf.c:562-570 | `c` prints the low byte of its argument, and a character that is no conversion prints itself |
| `Printed.PrintsNothing` | ins/ins-rump/lib/libbmk_core/subr_prf.c:425-440 | `n` prints nothing |
| `Formats.ReadsAsMeant` | ins/ins-rump/lib/libbmk_core/subr_prf.c:318-407 | flags in any order and number, width, precision and size, given as digits or taken from the arguments, are read as they are meant |
| `Formats.PrintsAsMeant` | ins/ins-rump/lib/libbmk_core/subr_prf.c:296-640 | for every format made of ordinary characters and conversion specifications, and all arguments: the characters and the conversions are printed in order, each with its arguments |
| `BatchSend.ChunksCorrect` | protvm/user/wrapper/tcp_ip_wrapper.c:1031-1049 | chunks concatenate to the buffer, exactly the first carries INIT and the last FINI, all but the last have the full size and none is empty |
| `BatchSend.Send` | protvm/user/wrapper/tcp_ip_wrapper.c:1031-1083 | for every pattern of attempts, each not written, written, or written and answered with an error that the shim waited for: what is written is an initial part of the chunks, of exactly the length told; one failed write is forgiven unless it is at the last chunk, a later failure of either kind ends the batch; FINI is written exactly when all chunks are, and all bytes count as sent exactly when moreover the loop did not end with an error response |
| `BatchSend.LeftOpen` | protvm/user/wrapper/tcp_ip_wrapper.c:1064-1080 | some but not all chunks are written, so that INIT went out and FINI did not, if and only if: the write of the last of several chunks fails first; or a failed write was forgiven and then a write fails, other than at once at the first chunk, or a waited-for chunk before the last is answered with an error |
| `BatchSend.SendSocket` | ins/ins-rump/apps/ins-app/networking.c:1058-1156 | what went to the local socket is the payload up to the reported count; without an error the count is the payload's length, and a would-block never ends the loop |
| `BatchSend.SocketInstance.PreProcess` | protvm/kernel/mwcomms/mwcomms-socket.c:2100-2112 | the first request of a batch resets the tally |
| `BatchSend.SocketInstance.PostProcess` | protvm/kernel/mwcomms/mwcomms-socket.c:1766-1798 | adds counts, and hands on the total with the last response |
| `BatchSend.BatchTotal` | protvm/kernel/mwcomms/mwcomms-socket.c:1766-1798 | for every interleaving of writes and in-order responses, each answered with its own flags: with FINI on the last request its response carries the sum of all counts, in 16 bits, plus what an unfinished batch left, and ends the batch; without, the tally keeps that sum and batch mode stays on |
| `BatchSend.FullLength` | protvm/user/wrapper/tcp_ip_wrapper.c:1085-1100 | when every chunk is sent in full, the socket gets the buffer, and `send()` returns its length if and only if that is positive and below 65536 |
| `BatchSend.StaleTallyCounts` | protvm/kernel/mwcomms/mwcomms-socket.c:2106-2112 | with a tally left behind, the next result is its own sum if and only if that sum is below 65536 and the tally is a multiple of 65536 |
| `BatchSend.UnfinishedBatch` | protvm/user/wrapper/tcp_ip_wrapper.c:1068-1080 | a batch `send()` gave up, in any interleaving, leaves batch mode on and the sum of its counts in the tally |
| `BatchSend.NextBatch` | protvm/kernel/mwcomms/mwcomms-socket.c:2106-2112 | a batch that ended early and the next one, in any interleaving of both: the result is the sum of both, and right if and only if the second sum is below 65536 and the first a multiple of 65536 |
| `BatchSend.StaleWitness` | protvm/user/wrapper/tcp_ip_wrapper.c:1068-1075 | with writes that succeed, fail and fail again, one of three chunks is written, without FINI, and the next `send()`, of one byte, reports two |
| `BatchSend.EndToEnd` | protvm/user/wrapper/tcp_ip_wrapper.c:1031-1092 | for every chunk size, all counts of the network stack and every interleaving: the result is the number of bytes put on the local socket, in 16 bits; byte for byte they come from increasing places of the buffer, which are an initial part of it if and only if nothing was sent after a chunk sent in part |
| `BatchSend.GapWitness` | ins/ins-rump/apps/ins-app/networking.c:1082-1156 | two chunks of which the stack can send one byte each before a call fails: the bytes on the socket are not an initial part of the buffer |
| `BatchSend.Answer` | protvm/kernel/mwcomms/mwcomms-socket.c:1766-1798 | a batch with each request sent by the stack and answered before the next: tally, bytes on the socket and the last response the shim reads |
| `BatchSend.WriteRequest` | protvm/user/wrapper/tcp_ip_wrapper.c:243-372 | a request that cannot be written leaves driver and stack as they were; a written one is sent and added to the tally; it counts as failed exactly when the shim waits for the response and that is an error or cannot be read |
| `BatchSend.Transfer` | protvm/user/wrapper/tcp_ip_wrapper.c:1031-1105 | `send()`, driver and stack together, each request answered before the next is written: requests written, bytes on the socket, result and tally left behind, for every pattern of failing writes and failing reads and all outcomes of the calls, error responses ending the loop included |
| `BatchSend.Foretold` | protvm/user/wrapper/tcp_ip_wrapper.c:1031-1083 | the number of requests written, whether an error response ended the loop, and (if and only if) whether the driver is left in batch mode are functions of what the device does and of the outcomes of the calls, given before the call |
| `BatchSend.ErrorWitness` | protvm/user/wrapper/tcp_ip_wrapper.c:1064-1080 | a failed write and then an error response: of three chunks only the first is written, without FINI, the result is -1 and the driver stays in batch mode |
| `BatchSend.ErrorRun` | protvm/user/wrapper/tcp_ip_wrapper.c:1064-1080 | the same, as a run of `send()` on a new socket |
| `Pollset.Scanner.Query` | ins/ins-rump/apps/ins-app/pollset.c:192-247 | reports min(ready, max) items, the ready slots in cyclic order from the cursor, each with the flags of its slot, leaves the cursor behind the last slot looked at, and stores the events of exactly the slots looked at |
| `Pollset.ReportFlags` | ins/ins-rump/apps/ins-app/pollset.c:219-234 | in every item each of the eight flags passed on is present if and only if `poll` returned it for the slot, and the two of the priority bands never are |
| `Pollset.SlotIsModulo` | ins/ins-rump/apps/ins-app/pollset.c:206-211 | the slot k steps behind the cursor is the sum of both modulo the number of threads |
| `Pollset.ReportCorrect` | ins/ins-rump/apps/ins-app/pollset.c:200-245 | a report lists distinct ready slots, nearest first, and all nearer than where the scan stops |
| `Pollset.MissedComesNearer` | ins/ins-rump/apps/ins-app/pollset.c:200-245 | a ready slot a query misses comes nearer to the cursor by the size of a full report at least |
| `Pollset.Fairness` | ins/ins-rump/apps/ins-app/pollset.c:154-247 | over any run, from any cursor, a socket that stays ready is reported within ceil(threads / max items) queries |

## Left out

- Reader-writer locks and condition variables of `rumpuser_synch.c`: they depend on the rump kernel's own scheduler, which is not part of this model.
- Interrupts inside a scheduler call: each call is one atomic step; wakeups from interrupt handlers may come between any two.
- Thread stacks, thread-local storage, external stacks and the scheduler hook.
- `bmk_sched_join` by several threads on one target: the model takes at most one joiner per target.
- SchedCode.Scheduler.Yield: requires that the caller has not prepared to block, which the source does not check.
- SynchCode.Locks.MutexExit: requires that the caller is the owner, which the source does not check (it asserts only that the mutex is held).
- `rumpkern_unsched` and `rumpkern_sched` around the loop of `rumpuser_mutex_enter`: other steps may happen there, their own effects are not modelled.
- Page addresses are frame numbers (address divided by the page size), and the headers stored in memory are maps from addresses to records; bytes of free pages other than headers are not modelled.
- Pgalloc.PageAllocator.LoadMem: requires that the memory holds the bitmap pages in front of the managed ones, which the source does not check.
- Pgalloc.PageAllocator.PgFree: a block that is not allocated is excluded, since the source detects a double free only in its debug build.
- Memalloc.MemAllocator.MemRealloc: blocks of 2^31 bytes and more are excluded, because the code shifts a plain int; sizes are bounded as for `MemAlloc`.
- Memalloc.MemAllocator.MemAlloc: an alignment above 2^31 and a sum of padding and request above 2^63 are excluded. The source halts there on an assertion, of its own or of the page allocator, except for sums of 2^64 and more, which wrap.
- Memalloc.MemAllocator.MemCalloc: the same bound; products of 2^64 and more are refused as in the source.
- HeapRuns.Serve: skips a realloc of a region first asked for with more than 2^30 bytes, padding included, for the same reason.
- RumpuserMem.MallocPages: alignments of more than one bit and lengths above 2^63 are excluded, since the source halts on an assertion, its own or the page allocator's.
- The tokenizer's texts are shorter than 2^31 characters, so that positions fit an int.
- `kprintf` to the console, the message ring, and the store of `%n`; a missing argument reads as zero; widths and totals that overflow an int.
- BatchSend.Transfer: requests the shim does not wait for are answered before the next is written (`BatchSend.BatchTotal` covers every interleaving); a response of which only a part can be read is taken to leave the previous one as it was.
- BatchSend.SendSocket: the calls of the operating system are a list of outcomes; polling for space between them is not modelled.
- The rest of the driver, the INS dispatcher, the work queue, logging, statistics and the Python tools.
- `MAX_THREAD_COUNT` and the number of items per response are parameters of the pollset model.
