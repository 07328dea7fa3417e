# Verified model of OS/161 kernel and library code

A Dafny 4.11 model of five parts of an OS/161 tree, with proofs of what they promise:

- the 64-bit division and multiplication routines that the compiler calls (`Words`, `Arith`,
  `Digits`, `DigitShift`, `TrialDigit`, `QDivRem`, `MulDi3`, `SignedDivision`);
- the kernel heap (`Chains`, `PageRefs`, `HeapState`, `HeapSteps`, `HeapPages`, `HeapFree`,
  `Allocations`, `KMalloc`, `HeapRuns`, `HeapMarks`, `HeapCalls`, `HeapReturns`, `HeapTwice`,
  `HeapLeak`);
- the thread system, its lists, interrupt levels, semaphores and migration (`ThreadList`,
  `ThreadSystem`, `ThreadPlaces`, `ThreadSteps`, `ThreadRuns`, `ThreadQueues`, `ThreadCpus`,
  `ThreadLevels`, `ThreadSwitch`, `ThreadIpl`, `Semaphore`, `SemaphoreThreads`, `SleepLock`,
  `SleepLockThreads`, `Migration`, `MigrationRuns`);
- SHA-256 (`Sha256Spec`, `Sha256Process`, `Sha256`, `Sha256Vectors`);
- printf, snprintf, atoi, memcpy and memmove (`Numerals`, `PrintfSpec`, `Printf`,
  `PrintfFields`, `Atoi`, `PrintParse`, `MemMove`).

`dafny verify dfyconfig.toml` checks the whole project.

## How the code is modelled

- Machine integers are mathematical integers with every wrap written out; `long`, `size_t`
  and pointers have 32 bits, `long long` has 64. SHA-256 words are 32-bit vectors. Where the
  source joins disjoint bits with `|`, the model adds.
- Loops over arrays are methods on arrays; objects are classes. A class keeps its tables in
  one record, so that a stretch of code is one change of state. What the tables stand for is
  kept beside them as specification state.
- alloc_kpages and free_kpages are calls with a contract: the range returned is page-aligned,
  not null and apart from every range held, or there is none.
- A step is what one CPU or caller does between two points where another can interfere, so
  every interleaving is covered. The thread system's spinlocks are part of its state. The
  heap's is not: a step of a caller there is a whole stretch of code under the lock, or a
  call made without it.
- The switch between stacks is a single step. cpu_idle lets interrupts in and shuts them out
  in steps of their own, and an interrupt handler on an idle CPU runs between them.
- printf's arguments are given by position, each as a number and as a string, so that any
  directive can read any argument.

## Where the code falls short of its description

- kmalloc rounds a big size up to pages in 32-bit arithmetic. The result is enough pages if
  and only if the size is at most 2^32 - 4096 (`KMalloc.NPagesEnough`).
- A descriptor whose page cannot be obtained stays marked as used. Freeing the last block of a
  page fails an assertion if and only if an earlier root has no page and all 256 of its
  descriptors marked (`HeapMarks.StuckIff`); `HeapLeak.AssertionCanFail` reaches such a state.
- A block that is free already is noticed only at the head of its free list. Freeing any
  other one again never leaves all other allocations as they were (`HeapTwice.SurvivesIff`):
  the free list becomes a cycle (`HeapTwice.TwiceKept`), or, if the page's count becomes full,
  the page is given back with one allocated block on it (`HeapTwice.TwiceEmptied`), unless an
  assertion fails. `HeapTwice.TwiceCanHappen` reaches such a call.
- `%-0Nd` pads on the right with zeros, so what it prints is another number
  (`PrintParse.PrintThenParse`, `PrintParse.SevenIsNotReadBack`).
- The first thread of each CPU runs with the tag S_READY until it is first switched out
  (kern/thread/thread.c:131); a running thread's tag is S_RUN if and only if it is not one of
  these (`ThreadRuns.TagsAgree`, `ThreadRuns.BootTag`, `ThreadRuns.BootUntilSwitched`).
- The sleep lock does not record its holder. It is in order if and only if every release is by
  a holder (`SleepLock.InOrderIff`), and the first one that is not can let two threads in
  (`SleepLock.StrangerBreaks`).
- lock_do_i_hold asks for the creator of the lock instead of its holder. In a run in order it
  is right if and only if only the creator takes the lock (`SleepLock.DoIHoldIff`);
  `SleepLock.DoIHoldLies` is a run in which it is wrong.
- The division routine divides 1 by zero on purpose, which traps on the machine; what would
  be returned after it is not modelled.

## Model

| member | source | states |
|---|---|---|
| TrialDigit.Guess | common/gcc-millicode/qdivrem.c:193-210 | The guess is min(U/V, B-1) for the three leading digits U and the two leading digits V, found with at most two corrections. |
| TrialDigit.GuessIsClose | common/gcc-millicode/qdivrem.c:185-192 | That guess is the true quotient digit of the whole numbers or exactly one more. |
| QDivRem.BorrowStep | common/gcc-millicode/qdivrem.c:217-221 | The wrapped 32-bit difference loses nothing but the borrow it passes on. |
| QDivRem.MultiplySubtract | common/gcc-millicode/qdivrem.c:217-221 | Digits j+1..j+n hold the difference u - qhat*v up to the returned borrow, and no other digit changes. |
| QDivRem.BorrowMeansOneTooBig | common/gcc-millicode/qdivrem.c:224-230 | A borrow out of u[j] happens if and only if the guess was one too big. |
| QDivRem.AddBack | common/gcc-millicode/qdivrem.c:232-236 | Digits j+1..j+n hold the sum u + v up to the returned carry. |
| QDivRem.AddBackRestores | common/gcc-millicode/qdivrem.c:230-238 | One add-back suffices: the borrow and the carry cancel and the remainder is left. |
| QDivRem.DivideStep | common/gcc-millicode/qdivrem.c:183-239 | u[j..j+n] becomes its remainder by v, the digit returned is the true quotient digit, u[j] ends at 0. |
| QDivRem.Pass | common/gcc-millicode/qdivrem.c:182-240 | Each pass keeps: leading digits below v, and dividend = quotient digits so far times v plus the rest. |
| QDivRem.DivideDigits | common/gcc-millicode/qdivrem.c:182-240 | After all passes the digit arrays hold quotient and remainder of the scaled numbers. |
| DigitShift.ShiftLeft | common/gcc-millicode/qdivrem.c:270-279 | The digits are shifted as one number, in place. |
| DigitShift.UpExact | common/gcc-millicode/qdivrem.c:265-279 | When nothing falls out on the left, the value is multiplied by 2^sh. |
| DigitShift.ShiftRight | common/gcc-millicode/qdivrem.c:248-254 | The denormalising loop shifts the remainder digits as one number, in place. |
| DigitShift.DownExact | common/gcc-millicode/qdivrem.c:248-254 | For a multiple of 2^d the shift divides the value by 2^d exactly. |
| QDivRem.Multiplier | common/gcc-millicode/qdivrem.c:169-171 | The shift count found is the one that brings v[1] to at least half the base. |
| QDivRem.Normalise | common/gcc-millicode/qdivrem.c:169-175 | Dividend and divisor are multiplied by the same power of two and no digit is lost. |
| QDivRem.StartsBelow | common/gcc-millicode/qdivrem.c:157-181 | When the loop starts, the leading n digits of the dividend are below the divisor. |
| QDivRem.ScaleDown | common/gcc-millicode/qdivrem.c:242-258 | Dividing scaled numbers gives the quotient of the unscaled ones and the scaled remainder. |
| QDivRem.ShortDivide | common/gcc-millicode/qdivrem.c:123-150 | The unrolled one-digit division gives the exact quotient and remainder. |
| QDivRem.SkipZeros | common/gcc-millicode/qdivrem.c:157-158 | Skipping the leading zeros of the dividend leaves its value and keeps m at least 0. |
| QDivRem.Remainder | common/gcc-millicode/qdivrem.c:247-258 | The remainder digits, shifted back and gathered, are the remainder. |
| QDivRem.LongDivide | common/gcc-millicode/qdivrem.c:152-262 | Algorithm D from normalising to denormalising gives quotient and remainder. |
| QDivRem.DivRem | common/gcc-millicode/qdivrem.c:68-263 | For every u and v: trap if v = 0, else quotient u/v and, if wanted, remainder u mod v. |
| SignedDivision.QuotRemTruncate | common/gcc-millicode/divdi3.c:45-62 | The quotient rounds toward zero and the remainder takes the sign of the dividend. |
| SignedDivision.TruncationIsUnique | common/gcc-millicode/divdi3.c:45-62 | No other quotient and remainder do that, so these are the operators of C. |
| SignedDivision.Divide | common/gcc-millicode/divdi3.c:45-62 | The result is the truncated quotient modulo 2^64, for every pair of operands. |
| SignedDivision.Remainder | common/gcc-millicode/moddi3.c:46-62 | The result is the truncated remainder exactly, for every pair of operands. |
| SignedDivision.QuotientFits | common/gcc-millicode/divdi3.c:45-62 | The quotient is the true one unless the least number is divided by -1, and only then not. |
| MulDi3.ThreeProducts | common/gcc-millicode/muldi3.c:132-158 | The product of two-part numbers from three products of their parts. |
| MulDi3.AddWords | common/gcc-millicode/muldi3.c:223-236 | A carry found by comparison after a wrapped addition is the carry. |
| MulDi3.SubtractWords | common/gcc-millicode/muldi3.c:219-222 | A borrow found by comparison after a wrapped subtraction is the borrow. |
| MulDi3.Assemble | common/gcc-millicode/muldi3.c:214-241 | Shifts, signed middle term and hand-made carries add up modulo 2^64. |
| MulDi3.WordProduct | common/gcc-millicode/muldi3.c:184-241 | The exact 64-bit product of any two words, on the short path and on the long one. |
| MulDi3.UnsignedMultiply | common/gcc-millicode/muldi3.c:124-158 | The product of the magnitudes modulo 2^64, on both paths. |
| MulDi3.Multiply | common/gcc-millicode/muldi3.c:100-164 | a*b modulo 2^64, read as signed, for all signed a and b. |
| PageRefs.TakeSlot | kern/vm/kmalloc.c:260-300 | The search takes the first clear bit of all and counts it; it fails exactly when every bit is set. |
| PageRefs.FirstClear | kern/vm/kmalloc.c:276-295 | The inner loops find the first clear bit of a root that is not full; the assertion after them holds. |
| PageRefs.FullMeansCounted | kern/vm/kmalloc.c:268-270 | A root counts 256 if and only if all its bits are set. |
| PageRefs.PutOk | kern/vm/kmalloc.c:282-284 | Changing one bit and the counter together keeps the counter equal to the number of set bits. |
| PageRefs.ReleaseSlot | kern/vm/kmalloc.c:307-339 | The bit is cleared and the counter lowered, unless an earlier root has bits set but no page: then, and only then, an assertion fails. |
| HeapSteps.BlockCount | kern/vm/kmalloc.c:1184-1185 | A page has at most PAGE_SIZE/size different blocks, and that many are all of them. |
| HeapSteps.PopCore | kern/vm/kmalloc.c:970-990 | Taking the head of a free list keeps the heap invariant. |
| HeapSteps.PushCore | kern/vm/kmalloc.c:1160-1182 | Putting a block back keeps the heap invariant. |
| HeapPages.FreshPage | kern/vm/kmalloc.c:1037-1056 | Threading a fresh page gives an acyclic free list of exactly its blocks, last one first. |
| HeapPages.PublishCore | kern/vm/kmalloc.c:1037-1062 | Listing a fresh page keeps the heap invariant. |
| HeapPages.UnlistLists | kern/vm/kmalloc.c:872-893 | Both lists lose exactly the one page and keep their order. |
| HeapPages.RemoveCore | kern/vm/kmalloc.c:1185-1191 | Unlisting an entirely free page and releasing its descriptor keep the heap invariant. |
| HeapPages.TakeCore | kern/vm/kmalloc.c:282-290 | Taking a descriptor keeps the heap invariant, though it is on no list yet. |
| HeapPages.GrantCore | kern/vm/kmalloc.c:1014-1026 | A range from alloc_kpages, apart from all held ones, keeps the heap invariant. |
| HeapPages.InstallCore | kern/vm/kmalloc.c:236-252 | Installing a page of descriptors keeps the heap invariant. |
| HeapFree.OneOwner | kern/vm/kmalloc.c:1116-1128 | At most one listed page holds any address. |
| HeapFree.ReturnOk | kern/vm/kmalloc.c:1160-1195 | After a free, no listed page is entirely free. |
| KMalloc.BlockTypeFor | kern/vm/kmalloc.c:901-915 | The smallest block size that is big enough; the panic is reached only above 2048. |
| KMalloc.Route | kern/vm/kmalloc.c:1214-1250 | Sizes under 2048 go to the subpage allocator, which finds a block type for each of them; others become a page count. |
| KMalloc.NPagesEnough | kern/vm/kmalloc.c:1229-1241 | The rounded page count is enough if and only if the size is at most 2^32 - 4096, and never a page too many. |
| KMalloc.FirstWithRoom | kern/vm/kmalloc.c:962-968 | The first page of the list with a free block, if any. |
| KMalloc.FindPage | kern/vm/kmalloc.c:962-968 | The first page of the size with a free block, or none has one. |
| KMalloc.FindOwner | kern/vm/kmalloc.c:1116-1134 | The listed page that holds an address, or none does. |
| KMalloc.Thread | kern/vm/kmalloc.c:1046-1056 | The threading loop links every block to the one before it and ends at the last. |
| KMalloc.RemoveFrom | kern/vm/kmalloc.c:872-893 | Walking the pointers to a node and unlinking it changes one link or the base. |
| KMalloc.SubpageStats | kern/vm/kmalloc.c:749-800 | The map marks exactly the blocks that are not live, and the result is the size of all live blocks. |
| KMalloc.Heap.constructor | kern/vm/kmalloc.c:175-215 | The heap starts empty and valid. |
| KMalloc.Heap.TakeBlock | kern/vm/kmalloc.c:970-990 | The head of the free list is returned; offset, count and list agree again. |
| KMalloc.Heap.TryAllocate | kern/vm/kmalloc.c:956-1014 | A block of the first page with room that was not live before, or no change and no page has room. |
| KMalloc.Heap.TakeDescriptor | kern/vm/kmalloc.c:260-300 | The first clear descriptor, or none is clear and nothing changed. |
| KMalloc.Heap.InstallRefPage | kern/vm/kmalloc.c:222-253 | The page goes to the root unless somebody else was faster; the root has a page unless there was none to be had. |
| KMalloc.Heap.Publish | kern/vm/kmalloc.c:1037-1065 | The fresh page is listed and its first block returned, which was not live before. |
| KMalloc.Heap.ReturnBlock | kern/vm/kmalloc.c:1160-1182 | The block is the new head of the free list. |
| KMalloc.Heap.RetirePage | kern/vm/kmalloc.c:1185-1188 | The page leaves both lists and its descriptor is released, unless a root is stranded. |
| KMalloc.Heap.SubpageFree | kern/vm/kmalloc.c:1074-1204 | For any address, which outcome happens when: not ours, bad address, page kept, page emptied, assertion failed; each with its exact condition and new state, for a block that is allocated and for one that is free already. |
| KMalloc.Heap.ReturnToPage | kern/vm/kmalloc.c:1150-1195 | The same once the page is known. |
| HeapTwice.SurvivesIff | kern/vm/kmalloc.c:1150-1195 | A call that finishes leaves the tables of a heap in which every other allocation is as it was if and only if the block it was given was allocated. |
| HeapTwice.TwiceKept | kern/vm/kmalloc.c:1160-1195 | A second free that does not make the page's count full leaves tables that no heap has: the free list is a cycle. |
| HeapTwice.TwiceEmptied | kern/vm/kmalloc.c:1184-1191 | One that does gives the page back; the tables are those of a heap, but exactly one block of that page is allocated. |
| HeapTwice.BlockLost | kern/vm/kmalloc.c:1184-1191 | In no heap that these tables can be read as is that block an allocation of its size. |
| HeapTwice.EndsInAfter | kern/vm/kmalloc.c:1150-1195 | The state these lemmas speak of is the one the call ends in. |
| HeapTwice.SecondFree | kern/vm/kmalloc.c:1156-1183 | On every page with two free blocks the second of the list can be freed again unnoticed. |
| HeapTwice.TwiceCanHappen | kern/vm/kmalloc.c:1074-1204 | A run from an empty heap reaches such a call. |
| KMalloc.Heap.Free | kern/vm/kmalloc.c:1256-1267 | A small block goes to the subpage allocator, a big one to free_kpages, NULL nowhere. |
| Allocations.BigEnough | kern/vm/kmalloc.c:923-1066 | Every allocation has at least the bytes asked for, is aligned to its block or page, and a small one stays in one page. |
| Allocations.AllDisjoint | kern/vm/kmalloc.c:923-1066 | Any two allocations, small or big, lie apart. |
| Allocations.WhoFrees | kern/vm/kmalloc.c:1256-1267 | The address tells the mechanism: a live block lies on a listed page at a block boundary, a big allocation on none. |
| Allocations.FreesOne | kern/vm/kmalloc.c:1074-1204 | Freeing a block takes that allocation away and leaves every other as it was. |
| Allocations.PageCounts | kern/vm/kmalloc.c:788-799 | Free and live blocks of a page add up to its number of blocks. |
| HeapRuns.StepKeeps | kern/vm/kmalloc.c:222-1267 | Every locked stretch and every page call of any caller keeps the heap invariant and what every other caller has in its hands. |
| HeapRuns.RunKeeps | kern/vm/kmalloc.c:222-1267 | So it holds in every state of every interleaving of any number of callers. |
| HeapRuns.RunAllocations | kern/vm/kmalloc.c:923-1267 | In each such state allocations are big enough, aligned, inside a page if small, and pairwise disjoint. |
| HeapRuns.StepPersists | kern/vm/kmalloc.c:923-1267 | A step moves or resizes no allocation except the one it frees. |
| HeapMarks.RunOrder | kern/vm/kmalloc.c:222-339 | In every run, a marked descriptor means that every earlier root without a page is marked entirely. |
| HeapMarks.StrandedIsLost | kern/vm/kmalloc.c:307-319 | So a root that makes the release of a descriptor fail has all its 256 descriptors marked. |
| HeapMarks.StuckIff | kern/vm/kmalloc.c:1184-1191 | In every state of every run, freeing a block fails an assertion if and only if it is the last of its page and an earlier root has no page and 256 marks. |
| HeapCalls.Begin | kern/vm/kmalloc.c:923-1014 | subpage_kmalloc up to where it drops the lock is one step of the machine of callers; a block returned was not live. |
| HeapCalls.WithPage | kern/vm/kmalloc.c:1014-1065 | So is what follows a page from alloc_kpages, up to the next call without the lock. |
| HeapCalls.WithRefPage | kern/vm/kmalloc.c:236-300 | So is what follows the answer to the request for a page of descriptors. |
| HeapCalls.WithSlot | kern/vm/kmalloc.c:1028-1065 | So is the rest after a spare page of descriptors was given back. |
| HeapCalls.PageCall | kern/vm/kmalloc.c:222-253 | So is each call of alloc_kpages and free_kpages without the lock. |
| HeapCalls.BigRequest | kern/vm/kmalloc.c:1225-1247 | So is a big request, of every size; what it returns has pages behind it if and only if it is not null and the rounding did not wrap. |
| HeapCalls.FreeBlock | kern/vm/kmalloc.c:1256-1267 | So is kfree of any allocation, up to the return of a page, unless an assertion fails; when it does is exact. If the page became free, what is left to do is to return that page. |
| HeapCalls.Continue | kern/vm/kmalloc.c:923-1066 | Whatever a caller inside kmalloc does next is one step. |
| HeapCalls.CallKeeps | kern/vm/kmalloc.c:923-1267 | Such a step among any other callers keeps the invariant of all runs and what the others carry. |
| HeapReturns.TransitInHands | kern/vm/kmalloc.c:1010-1062 | In every run, a page that is neither of blocks, nor of descriptors, nor of a big allocation is in the hands of a caller. |
| HeapReturns.AllReturned | kern/vm/kmalloc.c:1184-1195 | So when no call is in progress, every page held is a page of blocks, a page of descriptors or part of a big allocation. |
| HeapReturns.EmptiedGoesBack | kern/vm/kmalloc.c:1184-1191 | Freeing the last block of a page unlists it and leaves it in the caller's hands to be returned. |
| HeapReturns.GivesBack | kern/vm/kmalloc.c:1188-1195 | A caller with a page to return can do nothing else, and then the heap does not hold it. |
| HeapReturns.FreedIsGone | kern/vm/kmalloc.c:1107-1267 | What a call of kfree is given was allocated before it and is not after it. |
| HeapReturns.NoFreeBlock | kern/vm/kmalloc.c:957-968 | A page is asked for only when every block of the size is in use. |
| HeapLeak.AssertionCanFail | kern/vm/kmalloc.c:282-290 | A run from an empty heap reaches a state where freeing a valid block fails the assertion on a root without a page. |
| ThreadList.InsertAfterNode | kern/thread/threadlist.c:107-120 | The new node stands after the given one in a chain linked both ways. |
| ThreadList.InsertBeforeNode | kern/thread/threadlist.c:127-140 | The new node stands before the given one in a chain linked both ways. |
| ThreadList.RemoveNode | kern/thread/threadlist.c:147-157 | The chain closes up both ways and the node removed has null links. |
| ThreadList.List.constructor | kern/thread/threadlist.c:61-72 | An empty list of two bookends. |
| ThreadList.List.IsEmpty | kern/thread/threadlist.c:92-97 | True exactly when the list has no thread. |
| ThreadList.List.AddHead | kern/thread/threadlist.c:163-170 | The thread is put first. |
| ThreadList.List.AddTail | kern/thread/threadlist.c:173-180 | The thread is put last. |
| ThreadList.List.RemHead | kern/thread/threadlist.c:183-198 | The first thread is taken, or null from an empty list. |
| ThreadList.List.RemTail | kern/thread/threadlist.c:201-216 | The last thread is taken, or null from an empty list. |
| ThreadList.List.InsertAfter | kern/thread/threadlist.c:219-224 | The thread is put after the given one. |
| ThreadList.List.InsertBefore | kern/thread/threadlist.c:227-232 | The thread is put before the given one. |
| ThreadList.List.Remove | kern/thread/threadlist.c:235-240 | The given thread is taken out. |
| ThreadList.List.Forward | kern/include/threadlist.h:94-97 | The forward walk visits the threads in order. |
| ThreadList.List.Backward | kern/include/threadlist.h:99-102 | The backward walk visits them in the reverse order. |
| ThreadList.MoveAll | kern/thread/thread.c:1088-1094 | Moving all threads to another list keeps their order and leaves a third list as it was. |
| Migration.Census | kern/thread/thread.c:885-896 | The total and the own count of the census. |
| Migration.RoomEnough | kern/thread/thread.c:898-903 | The other queues have room for all that the sender has above its share. |
| Migration.TakeVictims | kern/thread/thread.c:905-909 | The last threads of the queue, in order. |
| Migration.Deliver | kern/thread/thread.c:917-962 | Threads are only added, at the end, never curthread, not beyond the share; there is always a victim to dequeue. |
| Migration.HandOut | kern/thread/thread.c:912-964 | The same over all CPUs: no thread lost or doubled, and each gets the CPU of its queue. |
| Migration.DeliveredFills | kern/thread/thread.c:917-962 | What filling one queue comes to, as a function of queue, victims and number to send: conservation, the share, curthread kept. |
| Migration.HandedOutDeals | kern/thread/thread.c:912-964 | The same over all other queues: conservation, shares, and nothing left to send if there was room. |
| Migration.ConsiderMigration | kern/thread/thread.c:878-980 | Threads are conserved; with no interference the sender ends with exactly its share, or one more if curthread was among the victims; own queue and others are the functions of what was found. |
| Migration.SentInOrder | kern/thread/thread.c:911-963 | The other CPUs, one after the other, get the victims in order with curthread passed over. |
| MigrationRuns.Interference | kern/thread/thread.c:878-980 | Whatever other CPUs do while this one waits for a lock, its code, its victims and its queue, but for additions, stay. |
| MigrationRuns.TakenFacts | kern/thread/thread.c:905-909 | The loop that takes the victims is a stretch of a run with this result. |
| MigrationRuns.GivenFacts | kern/thread/thread.c:920-960 | So is the loop that fills one queue: it leaves what the function computes. |
| MigrationRuns.BackAll | kern/thread/thread.c:970-976 | So is the loop that puts left-over victims back. |
| MigrationRuns.TourFacts | kern/thread/thread.c:912-964 | So is the loop over the CPUs, with any interference at each lock. |
| MigrationRuns.MigrationIsRun | kern/thread/thread.c:878-980 | From any state and with any interference, the whole migration is a stretch of a run of the thread system; the own queue ends as ConsiderMigration computes it, every other queue was so when its lock was released. |
| ThreadSteps.LocalStep | kern/thread/thread.c:577-743 | A step that moves no thread and changes no tag keeps the invariant if it keeps the locks in order. |
| ThreadSteps.SwitchStartStep | kern/thread/thread.c:585-603 | The invariant of places, tags and locks survives the entry to thread_switch, up to the wait for the run queue lock. |
| ThreadSteps.SwitchNothingStep | kern/thread/thread.c:605-610 | The invariant survives leaving thread_switch when nothing else can run. |
| ThreadSteps.SwitchPlaceStep | kern/thread/thread.c:612-637 | The invariant survives queueing the current thread on the run queue, a wait channel or the zombie list. |
| ThreadSteps.SwitchTagStep | kern/thread/thread.c:637-637 | The invariant survives setting the tag of a thread that is already on its channel and may already be in a waker's hands. |
| ThreadSteps.PickNoneStep | kern/thread/thread.c:657-662 | The invariant survives going idle with the run queue lock released. |
| ThreadSteps.UnidleStep | kern/thread/thread.c:662-664 | The invariant survives coming back from idling to the run queue lock. |
| ThreadSteps.PickNextStep | kern/thread/thread.c:657-679 | The invariant survives the context switch. |
| ThreadSteps.ResumeStep | kern/thread/thread.c:728-733 | The invariant survives the end of the switch in the new thread, and thread_startup for a first run. |
| ThreadSteps.ExorciseSafe | kern/thread/thread.c:297-306 | The thread destroyed is a zombie and no CPU's current thread. |
| ThreadSteps.ExorciseStep | kern/thread/thread.c:297-306 | The invariant survives destroying a zombie. |
| ThreadSteps.DozeStep | kern/thread/thread.c:657-664 | The invariant survives letting interrupts in while idle, and shutting them out again. |
| ThreadSteps.ResumeEndStep | kern/thread/thread.c:738-743 | The invariant survives restoring the saved interrupt level. |
| ThreadSteps.ForkStep | kern/thread/thread.c:505-549 | The invariant survives creating a thread, with the count for the lock it will come out holding. |
| ThreadSteps.LaunchStep | kern/thread/thread.c:557-560 | The invariant survives handing the new thread to thread_make_runnable. |
| ThreadSteps.GrabStep | kern/thread/thread.c:1049-1094 | The invariant survives taking a sleeper off a wait channel, for wakeone or wakeall. |
| ThreadSteps.PlaceOneStep | kern/thread/thread.c:462-492 | The invariant survives making a thread runnable on its own CPU; its tag is never still unset then. |
| ThreadSteps.TakeOneStep | kern/thread/thread.c:905-909 | The invariant survives taking a victim from the own run queue. |
| ThreadSteps.GiveOneStep | kern/thread/thread.c:917-953 | The invariant survives giving a victim to another CPU; it is nobody's current thread. |
| ThreadSteps.SkipOneStep | kern/thread/thread.c:942-946 | The invariant survives passing over curthread among the victims. |
| ThreadSteps.MigrateEndStep | kern/thread/thread.c:965-980 | The invariant survives the end of a migration that left no victim. |
| ThreadSteps.BackOneStep | kern/thread/thread.c:970-976 | The invariant survives putting a left-over victim back. |
| ThreadRuns.StepKeeps | kern/thread/thread.c:297-1105 | Every step of every CPU keeps the invariant. |
| ThreadRuns.RunKeeps | kern/thread/thread.c:168-1105 | It holds in every state of every run from boot. |
| ThreadRuns.OnePlace | kern/thread/thread.c:462-1105 | A thread is on at most one list, once, and on none while it runs. |
| ThreadRuns.AlwaysSomewhere | kern/thread/thread.c:462-1105 | No thread is lost: it runs, is being forked, or is on the list that is its place. |
| ThreadRuns.TagsAgree | kern/thread/thread.c:577-743 | While its CPU's run queue lock is free, a thread's tag and CPU agree with its place; a running thread has S_RUN if and only if it is no first thread of a CPU that was never switched out, and that one S_READY. |
| ThreadRuns.BootTag | kern/thread/thread.c:131-254 | At boot every CPU runs such a thread with the tag S_READY. |
| ThreadRuns.BootUntilSwitched | kern/thread/thread.c:577-743 | The step in which thread_switch first leaves it, and no other, ends that. |
| ThreadRuns.ZombieStays | kern/thread/thread.c:632-637 | A zombie stays one until it is destroyed. |
| ThreadQueues.ArrivesIff | kern/thread/thread.c:462-1105 | The thread a step is said to put on a list is the one whose place becomes that list, and there is no other. |
| ThreadQueues.LeavesIff | kern/thread/thread.c:297-1105 | The thread a step is said to take off a list is the one whose place stops being that list, and there is no other. |
| ThreadQueues.StepQueue | kern/thread/thread.c:297-1105 | Whatever a step does, it adds at the end of a run queue, channel or zombie list, takes the head, or leaves it; only migration takes the last. |
| ThreadQueues.FirstInFirstOut | kern/thread/thread.c:462-1105 | Over any stretch of any run without migration from it, a list is first in, first out: what was there and what came is what left and what remains, in that order. |
| ThreadQueues.WokenInOrder | kern/thread/thread.c:1049-1105 | Wait channels and zombie lists are so always: threads are woken in the order in which they went to sleep. |
| ThreadLevels.LevelRestored | kern/thread/thread.c:590-742 | In every run, a thread that calls thread_switch next runs at the interrupt level at which it called it, whether or not it was switched out. |
| ThreadLevels.StartsAtSpl0 | kern/thread/thread.c:754-776 | A forked thread first runs at spl 0. |
| ThreadLevels.OnlySplx | kern/thread/spl.c:132-160 | While a thread runs, splx and no other step changes its level, to the one it is given. |
| ThreadSwitch.DoesAsAsked | kern/thread/thread.c:585-637 | However long it waits for the run queue lock, the caller goes on only if it asked to stay ready and nobody else is; otherwise it goes behind the ready threads of its CPU, behind the sleepers of the channel it named, or to its CPU's zombies, as it asked, and nothing else moves. |
| ThreadSwitch.PicksFirst | kern/thread/thread.c:657-679 | With the lock, the CPU takes the first ready thread, and idles if and only if there is none. |
| ThreadSwitch.NoZombiesLeft | kern/thread/thread.c:738-743 | When thread_switch returns in another thread, no zombie of its CPU is left. |
| ThreadSwitch.ExitIsFinal | kern/thread/thread.c:801-830 | In every run, a thread that called thread_exit never runs again. |
| ThreadSwitch.ForkedBeside | kern/thread/thread.c:505-560 | A forked thread belongs to its parent's CPU and is ready, and nothing else changes. |
| ThreadCpus.HandsApart | kern/thread/thread.c:462-1105 | A step of one CPU leaves every other CPU's private list as it was. |
| ThreadCpus.QueueGrows | kern/thread/thread.c:462-1105 | And to another CPU's run queue it only adds, at the end. |
| ThreadIpl.SplCounts | kern/thread/spl.c:132-160 | splx keeps the count equal to the level plus the spinlocks and interrupts off exactly while it is positive. |
| ThreadIpl.WantCounts | kern/thread/spinlock.c:75-115 | So does the start of spinlock_acquire. |
| ThreadIpl.ReleaseCounts | kern/thread/spinlock.c:121-134 | So does spinlock_release. |
| ThreadIpl.HeldCounted | kern/thread/spinlock.c:121-128 | The counter a release asserts to be positive is positive. |
| ThreadIpl.PickIpl | kern/thread/thread.c:657-679 | At the context switch both threads carry exactly one extra for the run queue lock. |
| ThreadIpl.ForkIpl | kern/thread/thread.c:543-549 | So does a freshly forked thread. |
| ThreadIpl.StepCounts | kern/thread/spl.c:87-160 | Every step of the system keeps the counts. |
| ThreadIpl.RunCounts | kern/thread/spl.c:87-160 | They are right in every state of every run, nested or not, across switches and first runs: interrupts are off exactly while the count is positive, but for the moment in cpu_idle that lets them in. |
| Semaphore.StepKeeps | kern/thread/synch.c:89-135 | Every step of P and V keeps the invariant. |
| Semaphore.RunKeeps | kern/thread/synch.c:89-135 | In every run count + completed Ps = initial + completed Vs, and while somebody sleeps the count is at most the number of woken threads yet to test again. |
| SemaphoreThreads.ActFits | kern/thread/synch.c:89-135 | Each step of P and V run by the CPUs is a step of the thread system and of the semaphore machine, or none, and keeps them together: the sleepers are the threads on the channel, in order. |
| SemaphoreThreads.RunFits | kern/thread/synch.c:89-135 | So it is in every state of every run from boot, among any other threads and steps. |
| SemaphoreThreads.RunProjects | kern/thread/synch.c:89-135 | Every such run gives a run of the thread system and a run of the semaphore machine. |
| SemaphoreThreads.NoneForgotten | kern/thread/synch.c:89-135 | On the CPUs, while threads are on the channel and no CPU holds the spinlock, the count is at most the number of woken threads yet to test again; the channel holds exactly the sleepers. |
| SemaphoreThreads.SpinlockIsTheLock | kern/thread/synch.c:89-135 | Whoever is past the acquisition runs on the CPU that holds the spinlock. |
| SleepLock.UnitsStep | kern/thread/synch.c:182-225 | From holders and count adding up to 1, a step keeps the sum if it is no release or one by a holder, and makes it 2 otherwise. |
| SleepLock.InOrderIff | kern/thread/synch.c:182-225 | In every run from a fresh lock, the sum is 1 up to a moment if and only if every release before it was by a holder. |
| SleepLock.LockExcludes | kern/thread/synch.c:182-225 | Then at most one thread holds the lock, and none if and only if the count is 1. |
| SleepLock.StrangerBreaks | kern/thread/synch.c:182-225 | The first release by another thread, whatever the rest are doing, can be followed by two threads holding the lock, as soon as there is a second thread. |
| SleepLock.ReleaseByStranger | kern/thread/synch.c:205-225 | Such a run exists. |
| SleepLockThreads.InOrderIff | kern/thread/synch.c:182-225 | The same equivalence for the lock's code run by the CPUs, among any other threads. |
| SleepLockThreads.OneHolder | kern/thread/synch.c:182-225 | So there, too, at most one caller holds the lock if only holders release it. |
| SleepLock.TruthIff | kern/thread/synch.c:232-250 | Of a lock in order, lock_do_i_hold tells every caller the truth if and only if the lock is free or held by its creator. |
| SleepLock.DoIHoldIff | kern/thread/synch.c:232-250 | In a run in order it is always right if and only if nobody but the creator ever takes the lock. |
| SleepLock.DoIHoldLies | kern/thread/synch.c:232-250 | A run in order in which it says yes to a thread that does not hold the lock and no to the one that does. |
| Sha256Spec.RoundConstants | common/libtest161/sha256.c:140-158 | Every table entry is the first 32 bits of the fraction of the cube root of its prime. |
| Sha256Spec.InitialValues256 | common/libtest161/sha256.c:114-122 | The initial state comes from the square roots of the first eight primes. |
| Sha256Spec.InitialValues224 | common/libtest161/sha256.c:126-134 | The SHA-224 initial state comes from those of the next eight. |
| Sha256Spec.SplitJoin | common/libtest161/sha256.c:64-82 | PUT_UINT32_BE and then GET_UINT32_BE gives the word back. |
| Sha256Spec.JoinSplit | common/libtest161/sha256.c:64-82 | GET_UINT32_BE and then PUT_UINT32_BE gives the bytes back. |
| Sha256Spec.ZeroBytesLeast | common/libtest161/sha256.c:306-309 | The padding is the shortest that ends a block. |
| Sha256Spec.LengthIs | common/libtest161/sha256.c:299-304 | The eight bytes of the length stand for the number of bits, most significant first. |
| Sha256Spec.HashAppend | common/libtest161/sha256.c:271-276 | Hashing a concatenation of whole blocks is hashing one part after the other. |
| Sha256Process.F0IsMaj | common/libtest161/sha256.c:169-169 | F0 is Maj of section 4.1.2 of FIPS 180-4. |
| Sha256Process.F1IsCh | common/libtest161/sha256.c:170-170 | F1 is Ch of section 4.1.2 of FIPS 180-4. |
| Sha256Process.BigSigmasAgree | common/libtest161/sha256.c:166-167 | S2 and S3 are the upper-case sigma functions. |
| Sha256Process.SmallSigmasAgree | common/libtest161/sha256.c:163-164 | S0 and S1 are the lower-case sigma functions. |
| Sha256Process.PIsRound | common/libtest161/sha256.c:178-183 | One use of the round macro with the registers renamed j times is one round, for all j. |
| Sha256Process.RIsNext | common/libtest161/sha256.c:172-176 | The macro R computes the next word of the schedule. |
| Sha256Process.ProcessRolled | common/libtest161/sha256.c:194-206 | The rolled variant is the compression of section 6.2.2. |
| Sha256Process.EightRounds | common/libtest161/sha256.c:211-221 | Eight renamed uses of the macro are eight rounds. |
| Sha256Process.EightScheduledRounds | common/libtest161/sha256.c:223-233 | So they are with each word of the schedule computed just before its round. |
| Sha256Process.ProcessUnrolled | common/libtest161/sha256.c:185-238 | The unrolled variant is the compression of section 6.2.2, hence equal to the rolled one. |
| Sha256.CountUp | common/libtest161/sha256.c:256-260 | The two-word counter holds the length, carry included. |
| Sha256.Blocks | common/libtest161/sha256.c:271-276 | The loop over whole blocks absorbs them in order. |
| Sha256.Absorb | common/libtest161/sha256.c:244-280 | State and buffer hold the longer message: whole blocks hashed, the rest in the buffer. |
| Sha256.Context.constructor | common/libtest161/sha256.c:106-137 | A context for the empty message. |
| Sha256.Context.Update | common/libtest161/sha256.c:244-280 | The context represents the message followed by the input. |
| Sha256.LengthBytes | common/libtest161/sha256.c:299-304 | The eight bytes encode the length in bits. |
| Sha256.Context.Finish | common/libtest161/sha256.c:293-322 | The output is the digest of the padded message, for messages under 2^61 bytes. |
| Sha256.HashChunks | common/libtest161/sha256.c:244-322 | However a message is cut into updates, the digest is that of the whole. |
| Sha256.OneShot | common/libtest161/sha256.c:329-339 | The one-shot function gives the digest of its input. |
| Sha256Vectors.Abc256 | common/libtest161/sha256.c:343-390 | The SHA-256 digest of "abc" is the known answer. |
| Sha256Vectors.Abc224 | common/libtest161/sha256.c:343-390 | The SHA-224 digest of "abc" is the known answer. |
| Numerals.NumeralValue | common/libc/printf/__printf.c:443-465 | In bases 8, 10 and 16 the digits evaluate back to the number. |
| Numerals.NumeralAppends | common/libc/printf/__printf.c:443-465 | The digit of the units comes last. |
| PrintfFields.DigitsStandFor | common/libc/printf/__printf.c:418-465 | The digits printed stand for the number, in characters 0 to 9 and a to f, with no 0 in front of a number other than 0. |
| PrintfFields.PaddedLayout | common/libc/printf/__printf.c:367-404 | A field is as wide as asked or as its text, which stands on the side asked for, with zeros behind the prefixes or spaces before them. |
| PrintfFields.WidthIs | common/libc/printf/__printf.c:203-232 | The digits among the modifiers are a decimal field width, and ask for zeros if the first is 0. |
| PrintfFields.Sizes | common/libc/printf/__printf.c:190-202 | No size modifier, l and z mean 32 bits, ll means 64; every l switches between long and long long, and z overrules what came before it. |
| PrintfFields.UnsignedFields | common/libc/printf/__printf.c:288-343 | %x, %o and %u print the argument modulo its size in base 16, 8 and 10; with # the first two have the prefixes 0x and 0. |
| PrintfFields.PointerField | common/libc/printf/__printf.c:242-253 | %p prints 32 bits in base 16, always with the prefix 0x. |
| PrintfFields.SignedField | common/libc/printf/__printf.c:254-287 | %d prints the argument as a signed number of its size, in base 10, with a minus sign if and only if it is negative. |
| PrintfFields.TextFields | common/libc/printf/__printf.c:533-562 | %s prints the string, or (null), %c the character unless it is NUL, and any other character stands for itself. |
| PrintfFields.PlainText | common/libc/printf/__printf.c:503-512 | Text without a percent sign is printed as it is. |
| PrintfFields.Directive | common/libc/printf/__printf.c:514-562 | A directive prints its field and takes an argument if it is a numeric, string or character one. |
| PrintfFields.Unfinished | common/libc/printf/__printf.c:514-521 | A format that ends inside a directive prints nothing for it. |
| Numerals.NumeralFits | common/libc/printf/__printf.c:84-84 | Every 64-bit number fits the buffer with its NUL. |
| Numerals.NumeralTight | common/libc/printf/__printf.c:84-84 | The largest number in octal fills it exactly. |
| Printf.DigitLoop | common/libc/printf/__printf.c:432-473 | The right-to-left loop leaves the numeral at the end of the buffer and never runs out of it. |
| Printf.ModifierReflects | common/libc/printf/__printf.c:182-233 | Reading modifiers one at a time comes to what they say together: width, zero fill, alignment, size, alternate form. |
| Printf.PrintFill | common/libc/printf/__printf.c:350-357 | The fill character, as often as asked. |
| Printf.PrintStuff | common/libc/printf/__printf.c:367-404 | Space padding before the prefixes, zero padding after them, either on the right. |
| Printf.PrintNum | common/libc/printf/__printf.c:415-491 | The padded field with sign, base prefix and numeral. |
| Printf.NumberFieldIs | common/libc/printf/__printf.c:242-343 | Fetching the number and setting the base give the field the directive asks for, at every size. |
| Printf.Convert | common/libc/printf/__printf.c:522-562 | A conversion character prints its field and resets the state. |
| Printf.SendChar | common/libc/printf/__printf.c:498-563 | After each character, what was sent and what is still to come make up the output. |
| Printf.Vprintf | common/libc/printf/__printf.c:571-592 | The text sent is what the format asks for, directive by directive, and the result is its length. |
| Printf.Snp.Send | common/libc/printf/snprintf.c:75-93 | The buffer holds the first characters sent, the rest of it is untouched. |
| Printf.Vsnprintf | common/libc/printf/snprintf.c:99-142 | The first min(len-1, total) characters, then NUL, nothing beyond, nothing at all if len is 0; returns the total. |
| Atoi.Atoi | common/libc/stdlib/atoi.c:50-101 | Blanks, sign and the run of digits, modulo 2^32, as an int. |
| Atoi.AtoiReads | common/libc/stdlib/atoi.c:50-101 | After any spaces and tabs, no sign or - or +, and any digits, followed by anything else: the number that the digits stand for, negated after -, as the int congruent to it modulo 2^32. |
| Atoi.PartsOf | common/libc/stdlib/atoi.c:50-101 | Every string is made up like that. |
| PrintParse.CutReads | common/libc/stdlib/atoi.c:50-101 | From the first k characters that %d prints, for every int, modifiers and k, atoi gets the number if and only if it is 0, or the cut is behind its digits and behind no padding zero. |
| PrintParse.PrintThenParse | common/libc/stdlib/atoi.c:50-101 | With nothing cut off: if and only if no padding zeros follow the digits of a number other than 0. |
| PrintParse.SevenIsNotReadBack | common/libc/stdlib/atoi.c:50-101 | 7 printed with %-05d is read back as something else. |
| PrintParse.FormatAndParse | common/libc/printf/snprintf.c:99-142 | snprintf of a %d directive into a buffer and atoi of the string in it: the number comes back for exactly those buffer lengths; with no room, what was there is read. |
| MemMove.WordForward | common/libc/string/memcpy.c:65-75 | Copying a word at once is copying its bytes in order, whatever the overlap of aligned regions. |
| MemMove.WordBackward | common/libc/string/memmove.c:91-106 | The same for the backward loop. |
| MemMove.Memcpy | common/libc/string/memcpy.c:48-86 | On the word and the byte path, the memory after copying the bytes in increasing order. |
| MemMove.ForwardMovesIff | common/libc/string/memcpy.c:52-55 | Copying forwards moves the bytes for all contents if and only if the destination does not start inside the source. |
| MemMove.CopyBackward | common/libc/string/memmove.c:86-114 | On the word and the byte path, the memory after copying the bytes in decreasing order. |
| MemMove.Memmove | common/libc/string/memmove.c:49-117 | The destination holds the old bytes of the source and nothing else changed, however the regions lie. |
| MemMove.MovedIff | common/libc/string/memmove.c:49-117 | That is: what was before the destination, then the old bytes of the source, then what was behind the destination. |

## Left out

- HeapRuns.StepKeeps: freeing a block a second time is no step; `HeapTwice` says what it does. Where the rounding of a big request wraps, alloc_kpages is asked for zero pages, and no page is taken to stand behind what it returns.
- HeapRuns.RunKeeps: a failed assertion stops the kernel and ends the run.
- KMalloc.Heap.TakeBlock: the contents of blocks, with fill_deadbeef, are not modelled; only the link word of a free block is.
- ThreadRuns.StepKeeps: thread_yield and thread_exit are taken to be called with no spinlock held, which the source checks only for wchan_sleep; stacks, processes, IPIs and thread_count are left out.
- ThreadSteps.GrabStep: any spinlock held will do, because the source does not tie a wait channel to its lock.
- Migration.ConsiderMigration: run queues are sequences here and in `ThreadSystem`, linked lists in `ThreadList`; the own queue is taken not to shrink between census and taking, because only its own CPU removes threads from it.
- Semaphore.StepKeeps: V is not a step when the count would wrap to 0; the source asserts that it does not.
- Printf.Vprintf: the field width and the character count do not overflow an int; where they would, the behaviour in C is undefined.
- Sha256.Context.Finish: for messages of 2^61 bytes or more the digest is not specified, because the standard does not define it.
- MemMove.Memcpy: the word path takes `long` to have four bytes.
- Optional heap debugging (GUARDS, LABELS, SLOW, CHECKBEEF) and the printing of heap statistics: compiled out, or only output.
- SemaphoreThreads.ActFits: V called by an interrupt handler on a busy CPU is not told apart from a V of the thread it interrupts.
- Condition variables: the bodies are empty.
- thread_panic, shutdown, IPI and TLB shootdown delivery, the assembler context switch, memory barriers: machine-dependent.
- File systems, devices, console, ELF loading, user memory access: not part of this model.
- Addition, subtraction, comparison and shift routines, timespec, bitmap and array helpers, string helpers: they would only add easy members.
