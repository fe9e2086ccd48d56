# A model of the RT-Thread kernel

This project models the stateful core of an RT-Thread 3.1 kernel in Dafny and proves what its
operations keep, in every run: the two heap allocators, the objects threads wait on, the scheduler
with its ready bitmap, round robin, and the timer list.

`dafny verify dfyconfig.toml` checks everything.

## How the model is built

| file | models | form |
|---|---|---|
| Words, Lists | number widths, sequences without repetition | shared |
| FlatMemory, Blocks | memory cells, linked headers, block lists and their byte counts | shared by both heaps |
| MemHeap | `memheap.c` | a class over one array of cells, with the blocks and the free list as ghost sequences |
| SmallHeap | `mem.c` | the same |
| IntrusiveList | the ring of `rtservice.h` | linked objects, shown to represent a sequence |
| WaitList | the suspend lists of `ipc.c` | sequences |
| Semaphore | semaphores | a class with ghost counters |
| Mutex, Mailbox, MessageQueue | mutexes, mailboxes, message queues | a step function, a ledger of what the calls amount to, runs, and a class whose methods do the steps |
| Event | events | a class; serving a list of waiters is defined by immediate receives |
| Bits, Scheduler | `__rt_ffs`, ready queues, bitmap, thread states | step function, runs, class |
| RoundRobin | the time slices of `rt_tick_incread` | a pure queue, refined by the scheduler's steps |
| SkipList, Timers, TimerCalls | the timer list of any number of levels | step function over a wrapping tick, a ledger over an unbounded clock, runs, class; what each call does |

A section with interrupts disabled is one step, and steps of different threads come in any order. A
call that blocks is cut at the point where its thread is suspended; its rest is a step of its own.
The bytes that the message queue copies with interrupts enabled are copied one step each. Calls of
several sections, like the start of a timer or the resume of a thread, are cut between them; such a
call as a whole is a step as well, as it is where the kernel makes it with interrupts disabled.

In the heaps, headers and payloads are cells of one array, so that "no header write changes a live
byte" is a statement about memory. A header field is the cell at its offset in the header. Pointers
are offsets, and NULL is 0. Elsewhere a list is the sequence that IntrusiveList shows a ring to be,
and threads, timers and nodes are numbers. Counters have the source's width where it matters: the
8-bit `hold`, the 16-bit semaphore value and message sizes, 32-bit sizes and ticks. An event set is
the set of its one bits, and the words of the ready bitmap are numbers with `|`, `& ~` and `<<`
defined bit by bit.

Names like *ledger* and *books* stand for ghost records of the calls made so far: which threads came
in which order, how often a thread took a mutex, which starts of timers fired, how many bytes were in
use after each change of a heap. The invariants tie the program's variables to them.

## Readings of the source

Where a line contradicts the code or comment around it, the model follows the evident intent:
`mem.c:113` compares; `mem.c:324` takes an address; `memheap.c:318` asserts on the next size and
`memheap.c:372` writes the free list's link; `ipc.c:791` and `ipc.c:796` speak of the mutex's `hold`
and of the owner's current priority; `ipc.c:839` and `ipc.c:1139` compare; `ipc.c:1280` initializes
the sender list; `ipc.c:1481` disables interrupts; `ipc.c:1498` reads the mailbox's fields;
`ipc.c:1868-1872` links the nodes as `ipc.c:1775-1781` does; `ipc.c:2215` pushes onto the free list
as `ipc.c:2266` does; `thread.c:550` uses the state mask; `timer.c:98` removes from the rows;
`timer.c:350` and `timer.c:356` insert behind the places found.

## What the proofs brought to light

- `rt_memheap_alloc` and `rt_malloc` serve less than was asked for exactly when rounding the size up
  wraps in 32 bits (`MemHeap.RequestCovers`, `SmallHeap.RequestCovers`), and the growth test of
  `rt_memheap_realloc` can say that there is room when there is none (`MemHeap.RoomToGrowExact` says
  when, `MemHeap.RoomToGrowFails` gives the numbers).
- A reallocation of `rt_memheap_realloc` that moves a block counts the old and the new block at once in
  the peak of the used size (`MemHeap.Heap.Realloc`).
- The strict bound of the search in `rt_malloc` refuses exactly one fit: the exact one at the end of
  the heap (`SmallHeap.EndFitRefused`, `SmallHeap.FailsOnlyAtEnd`).
- `rt_realloc` of `mem.c` never shrinks in place: the branch for it is empty. In `plug_holes` the two
  resets of the lowest-free pointer never change it, because `rt_free` has already lowered it.
- With a FIFO wait list a mutex can be handed to a thread that is less urgent than one still waiting
  (`Mutex.FifoOutranked`; `Mutex.FifoHandOff` says exactly when, and `Mutex.FifoKeeps` that no other
  step does it).
- A nested take at the limit of the 8-bit hold counter breaks the mutex, and nothing else does
  (`Mutex.StepKeeps`); 255 takes of one thread lead there (`Mutex.HoldLimit`).
- The 16-bit semaphore value wraps to 0 when it is released at its limit; the books of Semaphore count
  such wraps, and its conservation law holds up to them.
- A thread that was never started has no masks. Suspending it does no harm; resumed before its masks
  are computed it is READY in a queue that the bitmap shows only if others are there
  (`Scheduler.ResumedUnmasked`), and leaving that queue last it leaves a bit behind.
  `Scheduler.StepKeeps` says of every step exactly when it keeps bitmap, queues and states in agreement.
- `rt_thread_resume` tests the state outside its two sections. If another resume or the timeout makes the
  thread READY between the sections, the second one inserts it twice (`Scheduler.InsertTwice`). If that
  comes before the first section, the first one takes the READY thread out of its queue, and until the
  second one puts it back at the end, `rt_schedule` may look for a thread in an empty queue
  (`Scheduler.ResumedMeanwhile`, `Scheduler.MovedToEnd`). `rt_thread_detach` takes a READY thread out of
  its queue before it stores the closed state (`Scheduler.DetachParts`).
- `rt_timer_start` unlinks its timer in one section and links it in another, so that two starts of one
  timer that overlap can link it twice (`Timers.TwoStarts`). `Timers.StepKeeps` says of every step exactly
  when it keeps the rows and what fires right.
- `rt_timer_start` reads the tick with interrupts enabled. A timer that is linked only when its deadline
  has come fires at the next tick, not at its deadline (`Timers.LinkedInTime`,
  `Timers.FiresAtExpectedTick`). Deadlines further apart than half the range compare wrongly
  (`SkipList.LaterExact`), so delays must be smaller than that by the ticks a timer may be late.
- The lock counter of the scheduler has 16 bits with a sign, although the comment at `scheduler.c:339-342`
  speaks of 65535 nested locks: it counts right up to 32768 of them (`Scheduler.LockCounts`), and with more
  one unlock takes them all away (`Scheduler.LockOverflows`).
- A one-shot timer that starts itself again in its own callback stays linked with its flag cleared. It
  still fires at its tick, but `rt_timer_stop` refuses it; the invariant of Timers allows for that.
- A non-blocking receive from an empty mailbox reports that the mailbox is full (`ipc.c:1570-1575`).

## Model

| member | source | states |
|---|---|---|
| FlatMemory.LinkAfter | Source/rt-thread/src/memheap.c:199-203 | Linking an item behind another one, four stores, inserts it in the ring at that place and leaves every other field and every payload cell alone. |
| FlatMemory.Unlink | Source/rt-thread/src/memheap.c:193-197 | Unlinking an item, two stores, takes exactly it out of the ring; every other field and every payload cell is kept. |
| FlatMemory.CopyCells | Source/rt-thread/src/memheap.c:392 | The copy puts the source cells at the destination and changes no cell outside it. |
| FlatMemory.RingInsert | Source/rt-thread/src/memheap.c:187-203 | Four relinked fields turn the ring of a sequence into the ring of the sequence with one item more. |
| FlatMemory.RingRemove | Source/rt-thread/src/memheap.c:555-557 | Two relinked fields turn the ring of a sequence into the ring of the sequence with one item less. |
| Blocks.Cut | Source/rt-thread/src/memheap.c:187-191 | Cutting a block in two changes the sum of the marked block sizes by one header, or by the size of the new block, and the live payloads only where the cut block was live. |
| Blocks.Join | Source/rt-thread/src/memheap.c:539-558 | Merging a block with its right neighbour gives back one header when both are free, and otherwise makes the live payload longer by the neighbour. |
| Blocks.Isolated | Source/rt-thread/src/memheap.c:181-203 | Header writes, also of a header placed inside a free block, change no byte of any live payload. |
| Blocks.MovedBytes | Source/rt-thread/src/memheap.c:389-396 | Allocate, copy and free together preserve the copied prefix and all other live payloads. |
| Blocks.MovedAmongOthers | Source/rt-thread/src/memheap.c:385-397 | The prefix also survives when calls of other threads come between the allocation, the copy and the free, as they may, since each of these takes the lock for itself. |
| Blocks.PeakIsLargest | Source/rt-thread/src/memheap.c:210-219 | The peak of a history is one of its numbers and none is larger. |
| MemHeap.Heap.constructor | Source/rt-thread/src/memheap.c:29-100 | A fresh pool is one free item of pool size minus two headers and the used tailer, and satisfies the heap invariant. |
| MemHeap.Heap.Search | Source/rt-thread/src/memheap.c:148-158 | The walk of the circular free list terminates and stops at the first item in list order that is large enough, or finds that none is. |
| MemHeap.Heap.TakeWhole | Source/rt-thread/src/memheap.c:214-235 | A fit that is not split leaves the free list, becomes one live block, and is charged with its whole size. |
| MemHeap.Heap.TakeSplit | Source/rt-thread/src/memheap.c:166-213 | A split serves exactly the request, puts the remainder at the front of the free list, and costs the request and one header. |
| MemHeap.Heap.AllocFit | Source/rt-thread/src/memheap.c:141-250 | The part under the lock needs no test before it, so a test that is out of date by then does no harm: it returns NULL, changing nothing, exactly when every free item is too small, and otherwise serves the first fit: exactly the request if the item is larger than request, header and minimum block together, and all of it otherwise. |
| MemHeap.Heap.Alloc | Source/rt-thread/src/memheap.c:116-257 | Returns NULL, changing nothing, exactly when the aligned request is not below the available size or exceeds every free item; otherwise serves the first fit in free-list order, with its exact effect on live blocks, free list, available bytes and their history: the caller gets exactly the request if the fit is larger than request, header and minimum block together, and all of it otherwise, so never more than a header and the minimum block too much; keeps that the maximum counter is the peak of this history, and every byte of the other payloads. |
| MemHeap.Heap.JoinLeft | Source/rt-thread/src/memheap.c:520-537 | A freed item merges with a free left neighbour, whose place in the free list it takes over. |
| MemHeap.Heap.JoinRight | Source/rt-thread/src/memheap.c:540-558 | A freed item merges with a free right neighbour, which leaves the ring and the free list. |
| MemHeap.Heap.Free | Source/rt-thread/src/memheap.c:474-575 | Frees exactly the block given, merges it on both sides, accounts its size and one header per merge in the available bytes and the history, puts it at the front of the free list unless it merged left, keeps the invariant, the peak and every live byte; NULL changes nothing. |
| MemHeap.Heap.Grow | Source/rt-thread/src/memheap.c:329-382 | Growth into the right neighbour moves that item up, charges the difference, and changes no live byte. |
| MemHeap.Heap.TryGrow | Source/rt-thread/src/memheap.c:313-383 | Grows in place exactly when the right neighbour is free and leaves more than the minimum behind: the free list, the available bytes and the history change as by `Grow`; otherwise nothing changes. |
| MemHeap.Heap.Shrink | Source/rt-thread/src/memheap.c:412-470 | Shrinking cuts the tail off, merges it with a free right neighbour, puts it at the front of the free list and credits it exactly. |
| MemHeap.Heap.Move | Source/rt-thread/src/memheap.c:389-397 | A reallocation that has to move is an allocation, a copy and a free, with the books of both in order and a sound heap between them; the new block has the old bytes and the size an allocation gives it; on failure, which is that of the allocation, nothing changes. |
| MemHeap.Heap.Resize | Source/rt-thread/src/memheap.c:287-470 | A live block stays where it is if and only if it is large enough, or its right neighbour is free and leaves more than the minimum behind; otherwise it moves; the first min(old, new) bytes and all other live blocks are preserved; free list, available bytes, history and peak change exactly as by growing, shrinking, or allocating and freeing; it fails exactly when it must move and no block can be had, and then changes nothing. |
| MemHeap.Heap.Realloc | Source/rt-thread/src/memheap.c:260-471 | All cases of reallocation: size 0 frees, NULL allocates, a live block is resized; each with its exact books, peak and condition of failure, and with at least the request and at most a header and the minimum block more. |
| MemHeap.Heap.ReleaseAll | Source/rt-thread/src/memheap.c:474-575 | Freeing all live blocks in any order restores one free item of pool size minus two headers and leaves the peak. |
| MemHeap.AllFreeIsOneBlock | Source/rt-thread/src/memheap.c:41-90 | With nothing allocated the invariant leaves one free item and the tailer only. |
| MemHeap.Conservation | Source/rt-thread/src/memheap.c:210-217 | Pool size is available size plus the live sizes plus one header for each live block, each free block and the tailer, in every valid heap. |
| MemHeap.Isolation | Source/rt-thread/src/memheap.c:247 | A live payload is aligned, inside the pool, and disjoint from every header and every other live payload. |
| MemHeap.RequestCovers | Source/rt-thread/src/memheap.c:126-128 | The rounded request is at least the size asked for if and only if rounding up does not wrap in 32 bits. |
| MemHeap.RequestIsLeast | Source/rt-thread/src/memheap.c:125-128 | The rounded request is the least aligned number that covers the size asked for and the minimum block. |
| MemHeap.RequestWraps | Source/rt-thread/src/memheap.c:126-128 | A size just below 4 GiB is rounded to the minimum block. |
| MemHeap.RoomToGrowExact | Source/rt-thread/src/memheap.c:329 | The 32-bit growth test means that there is room if and only if adding the minimum does not wrap or the neighbour is smaller than the wrapped sum. |
| MemHeap.GrowsTooFar | Source/rt-thread/src/memheap.c:329-365 | Where the test is wrong it says yes, and the header of the rest would end past the end of the neighbour. |
| MemHeap.RoomToGrowFails | Source/rt-thread/src/memheap.c:329 | It is wrong for two blocks of 100 bytes and a request just below 4 GiB. |
| SmallHeap.HeapSizeAligned | Source/rt-thread/src/mem.c:146-164 | The size computed at initialization is aligned, leaves room for both headers, does not reach past the end, and wastes no more than the alignment at both ends. |
| SmallHeap.Heap.constructor | Source/rt-thread/src/mem.c:143-196 | A fresh heap is one free block up to the end marker, with the lowest-free pointer at it. |
| SmallHeap.Heap.FindFit | Source/rt-thread/src/mem.c:244-251 | The scan from the lowest-free pointer finds the lowest free block that fits below the bound, or that there is none. |
| SmallHeap.Heap.AdvanceLfree | Source/rt-thread/src/mem.c:320-327 | The lowest-free pointer moves to the next free block, so that every block below it is used. |
| SmallHeap.Heap.Malloc | Source/rt-thread/src/mem.c:211-350 | Serves the lowest-address free block that fits and starts below the bound, split when the remainder can hold a minimum block, so that the caller gets less than a header and a minimum block too much, and returns NULL, changing nothing, exactly when there is none; the effect on blocks, free blocks, used bytes, their history and its peak is exact; keeps the invariant and every live byte. |
| SmallHeap.Heap.PlugForward | Source/rt-thread/src/mem.c:104-119 | A freed block absorbs a free right neighbour that is not the end marker. |
| SmallHeap.Heap.PlugBackward | Source/rt-thread/src/mem.c:121-132 | A freed block is absorbed by a free left neighbour, and no two neighbours are free afterwards. |
| SmallHeap.Heap.Free | Source/rt-thread/src/mem.c:467-530 | Frees exactly the block given, subtracts its extent from the used memory, keeps the lowest-free pointer lowest, the peak, and every live byte; NULL changes nothing. |
| SmallHeap.Heap.Realloc | Source/rt-thread/src/mem.c:361-429 | All cases of reallocation: too large, zero, NULL, a pointer outside the heap, equal size, and a move that preserves the common prefix; each with its exact books and peak, when it fails, and with every other payload preserved. |
| SmallHeap.Heap.Resize | Source/rt-thread/src/mem.c:388-428 | A live block of the size asked for stays; any other is allocated anew, copied and freed, and exactly if no block can be served NULL is returned and nothing changes. |
| SmallHeap.EndFitRefused | Source/rt-thread/src/mem.c:244-250 | A free block that fits is passed over by the strict bound if and only if it fits exactly and ends at the end marker. |
| SmallHeap.FailsOnlyAtEnd | Source/rt-thread/src/mem.c:244-250 | When no block qualifies, at most one free block fits at all, and it is the exact fit at the end. |
| SmallHeap.Conservation | Source/rt-thread/src/mem.c:288-308 | Used memory is the live sizes plus a header each, and with the free sizes and their headers it makes the whole heap. |
| SmallHeap.AllFreeIsOneBlock | Source/rt-thread/src/mem.c:172-195 | With nothing allocated the heap is one free block and the lowest-free pointer is at it. |
| SmallHeap.Isolation | Source/rt-thread/src/mem.c:330-332 | A live payload is aligned, inside the heap, and disjoint from every header and every other live payload. |
| SmallHeap.RequestCovers | Source/rt-thread/src/mem.c:228-239 | The rounded request is at least the size asked for if and only if rounding up does not wrap in 32 bits. |
| SmallHeap.RequestIsLeast | Source/rt-thread/src/mem.c:228-239 | The rounded request is the least aligned number that covers the size asked for and the minimum block. |
| SmallHeap.RequestWraps | Source/rt-thread/src/mem.c:228-239 | A size just below 4 GiB is rounded to the minimum block. |
| IntrusiveList.InsertAfter | Source/rt-thread/include/rtservice.h:42-49 | Inserting behind a member of a ring gives the ring of the sequence with the node at that place. |
| IntrusiveList.InsertBefore | Source/rt-thread/include/rtservice.h:57-64 | Inserting before a member gives the ring of the sequence with the node just before it; before the head means at the end. |
| IntrusiveList.Remove | Source/rt-thread/include/rtservice.h:70-76 | Removing a member gives the ring of the sequence without it, and leaves the node linked to itself. |
| IntrusiveList.RemoveUnlinked | Source/rt-thread/include/rtservice.h:70-76 | Removing a node that is linked to itself changes nothing. |
| IntrusiveList.IsEmpty | Source/rt-thread/include/rtservice.h:82-85 | The test is true exactly for the empty sequence. |
| IntrusiveList.Len | Source/rt-thread/include/rtservice.h:91-103 | The counting loop terminates with the length of the sequence. |
| IntrusiveList.NeighboursDiffer | Source/rt-thread/src/thread.c:430-431 | The next and previous node of a member differ if and only if the ring has more than one member. |
| WaitList.ListSuspend | Source/rt-thread/src/ipc.c:42-84 | The walk puts a thread at the end of a FIFO list, and of a priority list behind all threads that are at least as urgent. |
| WaitList.ListResume | Source/rt-thread/src/ipc.c:95-108 | The head of the list leaves it and the SUSPEND state. |
| WaitList.ResumeAll | Source/rt-thread/src/ipc.c:118-146 | Resuming all terminates because every waiter is suspended, which the invariants of the objects keep; each is woken once, in list order. |
| WaitList.QueueIsStableSort | Source/rt-thread/src/ipc.c:42-84 | The list is the arrival order, or the stable sort of it by priority. |
| WaitList.QueueRemove | Source/rt-thread/src/ipc.c:95-108 | Taking a thread out of the list, woken or timed out, leaves the list that the other arrivals alone would have made. |
| WaitList.UniqueQueue | Source/rt-thread/src/ipc.c:42-84 | No thread is in a wait list twice. |
| WaitList.WakeOrder | Source/rt-thread/src/ipc.c:95-108 | The head of the list, which is woken, is the most urgent waiter, and among those the first to have come; with FIFO the first to have come. |
| WaitList.ArrivedWakes | Source/rt-thread/src/ipc.c:95-108 | To wake the head takes exactly this waiter out, and leaves the list that the other arrivals alone would have made. |
| Semaphore.Semaphore.constructor | Source/rt-thread/src/ipc.c:160-180 | A new semaphore has its 16-bit value and no waiter. |
| Semaphore.Semaphore.Take | Source/rt-thread/src/ipc.c:283-367 | Takes a unit, gives up at once, or suspends the thread in the list; keeps conservation of units and that waiters exist only at value 0. |
| Semaphore.Semaphore.Release | Source/rt-thread/src/ipc.c:391-432 | Hands the unit to the waiter that is first by urgency and arrival, or counts it, and then loses 65536 units exactly when the value is at its 16-bit limit; keeps the order of the others. |
| Semaphore.Semaphore.Expire | Source/rt-thread/src/thread.c:690-712 | A timeout removes one waiter and touches neither the value nor the order of the others. |
| Semaphore.Semaphore.Reset | Source/rt-thread/src/ipc.c:444-477 | Wakes all waiters, each once and in list order, with an error, and sets the value. |
| Mutex.StepKeeps | Source/rt-thread/src/ipc.c:616-843 | Every take, release and timeout keeps the invariant if and only if it does not overflow the 8-bit hold counter by a nested take. |
| Mutex.HoldLimit | Source/rt-thread/src/ipc.c:643-648 | The run of 255 takes of one thread, after which one more makes the counter 0 while the thread owns the mutex. |
| Mutex.RunKeeps | Source/rt-thread/src/ipc.c:616-843 | The invariant holds after every run of such steps. |
| Mutex.Safety | Source/rt-thread/src/ipc.c:616-843 | In every reachable state the mutex is free iff it has no owner iff it is not held, and then nobody waits; hold is the owner's takes minus releases; only the owner's priority is changed, to exactly the most urgent of its own and of those that asked; with priority order no waiter outranks the owner, also after timeouts. |
| Mutex.FinalRelease | Source/rt-thread/src/ipc.c:791-832 | Only the owner can release; the last release restores the priority held at acquisition and hands the mutex to the first arrival among the most urgent waiters, or frees it if nobody waits; nobody else is concerned. |
| Mutex.TakeAnswers | Source/rt-thread/src/ipc.c:616-741 | A free mutex is taken and an owned one taken once more; one of another owner is refused, with nothing changed, exactly if the time is 0, and for any other time the caller waits at its place by arrival and urgency, and the owner becomes as urgent as the caller if it was less so. |
| Mutex.ExpireAnswers | Source/rt-thread/src/thread.c:690-712 | A waiter that times out leaves the list and nothing else changes, not even the owner's raised priority. |
| Mutex.FifoHandOff | Source/rt-thread/src/ipc.c:804-822 | With a FIFO list a hand-off leaves no waiter above the new owner if and only if the first to have come already was a most urgent one. |
| Mutex.FifoKeeps | Source/rt-thread/src/ipc.c:616-843 | Every other step of a FIFO mutex keeps the owner at least as urgent as the waiters. |
| Mutex.FifoOutranked | Source/rt-thread/src/ipc.c:804-822 | A run in which it is not, so that the new owner is less urgent than a waiter. |
| Mutex.Mutex.Take | Source/rt-thread/src/ipc.c:616-741 | The method does exactly the step of the model. |
| Mutex.Mutex.Release | Source/rt-thread/src/ipc.c:752-843 | The method does exactly the step of the model. |
| Event.TurnIsReceive | Source/rt-thread/src/ipc.c:1016-1061 | At its turn in a scan a waiter gets the bits of the set as it is then that it waits for, if they satisfy its AND or OR condition, and with CLEAR they leave the set; otherwise nothing happens. |
| Event.ServeMissesNobody | Source/rt-thread/src/ipc.c:1016-1061 | Whoever the scan leaves behind is not satisfied by the set it leaves. |
| Event.SetShrinks | Source/rt-thread/src/ipc.c:1052-1054 | The set only shrinks during a scan, so earlier rejections stay valid. |
| Event.ClearIsExclusive | Source/rt-thread/src/ipc.c:1052-1054 | A bit that a CLEAR receiver gets, no later receiver of the same send gets. |
| Event.NoneMissed | Source/rt-thread/src/ipc.c:1009-1066 | After a send no thread still waiting has its AND or OR condition satisfied. |
| Event.Event.Wake | Source/rt-thread/src/ipc.c:1025-1057 | One turn of the scan is an immediate receive on behalf of the waiter, although it trims the waiter's own set first. |
| Event.Event.Scan | Source/rt-thread/src/ipc.c:1019-1063 | The loop over the list, which unlinks woken threads as it goes, serves the waiters one after the other in list order. |
| Event.Event.Send | Source/rt-thread/src/ipc.c:991-1073 | Adds the bits, serves the list, and keeps that no waiting thread is satisfied; an empty set is refused. |
| Event.Event.Recv | Source/rt-thread/src/ipc.c:1089-1176 | Receives at once exactly when the condition holds, otherwise gives up or waits, and keeps that no waiting thread is satisfied. |
| Event.Event.Resumed | Source/rt-thread/src/ipc.c:1179-1192 | A woken thread finds exactly the bits that were granted to it, whatever happened since. |
| Event.Event.RecvBySend | Source/rt-thread/src/ipc.c:1016-1192 | Timing independence: a thread that waits, is woken by a send and returns has the bits of an immediate receive made at its turn in the scan of the send, which goes on from the set that receive would leave; it stays iff that receive would fail. |
| Event.Event.Expire | Source/rt-thread/src/thread.c:690-712 | A timeout removes one waiter and keeps the invariant. |
| Event.Event.Reset | Source/rt-thread/src/ipc.c:1213-1241 | Wakes all waiters, each once and in list order, with an error, and empties the set. |
| Mailbox.SendAppends | Source/rt-thread/src/ipc.c:1494-1501 | A send that finds room appends its mail, with the offsets of a ring. |
| Mailbox.RecvTakesOldest | Source/rt-thread/src/ipc.c:1643-1650 | A receive that finds a mail takes the oldest one. |
| Mailbox.SendGoes | Source/rt-thread/src/ipc.c:1494-1520 | A send that finds room returns at once, its mail is the last one, and exactly the receiver that is to be woken first is woken. |
| Mailbox.SendWaits | Source/rt-thread/src/ipc.c:1423-1449 | On a full box a send with time 0 reports it and changes nothing; with any other time, limited or not, its thread is suspended at its place among the senders, with its mail in hand, and the box and the receivers stay. |
| Mailbox.RecvGoes | Source/rt-thread/src/ipc.c:1643-1673 | A receive that finds a mail returns at once with the oldest one, and exactly the sender that is to be woken first is woken. |
| Mailbox.RecvWaits | Source/rt-thread/src/ipc.c:1570-1600 | On an empty box a receive with time 0 changes nothing and reports a full box, or a timeout once it has waited; with any other time its thread is suspended at its place among the receivers, and the box and the senders stay. |
| Mailbox.WaitEnds | Source/rt-thread/src/ipc.c:1685-1717 | A timeout takes one thread out of its list and keeps the order of the others; a reset empties the box and wakes everybody. |
| Mailbox.StepKeeps | Source/rt-thread/src/ipc.c:1402-1673 | Every step of blocking senders and receivers keeps the FIFO, the ring offsets, the bound on waiting threads, and that every waiter is suspended. |
| Mailbox.RunKeeps | Source/rt-thread/src/ipc.c:1402-1673 | These hold after every run. |
| Mailbox.BoundedFifo | Source/rt-thread/src/ipc.c:1402-1673 | In every reachable state the received mails followed by the contents are the sent mails; no wake-up is lost: while receivers wait the mails are at most the woken receivers yet to run, and likewise free cells and waiting senders; and both lists are the orders of arrival, stably sorted by priority if the flag says so. |
| Mailbox.Mailbox.SendWait | Source/rt-thread/src/ipc.c:1402-1520 | The method, from its call or from a wake-up, does exactly the step of the model and keeps its invariant. |
| Mailbox.Mailbox.Recv | Source/rt-thread/src/ipc.c:1549-1673 | The method, from its call or from a wake-up, does exactly the step of the model, keeps its invariant, and returns the next mail in the order of sending; a non-blocking call on an empty box reports that it is full. |
| Mailbox.Mailbox.ResetAll | Source/rt-thread/src/ipc.c:1685-1717 | Wakes both lists and empties the ring; its loops end because the invariant has every waiter suspended. |
| MessageQueue.StepKeeps | Source/rt-thread/src/ipc.c:1921-2282 | Every critical section and every single copied byte of senders and receivers, in any interleaving, keeps the ownership of nodes, the links, the stored messages and the relation of messages sent, taken and queued. |
| MessageQueue.RunKeeps | Source/rt-thread/src/ipc.c:1921-2282 | These hold after every run, and the pool keeps its size. |
| MessageQueue.Safety | Source/rt-thread/src/ipc.c:1921-2223 | In every reachable state each node is in the queue, on the free list or in the hands of one thread, and in one of these only; the counter is the length of the queue; head and tail are null together; no wake-up is lost; the receivers wait in the order of arrival, stably sorted by priority if the flag says so. |
| MessageQueue.Exchange | Source/rt-thread/src/ipc.c:1921-2223 | In every reachable state the messages linked since the last reset are those taken since and those queued, none lost, invented or doubled, and each was passed like this, urgent or not, by a call; normal ones are taken in the order of linking, urgent ones in the queue come first, without urgent ones the queue is a FIFO; every receive that is done gave its caller the bytes of the message it took. |
| MessageQueue.Delivered | Source/rt-thread/src/ipc.c:2195-2210 | A receiver that is done has as many bytes as it asked for, or the size of a node if that is less, and they begin with the message that was in front when its receive began, as its sender passed it. |
| MessageQueue.SendAnswers | Source/rt-thread/src/ipc.c:1933-1955 | A send is refused, and changes nothing, exactly if the message is longer than a node, or else if every node is queued or in the hands of a thread; otherwise its thread has a node that was free. |
| MessageQueue.SendWakes | Source/rt-thread/src/ipc.c:1963-1998 | The last section of a send counts its message and wakes exactly the receiver that is to be woken first. |
| MessageQueue.RecvGoes | Source/rt-thread/src/ipc.c:2176-2207 | A receive that finds a message takes the first one, with its node, at once. |
| MessageQueue.RecvWaits | Source/rt-thread/src/ipc.c:2119-2180 | On an empty queue a receive with time 0 reports a timeout and changes nothing; with any other time, limited or not, its thread is suspended at its place among the receivers, and the queue stays. |
| MessageQueue.WaitEnds | Source/rt-thread/src/ipc.c:2236-2282 | A timeout takes one receiver out of the list and keeps the order of the others; a reset wakes everybody, frees the nodes of all queued messages, and leaves the calls under way. |
| MessageQueue.OnePlace | Source/rt-thread/src/ipc.c:1942-1979 | A node has exactly one owner: queue, free list or one thread. |
| MessageQueue.QueueCount | Source/rt-thread/src/ipc.c:1965-1979 | The entry counter is the length of the queue, which the pool bounds. |
| MessageQueue.ChainAppend | Source/rt-thread/src/ipc.c:1965-1976 | A normal message is linked behind the tail. |
| MessageQueue.ChainPush | Source/rt-thread/src/ipc.c:2054-2059 | An urgent message is linked before the head; so is a node given back to the free list. |
| MessageQueue.DrainChain | Source/rt-thread/src/ipc.c:2254-2268 | A reset turns the queue into the front of the free list, in reverse order. |
| MessageQueue.DrainKeeps | Source/rt-thread/src/ipc.c:2254-2268 | It changes the links of the queued nodes only, and of no node in a thread's hands. |
| MessageQueue.MessageQueue.constructor | Source/rt-thread/src/ipc.c:1740-1787 | The pool is cut into nodes and all of them are linked into the free list. |
| MessageQueue.MessageQueue.SendBegin | Source/rt-thread/src/ipc.c:1933-1955 | The first section takes a free node for the message passed, or refuses a message that is too large or a pool that is empty. |
| MessageQueue.MessageQueue.SendEnd | Source/rt-thread/src/ipc.c:1963-1998 | The second section links a normal message at the tail and an urgent one at the head, counts it and wakes one receiver. |
| MessageQueue.MessageQueue.RecvBegin | Source/rt-thread/src/ipc.c:2096-2207 | A receive takes the head of the queue, gives up, or waits. |
| MessageQueue.MessageQueue.RecvEnd | Source/rt-thread/src/ipc.c:2210-2218 | The node goes back to the free list after its bytes were copied out. |
| MessageQueue.MessageQueue.ResetAll | Source/rt-thread/src/ipc.c:2236-2282 | The loops wake the waiters and empty the queue into the free list, and terminate. |
| Bits.LowestInByte | Source/rt-thread/src/kservice.c:1220-1238 | The 256-entry table gives the lowest set bit of a byte. |
| Bits.FfsIsLowest | Source/rt-thread/src/kservice.c:1251-1264 | The result is the number, from 1, of the lowest set bit of any 32-bit word, and 0 for 0 only. |
| Bits.HasOr | Source/rt-thread/src/scheduler.c:274-277 | Setting a mask sets exactly its bits. |
| Bits.HasAndNot | Source/rt-thread/src/scheduler.c:312-323 | Clearing a mask clears exactly its bits. |
| Scheduler.InsertKeeps | Source/rt-thread/src/scheduler.c:247-281 | Inserting a thread that is not READY keeps states and queues right, and the bitmap if and only if its masks are computed or its queue is not empty. |
| Scheduler.OutKeeps | Source/rt-thread/src/scheduler.c:290-327 | Removing a thread that then is not READY keeps states and queues right, and the bitmap if and only if it is not the only one in its queue while its masks are not computed; on one level and on two. |
| Scheduler.SetPriorityKeeps | Source/rt-thread/src/thread.c:543-587 | A priority change keeps the agreement if and only if the thread is not alone in its queue without masks, or keeps its priority. |
| Scheduler.UnlinkKeeps | Source/rt-thread/src/thread.c:666-673 | The first section of a resume changes nothing for a thread that is not READY, and breaks the agreement for a READY one, which it takes out of its queue. |
| Scheduler.InsertTwice | Source/rt-thread/src/thread.c:656-676 | A resume whose second section inserts a thread that another resume, or the timeout, has made READY between the sections breaks the agreement. |
| Scheduler.MovedToEnd | Source/rt-thread/src/thread.c:656-676 | If the thread was made READY before the first section, both sections together restore the agreement and move the thread to the end of its queue. |
| Scheduler.ResumedMeanwhile | Source/rt-thread/src/thread.c:656-676 | A safe timeout between the test of a resume and its sections leads there: between the sections the READY thread is in no queue, and the highest bit leads to an empty one. |
| Scheduler.DetachParts | Source/rt-thread/src/thread.c:284-296 | Each part of a detach keeps the agreement if and only if the thread is not READY. |
| Scheduler.HighestIsFirst | Source/rt-thread/src/scheduler.c:163-172 | The bit search on one or two levels finds the first non-empty queue. |
| Scheduler.StepKeeps | Source/rt-thread/src/thread.c:53-712 | Every step, a section or a whole call, of start, suspend, resume, timeout, priority change, yield, exit, detach, lock and schedule keeps the agreement of bitmap, queues and states if and only if it is safe: a thread without masks does not enter an empty queue or leave one empty, neither section of a resume meets a READY thread, and a READY thread is not detached in parts. |
| Scheduler.ResumedUnmasked | Source/rt-thread/src/thread.c:614-681 | How it goes wrong: suspending a thread without masks keeps the agreement, and resuming it into an empty queue makes it READY where the bitmap shows nothing. |
| Scheduler.PriorityBeforeResume | Source/rt-thread/src/thread.c:535-681 | It may be suspended and resumed safely once its priority was set. |
| Scheduler.WholeCalls | Source/rt-thread/src/thread.c:233-296 | A whole start or resume, with both sections of the resume, and a whole detach are their parts, one at once after the other. |
| Scheduler.Starts | Source/rt-thread/src/thread.c:91-266 | A new thread has its priority and is in no queue; a start gives it its initial priority with the masks of that, and makes it READY, last in its queue, in its last section only; no other thread is concerned. |
| Scheduler.SuspendsAndResumes | Source/rt-thread/src/thread.c:614-712 | A suspended thread is in state SUSPEND and in no ready queue, whatever it was in before; a resume, or a timeout, makes exactly a suspended thread READY, last in its queue; no other thread is concerned. |
| Scheduler.ResumesInParts | Source/rt-thread/src/thread.c:666-676 | The first section of a resume takes the thread out of every ready queue, the second one makes a thread that is not READY so. |
| Scheduler.Reprioritizes | Source/rt-thread/src/thread.c:543-587 | A priority change gives the thread the new priority with its masks and keeps its state and initial priority; a READY thread is then the last one in the queue of this priority; every other queue is the old one without it, and all other threads are unchanged. |
| Scheduler.YieldsAndCloses | Source/rt-thread/src/thread.c:53-89 | A READY thread that yields is the last one in its queue; one that exits or is detached is closed and in no queue; no other thread is concerned. |
| Scheduler.DetachesInParts | Source/rt-thread/src/thread.c:284-296 | The first part of a detach takes the thread out of its queue, the second one closes it. |
| Scheduler.LockCounts | Source/rt-thread/src/scheduler.c:332-373 | The lock counter, 16 bits with a sign, is 0 exactly if every lock has been undone, as long as no more than 32768 are in force. |
| Scheduler.LockOverflows | Source/rt-thread/src/scheduler.c:332-373 | With more, one unlock takes them all away. |
| Scheduler.LockedStays | Source/rt-thread/src/scheduler.c:151-238 | From a lock to the unlock that undoes it no other thread becomes current, whatever calls come in between and however locks are nested, up to this number. |
| Scheduler.RunKeeps | Source/rt-thread/src/thread.c:53-712 | The agreement holds after every run of safe steps. |
| Scheduler.Agreement | Source/rt-thread/src/scheduler.c:151-327 | In every reachable state each ready queue holds exactly the READY threads of its priority, each once, and a group or table bit is set iff a queue under it is not empty. |
| Scheduler.Selected | Source/rt-thread/src/scheduler.c:151-238 | With the scheduler unlocked the thread made current is READY, heads its queue, and no READY thread is more urgent; nothing but the current thread and its priority changes. |
| Scheduler.Scheduler.constructor | Source/rt-thread/src/scheduler.c:80-107 | Initialization establishes the agreement. |
| Scheduler.Scheduler.InsertThread | Source/rt-thread/src/scheduler.c:247-281 | The method does exactly the step of the model; it is also the second section of a resume, with any steps since the first. |
| Scheduler.Scheduler.RemoveThread | Source/rt-thread/src/scheduler.c:290-327 | The method does exactly the step of the model. |
| Scheduler.Scheduler.Startup | Source/rt-thread/src/thread.c:233-266 | A started thread has its initial priority, its masks, and is READY in its queue. |
| Scheduler.Scheduler.PrepareThread | Source/rt-thread/src/thread.c:239-256 | The part of a start before its resume: the masks are those of the initial priority. |
| Scheduler.Scheduler.SuspendThread | Source/rt-thread/src/thread.c:614-638 | The thread leaves its queue, and its bits follow. |
| Scheduler.Scheduler.ResumeThread | Source/rt-thread/src/thread.c:648-681 | With nothing between its test and its sections, exactly a suspended thread is resumed: it is unlinked and inserted at the end of its queue. |
| Scheduler.Scheduler.UnlinkThread | Source/rt-thread/src/thread.c:666-673 | The method does exactly the first section of the model, whatever the state of the thread is by then. |
| Scheduler.Scheduler.ChangePriority | Source/rt-thread/src/thread.c:535-587 | The method does exactly the step of the model, of which `Scheduler.Reprioritizes` says what it does. |
| Scheduler.Scheduler.YieldThread | Source/rt-thread/src/thread.c:418-453 | A READY thread that is not alone goes to the end of its queue. |
| Scheduler.Scheduler.ExitThread | Source/rt-thread/src/thread.c:53-89 | The current thread leaves its queue and is closed. |
| Scheduler.Scheduler.Reschedule | Source/rt-thread/src/scheduler.c:151-238 | The bitmap search makes current the head of the first non-empty queue, as a scan of all queues would. |
| Scheduler.Scheduler.EnterCritical | Source/rt-thread/src/scheduler.c:332-347 | The lock counter goes up, in 16 bits with a sign. |
| Scheduler.Scheduler.ExitCritical | Source/rt-thread/src/scheduler.c:350-373 | The lock counter goes down, in 16 bits with a sign, and not below 0. |
| RoundRobin.AfterTurns | Source/rt-thread/src/clock.c:54-76 | After the ticks left to the first k threads these are at the end of the queue, in order and with whole slices. |
| RoundRobin.TurnComes | Source/rt-thread/src/clock.c:54-76 | The k-th thread is first after exactly the ticks left to those ahead of it, and for the ticks left to it. |
| RoundRobin.FullRound | Source/rt-thread/src/clock.c:54-76 | After all ticks left the queue has its order again. |
| RoundRobin.TickRefines | Source/rt-thread/src/clock.c:54-76 | A tick with its yield and schedule does to the queue of the top priority what a tick of the round robin does. |
| RoundRobin.TickSpends | Source/rt-thread/src/clock.c:54-76 | A tick takes one tick of the current thread's slice; after its last one the slice is whole again, the thread is last in its queue, and the one behind it is current; nothing else changes. |
| RoundRobin.BecomesCurrent | Source/rt-thread/src/clock.c:54-76 | The k-th READY thread of the top priority is current from exactly the sum of the ticks left to those ahead of it on. |
| RoundRobin.RoundRestores | Source/rt-thread/src/clock.c:54-76 | A full round of the scheduler restores the order of the top queue, with whole slices. |
| RoundRobin.Clock.Increase | Source/rt-thread/src/clock.c:54-72 | The method does exactly the tick of the model; the global tick wraps at 32 bits. |
| SkipList.LaterIsLater | Source/rt-thread/src/timer.c:329-336 | The comparison of wrapped ticks is the comparison of the deadlines within half the range. |
| SkipList.LaterExact | Source/rt-thread/src/timer.c:329-336 | The comparison of wrapped ticks is right if and only if the first deadline is less than half the range later than the second, or at most half the range and 2 ticks earlier. |
| SkipList.DueIsDue | Source/rt-thread/src/timer.c:490 | The test of the check is true exactly for a deadline that has come, within half the range. |
| SkipList.WalkToBound | Source/rt-thread/src/timer.c:315-337 | The walk along a row from any place at or before the upper bound ends at the upper bound. |
| SkipList.SearchIsLinear | Source/rt-thread/src/timer.c:312-341 | For any number of levels the search through the rows ends, in every row and so in the last, where a linear scan of that row ends. |
| SkipList.SortedInsert | Source/rt-thread/src/timer.c:324-351 | Insertion at the upper bound keeps the order by deadline and, among equals, by start. |
| SkipList.LayeredInsert | Source/rt-thread/src/timer.c:350-364 | Insertion in the lowest rows, each at its own place, keeps every row the part of the last row that is high enough. |
| SkipList.LayeredUnlink | Source/rt-thread/src/timer.c:92-100 | Removal from every row keeps the rows layered and takes out exactly this timer. |
| SkipList.AboveAbove | Source/rt-thread/src/timer.c:312-364 | A row is a part of the row below. |
| SkipList.ZeroPairsCount | Source/rt-thread/src/timer.c:353-364 | The number of rows above the last one that the insertion loop adds is the number of zero bit pairs at the end of the counter: it is at least j if and only if 4 to the power j divides the counter. |
| Timers.StartKeeps | Source/rt-thread/src/timer.c:266-385 | A whole start, also while other starts of the timer are under way, unlinks the timer, ends its former start, and links it for the new deadline, keeping the invariant. |
| Timers.BeginKeeps | Source/rt-thread/src/timer.c:280-286 | The first section of a start keeps the invariant, also while other starts of the timer are under way. |
| Timers.ReadKeeps | Source/rt-thread/src/timer.c:288-294 | Reading the tick and computing the timeout tick keeps it, while the timer is not linked. |
| Timers.ReadLinked | Source/rt-thread/src/timer.c:288-294 | On a timer that another start has linked meanwhile, computing the timeout tick keeps the invariant if and only if the deadline is the same. |
| Timers.EndKeeps | Source/rt-thread/src/timer.c:296-369 | The last section links the timer for that tick, any ticks, checks and calls later, and keeps it, while the timer is not linked. |
| Timers.LinkedTwice | Source/rt-thread/src/timer.c:296-369 | On a timer that another start has linked meanwhile, the last section links it twice. |
| Timers.TwoStarts | Source/rt-thread/src/timer.c:280-369 | From every idle state a start that is overtaken by a whole start of the same timer gets there. |
| Timers.LinkedInTime | Source/rt-thread/src/timer.c:288-369 | The start that the last section makes is expected at its deadline if and only if that is still to come; otherwise at the next tick. |
| Timers.StopKeeps | Source/rt-thread/src/timer.c:395-420 | A stop keeps the invariant; `TimerCalls.StopEnds` says what it does. |
| Timers.StopBeginKeeps | Source/rt-thread/src/timer.c:408-414 | The section of a stop keeps the invariant, also when the flag was tested long before. |
| Timers.StopEndKeeps | Source/rt-thread/src/timer.c:416-417 | Clearing the flag after it keeps it, whatever came between. |
| Timers.FireKeeps | Source/rt-thread/src/timer.c:490-495 | Firing the first timer keeps the invariant: it fires at the expected tick and before everything pending. |
| Timers.FireDecreases | Source/rt-thread/src/timer.c:480-522 | Each timer that fires is one due timer less; the number of due timers bounds the check. |
| Timers.CallOnward | Source/rt-thread/src/timer.c:497-498 | No call in a callback makes a timer due at the same tick. |
| Timers.FireEndOnward | Source/rt-thread/src/timer.c:505-516 | The restart of a periodic timer makes no timer due at the same tick. |
| Timers.StepKeeps | Source/rt-thread/src/timer.c:266-528 | Every part of a call, whole call, tick and step of a check keeps the invariant if and only if it is safe: a start does not compute another deadline for a timer that is linked, nor link it again. |
| Timers.RunKeeps | Source/rt-thread/src/timer.c:266-528 | The invariant holds after every run of safe steps, in which starts of one timer may overlap. |
| Timers.FiresAtExpectedTick | Source/rt-thread/src/timer.c:266-528 | Every start fires exactly once, at its deadline or the tick after its timer was linked, whichever is later, unless it is stopped or its timer started again before; so at its deadline if and only if the timer was linked before; across every wrap of the tick. |
| Timers.WholeStartFires | Source/rt-thread/src/timer.c:266-528 | If no start is interrupted, every one that fires does so at its start tick plus its delay, or at the next tick if it has none. |
| Timers.FiresInOrder | Source/rt-thread/src/timer.c:467-528 | Starts fire in the order of their expected ticks; at the same tick in the order of their deadlines, and for the same deadline in the order in which their timers were linked. |
| Timers.RowsInOrder | Source/rt-thread/src/timer.c:312-364 | In every reachable state each row is sorted by deadline and start, and is the part of the last row that is high enough, hence part of the row below. |
| TimerCalls.StartLinks | Source/rt-thread/src/timer.c:266-385 | A whole start stops the start that was pending, links the timer in the last row and in each row up as long as the bit pairs of the insertion counter are zero, for a deadline one delay from now, and sets its flag; every other timer keeps its place, its record and its starts. |
| TimerCalls.BeginEnds | Source/rt-thread/src/timer.c:280-286 | After the first section of a start the timer is in no row, its flag is clear, and the start that was pending is stopped; every other timer is as it was. |
| TimerCalls.ReadComputes | Source/rt-thread/src/timer.c:288-294 | The timeout tick is the residue of the time plus the delay, and nothing else changes. |
| TimerCalls.EndLinks | Source/rt-thread/src/timer.c:296-369 | The last section links the timer in the last row and in each row up as long as the bit pairs of the insertion counter are zero; every other timer keeps its place. |
| TimerCalls.EndBegins | Source/rt-thread/src/timer.c:296-369 | A start begins that is pending, for the deadline computed last; the flag is set. |
| TimerCalls.StopEnds | Source/rt-thread/src/timer.c:395-420 | A stop of an activated timer takes it out of every row, clears its flag and stops its pending start; every other timer keeps its place, its record and its starts; a timer that is not activated is left as it is. |
| TimerCalls.StopPartsEnd | Source/rt-thread/src/timer.c:408-417 | The section unlinks the timer and stops its pending start, and what follows it clears the flag. |
| TimerCalls.FireTakes | Source/rt-thread/src/timer.c:480-503 | The timer that fires is the first one and due; it leaves every row, and its pending start is the one that fired, now. |
| TimerCalls.PeriodRestarts | Source/rt-thread/src/timer.c:505-516 | After its callback a periodic timer that is still activated starts again for a deadline one period from now; any other only has its flag cleared. |
| TimerCalls.RecordsSet | Source/rt-thread/src/timer.c:432-458 | A new timer is not activated; its delay and its mode are what the last call set; nothing else changes. |
| TimerCalls.TicksPass | Source/rt-thread/src/clock.c:54-76 | A tick adds 1 to the time, and the check ends with no timer due; nothing else changes. |
| TimerCalls.FateIsFinal | Source/rt-thread/src/timer.c:266-528 | In every run a start that fired or was stopped stays so. |
| TimerCalls.StoppedForGood | Source/rt-thread/src/timer.c:395-420 | In every run after a stop, no start that its timer had made before fires, unless it had fired before the stop. |
| Timers.Timers.constructor | Source/rt-thread/src/timer.c:657-665 | Initialization with any number of levels at any tick establishes the invariant. |
| Timers.Timers.Remove | Source/rt-thread/src/timer.c:92-100 | The loop takes the timer out of every row. |
| Timers.Timers.FindPlaces | Source/rt-thread/src/timer.c:312-341 | The nested loops compute the search through the rows. |
| Timers.Timers.InsertRows | Source/rt-thread/src/timer.c:347-364 | The insertion loop puts the timer in as many rows as the counter has trailing zero pairs, and one more. |
| Timers.Timers.Start | Source/rt-thread/src/timer.c:266-385 | The method, of the three parts, does exactly the whole start of the model. |
| Timers.Timers.Begin | Source/rt-thread/src/timer.c:280-286 | The method does exactly the first section of the model. |
| Timers.Timers.ReadTick | Source/rt-thread/src/timer.c:288-294 | The method computes the 32-bit timeout tick from the tick of the moment. |
| Timers.Timers.Link | Source/rt-thread/src/timer.c:296-369 | The method does exactly the last section of the model. |
| Timers.Timers.Stop | Source/rt-thread/src/timer.c:395-420 | A timer that is not activated is refused and stays as it is; another one is unlinked, and its pending start is stopped for good (`TimerCalls.StoppedForGood`). |
| Timers.Timers.StopUnlink | Source/rt-thread/src/timer.c:408-414 | The method does exactly the section of the model. |
| Timers.Timers.ClearFlag | Source/rt-thread/src/timer.c:416-417 | The method clears the flag. |
| Timers.Timers.FinishFiring | Source/rt-thread/src/timer.c:505-516 | After its callback a periodic timer that is still activated starts again; any other is marked stopped. |
| Timers.Timers.Check | Source/rt-thread/src/timer.c:467-528 | The check, with any callbacks, is a run of the model's steps that ends, with no timer due. |
| Timers.Timers.Advance | Source/rt-thread/src/clock.c:54-76 | A tick with its check is a run of the model's steps, after which no timer is due. |

## Left out

- MemHeap.Heap.Realloc: requires, where the growth test is made, that it means what it says; otherwise the source writes past the end of the neighbour, as `GrowsTooFar` shows.
- MemHeap.Heap.Resize: requires the same.
- MemHeap.Heap.TryGrow: requires the same.
- MemHeap.Heap.constructor: requires a pool of at least two headers, which the source does not check; in a smaller one the available size wraps and the headers do not fit.
- SmallHeap.Heap.constructor: requires a heap of at least one minimum block; in a smaller one the first free block is shorter than any block that the heap serves.
- MemHeap.Heap.Move: its parts, which take the lock one by one, are separate methods, but Move itself calls them with nothing in between; `Blocks.MovedAmongOthers` covers the bytes when others come between. So for `SmallHeap.Heap.Move`.
- MemHeap.Heap.Alloc: makes its test of the available size, which the source makes before it takes the lock, with nothing in between; `AllocFit`, the rest, holds whatever the test found. The lock around the walk is taken to succeed; so is the semaphore of `mem.c`.
- SmallHeap.Heap.Malloc: requires a heap of at least one minimum block, because the floor on the size comes after the bound check.
- Mutex.Safety: one mutex, whose threads' priorities nothing else changes; boosts through several mutexes do not compose in the source. The retry after a signal (`ipc.c:716`) is not modelled.
- Semaphore.Semaphore.Take: waits and wake-ups only; the error a woken or timed-out thread returns is its thread's field, which is not part of the objects here.
- Mailbox.StepKeeps: a third thread may take the mail a woken receiver was woken for; the bound counts woken threads and does not say that each of them gets one.
- MessageQueue.StepKeeps: `rt_memcpy` copies bytes in ascending order, one step each.
- Scheduler.StepKeeps: wait lists are left out: that a priority change of a waiting thread does not sort its list again, and what the first section of `rt_thread_resume` does to the list of a thread that is not READY.
- Timers.StepKeeps: delays are smaller than half the range of the ticks by more than the ticks a timer may be linked late, which is any number that leaves delays. Each tick is followed at once by a check of the whole list; delays in force in a check are at least 1, since a delay of 0 there would keep the check going for ever. What the rows are after a step that is not safe is not modelled.
- Timers.Timers.Check: callbacks are sequences of calls to start, stop and control; a callback that detaches its own timer is not modelled.
- RoundRobin.BecomesCurrent: the READY threads of the top priority are fixed and the scheduler is unlocked.
- Thread timers are not tied to the thread states: a timeout is a step that needs a suspended thread.
- Context switches, stacks, hooks, assertions on object types, debug output and overflow checks.
- Signals, memory pools, the object registry, devices, the idle thread and start-up order.
- Formatting and string routines of `kservice.c`, `rt_calloc`, `rt_malloc_align` and the wrappers that make a memheap the system heap.
- Soft timers and their thread, and detach and delete of timers and of IPC objects.
