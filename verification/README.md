# Verified models of libdispatch

Dafny models of the protocols and data structures at the core of libdispatch, with proofs over every
interleaving, every run or every input.

- `Runs.dfy`: runs of a step function. A concurrent protocol is a function from a state and one atomic action to
  the next state, and a theorem about it holds for every finite sequence of actions of any number of threads.
- `MpscQueue.dfy`: the multi-producer, single-consumer queue of the `os_mpsc_*` macros, with undo and snapshots.
- `QueueState.dfy`: the `dq_state` word, a reader/writer lock in width arithmetic, with its 64-bit layout.
- `Group.dfy`: dispatch groups, first the packed 64-bit word, then enter, leave, notify and wait.
- `Semaphore.dfy`: dispatch semaphores over a kernel semaphore.
- `Data.dfy`, `DataRegions.dfy`, `DataHeap.dfy`: dispatch data. Byte sequences and records; traversal, mapping and
  flattening; the heap of objects with its reference counts.
- `AllocatorLayout.dfy`, `AllocatorMagazine.dfy`, `AllocatorReclaim.dfy`: the continuation allocator. Address
  arithmetic; a magazine used sequentially; allocation, freeing and page reclaiming by concurrent threads.
- `Apply.dfy`, `ApplyRedirect.dfy`: parallel apply, and the reservation of width along a chain of target queues.
- `LockOrder.dfy`: the recorder of `dispatch_sync` orders.

Sequentially consistent atomics are assumed: each atomic operation is one action, a read-modify-write loop too.
Calls into the kernel (semaphores, address waits, `madvise`) and client functions are actions of their own.
History variables that no code reads (orders of exchanges, owners of slots, counts of invocations) are part of the
states so that the theorems can speak about them.

## Findings

Some properties that the design suggests do not hold of the code. Each is stated with the condition under which it
does, and shown to fail with a concrete case.

- A drain of a concurrent queue that failed to upgrade has left a reservation for its barrier. When the unlock is
  refused because the word is dirty, and the queue is suspended before the drain starts over, the drain leaves at
  once and reserves a second time (`QueueState.DoubleReservationRun`). From then on no drain lock can be taken
  (`QueueState.WedgedForever`). If the running readers and the width of the queue add up to more than 4096, which
  three readers do on a queue of the usual width, the addition carries into IN_BARRIER while readers run
  (`QueueState.BarrierOverReaders`). Mutual exclusion holds in all runs up to such a step and fails with it
  (`QueueState.BarrierExcludes`).
- A drain lock taken while a barrier is pending returns as `owned` one unit, although it holds the full width: it
  returns what it holds if and only if none is pending (`QueueState.LockReturnsWhatItHolds`), and a run of three
  actions gets there (`QueueState.LockReturnsLess`).
- A semaphore wait with a timeout that comes too late to undo its decrement can lose the wakeup it then waits for
  to another waiter, and stays blocked (`Semaphore.DrainedWakeupCanBeTaken`). A wakeup is on the way for every
  waiter if and only if the counter is not negative, and for some waiter if and only if there are more waiters than
  the counter is below zero (`Semaphore.WakeupsMatch`).
- `dispatch/data.h` says that an applier gets a data object representing the current region. It gets the whole
  leaf, which represents the region exactly when the record spans its leaf (`DataRegions.RegionObject`); in
  `DataHeap.RegionCase` it does not.
- A `dispatch_sync` between two queues with the same base queue is recorded as an order of that queue with itself.
  The check keeps the order lock of every queue it is inside of, so the next new order from there locks the queue
  a second time and crashes (`LockOrder.SelfOrderCrashes`, `LockOrder.SelfOrderCase`), also when it is an inversion
  that should be reported (`LockOrder.HiddenInversion`). When a check locks a queue twice is decided by the graph and
  the order of its lists (`LockOrder.Check`, `LockOrder.VerdictMeans`); it never does in sequences of calls between
  distinct base queues (`LockOrder.ExactReports`).

## Model

| member | source | states |
|---|---|---|
| `MpscQueue.StepKeeps` | src/inline_internal.h:1527-1633 | every action of every producer and of the consumer keeps the invariant that ties head, tail, next words and half-done pushes to the order of tail exchanges |
| `MpscQueue.Fifo` | src/inline_internal.h:1527-1597 | in every interleaving the removed nodes are a prefix of the order of tail exchanges; when nothing is half done, memory read from head to tail spells exactly the rest |
| `MpscQueue.PushReportsEmpty` | src/inline_internal.h:1527-1550 | a push reports an empty queue exactly when everything pushed before has been removed |
| `MpscQueue.LinkTargetIsQueued` | src/inline_internal.h:1536-1543 | the store that links a list never hits a node that pop has handed out or that is back with the clients |
| `MpscQueue.PopReturnsNext` | src/inline_internal.h:1585-1597 | in every run a pop removes the oldest node of the order of exchanges and returns the one after it, or nothing exactly when it has removed the last |
| `MpscQueue.ConsumerCallsEnd` | src/inline_internal.h:1565-1633 | every pop, undo, prepend and capture ends: its next step is possible and brings it nearer to its end, or it waits for a store that some producer owes |
| `MpscQueue.NextIsThere` | src/inline_internal.h:1565-1583 | on a queue that is not empty the head is there or owed, and so is every next node of a snapshot |
| `MpscQueue.WaitsAreOwed` | src/inline_internal.h:1565-1597 | whatever word the consumer waits for (head, a next word, a next word in a snapshot), some producer still owes the store to it |
| `MpscQueue.UndoPutsBack` | src/inline_internal.h:1599-1633 | undo and prepend make the held list the front of the queue again, before everything pushed meanwhile |
| `MpscQueue.CaptureTakesAll` | src/inline_internal.h:1615-1622 | a capture covers exactly what was exchanged before it and not yet removed, and leaves an empty queue |
| `MpscQueue.SnapshotYieldsInOrder` | src/inline_internal.h:1624-1628 | walking a snapshot yields exactly what it covers, in order, whatever producers do |
| `QueueState.StepKeeps` | src/inline_internal.h:1207-1511 | every acquire, lock, upgrade and release without a second reservation keeps the width field equal to what nobody has, plus what readers and the drainer have, plus the reservation |
| `QueueState.BarrierExcludes` | src/inline_internal.h:1207-1277 | in every run, until a second reservation carries into IN_BARRIER: IN_BARRIER means no reader unit, all sync, async, apply and barrier attempts fail, one drain owner; and the step that carries breaks this |
| `QueueState.SecondReservation` | src/inline_internal.h:1453-1469 | an adjusted exit with a reservation already there either wedges the queue or, exactly when readers plus width exceed 4096, sets IN_BARRIER over running readers |
| `QueueState.WedgedForever` | src/inline_internal.h:1207-1277 | after a second reservation no later run of any length lets anyone take the drain lock or a sync reader in |
| `QueueState.DoubleReservationRun` | src/queue.c:3600-3735 | a run of nine actions that reserves twice and ends with nobody holding anything and no lock possible |
| `QueueState.BarrierOverReaders` | src/queue.c:3756-3800 | a run on a queue of the maximal width that ends with IN_BARRIER set, no owner and three readers |
| `QueueState.UsedWidthIsHeld` | src/inline_internal.h:885-898 | the used width computed from the word is the number of units truly held, in every run without a second reservation |
| `QueueState.UpgradeOrReserve` | src/inline_internal.h:1425-1446 | an upgrade succeeds exactly when no reader is left and the queue is not suspended; otherwise the drainer keeps nothing but one reservation |
| `QueueState.LockReturnsWhatItHolds` | src/inline_internal.h:1207-1277 | the `owned` of a drain lock is what it holds if and only if no barrier was pending |
| `QueueState.LockReturnsLess` | src/inline_internal.h:1225-1275 | a run of three actions after which a lock returns one unit and holds two |
| `QueueState.LockTrafficUnlock` | src/inline_internal.h:1479-1511 | lock, any traffic of other threads, unlock with the returned `owned`: the width is the idle one plus the readers of now, or the unlock was refused because the word was dirty |
| `QueueState.LastReaderTakesOver` | src/queue.c:935-1018 | in every run without a second reservation, on an open queue: a completing reader takes the barrier if and only if no reader is left, and otherwise enqueues a dirty queue that has a unit to give |
| `QueueState.CompletionHandsOver` | src/queue.c:935-1018 | the same in every balanced state, and with a drainer inside the completion leaves the word dirty for it |
| `QueueState.LockGranted` | src/inline_internal.h:1207-1277 | the drain lock is granted if and only if nobody holds it, the queue is not suspended, a unit is to be had and the caller may drain it; it is a barrier if and only if there is no reader, and otherwise all units that readers do not have |
| `QueueState.SyncGranted` | src/inline_internal.h:1370-1398 | a sync reader gets in if and only if the queue is not suspended, in no barrier, not dirty and no barrier is pending |
| `QueueState.AsyncGranted` | src/inline_internal.h:1399-1423 | an async reader if and only if a unit is free besides |
| `QueueState.ApplyGranted` | src/apply.c:193-214 | an apply gets as much as it asks for of the units that nobody holds, nothing on a serial queue |
| `QueueState.BarrierSyncGranted` | src/inline_internal.h:1323-1341 | a barrier sync gets in if and only if nothing is held, pending or set but the role |
| `QueueState.WaiterTakesOver` | src/queue.c:4994-5040 | the first sync waiter takes the barrier if and only if the queue is open without readers, and otherwise leaves it dirty |
| `QueueState.ResumeTakesOver` | src/queue.c:3040-3140 | the resume that ends a suspension takes the barrier if and only if nobody holds the lock and there is no reader |
| `QueueState.DrainerTakes` | src/queue.c:3600-3735 | a drainer without units takes one for a sync waiter whatever the limit, for an async item if and only if one is free, nothing is dirty and no barrier is pending, and hands its units on one at a time |
| `QueueState.UnlockAnswers` | src/inline_internal.h:1479-1511 | an unlock is refused if and only if the queue is dirty and not suspended; otherwise everything is given back, and the queue is dirty afterwards exactly when the drain was not done |
| `QueueState.FinishAnswers` | src/queue.c:3756-3800 | an interrupted drain gives everything back, leaves the queue dirty, and enqueues it if and only if it can be drained |
| `QueueState.BarrierEndAnswers` | src/queue.c:1350-1400 | the end of a barrier is refused if and only if the queue is dirty, not suspended and no wakeup follows |
| `QueueState.AdjustedExit` | src/inline_internal.h:1453-1469 | an exit that reserves for the next barrier leaves exactly one reservation if and only if there was none |
| `QueueState.TryReserveApply` | src/apply.c:193-214 | reserves nothing on a serial queue, otherwise all that is asked for or all that is available, never more, and changes only the width |
| `QueueState.WordTests` | src/inline_internal.h:1076-1090 | comparing the 64-bit word with the layout constants decides runnable, sync-runnable and suspended |
| `QueueState.WidthTest` | src/inline_internal.h:1225-1275 | the sum that drain_try_lock compares with the full bit is below it exactly when the whole width is free |
| `QueueState.WordMinus` | src/inline_internal.h:1479-1511 | subtracting `owned` from the 64-bit word is subtracting it from bits 54 to 40 |
| `QueueState.WordInjective` | src/queue_internal.h:114-181 | the 64-bit layout loses nothing |
| `Group.OpRefines` | src/semaphore.c:274-323 | the 64-bit add of a leave and the 32-bit subtract of an enter are a leave and an enter on (generation, count, flags): flags stay, the generation moves exactly when the last member leaves |
| `Group.RunRefines` | src/semaphore.c:274-323 | the same over every balanced run |
| `Group.ValueTests` | src/semaphore_internal.h:66-96 | the masks and constants that the code compares decide empty, one member and overflow |
| `Group.StepKeeps` | src/semaphore.c:208-349 | every action keeps the invariant that one party at a time is responsible for a nonempty notification list |
| `Group.NotifiedOnce` | src/semaphore.c:245-265 | every notification is queued, in the hands of exactly one wake, or submitted, and none is submitted twice |
| `Group.NotifiedAll` | src/semaphore.c:245-349 | when the group is empty and no call is unfinished, all notifications were submitted and no flag is left |
| `Group.CapturesExclude` | src/semaphore.c:245-265 | two wakes never capture the list at the same time, and a capture finds a list with its head stored |
| `Group.EmptyAtCapture` | src/semaphore.c:274-349 | without an enter during an unfinished leave or notify, the group is empty at the capture |
| `Group.CaptureAfterEnter` | src/semaphore.c:245-323 | a run in which an enter comes between the last leave and the capture, so that notifications are captured while the group has a member |
| `Group.WaitReturns` | src/semaphore.c:208-243 | over every run during one wait: it returns 0 only if the group was empty at some moment since it registered, a timeout only if its own wakeup timed out and the generation is the same, and in all other cases goes back to sleep |
| `Group.SleepDecides` | src/semaphore.c:213-215 | a waiter sleeps if and only if its generation has not passed |
| `Group.WakeUpTells` | src/semaphore.c:213-219 | a sleeper can be woken at any time, and remembers whether that was its timeout |
| `Group.OnlyCheckReturns` | src/semaphore.c:208-221 | nothing else ends a wait |
| `Group.WaitRegisters` | src/semaphore.c:223-243 | a wait registers if and only if the group has members, with the generation of that moment |
| `Group.SleepersAreOwed` | src/semaphore.c:208-299 | while a waiter sleeps on a past generation, some leave in flight is committed to waking it, with fewer than 2^32 generations per wait |
| `Group.MembersCounted` | src/semaphore.c:274-323 | in every run the count is the members at the start plus enters minus leaves |
| `Group.WordOperations` | src/semaphore.c:274-323 | enter and leave of the protocol are the operations on the 64-bit word, and refused exactly when those are |
| `Group.DecideTakes` | src/semaphore.c:274-299 | the leave that emptied the group takes the flags out of the word and wakes for exactly those; with members again it leaves the flag of the waiters |
| `Group.MarkTakes` | src/semaphore.c:325-349 | a notify wakes at once if and only if the group is empty and has no flags, and otherwise leaves its flag |
| `Group.WakesSleepers` | src/semaphore.c:245-272 | a wake wakes every sleeper exactly when its flags ask for it |
| `Group.CallsEnd` | src/semaphore.c:245-349 | every leave and notify ends: in every run its next action is possible and brings it nearer to its end, unless the word has changed since it was read |
| `Semaphore.StepKeeps` | src/semaphore.c:83-146 | signal, wait, timeout and undo keep the balance of kernel tokens and slow waiters |
| `Semaphore.NoFreePasses` | src/semaphore.c:83-146 | successes, waiters and counter always add up to initial value plus signals, so successes never exceed them; waits begun are successes, timeouts and waiters |
| `Semaphore.WakeupsMatch` | src/semaphore.c:83-146 | tokens and pending kernel signals are slow waiters minus what the counter is below zero: everyone has one on the way if and only if the counter is not negative, somebody if and only if there are more waiters than that; nothing is left over when all waits are done |
| `Semaphore.UndoEnds` | src/semaphore.c:106-135 | over every run during one wait with a timeout: it times out if and only if its exchange finds the counter negative and as it was seen, and then gives back one and touches no wakeup; it drains if and only if it saw a counter that is not negative, which the counter was at some moment since |
| `Semaphore.SlowLeaves` | src/semaphore.c:106-135 | a thread leaves the slow path only with a wakeup or with such a timeout |
| `Semaphore.DrainsOn` | src/semaphore.c:129-135 | a wait without timeout, or one that drains, leaves only with a wakeup |
| `Semaphore.WaitTakes` | src/semaphore.c:137-146 | a wait takes one from the counter and enters the slow path if and only if there was none to take, in the phase its timeout asks for |
| `Semaphore.SlowGoesOn` | src/semaphore.c:106-135 | no slow thread is stuck in the code: it can time out, read, exchange, and take any wakeup there is |
| `Semaphore.DrainedWakeupCanBeTaken` | src/semaphore.c:106-135 | a run after which a wait with a timeout is blocked with no wakeup on the way |
| `Data.FindFirst` | src/data.c:399-413 | the record that contains an offset and the offset in it; the search stays in bounds |
| `Data.FindLast` | src/data.c:421-445 | the last record of a range and how much of it is needed; the crash branch is not reached |
| `Data.TrimmedIsPart` | src/data.c:447-457 | records trimmed at both ends stand for exactly the range |
| `Data.BytesKept` | src/data.c:524-553 | whatever is created or flattened later, an object represents the same bytes |
| `Data.LiveIffReachable` | src/data.c:262-275 | an object is live exactly while a client can reach it, and a leaf's buffer was destroyed, once, exactly when none can |
| `DataRegions.MapDirectReads` | src/data_internal.h:117-149 | the buffer and offset found behind a trivial subrange, a leaf or a flattened object hold the bytes asked for; nothing else is unmapped than an unflattened composite |
| `DataRegions.RegionsCover` | src/data.c:568-599 | regions are nonempty, contiguous, in order, and cover the bytes |
| `DataRegions.ApplyFrom` | src/data.c:568-589 | the recursion makes the calls it should, in order, until the applier stops it |
| `DataRegions.ApplyRecords` | src/data.c:581-588 | the loop over the records does |
| `DataRegions.Apply` | src/data.c:591-609 | the calls are a prefix of the regions, all of them if the result is true, and the result is the last answer |
| `DataRegions.RegionObject` | src/data.c:575-579 | the object given to the applier represents the region if and only if the record spans its leaf |
| `DataHeap.RegionCase` | src/data.c:568-589 | an object made with create, subrange and concat whose first region is two bytes of a leaf of three |
| `DataRegions.Flatten` | src/data.c:465-480 | the buffer filled region by region holds the bytes of the object |
| `DataHeap.Narrow` | src/data.c:399-457 | a range of a composite is a range of one leaf or a list of records that stands for it |
| `DataHeap.FindRegion` | src/data.c:641-662 | the record whose region contains a location, and where that region starts; the crash is not reached |
| `DataHeap.HeldIsLive` | src/data.c:262-275 | what a client holds has not been freed |
| `DataHeap.DropLast` | src/data.c:262-275 | giving up the last reference makes exactly the references of the records owed, and destroys a leaf's buffer |
| `DataHeap.Heap.Create` | src/data.c:186-223 | the object represents the buffer; without one it is the empty object |
| `DataHeap.Heap.Concat` | src/data.c:322-366 | the bytes of the result are those of the first and then those of the second, without copying; with an empty operand it is the other object; the heap stays well formed and counted |
| `DataHeap.Heap.Subrange` | src/data.c:368-463 | the result represents the clamped slice, for every offset and length; the whole range is the object itself, an empty one the empty object, and nothing is copied |
| `DataHeap.Heap.CopyRegion` | src/data.c:611-679 | the result is the region of the traversal that contains the location, with its offset; past the end it is empty; it is the object itself if that has one buffer, and a new object only for a proper part of a leaf |
| `DataHeap.Heap.CreateMap` | src/data.c:482-522 | the result has the same bytes, in the one buffer returned, and is the object itself if and only if that has one buffer, otherwise a new leaf |
| `DataHeap.Heap.FlattenedBytes` | src/data.c:524-553 | returns the bytes, changes no object's bytes, and leaves the object with one buffer |
| `DataHeap.Heap.Publish` | src/data.c:539-552 | a copy made of any earlier heap is still right when it is installed, and a loser of the race returns the same bytes; no other object changes |
| `DataHeap.Heap.RacedFlatten` | src/data.c:524-553 | a thread that is overtaken by another between its copy and its compare-exchange returns the bytes of the buffer that the other has installed, which are the same |
| `DataHeap.Heap.Retain` | src/data.c:100-106 | one more reference; counts stay references held plus records pointing |
| `DataHeap.Heap.Release` | src/data.c:262-275 | one reference less, with all that follows: counts are right again, and only unreachable objects are freed |
| `DataHeap.Heap.Dispose` | src/data.c:262-275 | the cascade of a dispose keeps the counts, for any references still owed by an enclosing one |
| `AllocatorLayout.MapsOfContinuation` | src/allocator.c:137-166 | for all layouts that meet the alignment rules, the maps and indices found for a continuation are the ones its address was computed from |
| `AllocatorLayout.ContinuationOfBitmap` | src/allocator.c:102-126 | and the continuation found for a bit is the one it stands for |
| `AllocatorLayout.AddressesDistinct` | src/allocator.c:80-93 | different bits stand for different continuations, in all magazines |
| `AllocatorLayout.FirstBitmap` | src/allocator.c:189-207 | masking the address of a bitmap finds the first bitmap of its page |
| `AllocatorLayout.PageAgrees` | src/allocator.c:168-207 | the page that is reclaimed for a continuation starts at a continuation whose bitmap is that first bitmap |
| `AllocatorLayout.Realign` | src/allocator.c:370-386 | a region with one magazine to spare always holds an aligned heap, and the slop at both ends adds up |
| `AllocatorLayout.ActualLayouts` | src/allocator_internal.h:111-142 | the layouts with 4K and 16K pages meet the rules |
| `AllocatorMagazine.FirstUnset` | src/shims/atomic_sfb.h:85-107 | the lowest bit not set, or none exactly when all are set |
| `AllocatorMagazine.SupermapFull` | src/allocator.c:317-340 | a full supermap has no free slot, so skipping it is right |
| `AllocatorMagazine.Magazine.Take` | src/allocator.c:221-287 | setting a bit and marking a full bitmap keeps "supermap bit set if and only if bitmap full" |
| `AllocatorMagazine.Magazine.AllocFromMagazine` | src/allocator.c:317-340 | returns the first free slot in search order and sets only it; returns none if and only if none is free |
| `AllocatorMagazine.Magazine.AllocFromPage` | src/allocator.c:492-510 | takes the first free slot of the page, or none exactly when all its bitmaps are full |
| `AllocatorMagazine.Heaps.AllocFromChain` | src/allocator.c:455-482 | takes the first free slot of the first heap that has one and remembers its page; none if and only if no heap has one |
| `AllocatorMagazine.Heaps.AllocFromLast` | src/allocator.c:492-510 | takes a slot if and only if the page found last has a free one |
| `AllocatorMagazine.Heaps.AllocFromHeaps` | src/allocator.c:455-482 | the heaps in order, then a new one: always finds a slot |
| `AllocatorMagazine.Heaps.AllocFromNew` | src/allocator.c:342-430 | a new heap has all slots free but the one taken |
| `AllocatorMagazine.Heaps.Alloc` | src/allocator.c:486-520 | the first free slot of the page found last if that has one, else of the first heap that has one, else of a new heap; no other slot changes, a new heap is made if and only if no slot was free, and the page is remembered |
| `AllocatorMagazine.Magazine.Free` | src/allocator.c:575-593 | clears exactly the slot, or crashes exactly when it was not allocated |
| `AllocatorReclaim.StepKeeps` | src/allocator.c:221-593 | every atomic operation of allocating, freeing and reclaiming threads keeps bits and owners in step |
| `AllocatorReclaim.BitIffOwned` | src/allocator.c:221-266 | in every run a bit is set if and only if a client or an unfinished reclaimer owns the slot |
| `AllocatorReclaim.OneOwner` | src/allocator.c:221-266 | a slot is handed out only when nobody owns it, until its client frees it no step changes its owner or its bit, freeing leaves it without an owner and its bit clear, and only a reclaiming thread itself takes and drops its locks |
| `AllocatorReclaim.AdvisedUnused` | src/allocator.c:524-565 | a page is given back only while the thread that does it owns all its slots, and it is that page |
| `AllocatorReclaim.AdvisedIs` | src/allocator.c:562-563 | in every run a step that gives memory back gives back exactly one page, all of whose slots the acting thread owns |
| `AllocatorReclaim.LockedAdvises` | src/allocator.c:547-573 | a thread that has locked every bitmap of its page gives that page back before it unlocks |
| `AllocatorReclaim.GivesUp` | src/allocator.c:537-555 | a thread gives up on a page if and only if it meets a slot that has an owner |
| `AllocatorReclaim.AllocGives` | src/allocator.c:221-266 | an allocation fails if and only if every slot of the bitmap has an owner, and otherwise hands the first free one to a new client and changes nothing else |
| `AllocatorReclaim.ReclaimEnds` | src/allocator.c:524-573 | every reclaim ends: its next step is always possible and brings it nearer to its end, and nobody else moves it |
| `AllocatorReclaim.ReclaimsAlone` | src/allocator.c:524-573 | reclaiming an empty page without interference gives back exactly that page and leaves every bitmap as it was |
| `AllocatorReclaim.UnlockExact` | src/allocator.c:565-573 | every store of the unlock path clears a bitmap the thread has locked itself, and a finished thread leaves nothing locked |
| `Apply.StepKeeps` | src/apply.c:29-94 | every step of every thread keeps the invariant on indices, counts, the event and the shared object |
| `Apply.AtMostOnce` | src/apply.c:29-94 | no index is invoked twice, and the event is signalled and the shared object freed at most once |
| `Apply.CallerWaits` | src/apply.c:77-94 | the caller gets past its wait only when every index has been invoked once and has returned; from then on nobody reads its stack data or runs the client's function |
| `Apply.FreedLast` | src/apply.c:86-93 | no thread takes a step after the shared object is freed; when all are gone it was freed once, the event signalled once, every index invoked once |
| `Apply.NeverStuck` | src/apply.c:29-94 | as long as a thread is left, some thread can take a step |
| `Apply.Completes` | src/apply.c:29-94 | no run is longer than two steps per index and eight per thread, and a run that cannot go on has invoked every index once, signalled once and freed once |
| `Apply.Serially` | src/apply.c:131-154 | the serial fallback invokes every index once, in order |
| `ApplyRedirect.Chain.TryReserve` | src/apply.c:193-214 | takes what is available up to what is asked for, nothing on a serial queue, and changes only the width |
| `ApplyRedirect.Chain.Subtract` | src/apply.c:225-228 | the subtraction on a word takes exactly the units off the width and cannot borrow, whatever others have done to the word |
| `ApplyRedirect.Chain.Relinquish` | src/apply.c:216-229 | gives the units back once on exactly the queues before the stop |
| `ApplyRedirect.Chain.Redirect` | src/apply.c:231-262 | for chains of any length and any steps of others in between: serial if and only if some queue had nothing to give when asked, otherwise one thread more than the least that was wanted or offered; exactly one unit less than the threads is held on every queue while the apply runs, and nothing on any queue afterwards, in both cases |
| `LockOrder.BottomTarget` | src/introspection.c:1004-1013 | the queue of the chain that targets a root queue |
| `LockOrder.BaseUnique` | src/introspection.c:1004-1013 | there is only one such queue |
| `LockOrder.Check` | src/introspection.c:1062-1080 | on every graph, with the order locks held across the recursion: it ends, and its verdict is that of the first way through the lists that comes to the top queue or to a locked queue, or clear if there is none |
| `LockOrder.VerdictUnique` | src/introspection.c:1062-1080 | that determines the verdict |
| `LockOrder.VerdictMeans` | src/introspection.c:1062-1080 | clear if and only if the top queue cannot be reached and no cycle can; without a cycle an inversion if and only if it can be reached; without an inversion a second lock of the same queue if and only if there is a cycle |
| `LockOrder.InsertAcyclic` | src/introspection.c:1082-1157 | a new order keeps the graph acyclic if and only if the base queues differ and the check finds nothing |
| `LockOrder.Recorder.Record` | src/introspection.c:1082-1157 | on every graph: ignored, known, or checked and then recorded, reported or crashed, each exactly when |
| `LockOrder.AcyclicSequences` | src/introspection.c:1082-1157 | after every sequence of calls the graph is acyclic if and only if no order of a base queue with itself was recorded |
| `LockOrder.ExactReports` | src/introspection.c:1082-1157 | in every sequence of calls between distinct base queues no check crashes, and a new order is reported if and only if recording it would close a cycle |
| `LockOrder.SelfOrderCrashes` | src/introspection.c:1062-1157 | after an order of a base queue with itself, the next new order from that queue crashes, inversion or not |
| `LockOrder.SelfOrderCase` | src/introspection.c:1082-1157 | two calls, of which the second crashes |
| `LockOrder.HiddenInversion` | src/introspection.c:1082-1157 | three calls, of which the third is an inversion and crashes instead of being reported |

## Left out

- Memory orderings and fences: all atomics are sequentially consistent.
- UndoPutsBack: prepend is modelled for lists popped from the same queue; nothing in the repository prepends other lists.
- QueueState: who sets and clears the enqueued bit, QoS values and override loops are environment actions; inactive and side suspend counts, the failed-lock dequeue, the workloop lock variant and the other owner layout are not modelled.
- StepKeeps: in `QueueState` it is stated for steps without a second reservation, because the balance is false after one; `SecondReservation` says what holds instead.
- UsedWidthIsHeld: stated for runs without a second reservation, because the used width is too large after one.
- QueueState: fewer than 4096 units are held when a sync reader comes, so that readers alone do not overflow the 13-bit width field.
- Group: reference counts of the group and its queues; waiting for single links inside a captured list is proved in `MpscQueue`.
- EmptyAtCapture: stated for runs in which no enter overlaps an unfinished leave or notify call, because an overlapping enter can make the group nonempty before the capture, as in `CaptureAfterEnter`.
- Semaphore: the counter does not wrap, and disposing of a semaphore in use is not modelled.
- Data: custom destructors, target queues, allocation failure and size overflow; objects of size zero other than the empty object behave like it.
- DataHeap: operations other than the publishing of a flattened copy are not interleaved with each other; reference counts are changed by one thread at a time.
- AllocatorMagazine: the continuations packed into the first page, other CPUs' magazines, and races on supermaps, which are advisory.
- AllocatorReclaim: any thread may start reclaiming any page at any time, which includes the thread that has emptied a bitmap.
- Apply: the computation of the number of threads for nested applies; the index does not wrap.
- ApplyRedirect: other threads change the words arbitrarily between the steps, except that they do not release units that are not theirs.
- LockOrder: concurrent recording, removal of orders when a queue is disposed of, and retargeting.
- Sources, workloops, Mach, vouchers, I/O, `dispatch_once`, timers: not modelled.
