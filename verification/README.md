# AbstractX runtime: verified model

AbstractX is a cooperative C++20 coroutine runtime for small controllers: a single thread
resumes coroutines from a bounded ready ring, coroutines wait on events, semaphores, queues,
request tags and stream slots, and requests travel as 64-byte TLPs over lock-free rings. This
project models that runtime and proves what it promises.

| files | what they model |
|---|---|
| `Ownership*.dfy` | frames, owned subtrees, every holder of a coroutine handle, the combinators, `spawn`, cancel, detach and dispatch as one transition system; the invariant and what follows from it; what each step does to frames, wakers and order |
| `Dispatcher.dfy` | the bounded ready ring and `purge` |
| `WaitQueue.dfy`, `Event.dfy`, `Semaphore.dfy`, `AsyncQueue.dfy`, `AsyncQueueRuns.dfy` | intrusive waiter lists relinked in place, the event, the semaphore, the blocking queue; whole runs of each |
| `FramePool.dfy`, `FramePoolRuns.dfy`, `FramePoolThreads.dfy` | the static frame pool: in place, its peak law, and any number of cores at once |
| `TagAllocator.dfy`, `IoEngine.dfy`, `IoProtocol.dfy`, `IoWindow.dfy`, `Streams.dfy`, `StreamRuns.dfy` | the split-transaction engine against a reordering peer, tag reuse, batched streams |
| `Rings.dfy`, `Spsc.dfy`, `SpscThreads.dfy` | counter arithmetic, the SPSC ring in place, and as a two-thread step system |
| `WhenAll.dfy`, `WhenAny.dfy` | the atomic counters of the combinators, step by step |
| `Telemetry.dfy`, `StatusSchedule.dfy` | the event drains and the status deadline |
| `Bytes.dfy`, `Tlp.dfy`, `Ctf.dfy`, `Tracer.dfy` | the wire bytes, builders and views, the host's decoders, and the trace engine end to end |

The sequential parts follow one pattern: a method or a class works in place as the C++ does and is
proved equal to a specification function (`...Spec`); runs of that function are then proved
safe from an invariant, so the theorems speak about the state the methods leave behind. What such a
function means is said apart from it, by laws about one call (who is posted, what stays, when it is
refused) and about whole runs with their histories. What
several threads or many coroutines do at once (`Ownership*`, `FramePoolThreads`, `SpscThreads`, `WhenAll`,
`WhenAny`) is a system of single steps, and the theorems speak about every run of it.

Where the code does not do what is written about it, the model follows the code and the
condition under which the promise holds is proved exactly:

- `when_any` says its guards prevent a double resume. They do when `notify_winner` does not
  overlap the end of `await_suspend`, as on the single AbstractX thread; with an overlap the
  caller is resumed twice (`WhenAny.OnceUnlessOverlap`, `WhenAny.ResumedTwice`). Across threads the
  first child to end need not be the winner (`WhenAny.SecondMayWin`).
- A tag is free from the moment its response is polled, but the response is read only when the
  awaiter resumes. A request gets its own response exactly when its tag was not handed out in
  between (`IoProtocol.OwnResponse`), which is certain only for a bounded number of hand-outs
  (`IoWindow.SafeWindow`, `IoWindow.WindowClosesInARun`). The awaiter's destructor clears the slot even
  then, so a request whose tag had an earlier holder is woken by its answer exactly when no such
  holder ends in between (`IoProtocol.WokenExactly`, `IoWindow.RobberIsLate`, `IoWindow.WakerLostInARun`).
- A coroutine that waits for one stream packet reads the channel's latest packet when it resumes, which
  is its own exactly when no other was delivered in between (`StreamRuns.OwnPacket`,
  `StreamRuns.LateWaiterReadsAnother`).
- The comment on the status deadline says "on the period grid; after a long stall, skip the missed
  ones" (`src/runtime.cpp:219`). After a stall of a period or more the next deadline is a period
  after the report, which is off the grid unless the stall was a whole number of periods
  (`StatusSchedule.OnGridExactly`, `StatusSchedule.StallLeavesGrid`).
- The destructor of a batch awaiter withdraws whatever waits on a buffer with its address
  (`StreamRuns.WaitTakenExactly`, `StreamRuns.EmptySpanTakesSingle`).
- `co_await` of an owned task tests only whether it is done. A task that was started and is
  suspended is resumed while another waker still holds it (`OwnershipSafety.AwaitedTwiceHeld`); awaiting is
  safe exactly for tasks that no waker holds (`OwnershipSafety.AwaitExact`).
- `coro_frame_size` yields a usable size exactly for non-empty requests that do not overflow
  when rounded up (`FramePools.FrameSizeExact`).
- Comments promise 11 and 15 characters for coroutine names and awaiter tokens
  (`tracer.hpp:322-323`); the fields hold 7 and 10 (`Tracers.NameArrives`).
- Sensor, position, driver and TLP trace events share the open packet with coroutine events, and the
  host rejects or misreads such a packet (`Tracers.PacketDelivers`, `Tracers.ForeignRunLoses`,
  `Tracers.ForeignRunInvents`). A packet left open without events blocks every stream packet
  (`Tracers.EmitRefusedExactly`).

A permit or item handed to a waiter that is destroyed before it resumes is not given back; the
conservation laws count these as forfeited or lost.

Unsigned counters wrap explicitly: ring counters run modulo `m`, and masks `& (Capacity - 1)` are
remainders by the capacity. The theorems need only that the capacity divides the counter range,
which holds for the powers of two the source requires. A C++ `payload_word` built with shifts
and ors is the same number built with products and sums.

## Model

| member | source | states |
|---|---|---|
| OwnershipSafety.EveryRunSafe | include/asp_coro.hpp:233-318 | In every run of create, start, spawn, await, suspend, wake, clear, combine, finish, cancel, detach and dispatch in which an awaited task was never started, has finished or has no waker left: no freed or finished frame is resumed, notified or destroyed, every stored handle names a live unfinished frame, and no two holders store the same handle. |
| OwnershipSafety.StoredHandlesLive | include/asp_coro.hpp:291-297 | Under the invariant, a handle in the ready ring, a wait list, a tag or stream slot, a continuation or a caller slot names a live suspended frame (or the combinator's own running starter). |
| OwnershipSafety.OneWaker | include/asp_coro.hpp:551-557 | A coroutine's handle is in at most one waker at a time. |
| OwnershipLosses.WakerLostExactly | docs/DESIGN_SPECIFICATION.md:480-483 | In every run, whatever the size of the ready ring, a suspended coroutine is stored in some waker exactly unless, in the run, the ring refused its post or another awaiter's destructor cleared its slot (and its owner has not awaited it since). |
| OwnershipSafety.AwaitExact | include/asp_coro.hpp:362-376 | Awaiting an owned task resumes it on the spot. If no waker holds the task (never started, finished, or its waker lost) the invariant survives; in every other case the task runs while another waker still holds its handle, or is resumed inside a combinator that has no result. |
| OwnershipSafety.AwaitedTwiceHeld | include/asp_coro.hpp:362-368 | A run in which a coroutine awaits a task it has started and that is suspended: two wait lists then hold the task's handle. |
| OwnershipSafety.DispatchOnce | include/abstractx/domain_dispatcher.hpp:110-121 | Dispatch resumes a suspended coroutine and afterwards no waker holds its handle: it cannot be resumed again for the same suspension. |
| OwnershipSafety.CancelLeavesNoTrace | include/asp_coro.hpp:286-297 | Cancelling a task frees exactly its owned subtree, removes every handle of that subtree from every ring, list and slot, and leaves all other handles where they were. When a request awaiter in the subtree was answered and its tag handed out again, or a batch awaiter shares its buffer's address with another wait, its destructor clears that slot as well: that is the step ClearTakesOneWaker describes. |
| OwnershipSafety.ClearTakesOneWaker | include/asp_coro.hpp:980-982 | A destructor that clears a tag or stream slot under another coroutine takes away exactly that coroutine's waker, no other handle and nothing of any other frame, and the invariant survives. |
| OwnershipSafety.LoserGoneLater | include/asp_coro.hpp:1342-1352 | When the caller of `when_any` is resumed from the ready ring, the winner it reads has finished, and both children's frames and everything they own are freed and held by no waker. |
| OwnershipSafety.LoserGoneAtOnce | include/asp_coro.hpp:1322-1352 | When a child finished inside `await_suspend` the caller continues without suspending, with the same consequences; otherwise it suspends. |
| OwnershipSafety.StepLosesNothing | include/abstractx/domain_dispatcher.hpp:83-88 | With a ready ring as large as the number of live coroutines, no step has a post refused. |
| OwnershipSafety.LargeRingExactlyOneWaker | include/abstractx/domain_dispatcher.hpp:83-88 | In every run with such a ring no post is ever refused, and each suspended coroutine has exactly one waker, except one whose slot another awaiter's destructor cleared in the run, which has none. |
| OwnershipProofs.DestroyFrameErases | include/asp_coro.hpp:291-302 | The recursive destructors (children's awaiters withdrawn, storage freed, ring purged, one frame after another) amount to erasing the owned subtree from frames, ring, lists and slots at once. |
| OwnershipEnds.StepKeeps | src/runtime.cpp:297-328 | Every step keeps the invariant, an await under the condition of AwaitExact; what each step does to frames, wakers and lists is said by OwnershipEffects and OwnershipOrder.StepOrder. |
| OwnershipEnds.CancelKeeps | include/asp_coro.hpp:286-302 | Cancelling keeps the invariant and is the erasure of the subtree. |
| OwnershipEnds.FinishKeeps | include/asp_coro.hpp:233-248 | Final suspend keeps the invariant, whether the coroutine is detached, awaited, a combinator's child or none of these. |
| OwnershipEnds.NotifiedComb | include/asp_coro.hpp:1273-1281 | A child's completion keeps its combinator's counters and caller slot in step with the children's phases, and posts the caller only when it is suspended on the combinator. |
| OwnershipEffects.DetachExact | include/asp_coro.hpp:307-318 | Detaching a task that was started and has not finished leaves its frame, phase, combinator and waker, and every other waker and frame, as they were; it has no owner any more and nobody will be resumed at its end. A task that never ran or has finished goes, and nothing else does. |
| OwnershipEffects.DetachedFinish | include/asp_coro.hpp:235-240 | A detached coroutine that ends frees exactly its own subtree, from every ring, list and slot too; nobody is resumed or posted and no other frame changes. |
| OwnershipEffects.FinishExact | include/asp_coro.hpp:241-247 | Any other coroutine that ends first frees what it owns; then it is done, the coroutine that awaits it runs in its place, or control returns to whoever resumed it; a combinator counts the child, or takes it as winner if it is the first, and its suspended caller is posted exactly when this end is what it waits for. |
| OwnershipEffects.CreateExact | include/asp_coro.hpp:217-231 | A new task has a frame of its own, has not run, is owned by the coroutine that created it, and changes no waker. |
| OwnershipEffects.StartExact | src/runtime.cpp:298-326 | A started task runs on top of whoever started it and no waker holds it; `spawn` takes it from its owner. |
| OwnershipEffects.AwaitRuns | include/asp_coro.hpp:362-376 | Awaiting a finished task changes nothing; any other task that no waker holds runs in place of the coroutine that awaits it, which is suspended with the task's continuation as its only waker. |
| OwnershipEffects.SuspendExact | include/asp_coro.hpp:600-604 | A suspending coroutine leaves the stack, and its only waker is its place in the list or slot, first or last as the awaiter chooses. |
| OwnershipEffects.WakeExact | include/asp_coro.hpp:635-647 | The first of a list is taken out; its only waker is then the last place of the ready ring, or it has none if the ring was full; no other frame changes. |
| OwnershipEffects.YieldExact | include/asp_coro.hpp:551-557 | A coroutine that yields is suspended with the last place of the ready ring as its only waker, or none if the ring was full. |
| OwnershipEffects.CombineExact | include/asp_coro.hpp:1259-1264 | A combinator hooks each child's end to itself, starts none yet, and its caller slot is the only waker of the coroutine that built it. |
| OwnershipEffects.StartKidExact | include/asp_coro.hpp:1266-1271 | The next child in order, which never ran, runs on top of the combinator's caller, and nobody else changes. |
| OwnershipEffects.DecideExact | include/asp_coro.hpp:1242-1340 | `when_all` goes on at once exactly if all children have finished, `when_any` exactly if one has, and then the children and everything they own are gone; otherwise the caller suspends with its caller slot as the only waker and nobody else changes. |
| OwnershipEffects.DispatchExact | include/abstractx/domain_dispatcher.hpp:110-121 | Dispatch resumes the first of the ready ring on the empty stack; if it waited in a combinator, what it waited for has happened and the children are gone; no other frame changes. |
| OwnershipOrder.StepOrder | include/abstractx/domain_dispatcher.hpp:83-147 | No step reorders the ready ring, a wait list or a slot: freed frames leave them, dispatch and wake take the first, a suspension joins at the end it chose, and the one coroutine a step posts joins the end of the ring, or is refused and counted exactly when the ring is full. |
| OwnershipOrder.NobodyStarves | include/abstractx/domain_dispatcher.hpp:110-121 | In every run a coroutine among the first n of the ready ring is resumed, or its frame freed first, within n dispatches. |
| Dispatchers.Dispatcher.Post | include/abstractx/domain_dispatcher.hpp:83-88 | The ring takes the handle at its end, or refuses and counts exactly when it is full; the null handle is refused uncounted. |
| Dispatchers.Dispatcher.Purge | include/abstractx/domain_dispatcher.hpp:134-147 | One turn of the ring removes every copy of the handle, keeps all others in order and returns how many copies there were. |
| Dispatchers.CopiesGone | include/abstractx/domain_dispatcher.hpp:134-147 | What removal shortens the ring by is the number of copies. |
| WaitQueues.WaitQueue.Append | include/asp_coro.hpp:809-815 | Relinking in place puts the waiter at the end of the list. |
| WaitQueues.WaitQueue.Unlink | include/asp_coro.hpp:817-828 | Walking and relinking removes exactly this waiter, be it head, middle or tail, and the tail pointer stays right. |
| WaitQueues.WaitQueue.TakeAll | include/asp_coro.hpp:577-589 | The loop empties the list from the front, unlinking every waiter, and returns their handles in list order. |
| Events.Event.Set | include/asp_coro.hpp:577-589 | The flag is set and every waiter is unlinked and posted, latest first; the list is empty. |
| Events.Event.Wait | include/asp_coro.hpp:600-604 | The waiter joins the list in front. |
| Events.Event.Await | include/asp_coro.hpp:599-604 | `co_await` passes exactly when the flag is set; otherwise the waiter joins the list in front. |
| Events.Event.Destroy | include/asp_coro.hpp:607-618 | A waiting awaiter leaves the list, the others keep their order; any other destruction changes nothing. |
| Events.PostedOnce | include/asp_coro.hpp:577-619 | In every run nobody waits from a set to the next reset; those that had to wait and were not destroyed first are the ones still waiting followed by the ones each set posted, the latest arrival first throughout; so each is posted once, still waits, or was destroyed first. |
| Events.PassesExactly | include/asp_coro.hpp:577-604 | In every run each await between a set and the next reset passes without joining the list, and any other has to wait. |
| Semaphores.Semaphore.Release | include/asp_coro.hpp:635-650 | The permit goes to the first waiter, marked granted and posted, or onto the count. |
| Semaphores.Semaphore.Wait | include/asp_coro.hpp:659-668 | The waiter joins the end of the list. |
| Semaphores.Semaphore.Acquire | include/asp_coro.hpp:658-672 | `co_await acquire()` passes and takes a permit exactly when one is free, and otherwise joins the end of the list. |
| Semaphores.Semaphore.Resume | include/asp_coro.hpp:670-672 | A handed-over permit is not taken a second time. |
| Semaphores.Semaphore.Destroy | include/asp_coro.hpp:674-690 | A waiting awaiter leaves the list, the others keep their order; any other destruction changes nothing. |
| Semaphores.PermitsConserved | include/asp_coro.hpp:635-691 | In every run: initial permits plus releases equal count plus completed acquisitions plus grants pending or forfeited; waiters imply count zero; grants follow arrival order, skipping only withdrawn waiters. |
| Semaphores.PassesExactly | include/asp_coro.hpp:658-672 | In every run an acquirer passes exactly when more permits were there at first and released than were taken, handed over or forfeited; otherwise it goes to the end of the line. |
| Semaphores.NoOvertaking | include/asp_coro.hpp:658-668 | While somebody waits, a new acquirer completes nothing and goes to the end of the line. |
| AsyncQueues.AsyncQueue.TryPush | include/asp_coro.hpp:763-767 | Stores the item, hands it to the first blocked consumer, or refuses and counts. |
| AsyncQueues.AsyncQueue.TryPop | include/asp_coro.hpp:769-780 | Takes the oldest item and moves the first blocked producer's item into the freed slot, posting it. |
| AsyncQueues.AsyncQueue.PushOrHandOff | include/asp_coro.hpp:796-807 | The accepted, refused and handed-over cases on the ring buffer and the waiter list. |
| AsyncQueues.AsyncQueue.Push | include/asp_coro.hpp:745-750 | `co_await push` puts the item in at once or blocks the producer with it, at the end of its list. |
| AsyncQueues.AsyncQueue.Pop | include/asp_coro.hpp:725-730 | `co_await pop` takes the oldest item at once or blocks the consumer, at the end of its list. |
| AsyncQueues.AsyncQueue.BlockPusher | include/asp_coro.hpp:746-749 | A refused producer joins the end of its list with its item. |
| AsyncQueues.AsyncQueue.DestroyPusher | include/asp_coro.hpp:743 | A destroyed blocked producer leaves with its item; the other producers keep their order. |
| AsyncQueues.AsyncQueue.DestroyPopper | include/asp_coro.hpp:723 | A destroyed blocked consumer leaves; the other consumers keep their order. |
| AsyncQueueRuns.PutRefines | include/asp_coro.hpp:796-807 | A put is an append to the unbounded queue (buffer then blocked items), or passes through an empty one to the first blocked consumer; it is refused only when the buffer is full. |
| AsyncQueueRuns.BlockRefines | include/asp_coro.hpp:746-749 | A producer that blocks appends its item to the unbounded queue. |
| AsyncQueueRuns.TakeRefines | include/asp_coro.hpp:769-780 | A take removes the front of the unbounded queue and fails exactly when it is empty; it posts a producer exactly if one is blocked: the first, which leaves the list and whose item is the last one stored. |
| AsyncQueueRuns.FirstInFirstOut | include/asp_coro.hpp:713-828 | In every run items leave in the order their producers arrived, skipping only destroyed ones; blocked consumers are served, and blocked producers posted, in arrival order and once each; every accepted item is delivered, buffered, or with a consumer that has not resumed or was destroyed. |
| FramePools.FrameSizeExact | include/asp_coro.hpp:132-135 | The size is a multiple of 64 that holds the request exactly when the request is non-empty and does not overflow when rounded up. |
| FramePools.FramePool.Search | include/asp_coro.hpp:151-158 | The walk stops at the first free frame of exactly this size, with the link that leads to it. |
| FramePools.FramePool.Alloc | include/asp_coro.hpp:147-172 | Reuses the first fitting free frame, else bumps the offset, else fails; the linked free list, the offset and the live bytes match the abstract pool. |
| FramePools.FramePool.Free | include/asp_coro.hpp:174-185 | The frame goes to the front of the free list, and the live bytes drop by its size. |
| FramePools.AllocKeeps | include/asp_coro.hpp:147-172 | After an allocation the live and free frames are still the blocks that tile the pool up to the offset. |
| FramePools.FreeKeeps | include/asp_coro.hpp:174-185 | After freeing any live frame the live and free frames are still those blocks. |
| FramePools.FreedNext | include/asp_coro.hpp:174-185 | Freeing a frame takes exactly it out of use; the next request of its size gets it back, and the free list is as before. |
| FramePools.PlacedOnce | include/asp_coro.hpp:144-146 | Two entries of the live and free lists are different blocks that share no byte. |
| FramePoolRuns.PeakLaw | include/asp_coro.hpp:189-197 | The bump offset always is the sum over frame sizes of the size times the greatest number of frames of that size live at once. |
| FramePoolRuns.AllocFails | include/asp_coro.hpp:160-164 | An allocation fails exactly when no free frame has its size and the pool minus the weighted peaks is too small; otherwise it returns a block of the size asked for that shares no byte with any live frame. |
| FramePoolThreads.PoolPartitioned | include/asp_coro.hpp:137-185 | Under every interleaving of the cores' single reads and writes (link, size and `next` of the walk, size, `next` and head of a free, load and compare-and-swap of the offset), each carved block is live, listed or held mid-hand-over by one core, in exactly one of these ways; the list memory holds is exactly the free frames; and the blocks tile the pool up to the offset, which never exceeds the size. |
| FramePoolThreads.OthersWalk | include/asp_coro.hpp:137-159 | While one core takes a step, what every other core has read of the list stays true: the lock keeps walkers apart, and writes into frames in use touch no walk. |
| FramePoolThreads.LiveFramesDisjoint | include/asp_coro.hpp:127-130 | Two frames in use at once share no byte, are 64-aligned and lie inside the pool. |
| FramePoolThreads.AllocReturns | include/asp_coro.hpp:147-172 | Among any interleaving a core takes the first listed frame of the size it asked for, leaves the list only when no frame there has that size, fails only when the untouched tail is smaller, and returns a block of exactly that size that was not in use. |
| TagAllocator.AllocateExact | include/asp_coro.hpp:864-876 | An allocation returns 0 exactly when all 255 tags are active, never an active tag, and changes nothing else. |
| TagAllocator.ScanCovers | include/asp_coro.hpp:865-867 | The stride scan passes every tag. |
| TagAllocator.ReuseDistance | include/asp_coro.hpp:864-876 | A tag handed out while A others are active is not handed out again before ceil((255 - A)/2) further successful allocations, whatever is released meanwhile. |
| IoEngines.CoroutineIoEngine.AllocateTag | include/asp_coro.hpp:864-876 | The loop hands out the first free tag of the scan and clears its stored response. |
| IoEngines.CoroutineIoEngine.Submit | include/asp_coro.hpp:989-1003 | Allocates, registers and sends, or undoes all of it when the ring refuses. |
| IoEngines.CoroutineIoEngine.PollCompletions | include/asp_coro.hpp:918-971 | Empties the receive ring in place, packet by packet; PacketPosts, PacketLocal, PollInOrder and NobodyForgotten say what each packet does and what all of them do. |
| IoEngines.PacketPosts | include/asp_coro.hpp:926-967 | A packet posts the coroutine whose slot it empties and nobody if it empties none; every other slot stays; an answer to a request in flight empties its slot. |
| IoEngines.PacketLocal | include/asp_coro.hpp:926-967 | A stream packet touches only the channel of its own number and the buffer of the batch waiting there; any other packet only its own tag's entry, and only while the tag is in use, which it ends with the packet stored as the response. |
| IoEngines.PollInOrder | include/asp_coro.hpp:918-971 | Polling some packets and then others is polling them all: packets are handled, and coroutines posted, in order of arrival. |
| IoEngines.PollOneAlone | include/asp_coro.hpp:922-923 | Polling one packet alone is what PacketPosts and PacketLocal speak about. |
| IoEngines.NobodyForgotten | include/asp_coro.hpp:918-971 | Over any packets, the coroutines taken out of slots are exactly those returned as posted, each as often. |
| Streams.PollPosts | include/asp_coro.hpp:926-956 | A stream packet posts exactly the coroutine it takes out of the channel's slot: always one that waits for a single packet, and a batch's when it has as many packets as it waits for; with nobody waiting only the drop counter moves. |
| IoEngines.CoroutineIoEngine.WaitStream | include/asp_coro.hpp:1066-1076 | A channel takes one waiter; a second one, or a channel from 8 on, is refused. |
| IoEngines.CoroutineIoEngine.WaitBatch | include/asp_coro.hpp:1094-1106 | The same for a batch with a non-empty buffer, with the clamped threshold. |
| IoEngines.RefusedExactly | include/asp_coro.hpp:989-1008 | A request is refused exactly when no tag is free or the transmit ring is full; then its awaiter returns the queue-full completion and nobody's slot or response is touched; a sent one holds its tag, with a blank response, and channels and client memory stay as they are. |
| IoProtocol.InFlightOnce | include/asp_coro.hpp:864-897 | In every run against a peer that answers once, in any order: the active tags are exactly those in the transmit ring, at the peer or in the receive ring, each once, so no two requests in flight share one. |
| IoProtocol.AnswerReachesOwner | include/asp_coro.hpp:958-967 | A polled answer posts at most the awaiter of that very request, and nobody if that awaiter was destroyed. |
| IoProtocol.WokenExactly | include/asp_coro.hpp:958-982 | In every run a waiting request's slot holds its coroutine, and its answer posts it, if and only if since it was sent no awaiter of an answered request that had its tag before was resumed or destroyed. |
| IoProtocol.OwnResponse | include/asp_coro.hpp:1005-1008 | A posted request's awaiter reads the peer's answer to it if and only if its tag was not handed out again before it resumes. |
| IoProtocol.LateDestructor | include/asp_coro.hpp:980-982 | The destructor of an answered request's awaiter changes something exactly when its tag was handed out again to a request that still waits and whose slot no other such destructor has emptied; then it empties that slot. |
| IoWindow.SafeWindow | include/asp_coro.hpp:864-876 | A request sent with A other tags active reads its own answer if fewer than ceil((255 - A)/2) tags are handed out before it resumes. |
| IoWindow.RobberIsLate | include/asp_coro.hpp:864-876 | Whoever empties a waiting request's slot by ending late ends at least ceil((255 - A)/2) hand-outs after its own request was sent with A other tags active; so no waker is lost while every coroutine resumes sooner. |
| IoWindow.WindowCloses | include/asp_coro.hpp:962-965 | When a posted request's tag is the only free one, the next request takes it and the first awaiter then reads a blank packet. |
| IoWindow.WindowClosesInARun | include/asp_coro.hpp:962-965 | A run of 255 requests and one more in which an answered request reads a blank packet. |
| IoWindow.WakerLostInARun | include/asp_coro.hpp:980-982 | A run in which a request waits although its slot is empty: the awaiter of the answered request that had its tag before was destroyed only afterwards. |
| StreamRuns.EveryPacketAccounted | include/asp_coro.hpp:926-956 | In every run each stream packet is delivered alone, stored in the current batch or counted as having no consumer; the batch-full counter stays zero; and a completed batch is consecutive packets in order of arrival: as many as asked for, but at least one and at most what the buffer holds. |
| StreamRuns.NoPacketTwice | include/asp_coro.hpp:926-956 | Single deliveries and batches take packets in order of arrival and never the same packet. |
| StreamRuns.OwnPacket | include/asp_coro.hpp:949-952 | A single waiter posted with arrival k reads arrival k when it resumes if and only if no other single packet was delivered on the channel in between. |
| StreamRuns.LateWaiterReadsAnother | include/asp_coro.hpp:949-952 | A run in which a waiter that resumes late reads the packet of the next waiter. |
| StreamRuns.NoWaitNoSingle | include/asp_coro.hpp:1066-1076 | Only a coroutine that begins a single wait on the channel in between can cause such a delivery. |
| StreamRuns.OwnCount | include/asp_coro.hpp:1108-1111 | In every run a batch waiter whose batch was completed is given the number of its own packets when it resumes, provided no other batch began on the channel in between. |
| StreamRuns.WaitTakenExactly | include/asp_coro.hpp:1113-1119 | The destructor of one awaiter takes another's slot exactly when it is a batch awaiter whose span has the address of the other's: two batches on one buffer, or an empty span against a single wait. |
| StreamRuns.WaitEndsOnlyByOwner | include/asp_coro.hpp:1060-1119 | In every run whose batches have buffers that are not empty and not shared, a registered awaiter holds its slot until it is posted or itself destroyed. |
| StreamRuns.GivenExactly | include/asp_coro.hpp:926-956 | In every run a waiting awaiter is given its packets exactly when its coroutine is posted; a poll posts at most the coroutine in the slot, and nothing else posts anybody. |
| StreamRuns.EmptySpanTakesSingle | include/asp_coro.hpp:1092-1119 | A run in which the destructor of a batch awaiter with an empty span takes the slot of a coroutine that waits for a single packet. |
| SpscRings.SpscRingBuffer.Push | include/tlp_ring.hpp:63-75 | Appends to the ring's contents, or refuses exactly when they fill the capacity, also across counter wrap-around. |
| SpscRings.SpscRingBuffer.Pop | include/tlp_ring.hpp:78-90 | Removes the oldest item, or reports empty exactly when there is none. |
| SpscRings.DrainAll | include/tlp_ring.hpp:155-166 | The handler is called with every item of every channel once, channel by channel, oldest first; all channels end empty. |
| SpscThreads.StepRefines | include/tlp_ring.hpp:63-104 | With push and pop split into load, copy and store steps, only the two counter stores change the bounded queue: one appends the pushed item, the other removes the popped one. |
| SpscThreads.PoppedIsPrefix | include/tlp_ring.hpp:63-104 | In every interleaving with loads as stale as published values allow, the popped items are a prefix of the pushed ones, at most the capacity apart; the pushed items are the arguments of the calls of push that returned true, in order. |
| SpscThreads.NoRace | include/tlp_ring.hpp:71-88 | The slot the producer writes is never the one the consumer may be reading. |
| SpscThreads.RefusalsExact | include/tlp_ring.hpp:67-84 | A push is refused exactly when the loaded counter shows a full ring, a pop exactly when it shows an empty one; a full or empty ring is always noticed. |
| WhenAll.CallerOnce | include/asp_coro.hpp:1242-1281 | For any number of children and every interleaving of the decrements, the caller is resumed at most once, only when every child has finished, and it is resumed when they all have. |
| WhenAny.OnceUnlessOverlap | include/asp_coro.hpp:1309-1367 | Once both sides have settled, the caller was resumed twice if `notify_winner`'s two atomic steps straddled the end of `await_suspend`, and exactly once otherwise. |
| WhenAny.OneThreadOnce | include/asp_coro.hpp:1309-1367 | On one thread, over all orders of synchronous and later completion, the caller is resumed exactly once, never before a child has ended, and nobody touches the awaiter after its end. |
| WhenAny.FirstToFinishWins | include/asp_coro.hpp:1342-1357 | On one thread the index the caller reads is that of the child whose body ended first, also when the other one ends before the caller runs. |
| WhenAny.ClaimedForGood | include/asp_coro.hpp:1355-1357 | On several threads the index, once claimed by the first child to swap, names an ended child, never changes and is the one the caller reads. |
| WhenAny.SecondMayWin | include/asp_coro.hpp:1355-1357 | On several threads the second child to end may claim the index. |
| WhenAny.TouchedAfterEnd | include/asp_coro.hpp:1309-1373 | The awaiter is touched after its end exactly when the caller ended it while a child was notifying or the starter was before its last look. |
| WhenAny.ResumedTwice | include/asp_coro.hpp:1331-1363 | A concrete interleaving of two threads that resumes the caller twice. |
| StatusSchedule.StatusService.ServiceAt | src/runtime.cpp:210-226 | A report is made exactly when a period is set and the deadline has come, and then the deadline advances. |
| StatusSchedule.DeadlinesAdvance | src/runtime.cpp:219-222 | Each report leaves a deadline after its own time, at most a period after it and at least a period after the one it met, a period after one of the two; the next report meets exactly that deadline. |
| StatusSchedule.FirstReport | src/runtime.cpp:216-222 | The first report is made at the first reading that has come to the deadline, if any has; without a deadline yet that is the first reading, and the next report is due a period after it. |
| StatusSchedule.FewInWindow | src/runtime.cpp:219-222 | k reports in a window [a, b] satisfy (k - 2) * period < b - a. |
| StatusSchedule.NoDrift | src/runtime.cpp:219-222 | While no service call is a whole period late, the i-th deadline is exactly i periods after the first. |
| StatusSchedule.OnGridExactly | src/runtime.cpp:219-222 | In every run all deadlines stay on the grid of the first if and only if every report was less than a period late or a whole number of periods late. |
| StatusSchedule.StallLeavesGrid | src/runtime.cpp:219-222 | A run in which one late report puts all later deadlines off the grid. |
| Telemetry.EventRing.Push | include/abstractx/trace/event_trace.hpp:95-105 | Appends the record, or counts it as dropped exactly when the ring is full. |
| Telemetry.EventRing.DrainOnce | src/runtime.cpp:121-151 | On the ring in place one drain does what DrainExact says: send and discard the oldest records, keep all, or empty the ring. |
| Telemetry.DrainExact | src/runtime.cpp:121-151 | A refused drain, or one with nothing due, keeps all records and sends nothing. A packet leaves exactly when the transport takes it and max_n records wait or the first has waited wait_us; it is the oldest records, as many as fit. Without a listener the ring ends empty and nothing is sent. The waiting time starts at the drain that first saw the record in front. |
| Telemetry.EventRing.DrainRing | src/runtime.cpp:154-162 | Repeats up to four times, stopping when nothing left the ring or less than a packet remains. |
| Telemetry.NothingLost | src/runtime.cpp:116-151 | While a listener is present, the records in packets the transport accepted, followed by those waiting, are all records the bounded ring took, in order, whatever is refused on either side; each packet has 1 to max_n records; a partial packet is sent only after its first record has waited wait_us. |
| Telemetry.RingIsDrains | src/runtime.cpp:154-162 | `drain_ring` is a run of single drains with the transport's answers, so the same holds of it; it goes on exactly while records left the ring and another full packet waits, until the tries are used up. |
| Tlps.FieldsRoundTrip | include/asp_tlp64.hpp:46-55 | Storing any TLP as 64 little-endian bytes and loading it returns every field. |
| Tlps.BytesRoundTrip | include/asp_tlp64.hpp:46-55 | Every 64 bytes survive loading and storing: the image is one-to-one and onto. |
| Tlps.TlpStore | include/asp_tlp64.hpp:46-50 | The copy loop writes the 64 bytes into the slot and nothing else. |
| Tlps.TlpLoad | include/asp_tlp64.hpp:51-55 | The copy loop reads exactly the slot's 64 bytes. |
| Tlps.SlotsRoundTrip | include/asp_tlp64.hpp:46-55 | Two packets stored in slots that do not overlap are both loaded back unchanged. |
| Tlps.HostReadsFields | tools/abstractx_wire.py:29-35 | The host decoder returns every field the sender stored, and accepts exactly the frames that are the image of some TLP. |
| Tlps.SplitUndoesJoin | tools/abstractx_wire.py:24-26 | A datagram of whole frames followed by fewer than 64 bytes splits into exactly those frames. |
| Tlps.DatagramArrives | tools/abstractx_wire.py:24-35 | Packets sent back to back come out of splitting and decoding as sent, in order. |
| Tlps.SetPayloadWord | include/asp_tlp64.hpp:110-116 | The four byte writes put the little-endian word at its offset and leave the rest. |
| Tlps.WordReadsBack | include/asp_tlp64.hpp:104-116 | Word k written reads back as written; every other word keeps its value. |
| Tlps.WordsDetermine | include/asp_tlp64.hpp:104-109 | Two payloads are equal exactly when their ten words are. |
| Tlps.MakeMemWriteBurst | include/asp_tlp64.hpp:143-153 | The loop packs at most nine words, readable in place, the rest zero, and the length covers exactly them. |
| Tlps.SpiRequestArrives | include/asp_tlp64.hpp:171-198 | Across the wire every header field is as given, and the SPI view returns the header and the first 36 data bytes given to the builder; the length covers header and data by less than one word too much; the packet is a read exactly when it only receives. |
| Tlps.CompletionArrives | include/asp_tlp64.hpp:201-226 | The same for SPI and I2C completions with tag, channel, timestamp, status and duration; the error flag is set exactly for a non-zero status. |
| Tlps.I2cRequestArrives | include/asp_tlp64.hpp:251-276 | The same for an I2C register write with up to 32 bytes. |
| Tlps.StreamArrives | include/asp_tlp64.hpp:496-509 | Across the wire tag, channel and sequence number are as given; what the announced length covers is the stream data exactly when it fits and is a whole number of words, otherwise the fitting part padded with zeros. |
| Tlps.TotalSizeExact | include/asp_tlp_msg.hpp:88-96 | `get_payload` stays inside its storage; `total_size` is header plus that payload exactly when the length field fits the storage. |
| Ctf.DecodeCtfPacket | tools/abstractx_wire.py:54-90 | The decoder's checks in order and its event loop equal the decoding function. |
| Ctf.WellFramed | tools/abstractx_wire.py:54-90 | A packet whose header tells its length is accepted exactly when its body suits its stream, with the header fields and events returned. |
| Ctf.AcceptedExactly | tools/abstractx_wire.py:54-90 | Of all byte strings exactly those are accepted that have a whole header, the magic, the length they announce, room for it in the announced packet and a body that suits the stream; the result is read from the bytes, and a refusal names the first condition that fails. |
| Ctf.EventRoundTrip | tools/abstractx_wire.py:83-87 | An event record decodes to its fields, the two texts up to their first NUL. |
| Tracers.FillName | include/abstractx/trace/tracer.hpp:336-344 | The copy loop yields the NUL-terminated text field, "?" for an empty name. |
| Tracers.NameArrives | include/abstractx/trace/tracer.hpp:320-344 | The host shows the part of a name that fits the field less one byte, or "?" for an empty name. |
| Tracers.CtfTraceEngine.Emplace | include/abstractx/trace/tracer.hpp:513-531 | Writes an event into the lent buffer in place, sending the full packet and opening a new one where needed, or counts a discard. |
| Tracers.CtfTraceEngine.TraceCoroNamed | include/abstractx/trace/tracer.hpp:324-345 | Emplaces the record whose fields are the arguments and the two truncated texts, or counts a discard. |
| Tracers.CtfTraceEngine.CommitPacket | include/abstractx/trace/tracer.hpp:552-565 | Patches length, end time and discard count into the header and sends exactly the used bytes. |
| Tracers.CtfTraceEngine.EmitStreamPacket | include/abstractx/trace/tracer.hpp:477-493 | Sends a packet of its own for a stream after any open one, or counts a discard. |
| Tracers.EmplaceExact | include/abstractx/trace/tracer.hpp:513-531 | An event is taken exactly when the open packet has room for it or a new buffer would have; it goes behind the others there, or the open packet is sent as it is, its header telling times, length and discards, and the event begins a new one; a refusal is counted. |
| Tracers.FlushExact | include/abstractx/trace/tracer.hpp:496-500 | A flush sends the open packet as it is, sealed with the time of the call, if it holds anything, and changes nothing otherwise. |
| Tracers.EmitExact | include/abstractx/trace/tracer.hpp:477-493 | A stream packet that is sent carries its stream number and exactly its bytes, after what a flush sends first; otherwise the call is counted as a discard. |
| Tracers.EventsArrive | include/abstractx/trace/tracer.hpp:324-565 | In every run whose packets are all clean (coroutine events only, or none in a packet the host rejects), the events the host decodes, followed by those in the open packet, are exactly the accepted ones, each once and in order. |
| Tracers.EachPacketDelivers | include/abstractx/trace/tracer.hpp:324-565 | In every run, foreign events included: the accepted coroutine events are those in the packets, in order; the host gets exactly a packet's coroutine events if and only if that packet is clean; the discard counter is the number of refused calls. |
| Tracers.FlushDeliversAll | include/abstractx/trace/tracer.hpp:496-500 | Without foreign events the host accepts every coroutine packet, and after a flush it has every accepted event. |
| Tracers.RecordsAccepted | tools/abstractx_wire.py:75-79 | A drained profile or timeline packet is sent when the buffer holds it, and the host accepts it with the header fields sent. |
| Tracers.EmitRefusedExactly | include/abstractx/trace/tracer.hpp:477-493 | A stream packet is sent exactly when the lent buffer holds it and no packet without events is open. |
| Tracers.EmitBlockedInARun | include/abstractx/trace/tracer.hpp:513-529 | A run that reaches a packet without events, which then refuses every stream packet. |
| Tracers.PacketDelivers | include/abstractx/trace/tracer.hpp:373-472 | The host gets exactly a packet's coroutine events if and only if it holds no foreign event, or no coroutine event and a size that is no whole number of records. |
| Tracers.ForeignRunLoses | include/abstractx/trace/tracer.hpp:373-390 | A run in which a sensor event makes the host reject the packet and an accepted coroutine event is lost. |
| Tracers.ForeignRunInvents | include/abstractx/trace/tracer.hpp:443-457 | A run in which two driver events reach the host as a coroutine event nobody traced. |

## Left out

- Memory ordering: each atomic operation is one indivisible step; stale loads are modelled for the SPSC ring only.
- Frame storage addresses in the ownership model: a frame is named by its creation number, so reuse of storage by a later frame is not confused with the earlier one.
- Tasks moved into another coroutine's frame as an argument, and root tasks started by running coroutines other than through `spawn`: a child belongs to the frame that awaits it.
- The count with which `process` bounds one pass over the ready ring: each dispatch is a step of its own.
- OwnershipSafety.CancelLeavesNoTrace: the clearing of another coroutine's slot by a destroyed awaiter is a step of its own, because the ownership model does not record which tag or buffer an awaiter had; IoProtocol.LateDestructor and StreamRuns.WaitTakenExactly say exactly when it happens.
- Resuming or combining a task that was already started: the runtime's own rules let an owner start only a task that has never run.
- Semaphores.Semaphore.Wait: waiters are distinguished by handle, so one coroutine waits once at a time.
- Tracers.CtfTraceEngine.Emplace: the lent buffer is the sequence of its bytes, so aliasing with the transport's memory is not captured.
- Tracers.EachPacketDelivers: switching transports while a packet is open, and packet buffers of 512 MB or more, are not modelled.
- Tracers.PacketDelivers: the fields of the foreign events are opaque bytes.
- Tracers.EventsArrive: is no equivalence over a whole run, because an event lost from one packet and one invented in another may happen to be equal; Tracers.EachPacketDelivers is the equivalence, packet by packet.
- Ctf.DecodeCtfPacket: texts stay bytes; their UTF-8 decoding is not modelled.
- FramePoolThreads.PoolPartitioned: the live-byte counter is part of the sequential pool only.
- FramePools.FramePool.Alloc: takes the rounded size; FramePools.FrameSizeExact covers the rounding.
- Telemetry.EventRing.DrainOnce: one call is atomic with respect to producers, and the transport's answer is a parameter.
- StatusSchedule.NoDrift: the 64-bit clock does not wrap.
- StreamRuns.OwnCount: has no converse, because the count of a batch begun in between may happen to be the same.
- GPIO, DMA and read-register builders, short TLPs, BAR maps and CRC values.
- `cancel.cpp`, the wake and executor route, `platform_idle_wait`, the ETL-based rings, hardware back ends, trace sinks and RTL.
- C++ move mechanics, exceptions and `optional` results of `Task<T>`.
- Other tools, `examples/` and `sim/`.
