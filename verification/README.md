# A verified model of a virtio-gpu WDDM driver

This project models, in Dafny, the path of a GPU command through a Windows display driver for
virtio-gpu: from the user's command stream into a DMA buffer, through request slots and a split
virtqueue to the host, and back through responses and fences to the scheduler.

`dafny verify dfyconfig.toml` checks everything.

| file | what it models |
|---|---|
| `RingIndices.dfy` | 16-bit ring indices, the counters they are cut from, ring slots |
| `VirtqueueSpec.dfy` | a split virtqueue as free descriptors, chains in flight and two rings |
| `Virtqueue.dfy` | the virtqueue object: free list threaded through a shadow table, direct and indirect chains |
| `VirtqueueRuns.dfy` | every run of a driver and a device that returns chains in any order |
| `DeviceAccess.dfy` | the same write by write, with the device reading in between |
| `Notifications.dfy` | when driver and device notify each other, with event indices that wrap |
| `QueueNotifications.dfy` | the same on the virtqueue's own fields |
| `RequestSlots.dfy`, `RequestRuns.dfy` | request slots on top of the virtqueue object, and all runs of it |
| `EngineFences.dfy` | in-order fence completion and preemption on any number of threads |
| `Batches.dfy` | reference-counted batches of commands sharing a fence |
| `Pipeline.dfy` | engine, batches and request queue together, from submission to report |
| `FenceTracking.dfy` | virtio fences and the DXGK fences waiting for them, call by call |
| `FencePasses.dfy` | the same access by access, on any number of threads |
| `TwoLevelQueue.dfy` | the bounded queue with an unbounded overflow |
| `ContextIds.dfy` | the id allocator and the life of a context id |
| `Backing.dfy`, `BusyAllocations.dfy` | page runs backing a resource; the busy count and its event |
| `CommandCodec.dfy`, `Rendering.dfy` | command bytes, and the loop that renders a stream into a DMA buffer |
| `CommandStream.dfy` | the user's side of the stream, and the way from there to the device |
| `QueueLayout.dfy` | where the parts of a virtqueue lie in memory |
| `MonoCursor.dfy` | the three sweeps that draw a monochrome cursor |
| `Collections.dfy` | shared sequence helpers |

Concurrent code is a state machine whose steps are single atomic accesses, under sequential
consistency; theorems speak of every reachable state. Code that updates an object or an array in
place is a class or a method with loops, tied by its contract to a function of the old state.

## What came out of it

- The "missed fence" panic the source wonders about (gpu-wddm/src/queue.rs:1594-1597) cannot happen.
- A preemption can be acknowledged while a submitted fence is outstanding, because the comparison with
  the last submission and the interrupt are separate accesses, both on closing and in the caller. It
  is accurate exactly when nothing is submitted between them (`SplitCloseAccuracy`,
  `SplitPreemptAccuracy`, `PrematureAcknowledgement`, `PrematureDirectly`), and so it is for every
  acknowledgement of every run (`EveryAcknowledgement`).
- Each submitted fence gets exactly one completion call, however responses of its commands race with
  the submitting thread, so the engine's reports follow (`CompletionCallExpected`,
  `EverySubmissionReported`).
- A device reading between any two writes of the driver sees whole chains only
  (`DeviceReadsItsChains`, `DeviceReadsWhatItTakes`).
- `should_notify` compares indices without regard to wrap-around. Deciding after every entry, as the
  driver does, never loses a notification; deciding once for several entries loses one exactly when
  the index wraps past the entry the device waits for (`BatchNotifiedExactly`).
- Without indirect descriptors a request that gets a slot can still be refused by the virtqueue, and
  then both the request and the slot are gone (`RefusedExactly`, `DirectRequestLost`).
- The two-level queue loses nothing, but a push can overtake an earlier one of the same producer. A
  pop keeps the order exactly when nothing is in, or on its way to, the overflow at the moment it
  takes from the bounded part (`FirstInFirstOut`, `OtherwiseOvertaken`, `OvertakingRun`).
- Ids are unique on a run exactly when nobody draws from the counter after it has wrapped past zero
  behind an exhausted draw that has not stored yet (`UniqueExactly`). 2^32 draws are always safe, and
  one more need not be (`FewDrawsCareful`, `ExhaustedDrawsCollide`).
- A DXGK fence can be reported before its virtio fence is signalled: exactly when that one is being
  issued, counted and not yet pushed (`ReadyExactly`, `ReportedTooSoon`).
- A pass holds timed-out submissions outside the queue for a moment. One that is signalled then, and
  missed by the pass that follows the signal, stays queued though due until something else causes a
  pass; nothing else leaves a due submission behind (`RestExactly`, `StrandedAtRest`).
- `align_up` adds a page to sizes that are whole pages, but no queue size produces one
  (`NeverWholePages`).
- The stored pixel struct has red and green exchanged, which no monochrome colour can show
  (`StoredAsFormat`, `MonoColoursStoredAsFormat`).

## Model

| member | source | states |
|---|---|---|
| `EngineFences.MissedFenceUnreachable` | gpu-wddm/src/queue.rs:1594-1597 | whatever thread is draining, the smallest pending fence is never below the one it expects, so the panic is unreachable |
| `EngineFences.FencesReportedInOrder` | gpu-wddm/src/queue.rs:1546-1602 | in every reachable state of any number of threads the fences reported are exactly 1, 2, 3, ... with no gap or repeat, and no thread has panicked |
| `EngineFences.QuietMeansDrained` | gpu-wddm/src/queue.rs:1579-1602 | with no thread mid-call the next fence is not left in the pending set: it is still outstanding or all are reported |
| `EngineFences.AllCompletedAllReported` | gpu-wddm/src/queue.rs:1546-1602 | once every submitted fence has had its completion call and no thread is mid-call, every one is reported and nothing is pending |
| `EngineFences.StepInv` | gpu-wddm/src/queue.rs:1546-1611 | every atomic step of every thread keeps the invariant on places of fences, the lock, local copies and requests |
| `EngineFences.RequestsAnsweredOnce` | gpu-wddm/src/queue.rs:1604-1610 | preemption acknowledgements answer the requests one by one, in order, each at most once |
| `EngineFences.RequestNotLost` | gpu-wddm/src/lib.rs:1548-1571 | with no thread mid-call an unanswered request is published and a fence is outstanding that will answer it, even if the engine drained between the caller's comparison and its store |
| `EngineFences.FusedRunsAccurate` | gpu-wddm/src/queue.rs:1604-1610 | on runs that take comparison, swap and interrupt on closing as one step, and comparison and interrupt in the caller as one step, every acknowledgement carries the last submitted fence as completed |
| `EngineFences.AccurateMeansComplete` | gpu-wddm/src/queue.rs:1604-1610 | an acknowledgement of that kind is sent only when every submitted fence has been reported |
| `EngineFences.SplitCloseAccuracy` | gpu-wddm/src/queue.rs:1604-1610 | with comparison, swap and interrupt apart, the acknowledgement is accurate if and only if no fence is submitted between the comparison and the interrupt |
| `EngineFences.SplitPreemptAccuracy` | gpu-wddm/src/lib.rs:1556-1561 | the same for the caller's own comparison and interrupt |
| `EngineFences.EveryAcknowledgement` | gpu-wddm/src/queue.rs:1604-1610 | on every run of any number of threads, each acknowledgement says what its thread found submitted when it last compared, and is accurate if and only if nothing was submitted between that comparison and the interrupt |
| `EngineFences.PrematureAcknowledgement` | gpu-wddm/src/queue.rs:1604-1610 | a reachable state of two threads in which a preemption was acknowledged with a fence outstanding |
| `EngineFences.PrematureDirectly` | gpu-wddm/src/lib.rs:1556-1561 | a reachable state in which the caller itself did so |
| `RingIndices.MaskIsSlot` | virtio-drivers/src/queue.rs:229-233 | for every power-of-two size, masking an index with size - 1 gives its ring slot |
| `RingIndices.SlotIsRemainder` | virtio-drivers/src/queue.rs:229-233 | which is its remainder by the queue size |
| `RingIndices.SlotOfCut` | virtio-drivers/src/queue.rs:229-240 | cutting a counter to 16 bits first does not change its ring slot, for every power-of-two size |
| `RingIndices.SlotsDiffer` | virtio-drivers/src/queue.rs:229-240 | two counters less than a full turn apart never share a slot |
| `RingIndices.CutsAgree` | virtio-drivers/src/queue.rs:417-421 | less than a full turn apart, the indices differ exactly when the counters do |
| `RingIndices.EventPassed` | virtio-drivers/src/queue.rs:392-403 | moving an index over the requested event, across any wrap, satisfies the standard's condition |
| `VirtqueueSpec.AddedValid` | virtio-drivers/src/queue.rs:197-249 | adding keeps free descriptors and chains a partition of 0..SIZE |
| `VirtqueueSpec.PoppedValid` | virtio-drivers/src/queue.rs:558-601 | popping any chain keeps that partition |
| `VirtqueueSpec.AddPopRestoresFree` | virtio-drivers/src/queue.rs:460-547 | popping the chain just added puts the free list back in the same order |
| `VirtqueueSpec.UsedIsChainLength` | virtio-drivers/src/queue.rs:209-225 | `num_used` is the total length of the chains in flight and at most SIZE |
| `VirtqueueSpec.RoomMeansFree` | virtio-drivers/src/queue.rs:209-225 | whenever `add` finds room the free list is long enough for the chain, direct or indirect |
| `VirtqueueSpec.AddErrorExactly` | virtio-drivers/src/queue.rs:202-219 | a chain is taken if and only if it has buffers, no more than SIZE, and enough descriptors are free; without buffers the parameter is invalid, otherwise the queue is full |
| `Virtqueue.VirtQueue.Init` | virtio-drivers/src/queue.rs:126-158 | initialisation threads all descriptors into the free list, ended by SIZE |
| `Virtqueue.BuildList` | virtio-drivers/src/queue.rs:288-320 | an indirect list presents the buffers in order, linked by consecutive indices, the last one without a successor |
| `Virtqueue.VirtQueue.AddDirect` | virtio-drivers/src/queue.rs:251-285 | fills the first free descriptors with the buffers in order, in table and shadow alike, and moves the head past them |
| `Virtqueue.VirtQueue.AddIndirect` | virtio-drivers/src/queue.rs:288-340 | one descriptor points at a list holding all buffers; the list slot it takes was empty |
| `Virtqueue.VirtQueue.Add` | virtio-drivers/src/queue.rs:197-249 | the queue behaves as the specification and returns the head of the chain, from which the device then reads the inputs, read-only, and the outputs, writable, in order; or it reports exactly why it cannot and changes nothing |
| `Virtqueue.VirtQueue.RecycleDirect` | virtio-drivers/src/queue.rs:516-547 | walks the chain it was given, unshares its buffers in order, clears its descriptors for driver and device, and links the last one to the old free head |
| `Virtqueue.VirtQueue.RecycleIndirect` | virtio-drivers/src/queue.rs:470-515 | takes the list back, unshares it and its buffers in order, frees the one descriptor |
| `Virtqueue.VirtQueue.Recycle` | virtio-drivers/src/queue.rs:460-547 | given the buffers that were added, no panic or assertion can fire, the ones on empty buffers included, for direct and indirect chains alike; the buffers are unshared in order |
| `Virtqueue.VirtQueue.PeekUsed` | virtio-drivers/src/queue.rs:425-434 | the token of the next used entry, if there is one |
| `Virtqueue.VirtQueue.NotifyNeeded` | virtio-drivers/src/queue.rs:392-403 | whether the device asked to be told, by event index or by flag |
| `Virtqueue.VirtQueue.PopUsed` | virtio-drivers/src/queue.rs:558-601 | pops exactly the chain named by the next used entry, or says not ready or wrong token and changes nothing |
| `Virtqueue.VirtQueue.DeviceReads` | virtio-drivers/src/queue.rs:251-340 | reading the device-visible chain of any chain in flight, direct or indirect, yields exactly its inputs then its outputs, outputs alone writable |
| `Virtqueue.DirectThreaded` | virtio-drivers/src/queue.rs:251-285 | after a direct add the table equals the shadow on every descriptor in flight and the free list is intact |
| `Virtqueue.IndirectThreaded` | virtio-drivers/src/queue.rs:288-340 | the same after an indirect add |
| `Virtqueue.RecycledThreaded` | virtio-drivers/src/queue.rs:460-547 | the same after recycling, the recycled chain heading the free list |
| `VirtqueueRuns.StepInv` | virtio-drivers/src/queue.rs:197-601 | every add, device take, device return in any order and pop keeps the invariant that locates each chain in exactly one of the rings or with the device |
| `VirtqueueRuns.DescriptorsPartition` | virtio-drivers/src/queue.rs:209-340 | in every reachable state free list and chains partition 0..SIZE and `num_used` is the total chain length |
| `VirtqueueRuns.AvailableNotOverwritten` | virtio-drivers/src/queue.rs:229-248 | across any number of wraps, an available entry the device has not taken is never overwritten |
| `VirtqueueRuns.UsedNotOverwritten` | virtio-drivers/src/queue.rs:558-601 | nor does a device that returns what it took overwrite an entry not yet popped |
| `VirtqueueRuns.CanTakeExactly` | virtio-drivers/src/queue.rs:240-248 | the device sees a new index exactly when a chain waits for it |
| `VirtqueueRuns.CanPopMeansUnpopped` | virtio-drivers/src/queue.rs:417-434 | `can_pop` holds exactly when an unpopped used entry exists, and that entry names a chain in flight |
| `VirtqueueRuns.PoppedExactlyOnce` | virtio-drivers/src/queue.rs:558-601 | every added chain is in flight or has been popped, exactly once |
| `VirtqueueRuns.UsedEventFollows` | virtio-drivers/src/queue.rs:588-598 | with event indices, the stored `used_event` is in every reachable state the index of the next entry to pop |
| `DeviceAccess.StepInv` | virtio-drivers/src/queue.rs:229-547 | every descriptor write, list share and unshare, ring-slot write and index store, and every device step in between, keeps the invariant on half-built and half-recycled chains |
| `DeviceAccess.DeviceReadsItsChains` | virtio-drivers/src/queue.rs:251-340 | between any two writes of any run, each head the device holds is that of a chain in flight, and following the descriptors in shared memory from it gives that chain's buffers in order |
| `DeviceAccess.DeviceReadsWhatItTakes` | virtio-drivers/src/queue.rs:229-248 | the same for every ring entry below the index that it has yet to take |
| `DeviceAccess.CallsProceed` | virtio-drivers/src/queue.rs:460-547 | a call under way always has a next write within bounds |
| `DeviceAccess.WritesRefineRuns` | virtio-drivers/src/queue.rs:197-601 | every run of single writes is a run in which adding and popping are single steps, so the theorems of `VirtqueueRuns` hold of it |
| `Kicks.StepInv` | virtio-drivers/src/queue.rs:392-403 | publishing, deciding, taking, arming, rechecking and waking keep the wake-up invariant, with event indices and with flags |
| `Kicks.NoLostKick` | gpu-wddm/src/queue.rs:866-872 | no run, over any wrap of the index, leaves the device asleep on unconsumed entries without a notification sent or about to be sent |
| `Kicks.PerEntryMeetsStandard` | virtio-drivers/src/queue.rs:392-403 | after one entry the driver notifies whenever sections 2.6.7 and 2.6.10 of VirtIO v1.1 demand it |
| `Kicks.FlagsExactly` | virtio-drivers/src/queue.rs:398-402 | without event indices the device is told if and only if the lowest bit of its flags is clear |
| `Kicks.BatchNotifiedExactly` | virtio-drivers/src/queue.rs:392-403 | for several entries at once a notification is due, and is sent if and only if the index does not wrap past the awaited entry |
| `Kicks.BatchAcrossWrapMissed` | virtio-drivers/src/queue.rs:392-403 | two entries at the end of the index range and one decision: the device is not told |
| `Interrupts.StepInv` | virtio-drivers/src/queue.rs:588-598 | popping, storing `used_event`, looking again and the device's decisions keep the invariant |
| `Interrupts.NoLostInterrupt` | gpu-wddm/src/queue.rs:1085-1096 | the handler never waits on an unpopped entry without an interrupt sent or due |
| `QueueInterrupts.PopIsPeekAndStore` | virtio-drivers/src/queue.rs:558-598 | popping through the queue, with the `used_event` it stores, is the protocol's look and store |
| `QueueInterrupts.NoLostInterrupt` | virtio-drivers/src/queue.rs:588-598 | on every run of queue, device and handler: never does the handler wait while `can_pop` holds, unless an interrupt is sent or the queue's own `used_event` makes the device send one |
| `QueueKicks.StepSeen` | virtio-drivers/src/queue.rs:197-249 | every add, decision and device step on the queue's fields is the protocol step it stands for |
| `QueueKicks.NoLostKick` | virtio-drivers/src/queue.rs:392-403 | never does the device sleep while the queue's stored index is ahead of its own, unless a notification is sent or about to be |
| `RequestSlots.RequestedOk` | gpu-wddm/src/queue.rs:963-980 | starting a request keeps slots accounted for and every token leading to the slot with its buffers, also when the virtqueue refuses |
| `RequestSlots.RespondedOk` | gpu-wddm/src/queue.rs:995-1083 | finishing any chain keeps the same |
| `RequestSlots.IndirectCount` | gpu-wddm/src/queue.rs:726-733 | with indirect descriptors the busy slots are as many as the virtqueue's used descriptors |
| `RequestSlots.FreeSlotMeansRoom` | virtio-drivers/src/queue.rs:209-225 | then a free slot means that `add` does not report a full queue |
| `RequestSlots.RequestQueue.constructor` | gpu-wddm/src/queue.rs:722-753 | a new queue has all slots free and an empty virtqueue |
| `RequestSlots.RequestQueue.PushToDevice` | gpu-wddm/src/queue.rs:850-875 | the slot holds the request and the token leads back to it, exactly when the virtqueue took it |
| `RequestSlots.RequestQueue.Request` | gpu-wddm/src/queue.rs:963-980 | the request the channel yields, whichever of the waiting ones, is started in the slot at the head of the free queue; with none, that slot goes to its end; or the virtqueue's error is returned |
| `RequestSlots.RequestQueue.PopFromDevice` | gpu-wddm/src/queue.rs:877-894 | the slot found is that of the chain the device returned, and the buffers handed to the virtqueue are the ones that chain carries |
| `RequestSlots.RequestQueue.Response` | gpu-wddm/src/queue.rs:995-1083 | the callback that runs is that of the request in the returned chain's slot, which becomes free |
| `RequestRuns.StepInv` | gpu-wddm/src/queue.rs:963-1083 | submitting, starting, device steps in any order and responses keep slots, tokens, requests and history consistent |
| `RequestRuns.SlotsPartition` | gpu-wddm/src/queue.rs:726-733 | with indirect descriptors free and busy slots partition 0..SIZE in every reachable state, and as many are busy as descriptors are used |
| `RequestRuns.TokensOntoBusySlots` | gpu-wddm/src/queue.rs:866-890 | `indices` maps the tokens in flight one to one onto the busy slots and holds nothing else |
| `RequestRuns.FreeSlotsEmpty` | gpu-wddm/src/queue.rs:896-903 | a free slot holds no buffers and no callback |
| `RequestRuns.DeviceSeesRequest` | gpu-wddm/src/queue.rs:850-875 | every chain in flight shows the device its request's command, read-only, then its response, writable |
| `RequestRuns.StartAlwaysEnabled` | gpu-wddm/src/queue.rs:963-980 | whatever the channel yields, starting it is defined in every reachable state |
| `RequestRuns.RefusedExactly` | gpu-wddm/src/queue.rs:963-980 | a request with a slot is refused if and only if two buffers cannot fit: SIZE below 2, or no indirect descriptors and fewer than two left; with indirect ones never |
| `RequestRuns.ResponseFindsRequest` | gpu-wddm/src/queue.rs:877-894 | whatever the device returned leads to the request whose add made that chain; no lookup fails |
| `RequestRuns.EachAnsweredOnce` | gpu-wddm/src/queue.rs:995-1083 | whatever order the channel yields requests in and the device answers them, each submission is waiting, in flight, answered or lost, exactly once; the k-th callback that ran is that of the k-th submission answered; where two buffers fit none is lost, and once nothing waits or flies each is answered |
| `RequestRuns.DirectRequestLost` | gpu-wddm/src/queue.rs:963-980 | without indirect descriptors a reachable state with a request lost and its slot leaked |
| `Batches.StepInv` | gpu-wddm/src/queue.rs:2095-2123 | every interleaving of the submit loop and the responses keeps the reference count equal to the owners and at most one party freeing |
| `Batches.ReportedOnceAfterAll` | gpu-wddm/src/queue.rs:1069-1079 | freeing starts only when every command is answered; the fence is reported at most once and only after each allocation was marked free exactly once |
| `Batches.ReportedAtTheEnd` | gpu-wddm/src/queue.rs:220-236 | when all parties are through, fence and allocations have been seen to exactly once, whoever dropped the last reference |
| `Pipeline.StepInv` | gpu-wddm/src/queue.rs:2074-2123 | every step of the submitters, the queue, the device, the response handler and the engine's threads keeps each fence outstanding exactly until its batch has reported, and each unanswered request's command waiting |
| `Pipeline.ResponseFindsCommand` | gpu-wddm/src/queue.rs:995-1083 | following the returned token to its slot and the callback stored there, a response always finds a command that still holds its reference |
| `Pipeline.CallbackFindsJob` | gpu-wddm/src/queue.rs:877-894 | and it is the command the request was submitted for |
| `Pipeline.CompletionCallExpected` | gpu-wddm/src/queue.rs:1069-1079 | a completion call is always the first for its fence, which is the engine's assumption |
| `Pipeline.EverySubmissionReported` | gpu-wddm/src/queue.rs:1546-1602 | the scheduler hears of fences 1, 2, 3, ... in order, and of all of them once every party is through and no thread is mid-call, each batch's allocations marked free exactly once |
| `FenceTracking.FenceTracker.NextFence` | gpu-wddm/src/queue.rs:1442-1447 | hands out the next number and records it as unsignalled |
| `FenceTracking.FenceTracker.Signal` | gpu-wddm/src/queue.rs:1449-1458 | removes the first occurrence by moving the last element into its place; a second signal changes nothing |
| `FenceTracking.FenceTracker.IsSignalled` | gpu-wddm/src/queue.rs:1460-1463 | answers the query |
| `FenceTracking.SignalledTracks` | gpu-wddm/src/queue.rs:1449-1458 | despite the swap the vector holds each issued, unsignalled fence exactly once |
| `FenceTracking.IssuedTracks` | gpu-wddm/src/queue.rs:1442-1447 | issuing keeps the same |
| `FenceTracking.QueryAgrees` | gpu-wddm/src/queue.rs:1460-1463 | `query` is true exactly of the fences issued and signalled |
| `FenceTracking.FenceSubmissions.Handle` | gpu-wddm/src/queue.rs:1613-1643 | reports the ready submissions in order, keeps the others, and re-queues the timed-out ones with a new time stamp at the end |
| `FenceTracking.FenceSubmissions.Submit` | gpu-wddm/src/queue.rs:2054-2065 | reports at once when the virtio fence is signalled, otherwise queues and makes a pass |
| `FenceTracking.PassConserves` | gpu-wddm/src/queue.rs:1613-1643 | a pass loses and duplicates no fence and leaves none that is ready |
| `FenceTracking.PutBackWhenOld` | gpu-wddm/src/queue.rs:1490-1502 | a submission that is not ready is left alone for less than thirty seconds and put back with a new time stamp from then on |
| `FenceTracking.PassOrder` | gpu-wddm/src/queue.rs:1613-1643 | a pass leaves first those it kept, unchanged and in order, then those it put back, in order |
| `FenceTracking.ReportedOnceWhenDue` | gpu-wddm/src/queue.rs:2054-2065 | on every run of whole calls each submitted fence is queued or reported, once, over any number of timeouts, and reported only after its virtio fence was issued and signalled |
| `FenceTracking.PassLeavesNoneDue` | gpu-wddm/src/queue.rs:1613-1643 | after a whole pass from any state such runs reach nothing that is due is left queued |
| `FencePasses.StepInv` | gpu-wddm/src/queue.rs:1442-1463 | every access of issuing, signalling, querying, submitting and passing, by any thread, keeps submissions, tracker, lock and coverage consistent |
| `FencePasses.EachFenceOnce` | gpu-wddm/src/queue.rs:1613-1643 | however the accesses interleave each submitted fence is reported, queued or in one thread's hands, once; at rest reported or queued; the assertion in `signal` never fires |
| `FencePasses.ReadyExactly` | gpu-wddm/src/queue.rs:1442-1463 | a fence found ready, and so reported, has been signalled if and only if no thread is between counting and pushing its virtio fence |
| `FencePasses.ReportedTooSoon` | gpu-wddm/src/queue.rs:2054-2065 | a reachable state in which a fence was reported whose virtio fence is not signalled |
| `FencePasses.RestExactly` | gpu-wddm/src/queue.rs:1613-1643 | with all threads at rest nothing due is queued if and only if each putting back of a due submission, with no pass to come, was followed by the start of another pass |
| `FencePasses.StrandedAtRest` | gpu-wddm/src/queue.rs:1613-1643 | a reachable state with all threads at rest and a due submission in the queue |
| `TwoLevelQueue.ArraySegQueue.Push` | gpu-wddm/src/queue.rs:546-550 | with calls that do not overlap, appends to one unbounded sequence |
| `TwoLevelQueue.ArraySegQueue.Pop` | gpu-wddm/src/queue.rs:552-562 | takes the head of that sequence; in any state, the head of the bounded part extended by the overflow's head |
| `TwoLevelQueue.NothingLost` | gpu-wddm/src/queue.rs:546-562 | however the sub-steps of pushes interleave with one consumer, every element begun is popped, in the queue or under way, exactly once |
| `TwoLevelQueue.FirstInFirstOut` | gpu-wddm/src/queue.rs:546-562 | elements come out in the order they entered on every run whose pops take from the bounded part only while nothing overflows |
| `TwoLevelQueue.OtherwiseOvertaken` | gpu-wddm/src/queue.rs:552-562 | any other take from the bounded part can be followed by a push that overtakes |
| `TwoLevelQueue.OvertakingRun` | gpu-wddm/src/queue.rs:546-562 | a run of one producer in which 2 comes out before 1 |
| `ContextIds.SimpleIdAllocator.Next` | gpu-wddm/src/queue.rs:1268-1284 | an id in 1..u32::MAX-1 that nobody holds, or none exactly when all of them are held |
| `ContextIds.SimpleIdAllocator.Free` | gpu-wddm/src/queue.rs:1286-1289 | gives a held id back |
| `ContextIds.StepInv` | gpu-wddm/src/queue.rs:1259-1289 | every step of any number of threads, except a draw from a counter that has wrapped past zero behind an unfinished exhausted draw, keeps each id drawn so far in exactly one place |
| `ContextIds.IssuedIdUnused` | gpu-wddm/src/queue.rs:1812-1845 | on runs drawing from the counter at most 2^32 times, and on all that never draw from a wrapped counter, the id handed out is non-zero, below u32::MAX, not live and not awaiting its CTX_DESTROY answer |
| `ContextIds.FewDrawsCareful` | gpu-wddm/src/queue.rs:1268-1284 | no run of at most 2^32 draws draws from a wrapped counter |
| `ContextIds.DrawGoodExactly` | gpu-wddm/src/queue.rs:1678-1684 | a draw, 0 counting as none, leaves every id in at most one place if and only if the counter has not wrapped past zero behind an unfinished exhausted draw; it hands out a held id if and only if it has and id 1 is held |
| `ContextIds.UniqueExactly` | gpu-wddm/src/queue.rs:1268-1289 | a run keeps every id in at most one place in all its states if and only if it never draws from such a counter |
| `ContextIds.ExhaustedDrawsCollide` | gpu-wddm/src/queue.rs:1275-1283 | a run of 2^32 + 1 draws in which id 1 is held twice |
| `Backing.CoalescePages` | gpu-wddm/src/allocation.rs:1029-1052 | coalescing the pages of an update keeps their byte sequence and size and leaves no two neighbours mergeable |
| `Backing.PageBytes` | gpu-wddm/src/allocation.rs:1029-1036 | the entries of pages stand for the bytes of the pages one after the other: byte d of page number p is 4096 p + d, of 4096 or 65536 bytes |
| `Backing.AppendedExpand` | gpu-wddm/src/allocation.rs:581-588 | merging two adjoining entries keeps the byte sequence |
| `Backing.AppendedCoalesced` | gpu-wddm/src/allocation.rs:1058-1065 | growing the last entry never makes it mergeable with its neighbour |
| `Backing.Resource3D.TotalAttachedBytes` | gpu-wddm/src/allocation.rs:898-903 | the number of backing bytes |
| `Backing.Resource3D.Append` | gpu-wddm/src/allocation.rs:1058-1065 | the new bytes follow the old ones, and a coalesced list stays coalesced |
| `Backing.Resource3D.AttachPages` | gpu-wddm/src/allocation.rs:1006-1103 | the byte sequence becomes the old bytes then those of the pages, each from 4096 times its number on, or the other way round when the offset goes backwards; lengths stay below 2^32; totals add up; the answer is true exactly when the total reaches the size; in order, a coalesced list stays coalesced; a full resource or an invalid page changes nothing |
| `Backing.EntriesRefineBytes` | gpu-wddm/src/allocation.rs:1006-1103 | for every sequence of page-table updates the entries stand for exactly the bytes a model without entries would hold |
| `Backing.InOrderStaysCoalesced` | gpu-wddm/src/allocation.rs:1058-1065 | over every sequence of in-order updates no two neighbouring entries remain mergeable |
| `BusyAllocations.StepInv` | gpu-wddm/src/allocation.rs:660-701 | every interleaving of the steps of `mark_busy`, `mark_free` and `wait` keeps the invariant |
| `BusyAllocations.CountIsOutstanding` | gpu-wddm/src/allocation.rs:664-701 | the counter is the number of outstanding units and `wait` returns only after seeing zero |
| `BusyAllocations.NobodyStranded` | gpu-wddm/src/allocation.rs:664-701 | once the count is back at zero with no call half-way the event is set; a sleeping waiter can always go on |
| `BusyAllocations.AwakeReturns` | gpu-wddm/src/allocation.rs:664-673 | from there a waiter returns in at most two steps of its own |
| `BusyAllocations.CalmEventExact` | gpu-wddm/src/allocation.rs:675-701 | if nobody marks the allocation busy before the event of its last release is set, the event is set only while no unit is held, and with no call half-way exactly then |
| `BusyAllocations.SpuriouslySet` | gpu-wddm/src/allocation.rs:675-701 | a reachable state with the event set although the allocation is busy |
| `LittleEndian.RoundTrip` | virtio-drivers/src/device/gpu/mod.rs:1000-1011 | a number written in little-endian bytes is read back |
| `CommandCodec.HeaderRoundTrip` | gpu-wddm/src/queue.rs:1695-1725 | type, fence, context and ring of a command header are read back, the ring only if its flag is set |
| `CommandCodec.HeaderBytes` | gpu-wddm/src/queue.rs:1695-1725 | every command begins with the type the device knows its kind by, and its flags ask for the fence, and for the ring if there is one |
| `CommandCodec.TransferRoundTrip` | gpu-wddm/src/command.rs:271-306 | every field of a transfer is read back from the command it is copied into |
| `CommandCodec.OrderRoundTrip` | gpu-wddm/src/command.rs:235-358 | decoding an encoded item gives back the item, its context, ring and fence |
| `Rendering.ParseOne` | gpu-wddm/src/uapi.rs:842-955 | parsing goes forward and stays inside the stream, but for a no-op, whose body is not looked at; submitted data has a 32-bit length; fences are refused |
| `CommandStream.StreamRoundTrip` | gpu-wddm/src/uapi.rs:890-955 | scanning the bytes of any list of user commands gives exactly those commands, for the context and ring their flags select, up to the first whose context does not exist, or to the end |
| `CommandStream.AcceptedIsCommand` | gpu-wddm/src/uapi.rs:890-955 | whatever is accepted is the bytes of a user command, and is accepted as that command |
| `CommandStream.FenceRefused` | gpu-wddm/src/device.rs:611-614 | a well-formed fence is refused as an invalid handle |
| `CommandStream.UserItemReachesDevice` | gpu-wddm/src/device.rs:578-715 | the DMA region of each item of each rendered command decodes to what the user asked for: the data, an upload or a download, for the context and ring named |
| `CommandStream.NopExactly` | gpu-wddm/src/device.rs:717-724 | a stream becomes a single no-op if and only if it has a no-op and no command in it has an item |
| `Rendering.PredictedSize` | gpu-wddm/src/command.rs:117-144 | item size times item count is the size of the items together |
| `Rendering.PredictedTotal` | gpu-wddm/src/device.rs:667-714 | the bytes of all items are the predicted sizes added up |
| `Rendering.RegionPlace` | gpu-wddm/src/device.rs:703-709 | command i lies where the commands before it end: consecutive, disjoint, starting at 0 |
| `Rendering.RegionDecodes` | gpu-wddm/src/command.rs:235-358 | decoding region i of the buffer gives item i with the fence drawn for it, whatever fences are drawn |
| `Rendering.RenderingDecodes` | gpu-wddm/src/device.rs:578-715 | for every stream, what is rendered decodes to the items of the stream in order |
| `Rendering.FromItem` | gpu-wddm/src/command.rs:235-358 | writes the encoded item at its place and nothing else |
| `Rendering.RenderUnit` | gpu-wddm/src/device.rs:667-714 | writes the items of one command after what is there, as many bytes as were predicted, so the size assertion holds |
| `Rendering.RenderNext` | gpu-wddm/src/device.rs:667-714 | writes a command if and only if it fits and otherwise leaves the buffer alone |
| `Rendering.Render` | gpu-wddm/src/device.rs:578-715 | terminates; the commands rendered are in the buffer, the rest of it untouched; stops short exactly when the next command does not fit; otherwise ends as the stream does, with a single no-op when only no-ops were seen |
| `QueueLayout.AlignUpExactly` | virtio-drivers/src/lib.rs:133-135 | `align_up` agrees with rounding up if and only if the size is not a whole number of pages, and then adds one |
| `QueueLayout.NeverWholePages` | virtio-drivers/src/queue.rs:754-764 | no power-of-two queue size makes the rounded sizes whole pages |
| `QueueLayout.PartsHoldEntries` | virtio-drivers/src/queue.rs:754-764 | the parts hold their entries, of the fields the standard gives them, and one event index each, and nothing else |
| `QueueLayout.LegacyMeetsStandard` | virtio-drivers/src/queue.rs:637-647 | the legacy layout is the formula of section 2.6.2 of VirtIO v1.1 |
| `QueueLayout.LegacyFits` | virtio-drivers/src/queue.rs:637-647 | its areas are disjoint, aligned to 16, 2 and 4, and inside the allocated pages |
| `QueueLayout.FlexibleFits` | virtio-drivers/src/queue.rs:654-671 | the same for the two regions of the modern layout, with less than a page to spare |
| `MonoCursor.PixelRoundTrip` | gpu-wddm/src/vidpn.rs:1203-1221 | a colour written to the surface is read back |
| `MonoCursor.StoredAsFormat` | gpu-wddm/src/vidpn.rs:1188-1214 | the stored bytes are those of the surface format if and only if red equals green |
| `MonoCursor.MonoColoursStoredAsFormat` | gpu-wddm/src/vidpn.rs:1231-1235 | which is so for every monochrome colour |
| `MonoCursor.MaskBits` | gpu-wddm/src/vidpn.rs:1288-1291 | the masks are read like text: highest bit first, row after row, the AND mask before the XOR mask |
| `MonoCursor.ShownAsMasksSay` | gpu-wddm/src/vidpn.rs:1293-1304 | away from inverted pixels the image does to every screen what a monochrome cursor does: AND with one mask, then invert with the other |
| `MonoCursor.InvertedStandsOut` | gpu-wddm/src/vidpn.rs:1316-1344 | an inverted pixel is white and every transparent one beside it black, over any screen |
| `MonoCursor.FirstSweep` | gpu-wddm/src/vidpn.rs:1270-1314 | every pixel is what the masks say, and the flag tells whether any is inverted |
| `MonoCursor.HasInvertedNeighbour` | gpu-wddm/src/vidpn.rs:1324-1328 | reading the half-swept surface still tells whether a neighbour was inverted originally |
| `MonoCursor.SecondSweep` | gpu-wddm/src/vidpn.rs:1316-1334 | exactly the transparent pixels next to an originally inverted one become black |
| `MonoCursor.ThirdSweep` | gpu-wddm/src/vidpn.rs:1336-1344 | exactly the inverted pixels become white |
| `MonoCursor.WriteMono` | gpu-wddm/src/vidpn.rs:1270-1344 | every pixel of the surface is a function of the masks alone, independent of the order of the sweeps |

## Left out

- Hardware memory ordering: atomics are sequentially consistent; acquire and release choices are not modelled.
- 64-bit and address-space overflow of fence counters, byte totals and physical addresses, except where a member says that it wraps.
- EngineFences.StepInv: assumes fences submitted as 1, 2, 3, ... below u32::MAX, each completed by one call, and one preemption request at a time, as the scheduler does. Pipeline discharges the one call for fences of commands and batches.
- Pipeline.StepInv: fences submitted to wait for a virtio fence, and paging, are not part of the composition; a no-op is a batch of no commands.
- DeviceAccess.StepInv: a descriptor is written in one piece; the device looks at chains in flight only.
- Interrupts.NoLostInterrupt: assumes a device that decides on an interrupt at least once in 2^16 - 1 returned entries, as section 2.6.7 of VirtIO v1.1 needs.
- QueueInterrupts.NoLostInterrupt: makes the same assumption; storing `last_used_idx`, which only the driver reads, and `used_event` is one step.
- RequestSlots.RequestQueue.Request: which waiting request the channel yields is a parameter; inputs, outputs and callbacks of a slot are kept together as one request, and the two debug assertions on page boundaries are not modelled.
- RequestSlots.RequestQueue.Response: assumes a device that returns chains it was given; the handler's behaviour on a token it does not know is not modelled.
- Virtqueue.VirtQueue.Add: buffers are addresses and lengths; sharing through the hardware abstraction layer appears as a list of addresses to unshare. Empty buffers are excluded: `add_direct` asserts against them, and `add_indirect` accepts them but recycling then asserts.
- Batches.StepInv: memory failure while a batch is being sent is not modelled.
- BusyAllocations.StepInv: the list of sync files set and cleared beside the event is not modelled.
- ContextIds.StepInv: ids of contexts whose creation failed are held for ever, as in the source.
- Backing.Resource3D.AttachPages: blob resources, which keep no page list, are not modelled; the assertions on page size and segment are preconditions.
- Rendering.Render: commands other than no-ops whose well-formed header claims more bytes than there are, and submissions without a main context, have no answer in the source; nothing is claimed of the result for them. Resetting the DMA position in the error path and marking allocations busy afterwards are not modelled.
- FenceTracking.FenceSubmissions.Handle: the clock is a parameter, two readings for each submission; notifying the engine appears as a list of reported fences.
- FencePasses.StepInv: time is left open, so that any submission that is not ready may be found timed out; a fence is signalled only after its `next_fence` has returned, as it then first appears in a command; whoever signals makes a pass afterwards, as the handler thread does.
- Non-indirect builds of the virtqueue, its blocking helper and its fake device: variants that would only add easy members.
- Attach-backing, blit and aperture commands: fixed layouts like the ones modelled.
- Windows kernel and dxgkrnl calls, PCI access, blob mapping, offset allocation, VidPN topology, mode setting, flip timer and cursor transport: foreign calls without visible semantics.
