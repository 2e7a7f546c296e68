# Verified models of the transport, congestion control and media cores

This project models parts of the repository in Dafny and proves properties of the models. Each model comes
in two layers: the state as a value, with one function for each operation and lemmas about every run, and
the object that the repository updates in place, whose methods are proved to do to their fields what those
functions say.

| file | what it models |
|---|---|
| `SkipList.dfy` | the skip list: sorted entries as a dictionary, and the linked towers that refine them |
| `Fragmenter.dfy` | cutting a frame into segments |
| `FrameCache.dfy` | the 1024-slot reassembly ring, and what is delivered from it |
| `PlaybackFloor.dfy` | how far the ring's floor moves with every arrival and fetch |
| `Retransmission.dfy` | sender and receiver of the reliable video transport with a network between them |
| `Acknowledgement.dfy`, `Arrival.dfy` | what acknowledgements, arrivals and the age limit do in every run of the transport |
| `SampleAllocator.dfy` | the buffer allocator with its lazily signalled semaphore |
| `OutputPin.dfy` | the block and unblock automaton of the dynamic output pin |
| `AdviseSchedule.dfy` | the timer list with sentinels and a cache of packets |
| `MulDiv.dfy` | multiply, add and divide on 128 and 96 bits |
| `WindowedFilter.dfy` | the three-slot windowed extremum filter |
| `BbrController.dfy` | the BBR controller: modes, gains, windows, recovery |
| `BbrTargets.dfy`, `BbrModes.dfy`, `BbrEstimates.dfy` | its windows and gain cycle in numbers, the modes across a whole feedback, and its estimates against a record of the feedbacks |
| `BandwidthSampler.dfy` | the byte accounting of the ring of packet points |
| `Unwrapper.dfy`, `LossWindow.dfy` | sequence unwrapping and the sliding loss window |
| `ByteStream.dfy`, `Feedback.dfy`, `FeedbackRuns.dfy` | the byte stream, the feedback codec, the receiver that batches arrivals, and what it reports when |
| `Confidence.dfy` | the bitrate chosen from a confidence table under a congestion cap |
| `RoiMap.dfy` | boxes over time and the map of QP deltas |
| `Wrappers.dfy` | types shared by the models |

Locks are modelled as atomic steps: an interleaving of threads is any sequence of the locked sections. Clocks,
`rand()` and the contents of messages from code that is not modelled are arbitrary inputs.

Where code and comments disagree the model follows the code:

- The allocator's comment states that announced waits plus the semaphore count equal the number of waiters.
  A call with the no-wait flag announces a wait and leaves, so the equation fails by the number of such calls.
  Enough of them overflow the semaphore, and then a waiter can sleep beside a free sample.
- The comment on the feedback window of the BBR receiver speaks of a reset; the test for it compares a number
  with itself plus a constant, so only the first packet ever resets the window.
- The recovery window of BBR is compared with the number of a recovery state; the model does the same.
- The resampling of boxes is described as linear interpolation, but the first input interval keeps the first box.

## Model

| member | source | states |
|---|---|---|
| `SortedEntries.RunIsDictionary` | ReCapABR/common/cf_skiplist.c:44-187 | after any run of insert, remove and clear, for any total-order comparator, the index is in strict key order and answers every lookup as a dictionary that keeps the first value written for a key |
| `SortedEntries.RunConserves` | ReCapABR/common/cf_skiplist.c:44-187 | every item ever given is either stored or was handed to the free callback, as multisets, never both and never neither |
| `SortedEntries.LookupAt` | ReCapABR/common/cf_skiplist.c:189-222 | on a sorted index the entry at the lower bound is exactly what a linear scan that ignores the order finds |
| `SortedEntries.InsertedLookup` | ReCapABR/common/cf_skiplist.c:99-124 | insertion changes the lookup of the new key only, and a duplicate insertion changes no lookup |
| `SortedEntries.RemovedLookup` | ReCapABR/common/cf_skiplist.c:164-187 | removal makes the key absent and changes no other lookup |
| `SkipLists.LinkedInsert` | ReCapABR/common/cf_skiplist.c:73-124 | relinking the recorded slots below the height of a new node makes every level link again exactly the nodes that reach above it |
| `SkipLists.LinkedRemove` | ReCapABR/common/cf_skiplist.c:126-187 | bypassing a node in the recorded slots does the same for a removal, whatever the tower heights |
| `SkipLists.SkipList.LevelChain` | ReCapABR/common/cf_skiplist.c:189-217 | in every valid list, following level i visits exactly the nodes whose tower reaches above i, in the order of level 0, and then stops |
| `SkipLists.SkipList.ChainSorted` | ReCapABR/common/cf_skiplist.c:189-217 | the keys along every level strictly increase |
| `SkipLists.SkipList.SearchIter` | ReCapABR/common/cf_skiplist.c:189-217 | the descent returns the node at the lower bound of the key, for an exact search only if the keys are equal |
| `SkipLists.SkipList.Search` | ReCapABR/common/cf_skiplist.c:219-222 | finds the node of the key if and only if the key is present |
| `SkipLists.SkipList.FindStart` | ReCapABR/common/cf_skiplist.c:228-231 | returns the first item whose key is not below the given one, or null if there is none |
| `SkipLists.SkipList.Insert` | ReCapABR/common/cf_skiplist.c:99-124 | for any drawn depth the linked structure afterwards is the sorted sequence with the item inserted, and a duplicate is freed and changes nothing else |
| `SkipLists.SkipList.Remove` | ReCapABR/common/cf_skiplist.c:164-187 | the linked structure afterwards is the sorted sequence without the key, and the result is the successor of the removed node |
| `SkipLists.SkipList.Clear` | ReCapABR/common/cf_skiplist.c:44-59 | every item is handed to the callback in order and the list is empty |
| `Fragmenter.PiecesFit` | ReCapABR/sim_transport/sim_sender.c:254-284 | every piece of a frame fits a segment and the piece sizes differ by at most one byte |
| `Fragmenter.OffsetIs` | ReCapABR/sim_transport/sim_sender.c:254-284 | closed form of where each piece starts, the sum of the sizes before it |
| `Fragmenter.TotalCarriesFrame` | ReCapABR/sim_transport/sim_sender.c:254-284 | the announced number of pieces carries the whole frame if and only if the frame is at most 65535 times 1000 bytes, because the count is narrowed to 16 bits |
| `Fragmenter.Splitter.Split` | ReCapABR/sim_transport/sim_sender.c:254-284 | the table filled by the loop holds exactly the piece sizes, through any growth of the table |
| `Fragmenter.SegmentsCarryFrame` | ReCapABR/sim_transport/sim_sender.c:334-354 | joining all segments of a frame gives back its bytes if and only if its piece count fits in 16 bits |
| `Fragmenter.OversizeFrameIsLost` | ReCapABR/sim_transport/sim_sender.c:254-284 | a frame of 65536 full segments is announced with no segment at all |
| `Reassembly.FullMeansAllPresent` | ReCapABR/sim_transport/sim_receiver.c:271-323 | in a well-formed slot the present count equals the announced count exactly when every segment is present |
| `Reassembly.EvictGopOk` | ReCapABR/sim_transport/sim_receiver.c:69-96 | dropping a group of pictures keeps the cache well formed and removes exactly the frames up to its new floor |
| `Reassembly.EvictGopStops` | ReCapABR/sim_transport/sim_receiver.c:69-96 | the floor rises to just below the next key frame behind the first frame, and if there is none before the newest frame nothing changes at all |
| `Reassembly.PutOk` | ReCapABR/sim_transport/sim_receiver.c:271-323 | a put keeps the cache well formed, never lowers the floor, and takes a segment if and only if it is announced within its frame, above the floor and not there yet |
| `Reassembly.GetOk` | ReCapABR/sim_transport/sim_receiver.c:399-485 | a get keeps the cache well formed and hands out a frame if and only if playback runs and the frame directly above the floor is due and full; that frame becomes the floor, and exactly the later frames remain |
| `Playback.RunDelivers` | ReCapABR/sim_transport/sim_receiver.c:271-485 | over every run of reordered or duplicated arrivals and fetches, each delivered frame has the bytes that were sent when the buffer fits, and delivered frame numbers strictly increase |
| `Playback.FullMeansAllArrived` | ReCapABR/sim_transport/sim_receiver.c:271-323 | over every run a slot above the floor is full if and only if each of its segments has arrived |
| `PlaybackFloors.RingHolds` | ReCapABR/sim_transport/sim_receiver.c:252-323 | over every run the ring holds exactly the frames above the floor of which a segment arrived, each with the type and time it was sent with |
| `PlaybackFloors.NewestArrived` | ReCapABR/sim_transport/sim_receiver.c:252-269 | over every run the newest frame number is the largest of which a segment arrived |
| `PlaybackFloors.FetchServes` | ReCapABR/sim_transport/sim_receiver.c:399-485 | in every run a fetch with a long backlog first moves the floor to just below the first frame, from two above the floor and before the newest one, of which a segment arrived and which was sent as a key frame, if there is one; then it hands out the frame above the floor exactly when it is due and all its segments arrived |
| `PlaybackFloors.ArrivalMovesFloor` | ReCapABR/sim_transport/sim_receiver.c:252-323 | in every run the first segment of all sets the floor just below its frame, one that finds the ring full drops what lies before the first key frame that arrived, or before the newest frame without one, and any other drops nothing |
| `PlaybackFloors.FloorOfIds` | ReCapABR/sim_transport/sim_receiver.c:47-67 | in every run the floor of packet ids is the last packet, as sent, of the newest frame that the latest step removed, and stays while a step removes none |
| `FrameRings.FrameRing.PutSegment` | ReCapABR/sim_transport/sim_receiver.c:271-323 | the ring of 1024 slots does to its contents what Put does to the finite map of frames, and accepts the same segments; RingHolds and ArrivalMovesFloor say what Put stores and drops |
| `FrameRings.FrameRing.DropGop` | ReCapABR/sim_transport/sim_receiver.c:69-96 | the eviction loops on the ring remove the same frames as on the map |
| `FrameRings.FrameRing.MakeRoom` | ReCapABR/sim_transport/sim_receiver.c:252-269 | making room for a new number evicts the same frames as on the map |
| `FrameRings.FrameRing.Take` | ReCapABR/sim_transport/sim_receiver.c:399-485 | the get on the ring, with its copy loop, returns what the get on the map returns |
| `FrameRings.SlotIsOwn` | ReCapABR/sim_transport/sim_receiver.c:271-323 | inside a window of 1024 numbers a slot can only hold the frame that is asked for |
| `RetransmissionRuns.LostIsStillHeld` | ReCapABR/sim_transport/sim_sender.c:379-414 | over every run with delayed, reordered, duplicated and lost messages, each id in the receiver's loss list is still in the sender's index unless it was evicted by age or by a key frame request |
| `RetransmissionRuns.ReportedLossIsResent` | ReCapABR/sim_transport/sim_sender.c:416-436 | in every run, when an acknowledgement in flight is accepted, each loss it reports that still is one is sent again as soon as the timers permit, unless the packet was dropped by age or by a key frame request |
| `RetransmissionRuns.BaseNeverDecreases` | ReCapABR/sim_transport/sim_receiver.c:714-730 | over every run the acknowledged base never decreases |
| `RetransmissionRuns.UnlistedHasArrived` | ReCapABR/sim_transport/sim_receiver.c:649-689 | as long as no key frame request cleared the list, every id above the base and up to the newest one that is not listed as lost has arrived |
| `RetransmissionRuns.AcknowledgedIsNotLost` | ReCapABR/sim_transport/sim_receiver.c:735-807 | nothing acknowledged by any message in flight is listed as lost, and the sender's base never passes the receiver's |
| `RetransmissionRuns.OffsetIsExact` | ReCapABR/sim_transport/sim_receiver.c:735-807 | a 16-bit offset in an acknowledgement names the id it was made from if and only if the id is less than 65536 above the base |
| `RetransmissionRuns.RefusedIsOld` | ReCapABR/sim_transport/sim_receiver.c:809-839 | a segment that the frame cache refuses is never beyond the newest id seen |
| `RetransmissionRuns.StepKeeps` | ReCapABR/sim_transport/sim_sender.c:306-414 | every action of either side and of the network keeps the invariant that ties the sender's caches, the messages in flight, the loss list and the frame cache together |
| `AcknowledgementRuns.AcknowledgeMovesBase` | ReCapABR/sim_transport/sim_receiver.c:714-807 | in every reachable state the acknowledgement made carries the greatest possible base: the newest id if no loss above the floor of the ring is listed, else just below the first such loss; no loss up to that floor stays listed; it asks for exactly the losses chosen, unless they are given up for a key frame, and it covers the last 20 ids taken since the one before |
| `AcknowledgementRuns.DeliveryReleases` | ReCapABR/sim_transport/sim_sender.c:379-414 | in every run an acknowledgement leaves the sender holding exactly the ids above its base that it does not name, and one made for an id never issued changes nothing |
| `AcknowledgementRuns.DeliveryResends` | ReCapABR/sim_transport/sim_sender.c:416-436 | in every run exactly the reported losses that the sender still holds and its timers let go are sent again |
| `AcknowledgementRuns.BaseReleases` | ReCapABR/sim_transport/sim_sender.c:379-395 | the base in a feedback message releases everything up to it and nothing else |
| `AcknowledgementRuns.CaughtUpReleasesAll` | ReCapABR/sim_transport/sim_receiver.c:714-807 | an acknowledgement made while no loss above the floor of the ring is listed, delivered at whatever later time, leaves the sender holding no id up to the newest one that the receiver had seen |
| `ArrivalRuns.ArrivalMoves` | ReCapABR/sim_transport/sim_receiver.c:649-689 | in every reachable state, what one arrival makes of base, newest id, newest time and losses, in terms of the frames sent: the first segment seats the base before its key frame, a later one takes its id out of the losses and adds exactly the ids between the newest and it, and one more than three seconds newer, or a slow link, clears them |
| `EvictionRuns.AgeOutReleases` | ReCapABR/sim_transport/sim_sender.c:477-495 | in every run whose frames are put in the order of their times, a held packet survives the age limit if and only if its frame is less than six seconds old |
| `RetransmissionEnds.SimReceiver.NoteLoss` | ReCapABR/sim_transport/sim_receiver.c:649-689 | the loop over the gap takes the arrival out of the loss list and adds exactly the ids between it and the newest one, or clears the list when a key frame is asked for instead |
| `RetransmissionEnds.SimReceiver.InternalPut` | ReCapABR/sim_transport/sim_receiver.c:809-839 | handling one segment turns the receiver into Receive of it, the function the run lemmas are about, and reports whether the cache took the segment |
| `RetransmissionEnds.SimReceiver.Rebase` | ReCapABR/sim_transport/sim_receiver.c:714-730 | the loop over the losses makes of base and losses what UpdateBase does, of which AcknowledgeMovesBase says that the base is the greatest possible |
| `RetransmissionEnds.SimReceiver.SendAck` | ReCapABR/sim_transport/sim_receiver.c:691-807 | the message built holds the base, the reported losses and the acknowledged ids as 16-bit offsets |
| `RetransmissionEnds.SimSender.PutVideo` | ReCapABR/sim_transport/sim_sender.c:306-377 | after cutting, numbering and caching a frame both caches hold exactly its segments more, and the counters name its last id |
| `RetransmissionEnds.SimSender.AdvanceBase` | ReCapABR/sim_transport/sim_sender.c:379-395 | the trimming loop drops exactly the ids up to the new base |
| `RetransmissionEnds.SimSender.HandleAck` | ReCapABR/sim_transport/sim_sender.c:397-436 | an acknowledgement that names no unissued id is accepted, removes exactly the acknowledged ids, and resends exactly the reported ids above the base that are held and due |
| `RetransmissionEnds.SimSender.EvictCache` | ReCapABR/sim_transport/sim_sender.c:477-495 | the eviction loop removes exactly the oldest segments that reached their age limit |
| `SampleAllocatorRuns.NoWakeupIsLost` | ReCapABR/sim_test/echo/baseclasses/amfilter.cpp:4731-4966 | over every interleaving of threads, while a sample is free or after a decommit the semaphore holds a credit for every waiter if and only if no more waits were lost than calls timed out, and none is lost if and only if no release of the run exceeds the maximum of the semaphore |
| `SampleAllocatorRuns.WaitEquation` | ReCapABR/sim_test/echo/baseclasses/amfilter.h:1392-1426 | announced, credited and lost waits add up to the waiters plus the calls that returned with a timeout, so until the 32-bit count wraps the documented equation holds if and only if as many calls timed out as waits were lost |
| `SampleAllocatorRuns.SelfReference` | ReCapABR/sim_test/echo/baseclasses/amfilter.cpp:4882-4966 | the allocator holds its self-reference exactly while committed or finishing a decommit, and only in the latter with samples outstanding |
| `SampleAllocatorRuns.SamplesAreExclusive` | ReCapABR/sim_test/echo/baseclasses/amfilter.cpp:4731-4785 | a buffer handed out was free, is not out already, and free and outstanding buffers add up to the total |
| `SampleAllocatorRuns.WaitersCanLeaveIff` | ReCapABR/sim_test/echo/baseclasses/amfilter.cpp:4921-4966 | after a decommit, in any run, all waiters can be let through with no help from other threads if and only if no more waits were lost than calls timed out |
| `SampleAllocatorRuns.PollingLosesWakeup` | ReCapABR/sim_test/echo/baseclasses/amfilter.cpp:4872-4879 | for every number of polls with the no-wait flag before a thread waits and the only sample is released: the waiter is left without a credit, beside a free sample, if and only if the 32-bit count of announced waits has wrapped to 0 or below, and 2 to the 31 less 1 is the least such number |
| `SampleAllocatorRuns.StepLoses` | ReCapABR/sim_test/echo/baseclasses/amfilter.cpp:4872-4879 | of all actions exactly the releases beyond the maximum of the semaphore lose waits |
| `SampleAllocatorRuns.CommittedOwnsWhatWasAsked` | ReCapABR/sim_test/echo/baseclasses/amfilter.cpp:4882-4917 | over every interleaving a committed allocator owns as many samples, free or handed out, as were last asked for |
| `SampleAllocatorRuns.AnswersAreRight` | ReCapABR/sim_test/echo/baseclasses/amfilter.cpp:4882-5219 | in every reachable state a commit succeeds exactly when the allocator is committed, is finishing a decommit, or can be given all the samples last asked for, and new properties are taken exactly while it is not committed and no sample is out |
| `SampleAllocators.BaseAllocator.GetLocked` | ReCapABR/sim_test/echo/baseclasses/amfilter.cpp:4731-4785 | on the linked free list the locked part hands out the head, announces a wait, or refuses when not committed, as TryGet does on values |
| `SampleAllocators.BaseAllocator.ReleaseBuffer` | ReCapABR/sim_test/echo/baseclasses/amfilter.cpp:4791-4841 | releasing puts the sample back, wakes the waiters, and completes a pending decommit when the last one returns |
| `SampleAllocators.BaseAllocator.NotifySample` | ReCapABR/sim_test/echo/baseclasses/amfilter.cpp:4872-4879 | turns every announced wait into a credit, unless the release exceeds what the semaphore can count |
| `SampleAllocators.BaseAllocator.Commit` | ReCapABR/sim_test/echo/baseclasses/amfilter.cpp:4882-4917 | refines Commit on values: a pending decommit is called off, otherwise samples are allocated, and only if that succeeds is it committed and the self-reference taken; the result says whether it succeeded |
| `SampleAllocators.BaseAllocator.Decommit` | ReCapABR/sim_test/echo/baseclasses/amfilter.cpp:4921-4966 | decommits at once or leaves the decommit pending, and wakes all waiters |
| `SampleAllocators.BaseAllocator.Add` | ReCapABR/sim_test/echo/baseclasses/amfilter.h:1353-1390 | links a sample in front of the free list |
| `SampleAllocators.BaseAllocator.RemoveHead` | ReCapABR/sim_test/echo/baseclasses/amfilter.h:1353-1390 | takes the head of the free list |
| `SampleAllocators.BaseAllocator.AllocSamples` | ReCapABR/sim_test/echo/baseclasses/amfilter.cpp:5122-5219 | replaces the samples by as many as memory allows and fails if fewer than asked |
| `SampleAllocators.BaseAllocator.SetProperties` | ReCapABR/sim_test/echo/baseclasses/amfilter.cpp:5084-5111 | is refused as already committed, or as having buffers outstanding, and otherwise sets the count |
| `PinRuns.BlockStateIsConsistent` | ReCapABR/sim_test/echo/baseclasses/amfilter.cpp:4483-4517 | over every interleaving a blocked pin has no user, a pending block has a user and a request to notify, and the unblock event is signalled exactly while the pin is not blocked |
| `PinRuns.RequestsAreNotifiedOnce` | ReCapABR/sim_test/echo/baseclasses/amfilter.cpp:4071-4165 | each accepted block request is notified exactly once, by blocking or by cancellation, except the one still pending, and no other is |
| `PinRuns.WaitersCanEnter` | ReCapABR/sim_test/echo/baseclasses/amfilter.cpp:4167-4228 | while the pin is not blocked every waiting thread can get in with no help from other threads |
| `PinRuns.RepliesAreRight` | ReCapABR/sim_test/echo/baseclasses/amfilter.cpp:4071-4165 | in every reachable state a block request is accepted exactly when no block stands and its handle could be duplicated, and is told whether the standing block is its own thread's; an unblock is accepted exactly when a block stands, pending or done |
| `PinRuns.CancelUnblocks` | ReCapABR/sim_test/echo/baseclasses/amfilter.cpp:4137-4165 | in every reachable state an unblock leaves no block and no request, signals the event, and notifies the request that was pending, if any |
| `PinRuns.UnblockLetsAllIn` | ReCapABR/sim_test/echo/baseclasses/amfilter.cpp:4137-4228 | from every reachable state, a blocked pin included, one unblock followed by moves of the waiting threads alone lets all of them in |
| `PinRuns.StartingThreadIsAdmitted` | ReCapABR/sim_test/echo/baseclasses/amfilter.cpp:4167-4228 | in every reachable state a thread that wants to use the pin is in at once, unless the pin is blocked, when it waits |
| `PinRuns.UsersLeaveToBlock` | ReCapABR/sim_test/echo/baseclasses/amfilter.cpp:4230-4247 | while a block stands, the users leaving ends in a blocked pin whose request was notified |
| `PinRuns.StopFreesWaiters` | ReCapABR/sim_test/echo/baseclasses/amfilter.cpp:4167-4228 | once the stop event is set every thread parked at a blocked pin can leave |
| `OutputPins.DynamicOutputPin.RequestBlock` | ReCapABR/sim_test/echo/baseclasses/amfilter.cpp:4071-4112 | refines RequestBlock: refused when blocked, pending or without a handle, pending while the pin is in use, else blocked and notified at once |
| `OutputPins.DynamicOutputPin.Unblock` | ReCapABR/sim_test/echo/baseclasses/amfilter.cpp:4137-4165 | refines Unblock, of which CancelUnblocks and RepliesAreRight say what it does in every run |
| `OutputPins.DynamicOutputPin.TryStartUsing` | ReCapABR/sim_test/echo/baseclasses/amfilter.cpp:4167-4228 | one pass of the loop admits the thread unless the pin is blocked |
| `OutputPins.DynamicOutputPin.StopUsing` | ReCapABR/sim_test/echo/baseclasses/amfilter.cpp:4230-4247 | the last user to leave turns a pending block into a block and notifies it |
| `AdviseLists.AdviseIsExact` | ReCapABR/sim_test/echo/baseclasses/schedule.cpp:143-186 | every advise is signalled at precisely its due times up to now and is left settled: gone, or moved behind now |
| `AdviseLists.PeriodicTimes` | ReCapABR/sim_test/echo/baseclasses/schedule.cpp:143-186 | a periodic advise due at e with period p is signalled floor((now - e) / p) + 1 times, at e, e + p and so on, and moved to its first time after now |
| `AdviseLists.AdviseIsOrdered` | ReCapABR/sim_test/echo/baseclasses/schedule.cpp:143-186 | signals come in order of due time, what remains is sorted, due after now and uniquely numbered, and the number of signals is what was owed |
| `AdviseLists.ServedPays` | ReCapABR/sim_test/echo/baseclasses/schedule.cpp:143-186 | each round of the loop pays exactly one of the signals owed, which is why the loop ends |
| `AdviseLists.AdviseEnds` | ReCapABR/sim_test/echo/baseclasses/schedule.cpp:143-186 | the loop ends after one round for each signal owed |
| `AdviseLists.AdviseEndsIff` | ReCapABR/sim_test/echo/baseclasses/schedule.cpp:143-186 | for every sorted list with unique cookies, the loop ends if and only if every due periodic advise has a positive period |
| `AdviseLists.StuckNeverEnds` | ReCapABR/sim_test/echo/baseclasses/schedule.cpp:143-186 | a due periodic advise whose period is not positive keeps the loop going for ever |
| `AdviseLists.AddedKeeps` | ReCapABR/sim_test/echo/baseclasses/schedule.cpp:190-215 | adding keeps order and unique cookies, and finds the new advise and every old one under its cookie |
| `AdviseLists.CancelledKeeps` | ReCapABR/sim_test/echo/baseclasses/schedule.cpp:114-141 | cancelling forgets exactly one cookie and keeps order and uniqueness |
| `AdviseLists.RunKeeps` | ReCapABR/sim_test/echo/baseclasses/schedule.cpp:77-262 | every run of adding, cancelling and serving keeps the list sorted and its cookies unique and issued |
| `AdviseLists.AdvisesAreIndependent` | ReCapABR/sim_test/echo/baseclasses/schedule.cpp:77-262 | in every run each advise lives as if it were alone: from when it is added it is signalled at exactly its own due times, and what is left of it is what they and its cancellation say, whatever else is added, cancelled or served |
| `AdviseSchedules.LinkIn` | ReCapABR/sim_test/echo/baseclasses/schedule.cpp:190-215 | linking a packet behind node k of the chain between the sentinels gives the chain with the packet at place k |
| `AdviseSchedules.LinkOut` | ReCapABR/sim_test/echo/baseclasses/schedule.cpp:114-141 | unlinking the packet behind node k gives the chain without it, and the packet is outside the chain |
| `AdviseSchedules.AMSchedule.AddAdvise` | ReCapABR/sim_test/echo/baseclasses/schedule.cpp:77-112 | numbers a new or cached packet, puts it before those of the same time, and asks for a wakeup exactly when it became the head |
| `AdviseSchedules.AMSchedule.Unadvise` | ReCapABR/sim_test/echo/baseclasses/schedule.cpp:114-141 | removes the packet with the cookie, if any, and says whether it was there |
| `AdviseSchedules.AMSchedule.Advise` | ReCapABR/sim_test/echo/baseclasses/schedule.cpp:143-186 | the linked list becomes, and the signals are, those of Advised, the function AdviseIsExact and AdviseIsOrdered are about, and the returned time is that of the next advise, later than now |
| `AdviseSchedules.AMSchedule.ShuntHead` | ReCapABR/sim_test/echo/baseclasses/schedule.cpp:232-262 | moves the head packet behind all packets of its time in the linked list |
| `AdviseSchedules.AMSchedule.Delete` | ReCapABR/sim_test/echo/baseclasses/schedule.cpp:217-228 | keeps at most five unused packets, each once, and never one that is in the list |
| `MulDiv.LlMulDiv` | ReCapABR/sim_test/echo/baseclasses/arithutil.cpp:77-241 | for all 64-bit inputs the result is (a * b + d) / c rounded toward zero, cut to 64 bits, or the saturated value when the magnitude needs more than 64 bits or c is 0 |
| `WideArithmetic.ExactIffItFits` | ReCapABR/sim_test/echo/baseclasses/arithutil.cpp:77-241 | the result equals the quotient if and only if the quotient fits in a signed 64-bit word |
| `WideArithmetic.MiddleRangeFlipsSign` | ReCapABR/sim_test/echo/baseclasses/arithutil.cpp:199-240 | a quotient whose magnitude has exactly 64 bits comes back with the wrong sign instead of saturated |
| `WideArithmetic.LargeQuotientsSaturate` | ReCapABR/sim_test/echo/baseclasses/arithutil.cpp:184-188 | a quotient beyond 64 bits gives the nearest representable value |
| `WideArithmetic.TruncatedMeaning` | ReCapABR/sim_test/echo/baseclasses/arithutil.cpp:77-241 | the quotient leaves a remainder smaller than the divisor and of the sign of the dividend |
| `MulDiv.LongMultiply` | ReCapABR/sim_test/echo/baseclasses/arithutil.cpp:88-109 | the four partial products give the exact 128-bit product, and the sum of the cross products never leaves 64 bits |
| `MulDiv.AddSigned` | ReCapABR/sim_test/echo/baseclasses/arithutil.cpp:111-175 | the two's complement addition of d and the negation give magnitude and sign of a * b + d |
| `MulDiv.ExtendedAdd` | ReCapABR/sim_test/echo/baseclasses/arithutil.cpp:132-157 | the addition by double words with carries is the sum modulo 2 to the 128 |
| `MulDiv.Negate` | ReCapABR/sim_test/echo/baseclasses/arithutil.cpp:160-170 | complement and increment give the two's complement of a 128-bit word |
| `MulDiv.DivideByDword` | ReCapABR/sim_test/echo/baseclasses/arithutil.cpp:199-235 | the two short divisions give the quotient for a divisor of 32 bits |
| `MulDiv.LongDivide` | ReCapABR/sim_test/echo/baseclasses/arithutil.cpp:218-240 | the 64 rounds of shift, compare and subtract give the quotient for any divisor |
| `MulDiv.OverflowTest` | ReCapABR/sim_test/echo/baseclasses/arithutil.cpp:183-188 | comparing the divisor with the high word decides whether the quotient has more than 64 bits |
| `MulDiv.Int64x32Div32` | ReCapABR/sim_test/echo/baseclasses/arithutil.cpp:243-360 | the same for the 96-bit routine, with its skipped first division step |
| `WindowFilters.RunsKeepEstimates` | ReCapABR/bbr/windowed_filter.c:54-101 | over every run with times that do not decrease, resets and resizes, for either comparator, the three estimates are ordered best first and oldest first, and each is a sample that nothing fed at or after it beats, never the zero that a start or a reset leaves once a sample was fed |
| `WindowFilters.RunsStayInWindow` | ReCapABR/bbr/windowed_filter.c:54-101 | after every update the best estimate is no older than the window |
| `WindowFilters.UpdateMarks` | ReCapABR/bbr/windowed_filter.c:54-101 | an update moves the three estimates only forward in the history |
| `WindowFilters.AlwaysExactIff` | ReCapABR/bbr/windowed_filter.c:54-101 | for any window, comparator and d: in all runs of nonzero samples that span at most d the best is the exact extremum of the window if and only if d is at most the window, or at most one more in a window below 4, or the window is 0 or less |
| `WindowFilters.UpdateIsExactIff` | ReCapABR/bbr/windowed_filter.c:54-101 | while the best has not expired an update loses nothing, and when it has, the new best is exact if and only if no sample still inside the window that came between the old and the new best beats the new one |
| `WindowFilters.ShortRunsAreExact` | ReCapABR/bbr/windowed_filter.c:54-101 | in every run, resets and resizes included, while the nonzero samples since the last reset span no more than the window the best beats or equals every one of them |
| `WindowFilters.LostBesideBest` | ReCapABR/bbr/windowed_filter.c:54-101 | in any positive window, for either comparator, a run exists in which the best is beaten by a sample of age 1 |
| `WindowFilters.LostNextToBest` | ReCapABR/bbr/windowed_filter.c:54-101 | in any window of 4 or more, a run over a span of one more than the window exists whose best is not exact |
| `WindowedFilters.WindowedFilter.Update` | ReCapABR/bbr/windowed_filter.c:54-101 | the branches that overwrite and shift the array refine Updated, the function the run lemmas are about |
| `WindowedFilters.WindowedFilter.Reset` | ReCapABR/bbr/windowed_filter.c:35-42 | all three estimates become the given sample |
| `BbrRuns.RunKeeps` | ReCapABR/bbr/bbr_controller.c:386-459 | over every run of sends and feedbacks the congestion window stays in its bounds, the recovery window is at least the minimum, both gains and the cycle offset agree with the mode, and STARTUP implies that full bandwidth was not reached |
| `BbrRuns.EffectiveWindowIsBounded` | ReCapABR/bbr/bbr_controller.c:372-384 | over every run the window told to the sender is at least the minimum, and at most the maximum outside PROBE_RTT |
| `BbrRuns.FeedbackMovesWindow` | ReCapABR/bbr/bbr_controller.c:779-806 | across all transitions of a feedback the window rises by at most the bytes acked, never falls before full bandwidth, and stays in PROBE_RTT |
| `BbrRuns.WindowGrowsByAcks` | ReCapABR/bbr/bbr_controller.c:779-806 | over every run the window is at most its start plus all bytes acked |
| `BbrTargets.FeedbackSetsWindow` | ReCapABR/bbr/bbr_controller.c:779-806 | the window after any feedback, in numbers: at full bandwidth the old one plus the bytes acked, but at most gain times least round-trip time times bandwidth estimate, rounded down, plus the ack height; before, it grows exactly while it is below that product or fewer bytes than 32 packets were acked in all; always within 4 and 2000 packets, and unchanged in PROBE_RTT |
| `BbrTargets.FullWindowIsCapped` | ReCapABR/bbr/bbr_controller.c:779-806 | over every run, at full bandwidth in PROBE_BW the window after a feedback is at most twice that product, or 4 packets, plus the ack height |
| `BbrTargets.EffectiveWindowIs` | ReCapABR/bbr/bbr_controller.c:372-384 | over every run the sender is told three quarters of the product in PROBE_RTT, the window outside recovery, and the smaller window in recovery |
| `BbrTargets.FeedbackSetsRecoveryWindow` | ReCapABR/bbr/bbr_controller.c:809-834 | the recovery window after any feedback: what is in flight and acked when recovery begins, then less the bytes lost, and more by the bytes acked in GROWTH only, with room for what is in flight and acked |
| `BbrTargets.FeedbackMovesCycle` | ReCapABR/bbr/bbr_controller.c:575-606 | a feedback in PROBE_BW goes on to the next of the eight phases exactly when the present one ends: after a round trip, the raising phase only with losses or enough in flight, the draining one also as soon as the flight is down; the pacing gain is that of the phase |
| `BbrEstimates.MinRttIsLeast` | ReCapABR/bbr/bbr_controller.c:524-572 | over every run the minimal round-trip time is the least of those fed since it last expired or started, and at least 5 |
| `BbrEstimates.EstimateIsRecentBest` | ReCapABR/bbr/bbr_controller.c:524-572 | over every run the bandwidth estimate is a sample that counted, not more than ten rounds older than the last, that no sample fed since beats, with rounds counted from the packets sent and acked |
| `BbrEstimates.SmallestRttIs` | ReCapABR/bbr/bbr_controller.c:524-572 | the round-trip time of a feedback is the least positive one of its packets, and there is none exactly when no packet has a positive one |
| `BbrRuns.RecoveryWindowMoves` | ReCapABR/bbr/bbr_controller.c:809-834 | the recovery window leaves room for what is in flight and just acked, grows by at most the bytes acked, and outside GROWTH shrinks by exactly the bytes lost above its floors |
| `BbrRuns.RecoveryMoves` | ReCapABR/bbr/bbr_controller.c:690-721 | across all transitions of a feedback, recovery is entered exactly by losses, left exactly without losses by an ack beyond the last one that came with losses, and otherwise moves to GROWTH exactly at a round start |
| `BbrRuns.MediumGrowthIsDead` | ReCapABR/bbr/bbr_controller.c:690-721 | no run reaches the recovery state MEDIUM_GROWTH |
| `BbrRuns.ProbeBwIsNotEnteredDraining` | ReCapABR/bbr/bbr_controller.c:479-490 | a feedback that enters PROBE_BW never leaves the cycle at offset 1, for any outcome of the random draw |
| `BbrRuns.LeavingProbeRtt` | ReCapABR/bbr/bbr_controller.c:650-688 | in every run PROBE_RTT is left only by a feedback at least 200 ms after the bytes in flight were first found low in that phase, with a round start after that |
| `BbrModes.FeedbackMovesMode` | ReCapABR/bbr/bbr_controller.c:386-459 | the mode after any feedback across all its transitions: PROBE_RTT is left exactly at its end, to PROBE_BW or STARTUP as full bandwidth was found or not, and entered exactly when the minimal round-trip time has expired and the sender was not quiescent; STARTUP goes to DRAIN when full bandwidth is found or the round-trip time exceeds the threshold, and both to PROBE_BW once the flight is down to the product, at the drawn one of seven offsets; full bandwidth is found exactly by a third round without growth by a quarter, or one in recovery; the timer of PROBE_RTT, the mark of the last losses and the round-trip time that decide about it are given too |
| `BbrModes.QuiescentUntilFeedback` | ReCapABR/bbr/bbr_controller.c:287-296 | over every run the sender counts as quiescent exactly from a send that found it so to the next feedback |
| `BbrRuns.StepMoves` | ReCapABR/bbr/bbr_controller.c:650-688 | what each feedback does to the timing of a PROBE_RTT phase, including exactly when it ends |
| `ProbeRttPhases.PhaseLasts` | ReCapABR/bbr/bbr_controller.c:650-688 | any sequence of such steps that ends a phase waited 200 ms from the first low flight and for a round start after it |
| `BbrStartup.StartupEnds` | ReCapABR/bbr/bbr_controller.c:609-647 | as long as full bandwidth is not reached let each round that is not app-limited begin with an estimate in 4..top: after 4 + 3 * Gains(4, top) such rounds full bandwidth is reached and STARTUP is left |
| `BbrStartup.BoundIsReached` | ReCapABR/bbr/bbr_controller.c:609-629 | for every top of at least 4 there is such a run that makes one round less without full bandwidth, so the bound is the least, and one more round meets it |
| `BbrStartup.StartupIffNotFull` | ReCapABR/bbr/bbr_controller.c:631-647 | while no round-trip time exceeds the exit threshold, in every reachable state outside PROBE_RTT the mode is STARTUP if and only if full bandwidth was not reached |
| `BbrStartup.FullStays` | ReCapABR/bbr/bbr_controller.c:435-439 | full bandwidth, once reached, stays for the rest of the run |
| `BbrStartup.CheckSpends` | ReCapABR/bbr/bbr_controller.c:609-629 | each check either reaches full bandwidth or uses up part of a bound that only depends on the growth recorded |
| `BbrStartup.GainsAreFew` | ReCapABR/bbr/bbr_controller.c:609-629 | the number of possible gains is at most linear in the highest estimate |
| `BbrStartup.ConstantEstimate` | ReCapABR/bbr/bbr_controller.c:609-629 | with an unchanging estimate full bandwidth is reached if and only if the estimate is at least 4, because 1.25 times less rounds down to itself |
| `BbrControllers.BbrController.Receive` | ReCapABR/bbr/bbr_controller.c:386-459 | one feedback turns the object into OnFeedback of its state, the function every run lemma is about: the order of the transitions and the reuse of their results |
| `BbrControllers.BbrController.UpdateBandwidthAndMinRtt` | ReCapABR/bbr/bbr_controller.c:524-572 | the loop over the acked packets and the updates after it refine Measure: smallest positive round-trip time, filter, minimum and its expiry |
| `BbrControllers.BbrController.UpdateRecoveryState` | ReCapABR/bbr/bbr_controller.c:690-721 | the recovery automaton with its fall-through cases refines UpdateRecovery |
| `BbrControllers.BbrController.UpdateGainCyclePhase` | ReCapABR/bbr/bbr_controller.c:575-606 | refines AdvanceCycle: the cycle advances after a round-trip time, held back while probing is incomplete and hurried once drained |
| `BbrControllers.BbrController.CheckIfFullBandwidthReached` | ReCapABR/bbr/bbr_controller.c:609-629 | refines CheckFull, the function StartupEnds counts |
| `BbrControllers.BbrController.MaybeExitStartupOrDrain` | ReCapABR/bbr/bbr_controller.c:631-647 | refines LeaveStartupOrDrain, which may pass both modes in one feedback |
| `BbrControllers.BbrController.MaybeEnterOrExitProbeRtt` | ReCapABR/bbr/bbr_controller.c:650-688 | refines EnterOrExitProbeRtt, the function LeavingProbeRtt is about |
| `BbrControllers.BbrController.CalculateCongestionWindow` | ReCapABR/bbr/bbr_controller.c:779-806 | refines CalculateWindow, of which FeedbackSetsWindow says in numbers what it makes of the window |
| `BbrControllers.BbrController.CalculateRecoveryWindowNow` | ReCapABR/bbr/bbr_controller.c:809-834 | refines CalculateRecoveryWindow, including the comparison of the window with the number of a state |
| `BbrControllers.BbrController.GetWindow` | ReCapABR/bbr/bbr_controller.c:372-384 | returns the window of the mode and the recovery state |
| `ConfidenceCurves.TargetIsAlmostLeast` | ReCapABR/sim_test/sim_sender/confidence.cpp:281-320 | no bitrate more than one below the raised target meets the threshold, on any row whose segment can be inverted |
| `ConfidenceCurves.TargetIsLeastIff` | ReCapABR/sim_test/sim_sender/confidence.cpp:281-320 | the raised target is the least bitrate that meets the threshold if and only if the slack of 1e-9 does not carry the crossing over the next whole number |
| `ConfidenceCurves.WholeCrossingOvershoots` | ReCapABR/sim_test/sim_sender/confidence.cpp:319-320 | a crossing at a whole bitrate is overshot by one |
| `ConfidenceCurves.BelowCrossing` | ReCapABR/sim_test/sim_sender/confidence.cpp:106-125 | left of the crossing no bitrate meets the threshold, for any row |
| `ConfidenceCurves.AboveCrossing` | ReCapABR/sim_test/sim_sender/confidence.cpp:106-125 | from the crossing to the tier that meets the threshold every bitrate meets it, for any row |
| `ConfidenceCurves.CapHolds` | ReCapABR/sim_test/sim_sender/confidence.cpp:186-348 | the adjusted bitrate never exceeds the congestion cap, for any row |
| `ConfidenceCurves.ResultMeetsThreshold` | ReCapABR/sim_test/sim_sender/confidence.cpp:186-348 | on a row that does not fall the result meets the threshold unless it is the cap or no tier meets it |
| `ConfidenceCurves.FallsOnlyToCap` | ReCapABR/sim_test/sim_sender/confidence.cpp:186-348 | on a row that does not fall the bitrate drops if and only if it was above the cap |
| `ConfidenceCurves.NeverDropsIffRising` | ReCapABR/sim_test/sim_sender/confidence.cpp:186-348 | exactly the rows that do not fall never lower a bitrate within the cap, whatever the threshold, for tiers at least 2 apart |
| `ConfidenceCurves.ClimbsOneTier` | ReCapABR/sim_test/sim_sender/confidence.cpp:255-274 | while no tier meets the threshold a bitrate within the cap rises to the smaller of the cap and the next tier above it, strictly as long as it is below the cap and the last tier, and no tier lies in between |
| `ConfidenceCurves.AdjustmentSettles` | ReCapABR/sim_test/sim_sender/confidence.cpp:186-348 | with unchanging inputs every bitrate is fixed after as many adjustments as there are tiers, on any row; if no tier meets the threshold and it started within the cap, it ends at the larger of its start and the smaller of cap and last tier |
| `ConfidenceControllers.ConfidenceController.AdjustBitrate` | ReCapABR/sim_test/sim_sender/confidence.cpp:186-348 | the method chooses the row of the frame and returns what Adjusted, the function the lemmas on curves are about, makes of the bitrate, or the smaller bitrate for an empty table |
| `ConfidenceControllers.ConfidenceController.GetConfidence` | ReCapABR/sim_test/sim_sender/confidence.cpp:181-184 | interpolates on the row of the frame, never on a stale cache |
| `ConfidenceControllers.ConfidenceController.Load` | ReCapABR/sim_test/sim_sender/confidence.cpp:138-179 | loading replaces the rows and drops the cached ones |
| `ConfidenceControllers.ConfidenceController.InverseAt` | ReCapABR/sim_test/sim_sender/confidence.cpp:289-310 | the branches invert the segment below a tier: its lower end for the first tier, its upper end for a flat one, else the clamped crossing |
| `ConfidenceControllers.ConfidenceController.FindTier` | ReCapABR/sim_test/sim_sender/confidence.cpp:242-248 | the scan finds the first tier that meets the threshold, or -1 |
| `SamplerRuns.RunConserves` | ReCapABR/bbr/bbr_bandwidth_sample.c:108-263 | over every run bytes sent equal bytes acked, dropped, never tracked and still live, and each ring slot in the span holds exactly the live packet of its number |
| `SamplerRuns.FatesAreFinal` | ReCapABR/bbr/bbr_bandwidth_sample.c:135-263 | a packet that was acked, dropped or not tracked stays so, whatever follows |
| `SamplerRuns.AckCreditsLive` | ReCapABR/bbr/bbr_bandwidth_sample.c:226-244 | an ack credits the size of a live packet and nothing for any other, so no packet is credited twice |
| `SamplerRuns.NeverTrackedAgain` | ReCapABR/bbr/bbr_bandwidth_sample.c:166-182 | after one packet more than 10000 ahead of the index no later packet is ever tracked |
| `SamplerRings.ResizeTestIsOffByOne` | ReCapABR/bbr/bbr_bandwidth_sample.c:119-126 | of the numbers the resize test lets into the ring, exactly the one a full ring ahead overwrites the first packet's slot |
| `SamplerRings.SendAgrees` | ReCapABR/bbr/bbr_bandwidth_sample.c:166-182 | sending inside the ring, or too far ahead to be tracked, keeps the ring holding exactly the live packets of the ledger, with equal totals |
| `SamplerRings.RemoveOldAgrees` | ReCapABR/bbr/bbr_bandwidth_sample.c:257-263 | the removal loop drops exactly the live packets below the limit, except the last one tracked |
| `PacketLedgers.BytesAreConserved` | ReCapABR/bbr/bbr_bandwidth_sample.c:166-263 | in the ledger every byte sent has exactly one fate |
| `BandwidthSamplers.BandwidthSampler.OnPacketSent` | ReCapABR/bbr/bbr_bandwidth_sample.c:166-182 | on the array refines Send, so that every run of the object conserves bytes |
| `BandwidthSamplers.BandwidthSampler.OnPacketAcked` | ReCapABR/bbr/bbr_bandwidth_sample.c:226-244 | on the array refines Ack: credit, then removal, and nothing for a number outside the span or an ignored point |
| `BandwidthSamplers.BandwidthSampler.RemovePoint` | ReCapABR/bbr/bbr_bandwidth_sample.c:135-164 | on the array refines Remove: the point is ignored, and the start moves by one if it was the first and not the last |
| `BandwidthSamplers.BandwidthSampler.RemoveOldPoints` | ReCapABR/bbr/bbr_bandwidth_sample.c:257-263 | the loop on the array refines RemoveOld |
| `BandwidthSamplers.BandwidthSampler.GetDataSize` | ReCapABR/bbr/bbr_bandwidth_sample.c:285-301 | returns the size held for a number, or 0 |
| `Unwrapping.RecoveredIffNear` | ReCapABR/common/cf_unwrapper.c:33-48 | a number is recovered from its low part if and only if it is the nearest of its class to the last one, with the ties and the limit at 0 spelled out |
| `Unwrapping.RunRecoversIffSmooth` | ReCapABR/common/cf_unwrapper.c:50-56 | a whole run returns the original sequence if and only if every step of it is near |
| `Unwrapping.SmallStepsAreSmooth` | ReCapABR/common/cf_unwrapper.c:50-56 | a sequence that starts below the modulus and moves by less than half of it qualifies |
| `Unwrapping.UnwrapIsCongruent` | ReCapABR/common/cf_unwrapper.c:33-48 | on any input the result is not negative and has the given low part |
| `Unwrappers.Unwrapper.Wrap16` | ReCapABR/common/cf_unwrapper.c:28-56 | the 16-bit version, computed with signed differences, is the common rule for the modulus 65536 |
| `Unwrappers.Unwrapper.Wrap32` | ReCapABR/common/cf_unwrapper.c:64-91 | the 32-bit version, whose difference is unsigned and never negative, is the same rule for the modulus 2 to the 32 |
| `LossWindows.RunKeeps` | ReCapABR/estimator/cc_loss_stat.c:32-98 | over every run the list holds at most 200 distinct ids in order, none above the highest |
| `LossWindows.ReportIsExactIff` | ReCapABR/estimator/cc_loss_stat.c:46-81 | a report is given exactly when 100 ids are left and the span does not wrap to 0 or below; it has the span, and as its fraction 255 times the ids missing from oldest to highest divided by the span and rounded down, if and only if the span and that product fit 32 bits, or the wrapped product lies above -3 and at most at -2 times the span |
| `LossWindows.MissingIs` | ReCapABR/estimator/cc_loss_stat.c:64-76 | the ids of a span that are not in the list number the span less the list's length |
| `LossWindows.EvictedIs` | ReCapABR/estimator/cc_loss_stat.c:32-44 | eviction leaves the longest end of the list that has at most 200 ids and starts within the age limit |
| `LossWindows.WideSpansOccur` | ReCapABR/estimator/cc_loss_stat.c:32-98 | for every number of strides of 32767 some run ends with 100 ids whose span is that many strides |
| `LossWindows.WideSpanMisreported` | ReCapABR/estimator/cc_loss_stat.c:46-81 | some run ends with 100 ids and a report that is wrong |
| `LossWindows.CalculatedAgain` | ReCapABR/estimator/cc_loss_stat.c:46-81 | asking again at the same time changes nothing and gives the same report |
| `LossStatistics.LossStatistic.Incoming` | ReCapABR/estimator/cc_loss_stat.c:83-98 | refines Incoming: unwraps the number, raises the highest id, inserts the arrival and evicts, keeping the invariant |
| `LossStatistics.LossStatistic.Calculate` | ReCapABR/estimator/cc_loss_stat.c:46-81 | refines Calculated and records the time of the report, if one is given |
| `LossStatistics.LossStatistic.EvictOldest` | ReCapABR/estimator/cc_loss_stat.c:32-44 | the loop removes entries from the front while there are too many or the front is too old |
| `FeedbackCodec.RoundTrip` | ReCapABR/bbr/bbr_common.c:9-46 | decoding an encoded message returns every field its flag says is present and leaves the others |
| `FeedbackCodec.DecodedFits` | ReCapABR/bbr/bbr_common.c:38-45 | whatever the bytes, a decoded message holds at most 128 samplers |
| `FeedbackCodec.EncodeMessage` | ReCapABR/bbr/bbr_common.c:9-25 | the stream afterwards holds exactly the encoding, through any growth of its buffer |
| `FeedbackCodec.DecodeMessage` | ReCapABR/bbr/bbr_common.c:27-46 | reads exactly what Decode takes from the unread bytes, for any bytes |
| `ByteCodec.TakeBack` | ReCapABR/common/cf_stream.c:376-414 | bytes, 16-bit and signed 32-bit numbers read back as written |
| `BinStreams.BinStream.Resize` | ReCapABR/common/cf_stream.c:112-129 | doubling the buffer keeps its bytes and positions |
| `BinStreams.BinStream.Append` | ReCapABR/common/cf_stream.c:170-275 | a write appends exactly its bytes |
| `BinStreams.BinStream.Read2` | ReCapABR/common/cf_stream.c:216-226 | a read takes two bytes, or yields 0 and takes nothing at the end |
| `BinStreams.BinStream.ReadInt4` | ReCapABR/common/cf_stream.c:276-286 | a read takes four bytes as a signed number, or yields 0 and takes nothing at the end |
| `BinStreams.BinStream.Rewind` | ReCapABR/common/cf_stream.c:94-103 | rewinding starts reading again, and drops the contents when asked to |
| `FeedbackBatches.GroupsPartition` | ReCapABR/bbr/bbr_receiver.c:83-122 | every cached arrival is in exactly one message, in order |
| `FeedbackBatches.GroupsAreSmall` | ReCapABR/bbr/bbr_receiver.c:83-122 | every message holds between 1 and 127 arrivals whose numbers lie within 127 of its first |
| `FeedbackBatches.GroupsAreFewest` | ReCapABR/bbr/bbr_receiver.c:83-122 | no way of cutting the arrivals into such groups takes fewer messages |
| `FeedbackBatches.NumbersFollow` | ReCapABR/bbr/bbr_receiver.c:92-95 | inside a message the full numbers follow from the first one and the low 16 bits |
| `BbrReceiverRuns.ReceiverReportsOnce` | ReCapABR/bbr/bbr_receiver.c:54-123 | over every run the low 16 bits of the numbers accepted are, as a multiset, those that the messages sent list together with those of the numbers still cached |
| `BbrReceiverRuns.FlushReportsCache` | ReCapABR/bbr/bbr_receiver.c:83-122 | the messages of one flush list the low 16 bits of exactly the cached numbers, in order |
| `FeedbackRuns.PacketIsHandled` | ReCapABR/bbr/bbr_receiver.c:54-123 | after any run, what one packet does: the loss statistics see it in any case, it is refused exactly while its recovered number waits, and the cache with it is sent exactly at sixteen arrivals, or at three more than ten milliseconds after the last time; then each arrival is listed with its low 16 bits and its age, and each message carries the loss report if there is one |
| `FeedbackRuns.SmoothRunsAreAccepted` | ReCapABR/bbr/bbr_receiver.c:54-81 | from packets that carry the low bits of a smooth sequence of numbers the receiver accepts exactly the numbers of that sequence |
| `FeedbackRuns.ReportTravels` | ReCapABR/bbr/bbr_common.c:9-46 | the reader of an encoded message gets its loss report and its arrivals, whatever it held before |
| `FeedbackRuns.SilenceTravels` | ReCapABR/bbr/bbr_common.c:9-46 | the reader of a message without a report keeps the report it had, and gets the arrivals |
| `BbrReceivers.FlushFits` | ReCapABR/bbr/bbr_receiver.c:83-122 | every message of a flush fits the wire format |
| `BbrReceivers.BbrReceiver.SendAll` | ReCapABR/bbr/bbr_receiver.c:83-119 | the batching loop, with its start number and its message under construction, sends exactly one packet for each group of the partition, in order |
| `BbrReceivers.BbrReceiver.OnPacket` | ReCapABR/bbr/bbr_receiver.c:54-123 | one packet turns the object into OnReceived of its state and sends the encodings of exactly those messages |
| `RoiMaps.DeltaMap` | ZeCoStream/gen_kvazaar_roi.py:180-255 | the raster has ceil(width/ctu) * ceil(height/ctu) entries in 0..25, 18 everywhere without a box, and otherwise each the delta of its unit's distance against the farthest one |
| `RoiMaps.NearerNeverLarger` | ZeCoStream/gen_kvazaar_roi.py:222-253 | a unit no farther from the box than another never gets a larger delta, wherever the two lie |
| `RoiMaps.MapReachesBothEnds` | ZeCoStream/gen_kvazaar_roi.py:232-253 | with base QP 26 units inside the box get 0 and the farthest unit outside gets 25 |
| `RoiMaps.RasterOrder` | ZeCoStream/gen_kvazaar_roi.py:222-230 | entry row * columns + column of the raster belongs to that row and column |
| `RoiMaps.Measure` | ZeCoStream/gen_kvazaar_roi.py:219-230 | the two nested loops measure every unit in raster order and keep the distances of those outside |
| `RoiMaps.ScaledIs` | ZeCoStream/gen_kvazaar_roi.py:200-218 | each edge of the box in pixels lies at its thousandths of its own side of the image, cut to the pixels of that side |
| `RoiMaps.CenterIs` | ZeCoStream/gen_kvazaar_roi.py:149-160 | the centre of a unit is its middle, or the last pixel of the image before that, and lies in the unit and in the image |
| `RoiDeltas.DeltaGrows` | ZeCoStream/gen_kvazaar_roi.py:244-253 | the delta does not fall with the distance, through power, clamping and rounding halves to even |
| `RoiDeltas.InsideIsZero` | ZeCoStream/gen_kvazaar_roi.py:238-253 | inside the box the delta is 0 if and only if the base QP is not negative |
| `RoiDeltas.FarthestIsLargest` | ZeCoStream/gen_kvazaar_roi.py:244-253 | the farthest unit gets 25 if and only if the base QP is at most 26 |
| `RoiDeltas.ZeroIffInside` | ZeCoStream/gen_kvazaar_roi.py:163-177 | the distance is 0 if and only if the point lies in the box |
| `RoiMaps.PointRectDistance` | ZeCoStream/gen_kvazaar_roi.py:163-177 | the branches compute the root of the squared distance to the box |
| `RoiMaps.Resample` | ZeCoStream/gen_kvazaar_roi.py:120-146 | one box for each output frame, the interpolated one at its position |
| `RoiMaps.ResampledIs` | ZeCoStream/gen_kvazaar_roi.py:98-146 | an output frame at x input frames has the first box for x below 1, the last one from the last input frame on, and in between the box as far from the one before to the one after as x lies between their frames, edge by edge, or the one of the two that is there |
| `RoiMaps.ResampledWithin` | ZeCoStream/gen_kvazaar_roi.py:98-146 | boxes that lie in the image and are not inverted stay so at every output frame |

## Left out

- Sockets, threads, timers, file and console I/O, COM reference counting and media types.
- Wrap-around of 32-bit packet and frame ids, and of 64-bit counters, except where a row says so: ids are unbounded in the models.
- The padding bytes, send times and flags of segments, forward error correction, pacing and the estimators of the transport.
- The timers that choose when a lost packet is reported again: any choice of listed losses may be reported, at any time.
- RetransmissionRuns.LostIsStillHeld: needs that frame numbers stay within 1024 of the floor of the ring and ids within 65536 of the base, which the transport itself does not check.
- RetransmissionRuns.UnlistedHasArrived: holds until a key frame request clears the loss list, because the receiver then forgets what is missing.
- AcknowledgementRuns.AcknowledgeMovesBase: what the message names of the ids taken is stated for up to 255 ids since the last acknowledgement, because the receiver counts them in 8 bits and reads fewer than it holds after the count wraps.
- EvictionRuns.AgeOutReleases: frames put out of the order of their times, where an older frame that is still young keeps the ones behind it.
- Playback.RunDelivers: numbers more than 1024 above the floor of the ring, where two frames share a slot, are not modelled.
- The list of discarded losses in the frame cache: its only reader is commented out.
- FrameRings.FrameRing.PutSegment: a segment more than 1024 above the floor, or one that announces another count than its slot, is not modelled, because the original then writes into a slot or past a table that is not the segment's own.
- FrameRings.FrameRing.MakeRoom: the same limit of 1024 above the floor.
- Fragmenter.Splitter.Split: frames of 2 to the 32 pieces or more, whose count the original narrows to 32 bits.
- RetransmissionEnds.SimSender.HandleAck: the timers that let a packet be sent again are an input, and the round-trip time taken from an acknowledgement is not modelled.
- RetransmissionEnds.SimSender.EvictCache: the cache of forward error correction packets is not modelled.
- The allocator's notification callback, its sample properties except the count, their alignment, and the memory block behind the samples.
- The unblock path of the pin through COM interfaces, reconnection and flushing; synchronous blocking is the asynchronous request followed by a wait.
- AdviseSchedules.AMSchedule.Advise: asks that every due periodic advise has a positive period, without which AdviseEndsIff shows that the loop does not end, and that no due time can pass the end sentinel, which the source asserts.
- The event handle of the clock: adding an advise returns whether it would be set.
- The absolute value of the smallest 64-bit number, undefined in C, is taken as two's complement hardware gives it.
- The variant of the two arithmetic routines that is compiled with USE_LARGEINT, and the x86 assembly of the enlarged division.
- The pacing rate, the ack aggregation filter and the round-trip statistics of BBR: the aggregation height is any non-negative number, and configurations other than the default one are not modelled.
- BbrStartup.StartupEnds: runs across a reset of the controller are not covered, because the reset rewinds the round count under the filter.
- Overflow of the bandwidth-delay product in 32 bits, and rounding of gains: gains are real numbers.
- SamplerRuns.RunConserves: covers spans below the ring size of 1024; the resizing of the ring, the rate samples and the app-limited marks are not modelled.
- WindowFilters.AlwaysExactIff: speaks of runs of nonzero samples, because the filter takes a best of 0 for no sample at all; changes of the window are covered by ShortRunsAreExact.
- ConfidenceCurves.NeverDropsIffRising: tiers that are 1 apart are left out, where rounding up past one tier reaches the next and can hide a fall.
- BbrReceiverRuns.ReceiverReportsOnce: compares low 16 bits, which is all that a message carries; NumbersFollow recovers the full numbers inside one message.
- The magic number and the block operations of the byte stream; numbers are stored most significant byte first, which both branches of the byte order test amount to.
- Parsing of the confidence table and the decision log: loading takes the parsed rows.
- Rounding of floating point numbers in the confidence curve and the QP map: both are over the real numbers, the square root is any function with its defining property, and gamma is a natural number.
- Reading the boxes from JSON files and writing the map to a text file.
