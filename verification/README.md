# Verified models of IACore's concurrent and arithmetic core

A Dafny project about four parts of IACore that need no operating system to state what they promise.

**Shared-memory ring buffer.** `RingProtocol` is a state machine of one producer and one consumer on one byte
array and two offsets. Loading the other side's offset, deciding, copying each byte of header and payload, and
publishing are separate steps, interleaved freely, so each side acts on a stale copy of the other's offset.
`RingTheorems` shows what holds of every run: the ring is a FIFO queue, copies never race, failures were
true at some moment of the call, and both operations are wait-free, as the repository's README.md:37 promises;
`RingOutcomes` says what each call answers, exactly, from its arguments and the queue it finds.
`RingBuffers` is the class itself, changing its array in place; its states are states of the protocol.
`SharedMemoryLayouts` is the arithmetic that places two rings in one block, and supplies the capacities the protocol needs.

**Task scheduler.** `Scheduler` is a state machine of any number of threads, each a stack of call frames: worker
loops, submitters, helping waiters and cancellers, where running tasks may themselves submit, cancel and wait.
`fetch_add` is a step apart from the enqueue, `fetch_sub` apart from `notify_all`, and a thread may wake up unasked.
`SchedulerCounts` counts where every task is, `SchedulerTasks` and `SchedulerOrder` say what becomes of tasks and in
which order, `SchedulerCalls` what each call does from the arguments it was made with, `SchedulerWakeups` that no notification is lost, `SchedulerProgress` what it means that no thread can
go on, `SchedulerTermination` that they all come to that by themselves, and `SchedulerStranding` and `SchedulerTightness` when work
can be left behind. `AsyncOperations` is the same data in place, with deques and shared schedule objects, and its
cancellation loops.

The code has a corner that its notifications do not cover. A task body that calls `wait_for_schedule_completion` can
block its worker on the counter just before the awaited task is queued; the `notify_one` that follows reaches no sleeping
worker and the awaited work stays queued. `WaitingTasksCanStrandWork` is such a run. The exact condition, before any stop
is requested: where no thread can go on, work is left in a queue only if every worker is blocked in a wait that its own task
called (`StrandedOnlyIfAllWorkersWait`), and there one more submission from outside always stays behind until some thread
makes another call or wakes up unasked (`SubmissionIsStrandedExactly`); a wait called from outside takes it
(`OutsideWaitTakesTheWork`). So one worker free of waiting tasks is enough, and a caller who lets fewer tasks wait than there
are workers never strands work (`FewWaitersStrandNothing`), a bound that is exact for every number of workers
(`AsManyWaitersCanStrand`).

**Hashes.** `Crc32c` defines the reflected CRC-32C one bit at a time (section 12.1 of RFC 3720) and shows that it detects
every burst of up to 32 bits; `Crc32cTables` that the table-driven and hardware-path loops compute it. `XxHash32` and
`Fnv1a` define XXH32 and FNV-1a, show that the code computes them, and that one changed byte always changes the hash.
CRC registers are 32-bit vectors; the multiplying hashes use integers reduced mod 2^32 (`Words32`, `Integers`).

**Text and byte streams.** `LineBuffers` (lines of a chunked stream), `ArgumentTokenizer` with the grammar of everything it
reads (`ArgumentGrammar`), `ConnectionDescriptors` (how a node gets its connection string), `Base64` (section 4 of RFC 4648)
with its alphabet and what any text decodes to (`Base64Meaning`), `StreamWriters` and `StreamReaders` (growing writes,
reading back).

Where a class changes its fields in the source, the model is a class whose methods are proved against functions on
values, and the properties are lemmas about those functions. Targets are little-endian, as the
source's unaligned reads assume. `dafny verify dfyconfig.toml` checks everything.

## Model

| member | source | states |
|---|---|---|
| RingFrames.FramesInjective | Src/IACore/inc/IACore/ADT/RingBuffer.hpp:43-59 | A queue can be read back from its framed bytes: two queues with the same bytes are equal, so the byte ring cannot stand for two different queues |
| RingFrames.WrappedCopyStaysInside | Src/IACore/inc/IACore/ADT/RingBuffer.hpp:235-269 | The two branches of a wrapped copy stay inside the buffer, as u32 arithmetic computes them, exactly when the plain offsets and sizes are in range and the sum does not wrap |
| RingFrames.FrameLayout | Src/IACore/inc/IACore/ADT/RingBuffer.hpp:214-225 | Header and payload copies together lay byte k of a frame on the k-th circle position after the offset, across the end of the array, and `push` and `pop` publish the same next offset |
| RingFrames.FreeSpaceTest | Src/IACore/inc/IACore/ADT/RingBuffer.hpp:206-212 | The strict free-space test holds exactly when the frame leaves at least one byte of the circle unused |
| RingFrames.HeaderIsLittleEndian | Src/IACore/inc/IACore/ADT/RingBuffer.hpp:43-59 | The four header bytes, read as one little-endian word, are the id in the low half and the payload size in the high half |
| RingProtocol.StepInv | Src/IACore/inc/IACore/ADT/RingBuffer.hpp:163-228 | Every step of either side, with stale copies of the other's offset and bytes copied in any order, keeps the invariant that the framed bytes of the pending packets fill exactly the span between the offsets |
| RingProtocol.HeadFrame | Src/IACore/inc/IACore/ADT/RingBuffer.hpp:174-185 | The bytes a pop reads are those of the packet at the head of the queue |
| RingProtocol.PublishedFrame | Src/IACore/inc/IACore/ADT/RingBuffer.hpp:214-225 | Publishing a frame copied in full appends exactly that packet to the queue |
| RingTheorems.FifoRefinement | Src/IACore/inc/IACore/ADT/RingBuffer.hpp:163-228 | In every interleaving the packets delivered are a prefix, in order, of the packets accepted, ids and payloads; equal offsets always mean an empty queue |
| RingTheorems.SpanHoldsThePending | Src/IACore/inc/IACore/ADT/RingBuffer.hpp:206-225 | In every reachable state the bytes from the read offset to the write offset are exactly the framed packets accepted and not yet delivered |
| RingTheorems.CopiesStayInsideAndNeverRace | Src/IACore/inc/IACore/ADT/RingBuffer.hpp:169-225 | In every reachable state a push in progress writes no published unconsumed byte, a pop reads only such bytes, both stay inside the buffer, and so no enabled write and read touch the same byte |
| RingTheorems.WritesOnlyWhatItMay | Src/IACore/inc/IACore/ADT/RingBuffer.hpp:235-251 | A step changes a byte only if it is the producer's and the byte is one of those that lemma says it may write |
| RingTheorems.ReadsOnlyWhatItMay | Src/IACore/inc/IACore/ADT/RingBuffer.hpp:253-269 | A step that copies nothing in has the same outcome on any other bytes that agree on those it may read |
| RingTheorems.RefusedPushWasFull | Src/IACore/inc/IACore/ADT/RingBuffer.hpp:202-212 | A push is refused as full only if at some moment during that call its frame really did not fit |
| RingTheorems.EmptyPopWasEmpty | Src/IACore/inc/IACore/ADT/RingBuffer.hpp:165-172 | A pop reports empty only if at some moment during that call the queue was empty |
| RingTheorems.TooSmallKeepsThePacket | Src/IACore/inc/IACore/ADT/RingBuffer.hpp:176-179 | A pop refused for a small buffer names the head packet's size and loses nothing: the next packet delivered is that packet, whatever is pushed in between |
| RingTheorems.DeliveryTakesTheHead | Src/IACore/inc/IACore/ADT/RingBuffer.hpp:181-190 | A delivered packet is the first of the pending ones |
| RingTheorems.QueueGrows | Src/IACore/inc/IACore/ADT/RingBuffer.hpp:176-228 | Only a delivery takes anything from the queue; every other step leaves it or extends it |
| RingTheorems.WorkShrinks | Src/IACore/inc/IACore/ADT/RingBuffer.hpp:163-228 | Both operations are wait-free: each own step lowers the call's remaining work and no step of the other side raises it |
| RingTheorems.OwnStepsAreCounted | Src/IACore/inc/IACore/ADT/RingBuffer.hpp:163-228 | A side's own steps, which the bounds on calls count, are the steps of a stretch that belong to it |
| RingTheorems.PushEndsInTime | Src/IACore/inc/IACore/ADT/RingBuffer.hpp:193-228 | A push of n bytes has at most n + 7 steps of its own, whatever the consumer does in between |
| RingTheorems.PopEndsInTime | Src/IACore/inc/IACore/ADT/RingBuffer.hpp:163-191 | A pop has at most 65544 steps of its own: one for each byte of the longest payload, and nine |
| RingTheorems.PushNeverWaits | Src/IACore/inc/IACore/ADT/RingBuffer.hpp:193-228 | A push under way always has a step of its own, whatever the consumer does |
| RingTheorems.PopNeverWaits | Src/IACore/inc/IACore/ADT/RingBuffer.hpp:163-191 | A pop under way always has a step of its own, whatever the producer does |
| RingOutcomes.OversizeExactly | Src/IACore/inc/IACore/ADT/RingBuffer.hpp:195-198 | In every run a push is answered as oversize exactly when it was called with more than 65535 bytes, and changes nothing then |
| RingOutcomes.PushOutcome | Src/IACore/inc/IACore/ADT/RingBuffer.hpp:193-228 | In every interleaving a push of at most 65535 bytes ends by accepting exactly the id and data it was called with if the framed bytes pending at its load of the read offset plus 4 plus n are below the capacity, and by refusing exactly them otherwise |
| RingOutcomes.PushIsAnswered | Src/IACore/inc/IACore/ADT/RingBuffer.hpp:193-228 | That answer has been given, once, when the call has made n + 7 steps of its own, whatever the consumer does |
| RingOutcomes.PopOutcome | Src/IACore/inc/IACore/ADT/RingBuffer.hpp:163-191 | In every interleaving a pop answers by the queue it finds at its load of the write offset: empty, the size of the first packet if that exceeds the room it was called with, or that packet |
| RingOutcomes.PopIsAnswered | Src/IACore/inc/IACore/ADT/RingBuffer.hpp:163-191 | That answer has been given, once, when the call has made 65544 steps of its own, whatever the producer does |
| RingOutcomes.PushMayBegin | Src/IACore/inc/IACore/ADT/RingBuffer.hpp:193-198 | A producer that is in no call can begin one with any id and any data |
| RingOutcomes.PopMayBegin | Src/IACore/inc/IACore/ADT/RingBuffer.hpp:163-166 | A consumer that is in no call can begin one with any room |
| RingBuffers.RingBufferView.Attach | Src/IACore/inc/IACore/ADT/RingBuffer.hpp:149-161 | A view takes the buffer and its u32 capacity; an owner resets the shared offsets, others change nothing |
| RingBuffers.RingBufferView.Create | Src/IACore/inc/IACore/ADT/RingBuffer.hpp:119-132 | Fails exactly for a missing control block or an empty buffer; an owner of a safe capacity starts with an empty queue |
| RingBuffers.RingBufferView.WriteWrapped | Src/IACore/inc/IACore/ADT/RingBuffer.hpp:235-251 | The array becomes the old one with the bytes laid on the circle from the offset on, and nothing else changes |
| RingBuffers.RingBufferView.ReadWrapped | Src/IACore/inc/IACore/ADT/RingBuffer.hpp:253-269 | The output becomes the circle's bytes from the offset on, and the rest of it stays |
| RingBuffers.RingBufferView.Push | Src/IACore/inc/IACore/ADT/RingBuffer.hpp:193-228 | With no pop under way it succeeds exactly when the payload fits a u16 and its frame leaves a byte unused; it then appends that packet, and otherwise changes nothing and says which limit was hit |
| RingBuffers.RingBufferView.Pop | Src/IACore/inc/IACore/ADT/RingBuffer.hpp:163-191 | Empty queue: nothing changes. Otherwise the head's id and size are reported, and either the payload is copied out and the packet removed or, if it does not fit, queue and buffer stay |
| RingBuffers.HeadBytes | Src/IACore/inc/IACore/ADT/RingBuffer.hpp:174-185 | What the two reads of a pop find on the circle is the head packet's header and payload |
| RingBuffers.TwoOverlays | Src/IACore/inc/IACore/ADT/RingBuffer.hpp:214-225 | Laying header and payload behind the stored bytes and moving the offset keeps the old packets and adds the new one |
| SharedMemoryLayouts.IpcSharedMemoryLayout.Assign | Src/IACore/imp/cpp/IPC.cpp:344-358 | The field assignments leave the two regions of the layout, computed in u64 |
| SharedMemoryLayouts.LayoutSoundness | Src/IACore/imp/cpp/IPC.cpp:348-366 | The regions are inside the block after the header, disjoint, equal, non-empty and on cache lines exactly when the block has at least header plus 128 bytes; below that the rings are empty or leave the block |
| SharedMemoryLayouts.HeaderHoldsItsFields | Src/IACore/inc/IACore/IPC.hpp:26-72 | Metadata, both control blocks and the four offset fields lie below the first ring without touching, the control blocks on cache lines of their own, and the header is the smallest whole number of cache lines that holds them: 384 bytes |
| SharedMemoryLayouts.MagicSpellsItsName | Src/IACore/inc/IACore/IPC.hpp:33-34 | The magic number spells IAIP, most significant byte first, and the version is 1 |
| SharedMemoryLayouts.SessionRingsAreInitial | Src/IACore/imp/cpp/IPC.cpp:342-366 | For every large enough block both rings start in an initial state of the protocol, with a capacity below 2^31, so that no u32 sum of push or pop can wrap |
| SharedMemoryLayouts.RingsKeepToTheirRegions | Src/IACore/imp/cpp/IPC.cpp:354-366 | In every reachable state of either ring, each byte it may write or read lies in the block after the header, in its own region and outside the other ring's |
| SchedulerCounts.StepBalance | Src/IACore/imp/cpp/AsyncOps.cpp:77-231 | Every step of every thread moves at most one task past the borders its event names: none is lost or duplicated between counter, queues and stacks |
| SchedulerCounts.CounterStep | Src/IACore/imp/cpp/AsyncOps.cpp:82-82 | A counter rises exactly when a task is announced and falls exactly when one is retired or cancelled |
| SchedulerCounts.RunConserves | Src/IACore/imp/cpp/AsyncOps.cpp:77-231 | Over any run, tasks announced are those still before a border plus those that crossed it, for each task and for each schedule |
| SchedulerCounts.CountersAreExact | Src/IACore/imp/cpp/AsyncOps.cpp:82-140 | In every reachable state each counter equals its tasks announced but not queued, queued, or popped but not retired, for any number of workers, waiters and cancellers; so it is never negative |
| SchedulerTasks.AnnouncedOnce | Src/IACore/imp/cpp/AsyncOps.cpp:77-95 | No task is announced twice in a run |
| SchedulerTasks.TasksStartAtMostOnce | Src/IACore/imp/cpp/AsyncOps.cpp:97-231 | Over any run no task body starts twice and none is both started and cancelled; each later station is reached no more often than the earlier one |
| SchedulerTasks.WaitSettlesEverything | Src/IACore/imp/cpp/AsyncOps.cpp:142-184 | When a wait for a schedule returns, every task announced to it before has run to its end or been cancelled, never both, even though the waiter may have run tasks of other schedules |
| SchedulerOrder.FirstInFirstOut | Src/IACore/imp/cpp/AsyncOps.cpp:86-91 | At every moment the tasks taken from a queue followed by those still in it are a subsequence of the tasks put into it |
| SchedulerOrder.OnlyCancelledAreMissing | Src/IACore/imp/cpp/AsyncOps.cpp:86-140 | What that subsequence leaves out are exactly the cancelled tasks |
| SchedulerOrder.QueueHoldsTheRest | Src/IACore/imp/cpp/AsyncOps.cpp:84-92 | A task put into a queue has been taken, has been cancelled, or is still there, exactly once |
| SchedulerOrder.NoOvertaking | Src/IACore/imp/cpp/AsyncOps.cpp:86-91 | When a task is taken, every task of the same priority queued before it has been taken or cancelled, exactly once |
| SchedulerOrder.HighBeforeNormal | Src/IACore/imp/cpp/AsyncOps.cpp:209-219 | A task of normal priority is taken only when every task of high priority put into the queues so far has been taken or cancelled before; `HighCallsGoFirst` says it of the calls |
| SchedulerOrder.OthersLeaveTheQueues | Src/IACore/imp/cpp/AsyncOps.cpp:99-99 | While a cancellation holds the mutex, every step but its own leaves both queues, and its hold, as they are |
| SchedulerOrder.SweepTouchesItsTagOnly | Src/IACore/imp/cpp/AsyncOps.cpp:101-139 | A step under the mutex changes the queues only by erasing the one task its event names as cancelled, which has the tag |
| SchedulerOrder.StepKeepsSweep | Src/IACore/imp/cpp/AsyncOps.cpp:97-140 | What a cancellation has passed is free of its tag, and without the tag the queues are what it found, after every step of any thread |
| SchedulerOrder.CancelRemovesExactlyTheTag | Src/IACore/imp/cpp/AsyncOps.cpp:97-140 | A cancellation that returns has removed from both queues exactly the tasks of its tag that it found, and kept the others in order |
| SchedulerOrder.SweepStartsWithTheQueues | Src/IACore/imp/cpp/AsyncOps.cpp:99-102 | What a cancellation finds is what the queues hold when it takes the mutex |
| SchedulerCalls.SubmissionAnnounces | Src/IACore/imp/cpp/AsyncOps.cpp:77-82 | A call of `schedule_task` announces a task with exactly the tag, the schedule and the priority of the call and a new id, raises that schedule's counter by one and leaves the queues alone |
| SchedulerCalls.SubmissionIsQueued | Src/IACore/imp/cpp/AsyncOps.cpp:83-93 | Whatever other threads do meanwhile, the next step of the calling thread appends exactly that task to the high queue if the call asked for high priority and to the normal queue otherwise, and leaves the other queue alone |
| SchedulerCalls.HighCallsGoFirst | Src/IACore/imp/cpp/AsyncOps.cpp:77-93 | A task submitted with normal priority is taken only when every task submitted with high priority and queued by then has been taken or cancelled before |
| SchedulerCalls.WaitReturnsSettled | Src/IACore/imp/cpp/AsyncOps.cpp:142-184 | A call of `wait_for_schedule_completion` comes back to the frames it was called from only by a return for its own schedule, and then every task submitted to that schedule by any call so far has ended or been cancelled, exactly once, whatever tasks the wait ran in between |
| SchedulerCalls.CancelTakesTheMutex | Src/IACore/imp/cpp/AsyncOps.cpp:97-99 | The step in which a call of `cancel_tasks_of_tag` gets the mutex starts a sweep for the tag of the call over the queues as they are then |
| SchedulerCalls.CancelRemovesTheTagOfTheCall | Src/IACore/imp/cpp/AsyncOps.cpp:97-140 | When that call returns, both queues are what it found without exactly the tasks of the call's own tag, in order, and the mutex is free |
| SchedulerCalls.AtMostOneMoreTask | Src/IACore/imp/cpp/AsyncOps.cpp:191-207 | A worker that has been asked to stop takes at most one more task from its loop, however many are queued |
| SchedulerCalls.StoppedWorkerExits | Src/IACore/imp/cpp/AsyncOps.cpp:191-207 | A worker that finds itself asked to stop, at the head of its loop or with nothing queued when it looks, leaves in that step and for good |
| SchedulerCalls.CallsAreOpen | Src/IACore/imp/cpp/AsyncOps.cpp:77-145 | A thread outside the scheduler or in a task body can make each of the three calls with any arguments, a submission while the counter is below 2^31 - 1 |
| SchedulerCalls.WakeUpsAreOpen | Src/IACore/imp/cpp/AsyncOps.cpp:94-202 | A `notify_one` may reach any sleeping worker; whoever sleeps may wake up unasked, and then looks at the queues or compares the counter again; a stop may be requested at any time |
| SchedulerWakeups.StepShape | Src/IACore/imp/cpp/AsyncOps.cpp:142-231 | The call stacks keep their shape: only a worker's base frame is a worker frame, and exactly the mutex holder sweeps |
| SchedulerWakeups.StepKeepsWaitersHeard | Src/IACore/imp/cpp/AsyncOps.cpp:170-181 | No step leaves a thread blocked on a counter that is zero with nobody left to notify it |
| SchedulerWakeups.StepKeepsWorkersHeard | Src/IACore/imp/cpp/AsyncOps.cpp:83-202 | Before a stop, after every step: if any worker sleeps, the queued tasks are no more than the threads about to look at the queues or to notify one |
| SchedulerWakeups.NoLostWakeups | Src/IACore/imp/cpp/AsyncOps.cpp:83-202 | Both of the above in every reachable state, with spurious wake-ups allowed anywhere |
| SchedulerWakeups.SomebodyNotifies | Src/IACore/imp/cpp/AsyncOps.cpp:94-94 | In particular, before a stop, queued work with every worker asleep has a `notify_one` still to come |
| SchedulerProgress.StuckMeansDoneUnlessTasksWait | Src/IACore/imp/cpp/AsyncOps.cpp:142-231 | Before a stop, when no thread can go on: all counters are zero exactly when no task body is still running, and then both queues are empty, no wait is blocked and every worker sleeps; work is queued only if every worker waits inside a task |
| SchedulerProgress.StrandedOnlyIfAllWorkersWait | Src/IACore/imp/cpp/AsyncOps.cpp:94-202 | Before a stop, work stays queued where no thread can go on only if every single worker is blocked in a wait called by the task it runs |
| SchedulerProgress.EverythingIsDoneInTheEnd | Src/IACore/imp/cpp/AsyncOps.cpp:142-231 | If task bodies never wait, a scheduler that cannot go on has finished everything |
| SchedulerTermination.StepSpends | Src/IACore/imp/cpp/AsyncOps.cpp:77-231 | Without new calls and unasked wake-ups every step of every thread leaves less work than there was, waiters that compare a stale counter and sweeps included |
| SchedulerTermination.QuietStretchEnds | Src/IACore/imp/cpp/AsyncOps.cpp:77-231 | So any such stretch of a run has at most as many steps as there was work at its start |
| SchedulerTermination.RunToStop | Src/IACore/imp/cpp/AsyncOps.cpp:77-231 | Every run can be continued without new calls until no thread can go on |
| SchedulerTermination.FinishesByItself | Src/IACore/imp/cpp/AsyncOps.cpp:142-231 | If task bodies never wait and no stop is requested, from every reachable state the scheduler comes to rest by itself within the steps its work allows: queues empty, counters zero, every wait returned, every worker asleep |
| SchedulerStranding.SubmissionIsStrandedExactly | Src/IACore/imp/cpp/AsyncOps.cpp:77-95 | Where no thread can go on, one more submission by an outside thread ends in a state where it is queued and again no thread can go on, its `notify_one` having reached nobody, if and only if every worker is blocked in a wait of its task |
| SchedulerStranding.OutsideWaitTakesTheWork | Src/IACore/imp/cpp/AsyncOps.cpp:142-164 | Such work is not lost: a wait that an outside thread calls on any positive counter takes the next task in its second step |
| SchedulerStranding.FewWaitersStrandNothing | Src/IACore/imp/cpp/AsyncOps.cpp:142-202 | If fewer tasks call a wait during a run than there are workers, no queued work is ever left where no thread can go on |
| SchedulerTightness.AsManyWaitersCanStrand | Src/IACore/imp/cpp/AsyncOps.cpp:94-202 | That bound is exact: for every number of workers some run with as many waiting tasks leaves work queued where no thread can go on |
| SchedulerTightness.WaitingTasksCanStrandWork | Src/IACore/imp/cpp/AsyncOps.cpp:94-181 | The smallest such run: one worker blocks on the counter before the awaited task is queued, which stays behind with its counter at one |
| AsyncOperations.AsyncOps.ScheduleTask | Src/IACore/imp/cpp/AsyncOps.cpp:77-95 | Raises the schedule's counter by one and appends the task to the queue of its priority |
| AsyncOperations.AsyncOps.TakeNext | Src/IACore/imp/cpp/AsyncOps.cpp:209-219 | Takes the front of high followed by normal, nothing exactly when both are empty, and leaves the rest in order |
| AsyncOperations.AsyncOps.Retire | Src/IACore/imp/cpp/AsyncOps.cpp:226-229 | Lowers the counter by one and notifies exactly when it reaches zero |
| AsyncOperations.AsyncOps.SweepQueue | Src/IACore/imp/cpp/AsyncOps.cpp:101-119 | One erase loop keeps exactly the tasks of other tags in order, lowers each shared counter by its share, and notifies the schedules that reach zero |
| AsyncOperations.AsyncOps.CancelTasksOfTag | Src/IACore/imp/cpp/AsyncOps.cpp:97-140 | The same for both queues together, with schedule objects shared between tasks of both |
| AsyncOperations.KeptExactly | Src/IACore/imp/cpp/AsyncOps.cpp:101-119 | What is kept has every task of another tag as often as before and none of the tag |
| AsyncOperations.KeptAsInStateMachine | Src/IACore/imp/cpp/AsyncOps.cpp:97-140 | What the loops leave in a deque is what the state machine says a cancellation leaves |
| Crc32c.FeedIsFeedBits | Src/IACore/imp/cpp/DataOps.cpp:51-55 | Feeding a register byte by byte is feeding it bit by bit, least significant bit first |
| Crc32c.BurstDetected | Src/IACore/imp/cpp/DataOps.cpp:122-148 | Two messages of equal length whose bits differ only inside some stretch of 32 consecutive bits, aligned or not, have different checksums |
| Crc32c.FourByteBurstDetected | Src/IACore/imp/cpp/DataOps.cpp:122-148 | In particular two messages that differ only inside four consecutive bytes, with any common prefix and suffix |
| Crc32c.CheckValue | Tests/Unit/DataOps.cpp:26-31 | The published check value of CRC-32C |
| Crc32cTables.Crc32Tables.constructor | Src/IACore/imp/cpp/DataOps.cpp:45-67 | Entry b of table k is what a zero register holds after byte b and k zero bytes |
| Crc32cTables.FeedWord | Src/IACore/imp/cpp/DataOps.cpp:130-136 | Feeding four bytes is one exclusive or with their little-endian word and 32 shifts |
| Crc32cTables.SliceRound | Src/IACore/imp/cpp/DataOps.cpp:128-140 | The eight lookups of one round feed exactly eight bytes, by linearity over GF(2) |
| Crc32cTables.Crc32Tables.SoftwareSlice8 | Src/IACore/imp/cpp/DataOps.cpp:122-148 | For every byte string the slice-by-8 loop and its tail return the bit-at-a-time reflected CRC-32C |
| Crc32cTables.HardwareCrc | Src/IACore/imp/cpp/DataOps.cpp:73-94 | The hardware-path loop returns the same value, the instruction being eight byte steps |
| XxHash32.HashStripes | Src/IACore/imp/cpp/DataOps.cpp:189-211 | The do-while loop leaves in the four accumulators the folds of the four lanes and merges them |
| XxHash32.HashXxhash | Src/IACore/imp/cpp/DataOps.cpp:183-240 | The whole code computes the specification: lanes, words left over, bytes left over, avalanche, a specification that the four known answers below pin on both sides of 16 bytes and for zero and other seeds |
| XxHash32.StepsKeepApart | Src/IACore/imp/cpp/DataOps.cpp:170-231 | No step of the three loops loses anything, neither of the state nor of the input: rotations are bijective and odd multipliers invertible mod 2^32 |
| XxHash32.AvalancheApart | Src/IACore/imp/cpp/DataOps.cpp:233-237 | The final mixing is injective |
| XxHash32.OneWordShows | Src/IACore/imp/cpp/DataOps.cpp:183-240 | Inputs of equal length that differ only inside one whole aligned 4-byte word never collide for the same seed |
| XxHash32.OneByteShows | Src/IACore/imp/cpp/DataOps.cpp:183-240 | Inputs of equal length that differ in exactly one byte never collide for the same seed, in the stripes, the words or the tail |
| XxHash32Value.DigitsAnswer | Tests/Unit/DataOps.cpp:63-67 | The value of the repository's own 9-byte test, 0x937bad67, which starts from the fifth prime and goes through words and a byte |
| XxHash32Value.TextAnswer | Tests/Unit/DataOps.cpp:69-73 | The value of the repository's own 43-byte test, 0xE85EA4DE, which goes through stripes, words and bytes |
| XxHash32Value.EmptyAnswer | Src/IACore/imp/cpp/DataOps.cpp:212-237 | The empty input hashes to 0x02CC5D05 with seed 0 and to 0x36B78AE7 with seed 0x9E3779B1 |
| XxHash32Value.StripeAnswer | Src/IACore/imp/cpp/DataOps.cpp:189-237 | One whole stripe with the seed 0x01234567 hashes to 0xE833614C, through four lanes that start from the seed |
| Fnv1a.HashSpan | Src/IACore/imp/cpp/DataOps.cpp:256-267 | The span overload folds the FNV-1a step over the bytes |
| Fnv1a.HashString | Src/IACore/imp/cpp/DataOps.cpp:245-254 | The string overload gives what the span overload gives on the same bytes, signed characters included |
| Fnv1a.BytesAre | Src/IACore/imp/cpp/DataOps.cpp:250-250 | The bytes the string overload hashes are the characters themselves from 0 to 127 and 256 more than the signed value below zero |
| Fnv1a.MixKeepsApart | Src/IACore/imp/cpp/DataOps.cpp:250-251 | One step loses nothing of the state and nothing of the byte |
| Fnv1a.OneByteShows | Src/IACore/imp/cpp/DataOps.cpp:245-267 | Messages of equal length that differ in exactly one byte never collide, whatever stands before and after it |
| Fnv1aValue.KnownAnswer | Tests/Unit/DataOps.cpp:87-96 | The values of the repository's own test |
| LineBuffers.LineBuffer.Append | Src/IACore/imp/cpp/ProcessOps.cpp:29-64 | Appending a chunk keeps lines emitted and line under way equal to those of the whole stream so far, also when CR LF is split between chunks |
| LineBuffers.LineBuffer.Flush | Src/IACore/imp/cpp/ProcessOps.cpp:66-73 | After a flush exactly the lines of the whole stream have been emitted |
| LineBuffers.FeedChunks | Src/IACore/imp/cpp/ProcessOps.cpp:325-333 | However the stream is cut, the callback receives the non-empty maximal runs free of CR and LF, in order, and no other list of lines is that |
| LineBuffers.LinesAreRuns | Src/IACore/imp/cpp/ProcessOps.cpp:29-73 | The lines are runs: the stream alternates breaks and non-empty unbroken lines |
| LineBuffers.RunsAreUnique | Src/IACore/imp/cpp/ProcessOps.cpp:29-73 | There is only one way to cut a stream into such runs |
| LineBuffers.KnownLines | Src/IACore/imp/cpp/ProcessOps.cpp:29-73 | Line feeds, carriage returns and pairs of them end lines and a tab does not, on literal streams |
| ArgumentTokenizer.Tokenize | Src/IACore/imp/cpp/ProcessOps.cpp:266-308 | The tokenizer loop computes the scan with its escape and quote modes, of which `LineMeans` says what it gives for every text |
| ArgumentTokenizer.ArgumentListsThatPass | Src/IACore/imp/cpp/ProcessOps.cpp:266-308 | The tokenizer can produce a list of arguments exactly when none of them is empty; quoting with escapes always produces it |
| ArgumentTokenizer.PlainTextPasses | Src/IACore/imp/cpp/ProcessOps.cpp:266-308 | A non-empty quoted text without quotes and backslashes is exactly one argument, unchanged |
| ArgumentTokenizer.QuotedTextPasses | Src/IACore/imp/cpp/ProcessOps.cpp:266-308 | A quoted text arrives as one argument, unchanged, exactly when it is not empty and has no quote and no backslash |
| ArgumentTokenizer.SpecialTextShrinks | Src/IACore/imp/cpp/ProcessOps.cpp:272-289 | A quoted text with a quote or backslash in it that does not end in a backslash loses characters: no argument is as long |
| ArgumentGrammar.EveryTextIsALine | Src/IACore/imp/cpp/ProcessOps.cpp:266-308 | Every text whatever is a line of a grammar: arguments of plain, backslashed and quoted characters with single spaces between, the last one perhaps with quotes left open or a backslash behind it |
| ArgumentGrammar.LineMeans | Src/IACore/imp/cpp/ProcessOps.cpp:266-308 | The tokenizer gives for each such line exactly the letters of its arguments, in order, without the empty ones, an open quote counting as closed and a last backslash as nothing |
| ArgumentGrammar.TokensMean | Src/IACore/imp/cpp/ProcessOps.cpp:266-308 | Both together: the tokenizer's answer for every text, from the grammar alone |
| ArgumentGrammar.WordsComeBack | Src/IACore/imp/cpp/ProcessOps.cpp:291-302 | Words without spaces, quotes and backslashes, with one or more spaces between neighbours and any number at both ends, come back exactly, in order |
| ArgumentGrammar.QuotesJoin | Src/IACore/imp/cpp/ProcessOps.cpp:285-302 | A quoted stretch makes one argument with the unquoted text it touches on either side |
| ArgumentGrammar.BackslashKeeps | Src/IACore/imp/cpp/ProcessOps.cpp:273-283 | Outside quotes a backslash keeps the next character, be it a space, a quote or a backslash |
| ArgumentGrammar.KnownAnswers | Tests/Unit/ProcessOps.cpp:53-89 | The argument strings of the repository's own tests: `one two` gives two arguments, the quoted command of the exit-code test gives `-c` and `exit 42` |
| ConnectionDescriptors.FromPrintedChars | Src/IACore/imp/cpp/IPC.cpp:33-33 | Parsing the printed decimal form of a u32 gives it back |
| ConnectionDescriptors.Deserialize | Src/IACore/imp/cpp/IPC.cpp:36-81 | The state loop reads three fields, each up to the first bar after it, and fails for a missing bar or an unreadable size |
| ConnectionDescriptors.ReadsAs | Src/IACore/imp/cpp/IPC.cpp:36-81 | A text that reads as a descriptor starts with its two paths, which hold no bar, and is at least as long as its serialised form |
| ConnectionDescriptors.ReadsExactly | Src/IACore/imp/cpp/IPC.cpp:36-81 | A text reads as a descriptor exactly when it is its two bar-free paths, decimal digits of its size and then anything bar-free that begins with no digit, each field ended by a bar, and any rest; all other texts are refused |
| ConnectionDescriptors.RoundTrip | Src/IACore/imp/cpp/IPC.cpp:31-81 | Deserialising undoes serialising exactly for descriptors whose paths hold no bar |
| ConnectionDescriptors.HandshakeSucceeds | Src/IACore/imp/cpp/IPC.cpp:92-98 | The node gets the manager's descriptor through quoting, tokenizer, C string and parser exactly when neither path holds a bar, a quote, a backslash or a NUL |
| ConnectionDescriptors.EverySessionConnects | Src/IACore/imp/cpp/IPC.cpp:316-373 | Every session id and size the manager can produce gets across |
| ConnectionDescriptors.SessionsAreApart | Src/IACore/imp/cpp/IPC.cpp:316-372 | The node receives the manager's size, and different session ids have different socket paths and different memory names |
| ConnectionDescriptors.SessionText | Src/IACore/imp/cpp/IPC.cpp:316-372 | The text that session 7 with 64 KiB puts on the command line |
| StreamWriters.StreamWriter.constructor | Src/IACore/imp/cpp/StreamWriter.cpp:37-42 | A new writer owns 256 bytes and holds nothing |
| StreamWriters.StreamWriter.OverSpan | Src/IACore/imp/cpp/StreamWriter.cpp:44-47 | A writer over a caller's span starts at its beginning and never grows |
| StreamWriters.TestIsExact | Src/IACore/imp/cpp/StreamWriter.cpp:138-138 | The bounds test of a write, computed in 64 bits, refuses exactly the writes that are too long if and only if cursor plus count does not wrap |
| StreamWriters.TestCanPass | Src/IACore/imp/cpp/StreamWriter.cpp:138-138 | A count for which the test lets a far too long write pass |
| StreamWriters.StreamWriter.Fill | Src/IACore/imp/cpp/StreamWriter.cpp:136-157 | Appends the byte `count` times, growing as the ledger says; refused exactly for a span that is too short, and then nothing has changed |
| StreamWriters.StreamWriter.WriteBuffer | Src/IACore/imp/cpp/StreamWriter.cpp:159-180 | The same for a buffer of bytes |
| StreamWriters.WritesAddUp | Src/IACore/imp/cpp/StreamWriter.cpp:136-180 | Over any writes the contents are what was written before followed by all of them, and the capacity and copying bounds stay |
| StreamWriters.WriteMakesRoom | Src/IACore/imp/cpp/StreamWriter.cpp:136-180 | A write that fits leaves the capacity; one that does not makes it the larger of twice the old one and what is needed, which counts as one growth that copies the old capacity |
| StreamWriters.LedgerIsHonest | Src/IACore/imp/cpp/StreamWriter.cpp:136-180 | Copied bytes and growths are what the capacities before and after each write show |
| StreamWriters.GrowthIsAmortised | Src/IACore/imp/cpp/StreamWriter.cpp:136-180 | Over any writes to a new owning writer: capacity at most max(256, 2n) for n bytes written; the old capacities of all writes that changed it add up to at most max(0, 2n - 256), and k such writes mean 256 * 2^k <= 2n |
| StreamReaders.SkipGoesForward | Src/IACore/inc/IACore/StreamReader.hpp:52-55 | Skipping lands on the smaller of sum and size, and never goes back, exactly when the 64-bit sum does not wrap |
| StreamReaders.SkipCanGoBack | Src/IACore/inc/IACore/StreamReader.hpp:52-55 | An amount for which it does go back |
| StreamReaders.StreamReader.Read | Src/IACore/inc/IACore/StreamReader.hpp:90-101 | Copies exactly the next bytes and moves on, or fails exactly when too few are left and changes nothing |
| StreamReaders.StreamReader.ReadValue | Src/IACore/inc/IACore/StreamReader.hpp:103-121 | The same for the bytes of a value |
| StreamReaders.StreamReader.Skip | Src/IACore/inc/IACore/StreamReader.hpp:52-55 | Moves as above and never past the end |
| StreamReaders.StreamReader.Seek | Src/IACore/inc/IACore/StreamReader.hpp:57-60 | Moves to the position or to the end |
| StreamReaders.StreamReader.Remaining | Src/IACore/inc/IACore/StreamReader.hpp:72-80 | What is left, zero exactly at the end |
| StreamReaders.WrittenPiecesComeBack | Src/IACore/inc/IACore/StreamReader.hpp:90-121 | Whatever is written in pieces is read back in the same pieces, and then nothing is left |
| Base64.EncodeBase64 | Src/IACore/imp/cpp/StringOps.cpp:43-78 | The three-byte loop computes the grouped encoding, in the literal alphabet of `CharIsTheTable` |
| Base64.DecodeBase64 | Src/IACore/imp/cpp/StringOps.cpp:80-138 | The four-slot accumulator and its filled tail compute the decoding of the longest alphabet prefix, which `DecodeMeans` gives as a number |
| Base64.AlphabetInverse | Src/IACore/imp/cpp/StringOps.cpp:21-41 | Every table character is in the alphabet and its index is its place in the table |
| Base64.IndexInverse | Src/IACore/imp/cpp/StringOps.cpp:23-41 | Every alphabet character stands in the table at its index |
| Base64Meaning.CharIsTheTable | Src/IACore/imp/cpp/StringOps.cpp:21-21 | Sextet i is written as character i of the literal table A-Z, a-z, 0-9, plus, slash |
| Base64Meaning.IndexIsTheTable | Src/IACore/imp/cpp/StringOps.cpp:23-41 | Exactly the characters of that table are read, each as its place in it |
| Base64Meaning.KnownAnswers | Tests/Unit/StringOps.cpp:25-57 | The encodings the repository's own tests expect: Hello World gives SGVsbG8gV29ybGQ=, and M, Ma and Man their three paddings |
| Base64Meaning.DecodeMeans | Src/IACore/imp/cpp/StringOps.cpp:80-138 | For every text, canonical or not: the characters before the first padding or foreign one give three bytes for every four, rounded down, which write the same number without its last bits; the rest is ignored |
| Base64.SameNumber | Src/IACore/imp/cpp/StringOps.cpp:48-76 | Encoding rewrites the bytes, filled up with zeros, as the same number in base 64, most significant digit first |
| Base64.EncodedLength | Src/IACore/imp/cpp/StringOps.cpp:46-46 | The encoding has 4 * ceil(n / 3) characters |
| Base64.DecodeEncode | Src/IACore/imp/cpp/StringOps.cpp:43-138 | Decoding undoes encoding for every byte sequence |
| Base64.EncodedIsCanonical | Src/IACore/imp/cpp/StringOps.cpp:43-78 | Every encoding is whole groups of alphabet characters with at most the last padded, and zero bits under the padding |
| Base64.EncodeDecodeExactly | Src/IACore/imp/cpp/StringOps.cpp:43-138 | Encoding undoes decoding exactly on such texts |

## Left out

- RingProtocol.StepInv: each atomic access is one sequentially consistent step; C++ weak-memory ordering beyond that is not modelled.
- RingBuffers.RingBufferView.Create: the overload that carves the control block out of the buffer, with its size and capacity-mismatch checks, is not modelled; neither is writing to a ring of unsafe capacity.
- SchedulerCounts.CountersAreExact: a submission is modelled while fewer than 2^31 - 1 tasks of its schedule are in flight, so the i32 counter never wraps.
- SchedulerCounts.StepBalance: in a cancellation `fetch_sub` and the erase are one step, since the queues are hidden behind the mutex meanwhile; the `notify_all` between them is a step of its own after it.
- SchedulerTasks.WaitSettlesEverything: says nothing about the lifetime of the schedule object after the wait returns, which the late `notify_all` of another thread may still touch.
- SchedulerWakeups.NoLostWakeups: the part about workers holds before any stop is requested; the code requests stops and notifies without the mutex, so termination of `terminate_scheduler` is not claimed.
- SchedulerTermination.FinishesByItself: speaks of stretches in which nobody makes a new call; a task body that has started ends in one step there, so bodies that never return, or keep submitting, are outside it.
- SchedulerOrder.NoOvertaking: like SchedulerOrder.FirstInFirstOut it speaks of the order in which tasks are taken; bodies taken by different threads then run concurrently.
- XxHash32.OneByteShows: nothing is claimed for inputs that differ in several bytes of the unaligned tail or in several words.
- StreamWriters.StreamWriter.Fill: requires that cursor plus count fits 64 bits, since a count for which the sum wraps passes the bounds test (`TestIsExact`) and `memset` then leaves the buffer; and that a grown vector is allocatable, since the source does not handle that exception.
- StreamWriters.StreamWriter.WriteBuffer: the source bytes must not lie in the writer's own buffer, as `memcpy` demands.
- StreamReaders.StreamReader.Read: the output buffer must not be the reader's own data, as `memcpy` demands; sizes are those of allocatable objects, so the 64-bit sum never wraps.
- LineBuffers.LineBuffer.Append: the callback is modelled as a list of what it received; it does not change the buffer.
- ConnectionDescriptors.HandshakeSucceeds: the POSIX way; the Windows command line is not modelled.
- `StreamWriter::flush`, which relabels a span writer as owning, moved-from readers and writers, files and memory maps.
- The drain loops of `IpcNode::update` and `IpcManager::update`, the session lists and the process-id map.
- `run_task`, `initialize_scheduler` and thread start and join: a run begins with the workers started.
- Compression, JSON and XML parsing, HTTP, SIMD, sockets, process spawning, CPU detection, logging, environment and dynamic libraries: foreign calls and plumbing.
- Hex strings, URL coding, XML escaping, the command-line cursor, `Version::to_u64` and `hash_combine`: easy, or dependent on a hasher that is not part of this model.
