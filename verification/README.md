# Verified models of the capture pipeline

A screen and audio recorder keeps the last minutes of a session in memory and on disk. A recorder
thread and audio callbacks feed lock-free queues, encoder and mixer threads drain them into bounded
buffers, and a segment thread flushes the buffers into a ring of files that can be exported at any
time. This project models the parts where threads, wrap-around and arithmetic meet, and proves what
they guarantee. `dafny verify dfyconfig.toml` checks everything.

| modules | what they model |
|---|---|
| `Blocks`, `BitTricks`, `Capacity`, `RingOps` | one circular block with its shadow indices; mask and power-of-two arithmetic on 64-bit words; how much a ring of blocks holds; the ring's operations as values |
| `SpscProtocol`, `SpscInvariant`, `SpscTyped`, `SpscProducer`, `SpscConsumer`, `SpscRuns`, `SpscCalls`, `SpscOutcomes`, `SpscWaitFree`, `SpscBadSizes`, `SpscClient` | the lock-free queue as a step system: every atomic load and store of one producer and one consumer is a step, in any interleaving; `SpscOutcomes` says what an enqueue comes to and how the ring grows, `SpscWaitFree` bounds the steps of a call, `SpscBadSizes` has the constructor arguments that break the queue, `SpscClient` the calls as the consumer's program makes them |
| `SpscQueue` | the same queue as a heap class with linked blocks, used by one thread at a time |
| `Semaphore`, `BlockingQueue` | the timed semaphore as a step system, and the blocking queue that composes it with the lock-free queue |
| `CircularBuffer`, `FrameLedger`, `SegmentRing`, `RollingSegments`, `RollingFates`, `RollingWindow` | the bounded frame buffer; the fate of every frame pushed; the slots of the ring; segment thread, encoders and exporter interleaved |
| `Interleave` | timestamp rebasing and the two-stream merge that writes one segment |
| `VideoPipeline`, `Rotation`, `Pacing` | frames from capture to encoder and the shutdown drain; image rotation; the recording loop's deadlines |
| `Mixing`, `AudioMixer`, `AudioProgress` | saturating addition of samples; the mixer thread against the streams pushing meanwhile |
| `Settings` | recursive merging of the settings file onto the defaults |

How to read the step systems: a state holds program counters with their locals, and fields that the
comments call history, which no step tests. `Enabled` and `Step` are the program; `IsRun` is any
interleaving; the lemmas about runs hold for all of them. Atomics are sequentially consistent, and
the mutexes are steps that wait for each other.

## Where the code does not do what it seems to promise

- `ReaderWriterQueue(0)` is not a queue: its first block has size 1 and can hold nothing, and once
  `enqueue` has grown the ring the producer reuses that block and loses the element; the consumer's
  assertion then fails (`SpscBadSizes.ZeroSizeFaults`). For a size of 2^63 or more, rounding up wraps
  to 0, and the first enqueue constructs in a slot the block does not have
  (`SpscBadSizes.WrappedSizeFaults`). Of all arguments of `size_t` those from 1 to 2^63 - 1 are
  exactly the ones for which nothing of the kind can happen (`SpscBadSizes.SafeExact`); the results
  about runs are for all of these.
- `signal(0)`, which the assertion in `signal` allows, wakes a sleeping waiter with nothing to wait
  for (`Semaphore.SignalNothingFaults`); `Semaphore.RunExact` has the exact condition on runs.
- An export of as many segments as the ring has slots, which is what the media recorder asks for, is
  exact only while the next slot is untouched: between the write of a segment and the increment of
  `seq_`, it starts with the newest segment in the oldest one's place (`RollingSegments.ExportExact`,
  `RollingSegments.WindowExport`). For every size of the ring there is a run that gets there
  (`RollingWindow.WrongExport`). Any shorter export is exact at any moment.
- `stop` takes no notice of an export under way: it removes the files that the export has yet to read
  (`RollingWindow.StoppedExport`); `RollingSegments.ExportExact` has the exact effect.
- With a recording length shorter than a segment the ring has no slots, and the first tick divides by
  zero (`RollingWindow.TickSafeExact`). The results about the ring are for every ring with a slot.
- The comment at src/core/video/ScreenRecorderBase.cpp:137 says new[y][x] = old[y][height - 1 - x] of the
  90 degree rotation. That leaves the old image unless it is square (`Rotation.CommentInBounds`), and is
  then what the loop computes only for an image that is its own transpose (`Rotation.CommentExact`,
  `Rotation.CommentWrong`). The model follows the loop, new[r][c] = old[height - 1 - c][r].
- The output of the mixer at a position does not depend on the order in which an unordered map visits the
  streams exactly when the samples there have one sign or neither sign alone can clip
  (`Mixing.RoundOrderExact`). The recorder adds at most two streams, for which that always holds
  (`Mixing.TwoStreams`).
- Merging settings is not associative; `Settings.AssociativeExact` gives the exact condition.
- The codec stays behind by one frame for every `encode_frame` call that took a frame and yielded no packet:
  a call takes at most one packet out, and no stop or start flushes any (`VideoPipeline.CodecLags`). All
  frames the codec took have come out exactly when there was no such call (`VideoPipeline.AllEmittedExact`).
  So a stop can leave a frame in the codec, whose packet then comes out in the next session
  (`VideoPipeline.PacketFromBefore`).

## Model

| member | source | states |
|---|---|---|
| SpscRuns.RunOk | src/utils/readerwriterqueue.h:285-644 | the invariant holds in every reachable state of every interleaving, for every constructor size from 1 to 2^63 - 1, with blocks allocated and linked in meanwhile |
| SpscRuns.Fifo | src/utils/readerwriterqueue.h:285-376 | at every point of every interleaving, the elements published so far are those removed so far followed by the unread elements of the ring |
| SpscRuns.StepOk | src/utils/readerwriterqueue.h:285-644 | each single step keeps the invariant and changes the queue by exactly what it appends at the back and takes from the front, which for all but three kinds of step is nothing |
| SpscProducer.ProducerStepOk | src/utils/readerwriterqueue.h:552-643 | a producer step appends its element if it is the store to tail of the tail block or the store to tailBlock, and leaves the queue as it is otherwise, stores into a block ahead and splicing included |
| SpscConsumer.ConsumerStepOk | src/utils/readerwriterqueue.h:308-375 | a consumer step removes the head if it is the store to front, and leaves the queue as it is otherwise, moving on to the next block included |
| SpscProducer.AllocOkStep | src/utils/readerwriterqueue.h:605-611 | allocating a block keeps the invariant and the queue |
| SpscProducer.SpliceStep | src/utils/readerwriterqueue.h:621-629 | linking a new block behind the tail block keeps the ring a circle, the invariant and the queue |
| SpscConsumer.StoreFrontBlockStep | src/utils/readerwriterqueue.h:339-356 | moving on to the next block keeps the invariant and the queue |
| SpscCalls.RunSafe | src/utils/readerwriterqueue.h:298-360 | in every reachable state no internal assertion has failed, nothing is constructed in a slot that holds an element, and what is moved out of a slot is the head of the queue |
| SpscCalls.DequeueSucceeds | src/utils/readerwriterqueue.h:285-376 | a dequeue, pop or peek that begins while the queue is not empty is at every later step on its way to return the element that was then the oldest |
| SpscCalls.DequeueTruthful | src/utils/readerwriterqueue.h:285-490 | such a call returns nothing only if the queue was empty when the call began, and otherwise the oldest element of that moment |
| SpscCalls.PeekThenDequeue | src/utils/readerwriterqueue.h:384-421 | after a peek that saw an element, the next call that removes one returns that element, whatever is enqueued in between and meanwhile |
| SpscCalls.EnqueueTruthful | src/utils/readerwriterqueue.h:552-636 | an enqueue that fails, for want of room or of memory, began when at least the constructor's number of elements was queued |
| SpscOutcomes.ReturnsTruthfully | src/utils/readerwriterqueue.h:552-643 | in every interleaving a call publishes its element once if it returns true, and nothing if it returns false |
| SpscOutcomes.FailsExactly | src/utils/readerwriterqueue.h:557-640 | a call returns false if and only if it found the front block right after the tail block and may not allocate, or malloc failed, and it looks for that only after it found the tail block full by its front |
| SpscOutcomes.TryEnqueueNeverAllocates | src/utils/readerwriterqueue.h:633-636 | in every interleaving a try_enqueue never comes to where it would allocate, adds no block, and returns false if and only if it found the front block right after the full tail block |
| SpscOutcomes.AllocCanSucceed | src/utils/readerwriterqueue.h:603-611 | at malloc an enqueue can go on with a block of twice the largest size so far, or of that size once it has reached MAX_BLOCK_SIZE |
| SpscOutcomes.Growth | src/utils/readerwriterqueue.h:605-611 | in every run the k-th block allocated has the constructor's block size doubled k times but not past MAX_BLOCK_SIZE, and nothing else adds a block |
| SpscCalls.FullRing | src/utils/readerwriterqueue.h:116-123 | when the tail block is full and the front block comes right after it, at least the constructor's number of elements is queued, wherever the front block is and however the ring has grown |
| SpscRuns.RunPowersOfTwo | src/utils/readerwriterqueue.h:603-611 | in every run every block's size is a power of two that fits a word, which masking relies on |
| SpscTyped.StepTyped | src/utils/readerwriterqueue.h:552-643 | even without the invariant, no step addresses a block or slot that does not exist |
| SpscBadSizes.ZeroSizeFaults | src/utils/readerwriterqueue.h:105-161 | a run of a queue built for zero elements in which the consumer's assertion fails |
| SpscBadSizes.WrappedSizeFaults | src/utils/readerwriterqueue.h:116-152 | for every size from 2^63 on, a run whose first enqueue constructs in a slot the first block does not have |
| SpscBadSizes.SafeExact | src/utils/readerwriterqueue.h:105-161 | of all arguments of size_t, those from 1 to 2^63 - 1 are exactly the ones for which no run fails an assertion or uses a slot that does not exist |
| BitTricks.CeilToPow2Word | src/utils/readerwriterqueue.h:654-666 | the shifts on a 64-bit word give the least power of two at or above any x from 1 to 2^63, and zero for zero and anything larger |
| BitTricks.CeilToPow2 | src/utils/readerwriterqueue.h:654-666 | the result is a power of two, not below x, and no power of two in between |
| BitTricks.NextIsMasked | src/utils/readerwriterqueue.h:321 | masking index plus one with size minus one wraps it round the block |
| BitTricks.DistIsMasked | src/utils/readerwriterqueue.h:502 | masking the difference of two indices, wrapped to a 64-bit word, counts the elements between them |
| Capacity.BlockSizeOk | src/utils/readerwriterqueue.h:115-122 | for every size from 1 to 2^63 - 1, with the rounding done on 64-bit words, one block holds the requested number, or else all blocks but one do |
| Capacity.BlocksExact | src/utils/readerwriterqueue.h:115-123 | the blocks are as few as that takes: a single one of the least power of two with a spare slot, up to twice MAX_BLOCK_SIZE; or else of MAX_BLOCK_SIZE, and one fewer would not do |
| Capacity.RotateHolds | src/utils/readerwriterqueue.h:339-356 | this stays so when the front block moves on |
| Capacity.InsertHolds | src/utils/readerwriterqueue.h:603-631 | and when a block at least as large is added anywhere |
| SpscQueue.Queue.constructor | src/utils/readerwriterqueue.h:105-161 | for any size, a circle of distinct empty blocks, of the number and size that word arithmetic gives; it is a queue that can hold the requested number if and only if the size is from 1 to 2^63 - 1 |
| SpscQueue.Queue.InnerEnqueue | src/utils/readerwriterqueue.h:535-644 | fails exactly if the tail block is full by its front, the front block comes right after it, and allocation is forbidden or fails; success appends exactly the element, failure changes nothing and means at least the requested number is queued; the ring grows only when it must and may, by one fresh block behind the tail block, of the largest size so far doubled up to MAX_BLOCK_SIZE |
| SpscQueue.Queue.TryDequeue | src/utils/readerwriterqueue.h:285-376 | removes, destroys and returns exactly the oldest element, and fails exactly on an empty queue |
| SpscQueue.Queue.Peek | src/utils/readerwriterqueue.h:384-421 | finds exactly the oldest element and removes nothing |
| SpscQueue.Queue.Pop | src/utils/readerwriterqueue.h:426-490 | destroys exactly the oldest element, and fails exactly on an empty queue |
| SpscQueue.Queue.SizeApprox | src/utils/readerwriterqueue.h:493-506 | on a queue used by one thread at a time, the walk ends after one lap and counts exactly the queued elements |
| SpscQueue.Queue.MaxCapacity | src/utils/readerwriterqueue.h:517-527 | the sum of what all blocks can hold, and never less than what is queued |
| SpscQueue.Queue.Destroy | src/utils/readerwriterqueue.h:204-228 | on a queue used by one thread at a time, the loops destroy exactly the elements never dequeued, in order, so that over a lifetime each element constructed is destroyed once |
| SpscCalls.IdleLap | src/utils/readerwriterqueue.h:204-228 | at every moment of every concurrent run with no call under way, a lap of the ring holds exactly the elements enqueued and not yet dequeued, in order, and adding up the blocks counts them: what size_approx returns and the destructor destroys |
| SpscCalls.IdleRing | src/utils/readerwriterqueue.h:214-222 | in such a state the slots that hold an element are exactly those between front and tail, which are the ones the destructor visits |
| SpscWaitFree.DequeueEnds | src/utils/readerwriterqueue.h:308-375 | whatever the producer does, a dequeue, pop or peek always has a next step until it has ended, and takes at most 14 |
| SpscWaitFree.EnqueueEnds | src/utils/readerwriterqueue.h:552-643 | whatever the consumer does, an enqueue always has a next step until it has ended, and takes at most 12 |
| RingOps.AllItems | src/utils/readerwriterqueue.h:493-506 | past the tail block the ring holds nothing, so a whole lap finds the queue and no more |
| Semaphore.RunOk | src/utils/atomicops.h:678-756 | in every interleaving of one waiter and one signaller in which no signal(0) meets a registered waiter, the count is what was signalled less the successful waits, less one exactly while a wait is registered; it is never below -1; kernel posts there and on the way are at most one; no more waits succeed than were signalled |
| Semaphore.RunExact | src/utils/atomicops.h:678-756 | for every run, all that holds throughout if and only if no signal(0) ever meets a registered waiter |
| Semaphore.AddExact | src/utils/atomicops.h:747-756 | adding to the count keeps all that if and only if something is added or nobody is waiting |
| Semaphore.SignalNothingFaults | src/utils/atomicops.h:747-756 | a run from the initial state, through the whole spin loop into the kernel, in which a wait succeeds though nothing was ever signalled |
| Semaphore.FailsOnlyOnNothing | src/utils/atomicops.h:704-735 | a wait that times out or a try that fails does so when nothing is available, leaves the count at zero, takes nothing and leaves no post behind |
| Semaphore.WaitGivesUpOnlyOnTimeout | src/utils/atomicops.h:694-719 | a wait returns false only after the kernel's wait timed out, or was interrupted, in that call |
| Semaphore.TryWaitNeverWaits | src/utils/atomicops.h:727-735 | tryWait neither spins nor sleeps |
| Semaphore.NoLostWakeup | src/utils/atomicops.h:694-703 | a waiter asleep in the kernel has something to wait for if and only if a post is there or on the way |
| Semaphore.RetriesOnlyForPost | src/utils/atomicops.h:709-719 | a timed-out wait goes round its loop again only while the post meant for it is on the way |
| Semaphore.AvailableExact | src/utils/atomicops.h:758-762 | exactly how far availableApprox can be behind |
| BlockingQueue.RunOk | src/utils/readerwriterqueue.h:784-943 | queue and semaphore keep their invariants composed, what was published is what was signalled and what was removed is what was waited for, but for one element each on the way |
| BlockingQueue.WaitedCallsSucceed | src/utils/readerwriterqueue.h:861-943 | in every interleaving every successful wait is followed by an inner call that succeeds, with the element that was the oldest when it began, so no assertion fails; what was delivered precedes what is queued |
| BlockingQueue.ReturnsWhatItDelivers | src/utils/readerwriterqueue.h:861-903 | the element returned is the one removed |
| BlockingQueue.GivesUpOnlyOnEmpty | src/utils/readerwriterqueue.h:893-903 | a wait that gives up does so when nothing is queued but at most one element not yet signalled |
| BlockingQueue.CallsWaitAsAsked | src/utils/readerwriterqueue.h:861-943 | in every run try_dequeue and pop never wait, wait_dequeue waits without a limit, and the timed call for as long as asked |
| BlockingQueue.WaitDequeueNeverGivesUp | src/utils/readerwriterqueue.h:876-883 | wait_dequeue goes on waiting until a wait succeeds |
| BlockingQueue.TimedGivesUpOnlyOnTimeout | src/utils/readerwriterqueue.h:893-903 | the timed call gives up only after the kernel's wait timed out in it |
| BlockingQueue.TryEnqueueNeverAllocates | src/utils/readerwriterqueue.h:785-793 | until a try_enqueue has returned nothing is allocated |
| BlockingQueue.SleepsOnlyOnEmpty | src/utils/readerwriterqueue.h:876-883 | a consumer asleep with no post on its way faces a queue empty but for what an enqueue under way is about to signal |
| BlockingQueue.SizeApproxBounds | src/utils/readerwriterqueue.h:945-950 | size_approx never exceeds the length, is at most two behind, and exact with no call under way |
| CircularBuffer.OneDropExact | src/utils/CircularBuffer.hpp:117-124 | dropping a single element leaves the newest that fit if and only if the buffer was within its capacity before |
| CircularBuffer.RunIsSuffix | src/utils/CircularBuffer.hpp:46-107 | after any pushes, pops, clears and capacity changes the buffer is within its capacity and is the newest of all that was pushed, in order |
| CircularBuffer.PushesKeepNewest | src/utils/CircularBuffer.hpp:60-76 | pushes alone leave as many of the newest as fit |
| CircularBuffer.CircularBuffer.Push | src/utils/CircularBuffer.hpp:60-70 | the newest that fit of the old contents and the new element; what left, left in order |
| CircularBuffer.CircularBuffer.TryPop | src/utils/CircularBuffer.hpp:78-87 | the oldest element, or nothing from an empty buffer |
| CircularBuffer.CircularBuffer.SetCapacity | src/utils/CircularBuffer.hpp:46-53 | the loop leaves the newest that fit the new capacity |
| FrameLedger.OneFate | src/core/RollingSegments.cpp:120-142 | a frame pushed is either buffered or evicted or cleared; it is in one snapshot at the most; and it is both saved and buffered exactly if it is in a snapshot not yet followed by its clear and not evicted since |
| FrameLedger.PushOk | src/utils/CircularBuffer.hpp:117-124 | the buffer stays the newest frames since the last clear, as many as fit, and every older frame stays evicted or cleared |
| RollingSegments.ExportExact | src/core/RollingSegments.cpp:63-94 | whatever the segment thread, the encoders and a stop do meanwhile, an export gets exactly the newest segments committed when it read seq_, oldest first, if and only if there are none, or no stop had removed the files or removed some before they were read and also it asked for fewer than the ring has slots, or the ring had not filled, or the next slot was untouched; without a stop only the oldest can be wrong, and after one the files not read are gone |
| RollingSegments.ExportOfRequest | src/core/RollingSegments.cpp:78-94 | the same in terms of the number asked for: the export is of that many segments, or of as many as the ring has slots or are committed |
| RollingSegments.WindowExport | src/core/RollingSegments.cpp:125-136 | in the window between slot write and increment an export of the full ring lists the newest segment first |
| RollingWindow.WrongExport | src/core/RollingSegments.cpp:125-136 | for every size of the ring and every request for all of it or more, a run from the start, without a stop, in which an export reads seq_ in the window and gets the wrong segments |
| RollingWindow.StoppedExport | src/core/RollingSegments.cpp:63-76 | for every size of the ring, a run in which a stop removes the one file that an export under way has listed |
| RollingWindow.TickSafeExact | src/core/MediaRecorder.cpp:64-66 | no tick of any run divides by zero if and only if the recording is as long as a segment |
| RollingWindow.RingSizeExact | src/core/MediaRecorder.cpp:64-66 | the recording is as long as so many segments, and not as long as one more |
| RollingSegments.CleanOutsideWindow | src/core/RollingSegments.cpp:125-136 | when failed ticks leave their slot alone, that window is the only time the next slot is touched |
| RollingSegments.RunOk | src/core/RollingSegments.cpp:40-151 | the ring, both frame ledgers and the exporter keep their invariants in every interleaving, through failing and damaging ticks, and through stops and starts at any moment of an export |
| RollingSegments.FramesConserved | src/core/RollingSegments.cpp:125-151 | in every interleaving at every moment, every frame of either stream has exactly one fate and is saved in one segment at the most; just the frames of a save not yet followed by its clear can be saved and buffered at once |
| RollingSegments.SavedInOrder | src/core/RollingSegments.cpp:120-142 | the snapshots of saved segments are disjoint and in push order, also across failed ticks, and none is empty in either stream |
| RollingSegments.ClearLosesLateFrames | src/core/RollingSegments.cpp:133-134 | the clear after a save discards unsaved exactly the frames pushed since the snapshot |
| RollingFates.ClearedUnsaved | src/core/RollingSegments.cpp:125-134 | in every run, the frames cleared and in no saved segment are exactly those pushed between a snapshot and the clear that followed its save, and those in the buffer when the recorder stopped |
| RollingFates.SavedEvicted | src/core/RollingSegments.cpp:125-134 | in every run, a saved frame was evicted too if and only if it made way for a newer frame between the snapshot that saved it and the clear that followed |
| SegmentRing.ListSlots | src/core/RollingSegments.cpp:83-94 | the list has the slots of the last sequence numbers in order, no slot twice, and no more than asked for or than the ring has |
| SegmentRing.Distinct | src/core/RollingSegments.cpp:89-94 | within a lap of the ring no slot comes twice |
| Interleave.SaveAv | src/core/RollingSegments.cpp:149-302 | the packets written are a stable merge of a prefix of each rebased stream, in order of time with video first at the same time; each carries its input's data, and all of a stream are moved in presentation and decoding time by the same amount, which the last input gives; no write before the last failed, and one stream is written whole unless the next one failed; nothing left over comes before anything written; missing frames of either stream are errors |
| Interleave.NotLaterExact | src/core/RollingSegments.cpp:263-264 | the comparison by cross-multiplication is that of the times in seconds |
| Interleave.RebasedExact | src/core/RollingSegments.cpp:243-250 | for timestamps that start at or above zero and advance by a frame or more, the offset is never clamped, and a frame ends up as far before its gapless place as there are gaps after it |
| Interleave.RebasedGapless | src/core/RollingSegments.cpp:243-257 | all frames end up in their gapless places if and only if there are no gaps, and the first is before zero if and only if there are |
| Rotation.Rotate90Then270 | src/core/video/ScreenRecorderBase.cpp:132-180 | 90 and 270 degrees undo each other, in either order |
| Rotation.Rotate90Twice | src/core/video/ScreenRecorderBase.cpp:132-162 | 90 degrees twice is 180 |
| Rotation.Rotate180Twice | src/core/video/ScreenRecorderBase.cpp:147-162 | 180 degrees twice changes nothing |
| Rotation.Rotate90Thrice | src/core/video/ScreenRecorderBase.cpp:132-180 | 180 and then 90 degrees is 270 |
| Rotation.CommentInBounds | src/core/video/ScreenRecorderBase.cpp:137 | the index formula of the comment stays in the old image if and only if that is square |
| Rotation.CommentExact | src/core/video/ScreenRecorderBase.cpp:137-146 | on a square image it is what the loop computes if and only if the image is its own transpose |
| Rotation.CommentWrong | src/core/video/ScreenRecorderBase.cpp:137-146 | an image for which it is not |
| Rotation.RotateInto90 | src/core/video/ScreenRecorderBase.cpp:132-146 | for all sizes and any stride with room for a row, the loop leaves the image turned by 90 degrees, writing each pixel once and in bounds |
| Rotation.RotateInto180 | src/core/video/ScreenRecorderBase.cpp:147-162 | the same for 180 degrees |
| Rotation.RotateInto270 | src/core/video/ScreenRecorderBase.cpp:163-180 | the same for 270 degrees |
| Rotation.Recorder.PrepareFrameData | src/core/video/ScreenRecorderBase.cpp:112-183 | for each rotation and every size, where each pixel of what comes back was in the source; in the size the encoder was told, and in a buffer of exactly the stride times the encoder's height when it was turned |
| Rotation.CopyFrame | src/core/video/VideoEncoderQueue.cpp:66-79 | the copy for the encoder is stride times height bytes and holds the same image |
| VideoPipeline.RunOk | src/core/video/VideoEncoderQueue.cpp:54-136 | conservation, order and the stop protocol are kept by every step, over any number of starts and stops |
| VideoPipeline.Conservation | src/core/video/VideoEncoderQueue.cpp:66-136 | for any captures, drops and encoder failures, frames attempted are frames dropped, handed over, in hand, queued or being pushed, each once; PTS values reach the encoder, and packets leave it, strictly increasing |
| VideoPipeline.StopDrains | src/core/video/ScreenRecorderBase.cpp:72-83 | when stop returns the queue is empty and every accepted frame was handed to the encoder, once, in order |
| VideoPipeline.BufferExact | src/core/video/VideoEncoderQueue.cpp:95-136 | in every run the encoded buffer holds the packets that came out since it was last emptied, in order, all of them or as many of the newest as it has room for |
| VideoPipeline.DropsOnlyWhenFull | src/core/video/VideoEncoderQueue.cpp:80-88 | in every run a frame is dropped only if 1024 frames were queued when its push began |
| VideoPipeline.PushCanSucceed | src/core/video/VideoEncoderQueue.cpp:80-84 | a push may succeed whatever is queued, and then queues its frame last |
| VideoPipeline.CodecLags | src/core/video/VideoEncoder.cpp:219-236 | in every run, over any number of sessions, the codec holds back one frame for each call that took a frame and yielded no packet |
| VideoPipeline.AllEmittedExact | src/core/video/VideoEncoder.cpp:219-236 | every frame the codec took has come out if and only if there was no such call |
| VideoPipeline.PacketFromBefore | src/core/video/ScreenRecorderBase.cpp:50-83 | a run in which a stop leaves a frame in the codec, and its packet is the first in the buffer of the next session |
| VideoPipeline.Drain | src/core/video/VideoEncoderQueue.cpp:118-133 | the drain loop on the queue class hands over everything queued in order and leaves nothing |
| Pacing.RecordingLoop | src/core/video/ScreenRecorderBase.cpp:89-110 | for any capture times and any oversleeping the starts are spaced and never early; after a capture that was in time the next starts at the deadline, and after one that was not at once, or as much later as the thread wakes late; and the deadlines keep to the grid if and only if no capture ends after its grid deadline |
| Pacing.ScheduleSpaced | src/core/video/ScreenRecorderBase.cpp:89-110 | capture j starts no earlier than capture i and a frame's length for each capture between |
| Pacing.NoBurst | src/core/video/ScreenRecorderBase.cpp:98-108 | after a stall captures do not bunch up: a window has at most two more than frames fit in it |
| Mixing.MixSamples | src/core/audio/AudioMixer.cpp:171-190 | each sample both have becomes the 16-bit number nearest to the sum, the rest of the output stays |
| Mixing.MixRound | src/core/audio/AudioMixer.cpp:139-150 | each position of the output is the saturating mix of the samples of the frames that reach it |
| Mixing.MixedMonotone | src/core/audio/AudioMixer.cpp:171-190 | larger inputs never give a smaller output |
| Mixing.MixedLipschitz | src/core/audio/AudioMixer.cpp:171-190 | the output moves by no more than the inputs together |
| Mixing.OrderFreeExact | src/core/audio/AudioMixer.cpp:141-150 | all orders of a list of samples agree if and only if they have one sign or neither sign alone can clip, and then on the clamped sum |
| Mixing.TwoStreams | src/core/audio/AudioMixer.cpp:171-190 | up to two streams always give the clamped sum |
| Mixing.ThreeStreamsDiffer | src/core/audio/AudioMixer.cpp:141-150 | three streams whose order matters |
| Mixing.RoundOrderFree | src/core/audio/AudioMixer.cpp:141-150 | when all orders of the samples at a position give their clamped sum, so does every order of visiting whole frames of any lengths |
| Mixing.RoundOrderExact | src/core/audio/AudioMixer.cpp:141-150 | for whole frames of any lengths, all orders of visiting the streams agree at a position if and only if the samples there have one sign or neither sign alone can clip, and then on the 16-bit number nearest to their sum |
| AudioMixer.Lockstep | src/core/audio/AudioMixer.cpp:120-150 | in every interleaving of the steps of the mixer's calls with those of the pushing threads, round k mixes the k-th frame accepted from every stream; only the last round after a stop may lack some |
| AudioMixer.ReadyRoundsAreWhole | src/core/audio/AudioMixer.cpp:100-137 | once all streams were found ready each dequeue of the round succeeds with the frame peeked, whatever is pushed meanwhile |
| AudioMixer.NeverStuck | src/core/audio/AudioMixer.cpp:100-150 | no call of the mixer's fails an assertion of the queue's, so its thread always has a next step |
| AudioProgress.RoundComes | src/core/audio/AudioMixer.cpp:100-150 | in every run, when every stream has a frame for the next round, that round is there after a bounded number of the mixer's own steps, unless a stop is asked for |
| AudioProgress.EndsOnlyOnStop | src/core/audio/AudioMixer.cpp:128 | the mixer thread ends only after a stop was asked for |
| SpscClient.FetchStep | src/utils/readerwriterqueue.h:285-376 | a step of a try_dequeue that must succeed keeps it on its way to the next element, and the call removes that element when it returns it |
| SpscClient.PeekStep | src/utils/readerwriterqueue.h:384-421 | a peek removes nothing, and one that has found an element leaves the queue not empty |
| AudioMixer.RoundOutput | src/core/audio/AudioMixer.cpp:139-150 | the output of a whole round k is at every position the mix of the k-th frames that reach it |
| Settings.Lookup | src/Settings.cpp:52-66 | what every path of the merged table comes to, from what it comes to in the file and in the defaults |
| Settings.LoadedSettings | src/Settings.cpp:68-91 | a value reads from the merged settings exactly if the file gives it, or the defaults do and the file has nothing on the way |
| Settings.OverTwice | src/Settings.cpp:52-66 | merging the same file again changes nothing |
| Settings.OverSelf | src/Settings.cpp:52-66 | a table merged with itself is itself |
| Settings.AssociativeExact | src/Settings.cpp:52-66 | merging three tables is associative if and only if, wherever the outer two have tables and the middle one something else, the last leaves nothing of the first's |
| Settings.AssociativeByPaths | src/Settings.cpp:52-66 | the same condition, path by path |
| Settings.CoversExact | src/Settings.cpp:52-66 | one table leaves nothing of another if and only if merging it on that gives itself |
| Settings.NotAssociative | src/Settings.cpp:52-66 | three tables whose merge depends on the order |
| Settings.Toml.MergeInto | src/Settings.cpp:52-66 | the loop, over the keys in any order and recursing in place, leaves the merged table |
| Settings.Load | src/Settings.cpp:68-91 | the defaults' parse error comes first, then the file's, else the merged table |

## Left out

- SpscQueue.Queue.constructor: a block that cannot be allocated makes the original throw.
- Capacity.MaxOk: a MAX_BLOCK_SIZE of 2^63, twice which does not fit a word, is not modelled, nor is one so large that the number of bytes of a block does not fit a word.
- SpscQueue.Node: the slots of a block are a sequence in a field and not raw memory, so which slots hold a constructed element is only in the step system (`SpscCalls.RunSafe`).
- SpscQueue.Queue.Valid: ties the class to its ghost sequence for one thread at a time; two threads are the step system's.
- VideoPipeline.State: the queue between the threads is a sequence with try_enqueue and try_dequeue as single steps, as `SpscCalls` proves of their results; the rotated bytes are in `Rotation`.
- AudioMixer.State: streams are not added or removed while the mixer runs, and the encoder call after the mix and its PTS counter are not modelled.
- RollingSegments.Step: stop removes all files in one step, not one after another; a file that an export reads at that moment counts as read or as gone.
- RollingSegments.FramesConserved: saved means in the snapshot of a saved segment; a failed write in the middle, or the tail of the longer stream, keeps packets of a saved snapshot out of the file (`Interleave.SaveAv` says which).
- Pacing.RecordingLoop: time is a number of microseconds that never runs backwards, and sleeping only promises not to wake early.
- Settings.Toml: a nested table is a value that the recursive call updates through an object of its own, not an alias into the outer table; formatting, dumping and parsing of TOML are left out.
- Memory ordering, fences, cache lines, alignment, the reentrancy guard and moving a queue: the atomics are sequentially consistent steps.
- Kernel semaphores: a counter with wait, timed wait, try-wait and post.
- The codec, the scaler, the muxer and the external concat process: encoding is a step that may fail, hold a frame back or emit packets in order; a slot holds a segment value.
- Integers wider than they need to be: sequence numbers, timestamps and frame counts do not overflow; only word arithmetic in the queue and 16-bit samples wrap or saturate.
- Platform capture, audio devices, the tray, the HTTP interface, logging, size and string parsing: no state of interest here.
