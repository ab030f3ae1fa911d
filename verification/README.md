# Verification of Peli's runtime and video core

Peli reads video frames at random: a reader seeks and decodes with a worker thread, copies frames into shared
arrays, and runs parallel loops on a thread pool of its own. This project models the parts of it that have state
worth arguing about, and proves what they are relied on for.

Run `dafny verify dfyconfig.toml` (Dafny 4.11).

## The modules

**Protocols between threads** are total step functions over an explicit program counter for every thread; a blocked
thread's step leaves the state alone, so a schedule is any sequence of actions, and a theorem about `Run` holds in
every reachable state.

- `SpscTaskQueue`: the single-producer single-consumer ring with its `pending_` counter, mutex and condition
  variable, for any ring size of at least two; one atomic access per step. `ProducerStep`, `ConsumerStep` and
  `KillerStep` are `Push`/`Enqueue`, `Pop` and `SignalForKill`.
- `ThreadPool`: `Launch` and `RunWorker` over one such queue per worker, any number of workers and launches, with
  `SignalJobError` as the two accesses it is.
- `Barrier`: the counter barrier, every counter read a step of its own.
- `ThreadedDecoder`: `Push`, `Pop`, the worker loop with its drain phase and 128 end markers, `Clear`, `Start`, and a
  codec that holds packets back and answers as it likes.

**Objects that change in place** are classes whose methods follow the source statement by statement, each proved
against functions or predicates on values.

- `WorkspaceSpec` and `Workspace`: the best-fit recycling allocator, first as functions on lists, with the memory
  bound and the replay theorem, then as the class with its backward scans and shifts, and the table of pools.
- `VideoIndex`, `VideoStream` and `VideoReader`: the index of timestamps and keyframes, the demuxer and decoder the
  reader relies on (a forward seek lands anywhere), and the reader with accurate seeks, skips and batches.
- `NDArraySpec` and `NDArray`: reference-counted containers, views and tensor exchange; an object is named by its
  address and a deleted one is in no map, so no method can follow a pointer to it.
- `Samplers`: the enumerating samplers and the random-file-order sampler.
- `ModuleGraph`: the import graph and its search for a way back.
- `TypeString`: printing and parsing of data types, with `strtoul` written out.

## Where the code does not do what one would expect

Each of these is stated exactly, for all inputs; where it takes a run of calls to get there, the run is given too.

- A request within a page of 2^64 bytes is rounded to a block that is too small (`RoundedHoldsRequest`).
- Freeing the null address when nothing is handed out takes the guard entry off the list (`FreeKeepsInvExactly`).
- An accurate seek to a keyframe puts the keyframe aside and counts it as passed. Going to the frame behind it, a
  batch that begins there, and skipping do not take that back, so what is read next is the keyframe (`Do`,
  `StaleKeyframe`).
- `SignalJobError` counts the task as finished before it sets the error flag, so `Launch` can return 0 although a
  task has failed (`ReturnCodeExact`, `ReturnCodeCanMissAFailure`), and the flag can come into the next launch, which
  then returns -1 although none of its tasks has failed (`LateFlagSpoilsTheNextLaunch`).
- A `Pop` begun after all 128 end markers have been taken, but before the worker has taken `draining_` back, waits
  for good unless another packet comes or the decoder fails (`ServedExactly`, `StrandedForGood`, `PopCanBeStranded`).
- `CreateView` and `CreateOffsetView` compare sizes that may have wrapped around, and the latter a sum that may
  (`MadeKeepsBounds`, `ShapeWraps`, `WrappedShapeIsOutOfBounds`, `WrappedViewIsOutOfBounds`).
- `Init` makes the counters of the barrier anew only when there are too few error messages, of which it makes one more;
  a launch of one task more than the last that made them has a counter too few (`CountersSuffice`, `ThreeAfterTwo`).
- `IndexKeyframes` records keyframes by decoding order and uses them as frame numbers, which they are exactly when
  that many packets have smaller timestamps, or fewer but more no greater ones (`PositionIsFrameNumber`,
  `OpenGroupMisleads`).
- The enumerating samplers leave out a batch that ends on the last frame of the range, the closed form of the
  random-file-order sampler does not (`SamplersAgree`).
- The samplers mean a negative end of a range to count from the end of the video; it comes out behind the end and is
  always refused (`RangesOkExactly`).
- A handle type prints without its width, so only the 64-bit scalar one is read back (`PrintedTypeIsParsed`).

## Model

| member | source | states |
|---|---|---|
| `SpscTaskQueue.NextIndexIsModulo` | src/runtime/thread_pool.cc:204-206 | the next index in the ring is the remainder the source computes |
| `SpscTaskQueue.RunKeepsInv` | src/runtime/thread_pool.cc:144-210 | ring contents, counter, mutex and wake-up obligations are kept by every interleaving of producer, consumer, killer and spurious wake-ups |
| `SpscTaskQueue.QueueIsFifo` | src/runtime/thread_pool.cc:160-210 | in every reachable state the popped tasks are a prefix of the pushed ones, `pending_` is between -1 and the capacity, no unread slot is about to be overwritten and the emptiness check has not failed |
| `SpscTaskQueue.NoLostWakeup` | src/runtime/thread_pool.cc:144-172 | a consumer asleep with `pending_` >= 0 has a producer on its way to notify it; never is a task unread, the producer out of `Push` and the consumer asleep |
| `SpscTaskQueue.HelpfulStep` | src/runtime/thread_pool.cc:144-182 | one of the two threads can always bring the oldest unread task strictly nearer to delivery |
| `SpscTaskQueue.DeliveryIsPossible` | src/runtime/thread_pool.cc:144-182 | from every such state the oldest unread task is delivered within a bounded number of steps, with no further push |
| `SpscTaskQueue.KilledConsumerLeaves` | src/runtime/thread_pool.cc:160-182 | once the queue has been shut down the consumer leaves it within ten steps of its own, from wherever it is |
| `SpscTaskQueue.KillerFinishes` | src/runtime/thread_pool.cc:187-191 | shutting down sets the flag and wakes a sleeper, and changes nothing else |
| `SpscTaskQueue.NothingIsPushedAfterShutdown` | src/runtime/thread_pool.cc:144-147 | after it a push that has not passed the check publishes nothing, in any interleaving |
| `SpscTaskQueue.FullRingLooksAgain` | src/runtime/thread_pool.cc:199-210 | a push that has found the ring full makes that check again |
| `SpscTaskQueue.SpuriousWakeIsHarmless` | src/runtime/thread_pool.cc:168-172 | a consumer woken for no reason goes back to sleep |
| `ThreadPool.RunKeepsInv` | src/runtime/thread_pool.cc:263-329 | where every task of the current launch is (not sent, being pushed, queued, held, signalled) is kept over any sequence of launches and any interleaving |
| `ThreadPool.TasksOfALaunch` | src/runtime/thread_pool.cc:263-297 | no task id is run twice, a worker runs a task under the launch that sent it, `num_pending_` is the number of tasks not yet signalled |
| `ThreadPool.LaunchBegins` | src/runtime/thread_pool.cc:263-278 | a request for n tasks begins a launch of n, one for none a launch of as many as there are workers in use, and a larger one is refused |
| `ThreadPool.LaunchReturnsAfterAll` | src/runtime/thread_pool.cc:69-95 | when `Launch` returns each of its tasks has run exactly once and signalled, and all queues are empty |
| `ThreadPool.RequestIsServed` | src/runtime/thread_pool.cc:263-297 | when the launch that was asked for returns, the tasks asked for and no others have run, each exactly once |
| `ThreadPool.RequestCanBeServed` | src/runtime/thread_pool.cc:263-297 | every request that is not refused can be served, whatever the outcomes of its tasks |
| `ThreadPool.PushFindsRoom` | src/runtime/thread_pool.cc:144-147 | no push of a launch finds its ring full, so the master does not spin there |
| `ThreadPool.ReturnCodeExact` | src/runtime/thread_pool.cc:69-91 | the return code tells whether a task failed if and only if not all failed tasks are still between their two accesses and no flag of an earlier launch came late |
| `ThreadPool.ReturnCodeCanMissAFailure` | src/runtime/thread_pool.cc:87-91 | a run from a new pool in which a task fails and `Launch` returns 0 |
| `ThreadPool.LateFlagSpoilsTheNextLaunch` | src/runtime/thread_pool.cc:87-91 | it goes on to a launch that returns -1 although its task has succeeded |
| `ThreadPool.StepNearer` | src/runtime/thread_pool.cc:263-329 | while the master is inside `Launch` some thread's step brings its return strictly nearer, whether the task it may run succeeds or fails |
| `ThreadPool.LaunchCanFinish` | src/runtime/thread_pool.cc:263-329 | from every state that keeps the invariant with the master inside `Launch` these steps make that launch return, whatever the outcomes of its tasks, and each of them has then run exactly once |
| `Barrier.RunKeepsInv` | src/runtime/thread_pool.cc:366-383 | what a task in the middle of its scan knows of the others is kept by every interleaving |
| `Barrier.BarrierIsSafe` | src/runtime/thread_pool.cc:366-383 | nobody leaves the k-th barrier before all have entered it, and counters differ by at most one, in every reachable state |
| `Barrier.BlockedByStraggler` | src/runtime/thread_pool.cc:373-379 | a task makes no progress exactly when the one it looks at has entered less often |
| `Barrier.SomeoneReturns` | src/runtime/thread_pool.cc:373-382 | when all are inside, one of them can return with no help of the others |
| `Barrier.BarrierOpens` | src/runtime/thread_pool.cc:366-383 | once all have entered, a task inside has returned after every schedule that gives it the steps its scan has left, whatever the others do meanwhile |
| `Barrier.BarrierEmpties` | src/runtime/thread_pool.cc:366-383 | and some schedule takes all of them out, wherever each is in its scan |
| `Barrier.CountersSuffice` | src/runtime/thread_pool.cc:48-54 | after any launches a launch has a counter for each task if and only if it does not have exactly one task more than the last for which the arrays were made |
| `Barrier.ThreeAfterTwo` | src/runtime/thread_pool.cc:48-54 | three tasks after two have two counters |
| `WorkspaceSpec.RoundedHoldsRequest` | src/runtime/workspace_pool.cc:26-29 | the rounded size holds the request if and only if the rounding does not wrap around at 2^64 |
| `WorkspaceSpec.RoundedIsLeast` | src/runtime/workspace_pool.cc:28-29 | as long as it does not, the rounded size is the least number of whole pages, at least one, that holds the request |
| `WorkspaceSpec.AllocIsBestFit` | src/runtime/workspace_pool.cc:35-64 | the block handed out is large enough and a smallest sufficient free one; the device is asked exactly when no free block suffices, for exactly the rounded size |
| `WorkspaceSpec.AllocKeepsInv` | src/runtime/workspace_pool.cc:26-65 | after an allocation the free list is sorted behind its header, no block is listed twice, and the device has in use what others have and the pool's blocks |
| `WorkspaceSpec.FreeFindsTheBlock` | src/runtime/workspace_pool.cc:67-79 | the backward scan finds the entry exactly when the address is handed out, and stops before the header |
| `WorkspaceSpec.FreeKeepsInvExactly` | src/runtime/workspace_pool.cc:67-93 | `Free` keeps the pool well formed and its blocks the same if and only if it is not called with null while nothing is handed out |
| `WorkspaceSpec.RunKeepsGood` | src/runtime/workspace_pool.cc:26-93 | the pool invariant holds after every run of allocations and frees |
| `WorkspaceSpec.OwnedIsPeak` | src/runtime/workspace_pool.cc:26-93 | after any run the pool owns exactly as many device blocks as were ever handed out at once |
| `WorkspaceSpec.DeviceIsTold` | src/runtime/workspace_pool.cc:35-64 | over any run no call on the device frees what is not in use or gets what is, the calls explain what is in use, and every block of the pool is as large as it was made |
| `WorkspaceSpec.ReleaseReturnsEverything` | src/runtime/workspace_pool.cc:95-101 | when all has come back, `Release` returns every block to the device exactly once and leaves in use just what others use |
| `WorkspaceSpec.ServeOne` | src/runtime/workspace_pool.cc:48-53 | taking a smallest sufficient block for one request leaves enough for the others |
| `WorkspaceSpec.DominatedNeedsNoDevice` | src/runtime/workspace_pool.cc:26-93 | a run whose requests are dominated by the free list makes no device call, whatever their order and the frees in between |
| `WorkspaceSpec.ReplayNeedsNoDevice` | src/runtime/workspace_pool.h:17-23 | after some allocations and their frees in any order, a phase that asks for no more than the same sizes is served from the free list alone |
| `Workspace.Pool.Alloc` | src/runtime/workspace_pool.cc:26-65 | the method makes the pool and the device what the functions say for the rounded size, and keeps them well formed |
| `Workspace.Pool.Grow` | src/runtime/workspace_pool.cc:55-60 | the largest free block is given back and replaced by one of the size asked for |
| `Workspace.Pool.TakeSmallestFit` | src/runtime/workspace_pool.cc:48-53 | the scan from the large end takes the first sufficient entry of the sorted list |
| `Workspace.Pool.Free` | src/runtime/workspace_pool.cc:67-93 | the method makes the pool what the function says, and fails exactly when the address is refused |
| `Workspace.Pool.FindEntry` | src/runtime/workspace_pool.cc:74-76 | the index is that of the last entry with the address, or zero |
| `Workspace.Pool.ShiftIn` | src/runtime/workspace_pool.cc:86-91 | shifting in place inserts the entry where the list stays sorted |
| `Workspace.Pool.Release` | src/runtime/workspace_pool.cc:95-101 | refused while blocks are out; otherwise every free block is given back and only what others use stays in use |
| `Workspace.WorkspacePool.AllocWorkspace` | src/runtime/workspace_pool.cc:131-139 | the table grows as needed, the right pool serves the request and no other pool changes |
| `Workspace.WorkspacePool.FreeWorkspace` | src/runtime/workspace_pool.cc:141-145 | refused exactly when the device has no pool or has not handed the address out; no other pool changes |
| `Workspace.WorkspacePool.Destroy` | src/runtime/workspace_pool.cc:119-129 | the destructor goes through exactly when nothing is handed out anywhere, and then the device has in use just what it had at the start |
| `VideoIndex.IndexKeyframes` | src/video/video_reader.cc:466-513 | sorted timestamps of all packets of the stream, decoding positions of the key packets, and the first position of every timestamp |
| `VideoIndex.ActivePackets` | src/video/video_reader.cc:479-498 | the packets of the active stream, all of them, in their order |
| `VideoIndex.PositionIsFrameNumber` | src/video/video_reader.cc:494-508 | the sorted timestamps have a packet's timestamp at its position c if and only if at most c packets have smaller timestamps and more than c have no greater ones |
| `VideoIndex.OpenGroupMisleads` | src/video/video_reader.cc:494-508 | three packets with an open group whose second keyframe is recorded as the wrong frame |
| `VideoIndex.IndexIsWellFormed` | src/video/video_reader.cc:466-513 | for closed groups of pictures the index is what the reader assumes: increasing timestamps, keyframe positions that are frame numbers |
| `VideoReader.Reader.Seek` | src/video/video_reader.cc:294-318 | a backward seek ends on the last keyframe not after the target; a forward seek claims the position but may be on any keyframe or at the end; a forward seek that fails is tried backward, and what fails twice by frame number |
| `VideoReader.Reader.RawSeek` | src/video/video_reader.cc:294-318 | what is read next is frame `pos` if and only if the keyframe put aside is that frame or, with none put aside, the reader was there or landed on it, which a seek that is backward or exact does exactly when `pos` is a keyframe |
| `VideoReader.Reader.KeyframeLocated` | src/video/video_reader.cc:320-326 | the keyframe located is the last one not after the frame |
| `VideoReader.Reader.CheckKeyFrame` | src/video/video_reader.cc:597-634 | true exactly when the seek has landed where it claims; otherwise the position becomes that behind the frame decoded, or the end |
| `VideoReader.Reader.SkipFramesImpl` | src/video/video_reader.cc:636-660 | passes over exactly min(num, frames left) frames and leaves the decoder in step, discarding none of the later pictures |
| `VideoReader.Reader.SeekAccurate` | src/video/video_reader.cc:328-366 | wherever the forward seeks land, what is read next is frame `pos`, if and only if no keyframe put aside earlier was waiting when `pos` was already current; a keyframe is put aside only when `pos` is one, and always when forward seeks land where they aim; it seeks exactly when `pos` is before the current frame or behind another keyframe |
| `VideoReader.Reader.ViaKeyframe` | src/video/video_reader.cc:339-360 | rewinding, seeking forward, checking and correcting ends at `pos` in every case, and asks for these seeks in that order |
| `VideoReader.Reader.NextFrame` | src/video/video_reader.cc:406-464 | hands out the keyframe put aside or else the frame the decoder is at, nothing at the end, and stays in step if it was |
| `VideoReader.Reader.SkipFrames` | src/video/video_reader.cc:575-595 | with or without the shortcut over a keyframe the position is that of as many single skips, both searches find a keyframe, and a keyframe put aside is still what is read next; it seeks exactly when a keyframe is crossed, to the last one |
| `VideoReader.SkipsAdd` | src/video/video_reader.cc:575-580 | that many single skips end at the smaller of the target and the end |
| `VideoReader.FirstOccurrences` | src/video/video_reader.cc:665-674 | the map has the first position of every index |
| `VideoReader.FirstsOnce` | src/video/video_reader.cc:665-674 | the list of first occurrences has every index exactly once |
| `VideoReader.SourceSlot` | src/video/video_reader.cc:688-691 | the running offset divided by the slot number, times the first slot, is exactly where that slot begins, and it does not overlap the slot written |
| `VideoReader.SlotsApart` | src/video/video_reader.cc:680-707 | the views of different slots do not overlap |
| `VideoReader.FillSlot` | src/video/video_reader.cc:707-708 | writing a slot leaves the earlier slots and the rest of the buffer as they are |
| `VideoReader.CopySlot` | src/video/video_reader.cc:690-693 | copying a slot gives the new slot the same picture and leaves the others |
| `VideoReader.Reader.GetBatch` | src/video/video_reader.cc:662-712 | every slot holds the frame its index names, every distinct index is decoded once in order of first occurrence, refusal exactly for an index out of range or a buffer too small |
| `VideoReader.Reader.Do` | src/video/video_reader.cc:328-712 | a read, accurate seek, skip or batch, after any calls whatever, hands out what is asked for and ends where it should if and only if no keyframe put aside is in the way |
| `VideoReader.Reader.Play` | src/video/video_reader.cc:328-712 | any run of reads, accurate seeks, skips and batches that is careful after a seek, such as one that reads after each, hands out exactly the frames asked for; only skips over a keyframe need exact seeks |
| `VideoReader.ReadingAfterSeeksIsCareful` | src/video/video_reader.cc:328-464 | any run in which every accurate seek is followed by a read is careful; only its skips need exact seeks |
| `VideoReader.StaleKeyframe` | src/video/video_reader.cc:328-366 | every call that is not careful gets the keyframe instead, from a state a new reader reaches by one seek; given out are then exactly the frames stated, and a skip has moved the position |
| `ThreadedDecoder.RunKeepsInv` | src/video/ffmpeg/threaded_decoder.cc:44-235 | counters, queues, codec, drain phase and shutdown stay consistent in every interleaving |
| `ThreadedDecoder.FrameCountIsQueueLength` | src/video/ffmpeg/threaded_decoder.cc:117-171 | without an error `frame_count_` is the length of the frame queue, less one item pushed and not counted, plus one taken and not discounted |
| `ThreadedDecoder.OneItemPerPacket` | src/video/ffmpeg/threaded_decoder.cc:183-235 | between packets there has been one item per normal packet; after draining also the remaining frames and 128 end markers |
| `ThreadedDecoder.FramesInCodecOrder` | src/video/ffmpeg/threaded_decoder.cc:140-235 | frames are taken in codec order, each from a packet pushed since the last `Clear`, none twice |
| `ThreadedDecoder.FramesFillTheirBuffers` | src/video/ffmpeg/threaded_decoder.cc:140-171 | frame number f of the codec's output is written into buffer number f of those pushed |
| `ThreadedDecoder.PushAddsExactly` | src/video/ffmpeg/threaded_decoder.cc:103-115 | a push that is over has added exactly its packet and its buffer to the two queues, whatever went on meanwhile; only the end of the stream may have added nothing |
| `ThreadedDecoder.PushCompletes` | src/video/ffmpeg/threaded_decoder.cc:103-115 | its own steps complete it; the end of the stream is refused exactly when it has been announced before |
| `ThreadedDecoder.ItemsWereLookedAt` | src/video/ffmpeg/threaded_decoder.cc:140-171 | every frame on the queue was looked at once: it has no picture if it was to be discarded at that moment, and otherwise it is in its buffer |
| `ThreadedDecoder.ExactlyTheseAreDiscarded` | src/video/ffmpeg/threaded_decoder.cc:140-171 | while the set of frames to be discarded stays the same, exactly those in it come out without a picture |
| `ThreadedDecoder.DiscardedAreSuggested` | src/video/ffmpeg/threaded_decoder.cc:75-101 | in every run the frames to be discarded are those suggested since the set was last emptied |
| `ThreadedDecoder.FramesAreAQueue` | src/video/ffmpeg/threaded_decoder.cc:117-235 | a push adds its frame behind those ready, a take hands out the first of them, no other step touches them: what the reader's model of the decoder builds on |
| `ThreadedDecoder.NothingIsDropped` | src/video/ffmpeg/threaded_decoder.cc:140-235 | the frames taken, those ready and the one in hand are together the codec's output |
| `ThreadedDecoder.HelperStep` | src/video/ffmpeg/threaded_decoder.cc:103-134 | while a `Pop` waits, a step of the worker or of a push under way serves it or brings that strictly nearer, for any answer of the codec |
| `ThreadedDecoder.OthersDoNotInterfere` | src/video/ffmpeg/threaded_decoder.cc:93-115 | no other action ends the wait or takes the worker further from its next item |
| `ThreadedDecoder.PopIsServed` | src/video/ffmpeg/threaded_decoder.cc:117-134 | a `Pop` past its guard gets an item or is woken by a failure within nine helpful steps, as long as fewer than 128 end markers have been taken, or a packet is queued or about to be sent, or the decoder is failing |
| `ThreadedDecoder.ServedPopReturns` | src/video/ffmpeg/threaded_decoder.cc:126-134 | a `Pop` that is served returns: empty-handed when the queue has been killed, otherwise with the first item taken and counted |
| `ThreadedDecoder.ServedExactly` | src/video/ffmpeg/threaded_decoder.cc:117-134 | a `Pop` that waits can be served without a new push if and only if fewer than 128 end markers have been taken, or a packet is queued or about to be sent, or the decoder is failing |
| `ThreadedDecoder.StrandedForGood` | src/video/ffmpeg/threaded_decoder.cc:117-134 | otherwise no action but a new push ends the wait |
| `ThreadedDecoder.PopCanBeStranded` | src/video/ffmpeg/threaded_decoder.cc:201-210 | a run that gets there |
| `ThreadedDecoder.ClearStops` | src/video/ffmpeg/threaded_decoder.cc:56-74 | up to the join `Clear` does not wait; it takes back `run_` and wakes everybody |
| `ThreadedDecoder.ClearReturns` | src/video/ffmpeg/threaded_decoder.cc:56-91 | `Clear` does not wait for ever: the worker exits within a bounded number of steps whatever the codec answers, and what is left knows nothing of the past |
| `ThreadedDecoder.ClearCompletes` | src/video/ffmpeg/threaded_decoder.cc:56-91 | from every reachable state in which it can be called `Clear` leaves a decoder like a new one, whatever the codec still answers |
| `NDArray.GetDataSize` | include/peli/runtime/ndarray.h:333-340 | the wrapping loop computes the product of all dimensions and the element size, modulo 2^64 |
| `NDArray.ExtentInBits` | include/peli/runtime/ndarray.h:333-340 | the size is that of all elements' bits in whole bytes, a bool taking one |
| `NDArray.ValidTypeExactly` | src/runtime/ndarray.cc:18-28 | the types accepted are those of at least one lane and a width of whole bytes that is a power of two or none, and the flag for bool |
| `NDArray.Arrays.DecRef` | include/peli/runtime/ndarray.h:283-290 | one reference less; with the last one the cascade through views and exports runs, terminates and keeps every count exact |
| `NDArray.Arrays.DefaultDeleter` | src/runtime/ndarray.cc:38-47 | a view lets go of its array, an owner gives its memory back |
| `NDArray.Arrays.DLPackDeleter` | src/runtime/ndarray.cc:53-59 | the tensor the container was made from is deleted by whoever it belongs to |
| `NDArray.Arrays.NDArrayDLPackDeleter` | src/runtime/ndarray.cc:194-197 | an exported tensor lets go of its container |
| `NDArraySpec.UnrefIsGood` | include/peli/runtime/ndarray.h:283-290 | after the cascade all invariants hold with one reference less |
| `NDArraySpec.UnrefLeavesAlone` | src/runtime/ndarray.cc:38-59 | the cascade touches no array and no tensor that nobody has imported |
| `NDArray.Arrays.ResetArray` | include/peli/runtime/ndarray.h:320-325 | the array refers to nothing, every other one to what it did |
| `NDArray.Arrays.Declare` | include/peli/runtime/ndarray.h:40-44 | the new array refers to nothing and has no timestamp |
| `NDArray.Arrays.CopyConstruct` | include/peli/runtime/ndarray.h:313-318 | a new array with the same container and pts, one reference more |
| `NDArray.Arrays.MoveConstruct` | include/peli/runtime/ndarray.h:62-65 | a new array takes over the reference, no count changes |
| `NDArray.Arrays.Swap` | include/peli/runtime/ndarray.h:74-77 | the two arrays change places, also when they are one |
| `NDArray.Arrays.CopyAssign` | include/peli/runtime/ndarray.h:83-87 | afterwards both refer to what the source did and nothing else has changed, self-assignment included |
| `NDArray.Arrays.MoveAssign` | include/peli/runtime/ndarray.h:93-97 | the target has what the source had and the source nothing; moving an array to itself changes nothing |
| `NDArray.Arrays.Empty` | src/runtime/ndarray.cc:144-155 | a new array with memory of its own of the size its shape asks for; refused exactly for an invalid type |
| `NDArray.Arrays.CreateView` | src/runtime/ndarray.cc:101-118 | a view with the array's memory from its beginning, made exactly when that is compact and large enough; otherwise everything is as it was |
| `NDArray.Arrays.CreateOffsetView` | src/runtime/ndarray.cc:120-138 | the same from the offset on, with the wrapped sum of size and offset; the offset moves behind the view exactly when it is made |
| `NDArraySpec.ViewIsPlaced` | src/runtime/ndarray.cc:101-138 | a view has the block of its array, from its beginning or from the offset asked for, and no other array changes |
| `NDArraySpec.TilesAdjoin` | src/runtime/ndarray.cc:120-138 | views made one after the other with the running offset lie side by side, each beginning where the one before it ends |
| `NDArraySpec.MadeKeepsBounds` | src/runtime/ndarray.cc:101-155 | an array, a view or an offset view that is made keeps all elements within the memory they share if and only if neither its size nor the sum of size and offset has wrapped |
| `NDArray.ShapeWraps` | include/peli/runtime/ndarray.h:333-340 | a shape of 2^64 + 8 bytes that counts as 8 |
| `NDArraySpec.WrappedShapeIsOutOfBounds` | src/runtime/ndarray.cc:109-130 | an array of 16 bytes has a view and an offset view of that size |
| `NDArraySpec.WrappedViewIsOutOfBounds` | src/runtime/ndarray.cc:130-136 | two operations from nothing that make such a view |
| `NDArray.Arrays.ToDLPack` | src/runtime/ndarray.cc:90-98 | a tensor over the same memory that counts as a reference |
| `NDArray.Arrays.FromDLPack` | src/runtime/ndarray.cc:157-164 | a new array over the memory of the tensor, which it owns from then on |
| `NDArray.Arrays.CallDeleter` | src/runtime/ndarray.cc:248-250 | releasing an outstanding tensor gives up its reference, or hands it back to its owner |
| `NDArray.Arrays.Apply` | src/runtime/ndarray.cc:36-164 | the operations that runs consist of are these methods, on arrays of bytes |
| `NDArraySpec.ReferencesAreConserved` | src/runtime/ndarray.cc:36-164 | after any run every counter is the number of live arrays, views and exports that refer to it, no memory in reach has been given back, and every container is needed by somebody |
| `NDArraySpec.NothingIsLost` | src/runtime/ndarray.cc:38-59 | when all arrays are gone and all tensors that have a deleter, every block has been freed exactly once and nothing but tensors without a deleter is left |
| `NDArraySpec.BytesStayInside` | src/runtime/ndarray.cc:101-138 | when nothing wraps around, the elements of every view of a view lie inside the block at the bottom |
| `Samplers.LoopCountIsExact` | src/sampler/sequential_sampler.cc:34-43 | batch k is enumerated exactly when it ends before the last frame of the range |
| `Samplers.ClosedCountIsExact` | src/sampler/random_file_order_sampler.cc:36-39 | batch k is counted exactly when its last frame is in the range |
| `Samplers.SamplersAgree` | src/sampler/random_file_order_sampler.cc:36-39 | the enumerated batches are a prefix of the counted ones, shorter by one exactly when the span left over is a non-negative multiple of the stride |
| `Samplers.BatchesAreDisjoint` | src/sampler/sequential_sampler.cc:36-43 | no frame is in two batches of a video, or twice in one |
| `Samplers.EnumerateVideo` | src/sampler/sequential_sampler.cc:34-43 | sample j of batch k is frame begin + k * (bs * (1 + interval) - interval + skip) + j * (interval + 1), for exactly the batches that end before the last frame of the range |
| `Samplers.Enumerate` | src/sampler/random_sampler.cc:16-47 | the constructor loop enumerates the plan of all videos, and refuses exactly ranges outside their videos |
| `Samplers.RangesOkExactly` | src/sampler/random_sampler.cc:27-36 | accepted are the ranges within their videos; a negative end never is |
| `Samplers.PlannedFrame` | src/sampler/random_sampler.cc:26-46 | the plan goes through the videos in order, and through each from its beginning: which frame every sample of it is |
| `Samplers.Shuffle` | src/sampler/random_sampler.cc:49-52 | any permutation |
| `Samplers.NewListSampler` | src/sampler/random_sampler.cc:16-47 | refused exactly for ranges outside their videos; otherwise every batch of the plan in order, from the beginning |
| `Samplers.ListSampler.Next` | src/sampler/random_sampler.cc:60-65 | the batches in order, refused exactly at the end |
| `Samplers.ListSampler.Epoch` | src/sampler/random_sampler.cc:49-65 | an epoch of the sequential sampler is the plan, one of the random sampler a permutation of it |
| `Samplers.FileOrderSampler.constructor` | src/sampler/random_file_order_sampler.cc:16-45 | every video is in the visit order as often as it has batches whose last frame is in its range, all cursors at the beginning |
| `Samplers.NewFileOrderSampler` | src/sampler/random_file_order_sampler.cc:16-45 | refused exactly without a batch size or for ranges outside their videos |
| `Samplers.FileOrderSampler.Reset` | src/sampler/random_file_order_sampler.cc:47-56 | a permuted order, cursors back at the beginning |
| `Samplers.FileOrderSampler.Next` | src/sampler/random_file_order_sampler.cc:62-78 | sample j of the k-th visit to a video is frame begin + k * (bs * (1 + interval) - interval + skip) + j * (interval + 1) of it; the check inside the loop never fails |
| `Samplers.FileOrderSampler.Epoch` | src/sampler/random_file_order_sampler.cc:47-78 | for every order an epoch delivers every planned batch exactly as often as planned |
| `ModuleGraph.ModuleNode.Import` | src/runtime/module.cc:29-45 | the search terminates on any graph, and the import is accepted if and only if the imported module does not reach this one |
| `ModuleGraph.ImportKeepsAcyclic` | src/runtime/module.cc:42-44 | an import keeps the graph acyclic if and only if the imported module does not reach the importing one |
| `ModuleGraph.ImportsStayAcyclic` | src/runtime/module.cc:18-45 | whatever is imported into whatever in whatever order, no module depends on itself |
| `TypeString.Parse` | include/peli/runtime/packed_func.h:917-954 | the scanning parser is the function the round trip is stated with |
| `TypeString.PrintedForms` | include/peli/runtime/packed_func.h:860-893 | what signed, unsigned, floating and handle types print for all widths and lanes, "bool" for exactly one of them |
| `TypeString.OtherPrintedForms` | include/peli/runtime/packed_func.h:860-893 | the names of the other codes |
| `TypeString.ParsedForms` | include/peli/runtime/packed_func.h:917-954 | what every name with a width, and lanes, is parsed as |
| `TypeString.ParsedNames` | include/peli/runtime/packed_func.h:917-944 | the default widths, "bool", and the empty string |
| `TypeString.SignedNumberIsRead` | include/peli/runtime/packed_func.h:945-951 | `strtoul` skips white space, takes a sign, wraps a negative number around and stops at the largest |
| `TypeString.NumberIsReadBack` | include/peli/runtime/packed_func.h:945-951 | printed decimal digits followed by no digit are read back as the number, up to where they end |
| `TypeString.PrintedTypeIsParsed` | include/peli/runtime/packed_func.h:881-954 | parsing the printed form gives back the type for exactly: signed, unsigned and floating types with a width, the 64-bit scalar handle, and the empty type |

## Left out

- The step functions of the four protocols are functions on a state record, not methods: what another thread may do
  between two accesses is the point, and a method would run undisturbed. Weak memory orderings are not modelled, nor
  the spinning before `Pop` goes to sleep.
- ThreadPool.LaunchCanFinish: the steps of one helpful thread at a time suffice; that a given scheduler takes them is
  not stated.
- The thread pool runs task 0 on the master (`exclude_worker0_`); the configuration without that, task counts above
  the number of workers, nested launches, error messages and CPU affinity are not modelled.
- Barrier.CountersSuffice: every launch counted here synchronises, as each one that comes through the library's
  interface does; the model of the barrier itself has a counter for each task.
- VideoReader.Reader.SkipFrames: the shortcut trusts its forward seek without checking, so when a keyframe is crossed
  the contract asks for forward seeks that land on the keyframe they aim at.
- VideoReader.Reader.Do: the raw `Seek` is not among the calls; after one that has not landed where it claims, only the
  next read is stated (`RawSeek`).
- Forward seeks may land on any keyframe or at the end, but one of the three attempts of `Seek` succeeds; timestamps
  increase strictly, none is the -1 that an array without a timestamp has, and decoding goes on in order from the
  keyframe. Recovery from corrupted videos in `NextFrameImpl`, cached frames, audio, floating-point times and GPU
  decoding are not modelled.
- ThreadedDecoder.OneItemPerPacket: dmlc's ConcurrentBlockingQueue is not part of this model; queues are first in
  first out and a killed one wakes everybody. The codec gives out each frame at most once, and while draining only
  frames and then the end. `Stop` on its own is called only by the destructor.
- NDArray.Arrays.DecRef: containers are kept in maps from addresses, and reference counts change one at a time: no
  races between threads.
- NDArray.Arrays.FromDLPack: importing a tensor that somebody else has imported is the caller's mistake, as is
  releasing it twice. Copies between devices, streams and alignment are not modelled.
- Samplers.Enumerate: batch size, interval and skip are unbounded integers, at least 1, 0 and 0 as the loader clamps
  the latter two; the 32-bit products of the source are not wrapped.
- ModuleGraph.ModuleNode.Import: the branch for remote modules is not modelled.
- Python bindings, registry, dynamic loading, FFmpeg and CUDA calls: foreign code or plumbing without invariants.
