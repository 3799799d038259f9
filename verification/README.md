# Verification of the delivery, completion, executor and benchmark cores

A Dafny model of the parts of the repository whose correctness is hardest to see from one function:
the delivery queue and the lifetimes that hang off it, completions and the handle they keep open, the
executor's drain, the two-pass copy of argument records, the PNG encoder of the benchmarks with the
reader that undoes it, and their exact statistics.

`dafny verify dfyconfig.toml` checks the whole project.

## What is modelled

- **Delivery queue.** `DeliveryModel` gives each block under the queue's lock as a function on values.
  `DeliveryQueue` has the linked lists themselves, as classes, and proves each method against its
  function. `DeliveryProtocol` runs any number of threads over those functions, one locked block or
  atomic operation a step, with histories of pushes, runs, wakes and holds that no step reads, and
  proves what every run keeps. `QueuedRegistration` is what a registration keeps for its last call, and
  `EventBatch` the delivery item that merged events share.
- **Completions.** `ControlState` counts a handle's leases and children. `CompletionProtocol` runs any
  number of completions on one handle, in every order of accept, revoke, competing resolves and
  destruction. `Completions` has the class's own steps, and the queued delivery with a failure
  injected at any step of its copy. `QueuedCompletions` runs that protocol and the queue's side by side.
- **Executor.** `Executor` is the worker, its run loop as a FIFO of thunks, and submissions and stops
  from any thread. `ExecutorQueue` has the intrusive lists and the blocks under the mutex.
- **Copies.** `Capture` copies any tree of spans, arrays and views, with `size_t` as a bounded type so
  that Dafny itself proves that no sum or product wraps.
- **Images.** `InflateSpec` is an inflater from RFC 1951. `Deflater` is the compressor, `Checksums` the
  CRC and Adler loops, `Png` the writer and reader, and `Frames` the base64 text around them. `Bitwise`
  defines machine words as natural numbers, with the bitwise operators written out bit by bit.
  `Collections` and `Wrappers` hold what all parts share.
- **Statistics.** `Orderings` is the dynamic program of the exact test, `MannWhitney` the test, and
  `Holm` the step-down procedure, all on real numbers. `Assignments` sums over all ways to pick some
  members of a list, and `UVariance` uses it to derive the variance of U that the normal approximation takes.
- **Diagnostics.** `Diagnostics` cuts messages to fit without ending inside a UTF-8 sequence.

## Where the code and what is said of it differ

- A callback of `notify_when_drained` can be lost in two ways. On an open handle with nothing to count,
  a later `begin_close` does not look for it; and a second call before the handle drains writes over it.
  `CompletionProtocol.DrainedRunsOnce` says that there is no third, and `NotifyBeforeCloseIsLost` and
  `SecondNotifyReplaces` are the runs.
- A notice that another thread enqueues after a drain's last look at the notices, but before the drain
  clears its flag, schedules nothing and waits for the next drain. `Executor.MissedWhen` says exactly
  when, and `NoticeLeftBehind` is the run. `stop` still runs it.

## How the model reads the source

- A call that a running host callback makes on its own queue is a step of another thread. That can
  only add interleavings. Memory is sequentially consistent.
- Process exit is a flag that some step sets and none clears. Properties that name it hold before it.
- A node of a settled or withdrawn hold is deleted outside the lock, where no other thread can reach
  it; the model deletes it in the step of the lock.
- An event append that throws is a step of its thread that changes no list.
- A completion that is accepted again after it was revoked has no lease, because `revoke` gave it back;
  the properties about leases speak of completions accepted on one. `accept` and `revoke` of one
  completion do not run at the same time, as its owner makes both.
- Floating-point numbers are real numbers, and Holm's `alpha` is not negative.
- `keep_image` computes a size in a 64-bit `size_t`; `Png.RowsMissing` stands for what follows when it wraps.
- The test's `erfc` and square root are any functions; the square root of a positive number is positive.
- A completion without a hold, on a queue without a hook or with none, is a joint step of its own.
- A pointer in copied memory is eight bytes that say what they point to, instead of an address. A record that an
  element holds by value is part of its bytes and slots.
- Frame names are sequences of characters, not of encoded bytes.
- `b64decode(..., validate=True)` is that of the Python that `.config/mise.toml` pins, which refuses pads that the
  last group does not need.

## Model

| member | source | states |
|---|---|---|
| DeliveryProtocol.InvKept | src/delivery/delivery_queue.cpp:289-497 | Every step of every thread, whatever the interleaving, keeps one owner of the dispatch, requests seen, FIFO contents, wakes owed, and an account of every hold |
| DeliveryProtocol.AtMostOneRunner | src/delivery/delivery_queue.cpp:426-442 | Over any number of threads, at most one is between its two exchanges of dispatching_, and so in run_calls |
| DeliveryProtocol.RunsInPushOrder | src/delivery/delivery_queue.cpp:365-497 | Before process exit the accepted pushes, as single events, are the run calls, the call in flight, the abandoned, the running and the pending ones, in order; closing leaves the run calls a prefix |
| DeliveryProtocol.CallAccepted | src/delivery/delivery_queue.cpp:345-391 | Outside process exit a call is accepted exactly by an open queue, whatever its other threads do, and is then the last pending one; a refused call changes nothing |
| DeliveryProtocol.EventAccepted | src/delivery/delivery_queue.cpp:393-424 | So is an event, and the pending calls as single events grow by exactly it |
| DeliveryProtocol.LastAccepted | src/delivery/delivery_queue.cpp:353-391 | An accepted last call carries its hold, whose node leaves the held list; on a closed queue only the hold object is spent |
| DeliveryProtocol.HoldAccepted | src/delivery/delivery_queue.cpp:309-326 | A hold is taken exactly on an open queue with a hook, and is then the first of the held list |
| DeliveryProtocol.NoRequestLost | src/delivery/delivery_queue.cpp:426-442 | With no thread in dispatch, no request is pending and every call pushed before the last dispatch began, BUSY ones included, has run or was taken by close |
| DeliveryProtocol.WakePerPush | src/delivery/delivery_queue.cpp:365-424 | Step by step: a thread owes a wake exactly when its own push found the pending list empty, its next step is that one wake, and no other push owes or issues one |
| DeliveryProtocol.OneWakePerEdge | src/delivery/delivery_queue.cpp:365-424 | Over whole runs, the empty-to-nonempty changes of the pending list are as many as the wakes issued and the threads about to issue theirs |
| DeliveryProtocol.DispatchReturns | src/delivery/delivery_queue.cpp:426-469 | From any state, a dispatching thread left alone returns, and leaves an open queue empty unless another thread runs its calls |
| DeliveryProtocol.DispatchRunsAll | src/delivery/delivery_queue.cpp:426-469 | A dispatch that begins while no other thread dispatches, and is left alone, returns with every accepted push run or taken by close |
| DeliveryProtocol.WokenHostEmptiesQueue | src/delivery/delivery_queue.hpp:215-216 | A host that dispatches after every wake leaves an open queue empty once no wake is owed and no thread dispatches or is about to notify |
| DeliveryProtocol.EachHoldEndsOnce | src/delivery/delivery_queue.cpp:289-391 | Once the queue is closed and idle, each hold on a hooked queue has ended in exactly one of a run last call, a report to the hook, or a withdrawal, and its node was freed once |
| DeliveryProtocol.RefinesPlainQueue | src/delivery/delivery_queue.cpp:393-424 | Merging events into the tail refines a queue with one item for each event: every step is a push, a start of calls from the front, a drop of the rest, or nothing |
| DeliveryModel.AppendEventFlat | src/delivery/delivery_queue.cpp:393-424 | Whether an event joins the tail span or starts an item, the pending calls as single events grow by that event at the end |
| DeliveryModel.AppendFlat | src/delivery/delivery_queue.cpp:365-391 | An appended call is the last pending one, whatever hold it settles |
| DeliveryModel.RunJoins | src/delivery/delivery_queue.cpp:402-408 | Behind a pending span of the same registration, any run of pushes joins that item |
| DeliveryModel.RunStarts | src/delivery/delivery_queue.cpp:402-412 | Behind a call, behind another registration's span or on an empty list, a run of pushes of one registration shares exactly one new item |
| DeliveryProtocol.HoldCanBeReported | src/delivery/delivery_queue.cpp:471-497 | A run that takes a hold and closes the queue before the last call, in which the hook hears of it |
| DeliveryQueue.UnlinkHeld | src/delivery/delivery_queue.cpp:232-239 | Unlinking a node of the doubly linked list leaves the list without exactly that node |
| DeliveryQueue.LinkHeld | src/delivery/delivery_queue.cpp:317-322 | A new hold is linked in front |
| DeliveryQueue.DeliveryQueueState.Hold | src/delivery/delivery_queue.cpp:309-326 | The locked block of hold_user_data, on the linked list: a closed queue holds nothing |
| DeliveryQueue.DeliveryQueueState.Withdraw | src/delivery/delivery_queue.cpp:335-343 | Withdrawing unlinks the node of an open queue and touches nothing of a closed one |
| DeliveryQueue.DeliveryQueueState.Append | src/delivery/delivery_queue.cpp:365-391 | Appending links the item last, unlinks the settled node, wakes exactly when the list was empty, and is refused by a closed queue |
| DeliveryQueue.DeliveryQueueState.JoinTail | src/delivery/delivery_queue.cpp:402-408 | The tail span grows by one event and nothing else changes |
| DeliveryQueue.DeliveryQueueState.PushEvent | src/delivery/delivery_queue.cpp:393-424 | The list and wake of push_event are those of the model; an append that throws, or a closed queue, leaves every list as it was |
| DeliveryQueue.DeliveryQueueState.TakeCalls | src/delivery/delivery_queue.cpp:446-451 | A dispatch moves the whole pending list of an open queue, and takes nothing from a closed one |
| DeliveryQueue.DeliveryQueueState.NextCall | src/delivery/delivery_queue.cpp:455-465 | A dispatch detaches the first call, if the queue is open and has one; at process exit it takes the whole rest without a call |
| DeliveryQueue.DeliveryQueueState.TakeAll | src/delivery/delivery_queue.cpp:471-485 | Closing empties the queue and hands over its three lists unchanged |
| DeliveryQueue.DeliveryQueueState.Close | src/delivery/delivery_queue.cpp:471-497 | close tells the hook of the abandoned last calls, running ones first, and then of the held registrations, once each and in order, and destroys every call and frees every node with or without a hook |
| DeliveryQueue.AbandonItems | src/delivery/delivery_queue.cpp:253-270 | Every item of a list is destroyed, once and in order, hook or none; the hook hears of exactly the last calls among those before process exit begins, each by the user_data it names and in list order |
| DeliveryQueue.AbandonNodes | src/delivery/delivery_queue.cpp:492-496 | The nodes freed are those of the list, each once and in order; the k-th report is the k-th node's user_data |
| QueuedRegistration.HoldUserData | src/delivery/delivery_queue.cpp:309-326 | A hold is taken exactly on an open queue with a hook |
| QueuedRegistration.Registration.constructor | src/delivery/queued_registration.hpp:48-60 | A registration with a release function preallocates its last call and holds its user_data |
| QueuedRegistration.Registration.Retire | src/delivery/queued_registration.hpp:134-140 | Retiring queues the last call through the hold, or is refused by a closed queue |
| QueuedRegistration.HoldEndsClean | src/delivery/queued_registration.hpp:134-140 | Settling or withdrawing a fresh hold leaves the held list as it was before |
| EventBatch.BindStrings | src/delivery/delivery_queue.cpp:36-69 | Payload views denote the given strings in order; two are accepted for a sprite, one for a style image, tile action or changed source, and any number for a font stack, and nothing else is refused but for want of memory |
| EventBatch.EventDeliveryItem.Append | src/delivery/delivery_queue.cpp:111-139 | An append adds one event, text and string entry, or throws and leaves all of them as they were; the batch view follows moved storage on either exit; when it throws is stated exactly |
| EventBatch.EventDeliveryItem.Finalize | src/delivery/delivery_queue.cpp:141-151 | Every event's message becomes its own text followed by NUL in the shared buffer, for any mix of empty and nonempty ones |
| EventBatch.TextInJoined | src/delivery/delivery_queue.cpp:141-151 | The text of each append stands behind those before it |
| EventBatch.AppendHolds | src/delivery/delivery_queue.cpp:111-139 | Appending keeps every earlier event's views denoting its strings |
| Capture.FieldPlaced | src/delivery/capture.hpp:35-104 | For any nested record, blocks are aligned, in order and inside the measured end; any capacity that reaches the measured end gives the same layout, and any smaller one fails |
| Capture.LayoutMeans | src/delivery/capture.hpp:35-57 | The blocks of a layout are aligned, after its start, before its end, and pairwise disjoint |
| Capture.FieldFaults | src/delivery/capture.hpp:60-115 | A copy that succeeds met no null source of a view that is not empty, at any depth; one that meets none fails with bad_alloc only |
| Capture.FieldFits | src/delivery/capture.hpp:60-115 | A record without null sources is copied by any pass that has room enough |
| Capture.AlignUpAligns | src/delivery/capture.hpp:49-52 | The padded offset is a multiple of the alignment |
| Capture.Arena.Allocate | src/delivery/capture.hpp:44-58 | In size_t arithmetic that never wraps, for any count, an allocation succeeds exactly when the aligned block fits |
| Capture.Arena.CopySpan | src/delivery/capture.hpp:60-73 | A span's elements are converted and stored, each with its slots set to its own fields' copies, and its block and theirs hold what was copied |
| Capture.Arena.CopyField | src/delivery/capture.hpp:60-115 | Each kind of view is copied, borrowed or refused as the placement says, with the pointer that the placement gives, and a writing pass changes no byte outside its blocks' range |
| Capture.MakeItem | src/delivery/delivery_queue.hpp:107-122 | The pass that writes into an allocation of the measured size cannot fail, fills it exactly, every block holds its content after the header, and the allocation reads as the record |
| Capture.CopyReads | src/delivery/capture.hpp:60-115 | A copy stands alone: a reader that follows the pointers in it from the root finds, at every depth, each element's plain bytes, in each of its slots a whole pointer to that field's copy, and every array and NUL-terminated text |
| Capture.ConvertedSlot | src/delivery/capture.hpp:67-71 | Setting an element's slots one after the other leaves each slot its own pointer |
| Capture.ConvertedPlain | src/delivery/capture.hpp:67-71 | Setting the slots leaves every byte outside them as it was |
| CompletionProtocol.InvKept | src/completion/completion.cpp:216-270 | Every step of any number of completions and their handle keeps one result each, counted leases, and each drained callback in one place |
| CompletionProtocol.ExactlyOneResult | src/completion/completion.hpp:97-117 | A completion hands over at most one result; destroyed, exactly one if it ended accepted and none otherwise |
| CompletionProtocol.ResolveGives | src/completion/completion.hpp:97-117 | In any reachable state a resolve of an accepted completion goes through: the host gets its result, or a native error if the delivery throws first, and user_data and lease are given back |
| CompletionProtocol.DestroyGives | src/completion/completion.cpp:216-224 | So does the destructor of an accepted completion, with a cancelled result |
| CompletionProtocol.LeaseOutlivesDelivery | src/completion/completion.cpp:250-270 | An accepted completion drops its lease only after its result and its user_data are handed over |
| CompletionProtocol.DrainedAfterDelivery | src/execution/control_state.hpp:59-95 | Once any drained callback has run or is about to, every accepted submission has delivered its result and released its user_data |
| CompletionProtocol.DrainedRunsOnce | src/execution/control_state.hpp:59-95 | With any number of notify_when_drained calls, the callback of each runs at most once; it has run, or is about to, if and only if the handle has drained, no later call replaced it, and begin_close did not find it stored with nothing to count |
| CompletionProtocol.DrainedLeavesNothing | src/execution/control_state.hpp:81-95 | A drained callback runs only on a closing handle that has no lease and no child left |
| CompletionProtocol.ClosesWithoutChildren | src/execution/control_state.hpp:41-55 | In any state of any run a close succeeds exactly on a handle that is not closing and, unless they are deferred, has no children; a refused close changes nothing |
| CompletionProtocol.ClosingIsChildless | src/execution/control_state.hpp:29-55 | In any run in which no close defers children, a closing handle has none, ever |
| CompletionProtocol.NotifyAfterCloseRuns | src/execution/control_state.hpp:41-95 | After a successful begin_close, the callback of a call that no other call follows runs exactly once the handle has drained |
| CompletionProtocol.ClosingStays | src/execution/control_state.hpp:17-55 | No count of a closing handle rises, and only a call replaces a stored callback |
| CompletionProtocol.NotifyBeforeCloseIsLost | src/execution/control_state.hpp:41-73 | The order that loses a callback: notify_when_drained on an open, idle handle, and then begin_close |
| CompletionProtocol.SecondNotifyReplaces | src/execution/control_state.hpp:59-73 | The calls that lose one: two of them before a closing handle drains, of which only the second runs |
| QueuedCompletions.CompletionEndsOnce | src/completion/completion.cpp:105-163 | The completions and their delivery queue together: on a closed, idle, hooked queue, the hold of each completion ended in one way; with a result given, its last call ran or the hook was told, and without one it was withdrawn or the hook was told |
| QueuedCompletions.AcceptedEndsOnce | src/completion/completion.cpp:216-270 | An accepted completion that is gone gave one result, and its user_data was released by the dispatched call or reported to the hook, exactly once |
| QueuedCompletions.ResultCanComeLate | src/completion/completion.cpp:162-163 | A run in which the close reports the hold and the result that comes later is refused |
| QueuedCompletions.JointKept | src/completion/completion.cpp:159-163 | Each joint step keeps both protocols' invariants and ties each hold to how far its completion has come |
| Completions.Completion.Resolve | src/completion/completion.hpp:97-117 | Only the winner of the exchange delivers, once, however the delivery function ends, and then releases; a loser changes nothing |
| Completions.Completion.Release | src/completion/completion.cpp:250-270 | In this order: the sink and fallback go, user_data is released once unless a queue does it, and the lease is given back, which can take the drained callback |
| Completions.Completion.Destroy | src/completion/completion.cpp:216-224 | An accepted completion is cancelled by its destructor; any other hands over nothing. Over its whole life an unqueued completion that was resolved or cancelled has released its user_data exactly once, and any other never |
| Completions.Completion.Revoke | src/completion/completion.cpp:231-236 | Revoking an accepted completion returns it to Created and gives its lease back: the handle counts one submission fewer and hands out what that drains |
| Completions.Completion.SetSubmissionLease | src/completion/completion.cpp:238-241 | A completion that is not accepted yet takes the lease that its handle has counted, and keeps its invariant |
| Completions.Completion.Deliver | src/completion/completion.hpp:107-117 | A delivery that throws before it reaches the sink still reports once |
| Completions.DeliverQueued | src/completion/completion.cpp:105-163 | Whichever step of the copy throws, one item with a result is pushed, and without a throw it is the copy, in the storage that its size and owner call for |
| ControlState.State.TryAcquire | src/execution/control_state.hpp:17-25 | A lease is refused exactly by a closing handle |
| ControlState.State.TryRetainChild | src/execution/control_state.hpp:29-37 | A child is refused exactly by a closing handle |
| ControlState.State.ReleaseCount | src/execution/control_state.hpp:81-95 | The last count of a closing handle takes the drained callback, and a drained handle keeps one only if it was stored before closing |
| ControlState.State.TryBeginClose | src/execution/control_state.hpp:41-55 | Closing succeeds exactly on a handle that is not closing and has no children, or defers them; a refused close changes no field |
| ControlState.State.NotifyWhenDrained | src/execution/control_state.hpp:59-73 | A drained handle runs the callback at once, and any other stores it |
| Executor.StepKept | src/execution/runtime_executor.cpp:94-165 | Every submission, thunk, stop and worker step keeps the order of work and notices, one scheduled drain, and one final drain |
| Executor.WorkInOrder | src/execution/runtime_executor.cpp:94-142 | Accepted work is what has run, what is in flight and what is queued, in order; likewise notices |
| Executor.DrainScheduled | src/execution/runtime_executor.cpp:94-105 | A nonempty work queue has exactly one drain on its way |
| Executor.NoticesRunFirst | src/execution/runtime_executor.cpp:107-138 | A task that is not a command runs after a look that found no notice, and every notice accepted before that look has finished |
| Executor.StopLosesNothing | src/execution/runtime_executor.cpp:154-165 | Once stop has returned, all accepted work and notices have run |
| Executor.MissedWhen | src/execution/runtime_executor.cpp:94-142 | A submission leaves notices with no drain to run them if and only if it is a notice that comes between the drain's last look and its end with no drain scheduled; from the worker's own tasks never |
| Executor.WhenParked | src/execution/runtime_executor.cpp:94-142 | A worker with nothing to do has run all work, and all notices unless one was missed |
| Executor.NoticeLeftBehind | src/execution/runtime_executor.cpp:94-142 | The run in which another thread's notice stays behind |
| Executor.EverythingRuns | src/execution/runtime_executor.cpp:119-142 | From any state of any run, the worker's own steps end, and run all accepted work and, unless one was missed, all notices |
| Executor.AcceptedWhenLive | src/execution/runtime_executor.cpp:94-105 | A submission is accepted if and only if there is a loop and stop was not called, whatever the worker does, and is then last in its queue |
| Executor.RefusedAfterStop | src/execution/runtime_executor.cpp:94-105 | Over any run, a submission is refused exactly if stop was called before it |
| Executor.SubmittedRuns | src/execution/runtime_executor.cpp:94-142 | Every work task that any thread submits to a live, unstopped executor runs behind all work accepted before it, and so does every notice that is not missed |
| Executor.StopEnds | src/execution/runtime_executor.cpp:154-165 | A stopped worker left alone runs everything that was accepted, and exits |
| ExecutorQueue.TaskQueue.Push | src/execution/runtime_executor.hpp:29-35 | Pushing links a task last |
| ExecutorQueue.TaskQueue.Pop | src/execution/runtime_executor.hpp:36-44 | Popping detaches the first task |
| ExecutorQueue.RuntimeExecutor.Enqueue | src/execution/runtime_executor.cpp:94-105 | The locked block of enqueue, on the intrusive lists: a task is accepted exactly by a live executor that is not stopping, and is then last in its list |
| ExecutorQueue.RuntimeExecutor.TakeBurst | src/execution/runtime_executor.cpp:122-128 | The first block of a drain takes the whole work queue |
| ExecutorQueue.RuntimeExecutor.PopOneNotice | src/execution/runtime_executor.cpp:107-117 | Each look takes the first notice |
| ExecutorQueue.RuntimeExecutor.FinishDrain | src/execution/runtime_executor.cpp:138-141 | The last block of a drain clears its flag |
| ExecutorQueue.RuntimeExecutor.RequestStop | src/execution/runtime_executor.cpp:154-163 | A first stop schedules the final drain, and a later one changes nothing |
| Deflater.BitWriter.Write | benchmarks/src/image.cpp:24-32 | The bytes and the pending word are the bits written so far, least significant first; no bit of the 64-bit word is lost |
| Deflater.BitWriter.Code | benchmarks/src/image.cpp:35-41 | A Huffman code is written most significant bit first |
| Deflater.BitWriter.Flush | benchmarks/src/image.cpp:43-47 | The last byte is padded with fewer than eight zero bits |
| Deflater.Literal | benchmarks/src/image.cpp:55-65 | A symbol is written as its fixed code |
| Deflater.DecodeSymbolBits | benchmarks/src/image.cpp:55-65 | The decoder of RFC 1951, section 3.2.6, reads each symbol's code back, whatever follows it |
| Deflater.LengthTable | benchmarks/src/image.cpp:67-73 | The length tables are those of section 3.2.5 |
| Deflater.DistanceTable | benchmarks/src/image.cpp:74-82 | The distance tables are those of section 3.2.5 |
| Deflater.CodesFit | benchmarks/src/image.cpp:84-93 | Every length from 3 to 258 and distance from 1 to 32768 has a code whose extra bits fit their field |
| Deflater.DecodeLengthBits | benchmarks/src/image.cpp:84-93 | The decoder reads each length back from its code and extra bits |
| Deflater.DecodeDistanceBits | benchmarks/src/image.cpp:84-93 | The decoder reads each distance back |
| Deflater.Match | benchmarks/src/image.cpp:84-93 | A match is written as its length's and then its distance's code and extra bits |
| Deflater.CopyBackMatches | benchmarks/src/image.cpp:113-133 | Copying back byte by byte restores what a match stands for, even where it overlaps itself |
| Deflater.HashIs | benchmarks/src/image.cpp:107-111 | The hash is the high half of the 32-bit product of the three bytes as a number, lowest first, with the constant |
| Deflater.MatchIsLongest | benchmarks/src/image.cpp:113-131 | A match repeats its candidate as far as 258 bytes, the end of the data or the first difference allow; a candidate is passed over only if it repeats fewer than three bytes or lies outside the window |
| Deflater.FindMatch | benchmarks/src/image.cpp:113-131 | The match found is that of the last earlier place with the same hash, which the table holds for every hash |
| Deflater.IndexMatched | benchmarks/src/image.cpp:134-137 | Indexing the matched bytes keeps the table on the last place of every hash |
| Deflater.Deflate | benchmarks/src/image.cpp:95-147 | For every byte string, the specification inflater gives back exactly the data and the stream's length, whatever follows it; the bits are those of the greedy matches, and at most 9n+17 |
| Checksums.PolynomialBits | benchmarks/src/image.cpp:155-156 | The table's constant is the generator of the PNG specification, section 5.5 |
| Checksums.BitStep | benchmarks/src/image.cpp:154-156 | One step of the register is one step of long division by the generator |
| Checksums.TableStep | benchmarks/src/image.cpp:162-165 | A table entry and a shift do the work of eight steps |
| Checksums.CrcTable | benchmarks/src/image.cpp:150-160 | Each entry is eight steps of its index |
| Checksums.Crc32 | benchmarks/src/image.cpp:149-167 | For every string and start offset, the checksum is the inverted remainder of the polynomial division that PNG defines |
| Checksums.AdlerStep | benchmarks/src/image.cpp:204-209 | Reducing at every byte gives what reducing the sums at the end gives |
| Checksums.Adler32 | benchmarks/src/image.cpp:204-212 | The checksum of the loop is the closed form of section 2.2 of RFC 1950 |
| Png.AppendBigEndian | benchmarks/src/image.cpp:169-175 | A word is written as its four bytes, highest first |
| Png.AppendChunk | benchmarks/src/image.cpp:177-183 | A chunk is its 32-bit length, kind and body, and the CRC of kind and body |
| Png.FilterImage | benchmarks/src/image.cpp:190-203 | Each row is the filter number and each byte less the byte above it, modulo 256 |
| Png.FilteredAt | benchmarks/src/image.cpp:190-203 | Each row starts with filter number 2, and each byte is the pixel byte less the one above it, modulo 256 |
| Png.EncodePng | benchmarks/src/image.cpp:190-223 | The file byte by byte: the signature, the IHDR chunk with width, height, bit depth 8 and colour type 6, the IDAT chunk whose stream decompresses to the filtered rows, and the IEND chunk |
| Png.KeepImage | benchmarks/src/image.cpp:227-235 | For every size: a frame is refused exactly when its width is zero or its bytes are fewer than the 64-bit product asks for, and is otherwise kept under its name, unless that product wrapped, which takes a frame of 2^64 bytes |
| Png.MaskedByte | benchmarks/bench.py:988-991 | One byte of the masked sum is the sum modulo 256, without a carry out |
| Png.MaskedAddIsBytewise | benchmarks/bench.py:982-991 | For rows of any length, the masked sum of two rows as big integers is their sum byte by byte modulo 256 |
| Png.FilterRoundTrip | benchmarks/bench.py:984-994 | Adding rows back undoes the Up filter |
| Png.RowsRead | benchmarks/bench.py:985-988 | Rows are read if and only if each has its filter byte and it is 2 |
| Png.FirstFault | benchmarks/bench.py:985-988 | The first row without one gives the error: an index error past the data, or its filter number |
| Png.ReadAt | benchmarks/bench.py:989-994 | In any stream that is read, each pixel byte is its filtered byte plus the one above it, modulo 256 |
| Png.ZlibHeader | benchmarks/bench.py:979 | Nothing decompresses without the zlib header that RFC 1950, section 2.2, asks for |
| Png.ZlibChecks | benchmarks/bench.py:979 | A compressed stream decompresses exactly with the Adler-32 of its data at its end |
| Png.ZlibRoundTrip | benchmarks/bench.py:979 | The zlib stream that is written passes the header and checksum tests of RFC 1950 and gives the data back |
| Png.ChunkReads | benchmarks/bench.py:970-978 | A written chunk is read as its kind and body, and the reader goes on behind it; other kinds are skipped, and a header without its eight bytes is an error |
| Png.ChunkCut | benchmarks/bench.py:970-978 | A file that ends inside a chunk's length is an error; one that ends inside a data chunk's body keeps the bytes that are there |
| Png.DecodePng | benchmarks/bench.py:965-995 | The reader's loops, with its slices that end early and its errors, are the reading that RoundTrip is about; it succeeds exactly if its chunks, its stream and every row's filter byte can be read |
| Png.RoundTrip | benchmarks/bench.py:965-995 | decode_png of encode_png gives the width, height and pixels back, for every image whose chunk lengths fit 32 bits |
| Png.SmallEnough | benchmarks/src/image.cpp:177-183 | A size that a caller knows beforehand keeps every chunk length in its field |
| Frames.AlphabetAt | benchmarks/src/image.cpp:240-241 | The alphabet is that of section 4 of RFC 4648 |
| Frames.Encode | benchmarks/src/image.cpp:245-253 | Up to three bytes are written as four characters, padded at the end |
| Frames.PrintFrame | benchmarks/src/image.cpp:242-260 | A frame is its name line, its base64 wrapped at 76 characters, and its end line |
| Frames.FullLines | benchmarks/src/image.cpp:254-260 | Every line but the last has 76 characters, and the last at most that |
| Frames.PrintImages | benchmarks/src/image.cpp:239-263 | The text is that of every frame, in order |
| Frames.Base64RoundTrip | benchmarks/bench.py:541-542 | Every byte string is decoded back from its base64 |
| Frames.WrappedLines | benchmarks/bench.py:536-537 | Every line of a wrapped encoding matches the reader's pattern |
| Frames.SplitAt | benchmarks/bench.py:526-527 | A line of the output ends at the first line break, which a carriage return and the line feed behind it are together |
| Frames.StripIs | benchmarks/bench.py:530-532 | Stripping takes all white space off both ends of a line and nothing else |
| Frames.Base64LineIs | benchmarks/bench.py:517 | A line matches the pattern exactly if it is at least one digit and then at most two pads |
| Frames.DecodesWhen | benchmarks/bench.py:541-544 | Digits and pads decode exactly if at most two pads make up whole groups of four |
| Frames.DecodesOnly | benchmarks/bench.py:541-544 | Nothing but digits and then pads decodes |
| Frames.CutShort | benchmarks/bench.py:541-544 | An encoding cut inside a group is refused; cut between groups it gives the bytes of the groups that are left |
| Frames.ParsedIs | benchmarks/bench.py:520-545 | For any text, each name maps to the bytes of its last frame that has an end line and decodes, and there are no other entries: a frame that does not decode, or that the text ends inside, changes nothing |
| Frames.ParseImages | benchmarks/bench.py:520-545 | The two loops over one iterator are the line-by-line reading that RoundTrip is about, and their result is what ParsedIs says of any text |
| Frames.RoundTrip | benchmarks/bench.py:520-545 | parse_images of what print_images writes gives the same names and bytes, for trimmed one-line names |
| Frames.NoiseIgnored | benchmarks/bench.py:532-537 | From any state and for any lines, lines inside a frame that are neither base64 nor the end marker change nothing |
| Frames.NoisyRoundTrip | benchmarks/bench.py:520-545 | The round trip holds with log lines put in anywhere inside frames |
| Orderings.WordsAre | benchmarks/bench.py:765-766 | The enumerated orderings are exactly those with i and j values |
| Orderings.WordsNumber | benchmarks/bench.py:777 | There are C(i+j, i) of them |
| Orderings.CombIsQuotient | benchmarks/bench.py:777 | C(n, k) by Pascal's rule is the quotient of factorials |
| Orderings.Recurrence | benchmarks/bench.py:773-776 | The largest value is the first sample's and wins all j pairs, or the second's and wins none |
| Orderings.CountOrderings | benchmarks/bench.py:765-776 | Every entry counts[i][j][k] of the table is the number of orderings with k pair wins |
| Orderings.RowSum | benchmarks/bench.py:767-777 | Each row of the table adds up to C(i+j, i) |
| Orderings.CountsSymmetric | benchmarks/bench.py:767-779 | Each row is symmetric under k to i*j-k |
| Orderings.TailsMatch | benchmarks/bench.py:778-779 | As many orderings win at least i*j-k pairs as win at most k |
| MannWhitney.MidRanks | benchmarks/bench.py:748-760 | Each rank is the mean rank of its value, and the tie sizes cut the sorted pool into its maximal runs |
| MannWhitney.FirstSampleU | benchmarks/bench.py:761-762 | The rank sum less its least value is the number of pairs with a > b and half the tied pairs |
| MannWhitney.UShared | benchmarks/bench.py:762-763 | U lies in [0, n1*n2], and the two sides' U add up to n1*n2 |
| MannWhitney.GroupsTotal | benchmarks/bench.py:759 | The tie sizes partition the pool |
| MannWhitney.TiesSay | benchmarks/bench.py:764 | The ties are all one exactly for samples without equal values, and there is one group exactly when all values are equal |
| MannWhitney.VarianceSign | benchmarks/bench.py:780-784 | The tie-corrected variance is never negative, and zero exactly without pairs or when all values are equal |
| MannWhitney.ObservedOrdering | benchmarks/bench.py:764-766 | Untied samples are one of the counted orderings, and its pair wins are U |
| MannWhitney.TwoSided | benchmarks/bench.py:778-779 | Twice the lower tail, capped, is the number of orderings at least as extreme as U on either side |
| MannWhitney.ExactTest | benchmarks/bench.py:764-779 | The exact p-value is the share of all orderings that are at least as extreme as the samples' own |
| MannWhitney.MannWhitneyTest | benchmarks/bench.py:744-786 | The p-value: exact for small untied samples, 1 when there is no variance, and otherwise that of the normal approximation, at half of |2U - n1*n2| - 1 from the mean, with erfc and the square root given; which one is taken is stated by the samples |
| MannWhitney.NormalFalls | benchmarks/bench.py:785-786 | In the normal approximation a U farther from its mean has no larger p-value, and one within half a step of it has 1 |
| MannWhitney.NormalIsTwoSided | benchmarks/bench.py:785-786 | With erfc as it gives the normal distribution's tail, the p-value is both tails beyond the distance in standard deviations, at most 1 |
| Assignments.SpreadIs | benchmarks/bench.py:780-781 | Over all ways to pick some members of a list, the squared distances of the picked sums from any centre, by the members' sum and squares |
| UVariance.RankSums | benchmarks/bench.py:748-760 | The pool's doubled mid-ranks add up to n(n+1), and three times their squares fall short of the untied ones by the sum of t^3 - t over the tie sizes |
| UVariance.RanksGiveU | benchmarks/bench.py:761-762 | For any assignment of the pooled values to the samples, the picked mid-ranks give the U of those samples |
| UVariance.OwnAssignment | benchmarks/bench.py:761-762 | The samples' own assignment is among those counted, with their own U |
| UVariance.MeanOfU | benchmarks/bench.py:785 | Over all assignments of the pooled values, U is n1*n2/2 on average |
| UVariance.VarianceOfU | benchmarks/bench.py:780-781 | The tie-corrected variance is that of U over all equally likely assignments of the pooled values to the two samples, tied or not |
| Holm.FamilyGuarantee | benchmarks/bench.py:789-798 | For any nonempty family, a rejection in it needs one of its p-values below alpha over its size |
| Holm.RejectsDownward | benchmarks/bench.py:789-798 | The rejected set is downward closed in p, equal p-values included |
| Holm.RejectsBonferroni | benchmarks/bench.py:789-798 | Everything that Bonferroni rejects is rejected |
| Holm.HolmOver | benchmarks/bench.py:793-797 | For any order that sorts the p-values, whatever it does with equal ones, the loop rejects exactly the hypotheses all of whose smaller or equal p-values are below their thresholds |
| Holm.HolmTest | benchmarks/bench.py:789-798 | The same for the stable order that is used |
| Diagnostics.ValidPrefix | src/diagnostics/diagnostics.cpp:19-32 | A prefix of valid UTF-8 (RFC 3629, section 4) is valid exactly when it does not end before a continuation byte |
| Diagnostics.Utf8Is | src/diagnostics/diagnostics.cpp:19-32 | Bytes are valid exactly when they are the encodings of some code points (RFC 3629, section 3) |
| Diagnostics.Truncated | src/diagnostics/diagnostics.cpp:19-32 | For valid UTF-8, the result is the longest prefix of at most capacity - 1 bytes that is valid UTF-8; any other message is cut before its last byte in reach that is no continuation byte |
| Diagnostics.SetThreadError | src/diagnostics/diagnostics.cpp:44-54 | The 4096-byte buffer starts with that prefix and a NUL and is otherwise unchanged; null clears it |
| Diagnostics.WriteDiagnostic | src/diagnostics/diagnostics.cpp:60-72 | The same within the caller's size and the struct, and nothing for a null or too small struct |

## Left out

- InflateSpec.Inflate: stored and dynamic blocks are refused, because the compressor writes neither.
- Png.ZlibDecompress: does not bound distances by the window size in the header, which is the largest one here.
- Executor.StopLosesNothing: `start` after `stop`, and `retire`, which stops the loop from a task once nothing is left.
- DeliveryProtocol.DispatchReturns: whether dispatch tells its caller that it ran or found another running.
- DeliveryProtocol.RunsInPushOrder: what process exit does to calls that are in flight, beyond the flag.
- DeliveryQueue.DeliveryQueueState.PushEvent: the texts of an event, which EventBatch has.
- A registration's `reserve`d call, whose later record fits exactly as `Capture.FieldPlaced` says of the reserved size, and calls without a callback, which are dropped.
- Memory order below sequential consistency, and real threads, stacks and autorelease pools.
- The wake's own delivery, which is one notify step here.
- QueuedCompletions.CompletionEndsOnce: completions at process exit, which give their results and holds to no queue.
- The C API and handle tables, which forward to code modelled here or to code that is not part of this model.
- Generated capture code, which is a tree of allocations here.
- Map, render, style, offline and resource code, and the other benchmarks, scripts and reports.
