# CPP_RPC in Dafny

A model of the parts of CPP_RPC that carry its guarantees: the byte cache and the packages in
it, the socket loops, the timer scheduler, the worker pool, the rendezvous between a request
and its response, all of these together for one client connection, and the definition parser
of the code generator. What the source changes in place is a class or a loop here, proved
against a function or a sequence; what it runs concurrently is a step system whose steps are
the source's locked sections and atomic operations, and theorems range over every run of it.

| file | content |
|---|---|
| Wrappers.dfy | `Option` |
| Frames.dfy | header and body of a package, decoding as a partial inverse, frames as a prefix code |
| RingBuffer.dfy | `BufferCacheBase` and `BufferCache` in place, against the byte sequence they hold |
| Pipe.dfy | one direction of a connection: send cache, partial sends, wire, blocks, receive cache; rejected packages |
| Sockets.dfy | the loops of `read_socket` and `write_socket`, as runs of the pipe |
| Heap.dfy | `push_heap` and `pop_heap` (sections 25.4.6.1 and 25.4.6.2 of ISO/IEC 14882:2011) |
| Timers.dfy | the operations of `TimerManager` on its vector as functions, and the drain |
| DisableSlots.dfy | when `disable_timer` keeps the heap, and the removal it stands for |
| TimerRuns.dfy | every sequence of operations, and where it leaves each timer |
| MissedTimers.dfy | exactly when a drain pops all that has expired after a disable |
| TimerManager.dfy | `TimerManager` in place, and one pass of its thread |
| ThreadPool.dfy | workers, appenders and the one-slot condition; shutdown |
| Wakeups.dfy | the one-slot condition of the pool counted over runs |
| Draining.dfy | before a shutdown the pool can always finish every accepted task |
| Rendezvous.dfy | requests, responses, timeouts, the timer vector and the shared slot keyed by tag |
| Waits.dfy | one request over runs: blocking, notification, timeout, refusal |
| MissedPasses.dfy | exactly when passes of the timer thread settle all requests that are due |
| StaleTags.dfy | exactly when a tag can be used again |
| Releases.dfy | every waiting request can always be released by its timer alone |
| ResponseHandle.dfy | `ResponseHandle` in place |
| EndToEnd.dfy | client, two pipes and server composed |
| Tracking.dfy | where a request is between the write of its package and its answer |
| Completion.dfy | every awaited request can be brought its own answer |
| OrphanHeaders.dfy | what a refused request does to the others |
| CodeGen.dfy | `parse_func_def` and the printed client signature |

Where the source does not do what it is for, the model follows the source, and the exact
condition is proved:

- A write to the byte cache appends unless it fills the cache exactly while the head is not at
  0; then the cache reads as empty (`RingBuffer.BufferCache.Write`).
- `write_package` succeeds exactly if header and body fit without meeting the head; otherwise
  it may leave an orphan header, after which the receiver takes the following bytes for a body
  (`RingBuffer.BufferCache.WritePackage`, `Pipe.OrphanHeaderMisleads`). A rejected package does
  no harm exactly if not even its header fitted (`Pipe.RejectIff`, `OrphanHeaders.RefusedIff`).
- `disable_timer` calls `pop_heap` on a slice of the heap. The heap survives for every content
  exactly if the timer sits in one of the slots of `DisableSlots.SafeSlot`; exactly then do
  later drains pop all that has expired (`MissedTimers.DrainOnTimeIff`). `pop_heap` is
  modelled as the usual sift from the top; on a slice that is no heap the standard leaves its
  result open.
- The destructor of a handle runs that disable. A pass of the timer thread settles every
  request whose timer had expired when it began as long as the destroyed handles have their
  timers in safe slots; for every other slot there is a run in which a pass leaves such a
  request waiting (`Rendezvous.PassesOverRuns`, `MissedPasses.PassesSettleIff`). A later pass
  can still reach it (`Releases.CanReturn`).
- At a shutdown a worker that took a null before the last append leaves although a task is
  queued; the queue is drained first exactly if nobody holds such a null
  (`ThreadPool.DrainIff`, `ThreadPool.TaskLostAtShutdown`).
- A response reaches the caller exactly if it has at most 2047 bytes (`Rendezvous.ReadExact`).
- A new request with the tag of one that is over can be woken before it is settled exactly if
  the slot or the socket thread still holds that tag (`StaleTags.ReuseIff`), and a run leads
  there (`StaleTags.StaleTagWakesEarly`).
- A definition survives printing and parsing exactly if its types and names consist of letters
  (`CodeGen.RoundTripIff`).

## Model

| member | source | states |
|---|---|---|
| Frames.WordRoundTrip | RPC_util/buffer.cc:187-196 | a header word that is written is read back as the same number |
| Frames.BytesRoundTrip | RPC_util/buffer.cc:215-220 | the four bytes of a header word that is read are the ones writing it gives |
| Frames.HeaderReads | RPC_util/buffer.cc:215-226 | a written header shows the magic and its length whatever follows, and its length never makes the unsigned size check wrap |
| Frames.NextPackageIff | RPC_util/buffer.cc:208-235 | decoding finds a package exactly if the bytes start with its frame |
| Frames.PrefixCode | RPC_util/buffer.cc:187-235 | a stream of frames determines its packages: no other list of packages starts the same bytes, whatever partial header follows |
| Frames.CutStream | RPC_util/buffer.cc:212-226 | of a stream cut anywhere the received part never fails the magic test, and a package is found exactly when all its bytes are there |
| Frames.CutTail | RPC_util/buffer.cc:208-226 | the same for a stream that ends in part of a header or an orphan one: that yields no package |
| RingBuffer.GatheredIsFront | RPC_util/buffer.cc:92-101 | the one or two pieces copied are the front of the contents, and moving the head past them removes just these |
| RingBuffer.WriteStraight | RPC_util/buffer.cc:136-140 | a write that does not go round the end appends |
| RingBuffer.WriteWrapped | RPC_util/buffer.cc:141-147 | a write that goes round the end appends, if it leaves room |
| RingBuffer.BufferCache.constructor | RPC_util/buffer.cc:49-54 | a new cache is empty with its head at 0 |
| RingBuffer.BufferCache.Size | RPC_util/buffer.cc:61-67 | the size computed from head and tail is the length of the contents |
| RingBuffer.BufferCache.IsEmpty | RPC_util/buffer.cc:74-77 | head and tail meet exactly if there are no contents |
| RingBuffer.BufferCache.HaveALook | RPC_util/buffer.cc:85-103 | a peek returns a front of the contents, as long as was asked for or all there is |
| RingBuffer.BufferCache.Read | RPC_util/buffer.cc:105-126 | a read returns a front of the contents, as long as was asked for or all there is, and removes exactly that |
| RingBuffer.BufferCache.Write | RPC_util/buffer.cc:128-150 | when the cache counts as full, when a write is refused, when it appends, and that it empties the cache otherwise |
| RingBuffer.BufferCache.Put | RPC_util/buffer.cc:136-148 | the copying part: the bytes are appended, or the cache collapses if the tail meets the head |
| RingBuffer.BufferCache.WritePackage | RPC_util/buffer.cc:187-206 | a whole frame is appended if and only if it fits; what each other outcome leaves behind |
| RingBuffer.BufferCache.ReadPackage | RPC_util/buffer.cc:208-235 | the frame taken and the bytes left make up the old contents, or nothing changes and no frame is at the front |
| Pipe.Outstanding | RPC_util/buffer.cc:187-235 | the bytes in transit are exactly the frames still outstanding; delivery is a prefix, its next package the next accepted one, the residue shorter than a frame |
| Pipe.NoDrop | RPC_client/RPC_client.cc:162-192 | with a cache of one frame and one block a received block is always appended |
| Pipe.SubmitInv | RPC_client/RPC_client.cc:124-133 | a package that fits may be appended at any point of the send loop |
| Pipe.SendInv | RPC_client/RPC_client.cc:207-222 | a partial send moves bytes to the wire and loses none, whatever is appended meanwhile |
| Pipe.ReceiveInv | RPC_server/RequestHandle.cc:41-53 | receiving a block of any size keeps the stream |
| Pipe.DeliverInv | RPC_server/RequestHandle.cc:55-63 | taking a package keeps the stream |
| Pipe.MoveKeeps | RPC_client/RPC_client.cc:162-225 | every step of sender and receiver keeps the stream, also one that ends in an orphan header |
| Pipe.StepInv | RPC_client/RPC_client.cc:124-225 | every step of a pipe keeps encode(delivered) ++ received ++ wire ++ unsent == encode(accepted), unless a rejected package leaves part of itself behind |
| Pipe.RunInv | RPC_client/RPC_client.cc:124-225 | so does every run without such a rejection |
| Pipe.DeliveryOverRuns | RPC_util/buffer.cc:187-235 | however the stream is cut, the delivered packages are a prefix of the accepted ones, and all of them once nothing is in transit |
| Pipe.CanDeliverAll | RPC_server/RequestHandle.cc:41-94 | from every state kept by a run, sender and receiver alone can deliver every package of the stream: no cache fills up, no frame stays cut off |
| Pipe.OrphanHeaderMisleads | RPC_util/buffer.cc:197-204 | after an orphan header, also one of length 0, the receiver delivers the next bytes of the stream as a body |
| Pipe.OrphanDelivered | RPC_util/buffer.cc:197-204 | from every state with an orphan header a run leads to a delivered package that nobody accepted |
| Pipe.RejectIff | RPC_util/buffer.cc:187-206 | after a rejected package every later run delivers a prefix of what was accepted if and only if not even the header fitted |
| Sockets.SendBlock | RPC_client/RPC_client.cc:209-219 | one turn of the send loop removes exactly what the socket took: a block, all it had room for, or all there was |
| Sockets.WriteSocket | RPC_client/RPC_client.cc:202-225 | the bytes sent and the bytes left are the bytes there were; the loop goes on after each full block and stops after a short write, with the socket or the cache exhausted; a socket with room takes all |
| Sockets.DrainPackages | RPC_server/RequestHandle.cc:55-63 | the inner loop takes exactly the complete packages of a stream |
| Sockets.ReadSocket | RPC_client/RPC_client.cc:162-192 | a block received and drained is a run of the pipe that delivers the next accepted packages |
| Sockets.DrainRun | RPC_server/RequestHandle.cc:55-63 | draining packages one by one is a run of the pipe |
| Sockets.SendRun | RPC_server/RequestHandle.cc:72-94 | the send loop is a run of the pipe, whatever the socket takes |
| Heap.PushHeapKeeps | RPC_util/TimerManager.cc:136-139 | pushing the last entry gives a heap of the same entries |
| Heap.PopHeapMoves | RPC_util/TimerManager.cc:76-78 | popping any range moves its front to its end and permutes the rest |
| Heap.PopHeapKeeps | RPC_util/TimerManager.cc:76-78 | popping a heap leaves a heap in front of the popped entry |
| Heap.FrontIsEarliest | RPC_util/TimerManager.cc:72-79 | the front of the heap expires first |
| Timers.IndexOf | RPC_util/TimerManager.cc:121-131 | the search finds the first entry of the timer, or there is none |
| Timers.AddKeeps | RPC_util/TimerManager.cc:93-104 | adding a timer changes no active entry and never holds a timer twice |
| Timers.EnableKeeps | RPC_util/TimerManager.cc:118-140 | exactly an inactive, registered timer becomes active, with the given expiry, and the heap is kept |
| Timers.PopAtMoves | RPC_util/TimerManager.cc:156-159 | whatever the slot, exactly its entry leaves the active prefix |
| Timers.DisableKeeps | RPC_util/TimerManager.cc:141-160 | exactly the named timer is no longer active, and no entry is lost |
| Timers.EraseKeeps | RPC_util/TimerManager.cc:108-116 | erasing an inactive timer leaves the active prefix alone and takes exactly that timer out |
| Timers.RemoveKeeps | RPC_util/TimerManager.cc:105-117 | exactly the named timer is gone after both sections |
| Timers.DrainExact | RPC_util/TimerManager.cc:67-86 | a drain pops precisely the active entries that have expired, earliest first, and leaves the others in a heap |
| DisableSlots.SafeSlotKeeps | RPC_util/TimerManager.cc:141-160 | disabling a timer in a safe slot keeps the heap |
| DisableSlots.UnsafeSlotBreaks | RPC_util/TimerManager.cc:141-160 | for every other slot and every size there is a heap of distinct timers that the disable breaks, an entry ending up under a later one |
| DisableSlots.DisableKeepsHeapIff | RPC_util/TimerManager.cc:141-160 | the disable keeps every heap of a size if and only if the slot is safe |
| DisableSlots.RemovedKeepsHeap | RPC_util/TimerManager.cc:141-160 | the removal it stands for, with a sift either way, would keep the heap in every slot |
| TimerRuns.DoPlaces | RPC_util/TimerManager.cc:93-160 | every operation moves exactly the timer it names to its new place (absent, inactive, active with its expiry), a drain of a heap exactly the expired ones |
| TimerRuns.DoHeap | RPC_util/TimerManager.cc:93-160 | every operation keeps the heap, with the intended disable always, with the one written if it hits a safe slot |
| TimerRuns.RunKeeps | RPC_util/TimerManager.cc:93-160 | every sequence of operations holds no timer twice; with the intended disable it always keeps the heap and leaves every timer where the operations meant to put it, as written so does every careful one |
| MissedTimers.BuildReaches | RPC_util/TimerManager.cc:93-140 | every heap of distinct timers is what adding and enabling its entries in index order leads to |
| MissedTimers.UnsafeSlotMisses | RPC_util/TimerManager.cc:67-86 | for every unsafe slot, adds, enables and that one disable lead from the empty manager to a drain that leaves an expired timer active |
| MissedTimers.DrainOnTimeIff | RPC_util/TimerManager.cc:67-86 | however the timers became active and whatever is enabled later, drains after the disable pop all that has expired if and only if the slot is safe |
| TimerManagers.TimerManager.Find | RPC_util/TimerManager.cc:121-131 | the search loop returns the first position of the timer in its range, or -1 |
| TimerManagers.TimerManager.AddTimer | RPC_util/TimerManager.cc:93-104 | the vector afterwards is what `Timers.Add` says |
| TimerManagers.TimerManager.EnableTimer | RPC_util/TimerManager.cc:118-140 | the vector and the counter afterwards are what `Timers.Enable` says |
| TimerManagers.TimerManager.DisableTimer | RPC_util/TimerManager.cc:141-160 | the vector and the counter afterwards are what `Timers.Disable` says |
| TimerManagers.TimerManager.EraseTimer | RPC_util/TimerManager.cc:108-116 | the second locked section for an inactive and for an active timer: the vector afterwards, and when the counter still fits it |
| TimerManagers.TimerManager.RemoveTimer | RPC_util/TimerManager.cc:105-117 | both sections together are `Timers.Remove` |
| TimerManagers.TimerManager.DrainExpired | RPC_util/TimerManager.cc:67-86 | the loop computes the drain of the vector and its batch |
| TimerManagers.TimerManager.TimeOut | RPC_util/TimerManager.cc:198-207 | after its callback a circular timer is armed for now plus its interval, another one is not |
| TimerManagers.TimerManager.FireAll | RPC_util/TimerManager.cc:87-88 | the popped timers fire once each, in the order they were popped |
| TimerManagers.TimerManager.RunPass | RPC_util/TimerManager.cc:62-90 | one pass drains and then fires what it drained |
| TimerManagers.RearmExact | RPC_util/TimerManager.cc:87-88 | after the firing the active entries are those before it and the circular timers of the batch with their new expiry |
| TimerManagers.PassExact | RPC_util/TimerManager.cc:62-90 | what a whole pass does to a heap of timers: expired ones out, no timer twice, circular ones back |
| ThreadPool.StepNoLostTask | RPC_util/ThreadPool.hpp:148-155 | a queued task has a raised flag, an appender about to raise it, or a worker about to look |
| ThreadPool.StepNoMissedWakeup | RPC_util/ThreadPool.hpp:89-110 | a raised flag whose notification is over leaves no worker blocked |
| ThreadPool.StepAccounted | RPC_util/ThreadPool.hpp:195-216 | `m_running` counts awake workers once and executing ones twice |
| ThreadPool.StepOnceInOrder | RPC_util/ThreadPool.hpp:45-64 | the queue is what was appended and not taken, and each taken task is with one worker, finished or cleared |
| ThreadPool.StepConserved | RPC_util/ThreadPool.hpp:45-71 | tasks taken are tasks with a worker plus tasks finished plus tasks cleared |
| ThreadPool.StepInv | RPC_util/ThreadPool.hpp:148-216 | all of this is kept by every step of every thread |
| Wakeups.WakesOverRuns | RPC_util/ThreadPool.hpp:89-110 | in every run the workers leave their waits at most as often as the flag was set |
| Wakeups.FlagConsumed | RPC_util/ThreadPool.hpp:89-94 | a wait that succeeds takes the flag down, and nobody else is let out until it is set again |
| Wakeups.CheckBlocks | RPC_util/ThreadPool.hpp:91-92 | a worker that finds the flag down blocks, and stays so until a notification or a spurious wakeup |
| Wakeups.SpuriousChecks | RPC_util/ThreadPool.hpp:91-92 | a wakeup that nobody caused only leads back to the predicate |
| Wakeups.ClearDiscards | RPC_util/ThreadPool.hpp:66-71 | a clear empties the queue, and what was in it is never executed in any run |
| Wakeups.KickReleases | RPC_util/ThreadPool.hpp:172-183 | one notification of a shutdown lets one waiting worker leave, once the queue is empty |
| ThreadPool.PoolOverRuns | RPC_util/ThreadPool.hpp:117-216 | and holds in every reachable state; `m_running` is between 0 and twice the workers, and 0 only if no task executes |
| ThreadPool.FinishedOnce | RPC_util/ThreadPool.hpp:213-215 | a task finishes at most once, and only after it was taken |
| ThreadPool.NoStall | RPC_util/ThreadPool.hpp:195-216 | before a shutdown, with a task queued, some thread of the pool can always go on by itself |
| Draining.CanFinishAll | RPC_util/ThreadPool.hpp:195-216 | from every such state before a shutdown, the pool's own steps can finish every accepted task that was not cleared |
| ThreadPool.DrainIff | RPC_util/ThreadPool.hpp:172-183 | once closing, no worker leaves a queued task if and only if nobody holds a null from before the last append |
| ThreadPool.TaskLostAtShutdown | RPC_util/ThreadPool.hpp:200-212 | a run in which an accepted task is never executed |
| Rendezvous.ActedSound | RPC_client/ResponseHandle.cc:23-56 | a thread that leaves the wait holds a settled handle, and a response or a read keeps state, buffer and result in agreement |
| Rendezvous.StepSound | RPC_client/ResponseHandle.cc:23-65 | every step keeps what holds of each handle: settled once woken, result read as stored, timer on from the wait to the destruction, firings spaced |
| Rendezvous.StepSlot | RPC_util/ThreadPool.hpp:89-110 | every step keeps that only tags of settled requests get into the slot, and that a blocked thread whose tag is in it is about to be notified |
| Waits.CheckBlocks | RPC_util/ThreadPool.hpp:91-92 | a thread that does not find its tag in the slot blocks, and stays so until a notification or a spurious wakeup |
| Waits.SpuriousChecks | RPC_util/ThreadPool.hpp:91-92 | a wakeup that nobody caused only leads back to the slot |
| Waits.SlotConsumed | RPC_util/ThreadPool.hpp:89-94 | a thread that finds its tag leaves the wait and empties the slot, and nobody else leaves until a tag is put there again |
| Waits.TimeoutOverRuns | RPC_client/ResponseHandle.cc:23-28 | in every run a request does not time out before its timeout has passed since its wait began, its timer first expires then, and is armed for the same time after each firing |
| Waits.RefusedIsOut | RPC_client/RPC_client.cc:125-129 | a refused request never waits and its timer never starts |
| Rendezvous.StepBatched | RPC_util/TimerManager.cc:62-90 | every step keeps that the popped timers are the batch, each once, and may fire in this pass |
| Rendezvous.StepLinked | RPC_util/TimerManager.cc:93-160 | every step keeps that the vector of the timer manager holds each timer where its handle has it, the two sections of `remove_timer` being two steps |
| Rendezvous.StepInv | RPC_client/ResponseHandle.cc:23-65 | all of it is kept by every step |
| Rendezvous.StepTimely | RPC_util/TimerManager.cc:62-90 | while no destruction hits an unsafe slot, the vector stays a heap, and every timer due when the pass began is still to fire or its request settled |
| Rendezvous.WaitingOverRuns | RPC_client/ResponseHandle.cc:23-37 | no early wake; from the wait to the destruction the timer is active in the vector or in the batch; firings are never before their expiry, at most one in a pass and an interval apart |
| Rendezvous.PassesOverRuns | RPC_util/TimerManager.cc:62-90 | in runs whose destructions hit safe slots a finished pass has settled every request whose timer had expired when it began |
| MissedPasses.CollectRun | RPC_util/TimerManager.cc:67-86 | the popping steps of a pass, undisturbed, are the drain of the vector |
| MissedPasses.PassIff | RPC_util/TimerManager.cc:62-90 | an undisturbed pass fires every timer that is due if and only if the drain leaves none behind; a missed request stays as it was |
| MissedPasses.UnsafeDestroyMisses | RPC_util/TimerManager.cc:175-178 | for every unsafe slot a run from the start, with one handle destroyed in that slot, after which a pass leaves a request waiting that was due |
| MissedPasses.PassesSettleIff | RPC_util/TimerManager.cc:141-160 | after a handle is destroyed in a slot all passes of careful continuations settle what is due if and only if the slot is safe |
| Rendezvous.FiringReleases | RPC_client/ResponseHandle.cc:58-65 | each firing lets its requester return, whatever overwrote earlier notifications |
| Releases.CanReturn | RPC_util/TimerManager.cc:62-90 | from every such state in which a thread waits, time and the timer thread alone can let it return with a settled request |
| Rendezvous.OutcomeFixed | RPC_client/ResponseHandle.cc:40-65 | response or timeout, whichever came first stays the outcome; a handle is written at most once |
| Rendezvous.OutcomeOverRuns | RPC_client/RPC_client.cc:178-191 | the same over every run |
| Rendezvous.ReadExact | RPC_client/ResponseHandle.cc:30-37 | what `read` returns for a timeout and for a response of each length |
| StaleTags.ReuseIff | RPC_client/RPC_client.cc:110-117 | some run wakes the next request with the tag of one that is over before it is settled if and only if the slot or the socket thread still holds the tag |
| StaleTags.StaleTagWakesEarly | RPC_util/ThreadPool.hpp:89-94 | a run from the start, by a last firing of the circular timer, to a state in which that is so |
| ResponseHandles.ResponseHandle.constructor | RPC_client/ResponseHandle.cc:6-17 | a new handle is waiting with an empty buffer |
| ResponseHandles.ResponseHandle.Write | RPC_client/ResponseHandle.cc:40-56 | state and buffer after a response, what is returned and whether the tag is notified |
| ResponseHandles.ResponseHandle.TimeOut | RPC_client/ResponseHandle.cc:58-65 | only a waiting handle times out |
| ResponseHandles.ResponseHandle.Read | RPC_client/ResponseHandle.cc:30-37 | the length returned and every byte of the caller's buffer, whatever its size |
| EndToEnd.StepParts | RPC_client/RPC_client.cc:102-225 | each joint step, unless it leaves an orphan header, keeps the invariants of the pipes, the pool and the rendezvous |
| EndToEnd.StepCorrelated | RPC_server/RequestHandle.cc:113-149 | unless a write leaves part of a package behind, every package anywhere belongs to the request with its tag, every response is the answer to that request |
| EndToEnd.StepBalanced | RPC_server/RequestHandle.cc:113-152 | every decoded request is counted once |
| EndToEnd.ResponseHandled | RPC_client/RPC_client.cc:178-191 | a response goes to the handle the map has for its tag: a waiting one is settled with exactly these bytes, leaves the map and is about to be notified; one that timed out stays; others are not touched |
| Tracking.StepTracked | RPC_server/RequestHandle.cc:113-149 | every step keeps that an awaited request is on its way there, with the socket thread, in the pool, or on its way back |
| Tracking.TrackedOverRuns | RPC_server/RequestHandle.cc:113-149 | so in every run no awaited request vanishes: it is in flight unless it was rejected, dropped or cleared |
| Tracking.RefusedIsOut | RPC_client/RPC_client.cc:124-129 | a request whose package was refused is never written again and its thread never waits |
| EndToEnd.EveryAnswerIsItsOwn | RPC_client/RPC_client.cc:102-146 | in every run without an orphan header a request that returns bytes returns the registered function's answer to its own payload |
| EndToEnd.RequestsConserved | RPC_server/RequestHandle.cc:113-152 | in such runs decoded requests are unhandled, rejected, queued, executing, cleared, answered or dropped, and answers never exceed them |
| Completion.CanComplete | RPC_client/RPC_client.cc:102-225 | from every state with an awaited request the threads, the pipes and the pool can bring it its own answer of at most 2047 bytes |
| Completion.EveryAwaitedCanComplete | RPC_server/RequestHandle.cc:113-149 | so from every reachable state before a shutdown |
| Completion.FirstRequest | RPC_client/RPC_client.cc:102-146 | from the start every request for a registered function can be issued, sent and answered |
| OrphanHeaders.RefusedIff | RPC_client/RPC_client.cc:124-128 | after a refused request the server decodes only what clients wrote, in order, in every later run if and only if not even the header of that request fitted |
| CodeGen.ScanAtSound | CodeGen/code_gen.cc:56-73 | what the header scanner finds is a match of the first expression |
| CodeGen.ScanAtComplete | CodeGen/code_gen.cc:56-73 | it finds every match, with the longest parameter list |
| CodeGen.SearchIsLeftmost | CodeGen/code_gen.cc:60 | the search takes the first position at which the expression matches |
| CodeGen.ScanArgAtIff | CodeGen/code_gen.cc:74-84 | the argument scanner is the second expression, matched greedily |
| CodeGen.NextArg | CodeGen/code_gen.cc:75-84 | the suffix behind an argument is shorter, so the loop ends |
| CodeGen.NextArgIsLeftmost | CodeGen/code_gen.cc:75-84 | the argument search captures the match at the first position at which there is one, and fails only if there is none |
| CodeGen.ParseArgsIff | CodeGen/code_gen.cc:74-84 | off any string the arguments collected are exactly the successive leftmost matches of the second expression, each from where the one before ended, with none behind the last |
| CodeGen.ParseIff | CodeGen/code_gen.cc:52-86 | a line parses to a definition if and only if the leftmost match of the first expression, with the longest parameter list, says that definition |
| CodeGen.ParseParams | CodeGen/code_gen.cc:74-84 | the argument loop collects all successive matches in order |
| CodeGen.ParseFuncDef | CodeGen/code_gen.cc:52-86 | a line is accepted exactly if the first expression matches somewhere in it; result, name and arguments are what it says at the leftmost match |
| CodeGen.PrintSignature | CodeGen/code_gen.cc:177-184 | the printing loop writes the signature line |
| CodeGen.JoinCut | CodeGen/code_gen.cc:180-184 | arguments are printed as type, blank and name, and a comma and a blank stand wherever the list is cut |
| CodeGen.ParseJoin | CodeGen/code_gen.cc:74-84 | a printed argument list of any length parses to itself |
| CodeGen.ParsePrint | CodeGen/code_gen.cc:52-86 | parsing a printed signature gives the definition back |
| CodeGen.RoundTripIff | CodeGen/code_gen.cc:52-86 | that holds if and only if types and names are made of letters |
| CodeGen.ParsePrintParse | CodeGen/code_gen.cc:52-86 | parse, print, parse is parse on every accepted line |
| CodeGen.Classes | CodeGen/code_gen.cc:56-74 | what the character classes of the expressions contain, by code |
| CodeGen.ExampleLine | example/test.rpc:2-2 | the first definition of the example parses to its three arguments |

## Left out

- Pipe.DeliveryOverRuns: asks that rejected packages leave the send cache as it was; Pipe.RejectIff says what happens otherwise.
- Pipe.RejectIff: a package that would fit exactly behind the last byte before the head is excluded; the cache then collapses, which RingBuffer.BufferCache.WritePackage describes.
- EndToEnd.EveryAnswerIsItsOwn: each tag is issued once per run; `hash` is not modelled, so two requests with the same tag at the same time are outside it. Runs with an orphan header are excluded, the exact condition for one refused request being OrphanHeaders.RefusedIff.
- EndToEnd.StepParts: excludes writes that leave part of a package behind, as above.
- EndToEnd.StepCorrelated: excludes writes that leave part of a package behind, as above.
- EndToEnd.RequestsConserved: excludes writes that leave part of a package behind, as above.
- Rendezvous.PassesOverRuns: asks that destructions hit safe slots, the exact condition being MissedPasses.PassesSettleIff.
- TimerRuns.RunKeeps: for the disable as it is written, heap and places ask that disables hit safe slots, the exact condition being MissedTimers.DrainOnTimeIff.
- Timers.RemoveKeeps: both sections at once; Rendezvous takes them as two steps with other threads in between.
- TimerManagers.TimerManager.RemoveTimer: the two locked sections run one after the other, as above; EraseTimer alone covers a timer armed again in between.
- TimerManagers.TimerManager.RunPass: drain and firing run one after the other; Rendezvous interleaves them with all other threads.
- RingBuffer.BufferCache.ReadPackage: headers with a length of -8 to -1 are excluded, because the source then copies a negative number of bytes; streams of frames never contain one (Frames.CutStream).
- The `Buffer` struct: its bytes and length are passed as values, so reuse of one buffer for several calls and the reallocation in `read_package` are not captured.
- `have_a_look` without the lock: it is one step here, although a concurrent append could overlap it.
- ThreadPool and ClientService as classes: their threads interleave, so they are step systems over values; the handle mutex is not modelled, which only adds interleavings.
- A handle destroyed while its timer is in the batch of a pass, or replaced in the tag map by one with the same tag: object lifetimes.
- Several connections sharing one worker pool: the composed system has one client.
- Sockets, epoll and both `IoService` files: numbers of bytes taken or received, chosen freely; error returns of -1, disconnects and reconnects are not modelled.
- Protobuf and the `RPC_CLIENT` and `RPC_SERVER` macros: functions from request bytes to response bytes that echo method and query id.
- The endless loop in `send_request` (RPC_client/RPC_client.cc:118-123): the protocol below it is modelled as if it were not there.
- `ThreadPool::quit` joining its workers, wall-clock fairness and scheduling: only safety, and that from every reachable state the threads can get to the end.
- Memory exhaustion, `change_endian`, monitor, configuration, logging, file names, the other writers of the code generator.
- Regular expressions in general: only the two fixed ones (section 28.13 of ISO/IEC 14882:2011).
