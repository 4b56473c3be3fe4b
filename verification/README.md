# A verified model of the async-tcp client

async-tcp is a TCP client for dual-core RP2040 boards on top of lwIP. This project models the parts of
it that hold state and proves what they guarantee over whole runs:

* **Receiving.** `IoRxBuffer` is a byte queue held as a chain of reference-counted pbufs with a read
  cursor. lwIP appends chains, the application peeks and consumes across segment boundaries, exhausted
  segments are freed, and every consumed byte is reported to the receive window.
* **Sending.** `TcpWriter::writeData` cuts a request into pieces against a shrinking send buffer and
  queues them by reference to the caller's memory.
* **The connection lifecycle.** `TcpClientContext` and `TcpClient` create, close and delete connections;
  all clients share a 16-bit local port counter.
* **Access from both cores.** `TcpClientSyncAccessor` calls the client under the context lock or hands a
  payload to a bridge that does.

## How the model is organised

| file | content |
|---|---|
| `Wrappers.dfy`, `Sequences.dfy` | optional values, bytes, flattening and summing |
| `RefGraph.dfy` | reference counting over linked cells: exact counts, cascading release, reachability |
| `PbufMemory.dfy` | pbufs as heap objects with `next`, `ref`, `payload`; pbuf_ref, pbuf_free, pbuf_cat |
| `ByteQueue.dfy` | the cursor into a list of segments and the queue it stands for |
| `RxMachine.dfy` | the receive buffer as a state machine: refinement, conservation, window, FIN |
| `RxBuffer.dfy` | the `IoRxBuffer` object |
| `RxRuns.dfy` | path agreement, composition, draining, and whole runs on the heap |
| `Lwip.dfy` | the TCP control block and the calls the library makes on it |
| `SendPlan.dfy` | how a request is cut, and what is left queued when lwIP refuses a piece |
| `TcpWriter.dfy` | the `TcpWriter` object and what its queue transmits |
| `SendRuns.dfy` | senders across calls |
| `TxMachine.dfy` | sending by reference as a state machine: memory, queue, transmissions, acknowledgements |
| `Transmission.dfy` | the same on the heap |
| `Lifecycle.dfy` | clients, contexts, PCBs and ports as a state machine over all clients |
| `TcpClient.dfy` | the `TcpClientContext` and `TcpClient` objects |
| `Sharing.dfy` | the pbufs of many clients in one memory |
| `ClientActions.dfy` | the machine of all clients with their unread bytes, and its actions on the objects of one client |
| `Host.dfy` | whole runs of any number of clients on one lwIP stack, on the heap |
| `SyncAccess.dfy` | any number of concurrent callers, step by step |
| `SyncAccessor.dfy` | the accessor object, both paths |
| `Bounds.dfy` | timeouts on a wrapping clock, scaled chunk sizes |

Objects of the source are classes whose methods change their fields. Each such method is specified by a
step of the corresponding state machine (for instance `View() == Step(old(View()), Consume(n))`), and the
theorems about runs are proved on those machines. The pbuf memory is kept by a ghost account of all live
cells (`Memory`): their links, their counts, and the multiset of references held from outside. A cell
that is not in the account has been released. Other holders are allowed throughout: nothing assumes that
the buffer is the only owner of a pbuf unless it says so. Each PCB records whether the library followed a
pointer to it after it was released or given up by lwIP (`misused`). In every modelled call that follows the pointer
of an existing context or writer the mark is set: `tcp_recved`, `tcp_write`, `tcp_output`, the calls of close and
abort, the state read by `state()`, and `tcp_sndbuf` behind `availableForWrite`, `getOptimalChunkSize`, `canWriteNow`
and `writeData`. The address getters, `writeChunk` and the NoDelay and keep-alive setters also follow the pointer and
are not modelled.

lwIP is reduced to a contract. A chain it delivers comes with one reference and does not end in the last
cell of the chain already queued. Its choices are inputs: the results of the coming `tcp_write` calls, whether
a PCB is available, and the answers of `tcp_connect` and `tcp_close`. A PCB whose `tcp_connect` is accepted
enters SYN_SENT. Segments may be empty; where a
property needs non-empty segments it says so. `size_t` is unbounded; the counters of the receive path never
exceed the request or the queued bytes, and those of the writer never exceed the request, so nothing can
wrap. The 16-bit arguments of `tcp_recved`, the 16-bit port counter and the 32-bit clock are modelled
with their widths. The numbers of the Pico SDK's error codes are not part of the repository; only that they
differ from `PICO_OK` matters.

## Where code and documentation differ

The model follows the code.

* `include/TcpClient.hpp:95-142` says that `connect` stops and replaces an existing connection and returns 1
  or 0. The code refuses with `PICO_ERROR_RESOURCE_IN_USE`, and returns `PICO_OK` or an error code.
* `include/TcpWriter.hpp:127-132` says that `writeData` returns the number of bytes queued. The code returns 0
  when it could not queue everything, although a prefix can stay queued.
* `include/IoRxBuffer.hpp:83-86` says that `reset` clears the PCB pointer. The code does so only when a chain
  is held.
* `docs/RawPointerUsage.md` describes reference-counted contexts. The code deletes the context directly.

## Properties that fail, and exactly when they hold

* Every byte a buffer was constructed with or took over is acknowledged, queued or discarded: this holds in
  every run exactly when the chain given to the constructor has no bytes (`RxMachine.ConservedIff`). The library
  always passes the null chain.
* Reading until nothing is available yields the whole queue exactly when no byte lies behind an empty segment
  (`RxRuns.Drain`).
* A call that returns 0 queued nothing, whatever lwIP answered, exactly when `getOptimalChunkSize(size)` was 0 or
  `size` before the call (`SendRuns.RejectionCleanIff`, witness `SendRuns.RejectionLeavesPrefix`). So repeating a
  whole request until it is accepted queues it exactly once, however lwIP answers, if and only if that was so at
  every rejected call (`SendRuns.RetryWholeFaithfulIff`). Offering at most what `getOptimalChunkSize` advises
  always builds the right stream (`SendRuns.SendAdvised`).
* Transmission by reference sends the data of the calls exactly as long as no store changes a cell of an
  unacknowledged piece (`TxMachine.Faithful`, `TxMachine.DisturbanceShows`).
* No pointer to a dead PCB is ever followed exactly in those runs where after an lwIP error on a client that holds a
  PCB the client is not stopped, shut down, asked for its status, read with unread bytes or written, and its writer
  not asked for space, before it is destroyed, and after a stop that released a PCB the client's writer is not used
  before its context ends (`Lifecycle.MisuseIff`, witness `Lifecycle.ErrorThenStopMisuses`). Hence after such an
  error a client that is not destroyed can never be connected again in such a run (`Lifecycle.ErrorEndsClient`).
* A PCB that a client holds is released exactly once by its shutdown exactly if no lwIP error meets it and its client
  is not destroyed while it holds it (`Lifecycle.ShutdownReleasesOnceIff`), because the destructor deletes the
  context without closing. All PCBs stay in order exactly in the runs without such errors and destructions
  (`Lifecycle.RunInvIff`); an error or a destruction that meets a client without PCB does no harm.
* A write after a close follows the pointer to the released PCB exactly when it has data and a size above 0, because
  the writer keeps its own PCB pointer (`TcpClients.WriteAfterClose`).
* A PCB whose connect fails is never released and keeps its callbacks, because the context is deleted without
  closing (`Lifecycle.NewPcb`, `Lifecycle.RunInvIff`).
* A reset without a chain keeps the buffer's PCB pointer; it is not followed, since nothing is acknowledged until
  lwIP delivers again (`RxMachine.QuietAfterReset`).
* The timeout test agrees with true time at all readings up to now exactly while less than a full turn of the clock
  has passed (`Bounds.TimeoutAgreesIff`).

## Model

| member | source | states |
|---|---|---|
| RefGraph.NoLeak | src/IoRxBuffer.cpp:104-117 | With exact counts and acyclic links every live pbuf is reachable from some outside holder: nothing can leak. |
| RefGraph.SurvivorsAreReachable | src/IoRxBuffer.cpp:41-46 | After any cascading free, the pbufs left are exactly those the remaining holders reach in the original graph: nothing is freed too early and nothing is left behind. |
| RefGraph.HandOverFreesAtMostHead | src/IoRxBuffer.cpp:104-117 | Referencing the successor before freeing the head can release only the head, and does exactly when that was its last reference. |
| RefGraph.Unlink | src/IoRxBuffer.cpp:113-116 | Releasing a cell turns its link into the next reference to drop and keeps all counts exact: one round of the cascade. |
| RefGraph.AppendedSound | src/IoRxBuffer.cpp:60-64 | Appending a chain without adding a reference keeps counts exact and links acyclic, and yields the concatenated chain. |
| PbufMemory.PbufPool.Ref | src/IoRxBuffer.cpp:113-115 | pbuf_ref: one more outside reference, counts exact. |
| PbufMemory.PbufPool.Free | src/IoRxBuffer.cpp:116 | pbuf_free: the cascade drops exactly one outside reference, keeps the links of the survivors, keeps counts exact, and releases each cell that goes once. |
| PbufMemory.PbufPool.Cat | src/IoRxBuffer.cpp:60-64 | pbuf_cat: the last cell links to the tail, whose outside reference becomes that link. |
| ByteQueue.AdvanceDrops | src/IoRxBuffer.cpp:144-161 | Consuming n bytes drops exactly the first min(n, length) bytes of the queue, for every segmentation. |
| ByteQueue.AdvanceComposes | src/IoRxBuffer.cpp:144-161 | Consuming a then b ends at the same cursor as consuming a + b, including empty segments and over-consumption. |
| ByteQueue.ReleasedExactly | src/IoRxBuffer.cpp:147-159 | Which segments a request releases: exactly those that begin before the new position and end at or before it. |
| RxMachine.RunRefines | src/IoRxBuffer.cpp:26-78 | Over every run of callbacks, reads and resets, chain and offset are a plain FIFO of bytes. |
| RxMachine.PiecesSum | src/IoRxBuffer.cpp:166-176 | The pieces add up to the consumed count, each is between 1 and 0xFFFF, and all but the last are 0xFFFF. |
| RxMachine.FullCutsFewest | src/IoRxBuffer.cpp:166-176 | Among all sequences of 16-bit counts without 0 that add up to the consumed count, none is shorter. |
| RxMachine.RunNotices | src/IoRxBuffer.cpp:39-76 | Over every run the application is told of each accepted delivery of data and of each FIN exactly once, as what it is, and of nothing else. |
| RxMachine.ConsumeAcks | src/IoRxBuffer.cpp:239-242 | Consuming acknowledges exactly the bytes that leave the queue. |
| RxMachine.QuietAfterReset | src/IoRxBuffer.cpp:183-190 | With nothing unread, as a reset leaves it, no run of reads and resets calls tcp_recved until lwIP delivers again, even where the PCB pointer was kept. |
| RxMachine.RunConserves | src/IoRxBuffer.cpp:37-76 | Over every run, bytes taken over = bytes acknowledged + bytes queued + bytes discarded by resets, and unread bytes always have a PCB to be acknowledged to. |
| RxMachine.ConservedIff | src/IoRxBuffer.cpp:178-190 | For a buffer constructed on a chain, conservation holds in all runs if and only if that chain has no bytes. |
| RxMachine.WindowBalanced | src/IoRxBuffer.cpp:166-243 | With a peer inside the window, window + unread + discarded + dropped equals the maximum in every reachable state (section 3.8.6 of RFC 9293); the clamp of tcp_recved is never needed. |
| RxMachine.WindowAndUnread | src/IoRxBuffer.cpp:221-243 | Without resets and errors, window + unread is the maximum, and the window is fully open if and only if everything has been read. |
| RxMachine.FinTransparent | src/IoRxBuffer.cpp:48-57 | A FIN at any point of a run changes no unread byte and no acknowledgement, then or later. |
| RxBuffer.MovedLeaves | src/IoRxBuffer.cpp:104-117 | After the buffer's reference moved along, the live pbufs are exactly those still reachable from a holder. |
| RxBuffer.SoleOwner | src/IoRxBuffer.cpp:104-117 | If only the buffer holds pbufs, the live pbufs are exactly the cells of its chain. |
| RxBuffer.ChainSurvives | src/IoRxBuffer.cpp:39-46 | Freeing a chain that came with an error leaves the queued chain whole. |
| RxBuffer.OthersUndisturbed | src/IoRxBuffer.cpp:104-117 | Consuming or resetting one buffer leaves every chain held by someone else whole. |
| RxBuffer.AppendKeeps | src/IoRxBuffer.cpp:60-64 | Appending to one chain leaves every chain of another holder whole that does not end in the same cell. |
| RxBuffer.IoRxBuffer.constructor | src/IoRxBuffer.cpp:178 | Takes a chain over with offset 0 and without PCB. |
| RxBuffer.IoRxBuffer.FreeHead | src/IoRxBuffer.cpp:104-117 | Moves the reference to the successor and releases exactly the old head, and that only if it was not shared. |
| RxBuffer.IoRxBuffer.FastPath | src/IoRxBuffer.cpp:126-134 | Reaches the cursor the queue specification demands, with the reference moved accordingly. |
| RxBuffer.IoRxBuffer.SlowPath | src/IoRxBuffer.cpp:144-161 | The same for any request, returning min(n, unread). |
| RxBuffer.IoRxBuffer.ToAck | src/IoRxBuffer.cpp:166-176 | tcp_recved gets the consumed count in counts of 0xFFFF and a last one of at most that, as few as 16 bits allow; the PCB is followed if and only if there is something to acknowledge. |
| RxBuffer.IoRxBuffer.PeekConsume | src/IoRxBuffer.cpp:221-243 | One Consume step: cursor, pbuf references, min(n, unread) bytes acknowledged in full 16-bit counts if a PCB is known and none otherwise, and whether the PCB pointer is followed. |
| RxBuffer.IoRxBuffer.Reset | src/IoRxBuffer.cpp:183-190 | One Reset step: the chain is freed and counted as discarded, the PCB pointer is cleared; without a chain nothing changes, not even the PCB pointer. |
| RxBuffer.IoRxBuffer.ReceiveCallback | src/IoRxBuffer.cpp:26-95 | One Callback step followed by the requests of the notified handler: a FIN is announced for a null chain and data for any other, nothing on an error; the return value, the PCB pointer, what becomes of the reference passed in, and that chains of other holders stay whole. |
| RxBuffer.IoRxBuffer.Peek | src/IoRxBuffer.cpp:194-199 | The first unread byte, 0 without a chain, and whatever lies behind an empty head segment. |
| RxBuffer.IoRxBuffer.PeekAvailable | src/IoRxBuffer.cpp:201-206 | The rest of the head segment; 0 if and only if there is no segment or the head segment is empty. |
| RxBuffer.IoRxBuffer.PeekBuffer | src/IoRxBuffer.cpp:208-213 | A prefix of the queue, up to the end of the head segment. |
| RxRuns.MovedDetermined | src/IoRxBuffer.cpp:104-117 | Links, counts and live pbufs after a move of the reference are determined by the move. |
| RxRuns.PathsAgree | src/IoRxBuffer.cpp:126-161 | Fast and slow path give the same chain, offset, counts and freed pbufs for every request both can serve. |
| RxRuns.RequestsCompose | src/IoRxBuffer.cpp:221-243 | a bytes then b bytes leave the same chain, offset and memory as a + b bytes. |
| RxRuns.AcksCompose | src/IoRxBuffer.cpp:239-242 | ... and acknowledge the same total. |
| RxRuns.RunNonEmpty | src/IoRxBuffer.cpp:126-134 | If lwIP delivers only non-empty segments, the offset is always inside the head segment, over every run. |
| RxRuns.Drain | include/IoRxBuffer.hpp:35-40 | Reading what is available until nothing is takes one round per segment up to the first empty one, yields the queue in order, acknowledges exactly what it yields, and yields everything if and only if no byte lies behind an empty segment. |
| RxRuns.AllAccounted | src/IoRxBuffer.cpp:104-117 | Whoever else holds pbufs, every live pbuf is in the buffer's chain or reachable from one of the other holders; without others the chain is all that is live. |
| RxRuns.Play | src/IoRxBuffer.cpp:26-243 | Every run of deliveries (shared with others or not), handlers, reads and resets on heap-allocated pbufs, while others take and give back references to queued pbufs, follows the machine and leaves every pbuf accounted for: cells handed out = releases + live cells. |
| RxRuns.PlayFromStart | include/TcpClientContext.hpp:346-353 | The same from the empty buffer of a new connection: in the end each pbuf is in the chain or reachable from a reference still held by another, and in the chain if there is none. |
| SendPlan.PlanAt | src/TcpWriter.cpp:43-69 | The i-th piece starts at i * MSS, is as long as possible, and has MORE if and only if it does not end the request. |
| SendPlan.QueuedTotal | src/TcpWriter.cpp:43-76 | Never more than the request or the space is queued; if lwIP refuses nothing, min(size, space) bytes are, and the call succeeds if and only if the request fits. |
| SendPlan.QueuedFlags | src/TcpWriter.cpp:54-57 | A queued request takes ceil(size / MSS) pieces of which only the last lacks MORE; all pieces of a rejected request carry MORE. |
| SendPlan.NothingQueuedIff | src/TcpWriter.cpp:45-66 | A call leaves nothing queued if and only if the request is empty, there is no space, or lwIP refuses at once. |
| TcpWriting.WireOfTiles | src/TcpWriter.cpp:56-60 | Queued pieces stand for the current contents of the caller's cells, in every state of the memory. |
| TcpWriting.TcpWriter.GetOptimalChunkSize | include/TcpWriter.hpp:140-145 | The advice for the current free space, which is read through the PCB pointer. |
| SendPlan.Advice | include/TcpWriter.hpp:140-145 | The largest size within data, free space and MSS. |
| TcpWriting.TcpWriter.AvailableForWrite | src/TcpWriter.cpp:31-33 | The free space, or 0 without PCB; the PCB pointer is followed. |
| TcpWriting.TcpWriter.CanWriteNow | include/TcpWriter.hpp:151-153 | True if and only if the advice for every request that is not empty is above 0. |
| TcpWriting.TcpWriter.WriteData | src/TcpWriter.cpp:35-77 | The exact pieces queued, the space used, the answers of lwIP consumed, the result (size or 0), the single flush on success, and that the PCB is followed if and only if there is something to send, for null pointers and empty requests too. |
| TcpWriting.TcpWriter.QueuePieces | src/TcpWriter.cpp:41-69 | The chunking loop ends with exactly the pieces of the plan queued, whichever of its three exits it takes. |
| SendRuns.CallMeans | src/TcpWriter.cpp:35-77 | What one call queues is a prefix of the request in order; the result is size if and only if it is all of it. |
| SendRuns.SingleIsAtomic | include/TcpWriter.hpp:140-145 | A request of at most the advised size is queued whole or not at all. |
| SendRuns.SendAdvised | src/TcpWriter.cpp:35-77 | A sender that offers any amount up to the advised size and retries on 0 builds exactly the prefix of its data whose length is the sum of the results, whatever is acknowledged before the advice or between advice and write, and whatever is refused. |
| SendRuns.RejectionLeavesPrefix | src/TcpWriter.cpp:46-51 | A call can return 0 and leave a byte queued. |
| SendRuns.RejectionCleanIff | src/TcpWriter.cpp:46-66 | A 0 result means that nothing was queued, for all answers of lwIP, if and only if getOptimalChunkSize(size) was 0 or size before the call. |
| SendRuns.RetryWholeFaithfulIff | src/TcpWriter.cpp:46-66 | Repeating the whole request after any number of 0 results yields the request once, for all answers of lwIP, if and only if getOptimalChunkSize(size) was 0 or size at each rejected call. |
| TxMachine.CallHolds | src/TcpWriter.cpp:43-69 | The pieces one call queues hold a prefix of its data, all of it if and only if the call succeeds. |
| TxMachine.StepKept | src/TcpWriter.cpp:59-60 | A step that does not store a new value into a cell of an unacknowledged piece leaves all such pieces holding what they held when queued. |
| TxMachine.Faithful | src/TcpWriter.cpp:43-69 | Over every interleaving of calls, stores, transmissions, retransmissions and acknowledgements in which no store changes a cell of an unacknowledged piece, what goes out is in order the data of the calls at the time of the call: a prefix of what they queued, all of it once everything is transmitted, all their data if they succeeded; retransmissions repeat the bytes at their place. |
| TxMachine.AdvisedFaithful | src/TcpWriter.cpp:35-77 | A sender that offers at most the advised size and goes on from where the results say, in any interleaving with transmissions, acknowledgements and reuse of acknowledged cells: the wire is a prefix of its original data of the length of the sum of the results, complete once everything is transmitted, and retransmissions repeat it. |
| TxMachine.DisturbanceShows | src/TcpWriter.cpp:59-60 | After a store, some run without further stores transmits bytes that were not promised if and only if the store changed a cell of an unacknowledged piece. |
| TxMachine.SpaceConserved | src/TcpWriter.cpp:31-33 | Over every run, free space and bytes in flight make up the space at the start: each acknowledgement gives back exactly what was queued. |
| Transmissions.Transmission.Write | src/TcpWriter.cpp:35-77 | A call of the writer object is one Write step of that machine, with its result. |
| Transmissions.Transmission.Store | src/TcpWriter.cpp:59-60 | A store into the application's array is one Store step: queued pieces see it. |
| Transmissions.Transmission.Play | src/TcpWriter.cpp:43-69 | Every run of the writer, the application and lwIP on the heap is a run of the machine. |
| Transmissions.PlayFaithfully | src/TcpWriter.cpp:43-69 | On the heap, from a new connection: without disturbing stores the wire carries the data of the calls as it was at the time of the call. |
| Lifecycle.RunInvIff | src/TcpClient.cpp:73-191 | In every run of all clients, lwIP errors and destructions included: held PCBs stay live with their callbacks, none is shared, connected PCBs no longer held were released exactly once with callbacks detached, and those whose connect failed never, if and only if no error meets a held PCB and no client is destroyed while it holds one. |
| Lifecycle.RunPcbIff | src/TcpClient.cpp:73-191 | The same for one PCB, whatever happens to the others. |
| Lifecycle.ShutdownReleasesOnceIff | src/TcpClient.cpp:168-191 | Shutdown leaves the PCB a client held released exactly once, not given up and without callbacks, whatever came in between, if and only if no lwIP error met it and its client was not destroyed while holding it. |
| Lifecycle.AbortOnlyIfRefused | include/TcpClientContext.hpp:86-107 | In every run, errors and destructions included, a PCB gets at most one tcp_close, and a tcp_abort only right after lwIP refused that: a PCB whose close was accepted is never aborted. |
| Lifecycle.ConnectResultIs | src/TcpClient.cpp:73-116 | RESOURCE_IN_USE for an occupied client, else PICO_ERROR_IO without a PCB, else PICO_OK or the error of tcp_connect. |
| Lifecycle.HolderStable | src/TcpClient.cpp:73-116 | A PCB never passes from one client to another. |
| Lifecycle.OccupiedRefused | src/TcpClient.cpp:74-77 | Corollary of the connect step: connecting an occupied client returns RESOURCE_IN_USE and changes nothing. |
| Lifecycle.FailureLeavesFree | src/TcpClient.cpp:105-111 | Corollary of the connect step: after a failed connect the next one can succeed. |
| Lifecycle.ConnectsSeparated | src/TcpClient.cpp:73-191 | Between two successful connects of a client its context was ended; stop is not enough. |
| Lifecycle.PortsInOrder | src/TcpClient.cpp:85-87 | Over every run of all clients, PCBs get ports p, p+1, ..., 65535 in order of allocation and none afterwards. |
| Lifecycle.PortsDistinct | src/TcpClient.cpp:85-87 | No explicit port is given twice. |
| Lifecycle.StepPort | src/TcpClient.cpp:73-87 | A port is used up exactly by attempts that get a PCB: refused attempts use none, attempts that fail later do. |
| Lifecycle.MisuseIff | include/TcpClientContext.hpp:472-484 | In all runs, no pointer to a released or given-up PCB is followed if and only if each lwIP error on a held PCB is followed by no use of that client before its destruction, and each stop that released a PCB by no use of its writer before the context ends. |
| Lifecycle.ErrorEndsClient | include/TcpClientContext.hpp:472-484 | After an lwIP error on a held PCB, in every continuation that follows no dead pointer and does not destroy the client, its context stays and every connect is refused. |
| Lifecycle.ErrorThenStopMisuses | include/TcpClientContext.hpp:472-484 | Connect, lwIP error, stop: the pointer to the dead PCB is followed. |
| TcpClients.TcpClientContext.constructor | include/TcpClientContext.hpp:58-68 | All five callbacks registered, an empty receive buffer and a writer for the PCB. |
| TcpClients.TcpClientContext.Close | include/TcpClientContext.hpp:86-107 | The receive buffer is reset and its reference given up with every other chain kept, all callbacks are detached, then tcp_close is called once and tcp_abort if and only if it was refused; the pointer is null; the writer is not touched. |
| TcpClients.WriteAfterClose | src/TcpWriter.cpp:31-66 | The writer keeps its PCB across a close: a later write follows the pointer to the released PCB if and only if data is not null and size is not 0. |
| TcpClients.TcpClientContext.Abort | include/TcpClientContext.hpp:70-84 | The same with one tcp_abort and no tcp_close. |
| TcpClients.TcpClientContext.Destroy | include/TcpClientContext.hpp:109-114 | The reference to pending pbufs is given up with every other chain kept, buffer and writer go, the PCB is left alone. |
| TcpClients.TcpClientContext.State | include/TcpClientContext.hpp:213-222 | CLOSED if and only if there is no PCB or it is in CLOSED, CLOSE_WAIT or CLOSING; otherwise the PCB's state. |
| TcpClients.Stack.TcpNew | src/TcpClient.cpp:79-83 | A fresh, unconnected PCB, or none. |
| TcpClients.TcpClient.TsConnect | src/TcpClient.cpp:73-116 | One Connect step of the lifecycle machine: RESOURCE_IN_USE, PICO_ERROR_IO, the error of tcp_connect or PICO_OK; which PCB the context gets, its callbacks and port, and the port counter; the new PCB is in SYN_SENT if tcp_connect accepted it; no other PCB and no pbuf changes. |
| TcpClients.TcpClient.Stop | src/TcpClient.cpp:168-178 | One Stop step: the context stays without PCB; true unless a PCB was held and its tcp_close refused, in which case it was aborted; the client's pbuf reference is given up and no other. |
| TcpClients.TcpClient.Shutdown | src/TcpClient.cpp:180-191 | One Shutdown step: stopped with the same result, and the context gone; the client's pbuf reference is given up and no other. |
| TcpClients.TcpClient.TsStatus | src/TcpClient.cpp:200-205 | CLOSED if and only if there is no context, no PCB, or a PCB in CLOSED, CLOSE_WAIT or CLOSING, otherwise the PCB's state; the only effect is that the PCB pointer is followed, if there is one. |
| Sharing.AllOwnedStep | src/IoRxBuffer.cpp:26-117 | An action of one client keeps every client's chain whole and disjoint from the others, and all references accounted for. |
| Sharing.AllAccounted | src/IoRxBuffer.cpp:104-117 | With many clients, every live pbuf is queued by some client or reachable from another holder. |
| ClientActions.ReadBuffer | src/IoRxBuffer.cpp:221-243 | A read through a context drops min(n, unread) bytes, adds exactly the calls of tcp_recved that the machine counts, and follows the PCB pointer if and only if n is above 0 and there are unread bytes; other clients' chains stay whole. |
| ClientActions.ArriveAt | src/IoRxBuffer.cpp:26-78 | A delivery to a context that holds a PCB, with the handler's requests: unread bytes and calls of tcp_recved are the machine's, the context stays in order and other clients' chains whole. |
| ClientActions.ActionUsesIff | src/TcpClient.cpp:73-205 | In the machine, which actions use a PCB pointer of their client, condition by condition; a read if and only if it asks for bytes and some are unread. |
| ClientActions.NetRunLife | src/TcpClient.cpp:73-205 | The lifecycle of a run of actions is the lifecycle machine's on the events that the actions determine. |
| ClientActions.Perform | src/TcpClient.cpp:73-205 | Any action of a client is one step of the machine, in its lifecycle and its unread bytes, and disturbs nobody else's pbufs. |
| Hosts.Host.Apply | src/TcpClient.cpp:73-205 | The same with all clients around: every one of them stays in order. |
| Hosts.Host.Play | src/TcpClient.cpp:73-205 | Every run of any number of clients on one stack, with deliveries, reads, writes, lwIP errors and destructions, is the machine's: the views of all PCBs, contexts, port counter and every client's unread bytes are computed from the actions. |
| Hosts.PlayFromStart | src/TcpClient.cpp:73-205 | From new clients: the heap is what the machine computes from the actions, dead pointers are followed exactly if the actions' events are not orderly, the PCB invariant holds if and only if they are harmless; every client is in order and every pbuf handed out was released once or is queued by a client. |
| SyncAccess.Linearizable | src/TcpClientSyncAccessor.cpp:14-86 | Every interleaving of callers from both cores with lwIP's own work under the lock (PCB states changing, PCBs given up) equals direct calls in one order: same state, same results, each call at most once, between its invocation and its return; refused calls have no effect and return CLOSED or the bridge's error. The direct calls are those of the client object (`DirectStatus`, `DirectConnect`). |
| SyncAccess.RealTimeOrder | src/TcpClientSyncAccessor.cpp:38-86 | If one step of the run is the return of a call and a later step makes another, the first precedes the second in that order. |
| SyncAccess.MutualExclusion | src/TcpClientSyncAccessor.cpp:41-43 | At most one caller is between taking and releasing the lock. |
| SyncAccess.StatusIs | include/TcpClientContext.hpp:213-222 | The machine's status, from the fields of the object: CLOSED or the state of the held PCB. |
| SyncAccess.ClosedFromStart | src/TcpClient.cpp:200-205 | The status is CLOSED from the start of a run until the client's first successful connect. |
| SyncAccess.ClosedAfterEnd | src/TcpClient.cpp:168-205 | It is CLOSED from every stop, shutdown or destruction of the client until its next successful connect. |
| SyncAccessors.TcpClientSyncAccessor.OnExecute | src/TcpClientSyncAccessor.cpp:14-32 | For every payload: the machine's direct call on the client object with its result, or NO_DATA or INVALID_ARG and no change; pbufs are never touched. |
| SyncAccessors.TcpClientSyncAccessor.Status | src/TcpClientSyncAccessor.cpp:38-59 | Both paths are the machine's direct status call, with CLOSED or the PCB's state as result; a failed bridge call reads as CLOSED and changes nothing; PCB states, contexts, ports and pbufs stay. |
| SyncAccessors.TcpClientSyncAccessor.Connect | src/TcpClientSyncAccessor.cpp:61-86 | Both paths are the machine's direct connect call, with its four kinds of result; a failed bridge call returns its error and changes nothing; pbufs stay. |
| SyncAccessors.StatusMatches | src/TcpClient.cpp:200-205 | The client object's status is that of the concurrent machine. |
| SyncAccessors.TcpClientSyncAccessor.DirectStatus | src/TcpClient.cpp:200-205 | Under the lock, the client object's status call has the result and the effect of the machine's direct call. |
| SyncAccessors.TcpClientSyncAccessor.DirectConnect | src/TcpClient.cpp:73-116 | Under the lock, the client object's connect call has the result and the effect of the machine's direct call, on contexts, PCBs, their states and the port. |
| Bounds.TimeoutAgreesIff | include/TcpClientContext.hpp:410-412 | The 32-bit test agrees with true elapsed time at every reading from start to now if and only if less than 2^32 ms have passed. |
| Bounds.ChunkBounds | include/TcpClientContext.hpp:438-450 | A scaled chunk is within space and remaining, 0 if and only if one of them is 0, and what fits with its low bits cut off if and only if that is larger than the scale factor. |
| Bounds.PowersOfTwo | include/TcpClientContext.hpp:446-448 | The scale factors are the powers of two. |
| Bounds.SendScaled | include/TcpClientContext.hpp:438-450 | A loop over such chunks progresses, stays within the space, and sends everything. |

## Left out

- lwIP itself: only the contract of the calls above; `tot_len` of pbufs, retransmission timing and congestion control are not modelled.
- RxBuffer.IoRxBuffer.Peek: the byte read behind an empty head segment is a parameter; the source reads whatever lies there.
- RxBuffer.IoRxBuffer.ReceiveCallback: the handler it triggers reads and resets; stopping or shutting down the client from inside the handler is modelled as a later event only.
- SyncBridge, PerpetualBridge, async_context and ContextManager: their source is not part of this repository; only the contract that a payload runs once under the lock, or the bridge fails without effect, is used.
- The stall timeout, watermarks and counters of `TcpWriter`, and its ACK and error callbacks, which do nothing.
- `TcpClientContext::writeChunk`, NoDelay and keep-alive setters, address and port getters, DNS lookup and IPv6 zones: thin wrappers around lwIP.
- The second check of the PCB in `TcpClientContext::connect` (`include/TcpClientContext.hpp:140-143`): the pointer cannot be null there.
- `IoRxBuffer::size`, a placeholder that returns 0.
- Debug output, ISR detection, and the heap payloads of the error and ACK handlers.
- The example sketches and their buffers, printers and task registry.
