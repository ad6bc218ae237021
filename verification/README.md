# A verified model of the message bus

This project models the message bus in Dafny and proves what its parts promise:
an in-process bus, a TCP transport with framing, a registry and relay server, and
the codecs for what they exchange. `dafny verify dfyconfig.toml` checks everything.

Concurrent code is modelled as a state machine in which each block under a lock is
one step, and where the code releases a lock midway there are two; the results
hold for every run, that is, every interleaving of the steps. Code that changes
fields, buffers or arrays is also written as classes and methods, each proved
against the state machine or function that specifies it. Sockets, pipes, clocks,
random numbers, handlers and filters are parameters: what the kernel answers, which
draw was made, what a handler does.

| file | what it models |
|---|---|
| `Bytes.dfy` | bytes and network-order integers |
| `FastBuffer.dfy` | the growing, compacting and shrinking buffer, as a byte queue |
| `Framing.dfy`, `Transport.dfy` | framing, the read and write paths of a socket, end to end |
| `ReceiverGate.dfy` | the receiver's read loop and its sender gate |
| `Wakeup.dfy` | the event loop's self-pipe and task drain |
| `Registry.dfy`, `Relay.dfy` | the server's three maps; relay and lookup over them |
| `Requests.dfy`, `RequestHosts.dfy`, `RequestOrder.dfy`, `PassOrder.dfy`, `Overtaking.dfy`, `Futures.dfy` | a posted request's life; where it goes; what can overtake what; futures and their ids |
| `LocalBus.dfy`, `Rendezvous.dfy` | batching and dispatch; the synchronous `SendMsg` |
| `ClientPool.dfy` | the pool of outgoing connections |
| `JsonValue.dfy`, `JsonWriter.dfy`, `JsonSyntax.dfy`, `JsonReader.dfy`, `JsonRoundTrip.dfy`, `JsonTokens.dfy`, `JsonGrammar.dfy` | the payload codec (RFC 8259): written text read back, and every text of the grammar read as what it stands for |
| `PyCodec.dfy`, `ContentCodec.dfy`, `Messages.dfy` | the three message codecs |

Some promises do not hold of the code as it is. For these there is a concrete
example and the exact condition under which the promise does hold:

- A wait that fails can lose a wake-up (`LostWakeup`, `WakeupExact`).
- A connection that registers two services leaves one behind when it closes
  (`TwoNamesLeak`, `RegisterExact`).
- A registration recorded after its connection was closed lets requests of every
  closed connection through the server's gate (`LateRegistrationOpensGate`,
  `ClosedGateExact`).
- A registration answered with success may have no effect, when the address of a
  closing connection is still listed (`SuccessWithoutEffect`, `SuccessExact`).
- A request that was parked can be overtaken by a later one to the same client
  (`Overtaken`, `OvertakingExact`).
- Threads that create connections at the same time make more than they were asked
  for (`BoundIsReached`, `PoolBound`, `AloneStaysWithin`).
- Turns in the connection pool can break where its counter overflows
  (`OverflowBreaksSeven`, `OverflowExact`), and a connection closed before it is removed stays there
  (`ClosedStays`, `WithoutMeans`).
- After a timeout a late result can reach the same thread's next `SendMsg`
  (`LateResult`, `LateResultExact`).
- A handler that unregisters itself still gets the rest of a batch
  (`BatchingKeepsStaleHandlers`, `BatchingExact`).
- Integers close to the 32-bit limits come back from JSON as doubles
  (`MinIntIsReal`, `RoundTrip`).
- A message id that contains `msgparam=` shadows the parameter in the Python codec
  (`ShadowedParam`, `ParamExact`), and the sender comes back with a NUL behind it.
- Names of 256 bytes and more are cut in the C++ content codec
  (`ContentCodec.SenderRoundTrip`), and its 32-bit length check can wrap
  (`SixBytesOverrun`, `OverrunExact`).
- A body cut short is not always rejected: the process may end, or reading run past
  the end (`ToldCutExact`, `UntoldCutExact`).
- `ConfirmAliveRsp` tests for the body type of another message
  (`UnPackDataExact`).

## Model

| member | source | states |
|---|---|---|
| `FastBuffers.EnsuredRefines` | Core/FastBuffer.cpp:26-53 | Making room, by growing or by compacting, leaves the live bytes unchanged and leaves room for the request |
| `FastBuffers.ShrinkKeepsRoom` | Core/FastBuffer.cpp:59-83 | A shrink keeps the live bytes and never forces a regrowth for the push that triggered it |
| `FastBuffers.StepRefines` | Core/FastBuffer.cpp:26-88 | Every operation keeps readstart <= writestart <= capacity and does to the live bytes what it does to a plain byte queue |
| `FastBuffers.RunRefinesQueue` | Core/FastBuffer.cpp:26-88 | Over every run of push, direct write, pop and clear the live bytes are the queue of the same run |
| `FastBuffers.StepCapacity` | Core/FastBuffer.cpp:28-83 | One step: what the new capacity is bounded by |
| `FastBuffers.RunCapacity` | Core/FastBuffer.cpp:28-83 | Over every run the capacity stays within the larger of a given bound, 526336 plus the largest request, and the largest live size plus request seen |
| `FastBuffers.FreshRun` | Core/FastBuffer.cpp:13-88 | Both results together for a new buffer: it is the queue, and its capacity is bounded |
| `FastBuffers.StepExact` | Core/FastBuffer.cpp:26-88 | Exactly what every operation does to the capacity and the idle counter: 8192 bytes are given back if and only if a push finds more than 131072 bytes, seven eighths of them free after it, and a counter above 100; otherwise the capacity stays, doubles the write position plus the request and 2048, or above 262144 grows just to fit |
| `FastBuffers.IdleRun` | Core/FastBuffer.cpp:59-83 | Over every run in which no push finds a large buffer in use, nothing is given back up to the 101st idle push, and the counter counts them |
| `FastBuffers.IdleRunShrinks` | Core/FastBuffer.cpp:64-76 | The idle push after that gives 8192 bytes back |
| `FastBuffers.CounterBound` | Core/FastBuffer.cpp:64-82 | In every run the counter stays within 0 and 101 |
| `FastBuffers.FastBuffer.Resize` | Core/FastBuffer.cpp:41-47 | `vector::resize`: old cells kept, new ones zero |
| `FastBuffers.FastBuffer.Compact` | Core/FastBuffer.cpp:32-34 | The in-place copy moves the live bytes to the front even where source and target overlap |
| `FastBuffers.FastBuffer.EnsureWritable` | Core/FastBuffer.cpp:26-53 | Same live bytes, room for the request, state as specified |
| `FastBuffers.FastBuffer.AutoShrink` | Core/FastBuffer.cpp:59-83 | The counter and the shrink of the specification |
| `FastBuffers.FastBuffer.PushBack` | Core/FastBuffer.cpp:55-88 | The contents grow by exactly the data |
| `FastBuffers.FastBuffer.ReadInto` | Core/FastBuffer.h:17-28 | A direct write after `ensurewritable` appends exactly the bytes read |
| `FastBuffers.FastBuffer.PopFront` | Core/FastBuffer.h:46-55 | The contents lose exactly their first n bytes |
| `FastBuffers.FastBuffer.Clear` | Core/FastBuffer.h:56-59 | The contents become empty |
| `Framing.ParseShape` | Core/NetMsgBusReceiverMgr.hpp:214-275 | The one-shot parser yields frames only, and its remainder holds no further whole frame |
| `Framing.ParseKeepsBytes` | Core/NetMsgBusReceiverMgr.hpp:214-275 | Frames plus remainder are exactly the bytes parsed |
| `Framing.ParseSplit` | Core/NetMsgBusReceiverMgr.hpp:214-275 | Parsing a prefix and then its remainder with the next bytes gives the same frames and remainder as one parse of both |
| `Framing.ParseFlat` | Core/NetMsgBusReq2ReceiverMgr.hpp:323-352 | Parsing a concatenation of frames gives those frames, whatever follows |
| `Framing.FramesPrefix` | Core/NetMsgBusReceiverMgr.hpp:214-275 | Frames cut from a prefix of a stream of frames are a prefix of those frames |
| `Framing.FramesAll` | Core/NetMsgBusReceiverMgr.hpp:214-275 | If nothing is missing, they are all of them |
| `Framing.ReadLoop` | Core/NetMsgBusReq2ReceiverMgr.hpp:323-352 | The read loop with its moving pointer and remaining size yields the frames of the one-shot parse and reports exactly the bytes used |
| `Framing.RequestRoundTrip` | Core/NetMsgBusReq2ReceiverMgr.hpp:403-411 | A request as written is one frame; flag, session id and data read back |
| `Framing.ResponseRoundTrip` | Core/NetMsgBusReq2ReceiverMgr.hpp:331-341 | A response as written is one frame; session id and data read back |
| `Bytes.Be32RoundTrip` | Core/msgbus_def.cpp:85-89 | `ntohl` undoes `htonl`, modulo 2^32 |
| `Bytes.Be16RoundTrip` | Core/msgbus_def.cpp:81-81 | `ntohs` undoes `htons`, modulo 2^16 |
| `Bytes.NetworkOrder` | Core/msgbus_def.cpp:85-89 | The first byte is the most significant one |
| `Transport.SendLoopKeepsBytes` | Core/TcpSock.cpp:295-348 | A write loop, with any partial writes, interruptions and errors, hands over a prefix of the buffer and keeps the rest |
| `Transport.SendLoopExact` | Core/TcpSock.cpp:295-348 | How much it hands over: the smaller of the buffer and the sum of what the kernel takes before the first answer that stops it, interruptions skipped; the socket is closed exactly by a failure met before the loop stops, shut down exactly when the buffer drains while sending is no longer allowed, and these are the cases in which the loop reports false |
| `Transport.ReadEventExact` | Core/TcpSock.cpp:457-501 | Exactly what a read event does however the bytes come in pieces: so many bytes taken from the wire, the frames of them and of what was kept dispatched in order, the remainder kept, or dropped with the connection |
| `Transport.ReadTotalIsReported` | Core/TcpSock.cpp:457-501 | How many bytes: all that the kernel reports before the first result that stops reading; the connection ends exactly if that is end of file or a failure |
| `Transport.NextKeepsInv` | Core/TcpSock.cpp:161-501 | Every step of sender, wire and receiver keeps: dispatched frames, input buffer, wire and output buffer together are the frames accepted |
| `Transport.EndToEnd` | Core/TcpSock.cpp:295-365 | In every run, whatever the partial writes, the splits into reads and the errors, the frames dispatched are a prefix of those sent, all of them once every byte has arrived; with what is on its way they are one parse of everything sent |
| `Transport.PostedEndToEnd` | Core/TcpSock.cpp:367-409 | The same from `SendData` on: in order, and nothing dropped while the sender accepts |
| `Transport.ShutDownLosesNothing` | Core/TcpSock.cpp:203-225 | When a requested shutdown takes its turn, the output buffer is empty |
| `Transport.RefusedForGood` | Core/TcpSock.cpp:367-409 | Once the sender refuses, no run makes it accept a frame again |
| `Transport.AcceptedUntilRefused` | Core/TcpSock.cpp:350-409 | `DisAllowSend` and `Close` make the sender refuse; until then every frame is accepted |
| `Transport.CanStillArrive` | Core/TcpSock.cpp:295-409 | After every run, as long as both ends are up, a frame posted now can still arrive right behind all those before it: no step makes the link stuck |
| `Transport.TcpSock.ShutDownWrite` | Core/TcpSock.cpp:161-179 | The flags of the specification; bytes untouched |
| `Transport.TcpSock.DoSend` | Core/TcpSock.cpp:295-348 | The loop over the kernel's answers writes, keeps, shuts down and closes as `SendLoopExact` says |
| `Transport.TcpSock.SendDataInLoop` | Core/TcpSock.cpp:350-365 | Append, then send; refused when sending is not allowed |
| `Transport.TcpSock.HandleRead` | Core/TcpSock.cpp:457-501 | The read loop dispatches the frames of everything read so far and keeps the remainder |
| `Transport.TcpSock.Close` | Core/TcpSock.cpp:227-276 | Flags down and input buffer dropped, output buffer kept; nothing accepted any more |
| `Wakeup.PipeAndOrder` | Core/SockWaiterBase.cpp:66-116 | In every run the pipe holds one byte for a set flag and one for a byte the loop still owes a read, so at most two; tasks run exactly once in queue order |
| `Wakeup.NoLostWakeup` | Core/EventLoop.cpp:180-200 | In every run, unless the latest wait failed, a pending task has a wake-up on its way or is about to be taken |
| `Wakeup.FailedPollExact` | Core/EventLoop.cpp:182-188 | A wait that returns -1 loses the wake-up if and only if a task is pending and no producer is still to notify |
| `Wakeup.NextCoveredExact` | Core/EventLoop.cpp:180-200 | Such a wait is the only step that takes its wake-up from a pending task |
| `Wakeup.WakeupExact` | Core/EventLoop.cpp:180-200 | Over whole runs: every pending task is covered at every moment if and only if there is no such wait |
| `Wakeup.LostWakeup` | Core/EventLoop.cpp:182-188 | A concrete run in which a task stays pending with the flag down and the pipe empty |
| `Wakeup.NextWaitRecovers` | Core/EventLoop.cpp:180-200 | Whatever other threads do meanwhile, the next wait that does not fail takes every pending task and all queued up to its swap |
| `Wakeup.DrainExact` | Core/EventLoop.cpp:196-200 | Whatever other threads do meanwhile, the drain runs its batch task by task in order, and with the step after the last one the loop polls again |
| `Wakeup.TurnRunsPending` | Core/EventLoop.cpp:180-200 | A whole turn: after a wait that does not fail everything that was pending has been run, in order, and the loop polls again |
| `Wakeup.EndsOnlyWhenTold` | Core/EventLoop.cpp:173-216 | In every run the loop has ended only if it was told to and left after that, with nothing left of its batch |
| `Wakeup.EventLoop.QueueTask` | Core/EventLoop.cpp:86-95 | First half of the call: the push step |
| `Wakeup.EventLoop.NotifyNewActive` | Core/SockWaiterBase.cpp:66-83 | Second half: one byte unless one is pending |
| `Wakeup.EventLoop.ClearNotify` | Core/SockWaiterBase.cpp:85-95 | The locked half: flag taken and cleared |
| `Wakeup.EventLoop.ReadNotify` | Core/SockWaiterBase.cpp:96-115 | The unlocked half: at most one byte read, interruptions retried |
| `Wakeup.EventLoop.SwapTasks` | Core/EventLoop.cpp:190-194 | All pending tasks taken at once |
| `Registry.RegistryConsistent` | Core/msgbus_server.cpp:486-628 | Over every interleaving, close taken as two steps, of runs in which a connection registers one name and address while open: host lists non-empty with distinct addresses, client maps non-empty, `tcp_services_map` exactly the active descriptors, every advertised host backed by an active connection or a close between its halves |
| `Registry.NextKeeps` | Core/msgbus_server.cpp:486-628 | Every single step keeps this, a registration when it fits |
| `Registry.RegisterExact` | Core/msgbus_server.cpp:573-628 | A registration keeps the registry consistent if and only if it fits what the server relies on |
| `Registry.TwoNamesLeak` | Core/msgbus_server.cpp:492-510 | A connection with two services leaves one advertised without backing when it closes |
| `Registry.UnregisterExact` | Core/msgbus_server.cpp:216-238 | Unregistering removes exactly the entry with that address, and an emptied service |
| `Registry.GateHolds` | Core/msgbus_server.cpp:412-420 | In every run, whatever connections register and when, a lookup, relay or unregister request of an open connection passes the gate if and only if a registration of that connection has been recorded since it was opened; one that does not pass changes nothing |
| `Registry.OnlyEntitledAct` | Core/msgbus_server.cpp:412-448 | Over every run what passed is exactly what was entitled to pass, and what acted is part of that, each request once |
| `Registry.StateIsStored` | Core/msgbus_server.cpp:578-583 | A further registration of a listed address stores its new busy state there and changes nothing else |
| `Registry.ClosedGateExact` | Core/msgbus_server.cpp:211-214 | A request of a closed connection passes the gate if and only if a registration was ever recorded for a connection already closed |
| `Registry.LateRegistrationOpensGate` | Core/msgbus_server.cpp:211-214 | A run in which a connection that was opened and closed without registering passes |
| `Registry.SuccessExact` | Core/msgbus_server.cpp:573-628 | After a registration answered with success the connection is active for the service if and only if the address was not listed yet or the connection was active before |
| `Registry.SuccessWithoutEffect` | Core/msgbus_server.cpp:492-515 | A reconnecting service is answered with success and ends up neither active nor advertised, outside the gate |
| `Registry.NobodyLeft` | Core/msgbus_server.cpp:486-515 | With nobody active and no close half done, nothing is advertised |
| `Registry.MsgBusServer.FindHost` | Core/msgbus_server.cpp:222-223 | The first host with that address |
| `Registry.MsgBusServer.ProcessRegister` | Core/msgbus_server.cpp:573-628 | The three maps of the specification and the return code, for every branch |
| `Registry.MsgBusServer.UnregisterClient` | Core/msgbus_server.cpp:216-238 | The erase as specified; the other maps untouched |
| `Registry.MsgBusServer.OnCloseFirst` | Core/msgbus_server.cpp:488-510 | The first half of a close: one service that holds the connection is detached, and its host is handed to the second half |
| `Relay.PrefixMatchingMeans` | Core/msgbus_server.cpp:167-170 | Matching means that one name is a prefix of the other; it is symmetric |
| `Relay.SelectBest` | Core/msgbus_server.cpp:173-193 | The count-down loop picks element (draw + 1) mod n |
| `Relay.SelectionIsBijection` | Core/msgbus_server.cpp:173-193 | Every connection is picked by exactly one draw |
| `Relay.RelayTo` | Core/msgbus_server.cpp:868-897 | One connection of every matching service is chosen, and each chosen one is sent to once |
| `Relay.ChooseEach` | Core/msgbus_server.cpp:868-886 | Exactly the matching services with a connection, each with the drawn one |
| `Relay.ExactlyOneEach` | Core/msgbus_server.cpp:868-897 | In a consistent registry a message reaches exactly one connection of each matching service and none of any other |
| `Relay.GetClient` | Core/msgbus_server.cpp:749-772 | A lookup fails exactly for names that are not advertised |
| `Relay.LookupIsBacked` | Core/msgbus_server.cpp:749-772 | In every run in which connections register as who they are, every host that a lookup can answer with is backed, and every advertised name has one |
| `Requests.ExactlyOnePlace` | Core/NetMsgBusReq2ReceiverMgr.hpp:246-592 | In every run every posted request is in exactly one place, parked at most once, processed at most twice |
| `Requests.WaitingIsAsked` | Core/NetMsgBusReq2ReceiverMgr.hpp:438-535 | In every run a parked request has a lookup in flight or about to be issued, unless its lookup could not be sent or was lost with the connection |
| `Requests.WaitingIsAskedWhileConnected` | Core/NetMsgBusReq2ReceiverMgr.hpp:438-535 | As long as the server connection does not drop and its socket takes every question, always |
| `Requests.WorkersKeepOrder` | Core/NetMsgBusReq2ReceiverMgr.hpp:575-591 | In every run a worker begins the requests of its names in the order in which they were queued |
| `Requests.SentInOrder` | Core/NetMsgBusReq2ReceiverMgr.hpp:575-591 | In every run what is written for the names of one worker is written in the order in which its passes entered the queue; a parked request makes a second pass, behind what was posted meanwhile |
| `RequestOrder.OvertakenOnlyWhenParked` | Core/NetMsgBusReq2ReceiverMgr.hpp:246-591 | In every run, of two requests sent to one client the first sent was posted first, unless it was not parked and the other was |
| `PassOrder.OvertakingExact` | Core/NetMsgBusReq2ReceiverMgr.hpp:246-591 | Of two requests sent to one client the one posted later is sent first if and only if its pass through the queue lies between the two passes of the other |
| `PassOrder.SentByPasses` | Core/NetMsgBusReq2ReceiverMgr.hpp:575-591 | In every run the requests of one worker are sent exactly in the order of the passes they are sent in |
| `Overtaking.Overtaken` | Core/NetMsgBusReq2ReceiverMgr.hpp:282-297 | For every client a run, with the server connected throughout, in which the second request is sent before the first: the first was parked and re-entered the queue behind the second |
| `RequestOrder.ChangeKeepsLined` | Core/NetMsgBusReq2ReceiverMgr.hpp:246-602 | A step that moves the head of one place to the tail of the next lets no request to a client pass another |
| `RequestOrder.NextAdvances` | Core/NetMsgBusReq2ReceiverMgr.hpp:246-602 | Every step of the code is of that kind, on the way through parking and on the straight way |
| `Requests.EndsAreFinal` | Core/NetMsgBusReq2ReceiverMgr.hpp:438-535 | Sent and failed requests stay so |
| `Requests.OnlyGivenUpFail` | Core/NetMsgBusReq2ReceiverMgr.hpp:438-535 | A step gives a request up exactly if its client is unknown or out of reach and it may not be tried again, its write fails, or the server does not know its client |
| `RequestHosts.ConnectExact` | Core/NetMsgBusReq2ReceiverMgr.hpp:438-478 | In every run a worker connects for a request by address to the address it was posted with, for one by name to the address last learnt for that name when the worker looked it up |
| `RequestHosts.CacheExact` | Core/NetMsgBusReq2ReceiverMgr.hpp:284-292 | In every run the cache holds an address for a name exactly if it is the last that an answer or a lookup gave, and it was not forgotten since |
| `RequestHosts.ForgottenExact` | Core/NetMsgBusReq2ReceiverMgr.hpp:503-512 | In every run an address is forgotten only by the worker that has just found no connection to it |
| `RequestHosts.CarriedUnchanged` | Core/NetMsgBusReq2ReceiverMgr.hpp:174-215 | In every run every request anywhere is what was posted under its number; a request by address is never parked |
| `RequestHosts.SharedWorker` | Core/NetMsgBusReq2ReceiverMgr.hpp:578-590 | Two names share a worker exactly if both are short or end in the same two characters |
| `Requests.ChangeOnce` | Core/NetMsgBusReq2ReceiverMgr.hpp:246-602 | Every way a request moves conserves requests |
| `Requests.NextWorkerFine` | Core/NetMsgBusReq2ReceiverMgr.hpp:438-535 | A worker runs one request at a time and parks only one that may retry |
| `Requests.NextCovered` | Core/NetMsgBusReq2ReceiverMgr.hpp:438-535 | Every step keeps the coverage of parked requests |
| `Requests.NextInOrder` | Core/NetMsgBusReq2ReceiverMgr.hpp:313-591 | Every step keeps the order of each worker's requests |
| `Requests.DidShows` | Core/NetMsgBusReq2ReceiverMgr.hpp:246-592 | A step on the shared fields is the step of the state machine |
| `Requests.ProcessedShows` | Core/NetMsgBusReq2ReceiverMgr.hpp:438-535 | An uninterrupted `ProcessReqToReceiver` is its steps in order |
| `Requests.HandedOutShows` | Core/NetMsgBusReq2ReceiverMgr.hpp:575-591 | The dispatch loop is that many hand-over steps |
| `Requests.AnsweredShows` | Core/NetMsgBusReq2ReceiverMgr.hpp:246-311 | An uninterrupted `HandleRspGetClient` is its steps: take, cache, pass on one by one |
| `Requests.Req2ReceiverMgr.QueueReqTask` | Core/NetMsgBusReq2ReceiverMgr.hpp:313-320 | The request enters the queue with a fresh identity |
| `Requests.Req2ReceiverMgr.SwapTasks` | Core/NetMsgBusReq2ReceiverMgr.hpp:557-574 | The whole queue goes to the dispatcher |
| `Requests.Req2ReceiverMgr.HandOut` | Core/NetMsgBusReq2ReceiverMgr.hpp:575-591 | Each request goes to the worker named by the end of its client name |
| `Requests.Req2ReceiverMgr.QueueWaitingTask` | Core/NetMsgBusReq2ReceiverMgr.hpp:597-602 | The request joins the waiting list of its name |
| `Requests.Req2ReceiverMgr.ProcessReq` | Core/NetMsgBusReq2ReceiverMgr.hpp:438-535 | Sent, parked or failed as specified; the result tells whether it failed |
| `Requests.Req2ReceiverMgr.HandleRspGetClient` | Core/NetMsgBusReq2ReceiverMgr.hpp:246-311 | Waiting list taken, cache set, requests re-queued without retry or given up |
| `Futures.IdFormula` | Core/NetMsgBusFuture.hpp:137-143 | The k-th id is ((k - 1) mod (2^32 - 1)) + 1, never 0 |
| `Futures.IdsRepeat` | Core/NetMsgBusFuture.hpp:137-143 | Two issues share an id exactly when they lie a whole number of cycles apart |
| `Futures.FreshExact` | Core/NetMsgBusFuture.hpp:137-148 | In every run the next id is free exactly when no live future was issued a whole number of cycles before |
| `Futures.FreshWithinCycle` | Core/NetMsgBusFuture.hpp:137-148 | Insertions are fresh while live futures span less than a cycle |
| `Futures.ResolvedOnce` | Core/NetMsgBusFuture.hpp:150-162 | In every run no future is resolved twice |
| `Futures.FirstResponseWins` | Core/NetMsgBusReq2ReceiverMgr.hpp:342-347 | A future is resolved by the first response that carries its id, and by nothing later, unless it was removed before |
| `Futures.LiveExact` | Core/NetMsgBusFuture.hpp:137-184 | In every run exactly those futures are live that were made under a free id and have since been neither answered, nor removed, nor found older than 120 seconds |
| `Futures.ResponsesArrive` | Core/NetMsgBusReq2ReceiverMgr.hpp:323-352 | Responses written one after the other reach the manager in order, each with its id and data |
| `Futures.FutureMgr.InsertFuture` | Core/NetMsgBusFuture.hpp:137-148 | The next id, and the future that the container holds under it |
| `Futures.FutureMgr.TakeFuture` | Core/NetMsgBusFuture.hpp:150-162 | Lookup with erasure |
| `Futures.FutureMgr.OnRead` | Core/NetMsgBusReq2ReceiverMgr.hpp:323-352 | Every whole frame of the data answers once; the bytes used are those of the frames |
| `Futures.FutureMgr.RemoveFuture` | Core/NetMsgBusFuture.hpp:163-167 | The id is free afterwards |
| `Futures.FutureMgr.ClearBadFutures` | Core/NetMsgBusFuture.hpp:169-184 | The erase loop removes exactly the futures older than 120 seconds |
| `LocalBus.TaskQueues.Drain` | Core/msgbus_interface.cpp:510-539 | Flattened, the batches are all sends then all posts in order; sends are alone, posts are in maximal runs of one message id |
| `LocalBus.TaskQueues.TakeRun` | Core/msgbus_interface.cpp:521-538 | The longest run of one message id at the front |
| `LocalBus.TaskQueues.QueueSend` | Core/msgbus_interface.cpp:352-356 | The task is appended |
| `LocalBus.TaskQueues.PostMsg` | Core/msgbus_interface.cpp:403-421 | The message is appended, with the bus thread as its caller |
| `LocalBus.BatchedFlat` | Core/msgbus_interface.cpp:510-539 | The batches hold exactly the tasks, each batch of one message id |
| `LocalBus.BatchedParts` | Core/msgbus_interface.cpp:510-539 | First the sends, one each, then batches whose neighbours differ |
| `LocalBus.CallsMean` | Core/msgbus_interface.cpp:188-230 | The handlers called are a prefix of the list, all of it unless one asks to stop, and each sees the original parameter |
| `LocalBus.HandledMeans` | Core/msgbus_interface.cpp:188-230 | The parameter returned is that of the last handler that returned true, else the original; the result is that of the last handler called |
| `LocalBus.BatchedIsOneByOne` | Core/msgbus_interface.cpp:188-268 | As long as each task of a batch leaves the others the handlers of the batch, batched dispatch equals looking handlers up afresh for every task, in every result and effect |
| `LocalBus.SteadyAllStayClean` | Core/msgbus_interface.cpp:188-268 | Handlers that leave the entry of their own message alone do so, whatever they do to other messages |
| `LocalBus.BatchExact` | Core/msgbus_interface.cpp:233-268 | For one batch on one bus: a lookup before each task of the batched run would find the handlers of the batch if and only if the lookups of the run one at a time do find them |
| `LocalBus.BatchingExact` | Core/msgbus_interface.cpp:233-268 | Every batch of a message, on every bus, gets the handlers of fresh lookups throughout if and only if no single task of it changes what a lookup for that message finds |
| `LocalBus.BatchingIsSafe` | Core/msgbus_interface.cpp:497-548 | If that holds of all messages, batched dispatch equals dispatch one at a time for every list of batches |
| `LocalBus.BatchingKeepsStaleHandlers` | Core/msgbus_interface.cpp:233-268 | A handler that unregisters itself shows that the condition is needed |
| `LocalBus.TargetsOnce` | Core/msgbus_interface.cpp:237-266 | A message reaches each live registered handler exactly once and no other |
| `LocalBus.TargetsInOrder` | Core/msgbus_interface.cpp:237-266 | Handlers are called in the order in which they are registered |
| `LocalBus.RegisteredIsLast` | Core/msgbus_interface.cpp:455-460 | A handler registered later is called after all that were there |
| `LocalBus.LastRegisteredAnswers` | Core/msgbus_interface.cpp:201-224 | Where every handler goes on and succeeds, the answer is that of the handler registered last |
| `LocalBus.PurgedMeans` | Core/msgbus_interface.cpp:237-266 | A lookup drops exactly the dead entries of its message, the message itself once nothing is left, and nothing else |
| `LocalBus.LockHandlers` | Core/msgbus_interface.cpp:289-318 | Live handlers locked in order, dead ones erased; outside the bus thread the loop stops exactly when some handler is reserved to it |
| `LocalBus.Dispatcher.FindHandlers` | Core/msgbus_interface.cpp:237-325 | The handlers and the purged registry, other messages untouched |
| `LocalBus.Dispatcher.Execute` | Core/msgbus_interface.cpp:191-227 | One task through its handlers as specified |
| `LocalBus.Dispatcher.ExecuteHandlers` | Core/msgbus_interface.cpp:188-230 | All tasks of a batch, in place |
| `LocalBus.Dispatcher.SendMsg` | Core/msgbus_interface.cpp:270-340 | Direct and bus-thread dispatch give the same answer and leave the same registry; a message is left to the bus thread exactly when a handler requires it |
| `LocalBus.Dispatcher.RegisterMsg` | Core/msgbus_interface.cpp:423-463 | A handler is added once, and its messages reach it after all handlers that were there |
| `LocalBus.Dispatcher.UnRegisterMsg` | Core/msgbus_interface.cpp:466-488 | The first entry that locks to the pointer is erased, for a live handler its only one, for a null pointer the first dead one |
| `Rendezvous.OwnThread` | Core/msgbus_interface.cpp:342-399 | In every run a record is completed, and a call returns, only with the result of a task of its own thread |
| `Rendezvous.OwnResult` | Core/msgbus_interface.cpp:342-399 | In every run without timeouts each call returns exactly its own task's result |
| `Rendezvous.LateResultExact` | Core/msgbus_interface.cpp:550-580 | The result of another task can reach a call if and only if, when it begins, an earlier task of its thread is queued, or run and not yet delivered |
| `Rendezvous.LateResult` | Core/msgbus_interface.cpp:550-580 | From such a state, a run that delivers it |
| `Rendezvous.FoundOnlyInside` | Core/msgbus_interface.cpp:342-400 | In every run a record can be found under a thread exactly while the thread is inside a call, and it is the record of that call |
| `Rendezvous.RunsInOrder` | Core/msgbus_interface.cpp:510-548 | In every run the bus thread has run exactly the tasks queued first, and the others wait in their order |
| `Rendezvous.ReadyTable.NewRecord` | Core/msgbus_interface.cpp:342-346 | A fresh record under the caller's thread |
| `Rendezvous.ReadyTable.Complete` | Core/msgbus_interface.cpp:550-580 | The record found by thread is completed; a caller that is gone gets nothing |
| `Rendezvous.ReadyTable.Wait` | Core/msgbus_interface.cpp:358-394 | With the other threads going on while the caller sleeps: the result if the record is filled by a wake-up that is no timeout, else a timeout |
| `Rendezvous.ReadyTable.EraseRecord` | Core/msgbus_interface.cpp:396-397 | The record is gone |
| `JsonRoundTrip.RoundTrip` | 3rd_tools/jsoncpp/json_writer.cpp:197-263 | For every value of null, booleans, integers, C strings, arrays and objects: parsing the written text returns the value, unsigned numbers that fit as signed, if and only if every integer lies in -2147483639..4294967289 |
| `JsonRoundTrip.ParameterRoundTrip` | Core/xparam.hpp:281-300 | The same, in both directions, for the parameter objects of messages |
| `JsonRoundTrip.MinIntIsReal` | 3rd_tools/jsoncpp/json_reader.cpp:597-606 | The smallest 32-bit integer comes back as a double |
| `JsonRoundTrip.ReadText` | 3rd_tools/jsoncpp/json_reader.cpp:194-579 | Reading a written value consumes exactly its text, whatever follows |
| `JsonRoundTrip.RereadIsNormal` | 3rd_tools/jsoncpp/json_reader.cpp:581-617 | What is read back is the value itself exactly for integers in range |
| `JsonRoundTrip.AccumulateNeverWraps` | 3rd_tools/jsoncpp/json_reader.cpp:592-606 | The decimal accumulator stays within 32 bits |
| `JsonRoundTrip.DecodeEscaped` | 3rd_tools/jsoncpp/json_reader.cpp:657-756 | Decoding undoes escaping, for every string (section 7 of RFC 8259) |
| `JsonRoundTrip.StringIsToken` | 3rd_tools/jsoncpp/json_reader.cpp:463-477 | A quoted string is one string token |
| `JsonRoundTrip.AccumulateDigits` | 3rd_tools/jsoncpp/json_reader.cpp:592-606 | The digits of a number accumulate to it, below the threshold |
| `JsonWriters.PlainIsEscaped` | 3rd_tools/jsoncpp/json_writer.cpp:111-115 | The shortcut for strings without special characters writes the same |
| `JsonWriters.OneLine` | 3rd_tools/jsoncpp/json_writer.cpp:111-172 | The text of a value has no control characters, whatever its strings hold |
| `JsonWriters.UintToString` | 3rd_tools/jsoncpp/json_writer.cpp:30-40 | The backward loop leaves the decimal digits in the buffer |
| `JsonWriters.QuoteString` | 3rd_tools/jsoncpp/json_writer.cpp:111-172 | The quoted and escaped text, by either path |
| `JsonWriters.FastWriter.WriteInt` | 3rd_tools/jsoncpp/json_writer.cpp:42-64 | The decimal text, with its sign |
| `JsonWriters.FastWriter.WriteValue` | 3rd_tools/jsoncpp/json_writer.cpp:207-263 | The document grows by exactly the text of the value |
| `JsonWriters.FastWriter.WriteItems` | 3rd_tools/jsoncpp/json_writer.cpp:230-242 | Items between brackets, separated by commas |
| `JsonWriters.FastWriter.WriteMembers` | 3rd_tools/jsoncpp/json_writer.cpp:243-261 | Members between braces, names quoted |
| `JsonWriters.FastWriter.Write` | 3rd_tools/jsoncpp/json_writer.cpp:197-204 | The text of the value and a newline |
| `JsonReaders.Reader.SkipBlanks` | 3rd_tools/jsoncpp/json_reader.cpp:348-359 | The cursor stops at the first non-blank |
| `JsonReaders.Reader.Matches` | 3rd_tools/jsoncpp/json_reader.cpp:362-375 | Backward comparison; the cursor moves only on a match |
| `JsonReaders.Reader.PassNumber` | 3rd_tools/jsoncpp/json_reader.cpp:451-461 | The cursor passes exactly the number characters |
| `JsonReaders.Reader.PassString` | 3rd_tools/jsoncpp/json_reader.cpp:463-477 | The cursor passes to the closing quote, escapes skipped |
| `JsonReaders.Reader.PassComment` | 3rd_tools/jsoncpp/json_reader.cpp:377-449 | Comments of both styles |
| `JsonReaders.Reader.NextToken` | 3rd_tools/jsoncpp/json_reader.cpp:273-346 | Kind, start and end of the next token |
| `JsonReaders.Reader.NextSolidToken` | 3rd_tools/jsoncpp/json_reader.cpp:245-261 | The next token that is no comment |
| `JsonReaders.ReadHex4` | 3rd_tools/jsoncpp/json_reader.cpp:733-756 | Four hexadecimal digits |
| `JsonReaders.ReadUnicode` | 3rd_tools/jsoncpp/json_reader.cpp:703-731 | A code point, from one escape or a surrogate pair |
| `JsonReaders.DecodeLoop` | 3rd_tools/jsoncpp/json_reader.cpp:657-701 | The decoded text of a string token, or an error |
| `JsonReaders.DecodeNumberLoop` | 3rd_tools/jsoncpp/json_reader.cpp:581-617 | An integer with its sign, or a double where the accumulator would pass the limit |
| `JsonReaders.Parser.ParseValue` | 3rd_tools/jsoncpp/json_reader.cpp:194-243 | The value read and the position behind it |
| `JsonReaders.Parser.ParseArray` | 3rd_tools/jsoncpp/json_reader.cpp:538-578 | The items in order |
| `JsonReaders.Parser.ParseObject` | 3rd_tools/jsoncpp/json_reader.cpp:479-535 | The members as `ObjectExact` says |
| `JsonReaders.ParseDocument` | 3rd_tools/jsoncpp/json_reader.cpp:150-191 | The value of the document, or failure |
| `JsonValues.PutSorted` | 3rd_tools/jsoncpp/json_reader.cpp:508-509 | Setting a member keeps names sorted and distinct |
| `JsonValues.PutExact` | 3rd_tools/jsoncpp/json_reader.cpp:508-509 | After setting a member the object holds it and every other member it held under another name, and nothing else |
| `JsonValues.PutAllExact` | 3rd_tools/jsoncpp/json_reader.cpp:508-509 | After setting several it holds the last of every name, and what it held under other names |
| `JsonValues.SortedIsUnique` | 3rd_tools/jsoncpp/json_reader.cpp:508-509 | Order and membership fix an object |
| `JsonGrammar.ObjectExact` | 3rd_tools/jsoncpp/json_reader.cpp:479-535 | Whatever object text the parser accepts, the object holds exactly the name and value pairs of the text, sorted, the last value of a repeated name |
| `JsonGrammar.ParseDoc` | 3rd_tools/jsoncpp/json_reader.cpp:150-756 | Every text of the JSON grammar of RFC 8259, with blanks anywhere, members in any order and repeated, every escape and every numeral, is parsed as the value it stands for |
| `JsonGrammar.ReadDoc` | 3rd_tools/jsoncpp/json_reader.cpp:194-579 | The same inside a larger text: the parser stops exactly at the end of the value |
| `JsonGrammar.DocMembers` | 3rd_tools/jsoncpp/json_reader.cpp:479-535 | The members of such an object: the last pair of every name, sorted, nothing else |
| `JsonGrammar.ReadNumeral` | 3rd_tools/jsoncpp/json_reader.cpp:581-617 | Digits with any leading zeros denote their decimal value, as an integer from -2147483639 to 4294967289, else as a double |
| `JsonGrammar.ValueAfterComment` | 3rd_tools/jsoncpp/json_reader.cpp:377-449 | A comment of either kind in front of a value makes no difference |
| `JsonTokens.SkipSpacesExact` | 3rd_tools/jsoncpp/json_reader.cpp:348-359 | Leading blanks are skipped, all of them and nothing else |
| `JsonTokens.NumberLenExact` | 3rd_tools/jsoncpp/json_reader.cpp:451-461 | A number token is the longest run of its characters |
| `JsonTokens.ScanStringExact` | 3rd_tools/jsoncpp/json_reader.cpp:463-477 | A string token ends at the first quote that is not escaped, if and only if there is one |
| `JsonTokens.ScanCStyleExact` | 3rd_tools/jsoncpp/json_reader.cpp:425-436 | A comment ends with the first star-slash; without one the text is used up |
| `JsonTokens.ScanLineExact` | 3rd_tools/jsoncpp/json_reader.cpp:438-448 | A line comment ends with its line |
| `JsonTokens.HexDigitExact` | 3rd_tools/jsoncpp/json_reader.cpp:733-756 | The hexadecimal digits in either case, and no other character |
| `JsonTokens.DecodeExact` | 3rd_tools/jsoncpp/json_reader.cpp:657-756 | What stands between quotes decodes to a text if and only if it is written in plain characters and well-formed escapes that stand for that text (section 7 of RFC 8259) |
| `JsonTokens.Utf8RoundTrip` | 3rd_tools/jsoncpp/json_reader.cpp:69-99 | A UTF-8 reader (section 3 of RFC 3629) gets every code point back, in one to four bytes |
| `JsonTokens.CodePointRoundTrip` | 3rd_tools/jsoncpp/json_reader.cpp:703-756 | An escaped code point, above 16 bits as a surrogate pair, is read as the UTF-8 bytes of that code point |
| `PyCodec.DecodeEncode` | PyPort/NetMsgBusDataDef.py:428-436 | Two-pass unescape inverts two-pass escape, for every text |
| `PyCodec.EscapedHasNoAmp` | PyPort/NetMsgBusDataDef.py:428-431 | Escaped text contains no `&` |
| `PyCodec.FindMeans` | PyPort/NetMsgBusDataDef.py:441-443 | The search gives the first occurrence, and -1 exactly when there is none |
| `PyCodec.RawValueIs` | PyPort/NetMsgBusDataDef.py:438-448 | A field reads as the text from the first `key=` up to the next `&` |
| `PyCodec.IdRoundTrip` | PyPort/NetMsgBusDataDef.py:454-469 | The id of a made message always comes back |
| `PyCodec.ParamRoundTrip` | PyPort/NetMsgBusDataDef.py:458-469 | The parameter comes back, except that an id containing `msgparam=` shadows it with its own tail |
| `PyCodec.ParamExact` | PyPort/NetMsgBusDataDef.py:458-469 | It comes back if and only if the id does not contain `msgparam=`, or only with the parameter itself behind it |
| `PyCodec.ShadowedParam` | PyPort/NetMsgBusDataDef.py:458-469 | An id that supplies its own parameter |
| `PyCodec.SenderRoundTrip` | PyPort/NetMsgBusDataDef.py:450-469 | The sender comes back with a NUL behind it, unless id or parameter shadow it |
| `ContentCodec.GenerateNetMsgContent` | Core/NetMsgBusUtility.hpp:183-204 | The buffer filled through the moving pointer holds exactly the encoded content |
| `ContentCodec.SenderRoundTrip` | Core/NetMsgBusUtility.hpp:84-94 | The sender comes back cut to its length modulo 256; whole if and only if shorter than 256 |
| `ContentCodec.IdRoundTrip` | Core/NetMsgBusUtility.hpp:96-107 | The same for the message id |
| `ContentCodec.SenderExact` | Core/NetMsgBusUtility.hpp:84-94 | On any content the sender is there exactly if as many bytes follow its length byte, and is those |
| `ContentCodec.IdIsNext` | Core/NetMsgBusUtility.hpp:96-108 | On any content the id is the field behind the sender |
| `ContentCodec.ParamRoundTrip` | Core/NetMsgBusUtility.hpp:149-169 | The whole parameter comes back, provided the total fits 32 bits |
| `ContentCodec.TruncationIsNoticed` | Core/NetMsgBusUtility.hpp:149-169 | A content cut short anywhere is reported as missing its parameter |
| `ContentCodec.OverrunExact` | Core/NetMsgBusUtility.hpp:158-169 | The 32-bit length check lets a content through that is too short exactly when the declared total wraps below its length |
| `ContentCodec.SixBytesOverrun` | Core/NetMsgBusUtility.hpp:158-169 | A content of six bytes that gets through |
| `Messages.UnpackPacked` | Core/msgbus_def.cpp:167-290 | Unpacking inverts packing for every list of fields, up to what C strings mean |
| `Messages.UnpackCut` | Core/msgbus_def.cpp:186-290 | Fields cut anywhere are read past their end, unless the cut lies behind the NUL of a last C string, which goes unnoticed |
| `Messages.CutResultMeans` | Core/msgbus_def.cpp:186-290 | The same in closed form |
| `Messages.BodyRoundTrip` | Core/msgbus_def.cpp:186-290 | A whole body comes back for every kind of message, whether its length is told or not |
| `Messages.ToldCutExact` | Core/msgbus_def.cpp:186-290 | A cut body whose length is told is rejected if and only if its kind has a tail and something is left; of other kinds it ends the process, and cut to nothing it is read without any test |
| `Messages.UntoldCutExact` | Core/msgbus_def.cpp:638-662 | Without a told length no cut is rejected: it is read past its end, or taken for the whole |
| `Messages.CutHeadExact` | Core/msgbus_def.cpp:202-218 | `UnPackData` never rejects a message cut in the head: it ends the process or reads on |
| `Messages.CutDataExact` | Core/msgbus_def.cpp:202-218 | Nor one cut in the body, to which it tells no length |
| `Messages.ClearedMeans` | Core/msgbus_def.cpp:167-201 | What comes back means the same, C string by C string, and is otherwise equal |
| `Messages.DeclaredIsWritten` | Core/msgbus_def.cpp:176-309 | The declared body length is the number of bytes written, for every message |
| `Messages.HeadImage` | Core/msgbus_def.cpp:75-92 | The head takes 16 bytes and ends with the body length |
| `Messages.HeadExact` | Core/msgbus_def.cpp:75-92 | Every field of the head in its place: 0x66, version 1, 0 or 1 by request or response, the message id, the body type of the kind, the body length, then the body |
| `Messages.UnPackHeadExact` | Core/msgbus_def.cpp:94-118 | `UnPackHead` of a packed message gives the id, both types and the length back |
| `Messages.BodyExact` | Core/msgbus_def.cpp:167-474 | What the body of each kind consists of, field by field |
| `Messages.PackedIsFrame` | Core/msgbus_def.cpp:176-185 | A packed message is one frame of the protocol with the server |
| `Messages.UnPackDataExact` | Core/msgbus_def.cpp:202-474 | `UnPackData` accepts exactly the messages of its own kind, except that `ConfirmAliveRsp` rejects its own and takes the return code of a `RegisterRsp`; told the length of a shorter message, a class without a tail ends the process |
| `Messages.PackFields` | Core/msgbus_def.cpp:167-175 | Field after field at a moving pointer |
| `Messages.PackMessage` | Core/msgbus_def.cpp:176-185 | Head and body in one buffer, as `HeadExact` and `BodyExact` say |
| `Messages.UnPackBody` | Core/msgbus_def.cpp:186-290 | Fields, rejection, end of the process or overrun, as specified for the kind and the told length |
| `Messages.ReadFields` | Core/msgbus_def.cpp:266-284 | Field after field from a moving position |
| `ReceiverGate.GateMeans` | Core/NetMsgBusReceiverMgr.hpp:247-271 | On a connection exactly the frames from the first allowed sender on are acted on, in order; before it none |
| `ReceiverGate.GateOverRuns` | Core/NetMsgBusReceiverMgr.hpp:208-293 | In every run, whatever the splits and interleavings: what was acted on for a descriptor is what the gate lets through of one parse of all bytes since its last close |
| `ReceiverGate.ActedOnIsAllowed` | Core/NetMsgBusReceiverMgr.hpp:247-271 | A request is acted on only if some frame since the last close named an allowed sender |
| `ReceiverGate.ClientsHeard` | Core/NetMsgBusReceiverMgr.hpp:214-275 | In every run, however the bytes were split, of the messages a client sent those from the first with an allowed sender on are acted on, with their numbers and contents, and no other |
| `ReceiverGate.ReceiverMgr.OnRead` | Core/NetMsgBusReceiverMgr.hpp:208-276 | The read loop with the gate inside does this to the sender map and the queue, and reports the bytes used |
| `ReceiverGate.ReceiverMgr.HandleFrame` | Core/NetMsgBusReceiverMgr.hpp:247-271 | One frame: sender learned or frame dropped; queued if its session id is not 0 |
| `ReceiverGate.ReceiverMgr.OnClose` | Core/NetMsgBusReceiverMgr.hpp:287-293 | The sender is forgotten, nothing else changes |
| `ClientPool.EachOnce` | Core/TcpClientPool.cpp:13-24 | The counter modulo n gives a rotation of the n connections, wherever it starts |
| `ClientPool.SelectionsTakeTurns` | Core/TcpClientPool.cpp:13-24 | In every run, whatever happens in between, selections on unchanged connections go round by the counter, until that overflows |
| `ClientPool.EachExactlyOnce` | Core/TcpClientPool.cpp:13-24 | As many selections as there are connections return each exactly once, before the counter overflows |
| `ClientPool.OverflowBreaksSeven` | Core/TcpClientPool.cpp:21-21 | With seven connections the turn goes from the second back to the first there |
| `ClientPool.OverflowExact` | Core/TcpClientPool.cpp:21-21 | Where the counter wraps, the turn goes on to the next connection if and only if their number divides 2^64 - 2^32 |
| `ClientPool.CountersExist` | Core/TcpClientPool.cpp:26-155 | In every run of adds, counts, appends, removals and selections every destination has a counter |
| `ClientPool.CounterExact` | Core/TcpClientPool.cpp:13-91 | In every run the counter of a destination is the number of its selections so far, wrapped to an `int`, whatever was added and removed in between |
| `ClientPool.PooledExact` | Core/TcpClientPool.cpp:26-91 | In every run the pool holds a connection for a destination exactly as often as it was put in for it since an open connection with its descriptor was last removed |
| `ClientPool.PutLast` | Core/TcpClientPool.cpp:36-46 | A new connection is the last in turn |
| `ClientPool.PoolBound` | Core/TcpClientPool.cpp:93-155 | In every run of t threads that ask for at most n connections each, a destination has at most t times n, plus those added from outside |
| `ClientPool.BoundIsReached` | Core/TcpClientPool.cpp:97-152 | A run that reaches this bound: every thread counts before any appends |
| `ClientPool.AloneStaysWithin` | Core/TcpClientPool.cpp:93-155 | A thread that is alone with its destination never goes beyond the number asked for |
| `ClientPool.TcpClientPool.GetTcpSock` | Core/TcpClientPool.cpp:13-24 | The connection whose turn it is; the counter moves on; none if there is none |
| `ClientPool.TcpClientPool.PutTcpSock` | Core/TcpClientPool.cpp:140-152 | Appended; a new host gets a counter, an old one keeps its own |
| `ClientPool.TcpClientPool.CountNeeded` | Core/TcpClientPool.cpp:96-106 | The first block of `CreateTcpSock`: how many are missing |
| `ClientPool.TcpClientPool.AddTcpSock` | Core/TcpClientPool.cpp:26-54 | Appended to its host's list; every host keeps a counter |
| `ClientPool.TcpClientPool.RemoveTcpSock` | Core/TcpClientPool.cpp:56-91 | The erase loop leaves what is specified; hosts and counters stay |
| `ClientPool.WithoutMeans` | Core/TcpClientPool.cpp:66-79 | Exactly the open connections with the descriptor go, and only while the one to be removed is open itself |
| `ClientPool.ClosedStays` | Core/TcpSock.h:101-112 | A connection closed before it is removed stays in the pool |
| `ClientPool.TcpClientPool.CreateTcpSock` | Core/TcpClientPool.cpp:93-155 | Run without interruption: exactly the connections made before the first failure are appended, not beyond the number asked for; success means at least that many |

## Left out

- Sockets, epoll and select, pipes, threads, clocks and random numbers as code: their answers are parameters or steps, and all answers are covered.
- Liveness: that bytes are eventually sent, that a lookup is eventually answered. A write event that arrives together with a read event is not handled at once (Core/TcpSock.cpp:448-454), so eventual sending is not promised.
- An `onSend` callback that returns false (Core/TcpSock.cpp:308-314): every callback of the bus returns true.
- The race inside `DisAllowSend` and `ShutDownWrite`: every queued task of the write loop and every call is one step.
- JSON doubles: a number that is not a 32-bit integer is kept as its text, and whether `sscanf` accepts it is a parameter. Comments are skipped but not stored; error messages and the position after an error are not modelled, nor are the styled writers.
- JsonRoundTrip.RoundTrip: speaks of values without doubles, because their text is produced by foreign formatting.
- Overflow of `int` indices in `FastBuffer` (live data of 2 GB) and of the 32-bit frame length for data of 2^32 - 9 bytes and more.
- Broadcast, query of services by protocol buffers, `BODY_PBTYPE` messages, iconv helpers, logging and the filter configuration.
- Load counts and busy states beyond storing them; timers; the thread pool beyond "a named worker is a first-in first-out queue".
- Replies of the server that do not unpack: in `Requests` every reply names the client it was asked for.
- The synchronous request by name (Core/NetMsgBusReq2ReceiverMgr.hpp:140-161), but for its effect on the cache.
- Requests.Req2ReceiverMgr.ProcessReq: takes the outcome of connecting and writing as one of three values, because the pool and the socket are modelled elsewhere.
- ClientPool.TcpClientPool.GetTcpSock: takes the overflow of the `int` counter to wrap; the language leaves it undefined.
- ClientPool.TcpClientPool.CreateTcpSock: is the uninterrupted call; what other threads can do between its blocks is in `PoolBound`.
- A registration that runs between the close handler and the closing of its descriptor: in the model a closed connection has descriptor -1 at once.
- Messages.PackMessage: requires a body shorter than 2^32 bytes, which is what the head can declare.
- ContentCodec.GenerateNetMsgContent: requires a total below 2^32, because the original computes the size of its buffer in 32 bits.
- Registry.RegistryConsistent: is stated for connections that register one name and address while they are open, which is what the bus's own client does (Core/NetMsgBusServerConnMgr.hpp:594); `RegisterExact` says what happens otherwise.
- The order in which a close looks through the services is any order, so the results do not depend on it.
- The dead C++ functions `EncodeMsgKeyValue` and `DecodeMsgKeyValue`, which return at once, and the JSON containers that are not compiled in.
