# A verified model of the MAVLink secure gateway

The gateway is a byte-stream multiplexer with a filter. It reads MAVLink bytes from up to four sources,
parses each source with its own parser channel, routes every frame by a bitmap, asks a list of policies,
and hands the accepted frames to sinks. This project models the parts where that is hard to get right and
proves what they promise, for every input, every run and every interleaving.

| file | what it models |
|---|---|
| `LossyQueue.dfy` | a queue that may forget its oldest elements, by absolute positions; the specification of every ring and of the tunnel's list |
| `RingBuffer.dfy`, `RingRuns.dfy` | the overwriting byte ring, in place, and whole sequences of calls on it |
| `Uart.dfy`, `UartShared.dfy`, `UartSource.dfy` | the UART server thread, the pipeline thread and the sink that shares the ring's storage; any number of UARTs whose servers share one input array; the connection object |
| `Handoff.dfy`, `HandoffProgress.dfy`, `HandoffSource.dfy` | the two-thread single-buffer handoff of the TCP, TCP-out and UDP sources, with the unlocked peek as separate loads; its safety, its progress over every run, and the C functions with the other thread between their actions |
| `Ringleader.dfy` | the masked receive ring that pushes its tail |
| `Bitmap.dfy`, `SecurityPolicies.dfy`, `Perf.dfy` | bitmaps as sets; routes, policies and the policy loop; counters and load |
| `Gateway.dfy` | the pipeline as a function of its state |
| `GatewayRuns.dfy`, `GatewayTheorems.dfy`, `GatewayExact.dfy` | what the pipeline keeps and delivers over whole runs |
| `GatewayConfig.dfy` | hooks, transforms and policies read off the steps of a run, and that the state and every event obey them |
| `GatewayCounts.dfy` | the load and the port counters of a run, against its steps and its log |
| `EndToEnd.dfy` | the socket and UART sources and the pipeline as one system, from recv and read to the sinks |
| `Programs.dfy` | the programs of `main.c` and `test/main-xor.c` |
| `Pipeline.dfy` | the pipeline object with its loops and in-place updates, proved to compute `Gateway` |
| `Tunnel.dfy`, `TunnelThreads.dfy` | the bandwidth-limited tunnel: queue, overflow clearing, rate limiter |

## How it is built

Code that changes state is a class whose methods do what the C functions do. Each method's contract equates
the new abstract value with one step of a specification, and the results are lemmas about all runs of that
specification. For the threaded parts a run is any sequence of enabled steps of both threads; a step is one
load or store of a shared variable, one lock operation, or one critical section when every access to the data
is under the lock. Condition variables may wake for no reason.

The MAVLink parser is an arbitrary deterministic step function with one state per channel, so the results hold
for any parser. A frame carries the fields the decode functions would read. Transforms are arbitrary functions
on a frame. What recv, read and the clock return are parameters of the steps.

## What the code does not do

- A UART byte can be lost although the server waits on a full ring, because the wait comes after the copy
  (`lib/source_uart.c:47-51`): `Uart.BytesCanBeLost` is a run that loses one, `Uart.CopyLosesNothingIff` says
  exactly when a copy loses nothing, `Uart.EveryRun` bounds the loss.
- The servers of all UARTs read into one file-level array, outside any lock (`lib/source_uart.c:31`, `39`): with
  two UARTs one can hand over what the other read, `Uart.OtherReadCanCorrupt`, `UartShared.OverlappingCorrupts`.
  `UartShared.ContentsKeptIff` gives the exact condition: at most one UART is hooked. `Uart.IntactStep` and
  `Uart.OtherReadHarmlessIff` give it store by store.
- The UART ring lives in the array the sink serialises into (`lib/source_uart.c:107-108`, `215`):
  `Uart.SinkCanCorrupt` is a run in which the reader gets a byte the device never sent, `Uart.HarmlessIff` and
  `RingBuffer.OverlayHarmlessIff` say exactly which writes are harmless. Counts and positions hold in all runs;
  byte contents in the runs whose sink writes are harmless. The other way round, a copy between serialisation and
  `write` can change the outgoing message, after it was inspected: `Uart.OutgoingIsKept`, `Uart.OutgoingIsKeptIff`.
- A ringleader packet that crosses the end of `ready` is stored wrongly, since the second copy starts at the
  packet's start again (`lib/source_ringleader.c:85-86`): `Ringleader.AppendsExactlyIff`. The overwrite test
  misses a packet that reaches the end while the head is behind the tail (`lib/source_ringleader.c:88-91`), and
  the ring then keeps less than the packet it just received: `Ringleader.RetainsIff`,
  `Ringleader.LapLosesTheNewPacket`. An unguarded `read_byte` on an empty ring makes it claim 8191 readable
  bytes: `Ringleader.MavlinkRl.ReadByte`.
- `bitmap_test` converts to `int`, so it agrees with membership exactly for indices whose remainder by 64 is
  below 32 (`lib/secure_gateway.h:44`): `Bitmaps.TestIsMembershipIff`.
- The order of policies can matter, because a check sees the attribute bits that earlier ones left
  (`lib/secure_gateway.c:237-242`): `SecurityPolicies.OrderMattersOtherwise`. Among policies whose verdict does not
  depend on the attribute it never does, and one more policy can join them in any place exactly when it is such a
  policy itself: `SecurityPolicies.OrderIsIrrelevantIff`.
- Sequence gaps of 256 frames or more are counted wrongly, modulo 256: `Perf.DropExactIff`.
- The waypoint policy is defined but its registration is commented out (`lib/security_policies.c:105-106`), so
  nothing is claimed of waypoint commands.
- `test/main-xor.c:26` switches the transforms on through a field `transformer_enabled`; the pipeline has only
  `transform_enabled` (`lib/secure_gateway.h:249`), and `Programs.XorProgram` takes that one to be meant.
- A `connect_to` that fails after its socket was made leaves the socket open, and the server goes on to `recv` on it
  (`lib/source_tcpout.c:62-96`): `Handoff.FailedConnect`.
- `pipeline_init` does not set `transform_enabled` (`lib/secure_gateway.c:62-78`); every result holds for both
  values.

## Model

| member | source | states |
|---|---|---|
| `Handoff.Start` | lib/source_tcp.c:31-44 | the state left by the init functions satisfies the two-thread invariant |
| `Handoff.InvStep` | lib/source_tcp.c:161-198 | every atomic step of either thread keeps the invariant over both program counters, including the half-published state and what the consumer's earlier loads still prove |
| `Handoff.ExactlyOnce` | lib/source_tcp.c:161-198 | in every interleaving, for all three flavours and across reconnects, the bytes delivered followed by those outstanding are exactly what recv returned, in order |
| `Handoff.PeekIsSound` | lib/source_tcp.c:276-325 | once the unlocked peek has returned 1, after any mix of old and new loads in either order, the locked read takes the next stream byte; the filler 0 is never returned |
| `Handoff.RecvOwnsTheBuffer` | lib/source_tcp.c:171-172 | recv stores into the buffer only when nothing is unread or pending |
| `Handoff.RecvHandsOver` | lib/source_tcp.c:171-191 | from a call of recv to its return, whatever the pipeline thread does meanwhile, the buffer becomes what the kernel stores, and a return of n > 0 adds exactly the first n of these bytes to the stream and makes them the pending chunk |
| `Handoff.FailedRecvDrops` | lib/source_tcp.c:173-186 | after recv returned 0 or -1 nothing is published; a TCP server has no connection, can do no recv and can connect, a UDP server receives again |
| `Handoff.DroppedUntilConnect` | lib/source_tcpout.c:107-135 | in every run of a TCP or TCP-out source, after a recv that returned 0 or -1 the server is never in recv and nothing is received until a step brings a new connection |
| `Handoff.NoConnectionNoBytes` | lib/source_tcp.c:163-169 | so it is from every reachable state without a connection, the start included |
| `Handoff.FailedConnect` | lib/source_tcpout.c:62-117 | a failed accept changes nothing; a connect_to that fails after its socket was made, which only TCP-out can, leaves it open and the server goes on to recv on it |
| `Handoff.StopIsFinal` | lib/source_tcp.c:161-199 | at its loop head the server may leave, and then takes no step and receives nothing more, in every run |
| `HandoffProgress.ServerWaitsForTheChunk` | lib/source_tcp.c:188-198 | over every run of both threads with fewer reads than unread bytes the server stays in its wait loop and the chunk stays as published; the consumer moves by exactly its reads, never gets a failed test it does not already carry, and each of its steps is a seventh of a round |
| `HandoffProgress.LastTakeCompletes` | lib/source_tcp.c:188-198 | in every run the read of the last unread byte leaves everything recv returned delivered |
| `HandoffProgress.ChunkIsFinishedInEveryRun` | lib/source_tcp.c:193-196 | in every run, with any interference and spurious wakeups, seven consumer steps for each unread byte finish the chunk |
| `HandoffProgress.SignalComes` | lib/source_tcp.c:276-285 | a server waiting on a drained buffer is let go by nothing but a signal or a spurious wakeup, and in every run the signal comes within seven consumer steps: no wakeup is lost |
| `HandoffProgress.ReleasedServerLeaves` | lib/source_tcp.c:193-197 | in every run a server released on a drained buffer leaves its wait loop at its next test, with everything delivered |
| `HandoffProgress.NobodyIsStuck` | lib/source_tcp.c:188-197 | the consumer always has a step unless the server holds the lock, and then the server does, for at most three steps |
| `Handoff.RoundTakesOne` | lib/source_udp.c:176-207 | there is a run, the consumer's own round with either load first, that hands over exactly the first unread byte and changes nothing else; the existence half of the progress results |
| `Handoff.ReadTakes` | lib/source_tcpout.c:209-219 | the locked read takes the byte at cur_read, advances it by one and gives the lock back |
| `Handoff.ChunkIsFinished` | lib/source_tcp.c:193-196 | there is a run of consumer rounds that finishes a published chunk; the existence half of HandoffProgress.ChunkIsFinishedInEveryRun |
| `Handoff.DrainedServerIsReleased` | lib/source_tcp.c:276-285 | there is a run, has_more and the woken server's test, that takes a server waiting on a drained buffer back to its loop head; the existence half of HandoffProgress.SignalComes and ReleasedServerLeaves |
| `Handoff.SpuriousWakeIsIdle` | lib/source_tcp.c:193-196 | a return from cnd_wait without a signal while bytes are unread leads back to the same state |
| `Handoff.UnreadShrinks` | lib/source_tcp.c:190-196 | outside publication no step changes the number of unread bytes except the read, which removes exactly one |
| `Handoff.LockIsReleased` | lib/source_tcp.c:188-197 | a held lock's holder always has an enabled step of its own, and at most three such steps free the lock |
| `HandoffSource.SocketSource.constructor` | lib/source_tcp.c:31-44 | a new socket object is in the start state of its flavour |
| `HandoffSource.SocketSource.HasMore` | lib/source_tcp.c:260-286 | the whole call with the server at work between its actions: with an unread byte in a published chunk it returns 1 and nothing has moved; when it returns 0 no server is left waiting; it delivers nothing |
| `HandoffSource.SocketSource.ReadNextByte` | lib/source_tcp.c:307-326 | the whole call after has_more returned 1, with the server at work between its actions: the next byte that recv had returned by then, exactly once |
| `HandoffSource.SocketSource.ServeChunk` | lib/source_tcp.c:188-197 | the server's whole critical section with the pipeline at work between its actions: it is left only when every byte recv returned has been handed over |
| `HandoffSource.SocketSource.SignalServer` | lib/source_tcp.c:281-285 | lock, signal and unlock leave no server waiting and deliver nothing |
| `HandoffSource.SocketSource.KernelStore` | lib/source_udp.c:48-49 | one byte stored during recv, anywhere in the buffer, changes that byte of the buffer only, is the Fill step and hurts nobody |
| `HandoffSource.SocketSource.ServerRecvReturns` | lib/source_tcp.c:173-186 | 0 and -1 leave the server at its loop head with nothing received, and the connection dropped exactly when it is not UDP; n > 0 adds the first n bytes of the buffer to the stream as the pending chunk, on the same connection |
| `HandoffSource.SocketSource.ReadByte` | lib/source_tcp.c:316-325 | from any reachable state the returned byte is the next one recv returned; from any other the filler branch returns 0, signals and takes nothing |
| `Uart.Start` | lib/source_uart.c:100-110 | the initial UART state satisfies the invariant and its bytes are intact |
| `Uart.InvStep` | lib/source_uart.c:37-53 | every step of the server, the pipeline thread, the sink and the other UARTs keeps the index and count invariant |
| `Uart.After` | lib/source_uart.c:37-53 | every run of these parties keeps the index and count invariant |
| `Uart.EveryRun` | lib/source_uart.c:37-53 | in every interleaving, whatever the sink and other UARTs store: no filler is returned, delivered + lost + unread = copied in, each chunk of n bytes costs at most n - 1, and the ring is never full when the copy begins |
| `Uart.EveryHarmlessRun` | lib/source_uart.c:185-198 | when no store of the sink or of another UART's read changes a byte that waits, the delivered bytes are the device's bytes at strictly increasing positions and the unread ones its latest |
| `Uart.CopyLoss` | lib/source_uart.c:46-47 | a copy of n bytes forgets at most n - 1 of the oldest unread bytes and keeps the new chunk whole |
| `Uart.CopyLosesNothingIff` | lib/source_uart.c:47-51 | a copy loses nothing exactly when the chunk fits beside the unread bytes |
| `Uart.BytesCanBeLost` | lib/source_uart.c:47-51 | a run that loses a byte although the server waits on a full ring |
| `Uart.HarmlessIff` | lib/source_uart.c:215 | a sink byte leaves the unread bytes alone, whatever its value, exactly when its slot holds none of them |
| `Uart.OtherReadHarmlessIff` | lib/source_uart.c:31-47 | a store of another UART's read leaves this UART alone, whatever its value, exactly when its slot holds no byte between read and copy |
| `Uart.SinkCanCorrupt` | lib/source_uart.c:107-108 | a run in which the reader gets a byte the device never sent |
| `Uart.OtherReadCanCorrupt` | lib/source_uart.c:31 | a run in which the reader gets a byte that another UART read |
| `Uart.IntactStep` | lib/source_uart.c:185-198 | from bytes that are the device's a step leads to bytes that are the device's exactly when it changes none by a store of the sink or of another UART's read |
| `Uart.WaitEnds` | lib/source_uart.c:48-52 | a server inside cnd_wait has a full ring; the next read_byte wakes it, and after any steps of the other parties its test lets it go on to the device |
| `Uart.HasMoreIsExact` | lib/source_uart.c:178-182 | after has_more the pipeline goes on to read_byte exactly when there is an unread byte, on a full ring too, and nothing else has moved |
| `Uart.PollReleases` | lib/source_uart.c:178-197 | from a server waiting on a full ring and an idle pipeline the run has_more, read_byte, test takes the oldest byte and lets the server go on to the device |
| `Uart.StreamIsFromDevice` | lib/source_uart.c:39-47 | in every interleaving the bytes copied into the ring so far, and the read that waits for its copy, are what the reads of the run brought, read by read and in order |
| `Uart.LeaveIsFinal` | lib/source_uart.c:37-55 | at its loop head the server may leave, and then copies nothing more, in every run |
| `Uart.SpuriousWakeIsIdle` | lib/source_uart.c:48-51 | a spurious return from cnd_wait on a full ring leads back to the same state |
| `Uart.OutgoingIsKept` | lib/source_uart.c:215-216 | what is written to the device is what was serialised when no copy of the server in between lands in the first len slots of the storage they share |
| `Uart.OutgoingIsKeptIff` | lib/source_uart.c:215-216 | a copy of n bytes leaves the serialised message alone, whatever it copies, exactly when it lands behind it |
| `UartShared.InvMove` | lib/source_uart.c:31-53 | every move of any number of UARTs keeps each one's invariant, with the waiting chunks read from the one shared array |
| `UartShared.StoresRefresh` | lib/source_uart.c:31-39 | the bytes another UART's read puts into the array are the same stored one at a time or all at once |
| `UartShared.RunSeen` | lib/source_uart.c:31-53 | in every run of all UARTs each goes through a run of the single-UART model, the others' reads being stores into its input array |
| `UartShared.EveryRunOfEach` | lib/source_uart.c:37-53 | with any number of UARTs no filler is returned, delivered + lost + unread = copied in, and each chunk costs at most its length less one |
| `UartShared.ContentsKeptIff` | lib/source_uart.c:31-53 | when outgoing bytes are harmless, every run hands over only what each UART's own device sent if and only if at most one UART is hooked |
| `UartShared.OverlappingCorrupts` | lib/source_uart.c:31-47 | a run of two UARTs from their start in which the first hands over what the second read |
| `UartSource.UartConnection.constructor` | lib/source_uart.c:100-110 | a new connection is in the start state, with the ring on the output buffer and the array all servers read into |
| `UartSource.UartConnection.ServerRead` | lib/source_uart.c:31-39 | read() replaces the first bytes of the shared input array, and no others |
| `UartSource.UartConnection.ServerReadBeside` | lib/source_uart.c:31-39 | the read of one connection, seen from another that shares the array: the bytes that wait for its copy are replaced |
| `UartSource.UartConnection.CopyIn` | lib/source_uart.c:47 | the copy keeps the last 4096 bytes of unread ++ chunk and moves the tail by the overflow |
| `UartSource.UartConnection.ServerCopy` | lib/source_uart.c:46-52 | the critical section copies in place, from the ring's head on, then waits exactly when the ring is full |
| `UartSource.UartConnection.ServerRetest` | lib/source_uart.c:48-52 | a woken server waits again exactly when the ring is still full |
| `UartSource.UartConnection.UartHasMore` | lib/source_uart.c:178-182 | has_more is true exactly when the ring had contents, changes nothing in it, and is what lets read_byte be called |
| `UartSource.UartConnection.PopOldest` | lib/source_uart.c:193 | the pop returns the oldest unread byte, never the filler, and moves the tail by one slot |
| `UartSource.UartConnection.UartReadByte` | lib/source_uart.c:192-197 | read_byte returns the oldest byte of the ring and signals a waiting server |
| `UartSource.UartConnection.SinkStore` | lib/source_uart.c:215 | an outgoing byte stored in the shared array changes an unread byte exactly as the specification says |
| `Ringleader.RoundSound` | lib/source_ringleader.c:78-97 | one round of the copy loop keeps head and tail in range, never moves the absolute read position back and leaves the delivered bytes alone |
| `Ringleader.PacketSound` | lib/source_ringleader.c:75-98 | the same for a whole packet, which stores exactly its length |
| `Ringleader.NothingDroppedIff` | lib/source_ringleader.c:88-95 | no unread byte is dropped exactly when size + n <= READY_SIZE - 1 |
| `Ringleader.CountAfterRound` | lib/source_ringleader.c:88-97 | the readable count after a round, from the indices before it, with and without the missed overrun |
| `Ringleader.RetainsIff` | lib/source_ringleader.c:88-95 | the ring keeps as much as it can hold exactly when the packet does not reach the end of ready with the head behind the tail; otherwise it keeps less than the packet |
| `Ringleader.LapRunReaches` | lib/source_ringleader.c:67-98 | a run of 33 packets and 7700 reads that brings the head ten bytes behind the tail, near the end, with nothing lost |
| `Ringleader.LapLosesTheNewPacket` | lib/source_ringleader.c:88-91 | a run from the empty ring that leaves 8182 bytes unread, after which a full packet leaves 502 readable, fewer than it brought |
| `Ringleader.AppendsExactlyIff` | lib/source_ringleader.c:80-86 | the stored bytes are the packet, whatever it holds, exactly when it does not reach past the end of ready |
| `Ringleader.PacketBytes` | lib/source_ringleader.c:77-97 | what a packet leaves in ready, byte by byte: its own bytes, and from the end of ready on its first bytes again |
| `Ringleader.RunStores` | lib/source_ringleader.c:67-98 | in every run the stored stream is what the packets leave, one after the other |
| `Ringleader.ApplyAll` | lib/source_ringleader.c:67-239 | every run of completions and reads keeps fewer than READY_SIZE readable bytes at sound positions |
| `Ringleader.EveryRun` | lib/source_ringleader.c:217-239 | in every run the delivered bytes sit at strictly increasing positions of the stored stream, the readable ones are its latest, and delivered + lost + readable = stored |
| `Ringleader.RoomyRunIsExact` | lib/source_ringleader.c:75-98 | when every packet arrives with room and short of the end, delivered ++ readable is exactly what was received |
| `Ringleader.TwoRounds` | lib/source_ringleader.c:77-98 | for a packet of at most 512 bytes the copy loop is one round, or two when it crosses the end |
| `Ringleader.TailAfterRound` | lib/source_ringleader.c:88-95 | the overwrite test on the two indices computes the absolute read position of the specification |
| `Ringleader.HoldsAfterRound` | lib/source_ringleader.c:85-86 | after the memcpy every readable byte of the specification is in its slot |
| `Ringleader.MavlinkRl.constructor` | lib/source_ringleader.c:327-343 | a new ring is empty |
| `Ringleader.MavlinkRl.HasMore` | lib/source_ringleader.c:217-227 | head and tail differ exactly when there is a readable byte |
| `Ringleader.MavlinkRl.ReadByte` | lib/source_ringleader.c:229-239 | the oldest readable byte is taken; on an empty ring, which the code does not check, the slot's stale byte is returned and the tail then claims 8191 readable bytes |
| `Ringleader.MavlinkRl.CopyRound` | lib/source_ringleader.c:78-97 | one turn of the loop, in place and in bounds, is one round of the specification |
| `Ringleader.MavlinkRl.RecvCallback` | lib/source_ringleader.c:67-98 | a completion stores its packet as the specification says; an error or an empty one stores nothing |
| `RingBuffer.WindowStore` | lib/ring_buffer.h:55-69 | writing at the head and moving the tail when full keeps the last max bytes of contents ++ [b] |
| `RingBuffer.WindowPop` | lib/ring_buffer.h:71-84 | moving the tail by one drops exactly the oldest byte |
| `RingBuffer.OverlayHarmlessIff` | lib/source_uart.c:215 | overwriting the first len slots keeps the readable bytes, for every overwriting text, exactly when none of them lives there |
| `RingBuffer.StoreInsideCopy` | lib/ring_buffer.h:143-156 | a store by another thread between two bytes of a copy is the same store before the whole copy or after it |
| `RingBuffer.WrittenBehindIff` | lib/ring_buffer.h:143-156 | a copy of n bytes keeps the first len slots of the storage, whatever it copies, exactly when it lands behind them |
| `RingBuffer.Ring.constructor` | lib/ring_buffer.h:18-30 | a new ring is empty, on the given storage |
| `RingBuffer.Ring.Reset` | lib/ring_buffer.h:32-39 | reset empties the ring |
| `RingBuffer.Ring.IsEmpty` | lib/ring_buffer.h:41-46 | true exactly when there are no contents |
| `RingBuffer.Ring.IsFull` | lib/ring_buffer.h:48-53 | true exactly when the contents have max bytes |
| `RingBuffer.Ring.Size` | lib/ring_buffer.h:86-103 | the length of the contents, from the indices |
| `RingBuffer.Ring.Available` | lib/ring_buffer.h:112-117 | size + available = capacity |
| `RingBuffer.Ring.Push` | lib/ring_buffer.h:55-69 | the contents become the last max bytes of contents ++ [b] |
| `RingBuffer.Ring.Pop` | lib/ring_buffer.h:71-84 | the oldest byte is returned and removed; an empty ring returns 0 and stays |
| `RingBuffer.Ring.CopyTo` | lib/ring_buffer.h:119-134 | min(size, count) oldest bytes move to the destination, which is otherwise unchanged |
| `RingBuffer.Ring.CopyFrom` | lib/ring_buffer.h:136-157 | the contents become the last max bytes of contents ++ chunk, also for a chunk longer than the ring |
| `RingRuns.Perform` | lib/ring_buffer.h:55-157 | each call on the in-place ring changes contents and delivered bytes as the queue specification says |
| `RingRuns.Drive` | lib/ring_buffer.h:55-157 | so does any sequence of calls |
| `RingRuns.CallExplained` | lib/ring_buffer.h:55-157 | every call is explained by absolute positions in the stream of written bytes |
| `RingRuns.TrackAll` | lib/ring_buffer.h:55-157 | every run of calls is explained by absolute positions in the written stream |
| `RingRuns.RunIsOrdered` | lib/ring_buffer.h:55-157 | for every capacity and run the delivered bytes sit at strictly increasing written positions, the contents are a suffix of what was written, and delivered + lost + readable = written |
| `RingRuns.NothingLostWithRoom` | lib/ring_buffer.h:55-157 | if no more is written than fits, delivered ++ contents is exactly what was written |
| `LossyQueue.StoreKeepsLast` | lib/ring_buffer.h:136-157 | forgetting exactly the overflow is keeping the last cap bytes, and the loss grows by exactly the overflow |
| `LossyQueue.Conservation` | lib/ring_buffer.h:86-103 | delivered + lost + readable = written, and the loss is never negative |
| `Pipeline.PipelineObject.constructor` | lib/secure_gateway.c:62-73 | pipeline_init before its policies: nothing connected, policies on, default routes |
| `Pipeline.PipelineObject.SecurityPolicyInit` | lib/security_policies.c:100-113 | the table becomes the three default policies; with the constructor this is the whole of pipeline_init |
| `Pipeline.RouteWordsMeanRoute` | lib/route_table.c:3-11 | the words of the default route table stand for the routes |
| `Pipeline.PipelineObject.RouteTableRoute` | lib/secure_gateway.c:210-219 | whatever the bitmap held, it now stands for the route of the message's source |
| `Pipeline.PipelineObject.PipelineInspect` | lib/secure_gateway.c:221-250 | the in-place loop with its early exit computes the verdict and attribute of the pure one, and the DISCARD bit is then set exactly if it was before or the message is rejected |
| `Pipeline.InspectKeepsSinks` | lib/secure_gateway.c:230-249 | inspection changes nothing of a message but its attribute |
| `Pipeline.PipelineObject.DeliverToSinks` | lib/secure_gateway.c:282-301 | the delivery loop transforms the message from sink to sink and delivers and counts as the specification says, whose transforms GatewayConfig.EveryEvent and ports GatewayCounts.PortsCount pin from the steps of the run |
| `Pipeline.PipelineObject.RouteAndInspect` | lib/secure_gateway.c:261-270 | routing then inspecting in place decides as the pure verdict does, from the routed message, and reports DISCARD exactly on rejection |
| `Pipeline.PipelineObject.PipelinePush` | lib/secure_gateway.c:252-304 | the method computes the pure push: message, counters and deliveries |
| `Pipeline.PipelineObject.PrepareFrame` | lib/secure_gateway.c:175-185 | a frame is counted as it was parsed, stamped with the id of its source, and then is what the transform of the source makes of it if transforms are on; the message keeps its attribute |
| `Pipeline.PipelineObject.PushSlot` | lib/secure_gateway.c:186 | pushing the source's own message changes that message, the counters and the log only |
| `Pipeline.FrameFromPush` | lib/secure_gateway.c:175-187 | stamping and pushing in place is the pure frame step |
| `Pipeline.PipelineObject.HandleFrame` | lib/secure_gateway.c:175-187 | the branch for a complete frame computes the pure frame step |
| `Pipeline.PipelineObject.HandleByte` | lib/secure_gateway.c:153-193 | one byte advances its own channel only, and pushes exactly when the parser reports a frame |
| `Pipeline.PipelineObject.DrainSource` | lib/secure_gateway.c:150-194 | the inner loop handles every byte of its source in order |
| `Pipeline.PipelineObject.SpinSource` | lib/secure_gateway.c:139-194 | one turn of the outer loop drains a connected source and leaves everything alone for any other |
| `Pipeline.PipelineObject.SpinSources` | lib/secure_gateway.c:139-195 | the outer loop handles the connected sources in order and reports load exactly when one yielded a byte |
| `Pipeline.PipelineObject.EndTurn` | lib/secure_gateway.c:201-205 | one turn is counted, its duration is added to the load exactly if a source yielded a byte, then perf_show is called |
| `Pipeline.PipelineObject.PipelineSpin` | lib/secure_gateway.c:124-208 | the method computes the pure spin |
| `Pipeline.PipelineObject.HookPort` | lib/secure_gateway.c:9-30 | allocation overwrites one source slot, with source_id = slot index, and one sink |
| `Pipeline.PipelineObject.HookStdioSink` | lib/source_stdio.c:105-114 | only the route function of one sink is set |
| `Pipeline.PipelineObject.AddTransformer` | lib/secure_gateway.c:312-333 | for every id: exactly when it names a slot, the transform given is then that of this one source or sink; an id equal to the slot count passes the assertion and then writes past the sources or fails in sink_get, a larger one fails at once |
| `Pipeline.PipelineObject.EnablePolicies` | lib/plugins/console.c:68-84 | keys e and d: policies are then on, or off, and nothing else has changed |
| `Pipeline.PipelineObject.EnableTransforms` | lib/plugins/console.c:87-102 | keys t and f: the same for the transforms |
| `GatewayExact.SinksReceiveExactly` | lib/secure_gateway.c:139-304 | over every run of spins, hooks and toggles, and for any set of sources, a sink hooked before the first message receives of them exactly the frames routed to it, in arrival order and once each, without those that are forbidden and came from an untrusted source while policies were on |
| `EndToEnd.SetupConnects` | main.c:12-26 | pipeline_init and any setup before the first spin read no byte and connect exactly the slots that a hook named |
| `EndToEnd.ProgramStart` | main.c:12-26 | pipeline_init, any hooks, toggles and transformers before the first spin, and every threaded source on a hooked slot as its init function leaves it, make an initial state of the joint system that is configured as this setup says |
| `EndToEnd.SourceToFrames` | lib/secure_gateway.c:151-187 | in every joint run of all server threads and the pipeline thread, which hands each byte read to the parser, the frames of a socket source are the first ones of the parse of everything recv returned, those of a UART of everything read_byte took from it; all of them once nothing is on its way |
| `EndToEnd.DeviceToFrames` | lib/source_uart.c:37-198 | if no sink byte and no other UART's read harms its bytes, the frames of a UART are the first ones of the parse of device bytes at strictly increasing positions |
| `EndToEnd.SourceToSink` | lib/secure_gateway.c:139-304 | in every joint run in which the transforms that setup and moves add and switch on amount to d on source i and to c on a sink of its route, and policies are on if the source is untrusted, the route function of the sink has been sent of it the first messages of: everything recv returned or read_byte took, parsed, decoded by d, without the forbidden ones if untrusted, encoded by c; all of them once nothing is on its way |
| `EndToEnd.OneSourceToSink` | lib/secure_gateway.c:139-304 | and by all sources together it has been sent nothing else, when no other source is routed there or has sent a frame |
| `EndToEnd.AutopilotToSink` | lib/secure_gateway.c:139-304 | all that the LEGACY or ENCLAVE sink has been sent is the stream of the autopilot, decoded by d and encoded by c and never filtered |
| `EndToEnd.GroundStationToAutopilot` | lib/secure_gateway.c:139-304 | when neither setup nor moves hook ENCLAVE, all that the autopilot has been sent is the stream of the legacy ground station without the forbidden messages, judged after decoding and before encoding |
| `EndToEnd.UnhookedIsSilent` | lib/secure_gateway.c:139-145 | a slot that neither the setup nor a move hooks has sent no frame |
| `EndToEnd.MoveFollows` | lib/secure_gateway.c:139-304 | every move keeps the configuration what setup and moves so far say, and logs only events that obey it |
| `Programs.MainProgram` | main.c:12-40 | in every run of the threads of main.c, for any parser: all the route function of the autopilot has been sent is the first part of the parse of what recv returned from the ground station, without the forbidden messages, and all that of the ground station has been sent is the first part of the parse of what was taken from the serial line; all of both once nothing is on its way |
| `Programs.XorProgram` | test/main-xor.c:12-40 | in every run of the threads of main-xor.c, for any parser and transforms: the ground station has been sent the first of the decoded frames of the autopilot, and the autopilot the first of the encoded frames of the ground station, without the forbidden ones judged before encoding; all of both once nothing is on its way |
| `EndToEnd.SinkReceivesExactly` | lib/secure_gateway.c:252-304 | a sink that has received exactly what was meant for it of a set of sources still has after every joint run |
| `EndToEnd.InvMove` | lib/secure_gateway.c:151-161 | every move of the joint system keeps the invariants of all parts and the link between them: what a source handed over is what the pipeline read from its slot, or holds |
| `EndToEnd.ParseOfPrefix` | lib/secure_gateway.c:160-187 | for any parser, the frames of a prefix of a stream are a prefix of its frames |
| `GatewayExact.SetupIsQuiet` | main.c:12-26 | any setup before the first spin meets the premises of the whole-run results for every sink a hook named |
| `GatewayExact.FrameReceived` | lib/secure_gateway.c:175-187 | for one frame, a hooked sink receives it exactly when it is routed there and not rejected |
| `GatewayExact.MeantIsThrough` | lib/secure_gateway.c:210-270 | what is meant for a sink of one source's route is that source's frames, decoded, without the forbidden ones if it is untrusted |
| `GatewayExact.SentIsEncoded` | lib/secure_gateway.c:289-294 | when every message to a sink is encoded by c, what its route function got is what was delivered to it, encoded by c, in order |
| `GatewayTheorems.ReachedGood` | lib/secure_gateway.c:62-208 | every state reached from pipeline_init by spins, hooks and toggles has intact routes, policies and source ids, per-channel parser states, matching counters and only permitted deliveries |
| `GatewayConfig.RunIsConfigured` | lib/secure_gateway.c:9-30 | over every run, from the steps alone: slots and sinks are in use exactly if a hook named them, each has exactly the transform last added since its last allocation, toggles are as last set and policies as registered, nothing else being touched; the log grows in spins only, with the sources served in ascending order |
| `GatewayConfig.EveryEvent` | lib/secure_gateway.c:175-301 | over every run, from the steps alone: each frame is pushed as the last transform added to its source since its hook makes it, if the last toggle says so, and as it is otherwise; each delivery is what the sink's own transform makes of the message, for LEGACY of what a hooked ENCLAVE's makes of it; policies guard, and reject, as last toggled |
| `GatewayConfig.OneSinkEncodes` | lib/secure_gateway.c:289-294 | when transforms were added to one sink only, it is sent what its own makes of the message, and the others the message itself |
| `GatewayConfig.SetupConfigures` | lib/secure_gateway.c:312-333 | one hook, transformer or toggle changes what the steps say it changes, and nothing of any other source or sink |
| `GatewayTheorems.AutopilotIsProtected` | lib/security_policies.c:67-113 | over every run, a message delivered to the VMC sink with policies on was, before the sink transform, neither MEMINFO, nor a geofence disable by COMMAND_LONG, nor one by PARAM_SET |
| `GatewayTheorems.FlowsAreConfined` | lib/route_table.c:3-11 | over every run nothing leaves by the port it entered, LEGACY and ENCLAVE exchange nothing, NULL messages reach no sink, DISCARD gets no delivery, and only forbidden messages of untrusted sources are rejected |
| `GatewayTheorems.SourcesDoNotMix` | lib/secure_gateway.c:139-195 | for every schedule, the frames of source i are the parse of the bytes read from source i |
| `GatewayTheorems.RunReads` | lib/secure_gateway.c:139-195 | over every run the bytes read from source i are the concatenation of its own arrivals |
| `GatewayTheorems.FramesOfArrivals` | lib/secure_gateway.c:139-195 | over every run the frames of source i are the parse of its own arrivals |
| `GatewayTheorems.SourcesDoNotInterfere` | lib/secure_gateway.c:139-195 | two runs of any lengths that show source i the same hooks and the same bytes parse the same frames from it, whatever else they do |
| `GatewayTheorems.SpinReads` | lib/secure_gateway.c:139-153 | a spin appends to each connected source's bytes exactly its own arrivals |
| `GatewayTheorems.CountersBalance` | lib/secure_gateway.c:175-186 | VMC-sink successes plus rejections equal LEGACY plus ENCLAVE source successes, and each hooked LEGACY or ENCLAVE sink count equals the VMC-source count |
| `GatewayTheorems.FrameShares` | lib/secure_gateway.c:268-301 | one frame is delivered or rejected exactly once at a hooked sink of its route, reaches no other, and a VMC frame is never rejected |
| `GatewayTheorems.NoOtherSinkSeesEncoding` | lib/secure_gateway.c:282-301 | with a sink transform on VMC only, every other sink always gets the message as it was inspected |
| `GatewayTheorems.LoadIsAtMostFull` | lib/secure_gateway.c:412-463 | with a monotone clock every report divides by one common duration of at least five seconds and shows at most 100 per cent load |
| `GatewayTheorems.ReportsAddUp` | lib/secure_gateway.c:367-463 | over every run the reported counts and those since the last report add up to the frames parsed from VMC and delivered to VMC, and the reported durations fill the time |
| `GatewayCounts.LoadIsBusyTime` | lib/secure_gateway.c:381-399 | over every run the turns counted are the spins, and the load reported and still to be reported is the time spent in exactly the spins in which a source hooked before yielded a byte |
| `GatewayCounts.ReportsWhenDue` | lib/secure_gateway.c:412-432 | a report is made exactly in a spin that ends five seconds or more after the last one, and then the reports show the load up to and including that spin |
| `GatewayCounts.PortsCount` | lib/secure_gateway.c:341-365 | over every run each source has counted the frames of the parse of its own arrivals, their bytes with 12 more for each, before any transform, and drops that agree with their sequence numbers; each sink the messages its route function was sent, their bytes after the transforms, and no drops |
| `GatewayCounts.ReportsShowPorts` | lib/secure_gateway.c:367-379 | what the reports showed of the autopilot's source and sink, and what was counted since, are these bytes and drops |
| `GatewayCounts.OnlySelectedAreQueried` | lib/secure_gateway.c:401-431 | no unit but the VMC source and sink is ever queried, and no report shows drops of a sink |
| `GatewayCounts.SinksCountBytes` | lib/secure_gateway.c:359-364 | the delivery loop adds to each sink exactly the bytes of what it was sent |
| `Perf.ShowAccounts` | lib/secure_gateway.c:412-432 | a report, or none, keeps that account and changes no total; right after one the reports together show every total |
| `GatewayTheorems.RunMetered` | lib/secure_gateway.c:381-399 | loaded time since the last query never exceeds the time since then, over every run |
| `GatewayRuns.PushVerdict` | lib/secure_gateway.c:252-304 | for any policy list, any state and whatever bitmap and attribute the message had, it goes once, in ascending order, to exactly the hooked sinks of its route if policies are off or each accepts it as it sees it, and is only rejected otherwise |
| `GatewayRuns.BlindPushVerdict` | lib/secure_gateway.c:252-304 | when no policy's verdict depends on the attribute, the verdict is that of every matching policy on the routed message itself |
| `GatewayRuns.PushLeaves` | lib/secure_gateway.c:252-304 | what a push leaves in the message: its source; if accepted its route and the frame as the last sink got it, if rejected DISCARD besides and the frame as it was; and the attribute bits of exactly the checks that were made |
| `GatewayRuns.FrameGathers` | lib/secure_gateway.c:150-187 | a frame is judged with the attribute that its slot kept from the frames before it, which nothing resets, and leaves the other slots alone |
| `GatewayRuns.DeliveryOf` | lib/secure_gateway.c:282-301 | a delivery exists exactly for a selected, hooked sink, and carries the message before and after the composed transforms |
| `GatewayRuns.DeliveriesAscend` | lib/secure_gateway.c:282-301 | no sink gets a message twice, and sinks are served in ascending order |
| `GatewayRuns.ChainLinks` | lib/secure_gateway.c:289-294 | what a sink gets is its own transform applied to what the nearest selected sink below it got |
| `GatewayRuns.DefaultChains` | lib/secure_gateway.c:282-301 | with the default routes only LEGACY can see another sink's encoding, that of ENCLAVE |
| `GatewayRuns.SinkCountsMatch` | lib/secure_gateway.c:295-298 | each sink's success counter grows by exactly its deliveries |
| `GatewayRuns.PushLogOk` | lib/secure_gateway.c:268-301 | with the default policies every delivery follows the routes and, when guarded, carries nothing forbidden from an untrusted source |
| `GatewayRuns.FrameGood` | lib/secure_gateway.c:175-187 | a frame keeps configuration, log and counters in order and adds one frame to its own source only |
| `GatewayRuns.ByteGood` | lib/secure_gateway.c:153-193 | a byte keeps the whole-run invariant and the parser state of every channel |
| `GatewayRuns.InitGood` | lib/secure_gateway.c:62-78 | pipeline_init establishes the whole-run invariant |
| `GatewayRuns.RunGood` | lib/secure_gateway.c:124-208 | every run of spins, hooks and toggles keeps it |
| `SecurityPolicies.VerdictIsConjunction` | lib/secure_gateway.c:230-249 | for any policies the loop with early exit accepts exactly when every matching check accepts the message as that policy sees it, with the attributes gathered before it; an accepted message keeps all of them |
| `SecurityPolicies.RegisteredPolicyDecidesLast` | lib/secure_gateway.c:46-58 | with one more policy registered a message is accepted exactly when it was before and the new policy accepts it as the others left it |
| `SecurityPolicies.SeenByDiffersInAttribute` | lib/secure_gateway.c:237-242 | a policy sees the routed message, with an attribute that only grows from policy to policy |
| `SecurityPolicies.SeenNext` | lib/secure_gateway.c:232-242 | one policy leaves the next the attribute with the bits of its check joined, if it matches, and the same message otherwise |
| `SecurityPolicies.RejectionIsFirst` | lib/secure_gateway.c:243-248 | a rejected message was accepted by every policy before one that rejects it, and carries the bits gathered up to and including that one, of no later one |
| `SecurityPolicies.BlindVerdict` | lib/secure_gateway.c:230-249 | policies whose verdict does not depend on the attribute accept exactly when every matching check accepts the original message |
| `SecurityPolicies.OrderIsIrrelevant` | lib/secure_gateway.c:230-249 | permuting such policies never changes the verdict |
| `SecurityPolicies.OrderIsIrrelevantIff` | lib/secure_gateway.c:230-249 | a policy can stand in any order among policies blind to the attribute without changing a verdict if and only if it is blind itself |
| `SecurityPolicies.OrderMatters` | lib/secure_gateway.c:237-242 | wherever a verdict changes with more attribute bits, a blind policy that adds those bits makes the order matter |
| `SecurityPolicies.OrderMattersOtherwise` | lib/secure_gateway.c:237-242 | two concrete policies accept a message in one order and reject it in the other |
| `SecurityPolicies.StrncmpIsPrefix` | lib/security_policies.c:85 | the bounded comparison is 0 exactly for a 12-character prefix |
| `SecurityPolicies.DefaultVerdict` | lib/security_policies.c:100-113 | the default table rejects exactly the forbidden messages of LEGACY and ENCLAVE-or-higher sources, and changes nothing of any message |
| `SecurityPolicies.DefaultPoliciesAreBlind` | lib/security_policies.c:40-90 | no default verdict depends on the attribute |
| `Bitmaps.OneBit` | lib/secure_gateway.h:23-39 | or, and-not and xor with one shifted bit set, clear and flip that bit and no other |
| `Bitmaps.TestBit` | lib/secure_gateway.h:41-45 | the masked word converted to int is non-zero exactly for a set bit below 32 |
| `Bitmaps.MembersUpdate` | lib/secure_gateway.h:23-33 | changing one bit of one word adds or removes one index of the set |
| `Bitmaps.TestIsMembershipIff` | lib/secure_gateway.h:41-45 | bitmap_test agrees with membership on every bitmap exactly for indices below 32 of a word |
| `Bitmaps.Bitmap.Clear` | lib/secure_gateway.h:17-21 | the set becomes empty |
| `Bitmaps.Bitmap.Insert` | lib/secure_gateway.h:23-27 | the index joins the set |
| `Bitmaps.Bitmap.Remove` | lib/secure_gateway.h:29-33 | the index leaves the set |
| `Bitmaps.Bitmap.Toggle` | lib/secure_gateway.h:35-39 | the index changes sides |
| `Bitmaps.Bitmap.Test` | lib/secure_gateway.h:41-45 | true exactly for a member below 32 of its word |
| `Perf.DropsMatchSequence` | lib/secure_gateway.c:341-358 | over any run (component-1 messages + drop count) mod 256 = prev_seq, and succ_count counts every message |
| `Perf.SeqStep` | lib/secure_gateway.c:350-352 | each increment lies in 0..255 and keeps that congruence |
| `Perf.DropExactIff` | lib/secure_gateway.c:350-352 | one increment is the number of frames truly lost exactly when fewer than 256 were |
| `Perf.OthersAreIgnored` | lib/secure_gateway.c:347-353 | messages of other components change neither the drop count nor the last sequence number |
| `Perf.DropsAreTrueLosses` | lib/secure_gateway.c:341-358 | for one sender with fewer than 256 frames lost in a row, whatever other components send in between, the drops since its first arrival are the frames truly lost |
| `Perf.TurnMetered` | lib/secure_gateway.c:201-205 | one spin keeps loaded time within elapsed time, and all last_query fields equal to the last report time |
| `Perf.PrintedExactly` | lib/secure_gateway.c:459-460 | the printed integer and fraction are together the exact truncation of the ratio |
| `Perf.PercentBound` | lib/secure_gateway.c:459 | a part that is at most the whole prints at most 100 |
| `Perf.PerfCounters.constructor` | lib/secure_gateway.c:336-339 | all counters start at 0 |
| `Tunnel.Start` | tools/tcp_bridge.cc:254-265 | a new tunnel satisfies the invariant |
| `Tunnel.InvStep` | tools/tcp_bridge.cc:290-352 | every step of the sender, the receiver and the clock keeps the partition of the arrived packets |
| `Tunnel.After` | tools/tcp_bridge.cc:290-352 | every run of the two threads and the clock keeps the invariant |
| `Tunnel.ConservationAndOrder` | tools/tcp_bridge.cc:290-352 | in every interleaving the packets sent, cleared, queued and in hand partition those that arrived, and the sent ones are in arrival order |
| `Tunnel.ArrivalsAreReceived` | tools/tcp_bridge.cc:341-350 | in every interleaving the packets that arrived, and the one the receiver holds, are those recv brought, in order, and every turn has sent one packet |
| `Tunnel.StopIsFinal` | tools/tcp_bridge.cc:290-335 | at its loop head the sender may leave, and then takes and sends nothing more, in every run |
| `Tunnel.NothingClearedIffExact` | tools/tcp_bridge.cc:290-352 | sent ++ hand ++ queue is exactly what arrived if and only if nothing was cleared |
| `Tunnel.UnlimitedClearsNothing` | tools/tcp_bridge.cc:306 | with no queue limit nothing is ever cleared |
| `Tunnel.PushEndsTheWait` | tools/tcp_bridge.cc:347-350 | a waiting sender has an empty queue; the next push wakes it, and after any steps of the receiver and the clock it takes that packet |
| `Tunnel.InvPop` | tools/tcp_bridge.cc:293-300 | the sender takes exactly the front packet, and never from an empty queue |
| `Tunnel.InvCheck` | tools/tcp_bridge.cc:305-316 | a queue over its limit is emptied, any other is left alone, and the partition holds |
| `Tunnel.InvPush` | tools/tcp_bridge.cc:346-350 | a received packet joins at the back |
| `Tunnel.ElapsedBound` | tools/tcp_bridge.cc:324-325 | the measured microseconds are never negative and within one of the true time, with the nanosecond difference truncated toward zero |
| `Tunnel.WidthsSuffice` | tools/tcp_bridge.cc:324-331 | the comparison with an unsigned value and the 32-bit sleep argument lose nothing |
| `Tunnel.TurnIsLongEnough` | tools/tcp_bridge.cc:290-331 | a turn, with its sleep, lasts less than two microseconds short of its packet's share of the bandwidth |
| `Tunnel.PaceIsExact` | tools/tcp_bridge.cc:318-331 | without a bandwidth the sender goes straight on; with one it sleeps the packet's share of the bandwidth less the measured time, in whole microseconds: one less would be too short and it is never longer, none if the time is up; in true time a turn with a sleep is less than a microsecond too long |
| `Tunnel.RateBound` | tools/tcp_bridge.cc:290-331 | over any stretch of n > 0 completed turns in T ns of any interleaving, bytes * 10^9 < bandwidth * (T + 2000 n) |
| `TunnelThreads.TunnelObject.constructor` | tools/tcp_bridge.cc:254-265 | a new tunnel has an empty queue |
| `TunnelThreads.TunnelObject.SenderTurn` | tools/tcp_bridge.cc:290-332 | a whole turn with the receiver and the clock at work between its actions: exactly the next packet in arrival order is sent, and with a bandwidth B its bytes * 10^9 < B * (nanoseconds + 2000) |
| `TunnelThreads.TunnelObject.TakePacket` | tools/tcp_bridge.cc:293-300 | the wait with any arrivals and wakeups: the packet taken is the next in arrival order, and nothing is lost while waiting |
| `TunnelThreads.TunnelObject.SenderPop` | tools/tcp_bridge.cc:293-300 | wait on an empty queue, otherwise take its front |
| `TunnelThreads.TunnelObject.SenderCheck` | tools/tcp_bridge.cc:305-316 | right after the check the queue is within its limit |
| `TunnelThreads.TunnelObject.SenderPace` | tools/tcp_bridge.cc:318-331 | no sleep without a bandwidth; with one, size * 10^6 lies below bandwidth * (elapsed + sleep + 1), a positive sleep keeps bandwidth * (elapsed + sleep) within size * 10^6, and the sleep is 0 when elapsed * bandwidth reaches size * 10^6 |
| `TunnelThreads.TunnelObject.ReceiverRecv` | tools/tcp_bridge.cc:341-346 | a positive length makes the packet of exactly that many bytes, anything else is ignored |
| `TunnelThreads.TunnelObject.ReceiverPush` | tools/tcp_bridge.cc:347-350 | the packet joins the back of the queue and a waiting sender is woken |

## Left out

Limits of what is modelled:

- Weak memory: interleavings are sequentially consistent; the unlocked loads of the peek are plain loads.
- The MAVLink wire format, CRC, signatures, `mavlink_msg_to_send_buffer` and the decode functions: the generated
  headers are not part of this model. Frames carry decoded fields; message and command numbers and the 12
  non-payload bytes are those of the MAVLink common set. What the parser leaves in a slot's message when it
  reports an incomplete or broken frame is not modelled, as the next complete frame overwrites it.
- Transforms change only the frame of a message, not its source, sinks or attribute; the byte exclusive-or of
  `lib/transformer_xor.c` and its round trip with the parser are not part of this model.
- Floating-point fields are real numbers; they are only compared with 0. Negative zero is zero.
- Counters, byte counts and times are unbounded; the wrap of 64-bit counters is not modelled. `now - last` is
  modelled for a clock that does not go back.
- Sources yield a finite list of bytes per spin. That `has_more` eventually says 0, and that a thread waiting for
  its peer is eventually scheduled, are not modelled; progress is stated as bounds on the steps of every run, as
  runs that exist and as steps that are enabled.
- Console toggles take effect between spins: `console_spin` runs after the source loop, and its key polling and
  throttling are left out. Hooks and transformers are modelled between spins too.
- The DEBUG delivery of rejected messages to the DISCARD sink and the DEBUG parser messages are left out.
- `pipeline_connect`, `pipeline_disconnect`, the lazy init calls in `has_more`, cleanup and thread join are left
  out; every source starts initialised.
- The result of a sink's route function is ignored by the pipeline and is not modelled; neither are the socket
  sends.
- `EndToEnd` does not fix the order in which the pipeline polls its sources, nor when its sink stores into a
  UART's storage and when other UARTs read: its runs include those of the program. A second hook of a slot that a
  socket or UART feeds, which would leave the old connection and its thread behind, is left out of it.
- UART reads return at least one byte (`VMIN` is 1): a read of 0 bytes would trip the assertion in
  `ring_buffer_copy_from`.
- usleep sleeps at least as long as it is asked; the clock readings are of one monotone clock.
- Of the ringleader source only the ring is modelled; its io_uring calls are not, and neither is what follows a
  `read_byte` on an empty ring.
- UDP client addresses and `has_client`, and the descriptor field as the sink sees it, are left out.
- The single-threaded TCP variant, the CertiKOS, ThinROS and ParTEE sources, `mavlink_msg_length`, `Bridge` and
  the adapter metrics are left out: they would only add easy members.

Form:

- Packed words: a 64-bit bitmap word is the list of its bits, and `& (READY_SIZE - 1)` is a remainder.
- In `Pipeline` the four sink records, the policy table and the parser channels are sequences that the methods
  reassign; messages, source slots, bitmaps and counters are objects updated in place.
- `Tunnel` packets are values; their allocation and deletion are not modelled.

Members whose contract is weaker than a reader might expect:

- Uart.EveryHarmlessRun: claims byte contents only for runs in which no store of the sink or of another UART's read
  changes a waiting byte, because the sink shares the ring's storage and all UARTs share the input array;
  `Uart.IntactStep` shows the condition is exact step by step, `UartShared.ContentsKeptIff` when a caller meets it.
- Ringleader.RoomyRunIsExact: asks each packet to stop short of the end of `ready`, because the code stores a
  straddling packet wrongly; `Ringleader.AppendsExactlyIff` shows the condition is exact.
- SecurityPolicies.OrderIsIrrelevant: asks that no verdict depends on the attribute;
  `SecurityPolicies.OrderIsIrrelevantIff` shows the condition is exact.
