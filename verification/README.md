# A verified model of the ibv benchmarks

This project models the protocols of the benchmark suite and proves what they are for.

**Rendezvous.** Two ranks move messages of a growing size by a handshake of short control messages and one
RDMA operation. There are three variants: read (RTS, RDMA read, FIN), write (RTS, RTR, RDMA write, FIN) and
write with immediate (RTS, RTR, RDMA write with a key in the immediate). Each rank is a program counter over the body of
the source's lambda, its registered memory, its heap of contexts, its completion queues and its receive credit.
All control messages of a rank land in one shared line. Payloads are arbitrary for each half iteration.
`Verbs` says what the adapter does; `ReadProgram`, `WriteProgram` and `ImmProgram` hold the handlers and the
invariants; `Rendezvous` puts two ranks and every interleaving together; `RendezvousSafety` says what holds in
every reachable state; `RendezvousWitness` is one concrete run; `Device` is one rank as it runs, its global state
changed in place by the statements of the lambda in source order, with the peer and the fabric moving in between, and
`RankView` what that rank may rely on; `BenchCommon` is the schedule the lambda is called on.

**Archive.** `LcmArchive` is the table from addresses to short keys; `LcmThreads` lets any number of threads run it,
each test, compare-and-swap, read and clear being one step.

**Ping-pong loops.** `PingPong` is one side of the completion-driven loop with N queue pairs on one shared receive
queue and one completion queue; `SrqPingpong` puts two sides and the fabric together, with completions taken in any
batches; `SrqLoop` handles completions as the loop does, with bit masks in an array, and `SrqRun` is the whole loop of one
process, with the peer and the fabric moving in between; `RcPingpong` is the case of one queue pair. `XrcPingpong` is
one server and n clients over XRC queue pairs, `XrcLoop` one process handling a completion in place, and `XrcRun` its
receive loop and drain loop, with the others and the fabric moving in between.

**PMI2.** `Scanf` scans and prints numbers and pointers. `Pmi2Wire` is the format on values: printing, parsing, the
counting pass. `Pmi2Parse` does both passes inside
the received buffer, `Pmi2Writer` formats into the 65536-byte buffer, `Pmi2Reader` and `Pmi2Response` read commands back,
`Descriptor.dfy` holds the partial read and write loops, and `Pmi2Stream` interleaves a writer and a reader of one byte
stream.

**PMI1.** `Pmi1Line` is the buffered line reader, `Pmi1Strings` the bounded copies, `Pmi1Keyvals` the key/value line and
its table.

**Bootstrap.** `KeyValueStore` is the store over an all-gather, `QpWiring` the publishing and looking up of queue pairs,
`QpRank` the search for a modulus that keeps queue pair numbers apart.

Axioms about the outside world are written as preconditions or as the steps of the adapter, never assumed:
order within a queue pair and placement of an RDMA write before a later SEND completes (section 9.5 of the InfiniBand
Architecture Specification, Volume 1); a SEND or a write with immediate consumes one posted receive; a send completion
means that the peer's adapter has accepted the message; MPI_Allgatherv (section 5.7 of MPI 3.1); the queue pairs of one
process have distinct numbers. In the ping-pong systems a process that has left its loop keeps its transport: its
adapter goes on accepting and acknowledging what the peer sends, although `pp_close_ctx`, which the program calls soon
after, destroys its queue pairs.

Where the code departs from what it evidently means:

- `benchmarks/rendezvous/lcm_archive.h:90` adds the squares without masking, so a put can look 5 slots past the end of
  what lines 53-54 allocate. The model gives the table 5 extra slots; `LcmArchive.StaysInsideExactly` says when the
  code's own allocation is enough, and `LcmArchive.ReadsPastTheEnd` is an input for which it is not.
- `modules/pmi/pmi2/client/pmi2_api.c:1462-1463` ends `val` with a NUL but not `command`, and line 1542 compares it over the
  length of the expected name. `Pmi2Response.CompareExactly` says that this stays inside the bytes written exactly when
  the name is not a proper prefix of the expected one; otherwise the model answers `Undetermined`, and
  `Pmi2Response.FinalizeIsUndetermined` is a response for which it does.
- `modules/pmi/pmi2/client/pmi2_api.c:1591` and `modules/pmi/pmi2/client/pmi2_api.c:1610` print the command name and the keys
  without escaping them. `Pmi2Wire.ComesBackExactly` says for which this is harmless, for all that are within the limits.
- `modules/pmi/pmi2/client/pmi2_api.c:1433-1451` counts every unpaired `;`, also one inside a key, and the search
  at line 1485 then reads places no pair was put into. `Pmi2Wire.PassesAgreeExactly` says, of the command sent, when the
  two passes agree, and `Pmi2Wire.SemicolonKeyMiscounts` is a command that comes back and for which they do not.
- `modules/pmi/pmi2/client/pmi2_api.c:1485` looks for a key `thrid` in every build, not only in the threaded one
  whose writer adds it. A command with that key is stored through the pointer its first such value is scanned for, or
  through an uninitialised one; unless that is the record of the caller itself, the caller goes on to the next command.
  `Pmi2Wire.ReceivedExactly` says which commands do reach their caller, `Pmi2Wire.ThridIsRedirected` gives some that do
  not, and `Pmi2Wire.OwnThridIsAccepted` is one with a `thrid` that does.
- `modules/pmi/pmi2/client/pmi2_api.c:1605-1630` checks names and keys against the room that is left in the buffer
  of 65536 bytes, but not values. `Pmi2Writer.OverrunExactly` says for which commands a value, or the final NUL, is stored
  behind the buffer, and `Pmi2Writer.ThirtyOneOverrun` is one.
- `modules/pmi/pmi1/simple/simple_pmiutil.c:224-244` checks neither the number of pairs nor the length of a value. A value of
  1024 characters or more has its NUL stored in a later row, which does no harm, or behind the table.
  `Pmi1Keyvals.RowsHoldExactly` and `Pmi1Keyvals.TableHoldsExactly` say which lines stay in their rows and in the table;
  `Pmi1Keyvals.LongValueLeavesItsRow`, `Pmi1Keyvals.SixtyFivePairsLeaveTheTable` and
  `Pmi1Keyvals.LongValueInLastRowLeavesTheTable` are lines that do not.
- `modules/pmi/pmi1/simple/simple_pmiutil.c:400` ends a string that does not fit one byte earlier than it has to; the
  model does the same, and `Pmi1Strings.AppendedExactly` says when nothing is lost by it.
- `modules/pmi/pmi_wrapper_mpi.c:123-134` counts bytes in an `int`. `KeyValueStore.Displacements` says for which counts every
  size fits, `QpWiring.SizesFitExactly` that with one entry per pair of ranks it is those of up to 2047 ranks, and
  `QpWiring.TooManyRanks` is a world for which it does not.
- `modules/pmi/pmi1/simple/simple_pmiutil.c:283` copies a changed value through a limit one byte under its block; the
  model does the same (`Pmi1Keyvals.Table.Chgval`).

## Model

| member | source | states |
|---|---|---|
| Rendezvous.EveryMaximalRunDelivers | benchmarks/rendezvous/ibv_pingpong_rdv_read.cpp:159-209 | For all three protocols, every schedule and every interleaving: a run is finite, with a bound linear in the schedule; no assertion fails on the way; a run that cannot go on has finished both ranks, freed every context, returned every credit and delivered every payload, in order and each of the size scheduled. |
| Rendezvous.StepKeepsAndPays | benchmarks/rendezvous/ibv_pingpong_rdv_write.cpp:181-243 | Every step of either rank or of the fabric keeps the two-rank invariant and leaves strictly less to do. |
| Rendezvous.NotDoneMeansNotStuck | benchmarks/ibv_common.hpp:377-412 | Unless both ranks are done, some step is enabled, so no rank waits for a completion that cannot come; and whatever a rank has posted can be delivered, so no message finds the receive queue empty. |
| Rendezvous.FinishedIsCleanAndDelivered | benchmarks/rendezvous/ibv_pingpong_rdv_write_imm.cpp:164-223 | At the end heaps are empty, send queues idle, receive queues empty and fully credited, and each rank saw exactly the payloads the other staged. |
| RendezvousSafety.EveryRunFitsItsQueues | benchmarks/ibv_common.hpp:387-412 | In every reachable state of all three protocols a posted request never waits for a receive, and the completions waiting in a receive queue are fewer than its entries. |
| RendezvousSafety.EveryReadRun | benchmarks/rendezvous/ibv_pingpong_rdv_read.cpp:76-131 | In every reachable state at most two control messages are headed to a rank, and if two then FIN before RTS; an RTS is intact in the shared line when it is handled; freeing through the rank's own rtsMsg frees exactly the live context the FIN named. |
| RendezvousSafety.EveryWriteRun | benchmarks/rendezvous/ibv_pingpong_rdv_write.cpp:83-150 | In every reachable state at most one control message is in flight or unhandled across both ranks; at a FIN the receive buffer holds the peer's payload of the round; the contexts named by an RTR, by a completed write (polled or not) and by a FIN are alive when used and freed once. |
| RendezvousSafety.EveryImmRun | benchmarks/rendezvous/ibv_pingpong_rdv_write_imm.cpp:98-136 | In every reachable state the put of an RTS takes its first probe, with (address / 64) mod 1024 as the key, which survives the 16-bit field and goes out in the RTR; the immediate brings that key back, and with it the context stored, and the payload is then in the receive buffer. |
| ReadProgram.LineHoldsFinExactly | benchmarks/rendezvous/ibv_pingpong_rdv_read.cpp:126-129 | The commented-out handler, which reads the shared line, frees the right context exactly when no later message has been delivered or the later RTS carries the same number. |
| RendezvousWitness.FinLineIsOverwritten | benchmarks/rendezvous/ibv_pingpong_rdv_read.cpp:124-131 | A state the benchmark reaches in which the commented-out handler would free a context that does not exist, while the shipped one frees the right one. |
| ReadProgram.PairCpu | benchmarks/rendezvous/ibv_pingpong_rdv_read.cpp:160-208 | Every step of a rank's program keeps the read protocol's invariant: positions, messages in order, contexts, payloads. |
| ReadProgram.Assertions | benchmarks/rendezvous/ibv_pingpong_rdv_read.cpp:76-208 | A step of the program fails one of its assertions exactly when, at that statement, the completion found has the wrong opcode, the message the wrong kind, the context it names is not alive or of the other kind, or the size announced is too large. |
| WriteProgram.PairCpu | benchmarks/rendezvous/ibv_pingpong_rdv_write.cpp:182-242 | The same for the write protocol. |
| WriteProgram.Assertions | benchmarks/rendezvous/ibv_pingpong_rdv_write.cpp:83-243 | The same for the write protocol. |
| ImmProgram.PairCpu | benchmarks/rendezvous/ibv_pingpong_rdv_write_imm.cpp:168-222 | The same for write with immediate, archive included. |
| ImmProgram.Assertions | benchmarks/rendezvous/ibv_pingpong_rdv_write_imm.cpp:73-223 | The same for write with immediate, where also a put must find a slot and a key name one. |
| ReadProgram.PairDeliver | benchmarks/rendezvous/ibv_pingpong_rdv_read.cpp:84-122 | Delivering any posted request keeps the read protocol's invariant: a read fetches the peer's staged payload. |
| Verbs.Refusals | benchmarks/ibv_common.hpp:437-535 | A delivery fails exactly when the request does not lie in the memory registered for it: the sender's own buffer, the peer's buffer and key, and no more bytes than either has. |
| Verbs.Delivered | benchmarks/ibv_common.hpp:437-535 | A delivered message of n fields puts its n words over the first ones of the peer's line, keeps the others and gives one completion with its immediate; a write or a read that is not refused copies exactly its bytes over the first ones of the buffer. |
| WriteProgram.PairDeliver | benchmarks/rendezvous/ibv_pingpong_rdv_write.cpp:91-143 | Delivering any posted request keeps the write protocol's invariant: a write places this round's payload before the FIN can arrive. |
| ImmProgram.PairDeliver | benchmarks/rendezvous/ibv_pingpong_rdv_write_imm.cpp:86-129 | Delivering any posted request keeps the immediate protocol's invariant. |
| ImmProgram.OneKeyAtMost | benchmarks/rendezvous/ibv_pingpong_rdv_write_imm.cpp:73-136 | A rank's archive never holds two contexts. |
| WriteProgram.OneControlMessageAtATime | benchmarks/rendezvous/ibv_pingpong_rdv_write.cpp:83-89 | Messages on their way or unhandled, both directions together, are at most one. |
| Device.Device.RunBenchmark | benchmarks/rendezvous/ibv_pingpong_rdv_read.cpp:159-209 | The program of one rank, in place, for all three protocols, whatever the peer and the fabric do between any two statements of the lambda and while it polls: it ends, no assertion has failed, no context is left, all receives are posted, and what it found at its checks is, call by call, what the peer's program staged. |
| Device.Device.Send | benchmarks/rendezvous/ibv_pingpong_rdv_write.cpp:184-198 | The statements that post one rendezvous send, changing the rank's fields in source order, are steps of a run of the two-rank system and bring the rank to the start of its next half with one payload more staged. |
| Device.Device.Receive | benchmarks/rendezvous/ibv_pingpong_rdv_write.cpp:200-210 | The same for the statements that receive one: every field changed is changed as a run of the two-rank system changes it. |
| Device.Device.CompleteTransfer | benchmarks/rendezvous/ibv_pingpong_rdv_read.cpp:176-178 | The read, or the write, is polled for and its completion handled, two statements with anything in between, and the rank stands with its FIN posted. |
| Device.Device.CheckPayload | benchmarks/rendezvous/ibv_pingpong_rdv_read.cpp:182 | The check of the receive buffer is a step of its own, after whatever the peer and the fabric do in between, and ends the half. |
| Device.Device.Iterate | benchmarks/rendezvous/ibv_pingpong_rdv_write_imm.cpp:168-193 | One call of the body: rank 0 sends and receives, rank 1 receives and sends, and both come to the start of the next call. |
| Device.Device.constructor | benchmarks/rendezvous/ibv_pingpong_rdv_read.cpp:136-157 | What run() sets up before its first turn is a start of the two-rank system, the receive queue filled by the same refill loop. |
| Device.Device.AwaitSent | benchmarks/ibv_common.hpp:377-385 | The polling loop on the send queue ends, whatever the peer and the fabric do, with a completion to take. |
| Device.Device.AwaitReceived | benchmarks/ibv_common.hpp:377-385 | The polling loop on the receive queue ends with a message to take. |
| RankView.SomethingElseMoves | benchmarks/ibv_common.hpp:377-385 | While a rank polls in vain its peer or the fabric has a step to take. |
| Device.Device.PollRecvCq | benchmarks/rendezvous/ibv_pingpong_rdv_read.cpp:76-82 | Taking a receive completion gives the credit back and is a step of the run; the rank then stands where its kind of message is handled. |
| Device.Device.HandleReadFin | benchmarks/rendezvous/ibv_pingpong_rdv_read.cpp:124-131 | The context freed through the rank's own rtsMsg is the one the FIN named when it was delivered, and no other was alive. |
| Device.Device.CheckAndPostRecvs | benchmarks/ibv_common.hpp:387-412 | The refill loop ends with the credit at max_recv_num whenever it was not above it. |
| BenchCommon.RunVaryMsg | benchmarks/bench_common.hpp:103-156 | The nested loops, with the counts switched once, call the function exactly on the schedule given as a recursion over the sizes. |
| BenchCommon.SizesDouble | benchmarks/bench_common.hpp:117-121 | The k-th size is the first one times 2^k, all sizes are in range, and twice the last one is not. |
| BenchCommon.SizesExactly | benchmarks/bench_common.hpp:117 | There is a k-th size if and only if the first one times 2^k is in range. |
| BenchCommon.CallOfSize | benchmarks/bench_common.hpp:117-132 | The calls of one size: the k-th has iteration k while k is below the 1000 of the warm-up, 100 for a large size, and k less that behind it, 4000 more of them, 1000 for a large size. |
| BenchCommon.CallInOrder | benchmarks/bench_common.hpp:117-132 | All calls of a size come behind those of the sizes before it, in their order. |
| BenchCommon.CallCount | benchmarks/bench_common.hpp:117-132 | The number of calls, from how many sizes are below LARGE. |
| BenchCommon.BenchmarksDeliver | benchmarks/bench_common.hpp:103-156 | The delivery theorem on the schedule the benchmarks really run, for every size range. |
| BenchCommon.BenchConfigIsValid | benchmarks/rendezvous/ibv_pingpong_rdv_read.cpp:136-156 | Every scheduled size fits the two data buffers the program lays out. |
| BenchCommon.CheckBuffer | benchmarks/bench_common.hpp:69-76 | The check passes exactly when every byte is the wanted one. |
| BenchCommon.WriteBuffer | benchmarks/bench_common.hpp:63-67 | The fill sets the first len bytes and no other. |
| LcmArchive.PutFromAnswers | benchmarks/rendezvous/lcm_archive.h:74-94 | The probing loop answers the first of home, home + 1 and home + 5 that is empty, and RETRY exactly when none is. |
| LcmArchive.PutExactly | benchmarks/rendezvous/lcm_archive.h:78-94 | A put tries the slots (value / 64) mod 2^nbits, one behind and five behind it, in this order, and answers the first that is empty, RETRY exactly when none is. |
| LcmArchive.HomeExactly | benchmarks/rendezvous/lcm_archive.h:78 | Shifting by 6 and masking nbits bits is the 64-byte line number modulo 2^nbits, the power written as a recursion of its own. |
| LcmArchive.PutIntoEmpty | benchmarks/rendezvous/lcm_archive.h:78-87 | In an empty table a value is stored in slot (value / 64) mod 2^nbits. |
| LcmArchive.NearLinesNeverCollide | benchmarks/rendezvous/lcm_archive.h:78 | Two values whose line numbers differ, by less than 2^nbits, are stored in two different slots at their first probes, in whichever order. |
| LcmArchive.StaysInsideExactly | benchmarks/rendezvous/lcm_archive.h:53-90 | Whatever the slots hold, the slots a put looks at (those PutValue is shown to look at) are among those allocated if and only if its home is not one of the last five. |
| LcmArchive.ReadsPastTheEnd | benchmarks/rendezvous/lcm_archive.h:78-90 | An address and a table for which slot 1024 of 1024 is used. |
| LcmArchive.PutThenRemove | benchmarks/rendezvous/lcm_archive.h:102-123 | A put that succeeds found its slot empty, get returns what was put, and remove restores the table. |
| LcmArchive.Archive.PutValue | benchmarks/rendezvous/lcm_archive.h:74-94 | The loop on the slot array stores the value in the first empty one of the slots (value / 64) mod 2^nbits, one and five behind it, answers that slot, or RETRY when none is empty, and changes no other; the slots it looks at are those of Visited. |
| LcmArchive.Archive.RemoveKey | benchmarks/rendezvous/lcm_archive.h:102-123 | Remove returns the slot's value and empties that slot only. |
| LcmThreads.LivePutsAreSafe | benchmarks/rendezvous/lcm_archive.h:74-123 | At the end of every run of any number of threads no two live puts hold one key, each held slot has the value put there, and get and remove answered with the value put under the key. |
| LcmThreads.RetryMeansTaken | benchmarks/rendezvous/lcm_archive.h:79-93 | RETRY is answered only if each of the slots (value / 64) mod 2^nbits, one and five behind it was taken at some moment from the last one before the call to the last one in it; between these the thread is in that put and in nothing else. |
| LcmThreads.StepKeeps | benchmarks/rendezvous/lcm_archive.h:74-123 | Every step of every thread keeps ownership, exclusiveness and the absence of orphaned slots. |
| LcmThreads.BusyThreadsCanStep | benchmarks/rendezvous/lcm_archive.h:74-123 | An operation in progress can always take its next step: no access leaves the memory. |
| LcmThreads.SoloPut | benchmarks/rendezvous/lcm_archive.h:74-94 | A thread that runs alone does what the sequential put does, stores and answer alike. |
| SrqPingpong.EveryMaximalRunFinishes | rdma-core/srq_pingpong.c:892-1000 | For every order of completions and every batching: a run is finite; at every moment the receives cover the wire and the completion queue has room; a run that cannot go on has taken both sides out of their loops, each having posted at least iters and at most iters + num_qp - 1 sends. |
| SrqPingpong.StepKeeps | rdma-core/srq_pingpong.c:936-998 | Every step keeps the invariant: one ball per queue pair, counters read off the masks, everything sent is received or on its way. |
| SrqPingpong.ProcessKeeps | rdma-core/srq_pingpong.c:963-994 | Processing one completion, with refill, mask and next send, keeps the invariant. |
| SrqPingpong.ReceivesCoverTheWire | rdma-core/srq_pingpong.c:780-785 | With num_qp <= rx_depth a message on the wire always finds a posted receive: the receive completions not yet processed are fewer than the receives posted. |
| SrqPingpong.CreditsCoverAllOnTheWire | rdma-core/srq_pingpong.c:967-979 | The receives posted, less the receive completions not yet processed, are at least as many as all messages on the wire, and at most rx_depth. |
| SrqPingpong.ReceivesInEveryState | rdma-core/srq_pingpong.c:967-979 | In every reachable state the receives posted are rx_depth less the count of receives modulo rx_depth - num_qp, and always rx_depth when there are no more than queue pairs. |
| SrqPingpong.CompletionsFit | rdma-core/srq_pingpong.c:420-421 | Unprocessed completions are at most 2 num_qp, so the completion queue of rx_depth + num_qp entries never overflows. |
| SrqPingpong.PostsIntoFreeSlot | rdma-core/srq_pingpong.c:449 | A send is posted only on a queue pair with no send out and none of its completions waiting, as max_send_wr = 1 demands. |
| SrqPingpong.StillMeansBothMayLeave | rdma-core/srq_pingpong.c:914-998 | With nothing in flight and nothing unprocessed both exit conditions hold. |
| SrqPingpong.StuckMeansDone | rdma-core/srq_pingpong.c:914-998 | No state short of both sides having left is stuck. |
| SrqLoop.Loop.HandleBatch | rdma-core/srq_pingpong.c:948-998 | The batch loop over masks and counters changed in place is the specification applied to the completions up to the first that is refused. |
| SrqLoop.Loop.HandleOne | rdma-core/srq_pingpong.c:949-996 | One completion: refused exactly on a bad status, an unknown queue pair or an unknown wr_id, and then nothing changes; a receive takes one off the receives posted, and brings them back to rx_depth exactly when no more than num_qp are left; a send is counted; and with nothing pending and iterations left, the queue pair sends once more. |
| SrqLoop.Loop.FindQp | rdma-core/srq_pingpong.c:610-619 | The least index with the number, or -1 exactly when there is none. |
| SrqLoop.Loop.constructor | rdma-core/srq_pingpong.c:825-906 | The loop is entered in the start state of the system: all receives posted, and on the client one send per queue pair. |
| SrqLoop.BatchIsSteps | rdma-core/srq_pingpong.c:948-998 | Handling a batch in one go is processing it one completion at a time. |
| SrqRun.Endpoint.RunLoop | rdma-core/srq_pingpong.c:913-1000 | The whole loop of one process, in place, whatever the peer and the fabric do between any two completions and while it polls: it ends, no completion was refused, at least iters sends and receives were counted, and every send posted, fewer than iters + num_qp, is counted or still out on its queue pair. |
| SrqRun.Endpoint.HandleNext | rdma-core/srq_pingpong.c:948-998 | Handling the next completion of the batch in place, after whatever moves first, is a step of a run of the two-sided system. |
| SrqRun.Endpoint.AwaitCompletion | rdma-core/srq_pingpong.c:940-946 | The polling loop ends with a completion to take, whatever the peer and the fabric do. |
| SrqRun.SomethingElseMoves | rdma-core/srq_pingpong.c:914-946 | A side that polls in vain and may not leave is never alone: its peer or the fabric can step. |
| SrqPingpong.PostedIsCountedOrOut | rdma-core/srq_pingpong.c:987-994 | Every send ever posted has been counted or is outstanding on its queue pair, on the wire or with its completion not handled. |
| RcPingpong.CountsThroughout | rdma-core/rc_pingpong.c:690-762 | In every reachable state the client's counters differ by at most one, the server has received zero to two more than it has seen sent, the sends a side has posted and not counted, at most one, are those that are out or whose completion waits, and no side has posted more than iters. |
| RcPingpong.ExactlyIters | rdma-core/rc_pingpong.c:1070-1154 | A run that cannot go on leaves both sides with exactly iters sends and iters receives. |
| RcPingpong.Context.ParseSingleWc | rdma-core/rc_pingpong.c:690-762 | The mask and counters changed in place: refused exactly on a bad status or wr_id; a receive takes one off the receives posted, and brings them back to rx_depth exactly when at most one is left; the next send is posted exactly when nothing is pending and iterations are left. |
| XrcPingpong.EveryMaximalRunConserves | rdma-core/xsrq_pingpong.c:972-1025 | Every run that cannot go on has taken exactly 4n(t + 1) steps; the server has sent and received n*t messages, every client t, exactly one completion per peer was drained, and nothing is left. |
| XrcPingpong.StepKeeps | rdma-core/xsrq_pingpong.c:989-1025 | Every step keeps, for each client, the server's counter at one more than the client's messages handled, up to t, and the totals. |
| XrcPingpong.ReceivesSuffice | rdma-core/xsrq_pingpong.c:293-322 | n posted receives cover what is in flight, and n-entry receive and send completion queues never overflow. |
| XrcPingpong.OneMessagePerClient | rdma-core/xsrq_pingpong.c:1011-1015 | Between the server and one client there is at most one message, whichever way, handled or not. |
| XrcPingpong.SendInFlight | rdma-core/xsrq_pingpong.c:796-800 | In every state of the system the message on its way to client i, the k-th sent to it, uses queue pair (i + k) mod n, and only the last one is signaled. |
| XrcPingpong.StuckIsFinished | rdma-core/xsrq_pingpong.c:988-1025 | The receive loop and the drain loop both end: no state before is stuck. |
| XrcPingpong.RoundRobin | rdma-core/xsrq_pingpong.c:796-800 | For a fixed k the queue pairs (index + k) mod n of the peers are a bijection. |
| XrcPingpong.EachQpInTurn | rdma-core/xsrq_pingpong.c:796 | Any n sends one after the other to one peer, whatever its counter was, use the queue pairs (index + k) mod n, (index + k + 1) mod n and so on: each queue pair once. |
| XrcPingpong.NextQp | rdma-core/xsrq_pingpong.c:796-798 | The send that is posted uses the queue pair (index + pp_cnt) mod n, and the next one to the same peer the one after it, modulo n. |
| XrcPingpong.EachQpCarriesItsShare | rdma-core/xsrq_pingpong.c:173 | Each queue pair carries exactly num_tests sends in all, so its send queue of num_clients * num_tests never fills. |
| XrcLoop.Process.PostSend | rdma-core/xsrq_pingpong.c:779-801 | The send posted is the one on queue pair (index + k) mod n, for k the peer's counter, signaled exactly if the counter reaches num_tests; that counter alone is one higher. |
| XrcLoop.Process.FindQp | rdma-core/xsrq_pingpong.c:803-816 | The peer a completion came from: the least index with the number, and 0 for one peer or an unknown number. |
| XrcLoop.Process.HandleReceive | rdma-core/xsrq_pingpong.c:1011-1015 | One receive completion: a receive posted again; exactly while tests remain an answer, to the peer it came from, on queue pair (peer + k) mod n; the count one higher. |
| XrcLoop.Process.constructor | rdma-core/xsrq_pingpong.c:972-986 | The loop is entered with a receive posted per peer and, on the server, one send made to each peer i, on queue pair i. |
| XrcRun.Endpoint.RunLoops | rdma-core/xsrq_pingpong.c:988-1025 | Both loops of the server or of a client, in place, whatever the other processes and the fabric do in between: they end, num_tests messages from every peer were received and as many sent to it, and one send completion per peer was drained. |
| XrcRun.Endpoint.ServerReceives | rdma-core/xsrq_pingpong.c:1011-1015 | A receive handled in place on the server, with what it posts put on the wire of the client it came from, is a step of a run of the system. |
| XrcRun.Endpoint.PollReceive | rdma-core/xsrq_pingpong.c:997-1015 | A poll handles a receive, or finds nothing, in which case, while receives are missing, something else steps. |
| XrcRun.SomethingElseMoves | rdma-core/xsrq_pingpong.c:988-1025 | A process that is not through and has nothing to take is never alone: another process or the fabric can step. |
| Pmi2Stream.EveryMaximalRunDelivers | modules/pmi/pmi2/client/pmi2_api.c:1354-1691 | For every sequence of commands that fit the buffer and reach their caller (`Pmi2Wire.ReceivedExactly`) and every interleaving of partial writes and reads: the run ends; what has been read so far is always a prefix of the commands; at the end all were read with the same names, keys, values and order, and no byte is left anywhere. |
| Pmi2Stream.StepKeeps | modules/pmi/pmi2/client/pmi2_api.c:1399-1433 | Every partial write and read keeps: bytes consumed, in the pipe and unwritten are exactly the frames of the commands not yet read. |
| Pmi2Wire.BodyRoundTrip | modules/pmi/pmi2/client/pmi2_api.c:1264-1314 | Parsing what is printed for a command gives back the command, for any bytes in the values. |
| Pmi2Wire.ParsesExactly | modules/pmi/pmi2/client/pmi2_api.c:1264-1314 | A buffer starts with a pair of this key, this value and this rest if and only if it is the key, `=`, the value with every `;` doubled, `;` and the rest, where the key has no `=` and at most 64 bytes, the value at most 1024, and the rest does not start with `;`. |
| Pmi2Wire.PairsParseExactly | modules/pmi/pmi2/client/pmi2_api.c:1468-1483 | A buffer holds exactly these pairs if and only if it is their print, and they are within the limits, with no `=` in a key and no `;` in front of any key but the first. |
| Pmi2Wire.BodyParsesExactly | modules/pmi/pmi2/client/pmi2_api.c:1454-1483 | A body holds exactly this command if and only if it is the print of a first pair with the key `cmd`, as a C string, and the name for its value, and of pairs that are the command's up to the NULs in their keys. |
| Pmi2Wire.FrameInBytes | modules/pmi/pmi2/client/pmi2_api.c:1589-1645 | The frame of the command `x` with the value `;b` under the key `a`, byte for byte as numbers: `12    cmd=x;a=;;b;`. |
| Pmi2Wire.ScanOfEscape | modules/pmi/pmi2/client/pmi2_api.c:1286-1306 | Unescaping undoes escaping and stops at the closing `;`, whatever the value holds. |
| Pmi2Wire.HeaderReads | modules/pmi/pmi2/client/pmi2_api.c:1397-1410 | The decimal length padded with spaces is read back as the length. |
| Pmi2Wire.ComesBackExactly | modules/pmi/pmi2/client/pmi2_api.c:1589-1630 | Within the limits, whatever the values, a command is parsed back from what is printed for it if and only if its name has no `;`, no key has a `=`, and no key starts with `;`. |
| Pmi2Wire.ReceivedExactly | modules/pmi/pmi2/client/pmi2_api.c:1433-1501 | Within the limits, a command is stored for the caller who reads it if and only if its name has no `;`, no key has a `=`, starts with `;` or has an unpaired `;`, and the value of the first key equal to `thrid`, if there is one, scans to the address of the caller's own record. |
| Pmi2Wire.RedirectedExactly | modules/pmi/pmi2/client/pmi2_api.c:1485-1501 | Of the commands that come back, exactly those whose first `thrid` does not scan to the address of the caller's own record are stored elsewhere. |
| Pmi2Wire.ThridIsRedirected | modules/pmi/pmi2/client/pmi2_api.c:1485-1501 | A command of one pair, a `thrid` with any other value, is stored elsewhere. |
| Pmi2Wire.OwnThridIsAccepted | modules/pmi/pmi2/client/pmi2_api.c:1485-1501 | The same command with the address of the caller's record, as line 1599 prints it, is stored for the caller. |
| Scanf.PointerReads | modules/pmi/pmi2/client/pmi2_api.c:1599 | A pointer printed with `%p` is scanned back as itself, behind any white space. |
| Scanf.ScanPointerExactly | modules/pmi/pmi2/client/pmi2_api.c:1201-1219 | Blanks, a sign or none, `0x` or none, hexadecimal digits in either case, and what is no digit: none is scanned exactly when there is no digit, else the value of the digits, at most 2^64 - 1, and behind a `-` what is left of 2^64. |
| Pmi2Wire.SemicolonNameIsLost | modules/pmi/pmi2/client/pmi2_api.c:1591 | The command named `;` does not come back. |
| Pmi2Wire.CountOfParsed | modules/pmi/pmi2/client/pmi2_api.c:1433-1451 | On every buffer that parses, the counting pass gives the number of pairs plus the unpaired `;` in keys. |
| Pmi2Wire.LooseExactly | modules/pmi/pmi2/client/pmi2_api.c:1433-1451 | A key has no unpaired `;` if and only if it is the escape of some text. |
| Pmi2Wire.PassesAgreeExactly | modules/pmi/pmi2/client/pmi2_api.c:1433-1483 | For every command that comes back, the count behind the command pair is the number of its pairs if and only if every `;` in its keys is one of a pair, pairs taken left to right. |
| Pmi2Wire.SemicolonKeyMiscounts | modules/pmi/pmi2/client/pmi2_api.c:1433-1451 | The command `x` with one key `a;` comes back, and is counted as one of two pairs. |
| Pmi2Wire.CountOfBody | modules/pmi/pmi2/client/pmi2_api.c:1433-1466 | For a command that comes back the count is one more than its pairs and the unpaired `;` in their keys. |
| Pmi2Parse.CountPass | modules/pmi/pmi2/client/pmi2_api.c:1433-1451 | The nested loops over the buffer compute the count. |
| Pmi2Parse.ParseInPlace | modules/pmi/pmi2/client/pmi2_api.c:1264-1314 | Decoding inside the buffer refines decoding on values: same success, key ended by a NUL, value unescaped where it stands, nothing before or after touched. |
| Pmi2Parse.Unescape | modules/pmi/pmi2/client/pmi2_api.c:1286-1301 | The value loop, whose write index never passes its read index, leaves the pure unescaping of what was there. |
| Pmi2Writer.FormatCommand | modules/pmi/pmi2/client/pmi2_api.c:1576-1647 | For every command: the buffer holds exactly the frame and a NUL, or the answer names the limit that was broken, or the first store behind the buffer has been reached, which it is exactly for the commands of `Pmi2Writer.OverrunExactly`. |
| Pmi2Writer.PlaceBody | modules/pmi/pmi2/client/pmi2_api.c:1589-1636 | Write position and room left make up the whole buffer through the whole command, and the bytes written are the command's. |
| Pmi2Writer.WrittenExactly | modules/pmi/pmi2/client/pmi2_api.c:1587-1645 | A command is written if and only if every limit is kept and the whole fits with its final NUL; the length prefix is then that of the bytes after it, in at most five digits. |
| Pmi2Writer.FaultExactly | modules/pmi/pmi2/client/pmi2_api.c:1576-1645 | For every command there is a first pair with which something is not right, or none: all before it are within the limits and inside the buffer, and the answer is what the checks say at that pair in their order, key too long, no room for it, value too long, or else a store behind the buffer; without one the answer is the length, or that the final NUL has no room. |
| Pmi2Writer.OverrunExactly | modules/pmi/pmi2/client/pmi2_api.c:1605-1645 | A value or the final NUL is stored behind the buffer if and only if, after some pairs within the limits, the next key still fits and its escaped value does not, or no pair is left and the buffer is exactly full. |
| Pmi2Writer.WrittenIsSendable | modules/pmi/pmi2/client/pmi2_api.c:1587-1645 | Of the commands that reach their reader, those the writer writes are exactly those the stream theorem is about. |
| Pmi2Writer.ThirtyPairsFit | modules/pmi/pmi2/include/pmi2.h:14-20 | Thirty pairs within the limits always fit, even with every value byte escaped. |
| Pmi2Writer.ThirtyOneOverrun | modules/pmi/pmi2/include/pmi2.h:14-20 | Thirty-one pairs within the limits for which a value is stored behind the buffer. |
| Pmi2Writer.WriteSimpleCommand | modules/pmi/pmi2/client/pmi2_api.c:1560-1691 | For every command, and however the descriptor takes the bytes: exactly one frame is written, or none on an error; overruns are answered exactly where `Pmi2Writer.OverrunExactly` says. |
| Pmi2Reader.ReadCommand | modules/pmi/pmi2/client/pmi2_api.c:1354-1527 | However the descriptor gives the bytes, the answer is a function of the stream and of where the caller's record is: nothing readable, no command, a command stored for the caller with every pair in its place, one redirected by its first `thrid`, or one that runs the search into unfilled places; what follows the command stays unread. |
| Pmi2Reader.ReadBack | modules/pmi/pmi2/client/pmi2_api.c:1354-1501 | Reading a written command gives it back, one place per pair and none unused, if and only if it is one that reaches its caller; whatever it is, what follows stays unread. |
| Pmi2Reader.ReadsOneFrame | modules/pmi/pmi2/client/pmi2_api.c:1399-1501 | A frame followed by anything is read up to its last byte, and as its command if and only if that reaches its caller. |
| Pmi2Reader.ReadPair | modules/pmi/pmi2/client/pmi2_api.c:1316-1346 | A pair is copied out of the buffer with its key as a C string and its value by length. |
| Pmi2Reader.ReadPairs | modules/pmi/pmi2/client/pmi2_api.c:1468-1483 | The pair loop stores every pair, in order, inside the places counted. |
| Pmi2Reader.Getval | modules/pmi/pmi2/client/pmi2_api.c:1162-1174 | The value of the first pair with an equal key, or none exactly when no key is equal, for keys of less than 64 characters, and of 64 when all pairs are within the limits; for longer keys the same with keys of which the first 64 characters agree. |
| Pmi2Reader.CompareKeys | modules/pmi/pmi2/client/pmi2_api.c:1167 | The bounded comparison of two C strings succeeds exactly when they are equal, or both have 64 characters and the first 64 agree. |
| Pmi2Response.ReadCommandExp | modules/pmi/pmi2/client/pmi2_api.c:1531-1557 | The answer is what the response says: when its name starts with the expected one, the return code and message under the first keys equal to `rc` and `errmsg`; failure when it does not; and `Undetermined` exactly when the name is a proper prefix of the expected one; a response not stored for its caller is told apart. |
| Pmi2Response.ToldOnce | modules/pmi/pmi2/client/pmi2_api.c:1531-1557 | Of every reply at most one answer is told: failure and nothing else where no command could be read, that it is lost where it was not stored for the caller. |
| Pmi2Response.ResponseInBytes | modules/pmi/pmi2/client/pmi2_api.c:1531-1557 | From the 28 bytes of the response `22    cmd=x;rc=-7;errmsg=no;`, written out as numbers, a caller who expects `x` is told the return code -7 and the message `no`, and nothing else. |
| Pmi2Response.CompareExactly | modules/pmi/pmi2/client/pmi2_api.c:1542 | The comparison stays inside the bytes of the name if and only if the name is not a proper prefix of the expected one, and finds the same bytes if and only if the name starts with it. |
| Pmi2Response.CompareBytes | modules/pmi/pmi2/client/pmi2_api.c:1542 | The comparing loop over the bytes copied finds a difference, the whole expected name, or the end of what was written, each exactly when that is so. |
| Pmi2Response.ShortNamesAreUndetermined | modules/pmi/pmi2/client/pmi2_api.c:1462-1542 | Of a response whose name is a proper prefix of the expected one nothing else can be told. |
| Pmi2Response.FinalizeIsUndetermined | modules/pmi/pmi2/client/pmi2_api.c:1542 | The response `cmd=finalize;rc=0;` where `finalize-response` is expected is one. |
| Scanf.ScanIntOfText | modules/pmi/pmi2/client/pmi2_api.c:1175-1198 | A printed number behind any white space is scanned back as itself. |
| Scanf.ScanIntExactly | modules/pmi/pmi2/client/pmi2_api.c:1175-1198 | Blanks, a sign or none, digits, and what is no digit: the number scanned is the value of the digits, negated exactly behind a `-`, and none is scanned exactly when there is no digit. |
| Bytes.DecimalInBytes | modules/pmi/pmi2/client/pmi2_api.c:1636 | The bytes of 1234567890 in decimal, as numbers: every digit once. |
| Bytes.HexadecimalInBytes | benchmarks/ibv_common.hpp:264-266 | The bytes of 0x9abcdef0 in hexadecimal, as numbers: with those of the decimal digits, every digit there is. |
| Pmi2Response.ReadResponse | modules/pmi/pmi2/client/pmi2_api.c:1531-1557 | A response written with a return code and a message is understood as that code and message. |
| Descriptors.Descriptor.ReadFully | modules/pmi/pmi2/client/pmi2_api.c:1397-1429 | The read loop gets exactly the bytes asked for, or fails exactly when they are not all there. |
| Descriptors.Descriptor.WriteFully | modules/pmi/pmi2/client/pmi2_api.c:1665-1674 | The write loop writes exactly the bytes given. |
| Pmi1Line.LineReader.Readline | modules/pmi/pmi1/simple/simple_pmiutil.c:102-162 | The line returned is a function of the unread bytes alone, however read splits them; it is taken off whole and nothing else is. |
| Pmi1Line.LineStops | modules/pmi/pmi1/simple/simple_pmiutil.c:123-155 | A line ends at its first newline, at maxlen - 1 characters, or at the end of the stream, and nowhere else. |
| Pmi1Line.LinesMakeTheStream | modules/pmi/pmi1/simple/simple_pmiutil.c:102-162 | The lines returned by successive calls make up the stream. |
| Pmi1Line.LinesComeBack | modules/pmi/pmi1/simple/simple_pmiutil.c:102-162 | Lines written one after the other are the lines read. |
| Pmi1Strings.Strncpy | modules/pmi/pmi1/simple/simple_pmiutil.c:328-354 | The copy is the string cut to n - 1 characters, with its NUL, and success is reported exactly when nothing was cut. |
| Pmi1Strings.Strnapp | modules/pmi/pmi1/simple/simple_pmiutil.c:376-405 | The result of appending in a bounded block, and success exactly when there was room for one character more and for the whole source. |
| Pmi1Strings.AppendedExactly | modules/pmi/pmi1/simple/simple_pmiutil.c:395-404 | The result is all that fits if and only if both strings fit, or the block was full before, or there is no block and nothing in it. |
| Pmi1Strings.AppendedOneShort | modules/pmi/pmi1/simple/simple_pmiutil.c:395-404 | An append that leaves out a character for which there is room. |
| Pmi1Keyvals.LineRoundTrip | modules/pmi/pmi1/simple/simple_pmiutil.c:196-250 | Parsing the printed line gives back the pairs, `=` in values included. |
| Pmi1Keyvals.FrontExactly | modules/pmi/pmi1/simple/simple_pmiutil.c:205-241 | Of a line, from a place with no blank on: the pair found there is this one, up to this end, if and only if the line has its key, `=` and its value there and the pair stops at its end; parsing is over if and only if the line is, or is at its newline. |
| Pmi1Keyvals.PrintedFillsTable | modules/pmi/pmi1/simple/simple_pmiutil.c:196-250 | A printed line of up to 64 pairs, keys under 32 and values under 1024 characters, fills the table with exactly those pairs. |
| Pmi1Keyvals.Table.ParseKeyvals | modules/pmi/pmi1/simple/simple_pmiutil.c:196-250 | On every line: the pointer walk, which ends keys in place and cuts each value after copying the rest of the line, stays inside the table if and only if TableHolds, and inside the rows it fills if and only if RowsHold; inside the table it reports what parsing does and leaves exactly the parsed pairs, each cut to its row. |
| Pmi1Keyvals.TableHoldsExactly | modules/pmi/pmi1/simple/simple_pmiutil.c:224-244 | The table is never left if and only if there are at most 64 pairs and every value ends before the table does. |
| Pmi1Keyvals.RowsHoldExactly | modules/pmi/pmi1/simple/simple_pmiutil.c:224-244 | No row is left if and only if there are at most 64 pairs, with values of less than 1024 characters. |
| Pmi1Keyvals.LongValueLeavesItsRow | modules/pmi/pmi1/simple/simple_pmiutil.c:243 | A line of one pair whose value is ended in the next row, inside the table. |
| Pmi1Keyvals.SixtyFivePairsLeaveTheTable | modules/pmi/pmi1/simple/simple_pmiutil.c:230-244 | A line of 65 short pairs leaves the table. |
| Pmi1Keyvals.LongValueInLastRowLeavesTheTable | modules/pmi/pmi1/simple/simple_pmiutil.c:243 | A line of 64 pairs whose last value is ended behind the table. |
| Pmi1Keyvals.Table.Store | modules/pmi/pmi1/simple/simple_pmiutil.c:224-244 | Copying the rest of the line and storing a NUL behind the value, in whatever row that is, adds the pair, its key cut to 31 and its value to 1023 characters, if and only if the store lies inside the table. |
| Pmi1Keyvals.Table.Getval | modules/pmi/pmi1/simple/simple_pmiutil.c:259-275 | The first match, cut in place to the caller's block, found exactly when it was not cut; with no room at all the block stays as it was and a match counts as found. |
| Pmi1Keyvals.Table.Chgval | modules/pmi/pmi1/simple/simple_pmiutil.c:277-287 | Every row with the key gets the value, no other row changes. |
| Pmi1Keyvals.ChangedLookup | modules/pmi/pmi1/simple/simple_pmiutil.c:259-287 | After a change a lookup finds the new value, and other keys have the entries they had. |
| QpRank.Search | benchmarks/ibv_common.hpp:346-366 | The search stops below INT32_MAX exactly when some modulus there works, then at the least one not below nranks, and the table maps every number to its rank. |
| QpRank.FailsExactlyOnEqualNumbers | benchmarks/ibv_common.hpp:360 | For 24-bit numbers a modulus exists if and only if the numbers are pairwise distinct. |
| QpRank.BuildTable | benchmarks/ibv_common.hpp:346-366 | For distinct numbers the modulus is at most the larger of nranks and one more than the largest number, and qp2rank[qp_num mod m] is the rank. |
| QpRank.Mark | benchmarks/ibv_common.hpp:349-355 | The marking round succeeds exactly when no two numbers collide. |
| KeyValueStore.Archive.Push | modules/pmi/pmi_wrapper_mpi.c:46-63 | The grown array holds the old entries and the new one, copied into fresh blocks. |
| KeyValueStore.Archive.Search | modules/pmi/pmi_wrapper_mpi.c:65-72 | The value of the first entry with the key, found if and only if some entry has it. |
| KeyValueStore.Pack | modules/pmi/pmi_wrapper_mpi.c:135-139 | The send buffer holds 512 bytes for every local entry, in order: its key in the first 256, its value in the others. |
| KeyValueStore.Displacements | modules/pmi/pmi_wrapper_mpi.c:117-134 | Every count of bytes and every displacement fits an `int` if and only if all entries together take less than 2^31 bytes, and then the displacements tile the receive buffer. |
| KeyValueStore.GatheredIsConcat | modules/pmi/pmi_wrapper_mpi.c:128-141 | With tiling displacements the gathered buffer is the rank-ordered concatenation of the parts. |
| KeyValueStore.FinishBarrier | modules/pmi/pmi_wrapper_mpi.c:109-152 | After the barrier the global archive has grown by every rank's entries in rank order and the local one is empty. |
| QpWiring.Publish | benchmarks/ibv_common.hpp:261-270 | A rank's local archive grows by one entry per peer i, in order, with the key of the rank and i, and with the rank's own address, remote key and lid and the number of its queue pair i for the value. |
| QpWiring.PublishedReads | benchmarks/ibv_common.hpp:261-283 | The entry of rank r for rank i has their key, and its value scans to r's address, remote key and lid and the number of r's queue pair i. |
| QpWiring.KeyInBytes | benchmarks/ibv_common.hpp:262-263 | The key of rank 3 for rank 12 byte for byte: `ibvBench_3_12`. |
| QpWiring.NameInBytes | benchmarks/ibv_common.hpp:264-266 | A name byte for byte: `10:ab:2c:5`, all four parts in hexadecimal. |
| QpWiring.GetName | benchmarks/ibv_common.hpp:275-283 | Looking up a peer's key and scanning the name gives that peer's address, its remote key, its lid, and the number of its queue pair for this rank. |
| QpWiring.KeyIsInjective | benchmarks/ibv_common.hpp:262-263 | Printed keys are equal only for equal pairs of ranks. |
| QpWiring.NameRoundTrips | benchmarks/ibv_common.hpp:264-283 | The printed endpoint is scanned back to the same address, key, number and lid. |
| QpWiring.GlobalLookup | benchmarks/ibv_common.hpp:273-283 | In the gathered archive the key of a rank and its peer finds exactly what that rank published for that peer. |
| QpWiring.WiringIsSymmetric | benchmarks/ibv_common.hpp:261-344 | Rank r's queue pair i is connected to rank i's address, remote key and lid and to the number of its queue pair r, and the other way round, for all r and i, if and only if there are at most 2047 ranks. |
| QpWiring.SizesFitExactly | modules/pmi/pmi_wrapper_mpi.c:117-134 | With one entry of 512 bytes per pair of ranks the bytes to gather fit an `int` if and only if there are at most 2047 ranks. |
| QpWiring.TooManyRanks | modules/pmi/pmi_wrapper_mpi.c:123 | A world of 2048 ranks in which no queue pair is connected, because a size overflows before. |
| QpWiring.FileAndConnect | benchmarks/ibv_common.hpp:261-344 | From the exchange of counts on, in place: the sizes fit if and only if there are at most 2047 ranks, and then every rank has the same archive, and its queue pair i is connected to rank i's address, remote key and lid and to the number of i's queue pair for it. |

## Left out

- Device discovery, memory registration, queue pair attributes and teardown: foreign verbs calls with no visible meaning.
- Sockets, process spawning, singleton init and the threaded (`MPICH_IS_THREADED`) parts of PMI2: locks, waiting readers and the `thrid` the threaded writer adds.
- What a reader does after a command whose `thrid` names another record: the store through the scanned pointer, and the reading of further commands until one is stored for the caller. Likewise what the search makes of places that were never filled.
- `ENQUEUE` and `SEARCH_REMOVE`: a debugging aid whose list is never advanced.
- The UC and UD ping-pongs, the plain send/receive, read and write benchmarks: the same as, or simpler than, what is modelled.
- `modules/pmi/pmi2/client/pmi2_util.c`: a near copy of the PMI1 utilities. Its line reader does not look at the descriptor, it fills its table with `strncpy`, and its `getval` (line 199) ends the stored value, not the copy, at the caller's length and reports a cut value as found.
- `PMIU_writeline`, which makes one `write` call and only reports a short one.
- Timing, rates, counters, logging, argument parsing and printing.
- System calls that fail or are interrupted: `read` and `write` give at least one byte until the stream ends.
- The send queue, the acknowledgement and the send completion queue of a rendezvous rank are one place: no program posts a request before it has polled the completion of the one before, and posting into a taken place is modelled as a failure that is proved never to happen.
- Control message fields and addresses are unbounded numbers, except the 16-bit key field, which is cut to 16 bits.
- `touch_data = 0`: the model always stages a payload, an arbitrary one, and looks at the receive buffer where the program may check it.
- `min_msg_size = 0`: doubling never leaves zero, so the source does not end; every statement about the schedule is for `min_msg_size >= 1`.
- More than two ranks in the rendezvous benchmarks, which the source refuses.
- Ping-pong loops with `iters = 0`, no queue pair or `rx_depth = 0`, and XRC with no client or no test: there the loops do nothing, or, with no receive ever posted, cannot start.
- XRC runs in which a client and the server are given different numbers of tests.
- The first message a PMI1 caller reads through a second descriptor: the line reader is modelled for one descriptor.
- PMI2 length fields with leading blanks or a sign, which no writer of the repository produces.
- Pmi2Writer.WriteSimpleCommand: does not model what follows the first store behind the buffer, because from there on anything may be overwritten; the method answers `Overrun` at that point.
- Pmi2Response.ReadCommandExp: does not model a return code of more than an int holds, for which `sscanf` promises nothing.
- Pmi1Keyvals.Table.ParseKeyvals: does not model what follows the first store behind the table; the method answers at that point.
- What becomes of a response whose name is compared past its end, and of the barrier once a size has overflowed: the model answers `Undetermined` and `Overflow` there.
- Pointers are printed and scanned as the GNU C library does it: `0x` and hexadecimal digits, `(nil)` for none.
- The event mode (`-e`) of the ping-pong programs: completions are polled, not waited for.
- Moves of the peer or the fabric inside one function the lambda calls: a handler, `pollRecvCQ` behind its poll, or a post is one step, and so is a poll with the assertion on what it found. Nothing a handler reads can change under it, since no further message can be delivered to a rank that has one to handle whose words it still needs (`ReadProgram.RtsNeverOverwritten`, `WriteProgram.OneControlMessageAtATime`).
- KeyValueStore.FinishBarrier: does not model the collective itself; what MPI_Allgatherv delivers is its precondition.
