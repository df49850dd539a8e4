# RDMA library: protocols and allocators, proved

The program is an RDMA library (connection set-up, registered memory, one-sided
and two-sided operations, RPC over a shared receive queue) and a benchmark tool
on top of it. The hardware verbs are foreign to it; what is its own are a memory
allocator and a number of two-party protocols. This project models those and
proves what they keep, over every run and for every parameter.

Environment, assumed once: reliable connections are FIFO and lossless; an
arriving send or write-with-immediate consumes the oldest posted receive, and one
that finds none is fatal (the queue pairs are set up with `rnr_retry = 0`,
`src/rdma/ReliableRDMA.cc:599`); retiring a signaled request retires the earlier
ones of its queue pair; completion queues are FIFO. Regions that the program runs
under a lock are single steps. The program's own preconditions are kept as
preconditions: at least one iteration per thread (`perftest/MainPerfTest.cc:526`),
no empty buffer or allocation, release of live offsets only, no connection of a
node to itself, the server's first receives posted before the client starts.

| file | what it holds |
|---|---|
| `Allocator.dfy`, `Memory.dfy`, `HeapTheorems.dfy`, `Datagram.dfy` | first-fit allocator with coalescing: the heap as a value, the class that changes it in place, what follows over any history, the datagram header room |
| `FlowControl.dfy`, `FlowSlots.dfy`, `FlowRun.dfy`, `FlowWire.dfy`, `FlowFair.dfy`, `FlowAcks.dfy`, `FlowHeld.dfy`, `FlowOverflow.dfy`, `FlowVerdict.dfy`, `FlowTwice.dfy`, `BandwidthThreads.dfy` | windowed sending with packed acknowledgements: one connection, its buffer slots, the whole client, what signaled sends and blocking polls keep off the wire, termination under a fair scheduler, receives for acknowledgements, receives left over from before, the failing schedules, the exact condition, two operations in a row, the loops as written |
| `Connect.dfy`, `RdmaNode.dfy`, `Sequencer.dfy` | simultaneous connects of N nodes with a tie-break by ID: the protocol, one node's fields, the ID service |
| `PingPong.dfy` | latency ping-pong over remote memory with alternating flip |
| `Barrier.dfy`, `BarrierConnected.dfy`, `BarrierFailure.dfy`, `BarrierLoops.dfy` | global barrier over several servers and clients, repeated: the protocol, its use of connections, how it fails, and the two searching loops |
| `RpcSlots.dfy`, `RoundRobin.dfy` | RPC slots over a shared receive queue, and the older round-robin handler |
| `SendQueue.dfy` | selective signalling and the send queue |
| `RemoteScan.dfy` | prefetching scan of a remote table |
| `Arithmetic.dfy`, `Sets.dfy`, `Options.dfy` | products, remainders, set sizes, optional values |

## Where the code does less than it seems to

- Acknowledgement receives. The client takes its copy of the acknowledgement
  counter once per burst (`perftest/BandwidthPerfTest.cc:178`) and so posts one
  receive per message in some bursts and none in others. With window W, packing
  size P = max(1, W/2), T messages and h receives found on the queue pair at the
  start, this is safe in every schedule if and only if h + min(W, T) <= W and
  (P = 1 or T <= W + P*P + 1): `FlowOverflow.AcksSafeIff` for one connection,
  `FlowVerdict.NeverFailsIff` for a client with any number of them, each with its
  own h. Otherwise a schedule is constructed in which the client posts a receive to
  a full queue. Everything else about the flow control is safe without condition.
- Two operations in a row. A test of writes with immediates and then of sends
  (`perftest/BandwidthPerfTest.cc:492-514`) runs both loops on the same queue
  pairs. The second starts its counters anew (line 94), but the receives that the
  first posted in excess are still there. With A = T/P rounded up, both are safe in
  every schedule if and only if P = 1 or 2*T <= W + A (`FlowTwice.TwoOperationsIff`).
  So with W >= 4 a run of one full window is safe once and never safe twice
  (`FlowTwice.FullWindowFailsSecond`).
- `RDMAClient::connect` from i to j can return true before a queue pair exists:
  exactly when i < j and both are servers (`Connect.ReturnMeansConnectedIff`; the
  failing run is `Connect.BacksOffUnconnected`). In a given state that is so exactly
  when i backed off and j's own request is not answered yet.
- The comment at `src/rdma/RDMAServer.h:260` speaks of backing off when the own ID
  is bigger than the caller's. The code answers a refusal then, and it is the
  caller, with the smaller ID, that gives up. The model follows the code.
- The round-robin RPC handler looks at the slot that completed, in every run, if
  and only if the number of slots divides 2^32 (`RoundRobin.RoundRobinIff`).
- The ping-pong address survives its encoding, for addresses below 2^62, if and
  only if it is a multiple of the packet size and its word fits 32 bits. Over all of
  `size_t` there is at most one more address per packet size, where both sides wrap alike
  (`PingPong.DecodeIff`, `PingPong.LastAddressSurvives`).
- The scan reads the whole table if and only if the number of threads divides the
  number of pages (`RemoteScan.WholeTableIff`); the remaining pages are skipped.
- Unawaited reads. A signaled blocking call reaps its own completion if and only if
  no signaled request waits to be reaped before it (`SendQueue.OwnCompletionIff`). So
  after k reads requested without waiting it returns on a read's completion, and every
  later call returns k requests too early (`SendQueue.NeverCatchesUp`). The reads also
  reset the counter that keeps the send queue from filling up: the calls after them
  all find room exactly when everything unreaped fits the queue together, and
  RDMA_MAX_WR calls never do (`SendQueue.ResetOverflows`).
- The client of the barrier catches a refused send and tries again
  (`perftest/PerfTest.h:73-81`), but with `rnr_retry = 0` the first refusal has broken
  the queue pair. A run of the barrier breaks none if and only if no client sends its
  message of a round before the server has posted the receive of that round
  (`BarrierFailure.UnbrokenIff`). Nothing but a sleep keeps a client from doing so:
  for all numbers of clients and servers `BarrierFailure.FailingRun` does it in the
  first round, and then nobody ever leaves that round (`BarrierFailure.NobodyPasses`).

## Model

| member | source | states |
|---|---|---|
| Allocator.CanonicalUnique | src/memory/BaseMemory.cc:160-202 | two coalesced, sorted free lists over the same bytes are the same list |
| Allocator.FreeListDetermined | src/memory/BaseMemory.cc:160-314 | in a valid heap the live blocks alone determine the free list |
| Allocator.AllocThenFree | src/memory/BaseMemory.cc:204-314 | releasing what was just allocated restores the identical heap |
| Allocator.ReleasesCommute | src/memory/BaseMemory.cc:270-314 | two releases lead to the same heap in either order |
| Allocator.NothingLive | src/memory/BaseMemory.cc:160-314 | with nothing live the free list is the one block (0, memSize), whatever happened before |
| Allocator.FirstFitUnique | src/memory/BaseMemory.cc:204-225 | the specification of an allocation admits one answer only |
| Allocator.StepDetermined | src/memory/BaseMemory.cc:204-314 | an allocation or release has one possible outcome, answer and free list included |
| Allocator.RunDetermined | src/memory/BaseMemory.cc:204-314 | a whole history of requests has one possible outcome |
| Allocator.RunInOneBlock | src/memory/BaseMemory.cc:160-202 | any run of unowned bytes lies inside a single free block |
| Allocator.FirstBlockIsFirstFit | src/memory/BaseMemory.cc:204-225 | the first block large enough starts at the lowest offset where the request fits anywhere |
| Allocator.NoBlockNoFit | src/memory/BaseMemory.cc:204-225 | if no block is large enough the request fits nowhere in the buffer |
| Memory.BaseMemory.constructor | src/memory/BaseMemory.cc:24-30 | a new buffer is one free block and a valid heap |
| Memory.BaseMemory.InternalAlloc | src/memory/BaseMemory.cc:204-225 | fails, changing nothing, exactly when no run of that many unowned bytes exists; otherwise takes the lowest such run and keeps the heap valid |
| Memory.BaseMemory.Alloc | src/memory/BaseMemory.cc:255-261 | the same with addresses; the exception exactly when nothing fits |
| Memory.BaseMemory.FreePointer | src/memory/BaseMemory.cc:263-268 | releases the block at the offset of the pointer |
| Memory.BaseMemory.Free | src/memory/BaseMemory.cc:270-314 | release of a live offset removes exactly that block and restores sorted, coalesced form; the insertion search always succeeds, so the final throw is dead |
| Memory.BaseMemory.MergeFreeMem | src/memory/BaseMemory.cc:160-202 | the iterator surgery joins the block to the neighbours it touches, on either side, and to no other |
| Memory.MergeRestoresCanonical | src/memory/BaseMemory.cc:160-202 | one two-sided merge makes a sorted list canonical again and covers the same bytes |
| Memory.GuardSum | src/memory/BaseMemory.cc:278-292 | the running sum of earlier free sizes never exceeds the released offset at the insertion point, so the odd guard never rejects it |
| Memory.InsertedIsLoose | src/memory/BaseMemory.cc:278-292 | the chosen insertion point is the sorted one |
| HeapTheorems.Fragmentation | src/memory/BaseMemory.cc:160-225 | at most one more free block than live blocks |
| HeapTheorems.SumIsCovered | src/memory/BaseMemory.cc:160-314 | the sizes of a canonical list add up to the number of bytes it covers |
| HeapTheorems.BytesConserved | src/memory/BaseMemory.cc:160-314 | free sizes and live bytes always add up to the size of the buffer |
| HeapTheorems.FitsBehindLive | src/memory/BaseMemory.cc:204-225 | a first fit starts at 0 or at the end of a live block |
| HeapTheorems.AlignedStep | src/memory/BaseMemory.cc:204-314 | an operation on multiples of g keeps all live offsets and sizes multiples of g |
| HeapTheorems.AlignedRun | src/memory/BaseMemory.cc:204-314 | so over any history of allocations and releases |
| HeapTheorems.PackedAlloc | src/memory/BaseMemory.cc:204-225 | in a buffer filled from below the next allocation lands on its top |
| HeapTheorems.EqualRequestsTile | src/memory/BaseMemory.cc:204-225 | on a fresh buffer the k-th of equal requests lands at k times the size |
| HeapTheorems.ReceiveBaseIsRemoteBlock | perftest/BandwidthPerfTest.cc:225-243 | a server thread's receiveBaseOffset is the start of the remote block of its own index |
| Datagram.UnreliableRDMA.LocalAlloc | src/rdma/UnreliableRDMA.cc:41-47 | a first fit of 40 bytes more, handed out 40 bytes in: the 40 bytes before the payload and the payload are one live block |
| Datagram.UnreliableRDMA.LocalFree | src/rdma/UnreliableRDMA.cc:51-56 | takes such an address back and releases exactly the block that starts 40 bytes before it |
| FlowControl.LinkStepInv | perftest/BandwidthPerfTest.cc:173-209 | every step of client, network or server keeps the invariant of a connection, for every window and message count |
| FlowControl.LinkSafe | perftest/BandwidthPerfTest.cc:173-209 | messages on the wire never exceed posted receives, pending stays within the window, no credit underflows it, budget + pending + the immediates polled make T, and those, the ones under way and the counter make what was served |
| FlowControl.CountFits | perftest/BandwidthPerfTest.cc:311-319 | the cast of a count to 32 bits never changes it |
| FlowControl.ConfigRange | perftest/BandwidthPerfTest.cc:92 | all of this is for every window from 1 to 2^32 - 1, every T >= 1 and every number of slots |
| FlowSlots.PolledSlot | perftest/BandwidthPerfTest.cc:295-310 | the j-th message left client slot (T-j) mod slots and lies in the receive of the same slot |
| FlowSlots.ClientStepSlots | perftest/BandwidthPerfTest.cc:183-191 | client steps keep the slot order of messages on the wire, however bursts are split |
| FlowSlots.OtherStepSlots | perftest/BandwidthPerfTest.cc:295-310 | server and network steps keep it, so wire and receive queue always name the same slots |
| FlowSlots.RegionsDisjoint | perftest/BandwidthPerfTest.cc:183-191 | the send regions of distinct (connection, slot) pairs are disjoint and inside the block |
| FlowRun.StepInv | perftest/BandwidthPerfTest.cc:173-209 | every step of the whole client keeps its invariant: all connections but the visited one idle, workingConnections exact |
| FlowRun.RunSafe | perftest/BandwidthPerfTest.cc:173-209 | in every state of every run, any number of connections, any receives left from before: no message without a receive, window kept, budget + pending + the sum of the immediates polled = T, every message on the wire and every one received meets a receive of its own slot, workingConnections is the number of unfinished connections, and at the end the immediates polled on each add up to T |
| FlowWire.IdleHasRoom | perftest/BandwidthPerfTest.cc:195-199 | the client leaves a connection only with room in its window, because it blocks at a full one; so every burst on a connection with budget left sends something |
| FlowWire.WireIsWaitedFor | perftest/BandwidthPerfTest.cc:191-193 | outside its burst no message of a connection is on the wire, and at most one acknowledgement is, while the server waits for it |
| FlowRun.Progress | perftest/BandwidthPerfTest.cc:173-209 | deadlock freedom: until the client is done or something failed, a step is enabled that makes a well-founded measure smaller |
| FlowRun.CanStop | perftest/BandwidthPerfTest.cc:173-209 | from every reachable state the run can be continued until the client is done or something has failed |
| FlowRun.StepWork | perftest/BandwidthPerfTest.cc:173-209 | no step adds work; steps of server and network remove some |
| FlowRun.DataStepsBounded | perftest/BandwidthPerfTest.cc:173-209 | along any run, however scheduled, the steps that reduce the work are bounded by the work at its start |
| FlowRun.DoneIsCredited | perftest/BandwidthPerfTest.cc:202-206 | when the outer loop has ended, the immediates polled on every connection add up to T |
| FlowFair.ClientUnique | perftest/BandwidthPerfTest.cc:174-206 | the client never has a choice of its next step |
| FlowFair.LongStretchIsBusy | perftest/BandwidthPerfTest.cc:174-206 | when the client goes on for nine steps a connection without data moving, a server or the network has had a step to take in each of those states |
| FlowFair.FairDrops | perftest/BandwidthPerfTest.cc:174-206 | a scheduler that lets one of them step at least once in every k steps moves data within every max(k, 9 * connections) steps |
| FlowFair.FairRunLength | perftest/BandwidthPerfTest.cc:174-206 | so no fair run is longer than (connections * (8T + 1) + 1) * max(k, 9 * connections) steps |
| FlowFair.FairRunExtends | perftest/BandwidthPerfTest.cc:174-206 | and a fair run that is neither done nor failed can go on fairly |
| FlowAcks.StepCredit | perftest/BandwidthPerfTest.cc:195-199 | every immediate is a full pack except one that completes T; n immediates sent make n full packs, short only at the end, and so do those polled |
| FlowAcks.PackRange | perftest/BandwidthPerfTest.cc:92 | P is half the window, rounded down, and 1 exactly for windows up to 3 |
| FlowAcks.StepBurst | perftest/BandwidthPerfTest.cc:183-193 | each burst fills the window again, and every burst but the first needs a new acknowledgement |
| FlowAcks.StepFresh | perftest/BandwidthPerfTest.cc:178-192 | on a fresh queue pair, under the condition, no step fails and the invariant of acknowledgement receives is kept |
| FlowAcks.EnoughOffered | perftest/BandwidthPerfTest.cc:187-188 | under the condition the receives ever posted cover the acknowledgements ever sent |
| FlowAcks.HeldAtMostWindow | perftest/BandwidthPerfTest.cc:187-188 | then the receives posted and not polled never exceed the window |
| FlowHeld.StepAcks | perftest/BandwidthPerfTest.cc:178-192 | with receives left from before, under the condition, no step fails and the invariant is kept |
| FlowHeld.ReceivesSuffice | perftest/BandwidthPerfTest.cc:187-188 | then there is a receive for every acknowledgement ever sent |
| FlowHeld.LeftOver | perftest/BandwidthPerfTest.cc:178-206 | a finished connection has polled T/P acknowledgements, rounded up, and keeps all other receives: as many as it found if P = 1, T - T/P more if T <= W |
| FlowOverflow.Overflow | perftest/BandwidthPerfTest.cc:178-192 | with T > W + P*P + 1 and P > 1 a schedule of a fresh connection posts a receive to a full queue |
| FlowOverflow.EarlyOverflow | perftest/BandwidthPerfTest.cc:178-192 | with too many receives from before the first burst does |
| FlowOverflow.SecondRound | perftest/BandwidthPerfTest.cc:178-192 | a schedule of several bursts posts beyond the window |
| FlowOverflow.AcksSafeIff | perftest/BandwidthPerfTest.cc:178-192 | no schedule of a connection that starts with h receives ever fails if and only if h + min(W, T) <= W and (P = 1 or T <= W + P*P + 1) |
| FlowOverflow.HeldWhenFit | perftest/BandwidthPerfTest.cc:187-188 | then every acknowledgement in flight has a receive and at most W receives are held |
| FlowVerdict.FitRunsFinish | perftest/BandwidthPerfTest.cc:173-209 | under the condition no connection of any run fails, every run can be continued to a done state, and in a done state the immediates polled on each connection add up to T |
| FlowVerdict.FairRunsFinish | perftest/BandwidthPerfTest.cc:173-209 | under the condition a fair run is bounded in length, and one that cannot be continued fairly is done with T acknowledged on each connection |
| FlowVerdict.PlayAll | perftest/BandwidthPerfTest.cc:174-204 | any open path of one connection is part of a run of the whole client, in which the others follow lap by lap |
| FlowVerdict.ReachCursor | perftest/BandwidthPerfTest.cc:174-204 | the client reaches its first visit of any connection, untouched so far, or something fails before |
| FlowVerdict.NeverFailsIff | perftest/BandwidthPerfTest.cc:173-209 | a client with any number of connections, each with its own receives left from before, never fails if and only if the condition holds for each |
| FlowTwice.LongRunLeaves | perftest/BandwidthPerfTest.cc:492-514 | a first operation with P > 1 and T > W can always end with receives left over |
| FlowTwice.TwoOperationsIff | perftest/BandwidthPerfTest.cc:492-514 | two operations one after the other on any number of connections never fail if and only if P = 1 or 2T <= W + T/P rounded up |
| FlowTwice.FullWindowFailsSecond | perftest/BandwidthPerfTest.cc:492-514 | with W >= 4 and T = W the first operation is safe and the second is not |
| BandwidthThreads.SendBurst | perftest/BandwidthPerfTest.cc:176-193 | the send loop leaves the three counters as the burst of the transition system does, and names slots in order |
| BandwidthThreads.PollAcks | perftest/BandwidthPerfTest.cc:195-204 | the poll loop blocks exactly while the window is full, subtracts exactly the immediates it got and counts the connection off when it is through |
| BandwidthThreads.ServeAll | perftest/BandwidthPerfTest.cc:293-322 | the server loop polls T messages, posts T receives in slot order, and its immediates add up to T, full packs but the last |
| BandwidthThreads.BurstBegins | perftest/BandwidthPerfTest.cc:176-186 | a visit of the transition system starts the burst of the loop |
| BandwidthThreads.BurstEndsAs | perftest/BandwidthPerfTest.cc:187-193 | whatever server and network do meanwhile, it ends with the counters of the loop |
| Connect.MoveInv | src/rdma/RDMAServer.h:241-264 | every message or locked region of any node keeps the invariant of all pairs |
| Connect.RunInv | src/rdma/RDMAClient.h:260-345 | it holds in every state of every run of N nodes |
| Connect.TableWrittenOnce | src/rdma/RDMAServer.h:303-307 | once written, an entry of a connection table is the same in every later state of the run: at most one queue pair per pair of nodes |
| Connect.EntriesMatch | src/rdma/RDMAClient.h:311-332 | where both sides have an entry, each one's remote number is the other's local one |
| Connect.DrainedPairs | src/rdma/RDMAClient.h:260-345 | with no call under way a pair is connected, on both sides and consistently, if and only if one of them called |
| Connect.ReturnedWithoutQueuePair | src/rdma/RDMAClient.h:333-345 | in any state, connect has returned without a queue pair if and only if it backed off and the peer's request is unanswered |
| Connect.BacksOffUnconnected | src/rdma/RDMAServer.h:248-263 | for servers i < j: a run in which i's connect has returned and i has no entry for j |
| Connect.ReturnMeansConnectedIff | src/rdma/RDMAClient.h:260-345 | over all runs, a return of connect from i to j means a queue pair if and only if i > j, or i or j is no server |
| Connect.MoveFresh | src/rdma/RDMAClient.h:279-289 | no two uses of a queue pair number of one node belong to different peers |
| Connect.RunFresh | src/rdma/RDMAServer.h:267-285 | so in every run |
| Connect.StepRank | src/rdma/RDMAClient.h:260-345 | every step brings a call nearer to its end |
| Connect.RunLength | src/rdma/RDMAClient.h:260-345 | no run is longer than four steps per ordered pair of nodes |
| Connect.PendingMoves | src/rdma/RDMAClient.h:309-345 | a call under way can always move, so maximal runs are drained |
| RdmaNode.RdmaServer.constructor | src/rdma/RDMAClient.h:366-374 | a new node has no flags and no connections |
| RdmaNode.RdmaServer.ClaimPeer | src/rdma/RDMAClient.h:260-277 | the locked check raises the flag exactly if it was down, growing the vector without raising others |
| RdmaNode.RdmaServer.Grow | src/rdma/RDMAServer.h:244-247 | resizing raises no flag |
| RdmaNode.RdmaServer.InitQp | src/rdma/RDMAClient.h:289 | the number of a new queue pair is in no table |
| RdmaNode.RdmaServer.SetAndConnect | src/rdma/RDMAClient.h:327-348 | the three tables stay in step and hold the new pair |
| RdmaNode.RdmaServer.ConnectQueue | src/rdma/RDMAServer.h:238-332 | refuses exactly if the flag was up and the caller's ID is smaller; otherwise installs and accepts, as the protocol's answer does |
| Sequencer.NodeIDSequencer.constructor | src/rdma/NodeIDSequencer.h:30-32 | starts with no registrations |
| Sequencer.NodeIDSequencer.GetNextNodeID | src/rdma/NodeIDSequencer.cc:22-25 | hands out a number above that of every registered node, and equal to the index of the next entry |
| Sequencer.NodeIDSequencer.HandleNodeIDRequest | src/rdma/NodeIDSequencer.cc:29-55 | the k-th registration gets ID k, entries stay indexed by ID, the address map keeps naming the newest server |
| Sequencer.NodeIDSequencer.HandleGetNodeIDForIpPort | src/rdma/NodeIDSequencer.cc:76-101 | finds the newest server registered under the address; not found exactly when there never was one |
| PingPong.DecodeIff | perftest/LatencyPerfTest.cc:104-105 | for every address and packet size, decoding recovers the address if and only if it is a multiple of the packet size and its word fits 32 bits, or it is the one address where both sides wrap alike |
| PingPong.DecodeIffBelow | perftest/LatencyPerfTest.cc:104-105 | below 2^62 if and only if it is a multiple of the packet size and its word fits 32 bits |
| PingPong.LastAddressSurvives | perftest/LatencyPerfTest.cc:257 | the other case exists: address 2^64 - 2, packets of two bytes |
| PingPong.EncodeFits | perftest/LatencyPerfTest.cc:104 | a word is below 2^32, and is the full index and flip exactly when these are |
| PingPong.PacketsApart | perftest/LatencyPerfTest.cc:102-103 | the receive and send packets of all slots lie inside the client's block and apart from each other |
| PingPong.DecodeFits | perftest/LatencyPerfTest.cc:257 | within 32 bits the server rounds the address down to a packet boundary |
| PingPong.DecodeWrapped | perftest/LatencyPerfTest.cc:257 | beyond 32 bits the server gets the address back only where its difference underflows to it |
| PingPong.WordFacts | perftest/LatencyPerfTest.cc:97-105 | a word is never zero, odd in the first pass and of the other parity in each next one, and decodes to the client's receive region |
| PingPong.StaleParity | perftest/LatencyPerfTest.cc:252-256 | until the i-th write arrives its slot holds zero or the other parity, whatever earlier passes left there |
| PingPong.ServerAcceptsNext | perftest/LatencyPerfTest.cc:252-256 | when the server's poll succeeds it has the client's next word |
| PingPong.ClientAcceptsEcho | perftest/LatencyPerfTest.cc:114-118 | when the client's poll succeeds the answer to its own word has arrived |
| PingPong.StepInv | perftest/LatencyPerfTest.cc:95-125 | every write, arrival and poll keeps the invariant |
| PingPong.RunInv | perftest/LatencyPerfTest.cc:95-125 | in every state of every run, for every slot count |
| PingPong.NeverStale | perftest/LatencyPerfTest.cc:244-261 | the server has taken exactly the client's words in order and the client exactly their answers |
| PingPong.WritesLanded | perftest/LatencyPerfTest.cc:113-118 | a side polls for the next word only when its own write has landed |
| PingPong.RunLength | perftest/LatencyPerfTest.cc:95-125 | no run is longer than seven steps an iteration |
| PingPong.NotFinishedMoves | perftest/LatencyPerfTest.cc:95-125 | unless both sides are through some step is possible: nobody polls for ever |
| Barrier.ClientStepInv | perftest/PerfTest.h:63-84 | what a connection holds follows from how far its ends are, through every client step that breaks nothing |
| Barrier.ServerStepInv | perftest/PerfTest.h:87-117 | and through every server step |
| Barrier.RunInv | perftest/PerfTest.h:63-117 | in every state of every run, for any numbers of servers, clients and rounds |
| Barrier.BarrierHolds | perftest/PerfTest.h:63-117 | if any client has left round r, every client has got its round-r message to every server and every server has polled it |
| Barrier.RoundsClose | perftest/PerfTest.h:63-117 | no two participants are more than one round apart |
| Barrier.RunOwnRound | perftest/PerfTest.h:110-116 | a message polled is of the poller's own round, nothing is left over for another, every server reply finds the client's receive, one receive and one message per direction at most |
| BarrierConnected.UsedIsConnected | perftest/PerfTest.h:88-101 | whatever a connection holds, and whatever either end has done on it, the connection exists |
| BarrierConnected.StartsConnected | perftest/PerfTest.h:94-108 | a server waits for messages only after all its clients have connected to it; a client posts its first receive only after it has connected to all servers |
| Barrier.Progress | perftest/PerfTest.h:63-117 | no deadlock as long as no queue pair is broken: in whatever order each participant serves its partners, until all are through one of them can take its very next step without breaking one |
| BarrierFailure.UnbrokenIff | perftest/PerfTest.h:73-81 | a run breaks no queue pair if and only if in none of its steps a client sends a round before the server posted that round's receive |
| BarrierFailure.NobodyPasses | perftest/PerfTest.h:71-84 | once a client has sent too early in a round no client ever leaves that round |
| BarrierFailure.FailingRun | perftest/PerfTest.h:63-76 | for all numbers of clients, servers and rounds there is such a run: connect, post, send |
| Barrier.StepWork | perftest/PerfTest.h:63-117 | every step counts exactly one connection, post, message, reply or broken pair |
| Barrier.RunLength | perftest/PerfTest.h:63-117 | so no run is longer than six steps per connection and round, one to connect and one to break |
| BarrierLoops.PrepareReceives | perftest/PerfTest.h:88-108 | stops at the first look with enough clients and has then posted exactly one receive for each client of it |
| BarrierLoops.PostMissing | perftest/PerfTest.h:96-101 | one pass posts a receive for each client that has none and for no other |
| BarrierLoops.AllExpected | perftest/PerfTest.h:103-106 | a look with as many clients as expected shows every expected client |
| BarrierLoops.SendToAll | perftest/PerfTest.h:71-81 | if every server has posted in time the loop ends, and each has taken exactly one message, in order |
| BarrierLoops.OnePass | perftest/PerfTest.h:73-80 | erasing while iterating skips nobody: one pass sends to exactly the servers that take it, in order, and keeps the others in order |
| BarrierLoops.RepeatPasses | perftest/PerfTest.h:72-81 | trying again never helps: after any number of passes those refused in the first are left, none if and only if all posted in time |
| RpcSlots.RpcHandler.PlaceIsUnique | src/RPC/RPCVoidHandlerThread.h:335-367 | each of the slots 0..max-1 is posted, being written, completed or in the handler: in exactly one of them |
| RpcSlots.RpcHandler.constructor | src/RPC/RPCVoidHandlerThread.h:335-346 | every slot is posted once |
| RpcSlots.RpcHandler.MessageArrives | src/rdma/ReliableRDMA.cc:800-821 | an arrival takes the oldest posted slot, or fails with none |
| RpcSlots.RpcHandler.PartialWrite | src/rdma/ReliableRDMA.cc:800-821 | writing an arriving message touches no delivered one |
| RpcSlots.RpcHandler.MessageCompletes | src/rdma/ReliableRDMA.cc:823-850 | any arriving message may complete next, and is then whole in its slot |
| RpcSlots.RpcHandler.PollReceive | src/RPC/RPCVoidHandlerThread.h:354-356 | the handler sees exactly the delivered bytes of the oldest completion |
| RpcSlots.RpcHandler.Repost | src/RPC/RPCVoidHandlerThread.h:358-360 | until it posts the slot again those bytes are unchanged |
| RoundRobin.RpcMemory.GetNext | src/RPC/RPCMemory.h:22-26 | the k-th call returns slot (k mod 2^32) mod max |
| RoundRobin.SlotsGoRound | src/RPC/RPCMemory.h:22-26 | the slots go round for 2^32 calls, and then start again at 0 |
| RoundRobin.RunHandler | src/RPC/RPCVoidHandlerThread.h:151-181 | over n messages completed in posting order, which slots complete and which the handler looks at |
| RoundRobin.RoundRobinIff | src/RPC/RPCMemory.h:22-26 | the two are the same in every run if and only if max divides 2^32 |
| RoundRobin.FirstWrongSlot | src/RPC/RPCMemory.h:22-26 | otherwise the message at the wrap is looked for in slot 0 and lies in another |
| SendQueue.QueuePair.CheckSignaled | src/rdma/BaseRDMA.h:302-314 | forces a signal exactly on the RDMA_MAX_WR-th post without one, and restarts the count at each signal |
| SendQueue.QueuePair.PostSend | src/rdma/ReliableRDMA.h:318-321 | fails exactly on a full queue |
| SendQueue.QueuePair.PollSendCq | src/rdma/ReliableRDMA.h:323-341 | returns the oldest signaled request and retires it with all before it |
| SendQueue.QueuePair.Access | src/rdma/ReliableRDMA.h:279-342 | on any queue: fails exactly when it is full, otherwise leaves the queue and reaps what the blocking call of the lemmas below does |
| SendQueue.QueuePair.RequestRead | src/rdma/ReliableRDMA.cc:211-215 | on any queue: fails exactly when it is full, otherwise leaves a signaled read and a counter of 0, and reaps nothing |
| SendQueue.ReadyCall | src/rdma/ReliableRDMA.h:279-342 | a call on a ready queue never meets a full one, reaps its own completion or none, and leaves the counter equal to the unreaped requests, below RDMA_MAX_WR, with no completion waiting |
| SendQueue.RunReady | src/rdma/UnreliableRDMA.cc:209-257 | after any calls on any connections every queue is ready for the next, with a queue and counter per connection or one shared by all |
| SendQueue.OwnQueues | src/rdma/ReliableRDMA.h:289-291 | on reliable connections a queue and its counter see exactly the calls on their own connection, in order |
| SendQueue.SharedQueue | src/rdma/UnreliableRDMA.cc:209-216 | on datagrams the one queue and counter see all calls, and no other queue changes |
| SendQueue.UnsignaledPeriod | src/rdma/BaseRDMA.h:302-314 | n calls without a signal on a ready queue wait (counter + n) / RDMA_MAX_WR times, and leave the counter at the remainder |
| SendQueue.OwnCompletionIff | src/rdma/ReliableRDMA.h:323-341 | a signaled call reaps its own completion if and only if no signaled request is unreaped before it |
| SendQueue.ReadsIff | src/rdma/ReliableRDMA.cc:211-215 | unawaited reads go through exactly as long as the queue has room, and all stay unreaped |
| SendQueue.ForeignCompletion | src/rdma/ReliableRDMA.cc:211-215 | after unawaited reads on a ready queue the next signaled call returns on the oldest read's completion, on its own only if there were none |
| SendQueue.NeverCatchesUp | src/rdma/ReliableRDMA.cc:211-215 | with k reads unreaped each later signaled call reaps the request k before its own |
| SendQueue.ResetOverflows | src/rdma/BaseRDMA.h:302-314 | after unawaited reads the calls up to the forced signal all find room if and only if everything unreaped fits the queue together; RDMA_MAX_WR calls never do |
| RemoteScan.RemoteScanThread.constructor | perftest_old/RemoteScanPerf.cc:14-38 | a thread starts where the one before it ends, with nothing under way |
| RemoteScan.RemoteScanThread.Prefetch | perftest_old/RemoteScanPerf.h:37-55 | runs ahead to the end of the window or range; no two reads under way share a slot |
| RemoteScan.RemoteScanThread.RequestRead | perftest_old/RemoteScanPerf.h:41-51 | the next page goes to the next ring slot |
| RemoteScan.RemoteScanThread.PollSend | perftest_old/RemoteScanPerf.cc:63-66 | the oldest read is the page the scan wants, and no read under way writes there |
| RemoteScan.RemoteScanThread.AddPage | perftest_old/RemoteScanPerf.cc:68-73 | adds up all tuples of the remote page, whatever the adapter writes meanwhile |
| RemoteScan.RemoteScanThread.Run | perftest_old/RemoteScanPerf.cc:45-83 | the total is the sum of all tuples of the pages of the range, in one row, modulo 2^64: each page once, none overwritten before it is summed |
| RemoteScan.SumOfParts | perftest_old/RemoteScanPerf.cc:70-73 | the sum of a row of tuples is that of its parts |
| RemoteScan.SumOfChange | perftest_old/RemoteScanPerf.cc:70-73 | every tuple counts, with its value |
| RemoteScan.SumOfRange | perftest_old/RemoteScanPerf.cc:61-80 | the plain sequential scan page by page is the sum of all tuples of the range |
| RemoteScan.RangesDisjoint | perftest_old/RemoteScanPerf.cc:21-28 | a page belongs to one thread at most |
| RemoteScan.ScannedPages | perftest_old/RemoteScanPerf.cc:21-28 | exactly the pages below the rounded-down product belong to one |
| RemoteScan.WholeTableIff | perftest_old/RemoteScanPerf.cc:21-28 | the threads read the whole table if and only if their number divides the pages |

## Left out

- libibverbs, rdmacm, ZMQ, protobuf, CUDA and NUMA: replaced by the assumptions above; failed verbs calls and timeouts are not modelled.
- `perftest/OperationsCountPerfTest.cc`: the same client and server loops as the bandwidth test.
- Bandwidth writes with immediates (`perftest/BandwidthPerfTest.cc:116-150`, server `256-279`): the same loops as send and receive, with the slot in the remote address instead of in the posted receive; one model covers both.
- Bandwidth test without immediates (plain writes and reads): no flow control, each call is a blocking call of the send queue model.
- Atomics, multicast and RPC benchmarks, result statistics, CSV output: formatting and floating point.
- Flags, configuration, logging, string and file helpers, timers: plumbing with easy claims only.
- Release of offsets that are not live, and allocations of zero bytes: excluded by preconditions, as the code would add an entry of its own making at `src/memory/BaseMemory.cc:273`.
- `UnreliableRDMA::localFree` by offset: passes the offset on to the allocator without the header room.
- Latency ping-pong with several servers: the receive regions of different connections overlap in the code (`perftest/LatencyPerfTest.cc:102`), so the protocol is stated for one server.
- Latency with immediates and send/receive: one message at a time, nothing to order.
- A second `connect` to an address that is already in `m_connections` returns at once and does nothing (`src/rdma/RDMAClient.h:354-358`); the model has one call per ordered pair of nodes.
- Connections over a shared receive queue in `connectQueue`: same tables, other queue pair constructor.
- A node connecting to itself: answered as the code does in RdmaNode, but no part of the runs of Connect; the code leaks a queue pair by its own account.
- Listing of all node IDs in the sequencer: a copy of the entries.
- The barrier between two operations posts one receive and consumes one on each queue pair that also carries the flow control, the oldest, which may be one left over; their number is unchanged, and the two protocols are modelled apart.
- Two operations with different parameters: the program runs both with the same ones.
- Barrier clients beyond the expected number.
- SendQueue.QueuePair.Elapse: the adapter's own progress, left free.
- Latency and barrier threads as methods: their loops wait for each other, so they are steps of a transition system; only the loops that search are written out.
- Mutexes, condition variables and real time: locked regions are single steps, sleeps are any delay.
