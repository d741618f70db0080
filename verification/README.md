# A model of the RDMA request engine

This project models the request engine of a UD ping-pong benchmark over RDMA, and the protocol
around it, and proves what the code relies on. A server thread polls receive completions from a
queue pair's completion queue (CQ), files the requests by priority, serves one, reposts its
receive buffer and sends the response; only every `signalInterval`-th send reports a completion.
Clients either keep a window of requests open or send at a given rate. An FPGA may keep a byte per
queue to say where requests wait.

Check everything with `dafny verify dfyconfig.toml`.

## Contents

| files | what they model |
|---|---|
| `Dispatch`, `PriorityServer`, `OrderedIndex` | the dispatch loop: strict priority, round robin, weighted round robin. `Dispatch` says what each iteration does in terms of the per-class lists alone; the class `PriorityServer` is the loop as written, with the index of classes, the cursor, the key erased one turn late and the eight-bit burst counter, and refines it |
| `RoundRobin`, `WeightedRoundRobin`, `StrictDrain` | what the three policies guarantee over runs with arrivals at any time |
| `InOrder` | the in-order modes: the ring of arrivals in step with the lists |
| `GlobalStrict`, `GlobalStrictOrder`, `GlobalStrictBuffers`, `GlobalStrictGroups`, `GlobalStrictLimits`, `GlobalStrictQueues`, `GlobalStrictThreads`, `GlobalStrictProgress`, `GlobalStrictMessages` | strict priority shared by any number of threads under a lock per group, as interleaved steps: what the groups guarantee, how full the queues of a queue pair get, what each thread does with its requests, and that a thread on its own drains its group |
| `Pipeline`, `EchoServer`, `EchoOrder`, `EchoTightness`, `EchoCompletions`, `EchoConnection` | a queue pair's buffers, sends and completions, served in order of arrival or in any order: bounds on both queues, runs that reach them, and the connection object with its first-come-first-served loop |
| `Notification`, `NotificationLimits`, `NotificationServer` | the byte vector protocol as interleaved steps, when it goes wrong, and the loop as written |
| `Words`, `WordScan`, `TokenRing` | the scans of the byte vector by words and vector lanes, and the scan benchmark |
| `StrictPoll` | strict polling of queue pairs without lists |
| `ClosedLoop`, `ClosedLoopCredit`, `ClosedLoopLimits`, `ClosedLoopOrder`, `ClosedLoopClient`, `RoundRobinTargets` | closed-loop clients composed with echo servers, and how a client picks the next queue pair: in rotation, as the program is built, or at random |
| `OpenLoop` | the open-loop client's two threads |
| `PriorityTable`, `Payload` | the skewed priority tables and the bytes of a message |
| `Arithmetic`, `Bits`, `Bags`, `Sequences` | facts used throughout |

A network step may happen whenever it can: a request arrives into any posted buffer, a message is
delivered in any order. A signalled send's completion joins the CQ when the send is posted, and a
CQ is first in, first out. In `EchoServer` a poll may take fewer completions than the CQ holds, which
stands for completions not visible yet; in `GlobalStrict` a poll takes all of them up to its limit.
`EchoConnection` and `OpenLoop` have the branch in which a post finds
the send queue full, and prove that it is not taken; elsewhere posts succeed.

## What the proofs turned up

Where a property holds only under a condition, the condition is stated exactly and the failing
case is a run of the model.

- Signal spacing. `rcnt` has 32 bits, so where `signalInterval` does not divide 2^32 two signalled
  sends come closer together when it wraps (`Gap`). The byte vector protocol serves a request twice
  exactly when that distance is no larger than a queue's number of buffers
  (`NotificationLimits.SoundIff`).
- Migration. With the lock shared by threads on different queue pairs, every buffer of the group
  can end up posted at one of them. Every repost succeeds exactly when the receive queue has room
  for all of the group's buffers (`GlobalStrictLimits.RepostsFitIff`). A CQ then suffices exactly
  when it has room for all of them and a send completion for each thread that polls it
  (`GlobalStrictQueues.CompletionQueueFitsIff`). The allocated depth `2*buffersPerQ+1` is enough for
  a queue pair that has its group to itself and at most `buffersPerQ+1` threads, or shares it with
  one other and has one thread; with three queue pairs or more it never is
  (`GlobalStrictQueues.AllocatedDepthIff`).
- Shared queue pairs. A send is signalled by the count of requests served, which moves on before the
  send is posted. With one thread at a queue pair one interval of send slots suffices. With two or
  more, both can count past every signalled send before either sends, and no depth suffices unless
  every send is signalled, which takes a slot for each thread
  (`GlobalStrictQueues.SendQueueFitsIff`).
- Weighted round robin. Every class's wait is bounded exactly when every weight fits the eight-bit
  counter; a wider weight is never met and starves the rest (`WeightedRoundRobin.WaitsBoundedIff`).
  The program's own table does that for n classes exactly when n mod 10 exceeds n / 10, as with 12
  classes; it keeps to the intended 1 to 10 exactly for multiples of ten. The counter is cleared
  only by a rotation, so a burst begun by one stays within the weight, but any weight below 255 can
  be overrun by a burst begun otherwise.
- The closed-loop client's comment says its mask is a remainder, and the repository's README
  promises round robin. In fact each client goes round a block of server threads, as many as the
  largest power of two that divides their number: all of them exactly for a power of two. The
  buffers that a queue pair needs follow from who keeps coming back to it
  (`ClosedLoopLimits.NeverDropsIff`).
- The intervals. The priority server's `signalInterval` is 0, and `rcnt % signalInterval`
  undefined, when `rx_depth - recv_bufs_num` is below 16; the echo server's when that difference is
  a multiple of 65536, as with the 64 and 64 of README.md:46-47.
- Sixteen-bit buffer indices cover all buffers exactly when there are at most 65535.
- Strict polling in the scale-out layout shares the queues out exactly when the number of threads
  divides theirs: with fewer threads some queue is left out otherwise, with more threads than queues
  some queue is polled by two and some thread's offset names none (`StrictPoll`). The word scan may report a byte beyond the queues exactly when their number is
  not a multiple of eight; the priority tables go out of range with fewer than five classes.

## Model

| member | source | states |
|---|---|---|
| PriorityServer.PriorityServer.constructor | ud_pingpong_server_reorder_fast.cc:321-360 | a scheduler starts with empty lists, an empty index, no class served yet and its burst counter at 0 |
| PriorityServer.PriorityServer.File | ud_pingpong_server_reorder_fast.cc:1238-1258 | filing appends to the request's class, whatever the index holds, and keeps index and lists in agreement |
| PriorityServer.PriorityServer.ServeStrict | ud_pingpong_server_reorder_fast.cc:1330-1360 | an iteration serves the oldest request of the least class that has one; the assertion on the list's size holds |
| PriorityServer.PriorityServer.ServeRoundRobin | ud_pingpong_server_reorder_fast.cc:1370-1404 | with the cursor, the key erased one turn late and the restart, an iteration serves the first backlogged class after the one served last, wrapping round; with nothing waiting it forgets the position, and then the least class is next |
| PriorityServer.PriorityServer.ServeWeighted | ud_pingpong_server_reorder_fast.cc:1411-1438 | an iteration stays with its class while the counter is off the weight and there are requests, otherwise moves to the next backlogged class; the counter is counted in eight bits and cleared by a rotation only; with nothing waiting it forgets the position, and then the least class is next |
| PriorityServer.PriorityServer.AdvanceCursor | ud_pingpong_server_reorder_fast.cc:1384-1387 | moving the cursor on, over a key that may be stale, lands on the next backlogged class |
| PriorityServer.PriorityServer.EraseStale | ud_pingpong_server_reorder_fast.cc:1389-1391 | once the cursor has moved, the index is exactly the set of classes with requests |
| PriorityServer.PriorityServer.ChooseWeighted | ud_pingpong_server_reorder_fast.cc:1413-1418 | the branches choose the class that the policy prescribes, and say when the counter is cleared |
| Dispatch.NextClass | ud_pingpong_server_reorder_fast.cc:1383-1387 | the class chosen after another is the nearest above it, or the least of all if none is above |
| Dispatch.FifoWithinClass | ud_pingpong_server_reorder_fast.cc:1238-1258 | over any run in any mode, what a class has output followed by what it still holds is what it held at the start followed by what arrived: nothing lost, repeated or reordered |
| Dispatch.ServedInTurn | ud_pingpong_server_reorder_fast.cc:1350-1356 | the request at position k of a class is the k-th of that class to come out |
| Dispatch.ForgetsPosition | ud_pingpong_server_reorder_fast.cc:1383-1395 | once the loop has come round with nothing waiting, the next service is of the oldest request of the least class that has got any, whichever class was served last |
| Dispatch.RemembersPosition | ud_pingpong_server_reorder_fast.cc:1383-1387 | until it has, round robin goes on after the class served last |
| RoundRobin.StepCloser | ud_pingpong_server_reorder_fast.cc:1370-1404 | an iteration serves a given backlogged class or brings the cursor cyclically closer to it |
| RoundRobin.BoundedWait | ud_pingpong_server_reorder_fast.cc:1370-1404 | among any n iterations of n classes one serves a backlogged class, whatever arrives between them; the request at position k is out after (k+1)n |
| WeightedRoundRobin.BurstIsExact | ud_pingpong_server_reorder_fast.cc:1411-1438 | a contended class that has a request whenever the loop comes round, queued or just arrived, is served exactly until the eight-bit counter meets its weight, and then another class is |
| WeightedRoundRobin.RotatedBurstIsExact | ud_pingpong_server_reorder_fast.cc:1413-1437 | after a rotation a class that has a request whenever the loop comes round is served exactly its weight while another waits, and then another class is |
| WeightedRoundRobin.NewBurstIsExact | ud_pingpong_server_reorder_fast.cc:1413-1437 | the same for any class the server turns to: weight 0 gives 256, and a burst not begun by a rotation what the counter leaves |
| WeightedRoundRobin.BurstAfterIdle | ud_pingpong_server_reorder_fast.cc:1423-1426 | an idle iteration forgets the class but not the counter: the class then served gets exactly what the counter leaves of its weight |
| WeightedRoundRobin.RotatedBurst | ud_pingpong_server_reorder_fast.cc:1414-1418 | a burst begun by a rotation serves its class at most its weight while another waits |
| WeightedRoundRobin.AnyBurst | ud_pingpong_server_reorder_fast.cc:1411-1438 | any burst serves its class at most 256 times while another waits |
| WeightedRoundRobin.BurstPastWeight | ud_pingpong_server_reorder_fast.cc:1413-1416 | from the start there is a run in which a class is served 255 times while another waits, whatever its weight |
| WeightedRoundRobin.BurstWithinWeightIff | ud_pingpong_server_reorder_fast.cc:1413-1416 | in every run from the start a contended class has at most its weight of services left if and only if that is 255 |
| WeightedRoundRobin.StepUsesPatience | ud_pingpong_server_reorder_fast.cc:1411-1438 | an iteration serves a given backlogged class or uses up one of the services it may have to wait for |
| WeightedRoundRobin.BoundedWait | ud_pingpong_server_reorder_fast.cc:1411-1438 | with weights below 256 a backlogged class waits at most 256 plus the other classes' bursts; position k is out after k further rounds |
| WeightedRoundRobin.WideWeightStarves | ud_pingpong_server_reorder_fast.cc:1413-1416 | a class whose weight does not fit the counter keeps the server as long as it has a request whenever the loop comes round, whoever waits |
| WeightedRoundRobin.StarvedRun | ud_pingpong_server_reorder_fast.cc:1413-1416 | from the start there is, for every n, a run in which a class waits through n iterations |
| WeightedRoundRobin.WaitsBoundedIff | ud_pingpong_server_reorder_fast.cc:1411-1438 | over all runs from the start every class's wait is bounded if and only if every weight is below 256 |
| WeightedRoundRobin.WeightTable | ud_pingpong_server_reorder_fast.cc:337-347 | the loop with one running weight fills in 10 less the tenth a class lies in, in sixteen bits: the first tenth of the classes weighs 10, the tenth tenth 1 |
| WeightedRoundRobin.TableInRangeIff | ud_pingpong_server_reorder_fast.cc:337-347 | all weights lie within 1 to 10 if and only if the number of classes is a multiple of ten; otherwise class 10*(n/10) has weight 0 |
| WeightedRoundRobin.TableNarrowIff | ud_pingpong_server_reorder_fast.cc:337-347 | all weights of the table fit the counter if and only if n mod 10 is at most n / 10 |
| WeightedRoundRobin.TableBoundsWaitsIff | ud_pingpong_server_reorder_fast.cc:337-347 | with the program's table every class's wait is bounded if and only if n mod 10 is at most n / 10 |
| StrictDrain.DrainsInOrder | ud_pingpong_server_reorder_fast.cc:1330-1360 | with no arrivals, as many iterations as there are requests output them class by class and leave nothing |
| StrictDrain.DrainIsStableSort | ud_pingpong_server_reorder_fast.cc:1324-1360 | what the drain outputs is what was filed, stably sorted by class, in exactly as many iterations |
| InOrder.ArrivalRing.Push | ud_pingpong_server_reorder_fast.cc:1265-1272 | the ring appends to a FIFO, refusing exactly when it is full |
| InOrder.ArrivalRing.Pop | ud_pingpong_server_reorder_fast.cc:1444-1451 | the ring removes the oldest entry, refusing exactly when it is empty |
| InOrder.InOrderServer.File | ud_pingpong_server_reorder_fast.cc:1238-1273 | a request whose buffer was posted goes to the end of the ring and of its class; the full branch is not taken |
| InOrder.InOrderServer.Drop | ud_pingpong_server_reorder_fast.cc:1461-1486 | whatever class the scheduler picks, it takes one request off the lists' total exactly when there is one |
| InOrder.InOrderServer.Iterate | ud_pingpong_server_reorder_fast.cc:1457-1556 | in the three in-order modes with a scheduler an iteration serves the oldest arrival; ring and lists stay equally long, so the empty branch is not taken |
| InOrder.RingServer.File | ud_pingpong_server_reorder_fast.cc:1262-1273 | in the mode without a scheduler a request goes to the end of the ring, which is never full |
| InOrder.RingServer.Iterate | ud_pingpong_server_reorder_fast.cc:1440-1455 | in the mode without a scheduler an iteration serves the oldest arrival, if there is one |
| InOrder.RoomForOne | ud_pingpong_server_reorder_fast.cc:1265-1268 | entries that hold distinct buffers, none of them the one just received, leave a slot free |
| GlobalStrictOrder.LockKept | ud_pingpong_server_reorder_fast_12Q12Tglobalprio.cc:336-392 | every step keeps a thread inside the critical section if and only if it is its group's holder |
| GlobalStrictOrder.PopOk | ud_pingpong_server_reorder_fast_12Q12Tglobalprio.cc:370-388 | taking the front of the chosen list is the sequential queue's service, and leaves the index off by at most that class |
| GlobalStrictOrder.GroupStep | ud_pingpong_server_reorder_fast.cc:1242-1253 | every step of the holder keeps index, lists and history of the group in agreement, half-done updates included |
| GlobalStrictBuffers.GroupsAreLinearizable | ud_pingpong_server_reorder_fast.cc:1320-1365 | for any number of threads, in every reachable state a group's lists and the services it gave are those of the sequential strict priority queue fed its filings and services one at a time; with the lock free a class is indexed if and only if it has requests |
| GlobalStrictBuffers.GroupServesInTurn | ud_pingpong_server_reorder_fast.cc:1320-1365 | each class of a group is served first come, first served across threads |
| GlobalStrictBuffers.LockIsSafe | ud_pingpong_server_reorder_fast.cc:1320-1365 | two threads of a group are never both in the critical section, the assertion never fails, and some thread of the group can always move |
| GlobalStrictBuffers.MoveKeeps | ud_pingpong_server_reorder_fast_12Q12Tglobalprio.cc:286-444 | no step of a thread makes or loses a buffer |
| GlobalStrictBuffers.BuffersAreConserved | ud_pingpong_server_reorder_fast.cc:1697-1700 | in every reachable state posted receives, completions, polled batches, requests in hand, lists, and reposts that found the receive queue full hold each buffer exactly once between them |
| GlobalStrictBuffers.ServiceReadsItsRequest | ud_pingpong_server_reorder_fast.cc:1622 | the class read again from the buffer at service is the one the request was filed under, and the sender the one answered |
| GlobalStrictMessages.ReadsWrittenPriority | ud_pingpong_server_reorder_fast.cc:1239 | the two bytes that the client writes for a priority below 65536 are read as that priority |
| GlobalStrictMessages.ServedUnderWrittenPriority | ud_pingpong_server_reorder_fast.cc:1622 | in every reachable state a request at service is served under the priority that its client wrote, and the sender answered is its own |
| GlobalStrictThreads.FiledInOrderOfArrival | ud_pingpong_server_reorder_fast_12Q12Tglobalprio.cc:298-357 | over every run, the requests that arrive at a queue pair polled by one thread are filed in order of arrival, each once |
| GlobalStrictThreads.FilesWhatItPolls | ud_pingpong_server_reorder_fast_12Q12Tglobalprio.cc:307-357 | any thread files the requests it polls, each once and in that order |
| GlobalStrictThreads.AnsweredInOrder | ud_pingpong_server_reorder_fast_12Q12Tglobalprio.cc:421-429 | over every run, a thread answers the requests it took from the lists, each once, in order and to its sender |
| GlobalStrictProgress.RoundServes | ud_pingpong_server_reorder_fast.cc:1319-1365 | every run of a thread alone, from its poll round to its poll, serves the oldest request of the least class in its group's lists, whichever thread filed it |
| GlobalStrictProgress.GroupDrains | ud_pingpong_server_reorder_fast.cc:1319-1365 | from every reachable state with the lock free, a thread alone drains its group with one service for each request, in the order of a stable sort by class |
| GlobalStrictProgress.ServesOthersIff | ud_pingpong_server_reorder_fast_12Q12Tglobalprio.cc:303-304 | a thread with nothing to poll can serve what others have filed if and only if it does not repeat empty polls |
| GlobalStrictGroups.BuffersStayInGroup | ud_pingpong_server_reorder_fast_12Q12Tglobalprio.cc:421-429 | buffers never leave the group whose threads poll their queue pair: what a queue pair's two queues hold are that group's buffers, each once |
| GlobalStrictGroups.NothingLost | ServerRDMAConnection.cc:219 | when a group's buffers fit one receive queue every repost of its threads succeeds |
| GlobalStrictLimits.OneMoves | ud_pingpong_server_reorder_fast_12Q12Tglobalprio.cc:421-429 | from a calm state there is a run in which another queue pair's buffer is reposted at the serving thread's own, or lost if that is full |
| GlobalStrictLimits.RepostsFitIff | ServerRDMAConnection.cc:219 | every repost at a queue pair succeeds in every run if and only if its receive queue has room for all buffers of its group |
| GlobalStrictQueues.CrowdStep | ud_pingpong_server_reorder_fast_12Q12Tglobalprio.cc:298-431 | where polls empty the CQ, every step keeps its send completions at most as many as its threads about to poll |
| GlobalStrictQueues.CompletionQueueFitsIff | ServerRDMAConnection.cc:190-209 | given that reposts succeed and polls empty it, a CQ suffices in every run if and only if it has room for all buffers of its group and a send completion of each thread that polls it |
| GlobalStrictQueues.AllocatedDepthIff | ServerRDMAConnection.cc:190 | for n queue pairs of k buffers in the group and depth 2k+1 that means n = 1 with at most k+1 threads, or n = 2 with one thread |
| GlobalStrictQueues.TallyStep | ud_pingpong_server_reorder_fast_12Q12Tglobalprio.cc:397-429 | with one thread at a queue pair, or every send signalled, each step keeps the completion of every signalled send not reclaimed in the CQ |
| GlobalStrictQueues.NeverSignalled | ud_pingpong_server_reorder_fast_12Q12Tglobalprio.cc:397-429 | with two threads at a queue pair and an interval above 1 some run posts any number of sends, none of them signalled |
| GlobalStrictQueues.SendQueueFitsIff | ServerRDMAConnection.cc:218 | with the signalling by count, a send queue suffices in every run if and only if the queue pair has one thread and the queue an interval of slots, or every send is signalled and it has a slot for each thread |
| Pipeline.SignalledApart | ud_pingpong_server_reorder_fast.cc:1700 | two signalled sends are at least the interval apart, or 2^32 modulo the interval where it does not divide 2^32 |
| Pipeline.FewSends | ud_pingpong_server_reorder_fast.cc:1205-1216 | completions reached in order with at most b receives ahead of the first send completion hold at most 1 + b/gap send completions |
| EchoServer.InvSend | ud_pingpong_server.cc:332-336 | sending a response keeps the account of buffers, of marked sends and of how late their completions are reached |
| EchoServer.InvServe | ud_pingpong_server_reorder_fast.cc:1330-1360 | taking any filed receive into service keeps that account, completions being late by the receives handled, not served |
| EchoOrder.ServedInOrderOfArrival | ud_pingpong_server.cc:235-352 | over every run in order of arrival the receives served, followed by those waiting, are those that arrived, each once and in that order |
| EchoServer.QueuesNeverOverflow | ServerRDMAConnection.cc:190-218 | whatever the order of service, by arrival or by class, in every reachable state at most interval + buffers sends are unreclaimed, and the CQ holds at most the buffers in receives, 1 + buffers/gap send completions and 2*buffers+1 in all |
| EchoTightness.BoundsAreReached | ud_pingpong_server.cc:332-336 | some run fills the send queue to interval + buffers while the CQ holds every buffer and one completion for each interval of sends |
| EchoTightness.SendQueueFitsIff | ServerRDMAConnection.cc:218 | in either order of service a send queue suffices in every run if and only if it is at least interval + buffers deep |
| EchoCompletions.MostMarks | ud_pingpong_server.cc:332-336 | of the b sends after a signalled one at most 1 + (b - gap)/interval are signalled, and none if b is below the gap, the wrap of the counter included |
| EchoCompletions.CompletionQueueFitsIff | ServerRDMAConnection.cc:190 | for any interval and either order of service, a CQ suffices in every run if and only if it has room for every buffer, a send completion, and the most that as many sends as there are buffers can add; that is buffers/interval where the interval divides 2^32 |
| EchoTightness.PriorityServerIntervalFits | ud_pingpong_server_reorder_fast.cc:318-319 | that server's interval is positive if and only if 16 slots are spare; then, in whatever order it serves its classes, the send queue suffices in every run if and only if it is at least interval + buffers deep, as it is with that many receives |
| EchoTightness.EchoServerIntervalFits | ud_pingpong_server.cc:151 | that server's interval is positive if and only if the spare slots are no multiple of 65536; then it never overflows the send queue, and with fewer spare slots some run uses it to the last |
| EchoTightness.DocumentedIntervalIsZero | README.md:46-47 | with the documented depth and number of buffers, 64 and 64, the interval is 0 |
| EchoTightness.PriorityServerIntervalIs | ud_pingpong_server_reorder_fast.cc:318-319 | the priority server's interval is a sixteenth of the spare slots, or half of what is missing, rounded down |
| EchoTightness.EchoServerIntervalIs | ud_pingpong_server.cc:151 | the echo server's interval is the spare slots modulo 65536 |
| EchoConnection.EchoConnection.constructor | ServerRDMAConnection.cc:606-625 | a connection starts with exactly the buffers between its two sixteen-bit bounds posted and counted, which are its own block if its end fits them |
| EchoConnection.EchoConnection.PollCq | ud_pingpong_server_reorder_fast.cc:1066 | a poll takes the oldest completions and frees the sends they report |
| EchoConnection.EchoConnection.PostSend | ServerRDMAConnection.cc:490-515 | a post fails exactly when the send queue is full, and reports a completion only when signalled |
| EchoConnection.EchoConnection.HandleHead | ud_pingpong_server.cc:255-352 | a completion is handled as the protocol's take, repost and send, the response going from its buffer to its sender; the post succeeds and the receives outstanding are restored |
| EchoConnection.EchoConnection.HandleBatch | ud_pingpong_server.cc:235-352 | the loop over a batch is that, once for each completion in order: one response to the sender of each receive |
| EchoConnection.HandlingIsARun | ud_pingpong_server.cc:235-352 | so the loop's states are reachable ones, and the bounds hold for it |
| EchoConnection.BlocksCoverIff | ServerRDMAConnection.cc:606-611 | the blocks posted by all connections cover every buffer if and only if there are at most 65535 |
| Notification.KeepsQueueInv | ud_pingpong_server_reorder_fast.cc:1765-1853 | every step at a queue (arrival, scan, clear, stash test, poll, repost, send, look-ahead) keeps buffers, completions, stash and byte in agreement |
| Notification.OneCompletion | ud_pingpong_server_reorder_fast.cc:1770-1777 | with signalled sends further apart than there are buffers a CQ holds at most one send completion, so two tries of the look-ahead suffice |
| Notification.NotificationIsSound | ud_pingpong_server_reorder_fast.cc:1765-1853 | in every reachable state requests have been served at most once and in order, what is not served is in the stash or the CQ, between iterations the byte is set if and only if a request waits, and a poll after the scan finds one within two tries |
| Notification.QuietMeansServed | ud_pingpong_server_reorder_fast.cc:578-627 | when no byte is set between iterations, every request that has arrived has been served, each once and in order |
| NotificationLimits.ServedTwice | ud_pingpong_server_reorder_fast.cc:1770-1853 | with as many buffers as the gap between signalled sends some run serves a request more often than it arrived |
| NotificationLimits.SoundIff | ud_pingpong_server_reorder_fast.cc:318 | the protocol is sound in every run if and only if every queue has fewer buffers than the gap |
| NotificationServer.NotificationServer.PollForRequest | ud_pingpong_server_reorder_fast.cc:1014-1070 | polling one completion at a time ends with the oldest request in the CQ, its buffer and its sender |
| NotificationServer.NotificationServer.TakeStash | ud_pingpong_server_reorder_fast.cc:613-622 | a request is taken from the stash exactly when both its parts are there |
| NotificationServer.NotificationServer.LookOnce | ud_pingpong_server_reorder_fast.cc:1770-1852 | a try of the look-ahead stashes a request and sets the byte, empties the stash, or passes over a send completion |
| NotificationServer.NotificationServer.Iterate | ud_pingpong_server_reorder_fast.cc:578-627 | an iteration serves the first queue whose byte is set exactly as the protocol says and leaves the others alone: the request stashed or the oldest in the queue, one response, to its sender; it finds work if and only if some byte is set |
| NotificationServer.FinishIsARun | ud_pingpong_server_reorder_fast.cc:1765-1853 | an iteration in which a request waits is a run of the protocol to its end |
| NotificationServer.FinishServes | ud_pingpong_server_reorder_fast.cc:1602-1700 | an iteration serves exactly the request stashed, or the oldest in the queue, and reposts its buffer |
| NotificationServer.IterationIsARun | ud_pingpong_server_reorder_fast.cc:578-627 | between iterations a set byte means that a request waits, so what holds of every run holds of the loop with any arrivals between iterations |
| Words.SwappedLoad | ud_pingpong_server_reorder_fast.cc:582 | loading eight bytes and swapping them reads them in reverse |
| Words.LzcntOfSwapped | ud_pingpong_server_reorder_fast.cc:582-607 | leading zeros of the swapped word, divided by eight, count the zero bytes before the first that is set |
| Words.LzcntOfLoad | ud_pingpong_server_reorder_fast.cc:660-683 | leading zeros of a plain word, divided by eight, count the zero bytes after the last that is set |
| WordScan.FindByLzcnt | ud_pingpong_server_reorder_fast.cc:580-627 | the scan by words returns the first byte that is set, or none if none is |
| WordScan.FindByLanes | ud_pingpong_server_reorder_fast.cc:643-718 | the scan by 512 or 256 bits returns the first queue whose byte, kept at its number with the low three bits inverted, is set |
| WordScan.FindByBsr | ud_pingpong_server_reorder_fast.cc:823-894 | the bsr variant returns a queue whose byte is set: the first within the highest word in use of the first block of 64 in use |
| WordScan.WordsAreExactIff | ud_pingpong_server_reorder_fast.cc:580 | the word scan never reports a byte beyond the queues if and only if their number is a multiple of eight |
| WordScan.FlipTwice | ud_pingpong_server_reorder_fast.cc:641-694 | keeping queue n's byte at n ^ 7 can be undone by the same operation |
| Bits.XorSeven | ud_pingpong_server_reorder_fast.cc:641-694 | exclusive-or with 7 inverts the place within a group of eight |
| WordScan.ScansAgree | avx512.cpp:199-300 | where one byte is set all scans lead to it |
| TokenRing.Find | avx512.cpp:199-300 | each of the three scans finds the token |
| TokenRing.Circulate | avx512.cpp:195-302 | after n iterations exactly byte n modulo 256 is set, and the last scan found the one before |
| StrictPoll.PollsIff | ud_pingpong_server_reorder_fast.cc:1155-1159 | an idle scale-out thread polls a queue if and only if it is congruent to the thread's number and not in an incomplete last row; with more threads than queues, if it is the thread's number or where the thread starts |
| StrictPoll.VisitIs | ud_pingpong_server_reorder_fast.cc:1155-1159 | its n-th poll is of its queue n modulo their number, in increasing order with wrap; with more threads than queues it stays at its own number after the first |
| StrictPoll.AllPolledIff | ud_pingpong_server_reorder_fast.cc:1155-1159 | every queue is polled if and only if the number of threads divides theirs or exceeds it |
| StrictPoll.DisjointIff | ud_pingpong_server_reorder_fast.cc:1155-1159 | no queue is polled by two threads, and every offset names a queue, if and only if there are no more threads than queues |
| StrictPoll.PartitionIff | ud_pingpong_server_reorder_fast.cc:1155-1159 | each queue is polled by exactly one thread if and only if the number of threads divides theirs |
| StrictPoll.ScaleUpIsOneThread | ud_pingpong_server_reorder_fast.cc:1174-1178 | the scale-up layout moves on as a single scale-out thread would |
| StrictPoll.StrictPoller.PollOnce | ud_pingpong_server_reorder_fast.cc:1153-1289 | a poll takes one completion; an empty one moves on, a request starts over, a send completion stays |
| StrictPoll.StrictPoller.ScanUntilReceived | ud_pingpong_server_reorder_fast.cc:1153-1289 | a scan without arrivals serves the oldest request of the lowest of the thread's queues that hold any: only send completions came before it; it empties the queues before that one and touches no other |
| ClosedLoop.Messages | ud_pingpong_client_works_closed_loop.cc:696-868 | every step changes the messages under way or lost by exactly what a client sends or receives |
| ClosedLoop.InvStep | ud_pingpong_client_works_closed_loop.cc:696-868 | every step keeps each client's credits equal to its window and each server's receives equal to its buffers |
| ClosedLoopCredit.ClosedLoopNeverDrops | README.md:49 | whether requests rotate or go anywhere, if each queue pair has a buffer for every request that can be there at once, then in every reachable state nothing has been lost, requests on their way to a queue pair are at most its posted receives, and responses on their way to a client at most its own |
| ClosedLoopCredit.WindowsFit | README.md:49 | that is so, whatever the routing, if the windows add up to at most each queue pair's buffers |
| ClosedLoopCredit.WithinShare | ud_pingpong_client_works_closed_loop.cc:747-751 | a rotating client has at most a window of requests at a queue pair it keeps coming back to, one where it only started, and none elsewhere |
| ClosedLoopCredit.QuiescenceBalances | ud_pingpong_client_works_closed_loop.cc:766-868 | at rest a client has received what it sent, short of what was lost |
| ClosedLoopOrder.AnsweredInOrder | ud_pingpong_server.cc:235-352 | each server's answers, followed by the requests still there, are the requests that reached it, in that order |
| ClosedLoopCredit.NeverStalls | ud_pingpong_client_works_closed_loop.cc:766-868 | while a client has a credit it has not retired, something other than retiring credits can happen |
| ClosedLoopLimits.NeverDropsIff | ud_pingpong_client_works_closed_loop.cc:747-751 | for clients in rotation, and for clients that send anywhere, no run loses a message if and only if every queue pair has a buffer for every request that can be there at once |
| ClosedLoopLimits.NeverDropsEvenlyIff | README.md:49 | with a power of two of server threads in rotation, or with random targets, that is a buffer for each credit at every queue pair |
| ClosedLoopLimits.Herd | ud_pingpong_client_works_closed_loop.cc:857-862 | a rotating client's requests can all pile up at a slow server that it keeps coming back to |
| ClosedLoopClient.LoadingThread.Begin | ud_pingpong_client_works_closed_loop.cc:696-755 | the thread posts the receives numBufs to numBufs + window - 1, each once, and sends a window of requests, one from each buffer |
| ClosedLoopClient.LoadingThread.HandleReceive | ud_pingpong_client_works_closed_loop.cc:796-864 | a response reposts its receive and, until enough sends have completed, sends again from the matching buffer |
| ClosedLoopClient.LoadingThread.HandleBatch | ud_pingpong_client_works_closed_loop.cc:782-868 | over a batch every receive it names is reposted, each response handled while fewer than iters sends have completed is answered with a request from the matching buffer, in order, and the others retire a credit; request k goes where the rotation stands after k |
| ClosedLoopClient.HandledIsARun | ud_pingpong_client_works_closed_loop.cc:796-864 | handling a response is a run of the composed system, the request going where the routing says |
| RoundRobinTargets.CountsModulo | ud_pingpong_client_works_closed_loop.cc:747-751 | for a power of two of server threads the n-th request goes to the start plus n, modulo their number |
| RoundRobinTargets.RotateInBlock | ud_pingpong_client_works_closed_loop.cc:747 | the mask takes an offset to the next in its block, the size of the block being the largest power of two that divides the number of threads |
| RoundRobinTargets.VisitsIff | ud_pingpong_client_works_closed_loop.cc:747-751 | a client comes back to a server thread again and again if and only if it lies in the block of its second target; any other it visits at most with its first request |
| RoundRobinTargets.ReachesAllIff | ud_pingpong_client_works_closed_loop.cc:857-862 | the rotation comes round to every server thread if and only if their number is a power of two |
| OpenLoop.FlowControlHolds | ud_pingpong_client.cc:829-844 | under every interleaving of sender and poller at most rx_depth sends are outstanding, no post finds the queue full, and the unsigned difference compared has not wrapped |
| OpenLoop.InTurnStep | ud_pingpong_client.cc:957-966 | every step keeps the sends in flight to consecutive buffers, oldest first |
| OpenLoop.SlotsAreSafeIff | ud_pingpong_client.cc:829-966 | no buffer is filled while its send is in flight, in any run, if and only if window_size is at least rx_depth |
| OpenLoop.BoundIsReached | ud_pingpong_client.cc:829-844 | some run has rx_depth sends outstanding |
| OpenLoop.SendsIff | ud_pingpong_client.cc:829-844 | in every reachable state the sender goes on to fill and post its next buffer if and only if fewer than rx_depth sends are outstanding |
| OpenLoop.AnyNumber | ud_pingpong_client.cc:957-966 | any number of sends can be posted, completed and counted |
| PriorityTable.Fill | ud_pingpong_client.cc:509-523 | the loop gives each entry the next class of the group its coin chose; the PCR table is the same with x replaced by N-1-x |
| PriorityTable.InRangeIff | ud_pingpong_client.cc:505-523 | every entry of either table names a class for every coin sequence if and only if there are hot classes and cold ones |
| PriorityTable.EnoughPriorities | ud_pingpong_client.cc:505-555 | for a fifth of the classes hot that takes five classes, for twenty hot classes twenty-one |
| PriorityTable.CountIsShare | ud_pingpong_client.cc:509-523 | after any prefix a class has been named exactly its share of its group's entries |
| PriorityTable.CountMirrored | ud_pingpong_client.cc:609-631 | the mirrored table names a class as often as the plain one names its mirror image |
| PriorityTable.Balanced | ud_pingpong_client.cc:609-631 | after any prefix of either table two classes of a group have been named equally often, give or take one |
| Payload.FillRequest | ud_pingpong_client.cc:851-878 | bytes 12 and 13 carry the priority and 0 and 1 the service time in units of 16, high byte first, modulo 65536 of them; they decode to these, and the message does not read as a request to stop |
| Payload.Echo | ud_pingpong_server_reorder_fast.cc:1686 | the copied bytes are the received message's, the rest of the send buffer stays |
| Payload.RoundTrip | ud_pingpong_client.cc:1150 | through encoding, the server's decoding, the echo of 20 or 19 bytes and the client's decoding every 16-bit priority comes back, and the server's sleep is 16*((t/16) mod 65536) |
| Payload.FillStop | ud_pingpong_client.cc:1330-1334 | the last message carries 255 in bytes 2 and 3 and reads as a request to stop |
| Payload.StopTrip | ud_pingpong_server_reorder_fast.cc:1627-1629 | delivered, that message stops the server |
| Payload.SleepIsCloseIff | ud_pingpong_server_reorder_fast.cc:1671 | the sleep is within 15 below the service time if and only if that is below 2^20 |

## Left out

- Setting up and tearing down devices, protection domains, memory regions, queue pairs and address
  handles, and their state transitions: calls into libibverbs.
- Sockets, the command line, CPU affinity, signal handlers, printing and result files.
- Clocks, cycle counters, sleeping, and latency and throughput statistics; `souts` of the open-loop
  client and the idle-poll counters, which only feed statistics.
- Random sources: service times, arrival times and the coins of the priority tables are arbitrary
  inputs.
- `ud_pingpong_middle.cc`, which forwards.
- The shared CQ and shared receive queue variants, and the mode marked ideal.
- What follows the message that ends a run: that it stops the server is in `Payload`, but the loops here go on.
- `numAllocatedBytes` in `rdma_uc.cc`: the byte vector is taken to be as long as the scans read.
- The priority decode of one byte in `ud_pingpong_server_reorder_fast_12Q12Tglobalprio.cc:334`; the
  16-bit decode is modelled for both files. Its `continue` on an empty poll is the mode `again`.
- Classes above 0x8000, which the `int16_t` holding the class served last cannot represent, and
  classes at or above `numberOfPriorities`, which index past the lists.
- The ring of the in-order modes starts with head and tail equal; the source leaves both
  uninitialised.
- In `Notification` an arrival appends to the CQ and sets the byte in one step, and a sender's queue
  pair number is not 0, as the stash reads 0 as empty.
- PriorityServer.PriorityServer.constructor: takes at most 0x8000 classes, because the class served last is held in sixteen signed bits.
- WeightedRoundRobin.WeightTable: needs ten classes, because with fewer the source divides by zero.
- NotificationServer.NotificationServer.Iterate: no request arrives during the iteration; arrivals between its steps are in `Notification`, of which it is a run.
- EchoServer.QueuesNeverOverflow: is about queue pairs that repost their own buffers; for migrating buffers see `GlobalStrictQueues`.
- EchoCompletions.CompletionQueueFitsIff: interval and buffers together stay below 2^32, so that a run crosses the counter's wrap once at most in that many sends.
- EchoConnection.EchoConnection.constructor: takes an interval that leaves room in the send queue for a send of each buffer; with less a post can fail, as `EchoTightness.SendQueueFitsIff` says.
- GlobalStrictQueues.CompletionQueueFitsIff: is about groups whose buffers fit one receive queue, since with more reposts fail, and about polls that can take a completion for every buffer of the group and every thread of the queue pair. The source polls for twice as many as there are buffers, so that is so with no more threads at a queue pair than there are buffers.
- GlobalStrictQueues.SendQueueFitsIff: assumes the same of polls and that depth + 2 is below 2^32; threads that lose increments of the shared count are the signalling `AnyTime`, about which it says nothing.
- GlobalStrictBuffers.GroupsAreLinearizable: the lock is taken in one step and memory is sequentially consistent.
- The end of a closed-loop run: a client stops sending once `scnt` reaches `iters`, which is taken as large enough for the runs that lose a message.
- Inline sends: `ClientRDMAConnection.cc:57` makes a post copy the payload, so that in this build a buffer filled while its send is in flight does no harm; `OpenLoop` says when that happens.
- OpenLoop.SlotsAreSafeIff: does not model the sixteen bits of the sender's buffer counter, so it is about windows up to 65536.
- ClosedLoop.InvStep: sends are posted successfully, and the client's own send queue is not modelled.
