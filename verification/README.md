# KENSv3 in Dafny

KENSv3 is a discrete-event network simulator. This project models the engine under its
assignments and proves what the engine promises, for every behaviour of the modules,
applications and threads that run on it:

- **Event scheduler** (`Scheduler`, `Cancellation`, `EventSystem`): the timer queue ordered by (wakeup,
  uuid), its two indexes, lazy cancellation, and `run(till)`. A handler is an arbitrary
  finite list of sends and cancellations.
- **Thread handoff** (`Handoff`): `Runnable`'s mutex and condition variable as interleaved
  steps with spurious wakeups.
- **Host** (`HostModel`, `HostLedger`, `HostSteps`, `HostRuns`, `HostObject`, `Allocators`): processes, descriptors,
  blocking system calls, `cleanUp`, and the id allocators.
- **Queueing network** (`LinkPort`, `LinkNetwork`, `LinkTheorems`, `LinkHandover`,
  `LinkEviction`, `LinkObject`, `Wire`, `WireNetwork`): the event-driven Link, run inside the scheduler,
  against the Wire's arithmetic, and the Wire run there itself.
- **Checksums and headers** (`Checksum`, `Stack`), **lookup** (`Routing`) and the **switch**
  (`Switch`).

State machines are given as values, so that theorems can speak of whole runs; each is
accompanied by a class with the source's fields and loops whose methods are proved against
it. `dafny verify dfyconfig.toml` checks everything.

## Findings

- A queue limit of 1 breaks the Link: the eviction empties the queue, the next push sets a
  second CHECK_QUEUE, and the later one meets an empty queue and a failing assert
  (`LinkTheorems.LimitOneFails`). The Link is safe in all its runs if and only if the limit, fixed during the run, is not 1
  (`LinkTheorems.SafeIffLimitNotOne`).
- `cancelMessage` answers true for the message being handled at that moment, although that
  message is received; the documentation in `include/E/E_Module.hpp` says the result tells
  whether the cancellation succeeded (`Cancellation.TrueForTheMessageHandled`). A true answer
  is kept if and only if the message was queued at the call or cancelled before
  (`Cancellation.TrueAnswerIsHonouredIffQueued`); otherwise the call changes nothing
  (`Cancellation.LateCancelIsVoid`).
- `Host::cleanUp` leaves a process blocked if and only if its call is still on its way or was
  dropped because no interface serves its namespace (`HostRuns.BlockedAfterCleanUp`); both
  happen (`HostRuns.CleanUpCanMissACallInFlight`, `HostModel.CleanUpCanLeaveAProcessBlocked`).
- The corruption added by an unreliable switch is always caught by TCP in frames of 54 to 57
  bytes, is not always caught in longer ones, never happens to frames below 54 bytes, and is
  never seen by IPv4 (`Checksum.ShortDamageIsDetected`, `Checksum.LongDamage`,
  `Checksum.LongDamageCanBeInvisible`, `Switch.DamageIsInvisibleToIPv4`).
- IPv4's length field is exact only up to packets of 65549 bytes, but the round trip through
  the stack does not depend on it (`Stack.LengthField`, `Stack.RoundTrip`).

## Model

| member | source | states |
|---|---|---|
| Scheduler.DispatchOrder | include/E/E_System.hpp:49-57 | over every run, messages are handled in strictly increasing (wakeup, id) order: time never goes back and equal times keep sending order |
| Scheduler.ExactlyOnce | src/E/E_System.cpp:33-54 | between any two effects of any run, inside handlers too, an issued id is either queued or was popped exactly once, unchanged and at its send time plus delay |
| Cancellation.CancelIsFinal | src/E/E_System.cpp:145-161 | wherever in a turn a cancellation finds the message queued, by a woken thread or in the middle of a handler, in every continuation the message is never received and goes back to its sender exactly once, at its original time |
| Cancellation.WithdrawnIsFinal | src/E/E_System.cpp:145-161 | the same at every point of every run, for a cancellation made anywhere before it |
| Cancellation.ReceivedIffNeverHit | src/E/E_System.cpp:146-158 | a handled message was received if and only if no cancellation of the whole run found it queued |
| Cancellation.LateCancelIsVoid | src/E/E_System.cpp:69-76 | cancelling what is not queued leaves every later state and trace as they would have been |
| Cancellation.AnswerFromTrace | src/E/E_System.cpp:69-76 | at every point of every run cancelMessage answers true exactly for a message that was sent and not yet completed, as log and trace show |
| Cancellation.TrueForTheMessageHandled | src/E/E_System.cpp:69-76 | in every run, all through the handling of a message that is not cancelled, cancelMessage answers true for it and the message is received |
| Cancellation.TrueAtHeadMeansQueued | src/E/E_System.cpp:69-76 | a woken thread gets a true answer exactly for a queued message |
| Cancellation.TrueAnswerIsHonouredIffQueued | src/E/E_System.cpp:69-76 | a true answer given to a handler is kept, in every continuation, if and only if the message was queued at the call or cancelled before |
| Scheduler.FifoDelivery | include/E/E_System.hpp:51-56 | at every point of every run, of two messages the one sent first and due no later was handled first |
| Scheduler.HorizonReached | src/E/E_System.cpp:92-112 | once an exit condition of the loop holds, everything ever sent and due by `till` (everything, if `till` is 0) was handled exactly once |
| Scheduler.ClockIsLastPopped | src/E/E_System.cpp:142-142 | at every point of every run the clock shows the time of the last message popped |
| Scheduler.RunKeepsInv | src/E/E_System.cpp:78-165 | any continuation keeps the scheduler's invariant, appends one trace entry a turn and never rewrites the trace or takes back a cancellation |
| EventSystem.System.AllocateUUID | src/E/E_System.cpp:45-54 | the next id is never active, so the failing assert is unreachable |
| EventSystem.System.SendMessage | src/E/E_System.cpp:33-44 | queue and both indexes gain one message due at now plus delay; the rest of the state is unchanged |
| EventSystem.System.CancelMessage | src/E/E_System.cpp:69-76 | marks exactly that message; the answer is the one that log and trace determine |
| EventSystem.System.PlaceOf | include/E/E_System.hpp:66-68 | the new container's place: everything before it precedes it, it precedes everything after |
| EventSystem.System.HandleTop | src/E/E_System.cpp:114-163 | the least message is popped, the clock moves to it, its handlers act, it leaves both indexes |
| EventSystem.System.Run | src/E/E_System.cpp:78-165 | every pass is a possible turn in which threads and handlers do what the script says; when the loop stops nothing due by `till` is queued; the clock does not pass `till` |
| EventSystem.System.SameIds | src/E/E_System.cpp:142-162 | between dispatches the queue, activeTimer and activeUUID hold the same ids |
| EventSystem.Simulate | src/E/E_System.cpp:78-165 | a simulation that stops by itself has handled every message due by `till` (all of them if `till` is 0) exactly once, and its clock shows the last one |
| Handoff.StepKeepsInv | src/E/E_System.cpp:176-222 | every interleaved step keeps: the mutex owner is decided by the two program counters, and each thread state fixes where both parties can be |
| Handoff.MutualExclusion | src/E/E_System.cpp:167-222 | in every reachable configuration at most one party runs, every assert reached holds, and between calls the thread can do nothing |
| Handoff.NoLostWakeup | src/E/E_System.cpp:179-215 | nobody sleeps on a condition already true except while the other party is about to notify, although ready() never notifies |
| Handoff.CallEnds | src/E/E_System.cpp:199-216 | start() and wake() never deadlock and end within 30 steps plus two for each spurious wakeup; start() ends READY, wake() WAITING or TERMINATED |
| Handoff.ReadyCanBeWoken | src/E/E_System.cpp:217-222 | ready() makes a waiting thread READY without moving it, and wake() may then be called |
| Handoff.WakeRunsTheThreadOnce | src/E/E_System.cpp:183-216 | a wake() that returns has let the thread run exactly once, up to a wait (WAITING) or to the end of main() (TERMINATED) |
| HostModel.AssertsNeverFail | src/Networking/E_Host.cpp:74-163 | under the invariant every assert of the handlers, of ready() and of addRunnable holds |
| HostModel.StepKeepsInv | src/Networking/E_Host.cpp:74-166 | every event keeps: at most one outstanding call a process, and only while its thread waits |
| HostModel.OneOutstandingCall | src/Networking/E_Host.cpp:319-338 | the same in every reachable state of every run, together with the asserts of whatever comes next |
| HostSteps.RegisteredThenLaunched | src/Networking/E_Host.cpp:374-403 | a registered process has no descriptors and can be launched, a launched one is READY and in the ready set; no other process changes |
| HostSteps.PidComesBackLast | src/Networking/E_Host.cpp:375-391 | the search begins behind the last pid given out: a pid comes back only if every other is in use |
| HostSteps.ThreadRan | src/Networking/E_Host.cpp:409-440 | a woken thread waits or has ended, keeps its descriptors and leaves exactly one message, its call or its return value; nothing else changes |
| HostSteps.RouteIs | src/Networking/E_Host.cpp:82-118 | a call goes to the socket's namespace, to the one its descriptor was created with, or to (0, 0) |
| HostSteps.TimeOfDayAnswered | src/Networking/E_Host.cpp:211-226 | answered at once with 0, or -22 for a timezone; the table and all other processes are as before |
| HostSteps.OtherCallEntered | src/Networking/E_Host.cpp:120-140 | any other call with an interface stays in the table under a new id, and nothing else changes |
| HostSteps.ReturnRemovesProcess | src/Networking/E_Host.cpp:144-156 | a delivered return removes its process, and it alone, from both tables |
| HostSteps.InTableIffRegisteredSinceReturn | src/Networking/E_Host.cpp:144-156 | over every run a pid is in the process table if and only if it was registered after its last delivered return |
| HostSteps.MessagesAreGenuine | src/Networking/E_Host.cpp:311-317 | over every run a call in flight is one its process made, and a return carries the value its main() gave |
| HostRuns.BlockedAfterCleanUp | src/Networking/E_Host.cpp:34-48 | after every run cleanUp leaves a process blocked if and only if its call is still in flight or was dropped earlier in the run for want of an interface |
| HostRuns.CleanUpWakesEverybody | src/Networking/E_Host.cpp:34-48 | if every namespace used has an interface, cleanUp leaves nobody blocked if and only if no call is in flight |
| HostRuns.StuckRun | src/Networking/E_Host.cpp:117-140 | in every run exactly the processes whose call was dropped wait with nothing in flight or in the table for them, and nothing ever frees them |
| HostRuns.CleanUpCanMissACallInFlight | src/Networking/E_Host.cpp:34-48 | a run after which cleanUp leaves a process blocked whose call is on its way |
| HostModel.CleanUpCanLeaveAProcessBlocked | src/Networking/E_Host.cpp:117-140 | a run after which cleanUp leaves a process blocked with nothing pending for it |
| HostRuns.SleepEndsWithZero | src/Networking/E_Host.cpp:198-210 | whatever happens between a sleep and its timer: if the call is still open the timer makes exactly the sleeper ready with 0, if it was answered the timer changes nothing |
| HostModel.Entry | src/Networking/E_Host.cpp:105-110 | a descriptor has a namespace exactly if the process holds it, and then its own |
| HostLedger.CallLifecycle | src/Networking/E_Host.cpp:319-338 | over every run a call is in the table or answered, its issuer sees no value but the answer, and until it has seen it is READY with it |
| HostLedger.AnsweredCallIsClosed | src/Networking/E_Host.cpp:319-326 | an answered call keeps its record in every continuation, its id never names another call, and a stale return for it changes nothing |
| HostObject.Host.constructor | src/Networking/E_Host.cpp:25-28 | a new Host runs, has no process, and serves the built-in namespace |
| HostObject.Host.RegisterProcess | src/Networking/E_Host.cpp:374-395 | the first free pid in cyclic order; fails, changing nothing, exactly when all are taken |
| HostObject.Host.LaunchApplication | src/Networking/E_Host.cpp:397-403 | the created thread becomes READY and joins the ready set |
| HostObject.Host.WakeThread | src/Networking/E_Host.cpp:431-440 | a woken thread blocks with one in-flight call and -1 stored, or ends with one in-flight return |
| HostObject.Host.DrainReady | src/E/E_System.cpp:82-91 | the loop ends with no thread READY; exactly the ready threads ran, each as planned, and their messages are in flight |
| HostObject.Host.ReturnSystemCall | src/Networking/E_Host.cpp:319-338 | an unknown id changes nothing; a known one wakes its process with the value and leaves the table |
| HostObject.Host.EnterTable | src/Networking/E_Host.cpp:122-131 | the scan takes its first candidate, so ids are issued in order, and the assert after it holds |
| HostObject.Host.HandleSyscallMessage | src/Networking/E_Host.cpp:74-140 | routes a call by number or descriptor, enters it in the table, starts or answers built-in calls, drops calls without an interface |
| HostObject.Host.HandleTimerMessage | src/Networking/E_Host.cpp:198-201 | the timer returns 0 for the id it carries, if that call is still open |
| HostObject.Host.HandleReturnMessage | src/Networking/E_Host.cpp:144-156 | the process exists, has no pending call, and is removed from both tables |
| HostObject.Host.CleanUp | src/Networking/E_Host.cpp:34-48 | the loop of single returns amounts to answering the whole table with -1, and counts it |
| HostObject.Host.CreateFileDescriptor | src/Networking/E_Host.cpp:340-363 | the lowest free descriptor from 3 is added to those of the process; fails exactly when all are used; nothing else changes |
| HostObject.Host.RemoveFileDescriptor | src/Networking/E_Host.cpp:365-372 | exactly that descriptor is removed; nothing happens for a process that is gone |
| Allocators.CyclicScan | src/Networking/E_Host.cpp:374-395 | the do/while scan ends within one round with the first free id, and fails exactly when all are taken |
| Allocators.PacketIds.AllocatePacketUUID | src/Networking/E_Packet.cpp:15-27 | the first free packet id in cyclic order, after which the next search begins |
| Allocators.PacketIds.Replay | src/Networking/E_Packet.cpp:15-57 | over any history of fewer than 2^64 packets and any destructions the n-th packet gets id n, so ids never repeat |
| Allocators.CreateFileDescriptor | src/Networking/E_Host.cpp:343-362 | returns the lowest free descriptor from 3 and adds exactly it; fails exactly when 3..65535 are all used |
| Allocators.RemoveFileDescriptor | src/Networking/E_Host.cpp:370-370 | removes exactly the entry of that descriptor |
| Allocators.ReopenGetsSameDescriptor | src/Networking/E_Host.cpp:340-372 | closing the descriptor just opened and opening again gives the same one |
| Wire.ClosedForm | src/Networking/E_Wire.cpp:60-71 | nextAvailable is the largest of the initial value plus all delays and, over k, arrival k plus the delays from k on |
| Wire.ClosedFormIsUnique | src/Networking/E_Wire.cpp:66-71 | the closed form holds of the recursion's value and of no other |
| Wire.TransDelayIs | src/Networking/E_Wire.cpp:61-65 | the whole nanoseconds that size times 8 bits take at the given bits a second, 0 without a speed |
| Wire.InitialValueIsIrrelevant | src/Networking/E_Wire.cpp:21-22 | a starting value no later than the first packet makes no difference |
| Wire.DeliveriesNeverOvertake | src/Networking/E_Wire.cpp:84-89 | with fixed settings delivery times in one direction never decrease |
| WireNetwork.StepKeepsInv | src/Networking/E_Wire.cpp:39-92 | any turn of the scheduler, whatever other modules send or cancel, keeps: each packet popped for the wire has its own message in the log, due at its delivery time, with growing ids |
| WireNetwork.InputIs | src/Networking/E_Wire.cpp:42-58 | exactly the uncancelled packets for a port that come from one end are sent on, if the other end is connected |
| WireNetwork.WireSpeed | src/Networking/E_Wire.cpp:61-71 | a wire of a given speed is busy with each packet for its transmission delay |
| WireNetwork.WireDelivers | src/Networking/E_Wire.cpp:51-89 | over every run of a wire in the scheduler, the n-th packet popped for a direction is answered by one message to the end it did not come from, with the same packet, due at the n-th delivery time, still queued or handled exactly once |
| WireNetwork.WireIsFifo | src/Networking/E_Wire.cpp:60-89 | in every run the packets of one direction come out of the trace in the order they entered, even when due at the same instant |
| Wire.Opposite | src/Networking/E_Wire.cpp:51-58 | the end opposite the sender, the left one taken first; none exactly for a stranger or an unconnected end |
| Wire.Wire.Destination | src/Networking/E_Wire.cpp:51-58 | the end opposite the sender; none for a stranger or an unconnected end |
| Wire.Wire.Receive | src/Networking/E_Wire.cpp:39-92 | the direction's line is busy for one more packet, the other is untouched, and delivery comes the propagation delay later, without underflow |
| Wire.Wire.ReceiveAll | src/Networking/E_Wire.cpp:39-92 | a whole stream leaves the wire where the recursion says and is delivered at the times of the delivery rule |
| LinkPort.EnqueueKeepsPort | src/Networking/E_Link.cpp:102-146 | sendPacket with any choice of victim keeps bound, order, accounting and timing |
| LinkPort.HeadStays | src/Networking/E_Link.cpp:107-135 | with any limit but 1 the head of the queue is never the victim |
| LinkPort.DequeueKeepsPort | src/Networking/E_Link.cpp:42-57 | sending the head when it is due keeps bound, order, accounting and timing |
| LinkPort.UnboundedDepartsInOrder | src/Networking/E_Link.cpp:42-43 | with no limit the n-th arrival is the n-th to leave |
| LinkPort.DeparturesFollowWire | src/Networking/E_Link.cpp:49-57 | with no limit the n-th departure is at the wire's value for the first n arrivals |
| LinkPort.Conservation | src/Networking/E_Link.cpp:117-135 | accepted equals sent plus queued plus evicted |
| LinkNetwork.TokenSent | src/Networking/E_Link.cpp:139-145 | a CHECK_QUEUE sent for a busy port without one restores the token invariant |
| LinkNetwork.ForwardKeepsInv | src/Networking/E_Link.cpp:102-146 | sendPacket inside the scheduler keeps one CHECK_QUEUE for each busy port, set for when its head is due |
| LinkNetwork.CheckKeepsInv | src/Networking/E_Link.cpp:34-88 | handling a CHECK_QUEUE when due keeps the same |
| LinkNetwork.NextHeadDue | src/Networking/E_Link.cpp:77-86 | the next CHECK_QUEUE is set for when the next packet is due, and the asserted equality of wait and transmission time holds |
| LinkNetwork.TurnKeepsInv | src/Networking/E_Link.cpp:24-92 | any turn of the scheduler, whatever other modules do, keeps the invariant, finds a non-empty queue and passes the time guard |
| LinkTheorems.OneTokenPerBusyPort | src/Networking/E_Link.cpp:34-41 | in every reachable state a busy port has exactly one pending CHECK_QUEUE, not before the line is free, and a quiet port has none |
| LinkTheorems.LinkRefinesWire | src/Networking/E_Link.cpp:34-88 | for every arrival sequence and interleaving the unbounded Link hands over its n-th packet at exactly the time the wire's recursion gives |
| LinkTheorems.LinkAndWireAgree | src/Networking/E_Wire.cpp:60-71 | a Link and a Wire of the same speed agree packet by packet, whatever value up to the first arrival the wire starts from |
| LinkTheorems.NothingGetsStuck | src/Networking/E_Link.cpp:77-86 | with any limit but 1: once nothing due by a time is queued in the scheduler, a packet still in a queue arrived later, or its line is not free by then |
| LinkTheorems.EverythingBegunHasLeft | src/Networking/E_Link.cpp:77-86 | with no limit: every packet whose transmission the wire would have begun by then has left |
| LinkHandover.DeparturesAreMessages | src/Networking/E_Link.cpp:54-75 | over every run each departure of a port is one message in the scheduler's log, from the Link to the wire, with the packet that arrived and the recorded time, with growing ids, queued or handled exactly once |
| LinkHandover.MessagesFollowWire | src/Networking/E_Link.cpp:34-88 | with no limit the log shows the n-th arrival handed over at exactly the time of the wire's recursion |
| LinkHandover.LinkIsFifo | src/Networking/E_Link.cpp:42-75 | whatever the limit but 1, packets come out of the trace in the order in which they left the queue |
| LinkTheorems.LinkRunsInScheduler | src/Networking/E_Link.cpp:24-92 | every run of the Link is a run of the scheduler with the same states |
| LinkTheorems.BoundedLink | src/Networking/E_Link.cpp:107-138 | with a limit of 2 or more: never above the limit, sent packets in arrival order, conservation, and the wire's timing on the packets that get through |
| LinkTheorems.LowerHalfIsNeverEvicted | src/Networking/E_Link.cpp:110-124 | a packet once below position limit/2 is never evicted in any continuation |
| LinkEviction.OnlyAFullQueueLoses | src/Networking/E_Link.cpp:107-135 | a queue with room only grows by the packet; a full one loses exactly the packet at the index |
| LinkEviction.LossesAreEvictions | src/Networking/E_Link.cpp:107-124 | over every run a port has lost exactly the packets that calls finding its queue full evicted |
| LinkEviction.DropIndexIsChoice | src/Networking/E_Link.cpp:110-115 | the random number rounded down and cut to the last position lies from limit/2 to limit - 1 |
| LinkEviction.EveryChoiceIsDrawn | src/Networking/E_Link.cpp:110-115 | every such index can be drawn |
| LinkTheorems.LimitOneFails | src/Networking/E_Link.cpp:107-145 | with limit 1 two packets arriving together, each forwarded once to the same port, lead to a CHECK_QUEUE on an empty queue |
| LinkTheorems.SafeIffLimitNotOne | src/Networking/E_Link.cpp:34-41 | all runs are safe if and only if the limit is not 1 |
| LinkObject.Link.constructor | src/Networking/E_Link.cpp:154-160 | every port begins empty and free, with no queue limit |
| LinkObject.Link.FindVictim | src/Networking/E_Link.cpp:118-122 | the iterator stops at the chosen packet, not at the end |
| LinkObject.Link.SendPacket | src/Networking/E_Link.cpp:102-146 | a queue with room keeps all its packets, a full one loses the one drawn, other ports are untouched, and a CHECK_QUEUE is sent exactly when the packet is alone |
| LinkObject.Link.CheckQueue | src/Networking/E_Link.cpp:34-88 | once the line is free the head leaves with the two messages of the model and the line is busy for its transmission delay; before that nothing changes |
| Checksum.CanonIsUnique | src/Networking/E_NetworkUtil.cpp:28-31 | the 16-bit value of a sum is 0 for 0, else the one number in 1..65535 congruent to it modulo 65535, and nothing else is |
| Checksum.OnesSumIsCanon | src/Networking/E_NetworkUtil.cpp:19-29 | word-by-word one's-complement addition gives that value of the word sum (section 1 of RFC 1071) |
| Checksum.ZeroSum | src/Networking/E_NetworkUtil.cpp:16-32 | the word sum is 0 exactly when every byte is 0 |
| Checksum.ShortSums | src/Networking/E_NetworkUtil.cpp:20-24 | one byte counts 256-fold, two bytes as a big-endian word |
| Checksum.OneSum | src/Networking/E_NetworkUtil.cpp:16-32 | one_sum is the one's-complement sum of the zero-padded big-endian words, 0 exactly for all-zero buffers; the accumulator stays within 0x1FEFF and the last fold changes nothing |
| Checksum.WordChangeShows | src/Networking/E_NetworkUtil.cpp:16-32 | two buffers differing in one aligned word have equal checksums exactly when the words are congruent modulo 65535 and the sums are both zero or both not |
| Checksum.TcpSum | src/Networking/E_NetworkUtil.cpp:51-66 | 0 below 20 bytes, else the checksum of pseudo-header and segment as one buffer (section 3.1 of RFC 793), never 0 |
| Checksum.TcpTotalIs | src/Networking/E_NetworkUtil.cpp:55-63 | the TCP sum is that of both addresses, the protocol number 6, the length modulo 65536 and the segment |
| Checksum.DamageIs | src/Networking/E_Switch.cpp:57-80 | byte by byte what the damage writes, and that it changes nothing else |
| Checksum.OverwriteTotal | src/Networking/E_Switch.cpp:57-80 | overwriting aligned words in the segment moves the TCP sum by the difference of the words |
| Checksum.ShortDamageIsDetected | src/Networking/E_Switch.cpp:69-79 | a correct frame of 54 to 57 bytes never has a correct TCP checksum once damaged |
| Checksum.LongDamage | src/Networking/E_Switch.cpp:58-68 | a correct longer frame still has one exactly when the overwritten and the written words have congruent sums |
| Checksum.LongDamageCanBeInvisible | src/Networking/E_Switch.cpp:58-68 | a correct frame that is changed by the damage and still has a correct checksum |
| Stack.BuiltHeaderSums | src/Networking/IPv4/E_IPv4.cpp:72-130 | the header built for any packet of at least 34 bytes sums to exactly 0xFFFF |
| Stack.HeaderFields | src/Networking/IPv4/E_IPv4.cpp:61-121 | every field of the built header by its meaning in section 3.1 of RFC 791, and that no other byte changes |
| Stack.HeaderChangeIsRejected | src/Networking/IPv4/E_IPv4.cpp:31-43 | a correct header with one aligned word replaced is refused if and only if the two words differ modulo 65535 |
| Stack.JudgeIs | src/Networking/IPv4/E_IPv4.cpp:34-58 | delivered to TCP, UDP or OSPF exactly for protocol 6, 17 or 89 and sum 0xFFFF, or 0 with a warning; refused exactly for any other sum |
| Stack.IPv4.Encapsulate | src/Networking/IPv4/E_IPv4.cpp:59-132 | the packet gets the option-less header of section 3.1 of RFC 791 with its checksum, all else unchanged, and the identification moves on |
| Stack.IPv4.Decapsulate | src/Networking/IPv4/E_IPv4.cpp:22-58 | refused on a wrong sum, otherwise delivered by protocol number, with a warning exactly for sum 0 |
| Stack.Frame | src/Networking/Ethernet/E_Ethernet.cpp:38-82 | ethertype and the MACs of the routed port and the destination are written and nothing else, or the packet is dropped because one of the two is unknown |
| Stack.FrameIs | src/Networking/Ethernet/E_Ethernet.cpp:39-80 | destination MAC, source MAC, ethertype 0x0800, then the packet from byte 14 on unchanged |
| Stack.EtherTypeIs | src/Networking/Ethernet/E_Ethernet.cpp:26-37 | IPv4 exactly for 0x0800, IPv6 exactly for 0x86DD |
| Stack.BroadcastAddresses | src/Networking/Ethernet/E_Ethernet.cpp:15-19 | exactly 255.255.255.255, 224.0.0.5 and 224.0.0.6 as numbers |
| Stack.RoundTrip | src/Networking/IPv4/E_IPv4.cpp:21-136 | what IPv4 and Ethernet make of any packet of at least 34 bytes is accepted by the peer without warning, for the module of the same name, with every byte from 26 on unchanged |
| Stack.LengthField | src/Networking/IPv4/E_IPv4.cpp:84-93 | the length field is exact exactly for packets of at most 65549 bytes |
| Stack.SendAndReceive | src/Networking/Ethernet/E_Ethernet.cpp:24-90 | the modules in sequence, in place: dropped for a missing MAC, or passed by the peer's Ethernet to IPv4 and delivered as the round trip says |
| Routing.MaskedBytesEqual | src/Networking/E_RoutingInfo.cpp:87-95 | comparing two bytes under the shifted mask is comparing them shifted right |
| Routing.ValueInjective | src/Networking/E_RoutingInfo.cpp:83-86 | addresses of equal length are equal exactly when their numbers are |
| Routing.BytesAgreeIffShifted | src/Networking/E_RoutingInfo.cpp:83-96 | whole bytes plus one masked byte agree exactly when the two numbers agree after shifting right by bits - prefix |
| Routing.AppliesByDivision | src/Networking/E_RoutingInfo.cpp:83-96 | a route applies exactly when its prefix is 1..32 and both addresses agree after division by 2^(32 - prefix) |
| Routing.BestPortIsUnique | src/Networking/E_RoutingInfo.cpp:98-103 | the longest-prefix rule allows one port only |
| Routing.AddedRoute | src/Networking/E_RoutingInfo.cpp:50-104 | appending a route changes the lookup exactly for addresses it applies to and for which no applicable route is as long |
| Routing.RoutingInfo.GetMACAddr | src/Networking/E_RoutingInfo.cpp:62-69 | the first MAC set for the port, none exactly if there is none |
| Routing.RoutingInfo.GetARPTable | src/Networking/E_RoutingInfo.cpp:70-77 | the first MAC set for the address, none exactly if there is none |
| Routing.RoutingInfo.Matches | src/Networking/E_RoutingInfo.cpp:82-96 | exactly agreement of the top bits of the two 32-bit addresses for a positive prefix, and true for any other |
| Routing.RoutingInfo.GetRoutingTable | src/Networking/E_RoutingInfo.cpp:78-104 | the port of the longest applicable route, the earliest among equals, 0 if none applies |
| Switch.BytesRoundTrip | include/E/Networking/E_NetworkUtil.hpp:47-75 | bytes to number to bytes is the identity |
| Switch.NumberRoundTrip | include/E/Networking/E_NetworkUtil.hpp:47-75 | number to N bytes to number is the identity for numbers that fit |
| Switch.BytesAreDigits | include/E/Networking/E_NetworkUtil.hpp:47-57 | byte k is the digit of weight 256^k |
| Switch.FromBytesInjective | include/E/Networking/E_NetworkUtil.hpp:65-75 | the encoding separates arrays of equal length |
| Switch.ArrayToUINT64 | include/E/Networking/E_NetworkUtil.hpp:65-75 | the little-endian number of at most 8 bytes, which fits 64 bits |
| Switch.UINT64ToArray | include/E/Networking/E_NetworkUtil.hpp:47-57 | the lowest N bytes, least significant first |
| Switch.ForwardingIsExact | src/Networking/E_Switch.cpp:32-93 | with distinct wires, one copy for each chosen port and none for the ingress; chosen are all others for a broadcast, else those knowing the address, else all others |
| Switch.Switch.AddMACEntry | src/Networking/E_Switch.cpp:24-30 | the integer table stands for exactly the addresses added |
| Switch.Switch.IntegerTest | src/Networking/E_Switch.cpp:41-45 | the test on integers is the test on addresses |
| Switch.Switch.SendListed | src/Networking/E_Switch.cpp:40-85 | copies go to exactly the listed ports in order, each damaged exactly by its own random number and rate |
| Switch.Switch.Flood | src/Networking/E_Switch.cpp:86-92 | every port but the ingress gets an undamaged copy |
| Switch.Switch.PacketArrived | src/Networking/E_Switch.cpp:32-93 | the listed ports, or undamaged everywhere else when there are none |
| Switch.DropBaseSettles | src/Networking/E_Switch.cpp:15-22 | the damage rate falls by tenths from 0.9 to 0.1 and is 0.01 from the tenth copy on |
| Switch.DamageIsInvisibleToIPv4 | src/Networking/E_Switch.cpp:57-80 | Ethernet and IPv4 at the receiver treat a damaged frame exactly as the original |

## Left out

- The TCP, RIP, PWOSPF and echo assignments: they are stubs without behaviour.
- pcap files, logs and module names: output only.
- Forwarding wrappers such as HostModule, TimerModule and RoutingInfoInterface: they pass calls through.
- Wire.nextSendAvailable, the setters for IP, MAC and ARP entries and getIPAddr: one-line members.
- Random distributions: the random numbers of the Link and of the switch are parameters.
- Floating point: transmission delays are exact integer division rounded down, and the switch's damage rate is a real number.
- Wrap-around of the 64-bit clock and of message and system-call ids: time and message ids are unbounded, and `HostObject.Host.EnterTable` requires that the next system-call id is below 2^64.
- Changing a Link's or a Wire's settings while traffic is under way: the theorems over runs take them as fixed.
- Messages that other modules send in the Link's name, and cancelling the Link's own messages: modules send in their own name and do not learn those ids.
- The heap inside std::priority_queue: the timer queue is a sequence in dispatch order.
- Iteration order of hash tables: the ready threads and the calls answered by cleanUp are taken in any order.
- Runs that never end: `run` takes the behaviour of handlers and threads from a finite script of any length, so every finite part of every run is covered.
- Delivery order of the Host's own messages in HostModel: left open, the results hold for every order.
- System calls on a descriptor the process does not hold, and sockets in the namespace (0, 0): the source asserts against the first (its documentation says the call fails) and against unknown calls in the second; both are preconditions on the application.
- Host.gettimeofday's split into seconds and microseconds, TimeUtil and link costs: easy arithmetic.
- Host.sendPacketToModule's choice of a port by MAC, the packets Host passes between its modules, and the IPv6 branch of Ethernet's sending side.
- Reading or writing outside a packet's buffer: packets are long enough for every access.
- Routing entries with a prefix above 32: the source would read past the address, so they are excluded.
- Big-endian hosts: the bytes the switch writes are those of a little-endian host.
- Destroying a thread that was never launched or has not ended, and shared_ptr counts: lifetime outside the protocol.
- Handoff: one thread and the scheduler; several threads never share a mutex.
