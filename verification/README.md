# Verification of the EtherNet/IP adapter stack

This project models the C EtherNet/IP adapter stack of the repository and proves properties of the
model. To verify it, run `dafny verify dfyconfig.toml` in this directory.

**The connection life cycle.** `Connections` holds the records and the searches over the active list,
`ConnectionModel` the protocol as a state machine: Forward Open with its slot search, setup checks and
multicast group handling, Forward Close, time-outs, hand-over of the producing socket, cascades, ticks
and shutdown. `ConnectionManager` is the imperative form: a class whose methods change the list, held
as a sequence, and the slots in place, each proved equal to a step of the machine.
`ConnectionInvariants` and `ConnectionOpening` prove the invariant step by step, `ConnectionRuns`
states it over all runs, `ConnectionSequence` follows the sequence numbers of each multicast group,
`ConnectionSilence` whether its holder will send, `ConnectionPacing` when it sends and how often, and
`ConnectionTicks` the watchdogs.
`ConnectionReplies` declares the answer to every Forward Open and what an opened connection starts
with, `ConnectionIds` that its id is its own, `ConnectionProduction` when any connection sends, and
`ConnectionOriginators` and `ConnectionEnds` what the end of a connection takes with it.
`ConnectionExamples` holds runs from boot that show where a property fails. `DoublyLinkedList` is the
list on its static array of nodes, where a pointer is an index, and `SessionWalk` a walk over it whose
node is cleared under way.

**Time and serial numbers.** `Timing` covers tick accumulation, pacing, interval rounding and watchdog
values, `SequenceNumbers` the comparison and filter of sequence numbers.

**Wire formats.** `Wire` is the message buffer, `EPaths` padded paths, `CommonPacketFormat` the packet
assembler and parser, `Encapsulation` the header and unconnected replies, `IoFrames` sending and
receiving of I/O data, `ExplicitReplies` the repeat handling of class 3 connections. `EPathLayouts` and
`WireLayouts` give paths, requests, replies and frames octet by octet, `IoDeliveries` whole
conversations over an I/O connection that may lose frames.

**Tables.** `Sessions` is the session table beside the socket timer table, `CipInstances` the instance
list with its counters, `HostNames` the domain-name check in place.

## Scope

Runs of the life cycle start at boot, with a fixed point configuration whose exclusive-owner points have
distinct input assemblies. I/O requests are O->T point-to-point, and T->O the way the configuration
produces the input: on one input point all connections are multicast or all are point-to-point. Refused
requests (invalid or null connection types, every error status of the path) are inside the scope.
A slot that the table does not hold is NonExistent. What the environment decides is a parameter: the
outcome of the configuration data, the encapsulation sessions whose peer is an originator, the
originating address.

The parsers read from memory that may reach beyond the announced length, as the code does; a
precondition says how far (`SLACK`, `InReach`). `prior` stands for the one structure that packets are
parsed into, whose fields keep old values where a packet has none.

## Where the code differs from what it says

- A group whose holder timed out keeps its socket with the TimedOut holder until another connection
  takes it over; the search for an existing producer does not look at the state. A connection that
  joins in between is Established and hears nothing: `OpenSounding` is exact, `SilentGroup` a run.
- A T->O RPI of 0, or one whose packet rate is a multiple of 65536 ms, is accepted and gives a rate of
  0, with which the holder never sends: `OpenSounding` has that condition too, `SilentRate` a run.
- A take-over by an exclusive owner starts the sequence numbers again; `OpenContinuity` is exact,
  `TakeOver` a run.
- A tick ends when a messaging connection expires, since its node is cleared under the walk;
  `TickReachesExactly` is exact, `ShortTick` a run. For the same reason the class 3 connections of a
  session are closed one per call: `SessionEmptied` and `SessionLeftover`.
- A 16-bit member segment advances two octets and counts four; `DecodeConsumption` is exact and
  `WideMemberMiscounted` is an example. The reserved segment type is the value 7 of three bits.
- The length field of a response counts every additional status word, but only two are written;
  `ResponseRoundTrip` is exact.
- An empty message to the router wraps around and is accepted; `RequestAddsUp` is exact,
  `EmptyRequestWraps` says what it becomes.
- A first sequence count of 0 on a class 3 connection counts as a repeat of a reply that was never sent;
  after a router error a repeat is answered with an older reply. `OneCallPerBlock` and `RepeatAfterError`.
- Clearing the timers of an invalid socket never ends while a timer is free, and closing by the handle
  of a freed session does that; `ClearingEnds` and `CloseByHandleEnds` are exact. Removing a session
  alone leaves its timer, and the code calls the two together; `RemoveAlone` is exact.
- An RPI that rounds up to 65536 ms or more wraps around in 16 bits; `RateReachesRpi` is exact.
- An RPI below one tick that is not 0 comes to an interval of 0, which sends in every tick:
  `RpiBelowTick`, `ZeroIntervalSendsEveryTick`.

## Model

| member | source | states |
|---|---|---|
| ConnectionRuns.RunKeeps | ethernetiplibrary/src/main/cpp/opener/cip/cipconnectionmanager.c:585-739 | every run of opens, closes, ticks, receptions, receive failures, session ends and shutdowns keeps: slots listed once, each connection at its configured point, one producing holder per multicast group that is never listen-only, agreement on shared parameters, triads ordered on the list |
| ConnectionRuns.EverySlotListedOnce | ethernetiplibrary/src/main/cpp/opener/cip/appcontype.c:178-333 | in every reachable state a slot is on the active list exactly once if it is Established or TimedOut and not at all if it is NonExistent |
| ConnectionRuns.OneOwnerPerInput | ethernetiplibrary/src/main/cpp/opener/cip/appcontype.c:178-223 | in every reachable state two exclusive owners of one input assembly are the same connection |
| ConnectionRuns.OpenNeverOverwrites | ethernetiplibrary/src/main/cpp/opener/cip/appcontype.c:127-333 | a successful Forward Open enters at the head, in a slot that was free or was left TimedOut by the same originator, replies with the ids it stored, and changes no other connection's terms or state |
| ConnectionRuns.RefusedOpenOnlyCloses | ethernetiplibrary/src/main/cpp/opener/cip/cipioconnection.c:294-373 | a refused Forward Open opens nothing and, beside the id counter, changes something exactly if the slot search had taken the slot of a timed-out connection of the same originator: that one is closed, as by any close |
| ConnectionRuns.MulticastGroupHasOneHolder | ethernetiplibrary/src/main/cpp/opener/cip/cipioconnection.c:478-539 | in every reachable state a multicast input point has at most one connection with the producing socket, never a listen-only one; while one on it is Established there is such a holder, Established or TimedOut, and every Established one carries its produced connection id |
| ConnectionRuns.MulticastParametersAgree | ethernetiplibrary/src/main/cpp/opener/cip/cipioconnection.c:188-238 | any two active T->O multicast connections of one input point agree on RPI, fixed/variable, priority, transport class, trigger and inhibit time in every reachable state |
| ConnectionRuns.TriadsDistinctInFront | ethernetiplibrary/src/main/cpp/opener/cip/cipconnectionmanager.c:1245-1261 | of two listed connections with one triad the one behind is TimedOut, so Established triads are pairwise distinct (section 3-5.5.2 of CIP Volume 1) |
| ConnectionRuns.ForwardCloseHitsEstablished | ethernetiplibrary/src/main/cpp/opener/cip/cipconnectionmanager.c:696-723 | a Forward Close with the triad of an Established connection removes that one if asked from its originator's address and changes nothing from any other |
| ConnectionRuns.CloseReach | ethernetiplibrary/src/main/cpp/opener/cip/cipioconnection.c:735-767 | a close removes exactly the connection and, if it held a group no master can take over, the listen-only connections of its input point: an if-and-only-if over all other connections |
| ConnectionRuns.ExpiredOwnerClearsPoint | ethernetiplibrary/src/main/cpp/opener/cip/cipioconnection.c:770-821 | an Established exclusive owner that times out leaves no input-only and no listen-only connection on its input point if and only if there is no multicast group on it that another master can take |
| ConnectionRuns.SessionEmptied | ethernetiplibrary/src/main/cpp/opener/enet_encap/encap.c:729-739 | one call for a session leaves none of its class 3 connections if and only if there was at most one |
| ConnectionReplies.OpenAnswers | ethernetiplibrary/src/main/cpp/opener/cip/cipconnectionmanager.c:585-666 | every Forward Open gets exactly the answer that is declared for it: which of the early checks, the point and slot search, the inhibit time, the two sizes, the shared parameters, the application and the socket items it fails first, with that failure's extended status, and Opened if it fails none |
| ConnectionReplies.OpenedIffSizesFit | ethernetiplibrary/src/main/cpp/opener/cip/cipioconnection.c:134-238 | a request with everything else in order is opened if and only if in each direction the size is the assembly length, plus 2 in class 1, plus 4 with run/idle set, data in the assembly and octets for it |
| ConnectionReplies.SlotSearchUnique | ethernetiplibrary/src/main/cpp/opener/cip/appcontype.c:127-333 | the declared outcome of the slot search is one: there is no second slot or error for a request |
| ConnectionReplies.MessagingStarts | ethernetiplibrary/src/main/cpp/opener/cip/cipclass3connection.c:26-69 | a messaging connection starts Established with the terms asked for, the first watchdog, all timers and counts at 0 and, O->T point-to-point, the next id |
| ConnectionReplies.IoStarts | ethernetiplibrary/src/main/cpp/opener/cip/cipioconnection.c:294-373 | an I/O connection starts in its slot at the head, Established, with the terms asked for, the larger of its watchdog and 10 s, all timers and counts at 0, under the next id |
| ConnectionReplies.IoProduces | ethernetiplibrary/src/main/cpp/opener/cip/cipioconnection.c:478-539 | it has the producing socket if and only if it is point-to-point, an exclusive owner, or nobody holds the group once its slot is vacated; in that last case it produces under the id after |
| ConnectionIds.IdsDiffer | ethernetiplibrary/src/main/cpp/opener/cip/cipconnectionmanager.c:193-201 | in every run that asks for fewer than 2^16 ids no two listed connections consume under one id of the target, and each such id has the incarnation in its upper half |
| ConnectionIds.FirstId | ethernetiplibrary/src/main/cpp/opener/cip/cipconnectionmanager.c:193-201 | the first id after boot is the incarnation and 19 |
| ConnectionIds.PacketsFindTheirConnection | ethernetiplibrary/src/main/cpp/opener/cip/cipconnectionmanager.c:1210-1223 | so a packet under such an id reaches the Established connection it was given to, if it comes from its originator's address, and nobody else |
| ConnectionEnds.ForwardCloseAnswers | ethernetiplibrary/src/main/cpp/opener/cip/cipconnectionmanager.c:668-739 | 0x0107 if no listed connection has the triad; else the first that has it, Established or TimedOut, decides: 0xFFFF and no change from another address, and from its own 0 and exactly it and what goes along are closed |
| ConnectionEnds.TimeOutTakesAlong | ethernetiplibrary/src/main/cpp/opener/cip/cipioconnection.c:770-821 | the time-out of an I/O connection leaves it TimedOut and takes exactly these along: unless another master takes the group over, with an owner all input-only and listen-only connections of the input, with another sender the listen-only ones |
| ConnectionEnds.ReceiveFailureCloses | ethernetiplibrary/src/main/cpp/opener/ports/generic_networkhandler.c:1050-1110 | a failure to receive closes the I/O connection with exactly what goes along, and changes nothing for any other slot |
| ConnectionOriginators.TimeOutEndsSessions | ethernetiplibrary/src/main/cpp/opener/cip/cipioconnection.c:782-786 | in an I/O time-out a messaging connection goes if and only if no packet has come since the watchdog was restarted, every other connection of that originator has timed out, and its session is closed more often than it has class 3 connections ahead |
| ConnectionOriginators.SessionsGone | ethernetiplibrary/src/main/cpp/opener/cip/cipconnectionmanager.c:1799-1821 | ending a list of sessions removes of each session as many class 3 connections as the list names it, those in front, and nothing else |
| ConnectionOriginators.PacketCounts | ethernetiplibrary/src/main/cpp/opener/cip/cipconnectionmanager.c:306-316 | over any run in which it stays Established and every tick reaches it, the timer of the last packet is loaded by each packet of its originator and loses the time of every tick, in 64 bits |
| ConnectionOriginators.TimersTogether | ethernetiplibrary/src/main/cpp/opener/cip/cipconnectionmanager.c:943-962 | once a packet has been accepted that timer and the watchdog stand together over every run without stale packets and explicit requests: the condition for the sessions is met when it times out |
| ConnectionSilence.AdmitSounding | ethernetiplibrary/src/main/cpp/opener/cip/cipioconnection.c:478-539 | admitting a connection keeps the holder of every group with an Established member Established and with a packet rate, if and only if the newcomer's holder, itself or the one it joins, is so |
| ConnectionSilence.OpenSounding | ethernetiplibrary/src/main/cpp/opener/cip/appcontype.c:335-364 | the same for a whole Forward Open, the condition told from the state before: an acceptable multicast request whose expected packet rate comes to 0, or, not of an exclusive owner, for an input whose holder is not Established and is not in the slot being vacated |
| ConnectionSilence.StepSounding | ethernetiplibrary/src/main/cpp/opener/cip/cipconnectionmanager.c:935-1018 | no other step does it: closes, receive failures, time-outs with hand-over and cascades, ticks, receptions and session ends leave every group a holder that will send |
| ConnectionSilence.GroupIsHeard | ethernetiplibrary/src/main/cpp/opener/cip/cipioconnection.c:823-851 | over every run without such an open each Established multicast connection has a holder that is Established, has a packet rate, is never listen-only, and produces under its id; when it sends is `ConnectionPacing.TickPaces` |
| ConnectionExamples.SilentGroup | ethernetiplibrary/src/main/cpp/opener/cip/cipioconnection.c:478-539 | a run from boot to such an open: the newcomer is Established and nobody sends for it |
| ConnectionExamples.SilentRate | ethernetiplibrary/src/main/cpp/opener/cip/cipconnectionmanager.c:963-970 | a T->O RPI whose packet rate comes to 0, as for 0 and 327.68 s at a tick of 10 ms, is accepted from boot: Established, holding the group, and its turn to send in a tick changes nothing |
| ConnectionPacing.TickPaces | ethernetiplibrary/src/main/cpp/opener/cip/cipconnectionmanager.c:943-1013 | in a tick a holder that is Established, does not expire and is reached sends one frame if and only if it has a packet rate and its timer is due, and its timer moves on; nobody else sends for the group, whatever expires and closes around it |
| ConnectionPacing.GroupPaces | ethernetiplibrary/src/main/cpp/opener/cip/cipconnectionmanager.c:943-1013 | over any run in which one connection holds the group and every tick reaches it, frames and timer are those of the pacer, whatever else is opened, closed, received or timed out |
| ConnectionPacing.GroupOnTime | ethernetiplibrary/src/main/cpp/opener/cip/cipconnectionmanager.c:982-1011 | after such a run k frames in time T from timer t give k*I + t = T + timer if no tick is longer than I, and never more |
| ConnectionPacing.FramesBounded | ethernetiplibrary/src/main/cpp/opener/cip/cipioconnection.c:707-732 | over every run, through hand-overs, time-outs and take-overs, the frames that a group sends in a time T take no longer than T and what its holder's timer stands for, at most one interval, but for one frame for each take-over by an exclusive owner |
| ConnectionPacing.ReachableInPace | ethernetiplibrary/src/main/cpp/opener/cip/cipconnectionmanager.c:982-1011 | that bound counts from every reachable state on: with the frames sent until then set aside each group is within its pace, its holder's timer standing within the interval |
| ConnectionProduction.TickProduces | ethernetiplibrary/src/main/cpp/opener/cip/cipconnectionmanager.c:963-1011 | in a tick any producing connection that stays Established and is reached, multicast or point-to-point, sends, its count going up by 1 modulo 2^32, if and only if it has a packet rate and its timer is due; nobody else's count moves |
| ConnectionProduction.ConnectionPaces | ethernetiplibrary/src/main/cpp/opener/cip/cipconnectionmanager.c:943-1013 | over any run in which a connection keeps producing and every tick reaches it, its count and timer are those of the pacer |
| ConnectionProduction.PointToPointProduces | ethernetiplibrary/src/main/cpp/opener/cip/cipioconnection.c:444-476 | in every reachable state each point-to-point I/O connection has its producing socket |
| ConnectionOpening.OpenKeeps | ethernetiplibrary/src/main/cpp/opener/cip/cipconnectionmanager.c:585-666 | every Forward Open, refused or accepted, keeps the invariant |
| ConnectionOpening.SelectReady | ethernetiplibrary/src/main/cpp/opener/cip/appcontype.c:127-176 | what the slot search chooses is suited to the request and free or recyclable, and with a chosen slot the group of the input point is ready for the new connection |
| ConnectionOpening.AdmitKeeps | ethernetiplibrary/src/main/cpp/opener/cip/cipioconnection.c:478-539 | admitting a connection (start, join or take over a group) keeps the invariant |
| ConnectionInvariants.CloseKeeps | ethernetiplibrary/src/main/cpp/opener/cip/cipioconnection.c:735-767 | every close with its hand-over or cascade keeps the invariant and leaves the survivors' terms and states |
| ConnectionInvariants.TimeOutIoKeeps | ethernetiplibrary/src/main/cpp/opener/cip/cipioconnection.c:770-821 | every I/O time-out, with the originator's sessions closed, the hand-over and the cascades, keeps the invariant |
| ConnectionInvariants.TickKeeps | ethernetiplibrary/src/main/cpp/opener/cip/cipconnectionmanager.c:935-1018 | a whole tick over the list keeps the invariant |
| ConnectionInvariants.HandOverKeeps | ethernetiplibrary/src/main/cpp/opener/cip/cipioconnection.c:707-732 | handing the producing socket to the next master keeps the invariant |
| ConnectionSequence.FramesConsecutive | ethernetiplibrary/src/main/cpp/opener/cip/cipioconnection.c:707-732 | over every run without a take-over the EIP-level count of the frames of a multicast group goes 1, 2, 3, ... modulo 2^32 under one produced connection id, through every hand-over, and the holder continues from the last; a class 0 frame is counted without carrying its number |
| ConnectionSequence.FramesFollow | ethernetiplibrary/src/main/cpp/opener/cip/cipioconnection.c:478-539 | over every run, take-overs included, each frame of a group follows the one before it or starts again at 1, always under the same id, and the holder stands at the last frame or at 0 |
| ConnectionSequence.OpenContinuity | ethernetiplibrary/src/main/cpp/opener/cip/cipioconnection.c:478-539 | a Forward Open keeps the numbering of every group if and only if it is not a take-over of a group that has sent, the condition told by the guards on the state before |
| ConnectionSequence.AdmitContinuity | ethernetiplibrary/src/main/cpp/opener/cip/cipioconnection.c:478-539 | the same for the step that admits the connection: numbering is kept if and only if no running group is taken over |
| ConnectionExamples.TakeOver | ethernetiplibrary/src/main/cpp/opener/cip/cipioconnection.c:478-539 | a run from boot in which an exclusive owner takes over a group that has sent: the next frame repeats the number of the last |
| ConnectionTicks.CountsDown | ethernetiplibrary/src/main/cpp/opener/cip/cipconnectionmanager.c:943-962 | a watched Established connection counts its watchdog down by the summed elapsed time over any run in which no packet for it is accepted, while the sum is below it; packets that are stale or from another address do not count as data |
| ConnectionTicks.ExpiresInFirstTick | ethernetiplibrary/src/main/cpp/opener/cip/cipconnectionmanager.c:943-962 | in the tick in which the summed elapsed time reaches the watchdog value, and not before, whatever stale or foreign packets arrive, a messaging connection leaves the list and an I/O connection is TimedOut or has gone with a cascade, which an exclusive owner never does |
| ConnectionTicks.WatchdogCounts | ethernetiplibrary/src/main/cpp/opener/cip/cipconnectionmanager.c:306-316 | over any run in which it stays Established and every tick reaches it, the watchdog starts again with every accepted packet or explicit request and loses the time of every tick, and nothing else moves it |
| ConnectionTicks.ExpiresWhenRunOut | ethernetiplibrary/src/main/cpp/opener/cip/cipconnectionmanager.c:943-962 | after any such run the next tick that reaches it times it out if and only if it takes what remains |
| ConnectionTicks.TickReaches | ethernetiplibrary/src/main/cpp/opener/cip/cipconnectionmanager.c:935-1018 | over any list a tick reaches a watched connection whatever expires in front of it, sessions that end included, as long as no messaging connection does |
| ConnectionTicks.TickReachesExactly | ethernetiplibrary/src/main/cpp/opener/cip/cipconnectionmanager.c:935-1018 | in a tick that ends no session a watched connection is counted down or times out if and only if no messaging connection in front of it expires; otherwise its terms, state and watchdog are as they were |
| ConnectionTicks.TickRemovesMessaging | ethernetiplibrary/src/main/cpp/opener/cip/cipconnectionmanager.c:935-1018 | in such a tick a messaging connection leaves the table if and only if it is due and none in front of it is |
| ConnectionExamples.ShortTick | ethernetiplibrary/src/main/cpp/opener/cip/cipconnectionmanager.c:1684-1703 | two messaging connections are due, and the tick ends with the first |
| ConnectionManager.RemoveDataIsWithout | ethernetiplibrary/src/main/cpp/opener/cip/cipconnectionmanager.c:1711-1719 | unlinking the first node of an element of a duplicate-free list is removing the element |
| ConnectionManager.ConnectionManager.RemoveFromActiveConnections | ethernetiplibrary/src/main/cpp/opener/cip/cipconnectionmanager.c:1711-1719 | walking the list, takes one connection off the list and leaves the others in order |
| ConnectionManager.ConnectionManager.TransferMaster | ethernetiplibrary/src/main/cpp/opener/cip/cipioconnection.c:707-732 | the socket, its counter and timer go to the first other Established non-listen-only multicast connection of the input, or nothing changes |
| ConnectionManager.ConnectionManager.CloseAllForInput | ethernetiplibrary/src/main/cpp/opener/cip/appcontype.c:397-419 | the walk with a saved next node closes exactly the connections of one kind on one input point |
| ConnectionManager.ConnectionManager.CloseIoConnection | ethernetiplibrary/src/main/cpp/opener/cip/cipioconnection.c:735-767 | the recursive close equals the model step that the close theorems are about |
| ConnectionManager.ConnectionManager.CloseConnection | ethernetiplibrary/src/main/cpp/opener/cip/cipconnectionmanager.c:1684-1703 | closing any connection equals the model step |
| ConnectionManager.ConnectionManager.CloseClass3ConnectionBasedOnSession | ethernetiplibrary/src/main/cpp/opener/enet_encap/encap.c:729-739 | the first class 3 connection of a session is closed, as by the walk in `SessionWalk` |
| SessionWalk.CloseClass3ConnectionBasedOnSession | ethernetiplibrary/src/main/cpp/opener/enet_encap/encap.c:729-739 | the walk along the next links of the nodes equals the close of the first one: the node under the walk is cleared and its link ends it |
| ConnectionExamples.SessionLeftover | ethernetiplibrary/src/main/cpp/opener/enet_encap/encap.c:729-739 | a run from boot after which a session has ended with one of its class 3 connections left |
| ConnectionManager.ConnectionManager.CloseEncapsulationSessions | ethernetiplibrary/src/main/cpp/opener/enet_encap/encap.c:700-718 | sessions of one peer are ended one by one |
| ConnectionManager.ConnectionManager.HandleIoConnectionTimeOut | ethernetiplibrary/src/main/cpp/opener/cip/cipioconnection.c:770-821 | the I/O time-out equals the model step, of which `TimeOutTakesAlong` and `TimeOutEndsSessions` say exactly who goes |
| ConnectionManager.ConnectionManager.SendConnectedData | ethernetiplibrary/src/main/cpp/opener/cip/cipioconnection.c:823-851 | one frame is counted and recorded for its group |
| ConnectionManager.ConnectionManager.ManageConnections | ethernetiplibrary/src/main/cpp/opener/cip/cipconnectionmanager.c:935-1018 | one tick over the list equals the model step, of which `TickReachesExactly` says whom it reaches and `TickProduces` who sends; it ends at a messaging connection that expires |
| ConnectionManager.ConnectionManager.GetExclusiveOwnerConnection | ethernetiplibrary/src/main/cpp/opener/cip/appcontype.c:178-223 | the owner search equals the model, with its conflict and size errors |
| ConnectionManager.ConnectionManager.GetPointConnection | ethernetiplibrary/src/main/cpp/opener/cip/appcontype.c:225-333 | the input-only and listen-only searches over points and slots equal the model |
| ConnectionManager.ConnectionManager.GetIoConnectionForConnectionData | ethernetiplibrary/src/main/cpp/opener/cip/appcontype.c:127-176 | the three searches in order, and which error is reported |
| ConnectionManager.ConnectionManager.CheckSetup | ethernetiplibrary/src/main/cpp/opener/cip/cipioconnection.c:134-238 | the status of the setup checks in their order, each of which `OpenAnswers` declares |
| ConnectionManager.ConnectionManager.AddNewActiveConnection | ethernetiplibrary/src/main/cpp/opener/cip/cipconnectionmanager.c:1705-1709 | the connection enters at the head of the list, Established |
| ConnectionManager.ConnectionManager.OpenChannels | ethernetiplibrary/src/main/cpp/opener/cip/cipioconnection.c:478-539 | start, join or take over of the multicast group equals the model step |
| ConnectionManager.ConnectionManager.EstablishIoConnection | ethernetiplibrary/src/main/cpp/opener/cip/cipioconnection.c:294-373 | establishing an I/O connection equals the model step on every path; `OpenAnswers`, `IoStarts` and `IoProduces` say what that is |
| ConnectionManager.ConnectionManager.EstablishClass3Connection | ethernetiplibrary/src/main/cpp/opener/cip/cipclass3connection.c:26-69 | a free explicit slot is taken or the request refused |
| ConnectionManager.ConnectionManager.ForwardOpen | ethernetiplibrary/src/main/cpp/opener/cip/cipconnectionmanager.c:585-666 | keeps the invariant and equals the model step on every path; `OpenAnswers` gives its answer |
| ConnectionManager.ConnectionManager.ForwardClose | ethernetiplibrary/src/main/cpp/opener/cip/cipconnectionmanager.c:668-739 | keeps the invariant and equals the model step, of which `ForwardCloseAnswers` says when it is closed, wrong closer or not found |
| ConnectionManager.ConnectionManager.HandleReceivedConnectedData | ethernetiplibrary/src/main/cpp/opener/cip/cipconnectionmanager.c:288-343 | accepts what is later than the stored count, stores it and restarts the watchdogs |
| ConnectionManager.ConnectionManager.HandleExplicitRequest | ethernetiplibrary/src/main/cpp/opener/enet_encap/cpf.c:130-134 | an explicit request restarts the watchdog of its connection |
| ConnectionManager.ConnectionManager.CloseAllConnections | ethernetiplibrary/src/main/cpp/opener/cip/appcontype.c:421-429 | terminates with the length of the list as measure and leaves no connection |
| DoublyLinkedList.List.Allocate | ethernetiplibrary/src/main/cpp/opener/cip/cipconnectionobject.c:63-78 | finds a cleared node exactly if the pool is not exhausted, and never one that is on the list |
| DoublyLinkedList.List.InsertAtHead | ethernetiplibrary/src/main/cpp/opener/utils/doublylinkedlist.c:51-64 | the list is the new element and the old list, links mutually inverse |
| DoublyLinkedList.List.InsertAtTail | ethernetiplibrary/src/main/cpp/opener/utils/doublylinkedlist.c:66-79 | the list is the old list and the new element, links mutually inverse |
| DoublyLinkedList.List.InsertBeforeNode | ethernetiplibrary/src/main/cpp/opener/utils/doublylinkedlist.c:81-95 | the element stands in front of the given node, links mutually inverse |
| DoublyLinkedList.List.InsertAfterNode | ethernetiplibrary/src/main/cpp/opener/utils/doublylinkedlist.c:97-111 | the element stands behind the given node, links mutually inverse |
| DoublyLinkedList.List.RemoveNode | ethernetiplibrary/src/main/cpp/opener/utils/doublylinkedlist.c:113-141 | exactly the node's element goes, the node is cleared, links mutually inverse |
| DoublyLinkedList.List.NextLeads | ethernetiplibrary/src/main/cpp/opener/utils/doublylinkedlist.c:113-141 | from a listed node a walk goes on to the one behind it; from one taken off the list under it, it ends |
| DoublyLinkedList.List.RemoveData | ethernetiplibrary/src/main/cpp/opener/cip/cipconnectionmanager.c:1711-1719 | the first node of an element is unlinked, if there is one |
| DoublyLinkedList.List.FreeIffUnlisted | ethernetiplibrary/src/main/cpp/opener/cip/cipconnectionobject.c:63-93 | a pool node is reported free exactly if it is not on the list |
| DoublyLinkedList.List.ExhaustedIffFull | ethernetiplibrary/src/main/cpp/opener/cip/cipconnectionobject.c:63-78 | the pool is exhausted exactly if the list is as long as the pool |
| Timing.PacingStaysInBounds | ethernetiplibrary/src/main/cpp/opener/cip/cipconnectionmanager.c:982-1011 | for interval I > 0 and a timer t at the start, after k sends in time T: k*I + t <= T + timer <= T + I; with no tick above I, k*I + t = T + timer exactly |
| Timing.ZeroIntervalSendsEveryTick | ethernetiplibrary/src/main/cpp/opener/cip/cipconnectionmanager.c:982-1011 | a pacer with an interval of 0 sends in every tick |
| Timing.RpiBelowTick | ethernetiplibrary/src/main/cpp/opener/cip/cipconnectionobject.c:445-473 | an RPI below one tick comes to an interval of 0, and to a packet rate of one tick, except that an RPI of 0 comes to a rate of 0 |
| Timing.IntervalsRoundToTick | ethernetiplibrary/src/main/cpp/opener/cip/cipconnectionobject.c:445-473 | the sending interval is the RPI in milliseconds rounded down to the tick, the expected packet rate is it rounded up, both in 16 bits |
| Timing.IntervalsBracketRpi | ethernetiplibrary/src/main/cpp/opener/cip/cipconnectionobject.c:445-473 | below the 16-bit limit the two bracket the RPI and differ by 0 or one tick |
| Timing.RateReachesRpi | ethernetiplibrary/src/main/cpp/opener/cip/cipconnectionobject.c:459-473 | the expected packet rate reaches the RPI if and only if the RPI rounded up to the tick fits into 16 bits |
| Timing.WatchdogValue | ethernetiplibrary/src/main/cpp/opener/cip/cipconnectionobject.c:585-616 | the watchdog is (RPI/1000)*2^(2+multiplier) if and only if that is below 2^64, as it is for the multipliers 0 to 7 of the protocol; the first one is the larger of it and 10 s |
| Timing.NoTimeLost | ethernetiplibrary/src/main/cpp/opener/ports/generic_networkhandler.c:513-533 | time handed to the ticks plus the residue equals clock time, across the wrap of the clock word |
| Timing.NetworkClock.ProcessCyclic | ethernetiplibrary/src/main/cpp/opener/ports/generic_networkhandler.c:513-533 | one cycle equals the clock step; time is handed on once a tick is full and then starts from 0 |
| SequenceNumbers.GreaterMeansLater | ethernetiplibrary/src/main/cpp/opener/cip/cipconnectionmanager.h:150-152 | the macro compares two packets less than 2^31 apart as their true indices compare |
| SequenceNumbers.FarAheadLooksOld | ethernetiplibrary/src/main/cpp/opener/cip/cipconnectionmanager.h:150-152 | between 2^31 and 2^32 ahead it says not greater |
| SequenceNumbers.NotGreaterMeansNotLater | ethernetiplibrary/src/main/cpp/opener/cip/cipconnectionmanager.h:155-160 | the 16-bit comparison of counts less than 2^15 apart is that of their true indices |
| SequenceNumbers.FilterAcceptsRecords | ethernetiplibrary/src/main/cpp/opener/cip/cipconnectionmanager.c:311-334 | with each true index within 2^31 of the largest so far the filter accepts exactly the strictly increasing ones and stores the maximum modulo 2^32 (section 3-4.2 of CIP Volume 2) |
| SequenceNumbers.ReceptionFilters | ethernetiplibrary/src/main/cpp/opener/cip/cipconnectionmanager.c:311-334 | in any run in which it stays Established a connection runs that filter over the packets for it from its originator, whatever other events lie between |
| SequenceNumbers.ReceptionStoresMaximum | ethernetiplibrary/src/main/cpp/opener/cip/cipconnectionmanager.c:311-334 | so with each packet within 2^31 of the largest so far it stores the maximum modulo 2^32 in any such run |
| Wire.ENIPMessage.AddSint | ethernetiplibrary/src/main/cpp/opener/enet_encap/endianconv.c:120-126 | one octet goes to the position; position and used length move by one |
| Wire.ENIPMessage.AddInt | ethernetiplibrary/src/main/cpp/opener/enet_encap/endianconv.c:133-140 | two octets go in, little-endian |
| Wire.ENIPMessage.AddDint | ethernetiplibrary/src/main/cpp/opener/enet_encap/endianconv.c:147-156 | four octets go in, little-endian |
| Wire.ENIPMessage.StepBack | ethernetiplibrary/src/main/cpp/opener/enet_encap/endianconv.c:255-259 | position and used length move back together; the octets stay |
| Wire.Read16 | ethernetiplibrary/src/main/cpp/opener/enet_encap/endianconv.c:73-78 | a 16-bit field read from what was written is the value, and the pointer stands behind it |
| Wire.Read32 | ethernetiplibrary/src/main/cpp/opener/enet_encap/endianconv.c:99-105 | the same for 32 bits |
| Wire.HeaderInFront | ethernetiplibrary/src/main/cpp/opener/enet_encap/cpf.c:67-85 | a body behind the place of a header and then the header in front give header and body, with the used length of both |
| EPaths.EncodeEPath | ethernetiplibrary/src/main/cpp/opener/cip/cipcommon.c:1339-1386 | writes class, instance and attribute segments as the path size lets it, wrapping below zero; `EncodedOctets` has the octets |
| EPaths.DecodePaddedEPath | ethernetiplibrary/src/main/cpp/opener/cip/cipcommon.c:1388-1468 | the loop equals the decoder, of which `PathMeans` says what it reads, and reports two octets per counted word plus one |
| EPaths.PathRoundTrip | ethernetiplibrary/src/main/cpp/opener/cip/cipcommon.c:1339-1468 | decoding a path size and the encoded path gives the path, its whole size counted and the octets behind it left, if and only if the path size is what the ids need |
| EPaths.ReportedIsEncoded | ethernetiplibrary/src/main/cpp/opener/cip/cipcommon.c:1339-1468 | the count reported for such a path is the octets encoded plus the size octet |
| EPaths.DecodeConsumption | ethernetiplibrary/src/main/cpp/opener/cip/cipcommon.c:1388-1468 | a successful decode overshoots the path size by at most one word and reports the octets it advanced if and only if it met no 16-bit member segment |
| EPaths.WideMemberMiscounted | ethernetiplibrary/src/main/cpp/opener/cip/cipcommon.c:1453-1457 | a path of one 16-bit member segment: three octets advanced, five reported |
| EPathLayouts.PathMeans | ethernetiplibrary/src/main/cpp/opener/cip/cipcommon.c:1388-1468 | a path size and any list of logical segments that fill it, 0x20/0x21 class, 0x24/0x25 instance, 0x30/0x31 attribute, 0x28 member, in any order and format, decodes to the last id given for each, 0 for those not given, with what follows left over |
| EPathLayouts.NarrowPaths | ethernetiplibrary/src/main/cpp/opener/cip/cipcommon.c:1408-1452 | the octets of paths of class, of class and instance, and of class, instance and attribute in the 8-bit format, for all ids |
| EPathLayouts.WidePaths | ethernetiplibrary/src/main/cpp/opener/cip/cipcommon.c:1408-1452 | the same in the 16-bit format with any pad octet |
| EPathLayouts.MemberIgnored | ethernetiplibrary/src/main/cpp/opener/cip/cipcommon.c:1448-1452 | an 8-bit member segment leaves the path as it is |
| EPathLayouts.OtherSegmentsFault | ethernetiplibrary/src/main/cpp/opener/cip/cipcommon.c:1400-1462 | any other first octet is a path segment error |
| EPathLayouts.EncodedOctets | ethernetiplibrary/src/main/cpp/opener/cip/cipcommon.c:1339-1386 | the encoder writes such a list for every path: class, instance and attribute, each in the shorter format that holds it, stopping only where the path size is exactly used up |
| EPaths.CreateMessageRouterRequest | ethernetiplibrary/src/main/cpp/opener/cip/cipmessagerouter.c:243-269 | service, path and data of a request, or the error it is refused with; `RequestMeans` says which object is asked |
| EPaths.RequestAddsUp | ethernetiplibrary/src/main/cpp/opener/cip/cipmessagerouter.c:243-269 | for an accepted request, service octet, reported path and request data have the length of the message if and only if it has an octet; they are the message octet for octet if and only if the path has no 16-bit member segment besides |
| EPaths.EmptyRequestWraps | ethernetiplibrary/src/main/cpp/opener/cip/cipmessagerouter.c:243-269 | an empty message is accepted with almost 2^64 octets of data behind any path that decodes |
| EPathLayouts.RequestMeans | ethernetiplibrary/src/main/cpp/opener/cip/cipmessagerouter.c:243-269 | service octet, any such path and data give the request for exactly that class, instance and attribute with exactly these data |
| CommonPacketFormat.CreateCommonPacketFormatStructure | ethernetiplibrary/src/main/cpp/opener/enet_encap/cpf.c:234-327 | the moving-pointer parser equals the parse function for every input, length and earlier structure |
| CommonPacketFormat.AssembleLinearMessage | ethernetiplibrary/src/main/cpp/opener/enet_encap/cpf.c:615-717 | writes the packet field by field; after an unknown address item it fails with only the item count written |
| CommonPacketFormat.EncodeItems | ethernetiplibrary/src/main/cpp/opener/enet_encap/cpf.c:687-715 | the socket address items go out O->T first, then T->O, in whatever order they are held |
| CommonPacketFormat.EncodeExtendedStatusDataItems | ethernetiplibrary/src/main/cpp/opener/enet_encap/cpf.c:519-528 | at most two additional status words go out |
| CommonPacketFormat.PacketRoundTrip | ethernetiplibrary/src/main/cpp/opener/enet_encap/cpf.c:234-327 | parsing an assembled packet gives back the structure, items ordered O->T then T->O, for every address type, response or data, and anything behind the packet |
| CommonPacketFormat.ResponseRoundTrip | ethernetiplibrary/src/main/cpp/opener/enet_encap/cpf.c:438-582 | a response comes back if and only if it has at most two additional status words |
| WireLayouts.PacketAccepted | ethernetiplibrary/src/main/cpp/opener/enet_encap/cpf.c:234-331 | which packets are accepted, for every memory: with two items if and only if the announced length is theirs, with more if it holds the first two, with fewer if it is what is there |
| WireLayouts.PacketSays | ethernetiplibrary/src/main/cpp/opener/enet_encap/cpf.c:234-331 | what an accepted packet of two items says: every field where it stands, and what it does not have as it was |
| WireLayouts.SocketItemsLayout | ethernetiplibrary/src/main/cpp/opener/enet_encap/cpf.c:686-715 | every octet of two socket address items, 0x8000 in front of 0x8001 in whatever order they are held |
| Encapsulation.GenerateEncapsulationHeader | ethernetiplibrary/src/main/cpp/opener/enet_encap/encap.c:277-287 | 24 octets: command, length in 16 bits, session, status, sender context, options 0 |
| Encapsulation.CreateEncapsulationStructure | ethernetiplibrary/src/main/cpp/opener/enet_encap/encap.c:598-618 | reads the header; what remains is received minus header minus length, negative for part of a message |
| Encapsulation.FrameReply | ethernetiplibrary/src/main/cpp/opener/enet_encap/cpf.c:66-87 | the reply is assembled behind the place of its header and the header then written in front |
| Encapsulation.NotifyCommonPacketFormat | ethernetiplibrary/src/main/cpp/opener/enet_encap/cpf.c:37-111 | what is sent for an unconnected request: a framed reply, a refusal with status 3, or nothing |
| Encapsulation.FramedIsWhole | ethernetiplibrary/src/main/cpp/opener/enet_encap/cpf.c:66-87 | command, session and context come back and 0 octets remain, if and only if the body fits the length field |
| Encapsulation.ReplyRoundTrip | ethernetiplibrary/src/main/cpp/opener/enet_encap/cpf.c:66-87 | the requester reads its own header fields, nothing left over, and a packet that parses to the response |
| WireLayouts.UnconnectedReplyLayout | ethernetiplibrary/src/main/cpp/opener/enet_encap/cpf.c:37-87 | every octet of the reply to an unconnected request for all responses: header, interface handle and timeout 0, null address, 0xB2 item, response |
| WireLayouts.RefusalLayout | ethernetiplibrary/src/main/cpp/opener/enet_encap/cpf.c:88-111 | any other address or data type is answered by 24 octets with status 3; what does not parse or has no answer is not answered |
| IoFrames.IoConnection.SendConnectedData | ethernetiplibrary/src/main/cpp/opener/cip/cipioconnection.c:823-910 | the sequence number goes up by 1 modulo 2^32, the class 1 count by 1 modulo 2^16 if the data are new; builds the frame of `FrameLayout` with the step back over the length field |
| IoFrames.IoConnection.HandleReceivedIoConnectionData | ethernetiplibrary/src/main/cpp/opener/cip/cipioconnection.c:912-961 | stores the class 1 count, takes the run/idle word and delivers or not, with 16-bit lengths that wrap; says the mode and whether its change is notified |
| IoFrames.FrameParses | ethernetiplibrary/src/main/cpp/opener/cip/cipioconnection.c:823-910 | every frame parses to its connection id, sequence number and payload, if and only if the payload fits the length field |
| IoFrames.PayloadDelivers | ethernetiplibrary/src/main/cpp/opener/cip/cipioconnection.c:912-961 | a heartbeat or a stale class 1 count delivers nothing; everything else delivers exactly the assembly data if and only if both ends have the same run/idle setting |
| IoFrames.IoFrameRoundTrip | ethernetiplibrary/src/main/cpp/opener/cip/cipioconnection.c:823-961 | a frame sent and received names the connection, carries the next sequence number and hands over the data, for every class, heartbeat or not; the count it tells this by is that of `CountInFrame` |
| IoDeliveries.DueIsDelivered | ethernetiplibrary/src/main/cpp/opener/cip/cipioconnection.c:823-961 | over any run of sends, whatever frames are lost, the receiver gets exactly the data of frames that arrive, are not empty and, in class 1, have less than 2^15 new data (counted modulo 2^16) and at least one since the last frame that arrived |
| IoDeliveries.NewDataDelivered | ethernetiplibrary/src/main/cpp/opener/cip/cipioconnection.c:868-871 | on a new connection that loses nothing each new datum is delivered once, in order, and in class 1 no datum that is not new |
| WireLayouts.FrameLayout | ethernetiplibrary/src/main/cpp/opener/cip/cipioconnection.c:823-910 | every octet of a frame for all ids, counters and data: 0xA1 or 0x8002 address, next sequence number, 0xB1 item, class 1 count, run/idle word, data |
| WireLayouts.CountInFrame | ethernetiplibrary/src/main/cpp/opener/cip/cipioconnection.c:868-871 | the first two payload octets of a class 1 frame are the last count plus 1 modulo 2^16 if the data are new, and the last count otherwise |
| ExplicitReplies.Class3Connection.NotifyConnectedCommonPacketFormat | ethernetiplibrary/src/main/cpp/opener/enet_encap/cpf.c:134-204 | one request: a repeated count is answered from memory, otherwise the router is called and its reply stored |
| ExplicitReplies.Class3Connection.RepeatReply | ethernetiplibrary/src/main/cpp/opener/enet_encap/cpf.c:146-165 | the stored octets go out behind a new header with the right length; with nothing stored the size wraps and nothing goes out |
| ExplicitReplies.OneCallPerBlock | ethernetiplibrary/src/main/cpp/opener/enet_encap/cpf.c:134-204 | on a new connection the router is called once for each block of equal counts, and once less if the first count is 0, whatever it answers |
| ExplicitReplies.RepeatsGetSameReply | ethernetiplibrary/src/main/cpp/opener/enet_encap/cpf.c:146-165 | in any run each repeat of an answered request gets the same octets behind the header, its own header fields and a correct length field |
| ExplicitReplies.RepeatAfterError | ethernetiplibrary/src/main/cpp/opener/enet_encap/cpf.c:166-204 | after a router error the count is kept but no reply: in any run each repeat gets the reply to an older request, or nothing if there was none |
| ExplicitReplies.ReplyNamesConnection | ethernetiplibrary/src/main/cpp/opener/enet_encap/cpf.c:180-204 | the reply to an answered request, as it parses: producing id of the connection, 0xA1 address, 0xB1 data that are the request's count and the response |
| WireLayouts.ConnectedReplyLayout | ethernetiplibrary/src/main/cpp/opener/enet_encap/cpf.c:166-204 | every octet of such a reply, header included |
| Sessions.SessionTables.RegisterSession | ethernetiplibrary/src/main/cpp/opener/enet_encap/encap.c:435-480 | registering equals the model for every version, option and table |
| Sessions.SessionTables.UnregisterSession | ethernetiplibrary/src/main/cpp/opener/enet_encap/encap.c:489-505 | frees a registered session and its timer, and knows an unregistered one |
| Sessions.SessionTables.CloseSession | ethernetiplibrary/src/main/cpp/opener/enet_encap/encap.c:652-662 | frees the session of a socket and its timer |
| Sessions.SessionTables.CloseSessionBySessionHandle | ethernetiplibrary/src/main/cpp/opener/enet_encap/encap.c:644-650 | frees a session and its timer |
| Sessions.SessionTables.RemoveSession | ethernetiplibrary/src/main/cpp/opener/enet_encap/encap.c:664-673 | frees the session of a socket and leaves the timers |
| Sessions.SessionTables.EncapsulationShutDown | ethernetiplibrary/src/main/cpp/opener/enet_encap/encap.c:675-683 | closes the sessions in turn |
| Sessions.SessionTables.RemoveSocketTimerFromList | ethernetiplibrary/src/main/cpp/opener/ports/generic_networkhandler.c:389-397 | clears every timer of a socket and ends, with the matching timers as measure, if the socket is valid or no timer is free |
| Sessions.ClearingEnds | ethernetiplibrary/src/main/cpp/opener/ports/generic_networkhandler.c:389-397 | clearing in rounds comes to an end if and only if the socket is valid or no timer is free |
| Sessions.CloseByHandleEnds | ethernetiplibrary/src/main/cpp/opener/enet_encap/encap.c:644-650 | with tables in agreement, closing by a handle comes to an end if and only if the handle has a session |
| Sessions.SessionTables.GetSocketTimer | ethernetiplibrary/src/main/cpp/opener/ports/socket_timer.c:41-58 | the first timer of a socket, or of none: the first free timer |
| Sessions.TablesAgreeInEveryRun | ethernetiplibrary/src/main/cpp/opener/enet_encap/encap.c:435-505 | in every state of every run no socket is registered twice, each registered socket has exactly one timer, no other has any, and no step finds the timer table full |
| Sessions.RegisterAgrees | ethernetiplibrary/src/main/cpp/opener/enet_encap/encap.c:435-480 | registering succeeds exactly for a supported request of a socket without a session while one is free, takes a handle that was free, and otherwise changes nothing |
| Sessions.RegisterAnswers | ethernetiplibrary/src/main/cpp/opener/enet_encap/encap.c:435-480 | each request to register has one answer: unsupported protocol, the socket's own handle with an error, no memory, or the first free session and timer taken |
| Sessions.UnregisterFrees | ethernetiplibrary/src/main/cpp/opener/enet_encap/encap.c:489-505 | a handle of a session frees that session and the timers of its socket and nothing else; any other handle changes nothing |
| Sessions.CloseFrees | ethernetiplibrary/src/main/cpp/opener/enet_encap/encap.c:652-673 | closing a socket frees its first session and its timers and nothing else, removing it the session only; without a session neither changes anything |
| Sessions.CloseThenRemoveIsClose | ethernetiplibrary/src/main/cpp/opener/ports/generic_networkhandler.c:495-501 | clearing the timer and then removing the session is closing the session |
| Sessions.RemoveAlone | ethernetiplibrary/src/main/cpp/opener/enet_encap/encap.c:664-673 | removing a session without its timer keeps the tables in agreement if and only if there is no such session |
| Sessions.ShutdownFreesAll | ethernetiplibrary/src/main/cpp/opener/enet_encap/encap.c:675-683 | after a shutdown no socket has a session or a timer |
| CipInstances.CipClass.AddCipInstances | ethernetiplibrary/src/main/cpp/opener/cip/cipcommon.c:167-248 | appends the next unused numbers, counts them and recomputes the largest; says where the first one is |
| CipInstances.CipClass.AddCipInstance | ethernetiplibrary/src/main/cpp/opener/cip/cipcommon.c:250-262 | an instance with the number exists afterwards, added only if it did not before; says where it is |
| CipInstances.CipClass.CreateService | ethernetiplibrary/src/main/cpp/opener/cip/cipcommon.c:1470-1510 | adds one instance if the callback allows |
| CipInstances.CipClass.DeleteService | ethernetiplibrary/src/main/cpp/opener/cip/cipcommon.c:1512-1573 | takes out the one instance with the number if the callback allows |
| CipInstances.CipClass.GetMaxInstanceNumber | ethernetiplibrary/src/main/cpp/opener/cip/cipcommon.c:155-165 | the largest number in the list |
| CipInstances.FreshAreSmallest | ethernetiplibrary/src/main/cpp/opener/cip/cipcommon.c:182-236 | the numbers handed out are in order, were unused, and leave no smaller unused number out |
| CipInstances.SmallestUnusedIsUnique | ethernetiplibrary/src/main/cpp/opener/cip/cipcommon.c:182-236 | only one sequence of a length is in order, unused and leaves nothing out |
| CipInstances.NextUnused | ethernetiplibrary/src/main/cpp/opener/cip/cipcommon.c:182-212 | the search, with the numbers handed out so far in the list, stays within 16 bits |
| CipInstances.DeleteNumbers | ethernetiplibrary/src/main/cpp/opener/cip/cipcommon.c:1541-1558 | deleting takes one number out and leaves all others |
| CipInstances.DeletedInPlace | ethernetiplibrary/src/main/cpp/opener/cip/cipcommon.c:1541-1558 | the others stay in their order |
| CipInstances.SoundInEveryRun | ethernetiplibrary/src/main/cpp/opener/cip/cipcommon.c:155-262 | in every state of every run the numbers are distinct and not 0, the count is the length and the maximum the largest |
| HostNames.IsValidNameLabel | ethernetiplibrary/src/main/cpp/opener/cip/ciptcpipinterface.c:122-131 | accepts exactly the labels of letters, digits and inner hyphens |
| HostNames.IsValidDomain | ethernetiplibrary/src/main/cpp/opener/cip/ciptcpipinterface.c:146-173 | accepts exactly the names of the grammar, and leaves the buffer as it found it |
| HostNames.DomainIsLabels | ethernetiplibrary/src/main/cpp/opener/cip/ciptcpipinterface.c:146-173 | a name is accepted if and only if it is one or more valid labels joined by dots (section 2.1 of RFC 1123, without length limits) |

## Left out

- ConnectionManager.ConnectionManager.ForwardOpen: points with mixed T->O connection types, requests with O->T multicast or null, exclusive-owner points that share an input: the code does not keep its own rules there.
- ConnectionManager.ConnectionManager.AddNewActiveConnection: the node pool is taken as not exhausted; `DoublyLinkedList.List.Allocate` says what exhaustion is.
- ConnectionManager.ConnectionManager.RemoveFromActiveConnections: the class holds the list as a sequence, so that the node is cleared is stated by `DoublyLinkedList.List.RemoveData`.
- ConnectionManager.ConnectionManager.CloseClass3ConnectionBasedOnSession: finds the connection by one search; `SessionWalk` has the walk over the nodes.
- ConnectionManager.ConnectionManager.ManageConnections: ends early when the connection has left the table, without the node that is cleared; no production inhibit timer.
- ConnectionManager.ConnectionManager.TransferMaster: the remote address and the class 1 count, which move as well, are not in the life cycle.
- ConnectionManager.ConnectionManager.SendConnectedData: records the count and the id; the octets are in `IoFrames`.
- ConnectionManager.ConnectionManager.CloseEncapsulationSessions: the sessions of the peer are handed in as a list of handles instead of being found by their address.
- ConnectionManager.ConnectionManager.CheckSetup: the corrected sizes in the error reply are not stated, and configuration data are a verdict of the environment.
- ConnectionManager.ConnectionManager.EstablishIoConnection: the outcome of the configuration data is a parameter.
- ConnectionRuns.MulticastGroupHasOneHolder: the holder may be TimedOut, as the code allows; `ConnectionSilence` says exactly when it is.
- ConnectionSequence.FramesConsecutive: says nothing about runs in which an exclusive owner takes over a running group; `FramesFollow` is about all runs.
- ConnectionTicks.ExpiresInFirstTick: no packet for the connection is accepted over the run, and no messaging connection in front of it expires; `WatchdogCounts` and `ExpiresWhenRunOut` are about runs with accepted packets, `TickReachesExactly` about one tick with any list.
- ConnectionTicks.TickReachesExactly: a session that ends in the tick can take a messaging connection with it before it expires; `TickReaches` is about those ticks too, one way.
- Sessions.SessionTables.UnregisterSession: the close of the session's class 3 connection is in the connection modules.
- Sessions.SessionTables.CloseSession: the same.
- Sessions.SessionTables.RemoveSession: the same.
- ConnectionPacing.GroupOnTime: the lower half of the pace is for runs with one holder; a master further in front that gets the socket in a tick misses that tick.
- CommonPacketFormat.CreateCommonPacketFormatStructure: does not say what the one structure holds after a parse that failed.
- ExplicitReplies.Class3Connection.NotifyConnectedCommonPacketFormat: starts at the connection that was found and the structure that was parsed, and does not model changes that a service makes to that structure while the router runs.
- Sockets are tokens, valid or not; creating, binding and closing them, quality of service and address lookup succeed and are not modelled.
- Parsing of connection paths and electronic keys: requests arrive parsed.
- The class 1 counts are in `IoFrames`, not in the life cycle.
- The production inhibit timer, application triggers and the last-package timer beyond its role in ending an originator's sessions.
- Application callbacks apart from their verdicts, attributes and services of the concrete objects, stored settings, network configuration.
- Delayed identity replies, 64-bit fields and international strings, big-endian hosts.
- Allocation failures in the instance list.
- The Java side and its native bindings.
