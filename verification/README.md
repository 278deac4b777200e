# Sockets over shared memory: a verified model

shmsock lets two processes use the socket and epoll APIs over one shared memory region, without the
kernel. A connection is one record in that region. The connecting process creates it and publishes it
in an interface list, the peer accepts it, both ends use it as two packet queues, and each side closes
it in turn. The library is compiled twice, as server and as client, with the fields of the shared
records in opposite order, so that what one side calls "own" the other calls "remote".

The model has two layers.

- **Values.** `Connections` (util.h, util.c), `Descriptors` (socket.c) and `Readiness` (event.c) describe
  every operation as a function from shared memory and the private tables of one process to their new
  values and an outcome. `Duplex` turns them into a two-process system: a move is one call, or one pass
  of a waiting call, by one process. All theorems about runs are about this system, for every
  interleaving.
- **In place.** `SharedRegion.SharedMemory`, `Sockets.Process` and `Events` are the C code in its own
  form: fields and arrays updated in place, search loops, waiting loops. Each method is proved to leave
  exactly the state and outcome that the value layer gives.

What the model makes explicit:

- A pointer into shared memory is a number; the records are a map from numbers to contents, so a freed
  record is a missing key. Following a null or freed pointer, and writing outside the array of poll, is the
  outcome `Undefined`; `UndefinedExactly` and `PollUndefinedExactly` say when that can happen at all.
- Of the pointers that callers pass, the model has one: the address of accept4, which its declaration allows
  to be null (socket.c:218). All others are taken to be valid: the address of bind, connect, getsockname and
  getpeername, buffers and message headers, the arrays of epoll_pwait and poll, and the event of EPOLL_CTL_ADD
  and EPOLL_CTL_MOD (which epoll_ctl declares nullable as well, event.c:225, for the sake of EPOLL_CTL_DEL).
- malloc is a parameter (`block`): it returns any address not in use, and addresses may be used again.
- Each process is single-threaded (`NOLOCK`, socket.c:121, event.c:189). One util.c operation, one pass
  of a waiting loop and one scan are atomic; the two processes interleave between them. Simultaneous
  close is an admitted race of the code (util.c:515-517) and is outside this granularity.
- A waiting loop gets a schedule: what shared memory holds after each of its sleeps. It is arbitrary, so
  the peer may do anything; `WaitingCallIsRun`, `EpollPwaitIsRun` and `PollIsRun` connect it to runs of the
  two-process system, and show that these runs can be played whenever the peer's moves can.
- The results about runs start from `Initial` (interfaces registered, no call made) and hold for every
  `Playable` run: malloc returns unused addresses, and no step is undefined in C.
- Ports are the raw `sin_port` values that the code compares and counts (socket.c:42, socket.c:60). On a
  little-endian host they are not the port numbers of the application: the raw port 10000 is port 4135.
- Event masks are 32-bit vectors with the constants of epoll, and `poll` converts to and from 16 bits.
- Lengths are natural numbers. The C code uses `int` for them and for the millisecond arithmetic of the
  timeout, so results about lengths and timeouts are about values whose arithmetic fits.

Where the code differs from its own comments or from what a caller expects, the model follows the code
and proves when the expectation holds:

- A listening or connecting descriptor is reported readable even if EPOLLIN was not asked for; the
  comment at event.c:391 says otherwise (`ListeningReportedExactly`).
- The 0.0.0.0 wildcard exists for accept but not for readiness: `BlindSpots.WildcardExactly` says in which
  networks and for which ports a run can end with a connection that is never reported.
- util.c:440 warns that a process must not accept its own connections. It can, exactly on listening
  ports 10000 to 10198 (`SafePortTakesPeer`, `UnsafePortTakesOwn`).
- A registration survives the closing of its descriptor and passes to the next one in the same slot,
  although event.c:142-148 speaks of deregistering: `CallAgreesExactly` says exactly which calls break the
  table, `AcceptInheritsRegistration` what a server then sees, `DeleteBeforeCloseIsEnough` how to avoid it.
- A poll whose registration phase fails leaves registrations in the table that all polls share. The
  descriptors it left there cannot be polled again (`PollLeavesEmptyExactly`, `PoisonedForGood`), and closing
  one passes the registration on to the next descriptor in its slot (`BornPoisonedExactly`). Polls of other
  descriptors hear the leftovers as well: they can return a wrong answer (`WrongAnswerIsReached`), write
  outside the array (`StrayWriteIsReached`) or follow a null pointer (`NullPollIsReached`).
  `PollUndefinedExactly` says exactly when they are undefined, `PollIsDefined` what a caller can do about it,
  and `PollOverLeftovers` when the leftovers are not heard and the answer is right.
- The table that poll keeps has a number like any other. A process that closes it can never poll again
  (`PollAfterItsTable`).
- accept4 writes the peer's address through the caller's pointer without looking at it, although it may be
  null (`UndefinedExactly`, `NamelessAcceptIsReached`).
- recv can report end of file, or EAGAIN, with bytes unread (`EofHonestExactly`, `EmptyHandedHonestExactly`).
  After such an end of file they can never be received (`EofLosesForGood`).
- send on a connection that the peer has closed marks the descriptor closed, so that what the peer sent before
  it closed can no longer be received (`RefusedSendLosesForGood`).
- Closing a listening socket leaks its private record: closeConnection marks it, and nobody is left to
  close it a second time (`ClosedListenerLeaks`).
- The comment at socket.c:300 says that the acceptance test is also true for a closed connection; it is
  not, and connectEx then fails with ECONNREFUSED. What the peer sent between accepting and closing can never
  be received (`RefusalLosesForGood`).
- accept4 hands out descriptor numbers without the range check of socket(). There are runs in which it
  returns 900 (`AcceptBeyondRange`); close then takes the number for an epoll table, the peer gets no hangup
  (`CloseMisses`), and the descriptor and its connection are never released (`NeverReleased`).
- close, getsockname, getpeername and fcntl return 1, not -1, for an unknown descriptor
  (socket.c:16-21).

## Model

| member | source | states |
|---|---|---|
| Streams.BytePipes | util.c:525-586 | After any run of the two processes, per connection and direction, the bytes sent are the bytes received followed by the bytes still queued, for any interleaving, buffer sizes and reuse of addresses |
| Streams.RunKeepsHistory | util.c:498-586 | The pipe equation, the wakeup bits and the absence of empty packets are kept together by every run from any consistent state |
| Streams.NoLostWakeup | util.c:519-543 | A packet or a hangup that arrived after the last edge-triggered report of its event leaves the event bit set, whatever both processes do in between |
| EdgeMasks.MaskIsHistory | util.c:514-543 | Every edge-triggered mask, of each side of each record after any run, is exactly what the calls and their results make of it: a bit is set if and only if it was raised (EPOLLIN by a send of the peer or a level-triggered report of a connecting or listening descriptor, EPOLLHUP by a close of the peer) after it was last reported |
| EdgeMasks.NoSpuriousWakeup | event.c:343-435 | So a bit that is clear and that nobody raises stays clear, whatever else both processes do, and no edge-triggered entry of a connected descriptor reports it |
| Packets.PacketsFreedExactly | util.c:525-586 | In every reachable state the queue holds the last packets sent, whole except for the one in front; the bytes received are those of the freed packets and the delivered part of that one; a packet with bytes is freed if and only if its last byte has been delivered |
| Packets.FreedOnce | util.c:567-575 | Over any run that does not remove the record, packets are only added to those sent, and the number freed never decreases |
| Packets.DrainedIsSignalled | util.c:539-543 | In every reachable state without empty packets, unread bytes mean that EPOLLIN is set, or that recv has not yet come back empty-handed since the last edge-triggered report |
| Packets.DrainedIsWoken | event.c:343-435 | So a reader that drains and then waits is woken by the next scan over a table with its edge-triggered listener, unless the array is full |
| Wakeups.WakeupDelivered | event.c:343-435 | After any run, the next scan over a table with a subscribed edge-triggered listener reports such a pending event, unless the caller's array is full |
| Wakeups.ScanReports | event.c:364-434 | A set bit of a subscribed registration anywhere in the table is written by the scan or the budget is used up first |
| Wakeups.EdgeBitsConserved | event.c:343-359 | One iteration of the scan, for an edge-triggered registration: the bits before are the disjoint union of the bits written and the bits left, and no other record changes |
| Conservation.ScanConserves | event.c:343-435 | A whole scan, for each edge-triggered registration of an open descriptor: if the scan reaches it, its bits (with EPOLLIN where the scan raises it) are the disjoint union of those in its entry and those left; if it does not, its record is untouched |
| Conservation.ReachedExactly | event.c:364 | A scan reaches a registration if and only if fewer than `maxevents` entries come before it |
| Wakeups.ScanWithinBudget | event.c:364 | A scan never writes more than `maxevents` entries |
| Streams.ScanKeepsEvent | event.c:353-359 | No event bit of any connection is cleared by a scan without being written to the caller |
| Reachability.ReferenceCounting | util.c:479-522 | In every reachable state `connState` is the exact number of active descriptors on a connection (create 1, open 2, closed 1, listening 1; 0 for the private record of a closed listener), a removed one has none, and each published one is listed once |
| Reachability.ClosedListenerLeaks | util.c:513-521 | After a listening socket is closed, no later state has a descriptor on its record, and none has the record removed |
| Reachability.RunKeepsInv | socket.c:105-323 | The invariant (reference counts, descriptor typing, unique numbers, lists, tables) is kept by every interleaving of calls |
| Reachability.DescriptorTyping | socket.c:90-323 | Which connection states each descriptor state allows, in every reachable state; a pending connection is only ever held by a connecting descriptor |
| Reachability.UndefinedExactly | socket.c:252-266 | A call follows a null or freed pointer if and only if it is accept4 with a connection to take and no free slot or no place for the peer's address, or a scan over a socket that is neither listening nor connected with fewer than `maxevents` reports before it |
| Witnesses.NamelessAcceptIsReached | socket.c:262-266 | Whenever the peer can reach an interface of a process, a run exists after which accept with a null address writes through it |
| Scanning.ScanFromUndefined | event.c:364-435 | The same for a scan from any registration on, for every size of the array |
| Polling.PollPassUndefinedExactly | event.c:537-548 | A pass of poll over a table that holds exactly its requests follows a null pointer if and only if it was asked about such a socket |
| PollSafety.PollUndefinedExactly | event.c:517-570 | poll on any table, empty or not, is undefined if and only if all its requests are registered and its last pass reaches an unconnected registration, whoever made it, or reports an entry that names no request, and so writes outside the array |
| LeftoverRuns.PollUndefinedOverRuns | event.c:517-570 | The same for every poll of every run, with the peer's moves in its sleeps |
| Leftovers.PollIsDefined | event.c:517-570 | poll is defined, whatever the peer does, if its requests are in use and every leftover of an open descriptor is connected and has as its data an index of this poll |
| LeftoverWitnesses.StrayWriteIsReached | event.c:552-558 | A run in which a poll of one listening socket, never polled before, writes outside its array, after a poll of others has failed with EBADF |
| LeftoverWitnesses.NullPollIsReached | event.c:537-548 | A run in which such a poll follows a null pointer: a socket has taken the slot of a closed leftover |
| Witnesses.UnconnectedScanIsReached | event.c:364-435 | From every initial state, creating a socket, creating a table and registering the one in the other leads to such a scan |
| Reachability.RunMovesForward | util.c:441-522 | While a record lives its state only moves create, open, close (or listen, close) and it stays on its interface |
| Reachability.CloseReleasesExactly | socket.c:257 | close releases a descriptor if and only if its number is below 900; accept4 does not check the numbers it hands out |
| Overrun.AcceptBeyondRange | socket.c:252-260 | Whenever the peer can reach an interface of a process, a run exists after which accept4 has returned descriptor 900, with or without an epoll table of that number |
| Overrun.CloseMisses | socket.c:450-472 | close on such a number changes neither memory nor descriptors, so the peer gets no EPOLLHUP; it fails, or closes the epoll table of that number |
| Overrun.NeverReleased | socket.c:450-472 | No later call of either process releases that descriptor or removes its connection |
| Duplex.RemovalKeepsInv | util.c:479-513 | A closer that finds the record closed or never accepted holds the only reference, so removing it leaves no dangling descriptor |
| Duplex.MarkingKeepsInv | util.c:514-521 | The first closer leaves a closed record with one reference less |
| Duplex.StartConnectKeepsInv | socket.c:290-295 | Publishing a new record at any unused address keeps counts, lists and typing |
| Reachability.EstablishKeepsInv | socket.c:252-260 | Taking a slot for an accepted connection raises its count to two |
| Reachability.CtlKeepsTable | event.c:225-309 | epoll_ctl never gives a slot two active registrations |
| Sides.OpenJoinsBothSides | socket.c:218-323 | If no process binds a port in 10000..10198, every open connection has exactly one active descriptor in each process, and getpeername of one is getsockname of the other |
| Pairing.AcceptTakesNewest | util.c:387-475 | In every reachable state, accept takes the most recently initiated pending connection for its port, on the first table entry that matches and has one |
| Pairing.AcceptTakesPeerConnect | util.c:406-475 | The connection taken was initiated by the peer, naming this port and an address the listener covers; otherwise the listening port is one of the acceptor's own ephemeral ports |
| Pairing.AcceptedOnce | util.c:441-454 | A connection that was taken is never pending again while its record lives |
| Waits.AcceptExactly | socket.c:218-267 | One pass of accept4 finds nothing if and only if no table entry that the address matches lists a pending connection for the port; it then fails with EAGAIN or waits as the flag of the listener says, without a change |
| Waits.AcceptWaits | socket.c:232-250 | A blocking accept never answers EAGAIN: it waits while nothing is on offer and ends with the first memory in which something is |
| Pairing.PeerNameIsTarget | socket.c:661-685 | getpeername on the initiating side returns the address and port given to connect |
| Waits.ConnectExactly | socket.c:301-323 | A pass of connectEx on a connecting descriptor succeeds, and opens it, if and only if the peer has accepted, is refused if and only if it has closed, and otherwise answers EINPROGRESS or waits as the flag says |
| Waits.BlockingConnect | socket.c:301-323 | A blocking connect never answers EINPROGRESS: it waits while its record is pending and ends with the first memory in which it is not, with 0 or ECONNREFUSED |
| Waits.ConnectWaits | socket.c:301-323 | The same for connectEx on a descriptor that is connecting already |
| Waits.FirstPassExactly | socket.c:290-323 | The pass that starts a connect never succeeds at once |
| Waits.ConnectFailsExactly | socket.c:275-289 | connectEx starts nothing if and only if the descriptor is not a fresh one (EBADF) or no interface of the table has the address (ENETUNREACH) |
| Waits.ConnectIsOnce | socket.c:327-349 | connect answers EALREADY if and only if the descriptor is connecting, and then changes nothing |
| Pairing.RunKeepsBirths | socket.c:282-295 | In every run each record agrees with the connect call that made it and interface lists are ordered newest first |
| Ports.SafePortTakesPeer | socket.c:60 | A listener outside ports 10000..10198 only takes connections the peer initiated, in every run |
| Ports.UnsafePortTakesOwn | socket.c:60 | For every port in 10000..10198 and any process with an interface there is a run after which its listener would take a connection of its own process |
| Ports.RunKeepsBound | socket.c:153-162 | Ephemeral ports never outrun the 200 sockets a process can create, counting the unconnected ones |
| Draining.EofMeansAllReceived | socket.c:375-412 | Over whole runs, with no empty packets and room in the buffer, recv returns 0 if and only if the peer has closed and everything it sent has been returned |
| Draining.EofExactly | socket.c:386-395 | Exactly when recv reports end of file, for every length and queue |
| Draining.EofHonestExactly | socket.c:386-395 | On a closed connection, end of file implies that nothing is unread if and only if the caller offers room and the packet in front is not empty, or nothing is left |
| Draining.EmptyReadLosesBytes | socket.c:386-395 | A read with no room on a closed connection with unread bytes returns 0 and makes the next read of the descriptor fail |
| Stranded.EofLosesForGood | socket.c:386-395 | After recv has reported end of file, for whatever reason, recv and send on the number fail for good, and the bytes unread then are unread in every later state in which the record still exists |
| Stranded.RefusalLosesForGood | socket.c:301-308 | The same after a connect that is refused because the peer has accepted, sent and closed in the meantime |
| Stranded.RefusedSendLosesForGood | socket.c:363-369 | The same after a send that fails because the peer has closed: recv, send and sendmsg on the number fail for good, and what the peer sent before it closed is never received |
| Stranded.RefusedMessageIsRefusedSend | socket.c:578-584 | sendmsg on a closed connection fails with the same error and the same effect as send, whatever its pieces |
| Stranded.SendExactly | socket.c:353-372 | In every reachable state send on an open descriptor takes all the bytes and leaves it open if the peer has not closed; otherwise it fails with ENOTCONN, changes no memory and marks the descriptor closed |
| Stranded.FinishedForGood | socket.c:90-93 | A descriptor marked closed never sends or receives again, nor does any later descriptor have its number |
| Stranded.StrandedForGood | socket.c:375-412 | Once a connection is closed and none of its descriptors is open, its queues stay as they are and every recv on it fails, whatever both processes do, until the record is removed |
| Witnesses.RoomlessEofIsReached | socket.c:386-395 | A run that ends with end of file and a byte unread, because the caller offers no room |
| Witnesses.EmptyPacketEofIsReached | socket.c:386-395 | The same because an empty packet is in front, for every length of the read |
| Witnesses.EmptyPacketEagainIsReached | socket.c:386-407 | A run that ends with EAGAIN and a byte unread, because an empty packet is in front |
| Witnesses.RefusalIsReached | socket.c:301-308 | A run that ends with a refused connect and a byte unread |
| Witnesses.RefusedSendIsReached | socket.c:363-369 | A run that ends with a refused send and a byte unread |
| Draining.EmptyHandedExactly | socket.c:386-407 | Exactly when recv fails with EAGAIN or waits, for every length and queue |
| Draining.EmptyHandedHonestExactly | socket.c:386-407 | On an open connection, EAGAIN (or waiting) implies that nothing is unread if and only if the caller offers room and the packet in front is not empty, or nothing is unread |
| Draining.DrainCount | util.c:551-586 | Draining packets with a fixed buffer of L bytes takes exactly the sum of the sizes divided by L, each rounded up, and returns the bytes in order |
| Draining.PiecesIsCeiling | util.c:561-585 | The number of reads one packet takes is its size divided by L, rounded up |
| Draining.ReadTakesOnePiece | util.c:561-585 | A read never crosses a packet boundary: it returns at most L bytes and takes exactly one piece off the count |
| Draining.DrainReachesEof | socket.c:375-412 | On a closed connection with n unread bytes, calling recv yields exactly those bytes, then end of file, in at most n + 1 calls |
| LevelTriggered.LevelScan | event.c:162-435 | A level-triggered scan writes exactly the first `maxevents` entries of the ready registrations in slot order, with readiness computed from the state before the scan |
| LevelTriggered.MixedScan | event.c:343-435 | The same for tables that mix both trigger modes: edge-triggered entries report the event bits that are set before the scan, as long as no two registrations share a connection |
| Sides.ReachableTablesAreMixed | socket.c:218-323 | In every reachable state on safe ports no two registrations of a table share a connection |
| LevelTriggered.ScanReportsLevel | event.c:343-435 | A level-triggered registration of a connected socket that is ready is written by the scan, or the array is full |
| LevelTriggered.LevelMaskExactly | event.c:162-181 | The level mask has EPOLLIN exactly when data waits, always EPOLLOUT, EPOLLHUP exactly when closed, and nothing else |
| LevelTriggered.ScanDropsClosed | event.c:371-376 | A scan with room to spare leaves only registrations of open descriptors |
| Scanning.ScanFromFrame | event.c:364-435 | A scan changes no queue, port or connection state: only this role's masks, accepted connecting descriptors, and registrations of closed descriptors |
| ListenerReadiness.SearchFoundAccepts | util.c:424-475 | What readiness finds accept finds, and for a non-zero listen address both pick the same connection |
| BlindSpots.WildcardExactly | util.c:424-475 | Some run ends with an acceptable connection that readiness does not see if and only if the listener uses 0.0.0.0 and connections can reach it over an interface with a non-zero own address: from the peer, or, on ports 10000..10198, from its own process |
| ListenerReadiness.ListeningReportedExactly | event.c:379-404 | A listening registration is reported, in either trigger mode and for any mask, if and only if the search finds a pending connection |
| ListenerReadiness.ReportedListenerAccepts | event.c:379-404 | If a scan reports a listening descriptor, accept on it finds a connection in the state the scan leaves |
| ConnectReadiness.ScanOpensReported | event.c:407-430 | A pass of epoll_pwait over any table opens a connecting descriptor if and only if it reports a registration of its slot, and leaves all other descriptors as they were |
| ConnectReadiness.ReportedConnectSends | event.c:407-430 | If a scan reports a connecting descriptor, the peer has accepted, and send on it in the state the scan leaves takes all the bytes |
| Registry.CtlRefinesMap | event.c:251-309 | epoll_ctl is an operation on a map from numbers to registrations: EEXIST exactly when present, ENOENT exactly when absent, nothing else affected |
| RegistryRuns.RegistryRefinesMap | event.c:225-309 | After every run in which no call takes a slot with a registration left, the open tables are those created and not closed, and what each holds for each number is what the epoll_ctl and close calls, by their results, make it |
| RegistryRuns.CallAgreesExactly | event.c:85-309 | Any call keeps that agreement if and only if it does not take a slot that has a registration left in an open table |
| RegistryRuns.DeleteBeforeCloseIsEnough | event.c:295-304 | A process that deregisters every socket before it closes it never takes such a slot |
| Registry.CloseDeregisters | event.c:142-148 | Closing a descriptor removes exactly its number from the map of every table |
| Registry.NewSlotRegisteredExactly | event.c:85-99 | A new descriptor is registered from birth, and ADD answers EEXIST for it, if and only if its slot has a stale registration |
| Registry.NewDescriptorRegisteredExactly | socket.c:159-167 | The same for the descriptor that socket() returns |
| Registry.AcceptedRegisteredExactly | socket.c:252-260 | The same for the descriptor that accept4 returns |
| Registry.AcceptInheritsRegistration | event.c:364-435 | A level-triggered registration left by a closed descriptor reports the accepted connection in its slot under the data of the closed one |
| Registry.CloseThenSocketIsRegistered | event.c:85-99 | Closing a registered descriptor and opening a socket in its slot is always such a case |
| Witnesses.BornRegisteredIsReached | event.c:85-99 | From every initial state a run of five calls leads to a socket that nobody registered and that cannot be added |
| PollRuns.PollIsReadinessOverRuns | event.c:517-570 | In every run in which no poll of the process leaves registrations behind (each returns a count, or fails for want of a table or because its first descriptor is not open) and no other call is on the internal table, a poll on at most 20 distinct sockets in use with non-negative masks returns each one's readiness in a memory it has seen, counts the ready ones and leaves the table empty, or still waits, or (the first one) gets no table |
| PollRuns.PollIsRun | event.c:517-570 | poll, with the peer's moves in its sleeps, is a run of table creation, epoll_ctl calls and scans, which can be played whenever those moves can |
| Polling.PollIsReadiness | event.c:537-569 | The readiness test for one poll from an empty table and any schedule |
| Polling.PollPass | event.c:361-435 | One pass over a poll table writes an entry for every ready request and, if there is none, changes no descriptor and no registration |
| Polling.RegistersExactly | event.c:537-545 | From an empty table, for any masks, the registration loop succeeds if and only if the requests name at most 20 distinct open sockets; otherwise it stops at the first that does not fit, with the reason, and the table holds exactly those before it |
| Polling.RequestRegisteredExactly | event.c:537-545 | Each request registered asks for its own mask, under its index, for the descriptor it names, edge-triggered if and only if the 16-bit mask is negative |
| Polling.PollLeavesEmptyExactly | event.c:537-569 | A poll that returns leaves the table empty if and only if its requests name at most 20 distinct open sockets or the first one is not open |
| Polling.FailedPollLeaksExactly | event.c:537-545 | A poll that fails to register returns the reason and leaves exactly the requests before the refused one registered |
| Leftovers.PollOverLeftovers | event.c:537-569 | A poll between leftovers of earlier polls is still the readiness test of its own requests, and leaves the leftovers as they were, if its last pass hears none of them; unless the array is too short for all that is ready, the count is right only then |
| Leftovers.UnheardExactly | event.c:364-435 | The first `nfds` entries all belong to the requests if and only if each leftover that is ready has at least `nfds` ready registrations before it |
| Leftovers.ReportedExactly | event.c:364-435 | The first `maxevents` entries of a table, which are what a scan reports (LevelTriggered.MixedScan), are exactly those of the ready registrations with fewer than `maxevents` ready ones before them |
| LeftoverRuns.LeftoversOverRuns | event.c:517-570 | The same for every poll of every run on safe ports, with the peer's moves in its sleeps |
| LeftoverWitnesses.WrongAnswerIsReached | event.c:550-558 | A run in which a poll of one socket returns 1 and the readiness of another one, after a poll of that one has failed |
| PollPoison.FailedPollPoisons | event.c:537-545 | After such a failure exactly the descriptors before the refused one are registered in the table between polls; the first one is among them if it is open |
| PollPoison.AnyFailedPollPoisonsFirst | event.c:537-545 | From any table, empty or not, a poll that fails to register leaves its first descriptor, if open, registered in the table between polls, unless it was not registered before and the table was full |
| PollPoison.PoisonedForGood | event.c:537-545 | From then on every poll that names such a descriptor fails, with EEXIST if it names it first, whatever both processes do, until the application deregisters or closes that descriptor |
| PollPoison.ClosedLeavesStale | event.c:142-148 | Closing such a descriptor leaves its registration in the table of poll, for its slot |
| PollPoison.BornPoisonedExactly | event.c:85-99 | A new descriptor cannot be polled from birth if and only if the slot it takes has such a registration |
| PollPoison.SuccessorIsPoisoned | socket.c:159-167 | So the socket opened next in the slot of a closed leftover is one that cannot be polled |
| Waiting.TimeoutExactly | event.c:473-492 | With timeout T >= 0, at most 10T + 2 scans and 10T + 1 sleeps; 0 is returned exactly when that many scans find nothing, after 1000T + 100 microseconds of requested sleep |
| Waiting.NegativeTimeout | event.c:483-486 | Timeout -1 never gives up; any other negative one gives up after one scan |
| Messages.SendMsgSendsPrefix | socket.c:571-599 | sendmsg sends a prefix of the pieces, exactly one packet each and nothing else, with the peer free to act in between; it returns the total length if that is everything, and otherwise -1 on a connection the peer has closed |
| Messages.PiecesAgree | socket.c:587-597 | The loop in the two-process system is the loop on the memory each piece meets |
| BlockingCalls.WaitingCallIsRun | socket.c:232-250 | A waiting call with its schedule ends like the run of its passes with the peer's moves in the sleeps, and that run can be played if and only if those moves can and no pass is undefined |
| BlockingCalls.ConnectIsRun | socket.c:327-349 | connect is the run of its own pass, the passes of connectEx after it and the peer's moves in the sleeps, which can be played when those moves can |
| BlockingCalls.EpollPwaitIsRun | event.c:361-493 | The same for epoll_pwait |
| BlockingCalls.ReachableStatesAreWired | socket.c:218-323 | Every reachable state, and every state the peer makes of it, meets what the methods in place and poll require of memory and tables, and getsockname and getpeername follow no null or freed pointer there |
| Layout.OperationsAgree | util.c:343-586 | Creating, sending, receiving, marking closed and setting level events, on the memory and compiled for either role, are the operations of the model, and so are the two addresses of an interface |
| Layout.SameRoleNeverDelivers | util.h:54-68 | The opposite orders are needed: what one compilation sends, the other one receives, and a second instance of the first does not |
| Mirror.RunMirror | util.h:54-68 | Swapping the two processes in a state and in a run swaps the result: both compilations implement one symmetric protocol |
| Mirror.ApplyMirror | util.h:29-33 | Every call in one role is the same call in the other role on the swapped memory |
| Mirror.RecordMirror | util.h:54-68 | The same for each operation on one record |
| Mirror.EndsAgree | socket.c:627-685 | On an open connection with a descriptor on each side, getpeername on one is getsockname on the other, both ways, and neither fails |
| Names.NamesExactly | socket.c:627-685 | In every reachable state getpeername, and getsockname on a socket that is not listening, answer with a name if and only if the connection is open, and that name is the peer's or the own end of its record; otherwise ENOTCONN, and 1 with EBADF for an unknown number |
| Names.ListenerKeepsName | socket.c:173-208 | After a successful bind and a successful listen, getsockname answers with the address and the port bound until the number is closed, whatever both processes do |
| Names.SocketExactly | socket.c:128-168 | Each error of socket() exactly; otherwise a fresh descriptor in a free slot, with the next number and the flag asked for |
| Names.AcceptedExactly | socket.c:252-266 | The descriptor accept4 returns: in a free slot, with the next number and the flag asked for, open on the connection taken, which is now open; nothing else changes |
| Names.FlagExactly | socket.c:546-561 | fcntl stores its argument in the flag of the descriptor and changes nothing else |
| Protocol.OutOfOrderExactly | socket.c:23-35 | A call on a socket answers -1 with EBADF if and only if the number is unknown or the state of the descriptor does not allow the call (bind when created, listen when bound, accept4 when listening, connect when created or connecting, send and recv when open), and then nothing changes |
| Protocol.MessageOutOfOrder | socket.c:571-577 | The same for sendmsg, before any of its pieces |
| Protocol.SetupSucceeds | socket.c:173-208 | bind and listen in order succeed, and the descriptor is then bound, or listening on a new listening record |
| Protocol.DescriptorLife | socket.c:90-323 | Over any run, a descriptor whose number was handed out before is the one that had it, in the same slot, and its state has only moved from created over bound to listening, or from created over connecting and open to closed |
| Protocol.CloseExactly | socket.c:105-117 | close of a socket succeeds if and only if the number is in use, and the number is then gone for good; a pending or closed connection is removed, any other is marked closed with EPOLLHUP set for the peer, and no other record changes |
| Tables.CreateExactly | event.c:200-221 | Each error of epoll_create1 exactly; otherwise the next number, which no table has, names an open table without registrations, and every other table is as it was |
| Tables.CloseTableExactly | event.c:122-139 | close of a table succeeds if and only if there is one of that number, which is then gone; every other table, all descriptors and memory are as they were |
| Tables.UnknownTableExactly | event.c:232-252 | epoll_ctl answers EBADF if and only if the table, or the socket, does not exist, epoll_pwait if and only if the table does not, and then nothing changes |
| Tables.ForeignExactly | socket.c:450-472 | Exactly close of a number below 700, and epoll_ctl of one on an existing table, are handed to the system, and they change nothing here |
| Tables.TableLife | event.c:122-139 | Whatever both processes do, a table stays open exactly until its owner closes its number, and never opens again |
| Tables.PollKeepsItsTable | event.c:524-533 | Once a poll has got its table, every later poll asks the same one, whatever both processes do |
| Tables.PollAfterItsTable | event.c:517-545 | Once the process has closed the number of the table inside poll, every later poll fails, with EBADF if it asks for anything, and changes nothing |
| Descriptors.FindFdExactly | socket.c:62-70 | The lookup returns the first active slot with the number, and nothing if and only if there is none |
| Descriptors.EmptyFdExactly | socket.c:72-83 | The first free slot, and none if and only if all are taken |
| Descriptors.InterfaceExactly | util.c:27-34 | The first interface of the table with the remote address, and none only if no interface has it |
| Connections.PickExactly | util.c:424-475 | The search goes to the first table entry that offers a connection and picks the first one there; it fails only if none offers any |
| Connections.SearchOnIfaceExactly | util.c:406-422 | The first pending connection of the list for the port, or nothing if there is none |
| Readiness.ListenerForFdExactly | event.c:85-100 | The first registration of the number, if its descriptor is open; if it is closed exactly that registration is dropped; nothing changes if there is none |
| SharedRegion.SharedMemory.ListRemove | list.c:22-34 | Removes the first occurrence of a pointer and reports whether there was one |
| SharedRegion.SharedMemory.SearchNewConnectionOnIface | util.c:406-422 | The list search returns the first pending connection for the port |
| SharedRegion.SharedMemory.SearchNewConnectionOnAnyIface | util.c:424-436 | The table search used for readiness, addresses matching exactly |
| SharedRegion.SharedMemory.AcceptNewConnectionOnIface | util.c:441-454 | The connection found becomes open and nothing else changes |
| SharedRegion.SharedMemory.AcceptNewConnectionOnAnyIface | util.c:458-475 | The table search used for accept, address 0 matching every interface |
| SharedRegion.SharedMemory.CreateNewConnection | util.c:343-364 | The new record, with both ports on the right side, is the only change |
| SharedRegion.SharedMemory.InitiateNewConnection | util.c:387-392 | The record is published at the front of its interface's list |
| SharedRegion.SharedMemory.RemoveConnectionAt | util.c:479-494 | Exactly the list entry and the record disappear |
| SharedRegion.SharedMemory.CloseConnection | util.c:498-522 | Removal for the second closer or a pending record, marking with a hangup for the peer otherwise |
| SharedRegion.SharedMemory.SendOn | util.c:526-547 | One packet at the end of the peer's queue and EPOLLIN in its events |
| SharedRegion.SharedMemory.RecvOn | util.c:551-586 | The bytes of the packet in front, whole or in part, and nothing else |
| SharedRegion.SharedMemory.SetLevelTriggeredEvents | event.c:162-181 | Only the role's level mask is rewritten, to the readiness of the record |
| Sockets.Process.constructor | socket.c:58-60 | The tables and counters a process starts with |
| Sockets.Process.GetFdByNum | socket.c:62-70 | The loop finds the first active slot with the number |
| Sockets.Process.GetEmptyFd | socket.c:72-83 | The loop takes the first free slot and no other |
| Sockets.Process.Socket | socket.c:128-168 | State and outcome of `DoSocket`, with each error case |
| Sockets.Process.Bind | socket.c:173-190 | State and outcome of `DoBind` |
| Sockets.Process.Listen | socket.c:192-208 | State and outcome of `DoListen`: a private record per listener |
| Sockets.Process.Accept4 | socket.c:218-267 | The waiting loop ends with the first pass that is not blocked, in exactly its state, for every call that is defined |
| Sockets.Process.ConnectEx | socket.c:271-323 | Creating, publishing and waiting leave exactly the state of the repeated passes |
| Sockets.Process.Connect | socket.c:327-349 | State and outcome of `ConnectCall`: one pass of `DoConnect`, and while it is blocked passes of connectEx |
| Sockets.Process.Send | socket.c:353-372 | State and outcome of `DoSend`: a closed peer turns the descriptor closed |
| Sockets.Process.Recv | socket.c:375-412 | The waiting loop ends with the first pass that is not blocked, in exactly its state |
| Sockets.Process.SendMsg | socket.c:571-599 | State and outcome of the piecewise loop on the memory each piece meets |
| Sockets.Process.Close | socket.c:450-472 | The number decides between foreign descriptor, socket and epoll table |
| Sockets.Process.HandleSockfdClose | socket.c:105-117 | The slot is freed and the record closed or removed |
| Sockets.Process.HandleEpfdClose | event.c:122-139 | The table is freed and all its registrations with it |
| Sockets.Process.SockName | socket.c:627-657 | The listening, the connected and the error cases of getsockname |
| Sockets.Process.PeerName | socket.c:661-685 | The connected and the error cases of getpeername |
| Sockets.Process.SetNonblock | socket.c:546-561 | Only the flag of the descriptor changes |
| Sockets.AcceptedIsNamed | socket.c:262-266 | When accept4 has a connection and a place for the address, the name lookup at its end finds the new descriptor and succeeds |
| Sockets.StartedConnect | socket.c:277-297 | Starting a connect and then waiting is one pass, and so is every later pass |
| Events.EpollCreate1 | event.c:200-221 | State and outcome of `DoEpollCreate` |
| Events.GetListenerForFd | event.c:85-100 | The loop finds the first registration of the number, or drops it if its descriptor is closed |
| Events.EpollCtl | event.c:225-309 | State and outcome of `DoEpollCtl` for every operation |
| Events.VisitListener | event.c:364-435 | One iteration of the scan loop, with its entry in the caller's array |
| Events.ScanTable | event.c:364-435 | The scan loop fills the array with exactly the entries of the specified scan |
| Events.EpollPwaitInPlace | event.c:323-496 | Result, array, number of scans and sleeps of the waiting loop |
| Events.CopyEvents | event.c:550-558 | `revents` is zero where nothing was reported and the reported mask elsewhere |
| Events.Poll | event.c:517-570 | State, result and `revents` of `DoPoll`, including the shared internal table |

## Left out

- Shared-region and interface setup, address files and environment variables (util.c:46-338): configuration; the model starts from registered interfaces whose addresses mirror each other.
- Forwarding of real descriptors (numbers below 700) and the mixed-epoll branch (event.c:237-249, event.c:439-471): calls into the kernel.
- The allocator and the linked lists (`malloc.c`, `ll.c`) are not part of this model: lists are sequences and allocation always succeeds.
- Switching of the malloc context around list operations (list.c:7-13) and around allocations: a save and a restore with no branch in between, so each operation leaves the context it found; in which context a block is allocated is not modelled.
- The stubs `shutdown`, `ioctl`, `getsockopt`, `setsockopt`, `recvmsg` and the read side of `fcntl`: they change nothing.
- `read` and `write` on sockets, `accept` and `epoll_wait`: plain forwards to recv, send, accept4 and epoll_pwait; `ppoll` only converts its timeout.
- Locking, sleeping by spinning and debug output; `validateEventFlags` only prints (event.c:36-40).
- Streams.BytePipes: does not model the C `int` width of lengths; a single send of 2^31 bytes or more is outside the model.
- Waiting.TimeoutExactly: does not model overflow of `timeout*1000` in `int`, so it is about timeouts up to about 2147482 milliseconds.
- Messages.SendMsgSendsPrefix: does not model overflow of the `int` sum of lengths.
- Polling.PollIsReadiness: a negative mask asks for edge-triggered reports and is not covered; what such polls do to the table is (Polling.PollLeavesEmptyExactly).
- PollRuns.PollIsReadinessOverRuns: nested polls do not exist in a single-threaded process; a poll of the peer appears in the run as the moves PollRuns.PollIsRun gives it.
- LevelTriggered.MixedScan: does not cover a table in which an edge-triggered registration shares its connection with another one, which needs a process connected to itself; Streams.ScanKeepsEvent and Wakeups.EdgeBitsConserved do.
- Conservation.ScanConserves: the same.
- Leftovers.PollOverLeftovers: the same for its last pass; and it needs non-negative masks, as Polling.PollIsReadiness does.
- Events.EpollCtl: a descriptor below 700 ends in the outcome `Foreign`; what the kernel then does is not modelled.
- Events.Poll: requires that the poll is none of those that PollSafety.PollUndefinedExactly describes; and for a poll that names a descriptor below 700, what the kernel does is not modelled.
- Sockets.Process.Accept4: requires that the call is none of those that Reachability.UndefinedExactly describes.
- Events.EpollPwaitInPlace: the branch that adds events of kernel descriptors (event.c:439-471) is not modelled.
- Liveness of a nonblocking connect whose connection is accepted and closed again: that descriptor stays connecting and is never reported (event.c:407-430).
