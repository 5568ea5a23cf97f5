# A verified model of Crust

Crust lets peers find each other, agree on one TCP connection and exchange prioritised messages over it. This
project models its protocols and step machines in Dafny and proves what they promise for every run: any number of
peers and connections, any interleaving of their steps, any answers of the network, any readings of the clock.

| file | models |
|---|---|
| `SocketQueue.dfy`, `SocketRuns.dfy`, `Socket.dfy` | the write side of a socket: one poll of its task as a function, whole runs, and the objects |
| `Connect.dfy`, `ConnectTheorems.dfy`, `ConnectProgress.dfy` | the rendezvous connect protocol over any number of connections, what it promises, and what it can always reach |
| `Peer.dfy`, `Heartbeats.dfy` | the two timers of a peer, and timed runs of two peers |
| `Listener.dfy`, `ListenerRuns.dfy`, `ListenerObjects.dfy` | the address set kept in step with the listeners, and its observers |
| `Discovery.dfy`, `Replication.dfy` | the service discovery server, and the way from the address set to its answers |
| `ConnectionMap.dfy` | the registry of connected peers against its reader tasks |
| `Demux.dfy` | routing of incoming sockets by their first message |
| `Bootstrap.dfy`, `BootstrapAcceptor.dfy` | the bootstrap handshake, and the stream of bootstrapping peers |
| `WireFrames.dfy` | both handshakes sent over the socket: the protocols put together with the priority queue |
| `Common.dfy`, `Seqs.dfy` | what the modules share |

`dafny verify dfyconfig.toml` checks everything.

Each step machine is a function `Apply` from a state and an event to a state, where an event that cannot happen
changes nothing; `After` folds it over any sequence of events, and an invariant `Inv` is proved to hold of every
state so reached. The objects that Crust updates in place are classes whose methods are proved to do exactly what
these functions say. Clock readings, the readiness of sinks and sockets, failures, timeouts and configuration
snapshots are arguments of the events, so the theorems hold whatever they are. What the program does not keep is
ghost state of the classes where nothing else reads it (`SocketTask.log`, the counts of `BootstrapAcceptor`). Two
histories are ordinary fields because they number the channels that the program identifies by their ends
(`Addresses.history`, `Demux.history`), and so are two outputs: the events told to the user
(`ConnectionMap.events`) and the responses written to the network (`ServerTask.sent`).

## What the proofs found

* Heartbeats do not by themselves keep a peer from being taken for dead. Data of any priority puts the next
  heartbeat off (`crust/src/net/peer/peer.rs:153-155`), and data from priority 2 on may be dropped by the sender's own
  socket (`crust/src/net/socket.rs:213-226`), so a peer that sends only such data falls silent, whatever the bounds on
  lateness, delay and skew (`Heartbeats.DroppableDataIsNoHeartbeat`). What counts is the largest gap between messages
  that cannot be dropped: no run reports a live peer as inactive if and only if skew + gap is below the inactivity
  timeout and skew + gap + delay at most that (which a gap of zero does not need) (`Heartbeats.BoundsDecide`). Without droppable data that gap is a
  heartbeat period and the lateness of a poll (`Heartbeats.HeartbeatsSpace`).
* A listener that is dropped takes away addresses that another listener still has (`crust/src/net/listener.rs:130`);
  `ListenerRuns.SharedAddressIsLost` is such a run. An address is in the set if and only if it was bound again since a
  listener that had it was last removed (`ListenerRuns.CurrentIffHeld`), and a poll keeps an exact set exact if and
  only if the listeners it takes out share no address with those that stay (`ListenerRuns.RemovalIsExactIff`).
* A reader task removes whatever is registered for its uid (`crust/src/compat/connection_map.rs:66`), which is
  somebody else's registration exactly when its own was removed and the uid was registered again
  (`ConnectionRegistry.StaleUnlinkIff`; `ConnectionRegistry.StaleReaderRemovesNewer` is such a run).
* `BootstrapAcceptor::poll` discards a finished handshake exactly when the request channel is closed and that
  handshake was the only one left (`BootstrapAcceptors.ResultIsLostIff`).
* The side that chooses a connection may end up with a peer alone, for two reasons. The other side's connection may
  fail or its call may time out first (`ConnectTheorems.ChooserMayBeAlone`). And the connection may be one that the
  other side made for another of its calls, at an address that led elsewhere: it answers the request that names its
  uid, is chosen, and is then turned down by that other call, while the call that was meant never succeeds
  (`ConnectTheorems.ChosenFromAnotherCall`). Once one side has chosen, the other can still succeed if and only if it
  has already, or the other end of that very connection belongs to the call that was meant and both are still open
  (`ConnectTheorems.LesserSideCanSucceedIff`).

Where the documentation and the code differ, the model follows the code. The comment at
`crust/src/net/socket.rs:42-47` says that a slow socket drops its entire outgoing buffer; the code drops the queues
from the first droppable priority whose front is stale, and keeps the others. A message counts as older than 60
seconds once more than 60 whole seconds have passed, so from 61 seconds on. The timer constants are those of
ordinary builds, not the longer ones of test builds.

## Model

| member | source | states |
|---|---|---|
| SocketQueue.IntakeConserves | crust/src/net/socket.rs:198-211 | reading the channel appends to each queue, in order, what the channel held at that priority, and loses nothing |
| SocketQueue.IntakeKeepsShape | crust/src/net/socket.rs:197-203 | reading keeps each message under its own priority and the timestamps of each queue sorted and not in the future |
| SocketQueue.CutFrom | crust/src/net/socket.rs:213-222 | the expiry pass starts at the least priority whose front is stale, or nowhere |
| SocketQueue.CutIsLeastStale | crust/src/net/socket.rs:213-226 | a queue is dropped if and only if some droppable priority at or before its own has a stale front; others are untouched |
| SocketQueue.CutLeavesNothingStale | crust/src/net/socket.rs:213-226 | although only fronts are tested, no droppable message anywhere in the map is stale afterwards |
| SocketQueue.StaleIff | crust/src/net/socket.rs:14-15 | a message is stale from 61 seconds after it was read on, and not at 60 |
| SocketQueue.LoneQueueIsDroppedIff | crust/src/net/socket.rs:12-15 | a queue on its own is dropped if and only if its priority is at least 2 and its oldest message has waited for 61 seconds |
| SocketQueue.Pop | crust/src/net/socket.rs:238 | taking the front of one queue leaves every other queue alone |
| SocketQueue.PushFrontUndoesPop | crust/src/net/socket.rs:238-242 | putting a refused message back at the front restores the queues exactly |
| SocketQueue.DrainIsPrefix | crust/src/net/socket.rs:236-248 | what the sink takes is a prefix of the queues in priority order, so nothing goes out while a more urgent queue has messages, and the rest stays as it was |
| SocketQueue.DrainLength | crust/src/net/socket.rs:236-248 | the prefix is as long as the sink allows, one message is lost exactly when the sink breaks before the end, and all are sent exactly when the sink has room for all |
| SocketQueue.DrainKeepsSuffixes | crust/src/net/socket.rs:236-248 | of every queue a suffix stays, in place |
| SocketRuns.InvHolds | crust/src/net/socket.rs:196-268 | every run keeps keys, sorted timestamps, conservation at each priority, the order of transmission and the fate of messages |
| SocketRuns.PollConserves | crust/src/net/socket.rs:196-268 | one poll moves messages of a priority from waiting to the history and changes neither their number nor their order |
| SocketRuns.PollExtendsOrder | crust/src/net/socket.rs:213-248 | what a poll transmits comes in priority order after all it transmitted before, and before all it leaves queued |
| SocketRuns.WorldFollowsUser | crust/src/net/socket.rs:171-185 | what counts as submitted is every message handed over before the drop, with its own priority and in order |
| SocketRuns.NothingIsLostOrReordered | crust/src/net/socket.rs:164-248 | at every moment, of each priority, what left the queues followed by what waits is the submitted sequence |
| SocketRuns.UrgentMessagesAreKept | crust/src/net/socket.rs:49-52 | until the task fails, everything submitted at priority 0 or 1 is transmitted or waits, in order |
| SocketRuns.HoldingSinkNeverFails | crust/src/net/socket.rs:238-267 | back-pressure, however long, never fails the task as long as the sink does not break |
| SocketRuns.UrgentMessagesSurvive | crust/src/net/socket.rs:49-52 | in every run whose sink never breaks, however much it refuses, everything submitted at priority 0 or 1 is transmitted or waits, in order |
| SocketRuns.UrgentFirst | crust/src/net/socket.rs:49-52 | over whole runs, a message submitted earlier at the same or a more urgent priority is transmitted first, and each at most once |
| SocketRuns.NothingStaleSurvivesPoll | crust/src/net/socket.rs:196-226 | after any poll of any run no droppable message that waits is stale |
| SocketRuns.FinishedMeansDrained | crust/src/net/socket.rs:236-263 | a task completes only after the socket is gone, with everything transmitted or dropped as stale, and everything urgent transmitted in order |
| SocketRuns.PollFinishesIff | crust/src/net/socket.rs:236-263 | a poll completes the task if and only if the socket is gone, the sink takes all that is kept, flushes, and the stream closes |
| SocketRuns.PollFailsIff | crust/src/net/socket.rs:236-267 | a poll fails if and only if the sink breaks on a message or on the flush, or the finished stream does not close |
| SocketRuns.PollGoesOnIff | crust/src/net/socket.rs:236-267 | a poll leaves the task running if and only if nothing broke and the socket lives, something kept was refused, or the flush waits |
| SocketRuns.PollTransmits | crust/src/net/socket.rs:236-248 | a poll adds to the wire exactly as many of the kept messages, most urgent first, as the sink takes |
| SocketRuns.FullPollLeavesNothing | crust/src/net/socket.rs:213-248 | a poll keeps every urgent message that waits, and one whose sink has room for all that is kept leaves none waiting |
| SocketRuns.SubmittedIsAccountedFor | crust/src/net/socket.rs:171-185 | every submitted message is in the history or waits at its priority |
| SocketRuns.PrefixStaysFirst | crust/src/net/socket.rs:49-52 | messages submitted first at priority 0 are the first ones on the wire, in order, whatever follows |
| SocketRuns.TypeChangeIsSafe | crust/src/net/socket.rs:120-127 | after a handshake of n messages at priority 0, frame i is a handshake message if and only if i < n, so a change of message type never mixes the two |
| Sockets.Socket.StartSend | crust/src/net/socket.rs:171-185 | sending never refuses while the socket lives, fails once it is destroyed, and puts exactly one message at the end of the channel |
| Sockets.Socket.Poll | crust/src/net/socket.rs:144-161 | any error or the end of the stream destroys the socket, and exactly then the task is asked to shut down |
| Sockets.Socket.Drop | crust/src/net/socket.rs:130-135 | dropping the socket asks the task to shut down, once |
| Sockets.Socket.ChangeMessageType | crust/src/net/socket.rs:120-127 | the new socket takes over the same channel with all it holds, and the task is not asked to shut down |
| Sockets.SocketTask.ReadChannel | crust/src/net/socket.rs:198-211 | the loop reads what `Intake` says, up to a request to shut down |
| Sockets.SocketTask.DropExpired | crust/src/net/socket.rs:213-226 | the loops remove exactly the queues from the cut on and nothing else |
| Sockets.SocketTask.OfferFront | crust/src/net/socket.rs:238-246 | a refused message is back at the front of its queue, an accepted one is gone from it |
| Sockets.SocketTask.FeedSink | crust/src/net/socket.rs:236-248 | the nested loops do what `Drain` says, and report whether everything went out |
| Sockets.SocketTask.Poll | crust/src/net/socket.rs:196-268 | the task changes in place, status included, exactly as the function `SocketQueue.Poll` that the run theorems (such as `SocketRuns.PollFailsIff`) are about |
| Connect.ValidateConnectRequest | crust/src/net/peer/connect/connect.rs:233-246 | a request is valid if and only if it names the expected uid and our network; a wrong uid is reported before a wrong name hash |
| Connect.NextFrame | crust/src/net/peer/connect/connect.rs:167-217 | the next frame an end reads is of the kind its phase expects |
| Connect.DemultiplexKeeps | crust/src/net/peer/connect/demux.rs:120-139 | handing an accepted connection to the call its request names keeps the invariant |
| Connect.TakeRequestKeeps | crust/src/net/peer/connect/connect.rs:93-108 | answering a demultiplexed request with our own keeps the invariant |
| Connect.ReadConnectKeeps | crust/src/net/peer/connect/connect.rs:151-176 | reading and validating the other side's request on an outgoing connection keeps the invariant |
| Connect.ChooseKeeps | crust/src/net/peer/connect/connect.rs:185-200 | choosing one connection, dropping all others, and possibly failing to construct the peer keeps the invariant |
| ConnectProgress.CallStarts | crust/src/net/peer/connect/connect.rs:84-86 | a call starts unless it is to ourselves, in which case it fails at once |
| ConnectProgress.ChooseYieldsPeer | crust/src/net/peer/connect/connect.rs:185-200 | the greater side can choose any connection it has validated, whatever else is open: it then has its peer there, the choice is sent, all its other connections are dropped and no other call is touched |
| ConnectProgress.OwnStepAdvances | crust/src/net/peer/connect/connect.rs:93-176 | an end of either side whose other side introduced itself as expected can take its next step if and only if its stage has room, and comes one step nearer to validation |
| ConnectProgress.MakeRoom | crust/src/net/peer/connect/connect.rs:166-220 | the failure of other connections of the call makes room in both its stages, and none is needed when there is room |
| ConnectProgress.GreaterSideCanSucceed | crust/src/net/peer/connect/connect.rs:93-200 | in every run, from any open end of the greater side, dialled or accepted, that is met as expected, some continuation gives it its peer on that connection |
| ConnectProgress.DialMeets | crust/src/net/peer/connect/connect.rs:117-143 | a connection that either of two peers calling each other dials, to the listener or through the punched hole, is one between their calls |
| ConnectProgress.FirstEndIsDialled | crust/src/net/peer/connect/connect.rs:117-155 | the two ends of a connection are never both accepted |
| ConnectProgress.BothSidesCanSucceed | crust/src/net/peer/connect/connect.rs:68-231 | in every run, as long as two peers call each other on one network and a connection between the calls is open, however far it has come, some continuation gives both their peer on it |
| ConnectProgress.BuffersHold | crust/src/net/peer/connect/connect.rs:166-220 | in every run no stage of a call works on more than 128 connections |
| ConnectProgress.PeersCanTalk | crust/src/net/peer/connect/connect.rs:196-215 | once both ends are peers, what either sends is read by the other, which stays connected |
| Connect.ReadChoiceKeeps | crust/src/net/peer/connect/connect.rs:201-225 | returning the connection on which the choice arrives, dropping all others, keeps the invariant |
| Connect.InvHolds | crust/src/net/peer/connect/connect.rs:70-231 | in every reachable state each end has followed its script, has read what its phase says, and agrees with its call |
| ConnectTheorems.OneChoice | crust/src/net/peer/connect/connect.rs:185-200 | one call sends the choice on at most one connection, and only on the side with the greater uid |
| ConnectTheorems.LesserSideWasChosen | crust/src/net/peer/connect/connect.rs:201-225 | the lesser side only returns a connection on which the greater side, calling it, sent the choice |
| ConnectTheorems.Agreement | crust/src/net/peer/connect/connect.rs:179-225 | when both sides return a peer, they hold the two ends of one connection |
| ConnectTheorems.PeerIsGenuine | crust/src/net/peer/connect/connect.rs:93-108 | a returned peer is owned by the uid asked for and on the same network, whatever the address led to |
| ConnectTheorems.NoUnexpectedMessage | crust/src/net/peer/connect/connect.rs:151-217 | no end of any run meets an unexpected message or one of the wrong type, in the handshake or after it |
| ConnectTheorems.RoutedUidIsValid | crust/src/net/peer/connect/demux.rs:133-138 | an invalid uid cannot arise for a demultiplexed request, only an invalid name hash |
| ConnectTheorems.AwaitedAdvances | crust/src/net/peer/connect/connect.rs:151-222 | once the other side has chosen, the lesser end's next step is possible if and only if its call still looks at it (its second buffer is not full, or the end is past the first), and it comes one step nearer to the peer |
| ConnectTheorems.RoomIsKept | crust/src/net/peer/connect/connect.rs:166-220 | those steps do not use up the room in the buffer that they need |
| ConnectTheorems.FewConnectionsHaveRoom | crust/src/net/peer/connect/connect.rs:166-220 | with at most 128 open connections of the call there is always room |
| ConnectTheorems.RoomCanBeFreed | crust/src/net/peer/connect/connect.rs:203-223 | the failure of other connections makes room without taking the awaited end back |
| ConnectTheorems.PeerIsFinal | crust/src/net/peer/connect/connect.rs:179-225 | a call that returned a peer never loses or changes it |
| ConnectTheorems.AwaitedPersists | crust/src/net/peer/connect/connect.rs:201-225 | no event but the failure of the chosen connection or of the call takes an awaited end back |
| ConnectTheorems.AwaitedNeverLost | crust/src/net/peer/connect/connect.rs:201-225 | over any continuation without those failures the awaited end keeps what it reached, or has its peer |
| ConnectTheorems.AwaitedCompletes | crust/src/net/peer/connect/connect.rs:151-222 | progress: with room in the buffer at most three steps of the awaited end give its side a peer on the chosen connection |
| ConnectTheorems.LesserSideCanSucceedIff | crust/src/net/peer/connect/connect.rs:179-225 | once the greater side has its peer, some continuation gives the lesser side one if and only if it has one already or is awaited on the other end of that connection in that very call |
| ConnectTheorems.MissedForGood | crust/src/net/peer/connect/connect.rs:179-225 | when that other end is of another call, or closed, or the call is over, the lesser call never gets a peer on any connection |
| ConnectTheorems.ChooserMayBeAlone | crust/src/net/peer/connect/connect.rs:181-225 | a lesser call that gives up while it is awaited leaves the greater side with its peer |
| ConnectTheorems.ChosenFromAnotherCall | crust/src/net/peer/connect/connect.rs:167-200 | a run in which the greater side chooses a connection that the other side made for a third peer: nothing has failed or timed out, and the lesser call can never succeed |
| ConnectTheorems.BothCanConnect | crust/src/net/peer/connect/connect.rs:68-231 | a run in which both sides get their peer exists, so the theorems are about something |
| PeerTimers.Beat | crust/src/net/peer/peer.rs:111-120 | a poll leaves the deadline within a period of the last send, and both now and the timer before the next heartbeat is due |
| PeerTimers.BeatsIff | crust/src/net/peer/peer.rs:112-120 | a heartbeat goes out if and only if 20 seconds have passed since the last send |
| PeerTimers.Receive | crust/src/net/peer/peer.rs:122-141 | inactivity is reported if and only if nothing can be read, the socket is alive and the deadline has passed; any message moves the deadline |
| PeerTimers.ReceiveReturnsFirstData | crust/src/net/peer/peer.rs:122-141 | a poll returns data if and only if there is some, and then the first, with its own bytes and only heartbeats before it; a socket error is reported if and only if it comes before any data |
| PeerTimers.DataComesOutInOrder | crust/src/net/peer/peer.rs:122-141 | over any polls, what was returned is exactly the data among the messages processed, in order |
| PeerTimers.VisitMakesProgress | crust/src/net/peer/peer.rs:122-135 | a poll to which a message has arrived processes at least one |
| Peers.Peer.FromHandshakenSocket | crust/src/net/peer/peer.rs:72-87 | a new peer takes the socket over and starts both timers at the same instant |
| Peers.Peer.SendHeartbeat | crust/src/net/peer/peer.rs:112-120 | with the clock frozen the loop ends, sends at most one heartbeat, and exactly when a full period has passed since the last send |
| Peers.Peer.TakeMessages | crust/src/net/peer/peer.rs:122-141 | the loop takes and returns what `Receive` says (see `PeerTimers.ReceiveReturnsFirstData`), and destroys the socket exactly on a socket error |
| Peers.Peer.Poll | crust/src/net/peer/peer.rs:111-142 | after every poll now is before the last send plus a period; it sends what `Beats` says and returns what `Receive` says |
| Peers.Peer.StartSend | crust/src/net/peer/peer.rs:149-161 | sending data moves the last send, never the timer, and the timer still lies within a period of it |
| Heartbeats.InvHolds | crust/src/net/peer/peer.rs:72-161 | the deadlines of both peers follow their sends and what they heard, over every timed run |
| Heartbeats.SendGap | crust/src/net/peer/peer.rs:111-120 | consecutive sends are at most a heartbeat period and the lateness of a poll apart, from construction on |
| Heartbeats.SpacedHolds | crust/src/net/peer/peer.rs:111-161 | in a run whose moments are never further than a gap from the last undroppable send, each undroppable send is within that gap of the one before |
| Heartbeats.HeartbeatsSpace | crust/src/net/peer/peer.rs:111-161 | without droppable data, heartbeats keep that gap to a period and the lateness of a poll |
| Heartbeats.SomethingArrives | crust/src/net/peer/peer.rs:111-141 | within the bounds, a poll at or after the inactivity deadline finds a message it has not processed, although only undroppable messages are sure to arrive |
| Heartbeats.NoFalseTimeout | crust/src/net/peer/peer.rs:78-142 | within the bounds, whoever keeps undroppable sends within the gap is never reported inactive, whatever droppable data is sent, dropped or delivered |
| Heartbeats.HeartbeatsPreventTimeout | crust/src/net/peer/peer.rs:78-142 | without droppable data the heartbeats alone do that, for both peers |
| Heartbeats.TimeoutMeansSilence | crust/src/net/peer/peer.rs:122-139 | inactivity is only reported when nothing could be read and no message was processed for the whole inactivity timeout |
| Heartbeats.GapIsExact | crust/src/net/peer/peer.rs:78-142 | for every gap outside the bounds some run that keeps it reports a live peer as inactive |
| Heartbeats.BoundsDecide | crust/src/net/peer/peer.rs:78-142 | a live peer is never reported inactive in any run with that gap if and only if the bounds hold |
| Heartbeats.BoundsAreExact | crust/src/net/peer/peer.rs:78-142 | the bounds are exact for heartbeats alone too: outside them some run of polls without any data reports inactivity |
| Heartbeats.DroppableDataIsNoHeartbeat | crust/src/net/peer/peer.rs:149-161 | whatever the bounds, in some run a peer sends nothing but droppable data, which leaves no room for a heartbeat, and the other reports inactivity |
| AddressBook.PublishKeepsValid | crust/src/net/listener.rs:83-88 | replacing the current set tells it to every live observer, so each has been told every value since it subscribed |
| AddressBook.SubscribeKeepsValid | crust/src/net/listener.rs:61-66 | a new observer starts from the current set and has missed nothing |
| AddressBook.HangUpKeepsValid | crust/src/net/listener.rs:85-87 | an observer that hangs up does not disturb what the others were told |
| AddressBook.ListeningKeeps | crust/src/net/listener.rs:85-87 | exactly the observers that still listen are kept |
| AddressBook.SwapRemove | crust/src/net/listener.rs:127 | removing at an index loses that element and nothing else, and leaves everything before the index in place |
| AddressBook.ScanPartitions | crust/src/net/listener.rs:114-136 | a scan neither loses nor duplicates a listener, although the vector changes under its index |
| AddressBook.ScanRemovesDropped | crust/src/net/listener.rs:114-136 | a scan removes only listeners whose handle was dropped, all of them when it runs to the end, and never accepts from a dropped one |
| AddressBook.ScanFindsBusy | crust/src/net/listener.rs:114-136 | a scan finds nothing if and only if no held listener has a connection or an error; otherwise it returns what one of these has |
| AddressBook.ScanServesFirst | crust/src/net/listener.rs:114-125 | a listener with a connection is served as soon as those before it are held and idle, and nothing is removed |
| AddressBook.WithdrawFacts | crust/src/net/listener.rs:127-135 | the removals take away the addresses of the removed listeners, publish once for each, and keep every observer told |
| ListenerRuns.InvHolds | crust/src/net/listener.rs:61-137 | in every run the observers are told everything, no listener is duplicated, and every address in the set belongs to one of them |
| ListenerRuns.DisjointSplit | crust/src/net/listener.rs:127-130 | among listeners that share no address, those taken out share none with those that stay |
| ListenerRuns.CurrentIffHeld | crust/src/net/listener.rs:82-134 | in every run an address is in the current set if and only if it was bound again since a listener that had it was last removed |
| ListenerRuns.AddressesAreExactIff | crust/src/net/listener.rs:82-134 | the set is exactly the addresses of the queued and registered listeners if and only if each of these was bound again since such a removal |
| ListenerRuns.AddressesAreBacked | crust/src/net/listener.rs:82-134 | every address in the set belongs to a queued or registered listener, and the set is exactly their union as long as listeners that are there at the same time share no address, even if addresses are bound again later |
| ListenerRuns.DisjointNeverShared | crust/src/net/listener.rs:82-134 | in particular when no two listeners ever bound share an address |
| ListenerRuns.RemovalIsExactIff | crust/src/net/listener.rs:105-137 | in every run, a poll keeps an exact set exact if and only if the listeners it takes out share no address with those that stay |
| ListenerRuns.SharedAddressIsLost | crust/src/net/listener.rs:130 | a run in which the address of a live listener leaves the set |
| ListenerRuns.IdlePollLeavesLive | crust/src/net/listener.rs:105-137 | a poll that is not ready leaves exactly the listeners whose handles are still held, as often as they were there |
| ListenerRuns.PollFindsBusy | crust/src/net/listener.rs:105-137 | in every run a poll ends the stream if and only if no more listeners can come, and otherwise is not ready if and only if no held listener, queued or registered, has a connection or an error; else it returns one of these |
| ListenerRuns.WatchSubscribes | crust/src/net/listener.rs:61-66 | while listeners can be made, watching adds a new observer whose snapshot is the current set |
| ListenerRuns.HangUpIsKnown | crust/src/net/listener.rs:85-87 | an observer that hangs up is known as such from then on |
| ListenerRuns.ObserverSeesHistory | crust/src/net/listener.rs:61-66 | the snapshot of a live observer followed by what it received is the exact history of the current set since it subscribed |
| ListenerObjects.Addresses.Notify | crust/src/net/listener.rs:85-87 | every observer that still listens gets the value once, the others are forgotten |
| ListenerObjects.Addresses.Replace | crust/src/net/listener.rs:128-134 | the shared addresses change in place as `Publish` says and stay valid |
| ListenerObjects.Listeners.Watch | crust/src/net/listener.rs:61-66 | returns the current set and subscribes to every later value |
| ListenerObjects.Listeners.Listener | crust/src/net/listener.rs:70-98 | adds the addresses of the new listener to the set, tells all observers and queues the listener |
| ListenerObjects.SocketIncoming.TakeListeners | crust/src/net/listener.rs:106-112 | moves every queued listener to the end of the vector, in order |
| ListenerObjects.SocketIncoming.Poll | crust/src/net/listener.rs:105-137 | the in-place scan ends, and leaves listeners, addresses and result as `Scan` and `Withdraw` say, which `AddressBook.ScanFindsBusy` and `ScanRemovesDropped` pin down |
| DiscoveryServer.Serve | service_discovery/src/server.rs:105-142 | a poll stops reading only when nothing is left to read, and stops writing only when there is no room |
| DiscoveryServer.ServeAnswersAll | service_discovery/src/server.rs:105-142 | every request taken is answered once, in order, to whoever asked, with the data of that poll |
| DiscoveryServer.PollAnswersEveryRequest | service_discovery/src/server.rs:105-142 | with room to write, one more datagram adds one response to its sender if it is a request, and none otherwise |
| DiscoveryServer.ServerTask.TakeData | service_discovery/src/server.rs:97-103 | of all the data sent the newest stays |
| DiscoveryServer.ServerTask.Poll | service_discovery/src/server.rs:96-145 | takes the newest data before serving anything, and then serves as `Serve` says, or ends with the state untouched |
| Replication.InvHolds | crust/src/net/service_discovery.rs:26-38 | from the address set through both channels to the server, every value on its way is one of the history, in step |
| Replication.ResponsesFollowHistory | crust/src/net/service_discovery.rs:26-38 | every response carries a set the addresses really had since service discovery was started, and no later response an earlier one |
| Replication.CaughtUp | crust/src/net/service_discovery.rs:26-38 | once the forwarder has passed on everything, one poll of the server makes its data the current set |
| Replication.SourceFollowsListeners | crust/src/net/service_discovery.rs:26-38 | the addresses that are followed are those of the listeners, whatever the forwarder and the server do meanwhile |
| Replication.ForwardsCatchUp | crust/src/net/service_discovery.rs:30-35 | each step of the forwarder passes one outstanding value on, so as many steps as there are catch up |
| Replication.AlwaysCatchesUp | crust/src/net/service_discovery.rs:26-38 | from every moment of every run whose observer listens, the outstanding forwards and one poll of the server make its data the current set |
| Replication.RequestIsAnsweredWithCurrentSet | crust/src/net/service_discovery.rs:26-38 | and a request that arrives with that poll, with no response in hand, is answered with that set, to its sender |
| ConnectionRegistry.InvHolds | crust/src/compat/connection_map.rs:38-134 | every interleaving keeps map, readers and reported events in step |
| ConnectionRegistry.ReadersFollowMap | crust/src/compat/connection_map.rs:57-79 | a live reader has its entry in the map if and only if it has not been told to end |
| ConnectionRegistry.PeersHaveReaders | crust/src/compat/connection_map.rs:57-79 | every entry of the map has a live reader of its own for its uid |
| ConnectionRegistry.LossComesLast | crust/src/compat/connection_map.rs:57-68 | each registration reports messages and then one loss, after which nothing comes |
| ConnectionRegistry.RegistrationsBalance | crust/src/compat/connection_map.rs:38-81 | of each uid, successful registrations equal reported losses and readers still running |
| ConnectionRegistry.StaleUnlinkIff | crust/src/compat/connection_map.rs:65-68 | a reader that ends takes out the registration of another if and only if its own was removed before and its uid registered again |
| ConnectionRegistry.StaleReaderRemovesNewer | crust/src/compat/connection_map.rs:65-68 | a run in which that happens |
| ConnectionRegistry.InsertRegisters | crust/src/compat/connection_map.rs:38-81 | in every run a free uid is registered with its own address, kind and a new reader, a taken one changes nothing, and no other registration is touched |
| ConnectionRegistry.RemoveTakesOut | crust/src/compat/connection_map.rs:104-109 | in every run removing takes out that uid alone and ends exactly its readers |
| ConnectionRegistry.ClearTakesOutAll | crust/src/compat/connection_map.rs:131-134 | in every run clearing empties the map and ends the reader of every entry |
| ConnectionRegistry.FilterKeepsIff | crust/src/compat/connection_map.rs:117-129 | in every run the filter keeps a node if and only if its address is among those of nodes, a client if and only if among those of clients, and ends the readers of the others |
| ConnectionRegistry.MessagesAreReported | crust/src/compat/connection_map.rs:61-64 | over every run the messages reported of a registration are exactly those its reader got, in order and unchanged |
| ConnectionRegistry.MessagesNameTheirPeer | crust/src/compat/connection_map.rs:61-67 | every event names the uid, and every message the kind, that its reader was registered with |
| ConnectionRegistry.ReaderEnds | crust/src/compat/connection_map.rs:65-67 | in every run a live reader can end: its uid leaves the map, its loss is reported, and no other entry is touched |
| ConnectionMaps.ConnectionMap.InsertPeer | crust/src/compat/connection_map.rs:38-81 | registers a peer and starts its reader, or changes nothing and returns false when its uid is taken |
| ConnectionMaps.ConnectionMap.Remove | crust/src/compat/connection_map.rs:104-109 | takes the entry out and tells its reader to end; true if and only if there was one |
| ConnectionMaps.ConnectionMap.ContainsPeer | crust/src/compat/connection_map.rs:111-115 | true if and only if a reader of that uid still runs and has not been told to end |
| ConnectionMaps.ConnectionMap.RetainWhitelisted | crust/src/compat/connection_map.rs:117-129 | removes exactly the entries not whitelisted for their kind and tells their readers to end |
| ConnectionMaps.ConnectionMap.Clear | crust/src/compat/connection_map.rs:131-134 | removes every entry and tells every registered reader to end |
| ConnectionMaps.ConnectionMap.ReadMessage | crust/src/compat/connection_map.rs:61-64 | a live reader passes a message on with its own uid and kind |
| ConnectionMaps.ConnectionMap.EndReading | crust/src/compat/connection_map.rs:65-66 | a reader at its end removes whatever is registered for its uid |
| ConnectionMaps.ConnectionMap.ReportLoss | crust/src/compat/connection_map.rs:67 | and then reports the loss of its peer |
| Routing.Latest | crust/src/net/peer/connect/demux.rs:61-78 | finds the last registration of a kind, and none only when there was none |
| Routing.Demux.BootstrapAcceptor | crust/src/net/peer/connect/demux.rs:54-64 | a new acceptor replaces the one before |
| Routing.Demux.Connect | crust/src/net/peer/connect/demux.rs:66-83 | a new connect call replaces the one registered for that uid, and no other |
| Routing.Demux.HandleIncoming | crust/src/net/peer/connect/demux.rs:111-149 | a socket goes to one consumer: a connect request to the latest call for the uid it names, a bootstrap request to the latest acceptor, and to neither if there is none |
| Bootstrap.GrantIff | crust/src/net/peer/connect/bootstrap_acceptor.rs:113-234 | a request is granted if and only if the uids differ, the name hashes agree, the other side is whitelisted for its kind and, for a node, one global listener is reachable unless that check was disabled before the reload |
| Bootstrap.NoAnswerIff | crust/src/net/peer/connect/bootstrap_acceptor.rs:125-223 | a request gets no answer if and only if it is our own or the socket is destroyed, whose sends and address both fail |
| Bootstrap.DenyIff | crust/src/net/peer/connect/bootstrap_acceptor.rs:129-221 | each reason for a denial is given if and only if its own test fails and all before it passed |
| Bootstrap.InvHolds | crust/src/net/peer/connect/bootstrap/try_peer.rs:95-135 | both sides of the handshake agree on what was asked, judged and answered, over every run |
| Bootstrap.RequestIsAsGiven | crust/src/net/peer/connect/bootstrap/try_peer.rs:103-109 | the request on the wire carries the initiator's uid and the name hash and reachability it was given |
| Bootstrap.RequestCanBeSent | crust/src/net/peer/connect/bootstrap/try_peer.rs:103-109 | a fresh initiator can send its request |
| Bootstrap.RequestIsRead | crust/src/net/peer/connect/demux.rs:126-131 | a request that was sent can be read as it was sent |
| Bootstrap.RequestIsJudged | crust/src/net/peer/connect/bootstrap_acceptor.rs:113-250 | in every run a request that was read can be judged; the acceptor has its peer, with the initiator's uid, exactly when it grants, and the one frame it sends is the verdict |
| Bootstrap.VerdictArrives | crust/src/net/peer/connect/bootstrap/try_peer.rs:112-131 | in every run a waiting initiator reads the verdict: granted, it gets its peer with the acceptor's uid; denied, the reason |
| Bootstrap.PeersCanTalk | crust/src/net/peer/connect/bootstrap_acceptor.rs:244-247 | once both have a peer, what either sends is read by the other, which stays connected |
| Bootstrap.PeerMeansEntitled | crust/src/net/peer/connect/bootstrap/try_peer.rs:109-131 | the initiator has a peer only if the acceptor judged its own request entitled to it, and each side has the other's uid |
| Bootstrap.DenialIsFaithful | crust/src/net/peer/connect/bootstrap/try_peer.rs:121-123 | an initiator that was denied learns the reason the acceptor had |
| Bootstrap.UnansweredIff | crust/src/net/peer/connect/bootstrap_acceptor.rs:125-223 | over every run a judged request stays unanswered if and only if it is our own or the socket is destroyed |
| Bootstrap.OneAnswer | crust/src/net/peer/connect/bootstrap_acceptor.rs:236-250 | no request gets more than one grant or denial, and it comes first |
| Bootstrap.FramesAreReadAtTheirType | crust/src/net/peer/connect/bootstrap_acceptor.rs:244-247 | both sides decode every frame, in the handshake and after it, at the type it was encoded with |
| BootstrapAcceptors.InvHolds | crust/src/net/peer/connect/bootstrap_acceptor.rs:74-107 | every request that arrived is in exactly one place, over every run |
| BootstrapAcceptors.HandshakesAreConserved | crust/src/net/peer/connect/bootstrap_acceptor.rs:74-107 | each request taken is in progress or came out exactly once; at most one result is lost, and none while the stream goes on |
| BootstrapAcceptors.ResultIsLostIff | crust/src/net/peer/connect/bootstrap_acceptor.rs:99-106 | a poll discards a result if and only if the channel is closed and that handshake was the only one left |
| BootstrapAcceptors.StreamEndsIff | crust/src/net/peer/connect/bootstrap_acceptor.rs:99-106 | a poll ends the stream if and only if the channel is closed and nothing but the handshake that completes was left; otherwise it is not ready only when none completes |
| BootstrapAcceptors.PollTakesAll | crust/src/net/peer/connect/bootstrap_acceptor.rs:76-106 | every poll starts a handshake for every request in the channel, keeps those in progress, and yields the one that completes |
| BootstrapAcceptors.ArrivalsQueue | crust/src/net/peer/connect/bootstrap_acceptor.rs:77-98 | as long as the channel is open a request can arrive, and the stream has not ended |
| BootstrapAcceptors.EndedMeansAllDone | crust/src/net/peer/connect/bootstrap_acceptor.rs:103-105 | when the stream ends every request that arrived was taken and came out or was discarded |
| BootstrapAcceptors.BootstrapAcceptor.StartHandshakes | crust/src/net/peer/connect/bootstrap_acceptor.rs:76-98 | the loop takes every request in the channel, in order, and starts one handshake for each |
| BootstrapAcceptors.BootstrapAcceptor.PollNext | crust/src/net/peer/connect/bootstrap_acceptor.rs:74-107 | the stream changes in place and returns as `Poll` and `Returned` say |
| WireFrames.FrameOnWire | crust/src/net/socket.rs:120-127 | of a socket handed n frames at priority 0 first, wire frame i is submitted frame i for i < n, and a later one from n on |
| WireFrames.ConnectFramesAreExpected | crust/src/net/peer/connect/connect.rs:151-217 | through the priority queue and the change of message type, what an end reads off the wire next is of the kind its phase expects |
| WireFrames.BootstrapFramesAreExpected | crust/src/net/peer/connect/bootstrap/try_peer.rs:109-131 | the same for both directions of the bootstrap handshake |

## Left out

- TCP and UDP, framing and encoding: frames are whole typed messages, delivered in order or not at all.
- The tokio reactor, real timers and threads: every poll is one atomic step with its own clock readings, a socket task reading the clock once for the timestamps and once for the whole expiry check, a peer once per poll.
- Heartbeats.NoFalseTimeout: that undroppable messages are delivered within a bounded delay is an assumption about the network (`SocketRuns.UrgentMessagesSurvive` only says that the socket never drops them), and both peers read one clock.
- NAT traversal: hole punching and the echo of addresses only add connections or sockets; how they are made is not modelled.
- Several connect calls between one ordered pair of peers: the network of `Connect` has one, while `Routing` covers which of several calls an incoming socket reaches.
- The whitelist that `connect` applies to the other side's addresses: it only removes connections that would be dialled, and any subset of dials is already a run.
- `until`, `first_ok` and `buffer_unordered` come from libraries that are not part of this model; a call takes the first connection that succeeds and fails when none is left or time is up.
- The stream of bootstrap candidates, its blacklist and cache, and the reading, locking and watching of configuration files: the acceptor sees one configuration before its reload and one after.
- `ConnectionMap::send` and `peer_addr`: look-ups in the map.
- A `SocketIncoming` that is dropped before the listeners it would have scanned: their addresses then stay in the set.
- A socket task after a broken sink: it has failed, its queues stay as they are and it is never polled again.
- Logging, error texts, the example programs and `tokio-igd`.
