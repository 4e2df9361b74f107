# Verified model of the Bloom room server and the syncer

This project models the stateful core of two Rust components and proves what holds over all their runs.

* **Bloom** is the signaling server. Many connection handlers share one room manager and one mailbox per
  participant. Modules `Rooms`, `BloomApi`, `WsHandler`, `BloomServer`, `TextRosters`, `PeerMap`, and the
  per-connection `SlidingLimiter`.
* **The syncer** is the client side. It keeps a participant table, decodes what its transport received,
  routes poses, chat and voice to the other participants, and limits its own rate. Modules `Messages`
  (with `Json`, `Streams`, `SyncerTypes`), `ParticipantTables`, `TransportInboxes`, `WebrtcTransports`,
  `BasicSyncers`, `FixedLimiter`, and `SignalingAdapters`, which connects it to Bloom.
* `SyncerRuns` proves what one syncer does over a run whatever arrives on its bus; `TwoPeers` proves what
  two syncers on one bus do in every interleaving.

Objects the source updates in place are classes here, with the same fields. Each method is proved against
a function on values, and the theorems are about those functions over arbitrary histories of calls
(`Histories.History`, oldest first). Randomly drawn ids, clock readings and incoming bytes are parameters.

Main results, hardest first:

* Two syncers on one bus agree once both have joined and the bus is empty, they are never more than one
  poll each away from that, and they agree again after any number of reconnects
  (`TwoPeers.TablesAgreeAtQuiescence`, `TwoPeers.TwoPollsAgree`, `TwoPeers.RejoinedTablesAgree`).
* What one application sends, the other is told, once and in order, failures or not
  (`TwoPeers.DeliveryIsExactlyOnce`, `TwoPeers.ApplicationsHearEachOther`).
* Replaying the events a syncer returned gives its participant list; joins, leaves and failure signals
  balance (`SyncerRuns.RunTellsTable`, `SyncerRuns.JoinsAndLeavesBalance`).
* Every room member's latest roster is the core's list, whoever shares a participant; and handlers agree
  with the core about their rooms under an exact condition (`BloomServer.RosterConsistency`,
  `BloomServer.MembershipExactly`, `BloomServer.LawfulRunsKeepInv`).
* Exact bounds for both rate limiters, and equivalence of each with a simpler limiter
  (`SlidingLimiter.DequeDecidesAsFullLog`, `FixedLimiter.AdmitsExactly`).
* What each application and each client is told about its own requests, exactly
  (`SyncerRuns.AnswersExactly`, `WsHandler.RefusedExactly`, `WsHandler.CreateIsAnswered`).
* Who is registered after any received events, by the last word about each
  (`TransportInboxes.LastWordDecides`).

## What the proofs found out about the code

* A join repeats the client's own spelling of the room id in the roster it broadcasts, while every other
  roster uses the printed id. A client that compares room texts has the right roster if and only if nobody
  entered the room under another spelling since the last announcement under the printed id
  (`TextRosters.TextRostersExactly`; a failing run is `TextRosters.MisspelledEntryIsMissed`). The latest
  announcement itself may be misspelled without harm (`TextRosters.MisspelledRejoinIsHarmless`).
* The sliding limiter's bound is about half-open intervals: a cooldown ends exactly at its end time. A closed
  interval of the window's length holds at most twice the limit, for every limit that many in some run, and
  more than the limit if and only if a call at its end left a cooldown ending exactly then and the calls
  allowed at its two end points exceed the limit (`SlidingLimiter.ClosedWindowBound`,
  `SlidingLimiter.ClosedWindowCanHoldTwiceTheLimit`).
* `purge_inactive` never removes anything, because every counter has admitted a call
  (`FixedLimiter.PurgeRemovesNothing`).
* A pose number beyond single precision is accepted, becomes infinite, and is lost when the pose is
  encoded again (`Messages.OverflowingPoseIsLostOnReencoding`); exactly the poses with finite floats
  survive (`Messages.DecodeEncodeDecode`).
* An invalid offer of an inactive participant makes it active. Whether a participant is tracked follows
  the parity of its invalid offers (`SignalingAdapters.ActiveByParity`).
* A second failure of a participant that came back does not remove it, since the inbox never forgets a
  reported failure (`SyncerRuns.FailureRemovesOnlyOnce`).
* Connections may share a participant, though only through the participant-id override
  (bloom/ws/src/server.rs:50-59, 397), since ids are otherwise fresh. Then handlers and core stay in agreement
  if and only if nobody leaves, by message or by abnormal close, a room which another live handler of the
  same participant is in (`BloomServer.MembershipExactly`; a failing run is
  `BloomServer.SharedParticipantBreaksMembership`). Rosters stay right in any case.

## Model

| member | source | states |
|---|---|---|
| TwoPeers.TablesAgreeAtQuiescence | syncer/src/lib.rs:154-240 | in every interleaving of requests and polls (each joins as itself, no injected failure), a joined syncer is in the other's table or its announcement is on the bus; both joined and bus empty means both tables are exactly the two |
| TwoPeers.TwoPollsAgree | syncer/src/lib.rs:131-151 | from every reachable state where both joined, one poll each empties the bus and makes both tables exactly the two participants |
| TwoPeers.RejoinedTablesAgree | syncer/src/lib.rs:112-116 | after any number of reconnects of both to new pairs, each with any turns: once both have joined again, an empty bus means exact tables, and one poll each gets there |
| TwoPeers.DeliveryIsExactlyOnce | syncer/src/webrtc_transport.rs:860-917 | from the start or any reconnect on, in every interleaving, failure injection included, and both directions: messages polled so far followed by those on the bus are, in order, with their sender, the accepted sends |
| TwoPeers.ApplicationsHearEachOther | syncer/src/transport_inbox.rs:36-111 | from the start or any reconnect on, the poses, chats and voice frames in the events one application was given, followed by those on the bus, are in order those in what the other sent |
| TwoPeers.PlayKeepsAgreement | syncer/src/lib.rs:154-240 | the inductive invariant behind agreement, kept by every run of turns from any state that has it |
| TwoPeers.TakeTurn | syncer/src/lib.rs:131-172 | on objects: a turn of one syncer is the modelled step, and another syncer that shares only the bus keeps its whole state |
| TwoPeers.DeliveriesRegister | syncer/src/transport_inbox.rs:36-111 | draining what the bus holds registers the other participant exactly when its announcement is there, and nobody else |
| TwoPeers.RequestsAreHarmless | syncer/src/router.rs:53-66 | nothing a pose, chat or voice request puts on the wire is ever decoded as a control message |
| SyncerRuns.RunTellsTable | syncer/src/lib.rs:131-314 | over every run of requests, polls, injected events and rebinds, replaying all returned events from the empty list gives the participant list in order |
| SyncerRuns.HandleTellsTable | syncer/src/lib.rs:154-314 | the events of one handled request, early returns included, turn the old participant list into the new one |
| SyncerRuns.JoinsAndLeavesBalance | syncer/src/transport_inbox.rs:90-106 | for every participant, joins plus failure signals of the unregistered equal leaves plus membership; those signals number at most one more than the rebinds |
| SyncerRuns.FanOut | syncer/src/lib.rs:241-310 | a send goes once, in join order, all copies alike, to everyone registered after the pending input except the sender; nothing is sent if limited, unregistered or unencodable |
| SyncerRuns.StepParams | syncer/src/lib.rs:335-354 | every send of a step: poses unordered and unreliable, chats and announcements ordered and reliable, all on the channel "sutera-data"; audio frames and nothing else on the audio track |
| SyncerRuns.RequestIsEncodable | syncer/src/router.rs:53-66 | poses of version 1, valid chats and all frames can be sent, nothing else |
| SyncerRuns.JoinIsAnswered | syncer/src/lib.rs:226-240 | a join sets the room, registers, puts the participant last with a new session, and reports the old session's end, the join and then SelfJoined |
| SyncerRuns.AnswersExactly | syncer/src/lib.rs:175-200 | over any run: a send is let pass exactly when its window has room, and the SelfJoined and rate limit events told are exactly one per join and one per refused send, with its kind, in order |
| SyncerRuns.FailureIsInjectedOnce | syncer/src/webrtc_transport.rs:870-888 | a sequence of sends injects one failure of the peer if and only if one is armed and some payload is not control, and disarms it then |
| SyncerRuns.DrainTakesQueueFirst | syncer/src/lib.rs:141-151 | a drain hands on what waited in the inbox before what the transport returned |
| SyncerRuns.NothingLeftBehind | syncer/src/lib.rs:154-172 | after any request of a joined, registered syncer nothing for it is left in its inbox, pending, or on the bus |
| SyncerRuns.RebindReplacesTransport | syncer/src/lib.rs:112-116 | a rebind replaces transport and inbox and keeps table, room and limiter |
| SyncerRuns.BatchesAreAdmitted | syncer/src/lib.rs:175-200 | the send requests a run lets pass are those the session's own fixed window admits |
| SyncerRuns.BatchesAreBounded | syncer/src/lib.rs:175-200 | requests let pass in a half-open interval of the window's length number at most 2*limit - 1, in a closed one at most 2*limit |
| SyncerRuns.StepSends | syncer/src/lib.rs:155-310 | a pose, chat or voice request makes the transport accept at most one send to each participant, and none unless admitted; a join sends its announcement; polls and injected events send nothing |
| SyncerRuns.SendsAreBounded | syncer/src/lib.rs:175-200 | over any run, the poses, chats and voice frames the transport accepts for one participant in an interval of the window's length obey the same bounds |
| SyncerRuns.RequestArrivesAsSent | syncer/src/router.rs:53-66 | what the receiver's application hears of a request's payload is the pose, chat or frame of the request |
| SyncerRuns.HandleHeeds | syncer/src/lib.rs:154-314 | handling a request keeps the events told equal, in content and order, to everything the transport ever received |
| SyncerRuns.AnnouncementJoins | syncer/src/lib.rs:203-220 | receiving a peer's join announcement is exactly that peer joining the table |
| SyncerRuns.FailureRemovesOnlyOnce | syncer/src/transport_inbox.rs:90-106 | a failure removes a registered participant if and only if it is the first one reported to this inbox, even after a rejoin |
| BasicSyncers.BasicSyncer.Handle | syncer/src/lib.rs:154-172 | the new state, the bus and the events of a request are those of drain, act, drain |
| BasicSyncers.BasicSyncer.HandleRequest | syncer/src/lib.rs:222-314 | every request kind acts once and then drains, on every return path |
| BasicSyncers.BasicSyncer.ActJoin | syncer/src/lib.rs:226-240 | sets the room, registers, announces, joins the table and reports SelfJoined last |
| BasicSyncers.BasicSyncer.ActSend | syncer/src/lib.rs:241-310 | a refused or unregistered request leaves the bus alone; otherwise the bus gets the modelled sends |
| BasicSyncers.BasicSyncer.SendOutbounds | syncer/src/lib.rs:256-261 | the send loop skips what cannot be encoded and sends the rest in order |
| BasicSyncers.BasicSyncer.SendFrames | syncer/src/lib.rs:296-305 | one audio frame to each listed participant, in order |
| BasicSyncers.BasicSyncer.DrainTransportEvents | syncer/src/lib.rs:141-151 | nothing before a room is set; afterwards polls the transport, appends to the inbox and drains it into the table |
| BasicSyncers.BasicSyncer.PollOnly | syncer/src/lib.rs:131-139 | the same drain without a request |
| BasicSyncers.BasicSyncer.RebindTransport | syncer/src/lib.rs:112-116 | a fresh unregistered transport and a fresh inbox; table, room and limiter are kept |
| BasicSyncers.BasicSyncer.PushTransportEvent | syncer/src/lib.rs:125-127 | the event waits in the inbox for the next drain |
| SyncerRuns.OutgoingIsCopies | syncer/src/router.rs:97-117 | routing, encoding and sending in sequence amount to one identical copy per other participant in join order |
| WebrtcTransports.WebrtcTransport.TakeMine | syncer/src/webrtc_transport.rs:906-917 | the in-place removal loop takes exactly the packets for this end, in order, and leaves the others in place |
| WebrtcTransports.WebrtcTransport.Poll | syncer/src/webrtc_transport.rs:896-917 | nothing before registration; then pending failures followed by what the bus held |
| WebrtcTransports.WebrtcTransport.Send | syncer/src/webrtc_transport.rs:860-894 | silent before registration; records the parameters, injects one failure at the first non-control send, always queues for the peer |
| WebrtcTransports.WebrtcTransport.RegisterParticipant | syncer/src/webrtc_transport.rs:853-858 | only the end's own participant registers it |
| WebrtcTransports.PairWithOptions | syncer/src/webrtc_transport.rs:833-844 | two ends facing each other over one new empty bus |
| WebrtcTransports.FilteringTransport.Send | syncer/src/lib.rs:61-73 | sends before registration are dropped, later ones reach the transport |
| WebrtcTransports.FilteringTransport.Register | syncer/src/lib.rs:56-59 | opens the filter and registers the filter's participant below |
| WebrtcTransports.PollPartitions | syncer/src/webrtc_transport.rs:906-917 | polling is a stable partition: the poller's packets are gone, every other receiver's are unchanged in order |
| WebrtcTransports.PollReturns | syncer/src/webrtc_transport.rs:896-917 | a registered end gets its failures first and then its messages, and neither again; an unregistered one gets and takes nothing |
| WebrtcTransports.ControlIsRecognised | syncer/src/webrtc_transport.rs:874-881 | of encoded messages exactly the joins and leaves that fit are taken for control, and no audio |
| WebrtcTransports.SendKeepsOrder | syncer/src/webrtc_transport.rs:860-894 | a send keeps exactly-once delivery in both directions |
| WebrtcTransports.PollKeepsOrder | syncer/src/webrtc_transport.rs:896-917 | a poll keeps exactly-once delivery in both directions |
| TransportInboxes.TransportInbox.DrainIntoEvents | syncer/src/transport_inbox.rs:36-111 | empties the queue; table, reported failures and events are those of handling the queued events one by one in order |
| TransportInboxes.TransportInbox.HandleBytes | syncer/src/transport_inbox.rs:55-88 | what one parsed or unparsable message does to the table and which event it yields |
| TransportInboxes.DrainReplays | syncer/src/transport_inbox.rs:36-111 | the drained events, replayed, take the old participant list to the new one |
| TransportInboxes.DrainBalances | syncer/src/transport_inbox.rs:90-106 | draining conserves joins, leaves, unmatched failures and membership; an unmatched failure happens once per inbox |
| TransportInboxes.DrainShows | syncer/src/transport_inbox.rs:36-129 | every pose, chat and voice frame drained, and every undecodable, misplaced or misnamed message, yields exactly one event, in order |
| TransportInboxes.LeaveReceived | syncer/src/participant_table.rs:62-79 | a received leave takes a registered participant out of both indexes with one PeerLeft, ignores an unregistered one, and reports a text that names nobody |
| TransportInboxes.JoinReceived | syncer/src/participant_table.rs:62-79 | a received join puts the participant last with a new session, reporting the end of an old one first, or reports a text that names nobody |
| TransportInboxes.LastWordDecides | syncer/src/transport_inbox.rs:36-111 | after draining any events a participant is registered if and only if the last join, leave or counted failure about it was a join, or there was none and it was registered before |
| TransportInboxes.DrainKeepsContext | syncer/src/transport_inbox.rs:36-111 | events carry the room, the sender and the kind of what was received; a drain never emits SelfJoined or a rate limit event |
| ParticipantTables.TablesAgree | syncer/src/participant_table.rs:28-59 | in every reachable table the order has no duplicates, lists exactly the session keys, and session numbers strictly increase along it |
| ParticipantTables.JoinKeepsAgreement | syncer/src/participant_table.rs:28-47 | a join, or rejoin, moves the participant to the end and keeps both indexes in agreement |
| ParticipantTables.LeaveKeepsAgreement | syncer/src/participant_table.rs:49-60 | a leave takes the participant out of both indexes and keeps the others' order and sessions |
| ParticipantTables.PendingReplays | syncer/src/participant_table.rs:62-79 | the events of a control message, replayed, give the new order |
| ParticipantTables.ParticipantTable.ApplyJoin | syncer/src/participant_table.rs:28-47 | new session at the end of the order; a rejoin reports PeerLeft before PeerJoined |
| ParticipantTables.ParticipantTable.ApplyLeave | syncer/src/participant_table.rs:49-60 | a registered participant leaves both indexes with one PeerLeft; otherwise nothing happens |
| ParticipantTables.ParticipantTable.ApplyPendingPeerEvent | syncer/src/participant_table.rs:62-79 | an unparsable id is reported and changes nothing; otherwise join or leave |
| ParticipantTables.ParticipantTable.RemoveFromOrder | syncer/src/participant_table.rs:104-108 | the search-and-remove loop removes the first occurrence only |
| BloomServer.LawfulRunsKeepInv | bloom/ws/src/handler.rs:99-200 | every run with distinct live participants keeps rooms, rosters and handlers consistent and sends no Internal error |
| BloomServer.StepKeepsInv | bloom/ws/src/handler.rs:99-200 | each single message, connect or disconnect keeps that invariant |
| BloomServer.RosterConsistency | bloom/ws/src/handler.rs:112-189 | in every run, participants shared or not, a member's latest roster of a room is the core's ordered list, or none was ever sent and it is alone |
| BloomServer.HandlerRoomIsReal | bloom/ws/src/handler.rs:157-188 | under the exact condition of `MembershipExactly` a handler's room exists and contains its participant, so leaving succeeds and no Internal error was ever answered |
| BloomServer.MembershipExactly | bloom/ws/src/handler.rs:112-188 | over runs with shared participants: handlers and core agree all along if and only if nobody leaves a room another live handler of the same participant is in; while they agree no Internal error is answered |
| BloomServer.StepBreaksExactly | bloom/ws/src/handler.rs:346-371 | one step breaks the agreement if and only if it is such a leave or abnormal close; connects, other messages and other disconnects never do |
| BloomServer.FreshRunsKeepHub | bloom/ws/src/handler.rs:99-200 | rooms and rosters are right in every run, whoever shares a participant |
| BloomServer.LawfulRunsNeverEvict | bloom/ws/src/server.rs:397 | distinct live participants meet the exact condition |
| BloomServer.RelayLandsOnce | bloom/ws/src/handler.rs:219-303 | under the same condition a relay reaches exactly the addressee's mailbox, unchanged, if and only if it shares the sender's room; otherwise the sender is told and nobody gets anything |
| BloomServer.RelayFromMember | bloom/ws/src/real_core.rs:51-112 | the same for any state in which the sender is a member of its room |
| BloomServer.EachConnectionHasItsRate | bloom/ws/src/handler.rs:203-216 | over any run each connection's limiter is the one its own messages alone produce |
| BloomServer.ActedOnAtMostLimit | bloom/ws/src/handler.rs:203-216 | a connection has at most `limit` messages acted on in a half-open window; the others are answered with the rate limit error and change nothing |
| BloomServer.DisconnectsExactly | bloom/ws/src/server.rs:542-556 | a normal disconnect or one after an unsupported frame leaves the participant in its room; an abnormal one takes it out |
| BloomServer.SharedParticipantBreaksMembership | bloom/ws/src/server.rs:50-59 | a run, possible with the id override, after which a handler's room no longer contains its participant |
| TextRosters.TextRostersExactly | bloom/ws/src/handler.rs:127-149 | over every run, for clients comparing room texts: a room's rosters are right if and only if nobody entered it under another spelling since the last announcement under the printed id, or since it was opened |
| TextRosters.MisspelledEntryIsMissed | bloom/ws/src/handler.rs:127-149 | a run in which a second client enters under another spelling and the first has no roster of two under the printed id |
| TextRosters.MisspelledRejoinIsHarmless | bloom/ws/src/handler.rs:127-149 | a run whose latest announcement is misspelled while the rosters are right |
| TextRosters.JoinSpellingMatters | bloom/ws/src/handler.rs:127-149 | from right rosters, one join keeps them right if and only if it used the printed id or came from a member |
| TextRosters.StepAnnounces | bloom/ws/src/handler.rs:112-189 | every step changes at most one room, and gives exactly the members of that room its new list under the announced text |
| BloomServer.AnnounceKeepsRosters | bloom/ws/src/handler.rs:374-383 | setting a room and announcing the list to its members keeps every roster of every room right |
| WsHandler.Handler.HandleTextMessage | bloom/ws/src/handler.rs:99-216 | rooms, mailboxes, handler and limiter after any text, for all errors and all message kinds |
| WsHandler.Handler.HandleJoin | bloom/ws/src/handler.rs:121-155 | the join branch with its three refusals and two broadcasts |
| WsHandler.Handler.HandleLeave | bloom/ws/src/handler.rs:157-188 | the leave branch with its two refusals and two broadcasts |
| WsHandler.Handler.HandleSignaling | bloom/ws/src/handler.rs:219-303 | the relay branch for offers, answers and candidates |
| WsHandler.Handler.HandleAbnormalClose | bloom/ws/src/handler.rs:346-371 | leaves the room if there is one, tells the remaining members, forgets the room |
| WsHandler.RealCore.Relay | bloom/ws/src/real_core.rs:51-112 | refused with ParticipantNotFound unless both ends are members of the room |
| WsHandler.Broadcast.SendAll | bloom/ws/src/handler.rs:374-383 | the broadcast loop sends to each listed participant in turn |
| WsHandler.SendEachReaches | bloom/ws/src/handler.rs:374-383 | a broadcast puts the message once into each listed mailbox and into no other |
| WsHandler.JoinIsAnnounced | bloom/ws/src/handler.rs:121-155 | a join is refused with one error and no change, or makes the joiner a member and gives exactly the members the news and then the new list |
| WsHandler.LeaveIsAnnounced | bloom/ws/src/handler.rs:157-188 | leaving and closing abnormally do the same: the leaver is out, the others stay and get the news and then the new list, an emptied room is gone |
| WsHandler.CloseForgetsRoom | bloom/ws/src/handler.rs:346-371 | an abnormal close always makes the handler forget its room, and changes nothing if the room is unknown |
| WsHandler.ErrorsChangeNothing | bloom/ws/src/handler.rs:99-216 | at most one direct answer per message, and an error answer means rooms, mailboxes and the handler's room are unchanged |
| WsHandler.RefusedExactly | bloom/ws/src/handler.rs:99-303 | the exact conditions, in order, under which each message is refused, with code and words; a refusal changes only the limiter, and nothing else is answered with an error |
| WsHandler.CreateIsAnswered | bloom/ws/src/handler.rs:112-120 | the answer to CreateRoom names the new room and the creator, who is its only member; a client that joins under that text becomes a member of that room |
| Rooms.RoomManager.CreateRoom | bloom/core/src/room.rs:26-42 | a new room with its owner as the only member |
| Rooms.RoomManager.JoinRoom | bloom/core/src/room.rs:44-65 | unknown room, full room, repeated join and new member, with the resulting list |
| Rooms.RoomManager.LeaveRoom | bloom/core/src/room.rs:67-81 | the retain loop removes the participant and keeps the order; an empty room is dropped |
| Rooms.RoomsStayOk | bloom/core/src/room.rs:26-81 | every reachable room has one to eight members, none twice |
| Rooms.RoomListIsEntryOrder | bloom/core/src/room.rs:26-81 | every reachable list is the members in the order of their latest effective entry |
| Rooms.MembersEnteredLast | bloom/core/src/room.rs:26-81 | a participant is in a room if and only if it entered it after it last went |
| Rooms.LeaveUndoesJoin | bloom/core/src/room.rs:44-81 | repeating a join changes nothing even in a full room, and leaving after a fresh join restores the whole table |
| PeerMap.WebSocketBroadcast.Insert | bloom/ws/src/server.rs:219-233 | the new socket replaces the old one, which is told to close |
| PeerMap.WebSocketBroadcast.RemoveIfSame | bloom/ws/src/server.rs:241-248 | removes the participant only if this very socket is registered |
| PeerMap.NewestConnectionWins | bloom/ws/src/server.rs:219-248 | for every overlap of connections, a participant is bound to a socket if and only if that connection began last and has not ended |
| SlidingLimiter.RateLimiter.Check | bloom/ws/src/rate_limit.rs:79-120 | the verdict and the new log and cooldown, proved through the eviction loop |
| SlidingLimiter.SlidingWindowBound | bloom/ws/src/rate_limit.rs:79-120 | on every non-decreasing clock, allowed calls `limit` positions apart are a window apart, so no half-open window holds more than `limit` |
| SlidingLimiter.ClosedWindowBound | bloom/ws/src/rate_limit.rs:83-92 | a closed window holds at most 2*limit allowed calls, and more than `limit` if and only if a call at its end left a cooldown ending exactly then and the calls at its end points exceed `limit` |
| SlidingLimiter.ClosedWindowCanHoldTwiceTheLimit | bloom/ws/src/rate_limit.rs:83-92 | for every limit and window a run whose closed window holds exactly 2*limit allowed calls |
| SlidingLimiter.CooldownIsExact | bloom/ws/src/rate_limit.rs:83-110 | a fresh rejection is justified by `limit` recent calls, blocks for exactly the window, is not extended by blocked calls, and ends with an allowed call |
| SlidingLimiter.DequeDecidesAsFullLog | bloom/ws/src/rate_limit.rs:79-120 | the evicting deque decides like a log that never forgets, and stays within `limit`, so the 32-bit cast never truncates |
| SlidingLimiter.EvictPop | bloom/ws/src/rate_limit.rs:94-101 | popping outdated front entries one by one leaves the log from the first recent entry on |
| SlidingLimiter.ZeroLimitAllowsNothing | bloom/ws/src/rate_limit.rs:103-110 | with limit zero no call is ever allowed |
| FixedLimiter.RateLimiter.Check | syncer/src/rate_limiter.rs:90-123 | only this session's counter changes; the window is reopened when over, and the call counted if admitted |
| FixedLimiter.RateLimiter.PurgeInactive | syncer/src/rate_limiter.rs:131-135 | keeps exactly the running windows and the counters above zero |
| FixedLimiter.FixedWindowBound | syncer/src/rate_limiter.rs:98-127 | windows open at least a window apart and admit at most `limit` each; half-open intervals hold at most 2*limit - 1, closed ones at most 2*limit |
| FixedLimiter.AdmitsExactly | syncer/src/rate_limiter.rs:98-127 | on every non-decreasing clock the limiter admits what a reference on the list of admitted times admits, and opens windows at the same calls |
| FixedLimiter.RefusedExactly | syncer/src/rate_limiter.rs:117-122 | a call is refused if and only if a window is open during which `limit` calls were admitted |
| FixedLimiter.DecidedExactly | syncer/src/rate_limiter.rs:98-135 | the same among many sessions and purges, with the call's own kind in the refusal |
| FixedLimiter.BurstIsAdmitted | syncer/src/rate_limiter.rs:117-122 | a burst of `limit` calls is admitted whole |
| FixedLimiter.SessionsDoNotInterfere | syncer/src/rate_limiter.rs:98-135 | a session is decided as if it were alone, with purges and removals of expired counters at any time |
| FixedLimiter.PurgeRemovesNothing | syncer/src/rate_limiter.rs:131-135 | every reachable counter is between 1 and `limit`, so the purge changes nothing |
| FixedLimiter.ZeroWindowAdmitsAll | syncer/src/rate_limiter.rs:125-127 | a window of length zero refuses nothing |
| FixedLimiter.CounterOfSession | syncer/src/rate_limiter.rs:98-123 | among many sessions each counter is the one its own calls produce |
| SignalingAdapters.BloomSignalingAdapter.Poll | syncer/src/signaling_adapter.rs:109-132 | takes the whole queue in order and returns the payloads and all events since the last poll |
| SignalingAdapters.BloomSignalingAdapter.ShapeIncoming | syncer/src/signaling_adapter.rs:139-275 | payload, events, tracked set and closed connections for one message |
| SignalingAdapters.BloomSignalingAdapter.CloseAndEmitPeerLeft | syncer/src/signaling_adapter.rs:225-230 | one close and one PeerLeft for the participant |
| SignalingAdapters.ReofferDiscipline | syncer/src/signaling_adapter.rs:109-275 | over every message sequence closes equal the PeerLeft events in order, joins follow their leave directly, other leaves follow an error, and payloads are the valid messages in arrival order, readable by the receiver |
| SignalingAdapters.EveryReofferIsAnswered | syncer/src/signaling_adapter.rs:213-275 | each offer of an active participant gives one PeerLeft, plus one PeerJoined exactly if valid; each invalid message one Error |
| SignalingAdapters.ActiveByParity | syncer/src/signaling_adapter.rs:213-249 | a participant is tracked according to the parity of its invalid offers since the last valid one |
| SignalingAdapters.PollsCompose | syncer/src/signaling_adapter.rs:109-132 | the messages of one queue may be shaped in two goes |
| SignalingAdapters.PollsAreOne | syncer/src/signaling_adapter.rs:109-132 | any history of polls, each starting with empty payloads and events, returns together what one poll of all messages would, with the same closes |
| SignalingAdapters.EventsAreVerdicts | syncer/src/signaling_adapter.rs:139-275 | the events are exactly each message's verdict in order: every Error, PeerLeft and PeerJoined belongs to the message and participant that caused it |
| SignalingAdapters.MessageIsShaped | syncer/src/signaling_adapter.rs:139-206 | by its fields alone: a valid relayed message becomes one payload in which the receiver reads the relayed description or candidate, sender, room and token; an invalid one becomes one error naming its first fault |
| SignalingAdapters.PolledDiscipline | syncer/src/signaling_adapter.rs:109-275 | over any number of polls: events are the verdicts, closes are the leaves, pairs, payloads, counts and parity as stated for one sequence |
| Messages.EncodeDecode | syncer/src/messages/sync_message.rs:19-42 | an encoded message decodes to itself if and only if its floats are finite |
| Messages.DecodeEncodeDecode | syncer/src/messages/sync_message.rs:19-42 | every decoded message can be encoded, and decodes the same again if and only if its floats are finite |
| Messages.OverflowingPoseIsLostOnReencoding | syncer/src/messages/pose.rs:24-55 | a pose with an overflowing number is accepted and is not finite |
| Messages.WireRoundTrip | syncer/src/messages/envelope.rs:28-158 | bytes of an encoded message read back as the message, or are refused for their size |
| Messages.EnvelopeKindIsFamily | syncer/src/messages/sync_message.rs:28-42 | an envelope's kind fixes the family of what it decodes to; one of kind voice is an unknown kind |
| Messages.SliceReads | syncer/src/messages/envelope.rs:28-92 | bytes are accepted as an envelope if and only if they contain what the encoder writes for it, at version 1, within the size limit |
| Messages.SignalingReads | syncer/src/messages/signaling.rs:20-103 | a body decodes to a signaling message if and only if it contains the written form and the message is valid |
| Messages.ChatReads | syncer/src/messages/chat.rs:24-65 | a body decodes to a chat message if and only if it contains the written form and the message is valid |
| Messages.ControlReads | syncer/src/messages/control.rs:19-31 | a body decodes to a control message if and only if it contains the written form |
| Messages.PoseRoundTrip | syncer/src/messages/pose.rs:24-61 | a written pose is read back if and only if all its floats are finite |
| Messages.PoseReads | syncer/src/messages/pose.rs:24-55 | a body that says a finite pose, with hands missing or null, is read as that pose if it is of version 1 |
| Messages.PoseRefusal | syncer/src/messages/pose.rs:24-55 | how other pose bodies are refused |
| Messages.CoordinatesAreNumbers | syncer/src/messages/pose.rs:57-61 | three or four numbers, integers included, make a position or a rotation, anything else is refused |
| Messages.ValidationExactly | syncer/src/messages/signaling.rs:97-242 | which chats and signaling messages are valid, by their fields, and the first fault of the others |
| Messages.EncodesExactly | syncer/src/messages/envelope.rs:94-158 | exactly the valid messages are encoded, at version 1 and under their own kind |
| Messages.SliceRefusal | syncer/src/messages/envelope.rs:28-92 | which error refused bytes get: the first fault in the order size, text, object, version, kind, body |
| Messages.ChatRefusal | syncer/src/messages/chat.rs:24-65 | which error a refused chat body gets |
| Messages.ControlRefusal | syncer/src/messages/control.rs:19-31 | which error a refused control body gets |
| Messages.SignalingRefusal | syncer/src/messages/signaling.rs:20-95 | which error a refused signaling body gets: first what is missing, then a wrong type, then the first fault |
| Messages.EnvelopeLayout | syncer/src/messages/envelope.rs:16-24 | the fields of a written envelope |
| Messages.PoseLayout | syncer/src/messages/pose.rs:13-61 | the fields of a written pose |
| Messages.ChatLayout | syncer/src/messages/chat.rs:13-19 | the fields of a written chat message |
| Messages.ControlLayout | syncer/src/messages/control.rs:13-49 | the fields of a written control message |
| Messages.SignalingLayout | syncer/src/messages/signaling.rs:13-211 | the fields of a written signaling message |
| Streams.ParseKind | syncer/src/lib.rs:522-536 | a kind is only parsed from its own name |
| Streams.KindNames | syncer/src/lib.rs:522-536 | the names on the wire |
| Streams.NamesAreDistinct | syncer/src/lib.rs:509-536 | every kind is parsed back from its name |

## Assumptions

* `Ids.UuidText.Faithful`: a printed id parses to itself. Several spellings may parse to one id.
* `Json.Floats.Faithful`: widening a finite single-precision float and narrowing it again is exact. JSON
  values survive being written and read.
* `SyncerRuns.Sane` adds that a join announcement, which holds one printed id, fits into an envelope.
* `BloomServer.Fresh`: room ids drawn at random are new, and so are connection numbers. `BloomServer.Lawful`
  adds that live connections have distinct participants; only the lemmas that name it need that.
* Each handler step is atomic: nothing is awaited between the core call and the sends, and the server runs on
  one thread (bloom/ws/src/main.rs:6). The roster theorems depend on it.
* Clocks do not go backwards where a lemma says `Sorted` or `InOrder`.

## Left out

- RealWebrtcTransport: ICE, SDP, tracks and drop threads are calls into a foreign crate with asynchronous callbacks.
- Transport as a trait: the syncer is modelled over the in-process transport only.
- TCP, HTTP upgrade, ping timer and close codes: a disconnect is normal, abnormal or after an unsupported frame; the codes are those of section 7.4.1 of RFC 6455.
- Order of delivery by the socket broadcast: the source spawns each send, which may overtake another; the mailboxes here record the order in which sends were issued.
- Live readers of a mailbox: a normal disconnect leaves the participant in its room, as in the source, so rosters may be sent to somebody who is gone.
- JSON text and UTF-8: the codec is modelled on JSON values with a size; duplicate keys and number syntax belong to the JSON library. Parsing a client's text into a request is a parameter, None being text that is no request.
- UUID syntax and generation: parameters, as said under Assumptions.
- Agreement between an envelope's control or signaling kind and its body: the code does not check it, so nothing is claimed.
- Injected failures in the agreement theorems: they remove a peer from a table while both are joined; the delivery theorems include them. Reconnects happen to both syncers at once.
- Overflow of instants and of the participant table's 64-bit session numbers: both are unbounded here.
- Sending half of the signaling adapter: it forwards its arguments to the room server.
- The optional limiter of a handler: always present, as the constructor makes it.
- `sent_params`: recorded by the transport class, not part of the value model; the fan-out states the parameters of each send.
- `relay_*_checked`, StubSyncer, InMemorySignalingHub, mocks, tracing and logging: one-branch duplicates or test support.
- Client crates (domain, godot adapter): lifecycle flags, frame counters and calls into a game engine.
