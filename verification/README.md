# FriendViewer: a verified model of the relay

FriendViewer lets one user see another user's screen through a relay, the *distributor*. Daemons (C++) connect to it,
register a name, and ask to see each other; the distributor (Java) keeps one user map and one session list, which the
handlers of all connections share. The project models the four parts whose correctness is least visible in the code and
proves what they are for.

**The session protocol.** `Distributor.dfy` holds the Java classes as classes: `SessionData`, `UsersData` and
`ServerHandler`, whose methods scan and change the shared lists in place. Each method is proved against a function of
`SessionRules.dfy`, which keeps the scan's order, early exits and null lookups. `SessionMachine.dfy` makes these functions
a transition system: connecting, handling a packet, a poll of the watchdog thread and `exceptionCaught` are its atomic
steps, and every channel has an outbox with all that was written to it. A null lookup ends the handler with a
NullPointerException, which comes back to the connection as `exceptionCaught`. `Directory.dfy` is the simple machine the
scans are meant to be: one map from names to the roles idle, host and client-of-a-host. `Refinement.dfy` and
`SessionTheorems.dfy` prove that every guarded run of the list-scanning machine is a run of the directory, and what that
gives; `Outcomes.dfy` writes out, for each kind of step, everybody's role, all stored params and every packet on every
channel afterwards; `Unguarded.dfy` and `OutboxGrowth.dfy` prove what holds whatever clients do; `Relays.dfy`,
`Memberships.dfy` and `HostedSession.dfy` are about what clients hear.

The guards (`SessionMachine.Guard`) are client behaviour that the code relies on and does not enforce: after `removeSelf`
a connection sends nothing, and is not removed again under a name that is somebody else's by then; a registration that the
server accepts is the connection's first and under a nonempty name; and a session request that the server would grant comes
from a registered, idle user and names somebody else. Joining a session before its video params are stored is not guarded
against: the model takes the exception and the removal that follow. `Guards.dfy` says for each guard exactly what keeps the
invariant. Repeated removals and registrations keep it if and only if they obey their guard
(`Guards.SecondRemovalKeepsInvIff`, `Guards.RegistrationKeepsInvIff`). Of the requests the guard forbids, one kind does
no harm: a host's own request for its own session before that has video params, which fails and removes the host
(`Guards.RequestKeepsInvIff`). Of the packets of a removed connection most do no harm (`Guards.StoppedKeepsInvIff`), but
some speak for whoever has the name by then, as in `Witnesses.StaleNameSpeaks`. `Witnesses.dfy` holds this and other
concrete runs.

**Framing.** `Framing.dfy` decodes a whole stream at once; the incremental decoders of `CppMessageManager.dfy` and
`JavaMessageManager.dfy` are classes with the original fields, proved to agree with it on any fragmentation and so with
each other. `ClientSocket.dfy` has the sending and receiving loops over a network that answers as it likes, and
`Delivery.dfy` the queue in front of them and conservation over every interleaving; `EndToEnd.dfy` composes the
daemon's drain loop with the server's `channelRead` down to the tables, and shows that to be a run of the transition
system.

**Daemon and server together.** `Daemon.dfy` has the registration retry and the host's encode loop, `DaemonLoop.dfy` the
daemon's whole frame, `Heartbeat.dfy` the circulating heartbeat and both watchdogs on a real-valued clock, and
`HeartbeatHandlers.dfy` proves its ticks to be what the handlers on both sides do.

**Byte and text algorithms.** `H264.dfy` splits byte streams (Annex B, section B.1 of ITU-T H.264), `NetworkManager.dfy`
sweeps finished tasks and dispatches received messages, `SaltHasher.dfy` and `DatabaseManager.dfy` salt, hash and print
UPDATE statements, which the reference reader of `SqlText.dfy` reads back.

Where the code and its own texts disagree, the code is followed: a comment announces a success message to a client that
closes its session (prototype/distributor/src/ServerHandler.java:246-257) but nothing is sent; a test helper writes lengths
big-endian (prototype/network_protocol/java_test/Util.java:7) but sender and decoders use little-endian.

Two things one would expect do not always hold, and the exact conditions are results: `removeSelf` does not always leave
the name nowhere (`Guards.RemovalForgetsIff`; the name stays if it is empty, as in `Witnesses.EmptyNameStays`, if a
guest that never registered makes the removal itself fail, as in `Witnesses.HostStays`, or if it is a member twice), and
sessions do not always have clients (`Unguarded.CloseEmptiesIff`, `Unguarded.StepEmptiesIff`,
`Unguarded.SessionsStayOccupied`; a last client that sends SESSION_CLOSE leaves an empty session behind, as in
`Witnesses.EmptySessionStays`, while one that disconnects takes the session with it).

## Model

| member | source | states |
|---|---|---|
| SessionTheorems.Reachable | prototype/distributor/src/ServerHandler.java:53-447 | In every guarded run from the empty state each name occurs at most once across all hosts and client lists, every member is registered, users and running handlers correspond one to one, and the run is the directory's run on the same events |
| SessionTheorems.ExecRefines | prototype/distributor/src/ServerHandler.java:53-447 | The same from any state satisfying the invariant |
| SessionTheorems.StepRefines | prototype/distributor/src/ServerHandler.java:287-447 | One guarded step keeps the invariant and is exactly one step of the map from names to roles |
| SessionTheorems.OrderIrrelevant | prototype/distributor/src/ServerHandler.java:145-259 | Two states whose session lists are permutations of each other allow the same guarded runs and show the same roles, params, users and outboxes all along |
| SessionTheorems.SameViewSameRuns | prototype/distributor/src/ServerHandler.java:287-447 | The map of roles is all there is to a state: states that show the same one allow the same runs and go on showing the same |
| SessionTheorems.LookupsSucceed | prototype/distributor/src/ServerHandler.java:165-174 | Under the guards a handler fails on a null reference if and only if it is handling a join of a session that has no video params yet; every lookup of a member succeeds |
| SessionTheorems.NoDanglingMembers | prototype/distributor/src/UsersData.java:12-45 | In every reachable guarded state each session member is a key of the user map, bound to the channel of a running handler that carries the name |
| SessionTheorems.RemovalLeavesNothing | prototype/distributor/src/ServerHandler.java:399-447 | After removeSelf the name is neither a user nor in any session; each client of a departing host has got exactly one SESSION_CLOSE and no other channel anything |
| Outcomes.ConnectOutcome | prototype/distributor/src/ServerHandler.java:376-378 | A new connection has no name, is running and was last heard of now; no table changes and nothing is sent |
| Outcomes.HandshakeOutcome | prototype/distributor/src/ServerHandler.java:53-67 | A handshake with 0x12341234ABCDABCD is answered with 0xABCDABCABA123456 as a signed 64-bit number, on the same channel only, any other with nothing; no table changes |
| Outcomes.HeartbeatOutcome | prototype/distributor/src/ServerHandler.java:108-120 | A heartbeat is answered once with the server's time, which is noted; no table changes |
| Outcomes.RegistrationOutcome | prototype/distributor/src/ServerHandler.java:69-106 | Who is registered, every role and every packet on every channel after a registration: SUCCESS and the new list, or NAME_TAKEN and nothing else |
| Outcomes.RefusalOutcome | prototype/distributor/src/ServerHandler.java:128-193 | A request for nobody is answered USER_NOT_FOUND, one for a client USER_ALREADY_IN_SESSION, and nothing else happens |
| Outcomes.BeginningOutcome | prototype/distributor/src/ServerHandler.java:195-218 | A request for an idle user makes it host and the requester client; the requester is sent SESSION_STARTING, the host SESSION_REQUEST, and nobody anything else |
| Outcomes.JoiningOutcome | prototype/distributor/src/ServerHandler.java:147-174 | A request for a host with params makes the requester its client, which is sent SESSION_STARTING and then those params, and nobody anything |
| Outcomes.FailureOutcome | prototype/distributor/src/ServerHandler.java:147-174 | A request for a host without params is answered SESSION_STARTING and costs the requester its name; the host stays one unless the requester was its only client |
| Outcomes.MediaOutcome | prototype/distributor/src/ServerHandler.java:266-341 | Data and params reach each client of the sender once and nobody else, and params are stored for its session alone |
| Outcomes.ControlOutcome | prototype/distributor/src/ServerHandler.java:342-350 | Input reaches the sender's host once and nobody else |
| Outcomes.CloseOutcome | prototype/distributor/src/ServerHandler.java:221-264 | Every role, all params and every packet on every channel after a SESSION_CLOSE |
| Outcomes.RemovalOutcome | prototype/distributor/src/ServerHandler.java:376-447 | Every role, all params and every packet on every channel after a removal, by exceptionCaught or by a watchdog after more than 7000 ms |
| Outcomes.IgnoredOutcome | prototype/distributor/src/ServerHandler.java:291-294 | Packets that only servers send change nothing |
| Refinement.ReceiveRefines | prototype/distributor/src/ServerHandler.java:287-355 | Handling any packet under the guards, a NullPointerException included, is the directory's reaction, and changes the user map only for the handler's own name |
| Refinement.RegisterRefines | prototype/distributor/src/ServerHandler.java:69-106 | A free name becomes an idle user, is told SUCCESS and everybody one new USER_LIST; a taken one changes nothing and is told NAME_TAKEN |
| Refinement.RequestRefines | prototype/distributor/src/ServerHandler.java:122-219 | The scan decides by the target's role alone: unknown, client elsewhere, host (join and replay) or idle (new session, host told) |
| Refinement.CloseRefines | prototype/distributor/src/ServerHandler.java:221-264 | A host's close tells its clients once each and makes all of them idle; a client's close makes it alone idle and tells nobody, even if the session is then without clients |
| Refinement.VideoRefines | prototype/distributor/src/ServerHandler.java:266-285 | A host's params are stored for its one session and reach each of its clients once; anybody else's do nothing |
| Refinement.DataRefines | prototype/distributor/src/ServerHandler.java:331-341 | A host's data reaches each of its clients once and changes no table |
| Refinement.ControlRefines | prototype/distributor/src/ServerHandler.java:342-350 | A client's input reaches its host once and changes no table |
| Refinement.LeaveRefines | prototype/distributor/src/ServerHandler.java:405-439 | The scan of removeSelf ends a host's session, takes a client out, and ends the session with its last client |
| Refinement.RemoveRefines | prototype/distributor/src/ServerHandler.java:399-442 | removeSelf never fails under the invariant, leaves the tables sound and removes the one name |
| Refinement.SettledInv | prototype/distributor/src/UsersData.java:25-40 | A step that moves the user map only at its own handler's name keeps all users bound to running handlers that carry their names |
| SessionInvariant.SendAllTells | prototype/distributor/src/ServerHandler.java:235-237 | When every member is registered the sending loop finds a channel for each, and each channel gets the packet exactly once |
| SessionInvariant.CloseFound | prototype/distributor/src/ServerHandler.java:226-263 | With unique names the whole scan of onSessionClose acts on the first session that has the sender and on nothing else |
| SessionInvariant.VideoFound | prototype/distributor/src/ServerHandler.java:268-284 | The same for the scan that stores video params |
| SessionInvariant.DataFound | prototype/distributor/src/ServerHandler.java:333-339 | The same for the scan that relays data |
| SessionInvariant.ControlFound | prototype/distributor/src/ServerHandler.java:343-348 | The same for the scan that relays control input |
| SessionInvariant.RequestFound | prototype/distributor/src/ServerHandler.java:145-219 | The scan of onSessionRequest answers by the first session the target is in, with no assumption on the tables |
| SessionInvariant.LeaveFound | prototype/distributor/src/ServerHandler.java:409-439 | The scan of removeSelf acts on the first session the name is in, with no assumption on the tables |
| Directory.RoleIgnoresOrder | prototype/distributor/src/UsersData.java:43-45 | A name's role and a host's stored params do not depend on the order of the session list |
| Directory.SessionRemoved | prototype/distributor/src/ServerHandler.java:261-263 | Dropping a session makes exactly its host and clients idle and forgets exactly its params |
| Directory.SessionReplaced | prototype/distributor/src/SessionData.java:27-37 | Changing one session's clients or params moves nobody else, and the names stay unique |
| Directory.SessionAdded | prototype/distributor/src/ServerHandler.java:195 | A new session makes its two members host and client, moves nobody else, and the names stay unique |
| Unguarded.HostsStayDistinct | prototype/distributor/src/ServerHandler.java:145-195 | In every run, with no assumption on clients, no two sessions share a host |
| Unguarded.UserListsAgree | prototype/distributor/src/ServerHandler.java:82-92 | In every run, with no assumption on clients, the last USER_LIST on all registered channels is the same set: the current users and those removed since the latest registration |
| Unguarded.RegistrationAgrees | prototype/distributor/src/ServerHandler.java:69-106 | After a registration the last list on every registered channel is exactly the current users |
| Guards.RegistrationKeepsInvIff | prototype/distributor/src/ServerHandler.java:69-93 | An accepted registration keeps the invariant if and only if it is the connection's first and the name is not empty |
| Guards.RequestKeepsInvIff | prototype/distributor/src/ServerHandler.java:122-219 | A session request, with the removal that follows if it fails, keeps the invariant if and only if it is refused, or comes from a registered, idle user naming somebody else, or is a host's request for its own session before that has video params, which costs the host its name |
| Guards.RequestKeepsSoundIff | prototype/distributor/src/ServerHandler.java:122-219 | Before any exception is caught, onSessionRequest leaves sound tables (names unique, members registered) if and only if the request is refused or comes from a registered, idle user naming somebody else |
| Guards.StoppedKeepsInvIff | prototype/distributor/src/ServerHandler.java:287-355 | A packet from a connection that was removed keeps the invariant unless it is an accepted registration or a granted session request; of the latter two kinds do no harm, one that fails for a name nobody has, and one that succeeds for an idle new holder of the name and names somebody else |
| Guards.RequestKeepsUniqueIff | prototype/distributor/src/ServerHandler.java:122-195 | A session request keeps names unique if and only if it is refused or comes from an idle user naming somebody else |
| Guards.RemovalForgetsIff | prototype/distributor/src/ServerHandler.java:399-442 | With no assumption on the tables, removeSelf leaves a name that is somewhere neither in the user map nor in any session if and only if it is not empty, is in at most one session, there at most once as a client, and as a host only with registered clients |
| Guards.SendAllThrowsIff | prototype/distributor/src/ServerHandler.java:235-237 | The sending loop fails if and only if some name is not registered |
| Guards.SendAllStops | prototype/distributor/src/ServerHandler.java:235-237 | It serves the names before the first that is not registered and nobody after it |
| Witnesses.EmptyNameStays | prototype/distributor/src/ServerHandler.java:400-403 | A concrete run after which the empty name is bound to a connection that is gone |
| Witnesses.HostStays | prototype/distributor/src/ServerHandler.java:421-423 | A concrete run in which a guest without a name makes the host's removal fail inside exceptionCaught: the name stays in the user map and goes on hosting, bound to a connection that is gone |
| Guards.SecondRemovalKeepsInvIff | prototype/distributor/src/ServerHandler.java:399-447 | Removing a connection a second time keeps the invariant if and only if nobody has taken its name |
| Unguarded.CloseEmptiesIff | prototype/distributor/src/ServerHandler.java:243-257 | With sound tables whose sessions all have clients, a SESSION_CLOSE leaves a session without clients if and only if its sender is the only client of somebody else's session |
| Unguarded.RemovalKeepsOccupied | prototype/distributor/src/ServerHandler.java:427-439 | removeSelf never leaves a session without clients where there was none, with no other assumption on the tables |
| Unguarded.StepEmptiesIff | prototype/distributor/src/ServerHandler.java:226-264 | From a state satisfying the invariant, a step leaves a session without clients if and only if it is such a SESSION_CLOSE |
| Unguarded.SessionsStayOccupied | prototype/distributor/src/ServerHandler.java:221-264 | In every run, with no assumption on clients, every session has a client unless a sole client's SESSION_CLOSE was taken |
| Witnesses.EmptySessionStays | prototype/distributor/src/ServerHandler.java:243-257 | A concrete run, all guards obeyed, that ends with a session without clients |
| Witnesses.JoinFails | prototype/distributor/src/ServerHandler.java:165-174 | A concrete run, all guards obeyed, to a state in which an allowed join dereferences params that are not there and costs the guest its registration |
| Witnesses.StaleNameSpeaks | prototype/distributor/src/ServerHandler.java:331-341 | A concrete run after which a connection that is gone sends data and the guest of the new holder of its name gets it |
| Guards.SecondNameDangles | prototype/distributor/src/ServerHandler.java:69-93 | After any second registration and a disconnection the first name is bound to a connection that is gone |
| Relays.StepHears | prototype/distributor/src/ServerHandler.java:266-350 | In one guarded step every channel is sent exactly the params and data that its user's role entitles it to |
| Relays.OutsidersHearNothing | prototype/distributor/src/ServerHandler.java:331-341 | Params and data reach no channel but those of the speaking host's clients |
| Memberships.MembershipHears | prototype/distributor/src/ServerHandler.java:266-341 | While a user stays a client, its outbox grows by exactly the params and data its host sends in that interval, unchanged and in order |
| Memberships.ParamsTracked | prototype/distributor/src/ServerHandler.java:269-271 | Throughout a session the stored params are the last its host sent |
| Memberships.Joining | prototype/distributor/src/ServerHandler.java:145-174 | A user becomes a client only by its own request; it is then sent the stored params if the session was there and nothing if it is new |
| Memberships.JoinedHears | prototype/distributor/src/ServerHandler.java:145-174 | From joining on a client hears the stored params and then what the host sends, and the last params it heard are the stored ones |
| Memberships.ClientsCatchUp | prototype/distributor/src/ServerHandler.java:145-285 | In every reachable guarded state the last VIDEO_PARAMS sent to every current client of a session with stored params are those, whether it was there when they came or joined later |
| Memberships.ParamsBeforeData | prototype/distributor/src/ServerHandler.java:145-341 | If a host's stream in its session opens with VIDEO_PARAMS then no client, original or late, is sent data before params within its membership |
| HostedSession.HostPts | prototype/daemon/daemon_backend_controller.cc:305-325 | The data of an encoding host is numbered 0, 1, 2 and so on |
| HostedSession.HostParams | prototype/daemon/daemon_backend_controller.cc:309-320 | Throughout its session an encoding host's stored params are the ones it announced, once it has sent anything |
| HostedSession.ClientHearsConsecutiveFrames | prototype/daemon/daemon_backend_controller.cc:301-328 | A client of an encoding host, original or late, hears exactly that host's params first and then data with consecutive pts values |
| Distributor.ServerHandler.constructor | prototype/distributor/src/ServerHandler.java:376-378 | A new connection has no name, is running, was last heard of now, and its decoder is empty |
| Distributor.ServerHandler.SendProto | prototype/distributor/src/ServerHandler.java:45-51 | A null channel throws and writes nothing, another gets the packet once |
| Distributor.ServerHandler.SendToClients | prototype/distributor/src/ServerHandler.java:235-237 | The loop sends to each name in order until a lookup finds none |
| Distributor.ServerHandler.SendToEveryone | prototype/distributor/src/ServerHandler.java:90-92 | In whatever order the map is traversed, every channel gets the packet once for each name bound to it |
| Distributor.ServerHandler.OnNewUser | prototype/distributor/src/ServerHandler.java:69-106 | In place, the tables and the handler become those of the registration rule |
| Distributor.ServerHandler.BeginSession | prototype/distributor/src/ServerHandler.java:195-218 | In place, a session without params is added, requester and host are told, and the list still holds no object twice |
| Distributor.ServerHandler.OnSessionRequest | prototype/distributor/src/ServerHandler.java:122-219 | In place, the scan with its early returns has the effect of the request rule, the exception of a join without params included |
| Distributor.ServerHandler.OnSessionClose | prototype/distributor/src/ServerHandler.java:221-264 | In place, the scan with its early return and the removal after the loop has the effect of the close rule, a failed lookup included |
| Distributor.ServerHandler.OnVideoParams | prototype/distributor/src/ServerHandler.java:266-285 | In place, the scan has the effect of the params rule, a failed lookup after storing included |
| Distributor.ServerHandler.OnData | prototype/distributor/src/ServerHandler.java:331-341 | The scan sends as the data rule says |
| Distributor.ServerHandler.OnControlInput | prototype/distributor/src/ServerHandler.java:342-350 | The scan sends as the control rule says |
| Distributor.ServerHandler.Leave | prototype/distributor/src/ServerHandler.java:405-439 | In place, the scan that breaks at the first session with the name has the effect of the leaving rule |
| Distributor.ServerHandler.RemoveSelf | prototype/distributor/src/ServerHandler.java:399-442 | In place, the handler stops and a named one leaves its session and the user map, in that order |
| Distributor.ServerHandler.WatchdogPoll | prototype/distributor/src/ServerHandler.java:382-395 | A poll removes a running connection if its last heartbeat is more than 7000 ms old and closes its channel unless the removal throws; otherwise it changes nothing |
| Distributor.ServerHandler.HandlePacket | prototype/distributor/src/ServerHandler.java:287-355 | Every packet type has the effect of its rule; a handshake is answered if its number is right, else the channel is closed; unknown types do nothing |
| Distributor.ServerHandler.HandleNext | prototype/distributor/src/ServerHandler.java:367-373 | The oldest packet is parsed and handled; one that cannot be parsed is dropped |
| Distributor.ServerHandler.ChannelRead | prototype/distributor/src/ServerHandler.java:357-374 | Whatever the chunking, the packets handled are the next messages of the whole stream received, in order, up to one that throws, each at its own time; a negative length throws before anything of its chunk is handled |
| Distributor.ServerHandler.ExceptionCaught | prototype/distributor/src/ServerHandler.java:444-447 | An exception removes the connection and closes it, unless the removal throws too |
| Distributor.SessionData.constructor | prototype/distributor/src/SessionData.java:15-21 | A session starts with its host, one client and no params |
| Distributor.SessionData.AddClientUser | prototype/distributor/src/SessionData.java:31-33 | A client is added at the end |
| Distributor.SessionData.RemoveClientUser | prototype/distributor/src/ServerHandler.java:244 | The first occurrence of the name goes and the others stay in order |
| Distributor.RemoveFirstAt | prototype/distributor/src/ServerHandler.java:244 | What is left after removing a name: those before its first place and those after it, in order |
| Distributor.SessionData.SetVideoParams | prototype/distributor/src/SessionData.java:35-37 | The params are replaced |
| Distributor.UsersData.AddUser | prototype/distributor/src/UsersData.java:25-27 | The name is bound to the channel and the other bindings stay |
| Distributor.UsersData.Remove | prototype/distributor/src/UsersData.java:38-40 | The name is unbound and the other bindings stay |
| Distributor.UsersData.RemoveSession | prototype/distributor/src/ServerHandler.java:436-439 | Exactly the one object is taken out of the list |
| Framing.RoundTrip | prototype/distributor/src/ServerHandler.java:37-43 | Decoding the frames of any list of messages under 2^31 bytes, empty ones included, gives the list with nothing left over |
| Framing.PrefixFree | prototype/distributor/src/ServerHandler.java:37-43 | If one list's encoding is a prefix of another's then the list is a prefix of the other |
| Framing.FrameIs | prototype/distributor/src/ServerHandler.java:37-43 | A frame byte by byte: the length, lowest byte first, then the message |
| Framing.LengthIs | prototype/network_protocol/MessageManager.java:50-51 | The length read from four bytes, lowest byte first |
| Framing.NegativeIs | prototype/network_protocol/MessageManager.java:51-58 | A length field is negative exactly if its fourth byte is 128 or more |
| Framing.DecodeResumes | prototype/network_protocol/message_manager.cc:11-48 | Decoding can stop after any byte and resume from the unconsumed tail |
| Framing.FragmentationIrrelevant | prototype/network_protocol/message_manager.cc:11-48 | Feeding a stream in any chunks gives the messages and the tail of the whole stream |
| Framing.DecodeConserves | prototype/network_protocol/MessageManager.java:37-72 | On every stream without negative lengths the messages' frames followed by the tail are the stream |
| Framing.TailIncomplete | prototype/network_protocol/message_manager.cc:22-45 | What is left over never holds a complete message |
| Framing.MessagesShort | prototype/network_protocol/message_manager.cc:34-40 | On a stream of fewer than 2^64 - 2^31 bytes every complete message is shorter than 2^31 bytes: a negative length is cast to more than the stream can hold |
| CppMessageManager.MessageManager.ParseBlob | prototype/network_protocol/message_manager.cc:11-48 | After any sequence of calls retrieved and queued messages are those of all bytes received, the partial state is their unconsumed tail, and every pass consumes a byte |
| CppMessageManager.MessageManager.ReadLength | prototype/network_protocol/message_manager.cc:16-32 | The length branch keeps that agreement; an empty message is complete at once |
| CppMessageManager.MessageManager.ReadBody | prototype/network_protocol/message_manager.cc:33-46 | The body branch keeps it, a negative length counting as the enormous one it is cast to |
| CppMessageManager.MessageManager.NextMessageLength | prototype/network_protocol/message_manager.cc:54-57 | On any stream of fewer than 2^64 - 2^31 bytes, -1 means that every message of the stream received has been retrieved, and any other answer is the exact size of the next one; narrowing never shows |
| CppMessageManager.MessageManager.RetrieveMessage | prototype/network_protocol/message_manager.cc:59-66 | The oldest waiting message is handed out once; messages under 2^31 bytes never fail to be |
| JavaMessageManager.MessageManager.Fill | prototype/network_protocol/MessageManager.java:43-45 | The inner loop moves as many bytes as both buffers allow, in order |
| JavaMessageManager.MessageManager.ParseData | prototype/network_protocol/MessageManager.java:37-72 | It throws if and only if a length with its top bit set is reached; otherwise packets taken and queued are those of all bytes received and the buffer holds their unconsumed tail |
| JavaMessageManager.MessageManager.ReadLength | prototype/network_protocol/MessageManager.java:42-60 | The length branch keeps that agreement, or throws with the earlier packets still queued |
| JavaMessageManager.MessageManager.ReadBody | prototype/network_protocol/MessageManager.java:61-70 | The body branch keeps it |
| JavaMessageManager.MessageManager.NextPacket | prototype/network_protocol/MessageManager.java:25-31 | The oldest packet is handed out once, or none |
| JavaMessageManager.Bisimilar | prototype/network_protocol/MessageManager.java:37-72 | Fed the same bytes in whatever chunks, the C++ and the Java decoder have made the same messages and hold matching flag, partial bytes and length |
| ClientSocket.Socket.SendBlock | prototype/daemon/networking/client_socket.cc:58-70 | For every sequence of partial sends and would-block errors, on true the stream has grown by exactly the given bytes and on false, or while looping, by a prefix of them |
| ClientSocket.Socket.SendData | prototype/daemon/networking/client_socket.cc:73-80 | A true result means exactly one frame was appended; otherwise parts of length and data; without hard errors never anything but a prefix of the frame |
| ClientSocket.Socket.ReceiveData | prototype/daemon/networking/client_socket.cc:82-101 | The bytes of all reads up to the first error, and which of the three results that is; once the peer has closed, the loop does not end |
| Delivery.ChunkBuffer.DequeueChunk | prototype/daemon/chunk_buffer.hh:26-35 | The oldest chunk is taken, or the queue is empty |
| Delivery.ChunkBuffer.EnqueueChunk | prototype/daemon/chunk_buffer.hh:38-41 | The chunk becomes the newest |
| Delivery.ChunkBuffer.Clear | prototype/daemon/chunk_buffer.hh:44-47 | Nothing is left |
| Delivery.DrainSendBuffer | prototype/daemon/daemon_backend_controller.cc:206-209 | Without hard errors the stream grows by the frames of the queue in order, and by a prefix of them while a send is looping |
| Delivery.MoveConserves | prototype/daemon/daemon_backend_controller.cc:206-209 | Enqueueing, starting a send, a partial send, a read of any size and handling each keep handled, decoded, in-flight and queued packets equal to those enqueued |
| Delivery.DeliveredInOrder | prototype/daemon/daemon_backend_controller.cc:407-412 | In every interleaving packets handled, queued in the decoder, pending as bytes and in the send buffer are together the packets enqueued, in order |
| Delivery.EnqueuedAre | prototype/daemon/daemon_backend_controller.cc:407-412 | The packets counted as enqueued are those of the enqueues, in order |
| Delivery.CanDeliver | prototype/daemon/daemon_backend_controller.cc:206-209 | From every state there are moves after which everything enqueued is handled |
| Delivery.NothingLost | prototype/distributor/src/ServerHandler.java:357-374 | Once everything is sent and read, every enqueued packet is handled or queued, and no byte is left over |
| EndToEnd.ReadAll | prototype/distributor/src/ServerHandler.java:357-374 | A stream read in any chunks has the effect on the tables of handling its messages in order, up to one that throws |
| EndToEnd.Deliver | prototype/daemon/daemon_backend_controller.cc:206-209 | Draining the queue over a network without hard errors and reading what arrives in chunks of any sizes has the effect on the tables of handling the queue's messages in order; while a send is looping, a prefix of them |
| EndToEnd.HandledIsRun | prototype/distributor/src/ServerHandler.java:367-373 | Handling a batch of messages, with exceptionCaught after one that throws, is the run of their events in the distributor's transition system |
| EndToEnd.EventsAre | prototype/distributor/src/ServerHandler.java:367-373 | The events of a batch are its packets one by one, in order, each at its own time, up to the first that throws |
| EndToEnd.EventsSkip | prototype/distributor/src/ServerHandler.java:370-372 | A message that cannot be parsed is no event |
| EndToEnd.DeliverAsRun | prototype/distributor/src/ServerHandler.java:357-374 | The whole delivery, exceptionCaught included, leaves the tables and the handler of the state that the run of the queue's messages leads to, and keeps the invariant if they obey the guards |
| H264.SeekNalu | prototype/daemon/decoder/h264_encoder.cc:36-51 | The position of the nth start code, each taken leftmost from two bytes past the one before, without reading past the buffer when that many are there |
| H264.StartsFound | prototype/daemon/decoder/h264_encoder.cc:37-49 | Written out in bytes: each start found is the leftmost 0, 0, 1 or 0, 0, 0, 1 from two bytes past the one before |
| H264.StartsThere | prototype/daemon/decoder/h264_encoder.cc:37-49 | And starts that are there are found |
| H264.ScanToStart | prototype/daemon/decoder/h264_encoder.cc:39-47 | The inner loop stops at the leftmost three- or four-byte start code |
| H264.SeekFindsUnits | prototype/daemon/decoder/h264_encoder.cc:36-51 | In a well-formed byte stream with start codes of either length, that is where the nth NAL unit starts |
| H264.ParameterSetsSplit | prototype/daemon/decoder/h264_encoder.cc:162-167 | In a first packet of at least three units, what is moved to the parameter sets is exactly the first two |
| H264.H264Encoder.EncodeFrame | prototype/daemon/decoder/h264_encoder.cc:155-170 | Over a whole run parameter sets and emitted packet parts are the codec's output; the split happens on the first packet only; an error changes nothing |
| H264.H264Encoder.Shutdown | prototype/daemon/decoder/h264_encoder.cc:173-180 | A new run starts from nothing |
| H264.H264Encoder.GetPpsSps | prototype/daemon/decoder/h264_encoder.cc:184-190 | It answers true exactly when the packets emitted are not yet all the codec's output, and what it then hands out is the rest of it |
| Daemon.DaemonBackendController.EnqueueMsg | prototype/daemon/daemon_backend_controller.cc:407-412 | The packet becomes the newest in the send buffer |
| Daemon.DaemonBackendController.HandleHandshake | prototype/daemon/daemon_backend_controller.cc:227-235 | The right number, compared as unsigned 64-bit values, is answered with the user name; any other stops the daemon |
| Daemon.DaemonBackendController.HandleServmsg | prototype/daemon/daemon_backend_controller.cc:245-266 | NAME_TAKEN lengthens the name by one character and asks again, SESSION_STARTING makes the daemon a client, and nothing else changes either |
| Daemon.DaemonBackendController.BeginFrame | prototype/daemon/daemon_backend_controller.cc:197-225 | A connected daemon stops exactly when more than six whole seconds have passed since the last heartbeat; one asked to connect enqueues its greeting and its first heartbeat, successful or not |
| DaemonLoop.DrainPackets | prototype/daemon/daemon_backend_controller.cc:206-209 | The send buffer goes out as the frames of its packets, in order |
| DaemonLoop.SentReadsBack | prototype/daemon/daemon_backend_controller.cc:206-209 | Decoding what was sent and parsing each message gives the packets of the send buffer back, in order |
| DaemonLoop.RunFrame | prototype/daemon/daemon_backend_controller.cc:197-216 | One whole frame: watchdog or connect attempt, then reading and dispatching, then sending everything queued; it does not return once the peer has closed, so such a daemon looks at its watchdog once more and never again |
| Daemon.DaemonBackendController.EncodeNext | prototype/daemon/daemon_backend_controller.cc:306-325 | One frame: VIDEO_PARAMS with the host's width and height at 30 frames to 1 second if they have not been sent, then the frame's data |
| Daemon.DaemonBackendController.HandleEncode | prototype/daemon/daemon_backend_controller.cc:301-328 | One VIDEO_PARAMS with the host's own width and height and 30 over 1, then data numbered from zero, each with exactly its frame of the codec's output, the parameter sets of the first one in the params |
| Daemon.HostStreamIs | prototype/daemon/daemon_backend_controller.cc:309-325 | The stream of an encoding host, packet by packet |
| Daemon.TriedAreMany | prototype/daemon/daemon_backend_controller.cc:251 | The first k names tried are k different names |
| Daemon.Attempt | prototype/daemon/daemon_backend_controller.cc:249-255 | One request and its answer: accepted exactly when nobody holds the name, else nothing changes but the name to try next |
| Daemon.Register | prototype/daemon/daemon_backend_controller.cc:249-255 | With N names registered and nobody else registering the retry ends within N+1 attempts under the first free name, and the other bindings stay |
| Heartbeat.TokensAreAttempts | prototype/daemon/daemon_backend_controller.cc:210-243 | There are always exactly as many heartbeats in circulation as connect attempts were made |
| Heartbeat.OneTokenIff | prototype/daemon/daemon_backend_controller.cc:210-225 | A live connection has exactly one heartbeat in circulation if and only if the first attempt to connect succeeded |
| Heartbeat.NeverFires | prototype/distributor/src/ServerHandler.java:376-397 | After a first attempt that succeeds, and while every one-way delay stays below 2500 ms, neither watchdog ever fires |
| Heartbeat.DelayBoundIsTight | prototype/daemon/daemon_backend_controller.cc:199-204 | With both delays at 2500 ms the daemon's watch condition does hold |
| Heartbeat.WatchdogsFireIff | prototype/daemon/daemon_backend_controller.cc:199-204 | After a first attempt that succeeds the daemon's watch condition holds if and only if sleep, way out and way back, as far as they have come, add up to 7000 ms, and the server's if and only if way back, sleep and way out add up to more than 7000 of its whole milliseconds |
| Heartbeat.RoundTripsKeepAlive | prototype/distributor/src/ServerHandler.java:376-397 | However the delay is spread, while the current leg and the two before it take less than 7000 ms together neither watchdog fires |
| Heartbeat.OneEveryTwoSeconds | prototype/daemon/daemon_backend_controller.cc:239 | With one heartbeat in circulation the server handles at most one, and one more for every two seconds that have passed |
| HeartbeatHandlers.Connects | prototype/daemon/daemon_backend_controller.cc:210-225 | The connect branch of run_frame is the clockwork's attempt: one heartbeat more under way |
| HeartbeatHandlers.ServerBeats | prototype/distributor/src/ServerHandler.java:108-120 | Handling a heartbeat is the clockwork's tick at the server: one reply on the same channel, the time noted, no other table touched |
| HeartbeatHandlers.DaemonBeats | prototype/daemon/daemon_backend_controller.cc:237-239 | Handling the reply is the clockwork's tick at the daemon |
| HeartbeatHandlers.Answers | prototype/daemon/daemon_backend_controller.cc:239-242 | The end of the two-second sleep is the clockwork's waking: one heartbeat more under way |
| HeartbeatHandlers.ServerHandlesOther | prototype/distributor/src/ServerHandler.java:287-355 | Handling any other packet neither makes nor loses a heartbeat |
| HeartbeatHandlers.DaemonWatches | prototype/daemon/daemon_backend_controller.cc:199-204 | A frame of a connected daemon begins by stopping it exactly when the clockwork's watch condition holds |
| HeartbeatHandlers.ServerWatches | prototype/distributor/src/ServerHandler.java:382-395 | The watchdog thread removes a running connection exactly when the clockwork says so |
| Heartbeat.WatchdogThread | prototype/distributor/src/ServerHandler.java:381-395 | Under ideal scheduling a silent peer is removed after more than 7000 and at most 8000 ms |
| NetworkManager.NetworkManager.SweepTasks | prototype/daemon/networking/network_manager.cc:35-41 | One pass leaves exactly the tasks that are not ready, in order, and ends |
| NetworkManager.PendingKeeps | prototype/daemon/networking/network_manager.cc:35-41 | Every unready task is kept as often as it was there and no ready one is |
| NetworkManager.PendingKeepsOrder | prototype/daemon/networking/network_manager.cc:35-41 | The tasks kept are a subsequence of those before |
| NetworkManager.NetworkManager.PollNetwork | prototype/daemon/networking/network_manager.cc:47-87 | What one read brings is decoded and every message completed by it is dispatched once, in order, whatever lengths the stream declares; a failed read is thrown away with its bytes, and without a connection nothing is read |
| NetworkManager.PollDelivers | prototype/daemon/networking/network_manager.cc:51-66 | When the frames of some messages have arrived, cut up in any way, one poll dispatches exactly those messages in order, and what comes later is left for the next |
| NetworkManager.PollDiscards | prototype/daemon/networking/network_manager.cc:56-59 | When the read ends in an error, nothing is dispatched and the decoder is as before |
| NetworkManager.NetworkManager.DispatchAll | prototype/daemon/networking/network_manager.cc:65-83 | All waiting messages are dispatched in order and none is left |
| SaltHasher.HexRoundTrip | prototype/database/src/SaltHasher.java:28-36 | Two digits a byte, from which the bytes can be read back |
| SaltHasher.HexIsPlain | prototype/database/src/SaltHasher.java:28-36 | Hex text holds only digits and letters |
| SaltHasher.HexWrittenOut | prototype/database/src/SaltHasher.java:28-36 | Lower-case digits, high half first, byte after byte |
| SaltHasher.BytesToHex | prototype/database/src/SaltHasher.java:28-36 | The padded hex text of the bytes |
| SaltHasher.SaltGenerator | prototype/database/src/SaltHasher.java:38-54 | Sixteen digits and letters, one for each roll |
| SaltHasher.SaltCharBijective | prototype/database/src/SaltHasher.java:43-49 | Each of the 62 characters comes from exactly one roll |
| SaltHasher.SaltCharIs | prototype/database/src/SaltHasher.java:42-49 | Digits, then capitals, then small letters, in order |
| SaltHasher.Hash | prototype/database/src/SaltHasher.java:56-67 | The hash reads back as the digest of the returned salt followed by the text |
| SaltHasher.Rehash | prototype/database/src/SaltHasher.java:69-80 | So does the hash under a given salt |
| SaltHasher.SameHashIff | prototype/database/src/SaltHasher.java:56-80 | Two texts have the same hash under one salt if and only if the digest takes salt and text to the same bytes; under an injective digest only if they are equal |
| SqlText.ItemBack | prototype/database/src/DatabaseManager.java:302-306 | A printed assignment or condition followed by nothing or by a separator is read back, and the reader stops right behind it |
| SqlText.ItemsBack | prototype/database/src/DatabaseManager.java:294-309 | So is a printed list of them |
| SqlText.StatementReadsBack | prototype/database/src/DatabaseManager.java:288-332 | The reader gives back exactly the assignments, the conditions and the connective, no WHERE without conditions, and fails on a statement without assignments |
| SqlText.StatementIs | prototype/database/src/DatabaseManager.java:292-332 | Statements with two assignments and two conditions or none, written out |
| SqlText.ItemIs | prototype/database/src/DatabaseManager.java:302-306 | A printed assignment or condition, written out |
| DatabaseManager.SetClause | prototype/database/src/DatabaseManager.java:294-308 | The grown SET text, in which each hash column is followed by the salt under which its text hashes to it; a hash column that is no string fails |
| DatabaseManager.Assign | prototype/database/src/DatabaseManager.java:296-307 | One column: two assignments for a hash column, one for any other |
| DatabaseManager.WhereClause | prototype/database/src/DatabaseManager.java:311-324 | The grown WHERE text with the connective after each condition |
| DatabaseManager.ModifyRows | prototype/database/src/DatabaseManager.java:288-334 | The statement is that of the expanded assignments and the conditions, trailing separators cut off; every column given is assigned, a hash column what reads back as the digest of salt and text, with that salt behind it; it fails if and only if a hash column is no string |
| DatabaseManager.AllAssigned | prototype/database/src/DatabaseManager.java:295-308 | Where and how each column given is assigned |
| DatabaseManager.SuffixesAre | prototype/database/src/DatabaseManager.java:296-300 | Hash columns are those that end in _Hash, and the salt column has _Salt in its place |
| DatabaseManager.ModifyRowsReadsBack | prototype/database/src/DatabaseManager.java:288-334 | For identifiers and quote-free text, in any iteration order, the printed statement reads back as exactly its assignments and conditions if there is an assignment and not at all if there is none |
| DatabaseManager.ColumnsAssigned | prototype/database/src/DatabaseManager.java:295-308 | The columns assigned are exactly those given and the salt columns of the hash columns among them |
| DatabaseManager.ColumnsDistinctIff | prototype/database/src/DatabaseManager.java:296-300 | For the keys of a map, no column is assigned twice if and only if no X_Hash is given together with its X_Salt |

## Left out

- NetworkManager.NetworkManager.PollNetwork: the subscribed callbacks appear only as the history of messages handed to them.
- Daemon.DaemonBackendController.HandleEncode: pts is unbounded where the source has a 32-bit number, whose overflow after 2^31 frames is undefined in C++, and a string that was moved from is empty.
- Protobuf parsing is an arbitrary function that may fail.
- A channel that a handler has closed still collects what is written to it.
- Distributor.ServerHandler.SendToEveryone: the user list in a USER_LIST packet is a set, so its order and the map's are not modelled.
- Heartbeat.NeverFires: waiting in buffers and between polls counts as part of a heartbeat's delay, and both ends read the same clock.
- Thread races inside one handler (get-then-add of a user, iterating the session list while another thread changes it): handlers are atomic steps.
- send_data over a vector, which ignores partial sends and is not called by the daemon's message path.
- Socket connecting and closing, Winsock, Netty, JDBC and the protobuf encoding.
- Capture, rendering, input injection, the H.264 decoder and libav: the codec's output is an arbitrary byte sequence.
- The daemon's LOBBY, CLIENT and HOST states beyond the change to CLIENT, and their threads; HOST is never assigned in the source.
- SHA-256 and UTF-8, together an arbitrary function from text to bytes; Math.random, a given list of rolls.
- REAL columns, null values and text with quotes in SQL statements; the database operations other than modifyRows.
- Console parsing, Client.java, ClientHandler.java, Server.java, the example directory, DBTester and the build files.
