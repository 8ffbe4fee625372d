# Verification of the chat server

A Dafny 4.11 model of the two generations of the chat server, with proofs about it. `dafny verify dfyconfig.toml`
checks everything; there is nothing to run.

## What is modelled

**Wire format of version 1.1.** `Stream.dfy` is the 1024-byte stream as an object, with its dropped writes and its
string reader; `Packets.dfy` the 23 packet kinds, their tags and the factory; `Codec.dfy` every `encode` and `decode`
as loops over a stream, each proved against an image or a reader on plain bytes; `Wire.dfy` the way of a packet from
`encode` through `SetData`, the socket and `OnRecv` to `GetPacket`.

**Queues and threads of version 1.1.** `Pool.dfy` is the loop that `SendServer::Run` and `LogicProcess::RunProcess`
share (test the flag, pop, act unless the package is empty) as a step machine for any number of threads, any
interleaving, packages pushed at any time. `SendServer.dfy` is the object with the real loop of one sender;
`Jobs.dfy` applies the machine to the job queue and its raw packet pointers; `Lifetime.dfy` adds the reference counts
of shared packets.

**Rooms and users of version 1.1.** `Chat.dfy` says on plain values what each request does to users, rooms and lobby
and which packages it pushes, for any order in which a set is walked. `Server.dfy` has the linked objects of the
program (users and rooms pointing at each other, the two managers, the request handlers) updated in place and deleted.
Look-ups return null, every use of a pointer goes through `Servers.Use` or `Servers.UseRoom`, members of a user can be
reached only while it is not deleted, and a failed use is the only way a handler can fail; each handler is proved to
do what `Chat.dfy` says and to fail exactly when `Chat.dfy` says so. `History.dfy` reads users, names, places, rooms
and members off the list of requests alone and proves that the state is what they say. `Views.dfy` adds what a client
makes of its packages, `Roster.dfy` what the entries and exits among them add up to in any run, and `System.dfy` puts
requests, queue and senders together. `Witnesses.dfy` has runs in which the failures these files speak of happen.

**Packet manager of version 1.0.** `V10Memory.dfy` makes buffers, pointers, `new` and `delete` explicit;
`V10Protocol.dfy` is a step machine of any number of worker threads inside the seven handlers and the packet thread;
`V10PacketManager.dfy` and `V10Clients.dfy` are the objects, whose methods are proved to be runs of that machine.

`Bytes.dfy`, `Options.dfy` and `Sequences.dfy` are shared vocabulary.

Requests are decided in one step each, a handler of version 1.0 in one step for its lookups and its own copy and one
for each enqueue, and a pop and the send that follows are separate steps. One `recv` delivers one whole block. Copies
of `PacketInfo` that C++ may elide are elided. `FindNickname` of version 1.0 is a parameter of the handlers; the body
in the repository always answers -1 (`ChattingServer_v1.0/ChattingServer/ChatClientManager.h:17-19`), so there the
answer "not found" is the only one.

## What the proofs say about the code

- Packets survive the wire exactly when every string in them is non-empty and has no NUL after its first character,
  parallel lists have equal lengths, and four bytes of the 1024-byte buffer stay free (`Wires.EndToEnd`). The string
  reader never looks at the first character (`Stream.h:126`), which loses the empty string; `SetData` sends four bytes
  more than the stream holds. The 16-bit list count cannot wrap within the buffer (`Wires.CountFits`). Whatever bytes
  arrive, what is made of them is well formed, and a packet never arrives as one of another kind.
- The client sends no extra bytes, so its buffer can be filled to the last one, and even the final NUL may be dropped,
  since the receiver supplies zeros. A well-formed client packet of any size arrives with its texts cut to the 1020
  bytes behind the header (`Wires.RemainderArrives`); it arrives whole exactly up to an image of 1025 bytes, a whisper of one
  NUL as soon as the receiver's name fits (`Wires.ClientToServerExactly`).
- After any run a user is connected, has the nickname it last logged in with and is in the room it last entered and has
  not left, and the n-th room asked for has the n-th id, until the 16-bit ids run out and later names are of no
  consequence (`Histories.WorldIsItsHistory`). Whispers, room messages, broadcasts and lists reach exactly whom they
  should, with what they should say (`Views.WhisperNews`, `Views.MulticastNews`, `Views.BroadcastNews`,
  `Views.ListNews`, `Chat.RoomListExactly`).
- `Room::users_` and `User::currRoom_` agree all through a run exactly when nobody enters a room from inside another
  one; the guard that should forbid it is empty (`ChatUser.h:32-35`). Nothing takes a user out of the lobby set when it
  enters a room, so the set holds the addresses of all connected users and of every user deleted from inside a room,
  until a new user is made at that address (`Chat.LobbyIsExactly`). `RemoveUser` therefore does not purge the lobby set
  of a user that was in a room; it would be the unused `SendRoomListToAll` that meets it.
- In runs without an entry from inside another room, a request uses a null or dangling pointer exactly when its session
  is gone and it needs more of it than the pointer, when it enters an unknown room, or when it leaves a room or casts to
  one without being in it (`Chat.FaultsExactly`, on top of the handlers of `Servers.LogicProcess`).
- These statements about runs are about the objects: whatever connections, broken connections and packets reach the
  server from its construction on, until the first use of a bad pointer the objects stand for the world after a run of
  `Chat.dfy`, and the send queue has grown by exactly its log (`Servers.Serve`).
- `C_LOBBY_ROOM_INFO` needs only the pointer. Such a request may still be in the job queue when its user is removed, and
  then a package for the deleted session is pushed; over every continuation these are the only packages pushed for it,
  one for each such request (`Systems.RemovedHearOnlyLists`, `Witnesses.RemovedHearsItsList`).
- With N senders at most N - 1 earlier packages are unsent when a package is sent, and this bound is reached; with
  one sender (the shipped configuration) each client's member list is at every moment one the server ought to have
  shown it after some earlier request, and these requests follow each other in order, so a screen never goes back
  (`Systems.PrefixConsistency`, `Systems.ScreensNeverGoBack`). A second `C_SERVER_ENTER` from inside a room breaks the
  list; a second `C_ROOM_ENTER` breaks it, and those of the old room's members, under exact conditions.
- `ChattingServer_v1.0` never releases the queue's own copy of a packet, nor the one its handler made. The root
  README.md:143 says the contents are freed once they are sent; in the code everything is freed only if no handler was
  ever called (`V10Protocol.WhatIsLeftBehind`). What is released is never released twice and never used afterwards.
- A version 1.0 client that leaves its room before it leaves the server is never closed by the server
  (`V10Clients.CloseReachesSenderExactly`).

## Model

Several source files carry comments in EUC-KR and are not UTF-8 text. A row about such a file names it and its lines in
parentheses; its source column gives the UTF-8 file that declares, calls or quotes the code.

| member | source | states |
|---|---|---|
| Packets.FactoryInvertsTag | ChattingServer_v1.1/NetworkLib/PacketFactory.h:15-81 | for every kind, the packet made from its tag is of that kind |
| Packets.FactoryIsExact | ChattingServer_v1.1/NetworkLib/PacketFactory.h:15-81 | a 32-bit header yields a defined packet only if it is that kind's tag |
| Packets.TagsDistinct | ChattingServer_v1.1/NetworkLib/PacketFactory.h:15-81 | no two kinds share a tag (tags at PacketType.h:16-54) |
| Packets.TagsCountUp | ChattingServer_v1.1/NetworkLib/PacketFactory.h:15-81 | the tags count up from 101, 110 and 201 in the order of the enumerators, and there are no others (PacketType.h:16-54) |
| Streams.Stream.Write | ChattingServer_v1.1/NetworkLib/ServerPacket.h:19-23 | a fixed-width write appends its bytes, or nothing if they would not fit (Stream.h:81-92) |
| Streams.Stream.WriteStr | ChattingServer_v1.1/NetworkLib/ClientPacket.h:16-20 | a string is written character by character and then a NUL, each dropped on its own (Stream.h:94-101) |
| Streams.Stream.NextU16 | ChattingServer_v1.1/NetworkLib/ClientPacket.h:57-60 | reads two bytes little-endian at the read pointer, leaves the variable alone when the write bound fails, faults beyond the buffer (Stream.h:105-121) |
| Streams.Stream.NextU32 | ChattingServer_v1.1/NetworkLib/ServerPacket.h:25-28 | the same for four bytes (Stream.h:105-121) |
| Streams.Stream.NextStr | ChattingServer_v1.1/NetworkLib/ClientPacket.h:22-25 | reads up to the first NUL after the first character and steps over it; without one it looks behind the buffer (Stream.h:123-131) |
| Streams.ReadStrExactly | ChattingServer_v1.1/NetworkLib/ClientPacket.h:22-25 | at any position of any buffer the string read ends before the first NUL behind its first character, and reading leaves the buffer if and only if there is none (Stream.h:123-131) |
| Streams.EmitFits | ChattingServer_v1.1/NetworkLib/ServerPacket.h:253-258 | writing never leaves the buffer and loses nothing while everything fits (Stream.h:25-33) |
| Streams.EmitSizeExact | ChattingServer_v1.1/NetworkLib/IoData.h:49-59 | with writes of at most four bytes, the final size stays four below the buffer exactly when the whole image does (Stream.h:25-33) |
| Streams.EmitStr | ChattingServer_v1.1/NetworkLib/ClientPacket.h:16-20 | a string that does not fit fills the buffer to the brim and is cut there (Stream.h:94-101) |
| Streams.StrRoundTrip | ChattingServer_v1.1/NetworkLib/ClientPacket.h:16-25 | reading undoes writing, under any suffix, if and only if the string is non-empty and has no NUL after its first character (Stream.h:94-101, 123-131) |
| Codec.Encode | ChattingServer_v1.1/NetworkLib/ServerPacket.h:9-300 | the encoder of every kind writes the header and then the fields in the declared order, counts truncated to 16 bits |
| Codec.EncodeRoomInfo | ChattingServer_v1.1/NetworkLib/ServerPacket.h:48-62 | one count, the id loop, the name loop |
| Codec.EncodeUserInfo | ChattingServer_v1.1/NetworkLib/ServerPacket.h:96-111 | the room count, one count, the id loop, the name loop |
| Codec.Decode | ChattingServer_v1.1/NetworkLib/ServerPacket.h:9-300 | the decoder of every kind computes the specification reader on the buffer and leaves the read pointer behind what it read |
| Codec.WriteStrs | ChattingServer_v1.1/NetworkLib/ServerPacket.h:48-62 | the loop over names writes the images of all names in order |
| Codec.NextRoomInfo | ChattingServer_v1.1/NetworkLib/ServerPacket.h:63-78 | reads one count, that many ids, that many names |
| Codec.NextUserInfo | ChattingServer_v1.1/NetworkLib/ServerPacket.h:112-128 | reads the room count, one count, that many ids, that many names |
| Wires.StrsAt | ChattingServer_v1.1/NetworkLib/ServerPacket.h:63-78 | a list of strings is read back if and only if each of them survives |
| Wires.RoomInfoAt | ChattingServer_v1.1/NetworkLib/ServerPacket.h:48-78 | the room list is read back, both lists in order, if and only if they have one length and the names survive |
| Wires.UserInfoAt | ChattingServer_v1.1/NetworkLib/ServerPacket.h:96-128 | the same for the user list |
| Wires.CountFits | ChattingServer_v1.1/NetworkLib/ServerPacket.h:48-62 | a list whose names fit the buffer has a count below 65536, so the truncation changes nothing |
| Wires.BodyRoundTrip | ChattingServer_v1.1/NetworkLib/ServerPacket.h:9-300 | wherever an encoded body lies and whatever follows, decoding returns the packet and stops right behind it, if and only if the packet is well formed |
| Wires.WireLayout | ChattingServer_v1.1/NetworkLib/ServerPacket.h:9-300 | the image of every kind is its tag in four bytes, least significant first, and then its fields in the declared order, numbers little-endian, names one behind the other with their NUL, and nothing else (ClientPacket.h:9-167) |
| Wires.IoData.SetData | ChattingServer_v1.1/NetworkLib/IoData.h:49-59 | the stream is copied to the front of the buffer, the rest is untouched, the length is four more than the stream |
| Wires.GetPacket | ChattingServer_v1.1/NetworkLib/PacketFactory.h:84-98 | turns a block into the packet that the specification reader finds behind the header |
| Wires.Session.OnRecv | ChattingServer_v1.1/ChattingServer/Session.cpp:88-105 | the packet depends on the received bytes alone, not on older, longer blocks |
| Wires.Session.SendPacket | ChattingServer_v1.1/ChattingServer/Session.cpp:107-116 | hands out the wire image and four zero bytes when these fit the buffer, and otherwise reads past it (IoData.h:49-59) |
| Wires.SentBytes | ChattingServer_v1.1/NetworkLib/IoData.h:49-59 | the bytes handed to the socket are the wire image and four zeros if the image leaves four bytes of the buffer free, and undefined otherwise (Session.cpp:107-118) |
| Wires.EndToEnd | ChattingServer_v1.1/ChattingServer/Session.cpp:88-136 | a packet sent by the server arrives as the packet that was sent if and only if it is well formed and leaves four bytes of the buffer free |
| Wires.ClientToServer | ChattingServer_v1.1/NetworkLib/ClientPacket.h:9-167 | a client's packet that fits the buffer arrives unchanged if and only if it is well formed |
| Wires.ClientToServerExactly | ChattingServer_v1.1/NetworkLib/ClientPacket.h:9-167 | a client's packet of any kind and size arrives unchanged if and only if it is well formed and its image has at most 1025 bytes, or it is a whisper of one NUL to a name of at most 1020 bytes (sent at Client.cpp:76-95) |
| Wires.RemainderArrives | ChattingServer_v1.1/NetworkLib/ClientPacket.h:9-167 | of a well-formed client packet of any size arrives the same packet with its only string cut to 1020 bytes, or with the name cut so and the text to what the name leaves, one NUL if that is nothing |
| Wires.ReceivedIsWellFormed | ChattingServer_v1.1/NetworkLib/PacketFactory.h:84-98 | whatever bytes are received, a packet made of them is one that would survive being sent on |
| Wires.UnknownTagsAreUndefined | ChattingServer_v1.1/NetworkLib/PacketFactory.h:15-98 | a block whose header is nobody's tag becomes the undefined packet |
| Wires.PrefixFree | ChattingServer_v1.1/NetworkLib/PacketFactory.h:84-98 | no wire image of a well-formed packet is a prefix of the image of a packet with other fields |
| Wires.ReceiveKeepsKind | ChattingServer_v1.1/NetworkLib/PacketFactory.h:84-98 | no packet arrives as a packet of another kind |
| Wires.TextsArrive | ChattingServer_v1.1/NetworkLib/PacketFactory.h:84-98 | reading a packet without lists that fits never leaves the buffer, whatever its strings |
| Pools.BoundedReordering | ChattingServer_v1.1/ChattingServer/SendServer.h:19-60 | in every state of every run with N threads, when a thread holds a package at most N - 1 earlier ones are unsent |
| Pools.ReorderingBoundIsTight | ChattingServer_v1.1/ChattingServer/SendServer.h:19-60 | for every N there is a run in which it is N - 1 |
| Pools.OneThreadIsFifo | ChattingServer_v1.1/ChattingServer/SendServer.h:19-60 | one thread sends the non-empty packages in exactly the order they were pushed |
| Pools.Conservation | ChattingServer_v1.1/ChattingServer/SendServer.h:19-60 | at every step the pushed packages are, as a multiset, those sent, in hand, dropped as empty and queued; none is sent twice, only empty ones are dropped |
| Pools.SentAreComplete | ChattingServer_v1.1/ChattingServer/SendServer.h:19-33 | what is sent has a session and a packet, what is passed over lacks one of them (Package.h:64-67) |
| Pools.ShutdownTerminates | ChattingServer_v1.1/ChattingServer/LogicProcess.cpp:47-60 | once the flag is down each thread step uses up the measure, at most three per thread, whatever is pushed meanwhile, and all threads have exited exactly when it is used up |
| Pools.NothingLostByShutdown | ChattingServer_v1.1/ChattingServer/LogicProcess.cpp:47-60 | once the threads are joined every popped package was sent or was empty, all others are still queued |
| Pools.PassIsARun | ChattingServer_v1.1/ChattingServer/SendServer.h:19-33 | a pass of the loop, as the methods below do it, is three steps of the machine |
| SendServers.SendServer.PopPackage | ChattingServer_v1.1/ChattingServer/SendServer.h:40-52 | takes the front package, or returns the empty package and leaves the queue |
| SendServers.SendServer.PushPackage | ChattingServer_v1.1/ChattingServer/SendServer.h:54-60 | appends |
| SendServers.SendServer.Pass | ChattingServer_v1.1/ChattingServer/SendServer.h:21-32 | the loop body takes at most one package off the front and sends it unless it is empty |
| SendServers.SendServer.Run | ChattingServer_v1.1/ChattingServer/SendServer.h:19-33 | the only sender serves the queue in order, one package per test of the flag it passes, against any script of pushes and a close, and stops early only when closed |
| Lifetimes.FreedExactlyWhenDone | ChattingServer_v1.1/ChattingServer/Package.h:38-68 | once its fan-out has returned, a packet has one reference for each package queued or in hand, is deleted exactly when there is none left, and only once |
| Lifetimes.NothingSentAfterDeletion | ChattingServer_v1.1/ChattingServer/SendServer.h:19-33 | no thread holds a deleted packet and no count goes below zero |
| Jobs.JobQueue.PopPackage | ChattingServer_v1.1/ChattingServer/LogicProcess.cpp:76-89 | takes the front package, or returns the empty package |
| Jobs.JobQueue.RunOnce | ChattingServer_v1.1/ChattingServer/LogicProcess.cpp:33-45 | a pass pops one package and deletes its packet unless the package is empty (LogicProcess.h:79-99) |
| Jobs.JobQueue.Destroy | ChattingServer_v1.1/ChattingServer/LogicProcess.cpp:6-20 | the draining loop ends with an empty queue and has deleted the packets of the queue in order |
| Jobs.PointersExactly | ChattingServer_v1.1/ChattingServer/LogicProcess.cpp:6-20 | what the destructor deletes counts every packet of the queue, also those without a session |
| Jobs.DeletedOrLeaked | ChattingServer_v1.1/ChattingServer/LogicProcess.cpp:6-20 | over a whole life every pushed packet is deleted, or popped in a package without session and never deleted (and LogicProcess.h:79-99) |
| Jobs.EachDeletedExactlyOnce | ChattingServer_v1.1/ChattingServer/LogicProcess.cpp:6-20 | when packages are non-empty and pointers distinct, each packet is deleted exactly once and nothing else is |
| Chat.AgreementIsKeptExactly | ChattingServer_v1.1/ChattingServer/ChatUser.h:30-48 | a request keeps room sets and `currRoom_` in agreement if and only if it does not enter a room from inside another one |
| Chat.MembershipAgreesExactly | ChattingServer_v1.1/ChattingServer/Room.cpp:5-40 | a run keeps them in agreement throughout if and only if it contains no such request |
| Chat.AtMostOneRoom | ChattingServer_v1.1/ChattingServer/Room.cpp:5-8 | then no user is in two rooms |
| Chat.FaultsExactly | ChattingServer_v1.1/ChattingServer/ChatUser.h:55-57 | in a run without a cross entry a request uses a null or dangling pointer if and only if its session is gone and it is not a room list request, the room is unknown, or the sender has no room where one is needed (handlers at LogicProcessFunc.cpp:7-93) |
| Chat.LobbyIsExactly | ChattingServer_v1.1/ChattingServer/RoomManager.h:44-52 | in every run the lobby set holds exactly the addresses of the connected users and the abandoned ones |
| Chat.AbandonedExactly | ChattingServer_v1.1/ChattingServer/RoomManager.h:44-52 | an address is abandoned if and only if some request deleted the user there from inside a room and no user was made there since |
| Chat.ListToAllFaultsExactly | ChattingServer_v1.1/ChattingServer/RoomManager.h:42-52 | sending the room list to the lobby meets a deleted user if and only if there is an abandoned address (RoomManager.cpp:62-78) |
| Chat.ListToAllTellsEachOnce | ChattingServer_v1.1/ChattingServer/RoomManager.h:42 | otherwise each user whose address is in the lobby set is told once, which is every connected user (RoomManager.cpp:62-78) |
| Chat.LobbyChangesExactly | ChattingServer_v1.1/ChattingServer/RoomManager.h:44-52 | in any state the lobby set is entered by who connects or leaves a room and left by who is removed while in no room, and no other request changes it (UserManager.cpp:10-55, LogicProcessFunc.cpp:46-52) |
| Chat.RoomListExactly | ChattingServer_v1.1/ChattingServer/RoomManager.h:40 | the room list has every room once, ids ascending, beside each id the name of that room, and their number modulo 65536 (RoomManager.cpp:34-59) |
| Chat.RemovalPurgesExactly | Documentation/v1.1/리팩토링 - 1.md:154-177 | a removed user is in no user list and no room afterwards, and its address is out of the lobby set if and only if it was in no room (UserManager.cpp:30-55) |
| Histories.WorldIsItsHistory | ChattingServer_v1.1/ChattingServer/ChatUser.h:30-57 | after any run: who is connected, at which address, under the nickname of the latest login, in the room of the latest entry unless it left since; which rooms exist under which names, ids wrapping around at 16 bits; who is a member of which room (UserManager.cpp:10-66, RoomManager.cpp:16-22, Room.cpp:5-40, LogicProcessFunc.cpp:7-52) |
| Histories.EntryNameExactly | ChattingServer_v1.1/ChattingServer/Room.cpp:5-16 | a user is announced under the name it had last logged in with when it entered |
| Histories.LastEntryExactly | ChattingServer_v1.1/ChattingServer/Room.cpp:5-8 | the latest entry of a user is the last request by which it enters a room |
| Views.EnterFanOut | ChattingServer_v1.1/ChattingServer/Room.cpp:5-16 | for any walking order each member including the newcomer is sent one ROOM_ENTER, the newcomer alone a ROOM_NAME after it |
| Views.ExitFanOut | ChattingServer_v1.1/ChattingServer/Room.cpp:18-52 | each prior member is sent one ROOM_EXIT, the leaver exactly when it is not excluded |
| Views.GreetingNews | ChattingServer_v1.1/ChattingServer/ChatUser.h:51 | a login is answered to its sender alone by the acceptance and then the room list (LogicProcessFunc.cpp:7-18) |
| Views.ListNews | ChattingServer_v1.1/ChattingServer/RoomManager.h:36-40 | a list request and the making of a room are answered to their sender alone, with the rooms as they are then (LogicProcessFunc.cpp:26-36) |
| Views.WhisperNews | ChattingServer_v1.1/ChattingServer/UserManager.h:52 | a whisper goes to its sender and to the user found, or the refusal to the sender alone (LogicProcessFunc.cpp:54-74) |
| Views.MulticastNews | ChattingServer_v1.1/ChattingServer/Room.cpp:44-52 | a message to the room goes to each member once, the speaker included, under the speaker's nickname, and to nobody else (LogicProcessFunc.cpp:76-84) |
| Views.BroadcastNews | ChattingServer_v1.1/ChattingServer/RoomManager.h:38 | a broadcast goes to each user once for each room it is a member of, and to nobody else (LogicProcessFunc.cpp:86-93, RoomManager.cpp:24-31) |
| Views.BroadcastNewsOnce | ChattingServer_v1.1/ChattingServer/RoomManager.h:38 | while the two views of membership agree that is once for a user in a room and never for the others |
| Views.BroadcastInRoomOrder | ChattingServer_v1.1/ChattingServer/RoomManager.h:38 | of two rooms the one with the smaller id is told first (RoomManager.cpp:24-31) |
| Views.RequestsPushForSessions | ChattingServer_v1.1/ChattingServer/Room.cpp:5-52 | every package pushed names a session and a packet, so these statements leave none out |
| Views.OnlyUsersAreAddressed | ChattingServer_v1.1/ChattingServer/Room.cpp:5-52 | a request pushes nothing for a session that is gone, unless it is that session's room list request, which pushes the list (handlers at LogicProcessFunc.cpp:7-93) |
| Views.ViewReconstruction | ChattingServer_v1.1/ChattingServer/Room.cpp:5-52 | in every disciplined run, what a client makes of the packages pushed to it is its place in the server: not logged in, in the lobby, or in its room with the members that entered with or after it, under their entry names |
| Rosters.RosterReconstruction | ChattingServer_v1.1/ChattingServer/Room.cpp:5-52 | in every run in which nobody enters a room from inside another one, adding up the entries and exits pushed to a member's session since its own latest entry gives exactly the members whose latest entry is not earlier |
| Rosters.LogGivesRoster | ChattingServer_v1.1/ChattingServer/Room.cpp:5-52 | the same about the part of the log of all pushed packages that follows the member's latest entry |
| Views.EnterFromRoomViewExactly | ChattingServer_v1.1/ChattingServer/Room.cpp:5-16 | entering a room from inside a room leaves the right view if and only if nobody of the old room had entered after the user (request at LogicProcessFunc.cpp:38-44) |
| Views.CrossEntryBreaksMatesExactly | ChattingServer_v1.1/ChattingServer/Room.cpp:5-16 | a member of the old room sees the right people, by `currRoom_`, if and only if the one who left had entered before it; it is told nothing (request at LogicProcessFunc.cpp:38-44) |
| Views.GreetingFromRoomBreaksView | ChattingServer_v1.1/ChattingClient/Client.h:62-66 | logging in again from inside a room always leaves the client in the lobby while the server has it in the room (ClientFunc.cpp:31-44) |
| Systems.OneSenderKeepsOrder | ChattingServer_v1.1/ChattingServer/SendServer.h:19-33 | with one sender each session has been sent a prefix of what was pushed to it |
| Systems.PrefixConsistency | ChattingServer_v1.1/ChattingServer/Room.cpp:5-52 | with one sender, at every step, what was sent to a client shows it exactly what it ought to have seen after some earlier request |
| Systems.ScreensNeverGoBack | ChattingServer_v1.1/ChattingServer/Room.cpp:5-52 | of two states of one run the later shows a client the state after the same or a later request |
| Systems.ScreenShowsAServerState | ChattingServer_v1.1/ChattingServer/Session.cpp:88-136 | the same for what comes out at the client's end of the wire, when every packet arrives as something and the names of entries survive |
| Systems.ArrivalActs | ChattingServer_v1.1/ChattingServer/Session.cpp:88-136 | a packet that does not concern the member list arrives as one that does not, whatever its strings; the others arrive as sent |
| Systems.TextsArriveExactly | ChattingServer_v1.1/ChattingServer/Session.cpp:107-136 | a packet without lists arrives as something, and an entry with its name, if and only if its image leaves four bytes of the buffer free and, for an entry, the name is not empty and has no NUL after its first character |
| Systems.RemovalSilences | Documentation/v1.1/리팩토링 - 1.md:154-177 | a removal that completes, as it does in runs without a cross entry, pushes nothing for the session it removes (UserManager.cpp:30-55) |
| Systems.RemovedHearOnlyLists | Documentation/v1.1/리팩토링 - 1.md:154-177 | from then on, over every continuation, what is decided and pushed for that session numbers exactly its own room list requests served, so without one the queue for it never grows (UserManager.cpp:30-55, LogicProcessFunc.cpp:26-29) |
| Witnesses.RemovedHearsItsList | ChattingServer_v1.1/ChattingServer/RoomManager.h:40 | connect, disconnect, room list: the queue for the removed session does grow (LogicProcessFunc.cpp:26-29) |
| Witnesses.AgreementFails | ChattingServer_v1.1/ChattingServer/ChatUser.h:30-38 | a legal run after which room sets and `currRoom_` disagree |
| Witnesses.LobbyKeepsDeletedUser | ChattingServer_v1.1/ChattingServer/RoomManager.h:44-52 | a legal run that leaves a deleted user in the lobby set, and one that hides it again by reusing the address |
| Witnesses.SecondEntryViews | ChattingServer_v1.1/ChattingServer/Room.cpp:5-16 | a disciplined run after which one second entry keeps and another breaks the view of who enters |
| Witnesses.SecondEntryMates | ChattingServer_v1.1/ChattingServer/Room.cpp:5-16 | the same for the views of the old room's members |
| Witnesses.GreetingFails | ChattingServer_v1.1/ChattingClient/Client.h:62-66 | a disciplined run after which logging in again breaks the view (ClientFunc.cpp:31-44) |
| Witnesses.RequestsFault | ChattingServer_v1.1/ChattingServer/ChatUser.h:55-57 | disciplined runs after which an unknown room, no room, or a session that is gone is a fault |
| Servers.UserObject.EnterRoom | ChattingServer_v1.1/ChattingServer/ChatUser.h:30-38 | sets the room, whatever it was |
| Servers.UserObject.ExitRoom | ChattingServer_v1.1/ChattingServer/ChatUser.h:40-48 | clears the room, whatever it was |
| Servers.LogicProcess.UserOf | ChattingServer_v1.1/ChattingServer/UserManager.h:49-52 | looking up a request's sender by the id behind its session pointer gives the very user that session belongs to if and only if the id is on the user list, and otherwise uses a bad pointer (LogicProcessFunc.cpp:7-93) |
| Servers.RoomObject.EnterRoom | ChattingServer_v1.1/ChattingServer/Room.cpp:5-16 | updates both views and pushes exactly the packages of an entry, in some order of the members |
| Servers.RoomObject.ExitRoom | ChattingServer_v1.1/ChattingServer/Room.cpp:18-40 | updates both views and pushes exactly the packages of a departure to the prior members |
| Servers.RoomObject.RoomCast | ChattingServer_v1.1/ChattingServer/Room.cpp:44-52 | the loop pushes one package per member, each member once |
| Servers.RoomManager.PushIntoLobby | ChattingServer_v1.1/ChattingServer/RoomManager.h:44-47 | adds the user to the lobby set |
| Servers.RoomManager.RemoveFromLobby | ChattingServer_v1.1/ChattingServer/RoomManager.h:49-52 | takes it out |
| Servers.RoomManager.BroadCast | ChattingServer_v1.1/ChattingServer/RoomManager.h:38 | casts to the rooms in ascending order of their ids (RoomManager.cpp:24-31) |
| Servers.LogicProcess.CreateUser | ChattingServer_v1.1/ChattingServer/LogicProcess.cpp:95-98 | a successful connection refines `Connect` (UserManager.cpp:10-28) |
| Servers.LogicProcess.ServerEnter | ChattingServer_v1.1/ChattingServer/ChatUser.h:51 | refines the request on values: same world, same packages, same faults; the nickname stored is that of `Histories.WorldIsItsHistory` (LogicProcessFunc.cpp:7-18) |
| Servers.LogicProcess.ServerExit | Documentation/v1.1/리팩토링 - 1.md:154-177 | the same (LogicProcessFunc.cpp:20-24) |
| Servers.LogicProcess.RemoveUser | Documentation/v1.1/리팩토링 - 1.md:154-177 | the same for the removal itself, which branches on `currRoom_` only (UserManager.cpp:30-55) |
| Servers.LogicProcess.Disconnect | ChattingServer_v1.1/ChattingServer/LogicProcess.cpp:101-104 | the same; an unknown id changes nothing (UserManager.cpp:57-66) |
| Servers.LogicProcess.RoomList | ChattingServer_v1.1/ChattingServer/RoomManager.h:40 | the same, for a session that may be gone: it pushes the pointer and cannot fail (LogicProcessFunc.cpp:26-29) |
| Servers.LogicProcess.SendRoomListToAll | ChattingServer_v1.1/ChattingServer/RoomManager.h:42 | fails exactly when the lobby set holds an address without a user, and otherwise tells one user at each address, each once (RoomManager.cpp:62-78) |
| Servers.LogicProcess.SendRoomListToOne | ChattingServer_v1.1/ChattingServer/RoomManager.h:40 | one package with the packet of `Chat.RoomListExactly`, for the session alone (RoomManager.cpp:34-59) |
| Servers.LogicProcess.RoomCreate | ChattingServer_v1.1/ChattingServer/RoomManager.h:36 | the same; the 16-bit id wraps around and an id still in use keeps its room (LogicProcessFunc.cpp:32-36, RoomManager.cpp:16-22) |
| Servers.LogicProcess.RoomEnter | ChattingServer_v1.1/ChattingServer/Room.cpp:5-16 | the same (LogicProcessFunc.cpp:38-44) |
| Servers.LogicProcess.RoomExit | ChattingServer_v1.1/ChattingServer/Room.cpp:18-40 | the same (LogicProcessFunc.cpp:46-52) |
| Servers.LogicProcess.FindByNickname | ChattingServer_v1.1/ChattingServer/UserManager.h:52 | the user with the smallest id among those with the name, none exactly when there is none (UserManager.cpp:94-102) |
| Servers.LogicProcess.Whisper | ChattingServer_v1.1/ChattingServer/UserManager.h:52 | the same (LogicProcessFunc.cpp:54-74) |
| Servers.LogicProcess.Multicast | ChattingServer_v1.1/ChattingServer/Room.cpp:44-52 | the same; who is told is in `Views.MulticastNews` (LogicProcessFunc.cpp:76-84) |
| Servers.LogicProcess.Broadcast | ChattingServer_v1.1/ChattingServer/RoomManager.h:38 | the same (LogicProcessFunc.cpp:86-93) |
| Servers.LogicProcess.Process | ChattingServer_v1.1/ChattingServer/LogicProcess.cpp:47-60 | the packet's kind selects its handler and the handler is given the packet's fields; the other kinds change nothing (LogicProcess.h:47-62, 94-99) |
| Servers.AsksExactly | ChattingServer_v1.1/NetworkLib/ClientPacket.h:9-167 | a packet makes exactly the request that is made by sending it (LogicProcessFunc.cpp:7-93) |
| Servers.Serve | ChattingServer_v1.1/ChattingServer/LogicProcess.cpp:76-104 | from the constructor on, for any script of connections, broken connections and packets, the objects stand for the world after a run of the requests that the events cause, one each, in order, and the packages pushed are its log, until an event that cannot happen or that meets a bad pointer (LogicProcess.h:79-99) |
| V10Protocol.EveryPacketOwnsItsBuffer | ChattingServer_v1.0/ChattingServer/PacketManager.hpp:10-64 | in every interleaving the packets queued, in the packet thread's hand and in the handlers own pairwise distinct live buffers, none a receive buffer or anybody else's |
| V10Protocol.NoDeadBufferIsUsed | ChattingServer_v1.0/ChattingServer/PacketManager.hpp:10-64 | no step reads or releases a dead buffer |
| V10Protocol.NothingReleasedTwice | ChattingServer_v1.0/ChattingServer/PacketInfo.h:40-42 | no buffer is released twice, none in use, none of anybody else's |
| V10Protocol.DispatchTrace | ChattingServer_v1.0/ChattingServer/PacketManager.hpp:10-64 | what is dispatched is what was enqueued, in order, each once, without the empty packets, with the bytes of the request although receive buffers are overwritten meanwhile; each goes out by its send type, that of its handler, to the users there were then |
| V10Protocol.ClosesMatchExits | ChattingServer_v1.0/ChattingServer/PacketManager.hpp:126-132 | the packets sent with CLOSE are those enqueued by PROCESS_SERVER_EXIT, one for one, in order |
| V10Protocol.PostsExactly | ChattingServer_v1.0/ChattingServer/PacketManager.hpp:70-171 | what each handler enqueues, with client, send type, close flag and bytes: the eight-byte answers with texts 1, 2 and 3, both copies of a whisper, everything else once as it came |
| V10Protocol.EveryPostIsEnqueued | ChattingServer_v1.0/ChattingServer/PacketManager.hpp:41-47 | in every interleaving each post was enqueued, or is still to be, as often as the handler calls so far post it |
| V10Protocol.UsersAreWhereTheirCallsSay | ChattingServer_v1.0/ChattingServer/UserInfo.h:19-41 | in every interleaving the room of each user and the room it left last are what the handler calls for it say |
| V10Protocol.OnlyConnectionsConnect | ChattingServer_v1.0/ChattingServer/UserInfo.h:19-41 | no handler changes whether a client is connected |
| V10Protocol.RoomExitIsHeard | ChattingServer_v1.0/ChattingServer/PacketManager.hpp:146-155 | the message about someone who left a room reaches exactly the connected users still in it, once, with its bytes |
| V10Protocol.ExactAccounting | ChattingServer_v1.0/ChattingServer/PacketManager.hpp:10-171 | at every step the live buffers number the initial ones, one per handler call, one per dequeue and one more per empty packet, one per queued packet, and the thread's own |
| V10Protocol.WhatIsLeftBehind | README.md:143 | when all is handled and sent, one buffer is left per handler call, one per packet sent and two per empty packet; everything is freed if and only if no handler was called |
| V10PacketManager.HandledIsARun | ChattingServer_v1.0/ChattingServer/PacketManager.hpp:70-171 | a handler called alone is a run of the machine |
| V10PacketManager.PassIsARun | ChattingServer_v1.0/ChattingServer/PacketManager.hpp:10-38 | a pass of the packet thread is always possible and is a run of the machine |
| V10PacketManager.PacketManager.Copied | ChattingServer_v1.0/ChattingServer/PacketInfo.h:24-32 | the copy has a new buffer with the same bytes and all other fields equal |
| V10PacketManager.PacketManager.Release | ChattingServer_v1.0/ChattingServer/PacketInfo.h:40-42 | the buffer is dead afterwards |
| V10PacketManager.PacketManager.EnqueuePacket | ChattingServer_v1.0/ChattingServer/PacketManager.hpp:41-47 | the queue gets a copy with a buffer of its own |
| V10PacketManager.PacketManager.DequeuePacket | ChattingServer_v1.0/ChattingServer/PacketManager.hpp:50-64 | returns a copy of the front and leaves the front's buffer allocated, or a packet of size zero |
| V10PacketManager.PacketManager.ProcessServerEnter | ChattingServer_v1.0/ChattingServer/PacketManager.hpp:70-93 | is the machine's handler: renames only a new name, answers with the eight-byte message |
| V10PacketManager.PacketManager.ProcessChatUnicast | ChattingServer_v1.0/ChattingServer/PacketManager.hpp:95-123 | is the machine's handler: to sender and receiver, or the message that there is none |
| V10PacketManager.PacketManager.ProcessServerExit | ChattingServer_v1.0/ChattingServer/PacketManager.hpp:125-132 | is the machine's handler: one multicast with the close flag |
| V10PacketManager.PacketManager.ProcessRoomEnter | ChattingServer_v1.0/ChattingServer/PacketManager.hpp:134-144 | is the machine's handler: moves the user, then one multicast |
| V10PacketManager.PacketManager.ProcessRoomExit | ChattingServer_v1.0/ChattingServer/PacketManager.hpp:146-155 | is the machine's handler: moves the user, then one multicast |
| V10PacketManager.PacketManager.ProcessChatBroadcast | ChattingServer_v1.0/ChattingServer/PacketManager.hpp:157-163 | is the machine's handler: one broadcast |
| V10PacketManager.PacketManager.ProcessChatMulticast | ChattingServer_v1.0/ChattingServer/PacketManager.hpp:165-171 | is the machine's handler: one multicast |
| V10PacketManager.PacketManager.OnReceive | ChattingServer_v1.0/ChattingServer/Packet.h:6-29 | runs the handler of the header's type, and nothing for a type without one (PacketManager.h:51-57, ChatServer.cpp:4-13) |
| V10PacketManager.PacketManager.RunOnce | ChattingServer_v1.0/ChattingServer/PacketManager.hpp:10-38 | takes, sends by type and releases one packet, or takes one of size zero for the empty queue and does not release it |
| V10Clients.MultiCastReachesExactly | ChattingServer_v1.0/ChattingServer/PacketManager.hpp:23-28 | reaches, once and with the bytes of the message, the connected users whose room is the sender's or, when the sender is in the lobby, the room it left last, the lobby itself never, and nobody else; of a close request the sender's copy alone carries the flag (ChatClientManager.h:53-78) |
| V10Clients.CastReachesExactly | ChattingServer_v1.0/ChattingServer/PacketManager.hpp:22-34 | a broadcast reaches every connected user once, a unicast its client alone, with the bytes of the message and no close flag (ChatClientManager.h:39-51) |
| V10Memory.ActionsAreNumbered | ChattingServer_v1.0/ChattingServer/Packet.h:6-25 | the seven numbers with a handler, and no others (PacketManager.h:26-34) |
| V10Memory.HeaderFields | ChattingServer_v1.0/ChattingServer/Packet.h:40-59 | the type is the second little-endian 16-bit number, the room the signed 32-bit number at byte 36 |
| V10Clients.CloseReachesSenderExactly | ChattingServer_v1.0/ChattingServer/UserInfo.h:29-41 | a close request closes its sender if and only if it is connected and in a room, and never anybody else (ChatClientManager.h:53-78) |
| V10Clients.ChatClientManager.UniCast | ChattingServer_v1.0/ChattingServer/PacketManager.hpp:29-31 | one send to the packet's client (ChatClientManager.h:39-42) |
| V10Clients.ChatClientManager.BroadCast | ChattingServer_v1.0/ChattingServer/PacketManager.hpp:23-25 | the loop sends to every connected user (ChatClientManager.h:44-51) |
| V10Clients.ChatClientManager.MultiCast | ChattingServer_v1.0/ChattingServer/PacketManager.hpp:26-28 | the loop sends what the specification of a multicast says (ChatClientManager.h:53-78) |

"Refines" means: for some order of walking the sets the objects afterwards stand for the world that `Chat.Apply`
gives, the queue has grown by exactly its packages, and a use of a pointer fails exactly when `Chat.Apply` says so. A
cross entry is an entry from inside another room. A disciplined run is one in which clients log in only from outside
rooms and enter a room only from the lobby; `Views.EnterFromRoomViewExactly`, `Views.CrossEntryBreaksMatesExactly` and
`Views.GreetingFromRoomBreaksView` say what happens otherwise.

## Left out

- Winsock and completion ports, closing and lingering sockets: a send is an event, a receive one block of bytes. TCP may split or join blocks; the code assumes it does not.
- Sessions outliving their user: a package of a removed user stays in the queue with a pointer to a deleted session, which the sender then uses; the model names the session by its user's id. If a new user was made at the same address, a package or a queued request that holds the old pointer reaches, or speaks for, the new user; such a request is one of the new user's here.
- Member sets of rooms hold users, not addresses: in runs with a cross entry, a deleted user that a room still holds stays a deleted user even when its address is used again. In the other runs no room holds one.
- Servers.LogicProcess.Disconnect: starts from the id; that the worker thread reads it from a session (ChatServer.cpp:78) is not modelled.
- Wires.Session.SendPacket: a stream longer than 1020 bytes makes `WSASend` read past the buffer; the model answers that no defined bytes are sent.
- Wires.GetPacket: a block shorter than the four-byte header makes a length wrap around; the model answers that there is no defined packet.
- Codec.Encode: the count that `encode` writes back into the packet is an out-parameter, since packets are values here and not a class hierarchy.
- Servers.Serve: takes the events one after the other; that packets wait in the job queue and are deleted once they are processed is in `Jobs.dfy`.
- Servers.LogicProcess.CreateUser: requires that the 32-bit user id has not run out; wrap-around of user ids is not modelled. A connection that fails leaves nothing behind and is not a request.
- Races on `bRun_` and on the queues with the `_MULTI_THREAD_*` macros off, and two logic threads inside one request: a push, a pop and a request are one step each.
- Packages left in the send queue when the server is destroyed, and the release of room and user objects at that point.
- The client's screens beyond the member list: casts to the wrong screen class (a room packet while the login screen is up) leave the modelled list alone. Console drawing and keys are left out.
- Nicknames of version 1.0, whose copy into a 32-byte field is not bounded by the code, and connections of version 1.0 beyond a flag that may change at any time.
- V10PacketManager.PacketManager.Release: `delete` on memory from `new[]` counts as a release.
- V10PacketManager.PacketManager.RunOnce: one pass of the loop; any number of passes, with other threads in between, is the step machine.
- The overlapped structures that version 1.0 allocates in `SendMsg` and its workers release, which belong to the input and output layer.
- `StressServer`, logging, `ToString`, CSV parsing and project files: nothing there that is hard.
