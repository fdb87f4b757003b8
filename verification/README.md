# A verified model of the Skype clone's call and media core

The repository is a video-calling application: clients keep a TCP connection to a server for
accounts, contacts and chats, set up calls over UDP through the same server, and then talk to each
other directly. This project models the parts of it whose correctness is hard to see from one
function, and proves what they are for.

| file | what it models |
|---|---|
| `AudioQueue.dfy` | the lock-free audio queue as interleaved memory steps of one producer and one consumer, and the object itself |
| `PacketInfo.dfy` | the arithmetic that cuts a payload into packets |
| `StreamIO.dfy` | the 25-byte header and the datagram loops that send and receive a payload |
| `MediaStream.dfy` | what a receiver gets from a whole stream of messages |
| `CallServer.dfy` | the server's open call requests and its five call commands |
| `Router.dfy` | how the server reads a call command, its token and its arguments |
| `P2PClient.dfy` | the client's connection object, its handshake and the `udp_connect`/`udp_accept` drivers |
| `Signalling.dfy` | whole runs of one server and any number of clients, with lost messages and timeouts |
| `Handshake.dfy` | the two-peer handshake under any interleaving and loss, and the media that follows |
| `CallSetup.dfy` | a lossless call from the server's view of the ACCEPT on, with answers and peer datagrams on one socket |
| `Chat.dfy`, `Contacts.dfy` | the chat and contact lists: the server's printers against the client's parsers |
| `StringUtils.dfy`, `Decimal.dfy`, `Reply.dfy` | splitting, joining, decimal numbers and reply texts, as those codecs use them |
| `TextIO.dfy` | length-prefixed text frames on a byte stream |
| `Basics.dfy`, `Options.dfy` | small shared functions and types |
| `AudioBank.dfy` | the bank that re-chunks audio packages |
| `ConnectionPoll.dfy` | the table of polled sockets, compacted in place |

Conventions. A thing whose fields the source updates is a class whose methods are proved equal to a
function on its contents; the theorems are about those functions, over every sequence of calls or
every interleaving. Datagrams follow POSIX: one read consumes one datagram and keeps at most the
bytes it asked for. A timeout, a lost message and the timeout worker are arbitrary moves. Exceptions
are `None`. `int` is 32 bits and `size_t` 64 bits wide, in little-endian order. `std::stoi` is
modelled with its white space, sign, ignored rest and range.

What the proofs say, in short.

* The queue loses, repeats and reorders nothing in any interleaving, touches no freed node, and frees
  every node once; a push takes effect at its tail store and a pop at its head store.
* A stream of media messages is received exactly as it was sent, whatever short datagrams precede it,
  including what the handshake leaves behind; a message that is cut short is never handed over. The cut into packets is exact for every size below
  80,982,000 and not for that size.
* Over all runs of the signalling, each successful CONNECT ends exactly once; a PING answered 201
  names the latest acceptor of the caller's current request, and both sides are told matching
  addresses and the same kind of network: Local exactly when the two public IPs are equal. The server
  reads back every command as the client meant it.
* Without loss, two clients that are both Accepted always connect. A whole call from the ACCEPT on
  connects exactly when no datagram of a peer arrives ahead of the other's 201 and the first PING
  after the ACCEPT is among the first eleven. When the server's answers arrive in order, that holds
  in every local network, and elsewhere it fails exactly when the callee's punch arrives before the
  caller's 201: the caller then takes it for the answer to its PING and ends in Error.
* With loss, a connected caller implies a connected callee exactly in a local network, and a peer can
  read a stream header instead of the confirmation unless it is the callee of a local call.
* The list codecs are exact for arbitrary chat text; the one thing that breaks them is named by an
  if-and-only-if (a comma in a date, a comma or space in a user name, a NUL or the length 2^31-1 in
  a text).

Where code and comments or documentation differ, the model follows the code.

* `src/server/README.md` shows 201 replies to ACCEPT and PING that hold only `ip:port`; the code
  appends a space and `LOCAL` or `WEB`.
* The same file shows a LIST reply with one `201` for each contact and a field `ip:`; the code sends one
  `201`, prints `address:` and adds `awaiting:`.
* The comment in `make_packet_info` says that there is always one remainder; there may be none.
* The comment in `udp_conn.hpp` says that a read times out within 1 second; the constant is 10.
* The comment in `retry` says that it keeps punching; a failed read makes the request invalid, after
  which the connection neither sends nor reads, so `retry` gives up after 20 silent rounds.
* The 12th PING of `udp_connect` is sent but its answer is not used: the driver hangs up even when it
  is a 201.

## Model

| member | source | states |
|---|---|---|
| AudioQueue.FifoRefinement | src/client/av/lock_free_audio_queue.cpp:48-90 | in every interleaving of single memory steps no step faults, and packages handed over, then the one being popped, then those on the list are the completed pushes in order |
| AudioQueue.LinearizationPoints | src/client/av/lock_free_audio_queue.cpp:48-90 | at every step of every run: a push becomes visible exactly at its tail store, a pop at its head store, nothing else changes the abstract queue, and a null pop or an emptiness answer is true at its tail load |
| AudioQueue.StepKeeps | src/client/av/lock_free_audio_queue.cpp:48-90 | the inductive invariant (a chain of distinct nodes from head to tail, the half-written tail, the privately held nodes) survives every step of either thread |
| AudioQueue.RunKeeps | src/client/av/lock_free_audio_queue.cpp:48-90 | the invariant and the conservation of packages hold after every schedule |
| AudioQueue.MemoryAccounting | src/client/av/lock_free_audio_queue.cpp:35-88 | allocated minus freed nodes are exactly the list and the nodes an operation in progress holds, all different |
| AudioQueue.PopAfterNonEmptySucceeds | src/client/av/audio_converter.cpp:141-145 | if `empty` answered false to the sole consumer its next pop returns a package, whatever the producer does meanwhile |
| AudioQueue.AnswersMatchCalls | src/client/av/lock_free_audio_queue.cpp:61-90 | over every schedule the k-th finished call is answered as a check exactly when it was `empty` and as a pop otherwise; at most one call is unfinished |
| AudioQueue.WalkIsChain | src/client/av/lock_free_audio_queue.cpp:48-86 | following the `next` pointers from the head meets exactly the nodes of the invariant's chain |
| AudioQueue.UninterruptedPush | src/client/av/lock_free_audio_queue.cpp:48-57 | the five steps of a push run in a row append one package |
| AudioQueue.UninterruptedPop | src/client/av/lock_free_audio_queue.cpp:61-86 | the six steps of a pop run in a row take the oldest package of a non-empty queue |
| AudioQueue.UninterruptedNullPop | src/client/av/lock_free_audio_queue.cpp:61-86 | a pop of an empty queue changes nothing and returns nothing |
| AudioQueue.UninterruptedCheck | src/client/av/lock_free_audio_queue.cpp:90 | a check leaves heap, head and tail as they were and answers whether the queue is empty |
| AudioQueue.EmptyWhenEqual | src/client/av/lock_free_audio_queue.cpp:80-90 | head and tail are equal exactly when the abstract queue is empty |
| AudioQueue.LockFreeAudioQueue.constructor | src/client/av/lock_free_audio_queue.cpp:35-37 | an empty queue with one dummy node |
| AudioQueue.LockFreeAudioQueue.Push | src/client/av/lock_free_audio_queue.cpp:48-57 | the contents grow by the package at the end, and the memory is what the steps of the machine leave |
| AudioQueue.LockFreeAudioQueue.Pop | src/client/av/lock_free_audio_queue.cpp:61-86 | the oldest package and the rest, or nothing exactly when there was none; the memory is what the steps of the machine leave |
| AudioQueue.LockFreeAudioQueue.Empty | src/client/av/lock_free_audio_queue.cpp:90 | true exactly when the contents are empty, which are not changed; the two steps of the machine |
| AudioQueue.LockFreeAudioQueue.Destroy | src/client/av/lock_free_audio_queue.cpp:39-44 | the destructor of an idle queue frees every allocated node, each once, and no other |
| PacketInfo.PartitionExactIff | src/shared/connection/stream_io.cpp:246-276 | packets and remainder add up to the payload exactly when it is below 1000 bytes or the remainder is shorter than a packet, and to more otherwise |
| PacketInfo.FitsBelowBound | src/shared/connection/stream_io.cpp:246-276 | that holds for every size below 80,982,000 |
| PacketInfo.FirstBadSize | src/shared/connection/stream_io.cpp:246-276 | and fails for 80,982,000, with the tuple the code computes there |
| PacketInfo.CutInNumbers | src/shared/connection/stream_io.cpp:257-275 | the tuple in numbers: one packet up to 999 bytes, ten up to 90,000, then one more for each 9000 begun |
| PacketInfo.DatagramBound | src/shared/connection/stream_io.cpp:246-276 | no packet, and where the cut is exact no remainder, exceeds 9000 bytes |
| PacketInfo.FloorsAreExact | src/shared/connection/stream_io.cpp:271-273 | the quotients that go through `std::floor` are below 2^53, so the double holds them exactly |
| StreamHeader.TypeCodec | include/shared/data/data.hpp:37-66 | `char_to_type` undoes `type_to_char`, and the other way round exactly on the five letters |
| StreamHeader.HeaderCodec | src/shared/connection/stream_io.cpp:209-242 | the header is 25 bytes, and reading undoes making exactly when the three sizes are below 2^64 |
| StreamHeader.WordOfBytes | src/shared/connection/stream_io.cpp:280-302 | the eight bytes of a number give back its lowest 64 bits |
| StreamHeader.PushToHeader | src/shared/connection/stream_io.cpp:280-288 | the loop appends the bytes of the value |
| StreamHeader.BuildHeader | src/shared/connection/stream_io.cpp:209-221 | the header built by pushing is the specified one |
| StreamHeader.ParseHeader | src/shared/connection/stream_io.cpp:225-242 | the loop over the three words reads what the specification reads |
| StreamIO.Socket.SendPackets | src/shared/connection/stream_io.cpp:114-125 | the pointer walk sends exactly the consecutive slices of the payload, inside the buffer, and goes on after a failed send |
| StreamIO.Socket.SendData | src/shared/connection/stream_io.cpp:108-139 | slices and remainder, in order, less those whose send failed; valid exactly when none did |
| StreamIO.NoneFails | src/shared/connection/stream_io.cpp:108-139 | when no send fails everything gets onto the channel |
| StreamIO.Socket.Respond | src/shared/connection/stream_io.cpp:16-54 | header and slices are sent, nothing for text, no data behind a header that could not be sent; valid exactly when every send succeeded |
| StreamIO.Socket.ReceiveHeader | src/shared/connection/stream_io.cpp:142-160 | the scan stops at the first datagram that fills a header, fails when the first read does and spins when the socket runs dry later |
| StreamIO.Socket.ReceiveData | src/shared/connection/stream_io.cpp:165-205 | packets are read into their slots, a lost one leaves zeros and an invalid request, and an announced million bytes or more reads nothing |
| StreamIO.Socket.ReceivePackets | src/shared/connection/stream_io.cpp:181-190 | the receive loop fills the buffer packet by packet |
| StreamIO.Socket.Receive | src/shared/connection/stream_io.cpp:58-87 | one message or failure, with what is left on the channel |
| MediaStream.DatagramsCoverPayload | src/shared/connection/stream_io.cpp:108-139 | the datagrams behind the header are the payload, once, in order, each at most 9000 bytes |
| MediaStream.ChunksCover | src/shared/connection/stream_io.cpp:115-125 | the packets cover a contiguous part of the payload |
| MediaStream.ScanSkips | src/shared/connection/stream_io.cpp:155-157 | the header scan skips any number of datagrams shorter than a header |
| MediaStream.LongIsTakenForHeader | src/shared/connection/stream_io.cpp:147-159 | and takes the first 25 bytes of the first one that is not shorter for the header, however long it is |
| MediaStream.TextIsNotSent | src/shared/connection/stream_io.cpp:21-25 | text is never sent as media |
| MediaStream.FilledRebuilds | src/shared/connection/stream_io.cpp:181-190 | receiving the packets rebuilds the part of the payload they cover |
| MediaStream.DataArrives | src/shared/connection/stream_io.cpp:165-205 | receiving what was sent gives the payload back |
| MediaStream.MessageRoundTripIff | src/shared/connection/stream_io.cpp:16-205 | one message behind any short datagrams is received as sent exactly when its payload is below a million bytes and a Done or Empty message has none; otherwise the payload is dropped and its datagrams stay |
| MediaStream.ValidIffAllArrive | src/shared/connection/stream_io.cpp:165-205 | behind a header the request is valid exactly when as many datagrams follow as it announces; otherwise no data is set and nothing is left |
| MediaStream.LostTail | src/shared/connection/stream_io.cpp:186-202 | a message whose last datagrams are lost gives an invalid request without data |
| MediaStream.NoDataArrives | src/shared/connection/stream_io.cpp:176-190 | when no data arrives the buffer stays zero and the request becomes invalid |
| MediaStream.NoHeaderArrives | src/shared/connection/stream_io.cpp:147-157 | an empty socket gives an invalid request with an empty package; after a short datagram the scan never ends |
| MediaStream.Limits | src/shared/connection/stream_io.cpp:169-174 | from a million announced bytes on the package is empty and no data is read; from 2^64 on the result is undefined |
| MediaStream.StreamRoundTrip | src/shared/connection/stream_io.cpp:16-205 | successive receives return exactly the messages sent, whatever short datagrams precede and separate them; at most one empty datagram is left |
| AwaitingUsers.AwaitingTable.Insert | src/shared/user_awaiting.cpp:99-116 | a request is opened unless the user has one, which then stays as it is |
| AwaitingUsers.AwaitingTable.Destroy | src/shared/user_awaiting.cpp:125-146 | exactly that request goes, and the result tells whether there was one |
| AwaitingUsers.AwaitingTable.SetPeer | src/shared/user_awaiting.cpp:65-74 | the record takes the acceptor's public address and its local one with the public port |
| CallControllers.Controllers.Connect | src/server/call_controllers.cpp:12-33 | table and reply after a CONNECT, errors included |
| CallControllers.Controllers.Accept | src/server/call_controllers.cpp:37-61 | table and reply after an ACCEPT: only the accepted record changes |
| CallControllers.Controllers.Hangup | src/server/call_controllers.cpp:65-83 | table and reply after a HANGUP |
| CallControllers.Controllers.Reject | src/server/call_controllers.cpp:88-105 | table and reply after a REJECT |
| CallControllers.Controllers.Ping | src/server/call_controllers.cpp:110-150 | table and reply after a PING; the request goes with a 201 |
| CallControllers.Controllers.CallAwaits | src/server/call_controllers.cpp:154-156 | true exactly when the user has an open request |
| CallControllers.ConnectServed | src/server/call_controllers.cpp:12-33 | a valid CONNECT gives 306 to a user with a request and otherwise 200 and the record, spelled out in IPs and ports |
| CallControllers.AcceptServed | src/server/call_controllers.cpp:37-61 | a valid ACCEPT gives 307 without a request and otherwise the record and the 201: the local address with LOCAL when the two IPs are equal, else the public one with WEB |
| CallControllers.PingAwaits | src/server/call_controllers.cpp:126-128 | 203 until somebody accepts |
| CallControllers.PingServed | src/server/call_controllers.cpp:130-139 | then the acceptor's address by the same rule, and the request is closed |
| CallControllers.RemovalServed | src/server/call_controllers.cpp:65-105 | REJECT removes the contact's request, HANGUP the user's own; 307 without one |
| CallControllers.BadRequests | src/server/call_controllers.cpp:160-190 | 301, 500 and 501 for an unknown user, an unreadable contact and a missing local address, with the table as it was |
| Router.CallWords | src/shared/server_commands.cpp:4-32 | the five words name the five call commands and no other word does |
| Router.CallsRouted | src/server/router.cpp:40-79 | each call command reaches its controller with the token's user, the argument and the address; 202 to an unknown token, 501 without the argument |
| Signalling.RequestRead | src/client/peer_to_peer.cpp:265-283 | the server reads back the operation, the token and the arguments that a client sent, for every token without a space |
| Signalling.ArgumentsRead | src/server/call_controllers.cpp:168-177 | the contact it reads is the peer's id, and the local address the client's |
| Signalling.TokensNameUsers | src/server/call_controllers.cpp:14 | a token names its own user, and an unknown one nobody |
| Signalling.SentByClient | src/server/call_controllers.cpp:12-150 | in every run, what reaches a controller from a client is the request of its own operation |
| Signalling.ServeEffect | src/server/call_controllers.cpp:12-150 | what any request does to the record of any user, by the code of its answer: only a CONNECT of the user, a 201 ACCEPT of it, and a successful PING, HANGUP or REJECT change it |
| Signalling.TableIsOpen | src/server/call_controllers.cpp:12-150 | after every run a user's record is exactly what its latest CONNECT and the latest ACCEPT since then make it |
| Signalling.OpenIsMeant | src/server/call_controllers.cpp:12-150 | that history is about the run itself: a CONNECT at that move, nothing closing it since, no later ACCEPT |
| Signalling.PingPairs | src/server/call_controllers.cpp:110-150 | whenever a PING answers 201, the user's latest CONNECT is still open and was accepted since; the reply carries the latest acceptor's address, that acceptor was told the caller's, and both got the same type |
| Signalling.PingOutcome | src/server/call_controllers.cpp:110-150 | after every run: 307 without an open request, 203 until it is accepted, then 201 with the acceptor's address |
| Signalling.Conservation | src/shared/user_awaiting.cpp:99-150 | for each user, CONNECTs = PINGs + HANGUPs + REJECTs + expiries + the one still open, and a request is in the table exactly while it is open |
| Signalling.OnePingPerConnect | src/server/call_controllers.cpp:110-150 | two PINGs answered 201 have a new CONNECT between them |
| Signalling.TableStaysPlain | src/shared/user_awaiting.cpp:15-83 | addresses in the table keep being non-empty and free of spaces |
| Signalling.TextRead | src/client/peer_to_peer.cpp:285-296 | the client reads code and payload out of every server reply |
| Signalling.AnswersNameAddress | src/server/call_controllers.cpp:37-150 | every 201 of the server, read at once or late, names an address |
| Signalling.ClientsHold | src/client/peer_to_peer.cpp:104-261 | in every reachable state an Accepted or Connected client has an address, a network and a role, so that its handshake passes the guard; replies may be lost, late, or taken from a peer's datagram |
| Signalling.BothSidesAgree | src/client/peer_to_peer.cpp:163-239 | after a 201 PING both clients, if the acceptor got its reply and has since done nothing but shake hands, are on the same network, each with the other's matching address: public for Web, local IP with the public port for Local; the caller is Accepted, and so is an acceptor that has not shaken hands |
| Signalling.PairedByIp | src/shared/user_awaiting.cpp:32-83 | the same in terms of IPs and ports: two clients with one public IP end Local, each with the other's local IP and public port; any other two end Web, each with the other's public address |
| Signalling.ShakenStep | src/client/peer_to_peer.cpp:113-135 | a handshake connects or fails an accepted client, changes nothing else of it, and does nothing to any other |
| Signalling.Untouched | src/client/peer_to_peer.cpp:104-261 | no move changes a connection it does not belong to |
| Signalling.LocalMoves | src/client/peer_to_peer.cpp:104-296 | what a reset leaves, and what a client reads when its reply is lost or another datagram comes first |
| P2PClient.SentTextHasNoCode | src/client/peer_to_peer.cpp:265-296 | when the reply is lost the client reads its own command, which has no code |
| P2PClient.ReplyDecides | src/client/peer_to_peer.cpp:139-261 | which codes lead to which status, for every operation and every reply, lost ones included |
| P2PClient.WireTexts | src/client/peer_to_peer.cpp:139-282 | the texts the five operations send, word by word |
| P2PClient.WhoSends | src/client/peer_to_peer.cpp:201-252 | who sends a PING or a HANGUP and who does not |
| P2PClient.ResetForgets | src/client/peer_to_peer.cpp:104-109 | after a reset nothing is pinged or hung up and the handshake's guard fails |
| P2PClient.NoPort | src/shared/connection/connection.cpp:82-101 | an address whose port is no number is sent to port 0 |
| P2PClient.ExtraPortIgnored | src/client/peer_to_peer.cpp:119-120 | the port that the handshake appends to an address which already has one does not change where datagrams go |
| P2PClient.Connection.Respond | src/shared/connection/udp_conn.cpp:54-62 | an invalid request sends nothing, and a failed send makes it invalid |
| P2PClient.Connection.Receive | src/shared/connection/udp_conn.cpp:44-52 | an invalid request reads nothing, a failed read makes it invalid and keeps its data |
| P2PClient.P2P.SendServer | src/client/peer_to_peer.cpp:265-296 | the text asked, and last reply and message from what the request holds after the exchange |
| P2PClient.P2P.ConnectPeer | src/client/peer_to_peer.cpp:139-159 | the whole new state, and the status each code gives |
| P2PClient.P2P.AcceptPeer | src/client/peer_to_peer.cpp:163-181 | the whole new state |
| P2PClient.P2P.RejectPeer | src/client/peer_to_peer.cpp:185-197 | the whole new state |
| P2PClient.P2P.PingPeer | src/client/peer_to_peer.cpp:201-239 | the whole new state; nothing unless the client is an initiator and not yet accepted |
| P2PClient.P2P.HangupPeer | src/client/peer_to_peer.cpp:243-261 | the whole new state; nothing unless the client is an initiator |
| P2PClient.P2P.ResetConnection | src/client/peer_to_peer.cpp:104-109 | the state after a reset, which keeps the network type |
| P2PClient.P2P.Retry | src/client/peer_to_peer.cpp:423-457 | after a failed read: twenty rounds in which nothing is sent or read, then Error |
| P2PClient.P2P.HandshakeAcceptor | src/client/peer_to_peer.cpp:298-337 | Connected exactly when no send before the read failed and the first datagram read is the confirmation; what is sent |
| P2PClient.P2P.HandshakeInitiator | src/client/peer_to_peer.cpp:341-376 | the same for the initiator |
| P2PClient.P2P.HandshakePeer | src/client/peer_to_peer.cpp:113-135 | a client that passes the guard ends Connected or Error after one read, which counts as one attempt or, when it fails, as 21, and switches to streaming when Connected; one that does not stays as it is |
| P2PClient.SentWhenSendsWork | src/client/peer_to_peer.cpp:298-376 | when no send fails, what is sent is the punch outside a local network and the confirmation |
| P2PClient.FailedSends | src/client/peer_to_peer.cpp:298-376 | when a send fails before the read, nothing more is sent and the handshake fails |
| P2PClient.ReadyIffAddressNamed | src/client/peer_to_peer.cpp:380-400 | a client Accepted by a 201 passes the guard of the handshake exactly when the 201 names an address |
| P2PClient.NamelessAnswer | src/client/peer_to_peer.cpp:217-227 | a text that is a 201 and names none |
| P2PClient.AwaitPeer | src/client/user/call.cpp:286-322 | the ping loop: what was asked, when the driver returns from inside it and with what |
| P2PClient.UdpConnect | src/client/user/call.cpp:275-326 | the texts sent to the server: CONNECT, at most 12 PINGs, all 12 if the callee never answers, and a HANGUP exactly when the caller gives up; true exactly when Connected, hung up by the user, or given a 201 without an address; Connected takes a 201 to one of the first 11 PINGs and the peer's confirmation |
| P2PClient.UdpAccept | src/client/user/call.cpp:328-346 | one ACCEPT is sent; true exactly when the status is not Error, that is Connected or given an empty address |
| Handshake.RunKeeps | src/client/peer_to_peer.cpp:298-376 | the inductive invariant of the two-peer machine holds under every interleaving, loss, timeout and early stream |
| Handshake.ActsAsAlone | src/client/peer_to_peer.cpp:113-135 | in every run a peer that finishes has the status and has sent the texts that its own `handshake_peer` has for the read it made |
| Handshake.DecodedMeans | src/shared/connection/udp_text_io.cpp:29-51 | the text of a datagram is its first 512 bytes up to the first NUL |
| Handshake.OnlyConfirmations | src/client/peer_to_peer.cpp:461-469 | whatever is lost, only confirmations and the other peer's stream are ever in flight |
| Handshake.MismatchIsStream | src/client/peer_to_peer.cpp:321-336 | the mismatch branch is reached only by a stream datagram of a peer that is already connected; every other failure is a timeout |
| Handshake.HeaderIsNoConfirmation | src/shared/connection/stream_io.cpp:209-221 | no stream header reads as the confirmation |
| Handshake.StreamOvertakes | src/client/peer_to_peer.cpp:364-375 | a peer that waits while the other is connected, once all it was sent is lost, reads the other's first stream header |
| Handshake.MismatchIff | src/client/peer_to_peer.cpp:321-376 | under loss the mismatch branch can be reached, and by what `respond` sends first, exactly by the caller, or by either peer outside a local network |
| Handshake.LocalCalleeNeverMismatches | src/client/peer_to_peer.cpp:298-337 | the callee of a local call never reads anything else than the confirmation |
| Handshake.CallerImpliesCalleeIffLocal | src/client/peer_to_peer.cpp:298-376 | under any loss, a connected caller implies a connected callee exactly in a local network |
| Handshake.CallerAlone | src/client/peer_to_peer.cpp:341-376 | elsewhere, a run in which the caller takes the callee's punch for its confirmation and the callee times out |
| Handshake.LosslessConnects | src/client/peer_to_peer.cpp:298-376 | from both peers Accepted, without loss or timeouts nothing fails, some send or read is possible until both are Connected after 4 steps (Local) or 6 (Web), and exactly one spare confirmation in each direction (Web) is left |
| Handshake.WorkGrows | src/client/peer_to_peer.cpp:298-376 | each possible send or read is progress towards that end |
| Handshake.SpareConfirmations | src/client/peer_to_peer.cpp:461-469 | at any time of a lossless run an inbox holds short datagrams and then exactly what the other peer has streamed |
| Handshake.MediaFollowsHandshake | src/client/peer_to_peer.cpp:130-134 | so the media messages streamed behind a lossless handshake, even while the other peer is still shaking hands, are received exactly |
| CallSetup.OverheardFails | src/client/peer_to_peer.cpp:285-296 | a client that reads the peer's punch or confirmation as the answer to its PING or ACCEPT ends in Error |
| CallSetup.AnswerJudged | src/client/user/call.cpp:286-322 | what the server's own answer leads to, and that the answer to the 12th PING is not used |
| CallSetup.AnswerEnters | src/client/peer_to_peer.cpp:163-239 | the 201 brings a client into exactly the state its handshake starts from |
| CallSetup.AskingStates | src/client/peer_to_peer.cpp:139-181 | the states in which the two clients ask are those after a CONNECT answered 200 and of a new client |
| CallSetup.FirstEvents | src/client/user/call.cpp:286-322 | how the call begins for a caller that waits for an answer and for one that does not |
| CallSetup.PairIsRun | src/client/peer_to_peer.cpp:113-135 | every run of a call is a run of the two handshakes, what is overheard being lost to them |
| CallSetup.OnlyPunches | src/client/peer_to_peer.cpp:298-303 | a client that still waits for the server can only find confirmations of the peer in its inbox |
| CallSetup.CallKeeps | src/client/peer_to_peer.cpp:285-296 | the invariant of all runs: either no peer datagram stands before an answer that is needed, or a client is blocked by one or has failed |
| CallSetup.NothingOverheard | src/client/peer_to_peer.cpp:285-296 | when nothing arrives ahead of an answer, the two handshakes run without loss |
| CallSetup.CallConnectsIff | src/client/user/call.cpp:275-346 | a lossless call that has come to its end has connected both exactly when no peer datagram arrived ahead of the other's 201 and the first PING after the ACCEPT was among the first eleven; otherwise a client has failed or given up |
| CallSetup.EventsEnd | src/client/user/call.cpp:286-322 | every event but streaming brings that end nearer |
| CallSetup.OvertakenIffPunch | src/client/peer_to_peer.cpp:298-303 | with the server's answers in order, a datagram arrives ahead of a 201 exactly when the callee punches before the caller's 201 has arrived |
| CallSetup.OvertakingIffWeb | src/client/peer_to_peer.cpp:298-303 | so it can happen exactly outside a local network |
| Decimal.StoiToString | src/shared/utils/string_utils.cpp:107-117 | reading a printed `int` gives it back, for every 32-bit value |
| Decimal.StoiPadded | src/shared/connection/text_io.cpp:79-85 | leading zeros do not change what is read |
| Decimal.StoiSkips | src/shared/utils/string_utils.cpp:107-117 | white space and a plus sign in front are not part of the number |
| Decimal.StoiFails | src/shared/utils/string_utils.cpp:107-117 | no digit, or a number out of range, is an exception |
| Decimal.IntHasTenDigits | src/shared/connection/text_io.cpp:79-85 | a length has at most ten digits |
| StringUtils.FindLeast | src/shared/utils/string_utils.cpp:8-22 | the delimiter found is the first one |
| StringUtils.SplitTerminated | src/shared/utils/string_utils.cpp:8-22 | the pieces, each followed by the delimiter, are the string and one more delimiter |
| StringUtils.JoinSplit | src/shared/utils/string_utils.cpp:128-141 | `join` undoes `split` on every string exactly for one-character delimiters |
| StringUtils.SplitJoin | src/shared/utils/string_utils.cpp:128-141 | `split` undoes `join` on every non-empty list of delimiter-free pieces |
| StringUtils.SplitSnoc | src/shared/utils/string_utils.cpp:8-22 | a last delimiter-free piece comes off whole |
| StringUtils.SplitPieces | src/shared/utils/string_utils.cpp:8-22 | no piece holds the delimiter |
| StringUtils.SplitCons | src/shared/utils/string_utils.cpp:63-86 | the first piece and the whole rest |
| StringUtils.SplitAtSlices | src/shared/utils/string_utils.cpp:93-104 | ascending positions give exactly the slices between them |
| StringUtils.Conversions | src/shared/utils/string_utils.cpp:93-104 | the conversions between `int` and `size_t` keep the value modulo the width of the type |
| StringUtils.SplitLoop | src/shared/utils/string_utils.cpp:8-22 | the loop computes the pieces |
| StringUtils.SplitToIntsLoop | src/shared/utils/string_utils.cpp:24-46 | the loop reads every piece that is a number |
| StringUtils.SplitAtLoop | src/shared/utils/string_utils.cpp:93-104 | the loop computes the slices, or the exception |
| StringUtils.JoinLoop | src/shared/utils/string_utils.cpp:128-141 | the loop joins the pieces |
| Reply.DigitsRoundTrip | src/shared/reply.cpp:53-61 | every code is read back from its digits |
| Reply.CodeOfMessage | src/shared/reply.cpp:40-61 | the code comes back out of every fixed reply |
| Reply.FixedTexts | src/shared/reply.cpp:4-20 | the fixed texts from 200 to 303 |
| Reply.MoreFixedTexts | src/shared/reply.cpp:4-20 | those of 304 and 305 |
| Reply.LongFixedTexts | src/shared/reply.cpp:4-20 | those from 306 on |
| Reply.NoOtherCode | src/shared/reply.cpp:53-61 | every text but the digits of a code has no code |
| Reply.PayloadOfAppend | src/shared/reply.cpp:49-51 | the payload of a 201 reply comes back whole, spaces included |
| UserChats.Chat.FromString | src/shared/user_chat.cpp:133-153 | the fields after parsing, those a short header leaves alone included |
| UserChats.ChatRoundTrip | src/shared/user_chat.cpp:99-153 | a chat with a comma-free date is read back whole, whatever its text holds |
| UserChats.CommaIsLost | src/shared/user_chat.cpp:99-153 | a chat whose date holds a comma never is |
| UserChats.ChatRoundTripIff | src/shared/user_chat.cpp:99-153 | so it is read back exactly when its date has no comma |
| UserChats.AssignedInOrder | src/shared/user_chat.cpp:133-153 | which fields a short or unreadable header assigns, and that the others keep their values |
| UserChats.UnreadableChat | src/shared/user_chat.cpp:133-153 | a text without a length changes nothing |
| ChatController.BuildResponse | src/server/chat_controller.cpp:117-137 | the two strings grown in the loop are the offsets and the encoded chats |
| ChatClient.ParseChatLoop | src/client/user/chat.cpp:112-128 | the parser's loop computes the chats |
| ChatClient.ReplyCutsIntoChats | src/client/user/chat.cpp:112-128 | the cumulative byte offsets cut the content into exactly the encoded chats |
| ChatClient.ChatListRoundTrip | src/client/user/chat.cpp:112-128 | the client rebuilds the server's list of chats exactly when no date holds a comma |
| ContactPrinter.ListContacts | src/server/user_controllers.cpp:211-232 | the loop builds the reply, and an empty list is an error reply |
| ContactPrinter.PrintedShapes | src/shared/user.cpp:75-93 | the three shapes of a printed user, field by field |
| Contacts.ContactBook.PairContactDetails | src/client/user/contacts.cpp:235-298 | the loops over the fields build the record, which is entered if it has an id |
| Contacts.ContactBook.UpdateContacts | src/client/user/contacts.cpp:189-200 | the contacts are replaced by those of the reply |
| Contacts.EntryRoundTrip | src/shared/user.cpp:75-93 | parsing one printed entry gives the user's id, name, online and awaiting, through each of the three shapes of `to_string` |
| Contacts.NoFields | src/client/user/contacts.cpp:235-298 | an entry without fields holds the default values and is no contact |
| Contacts.ContactListRoundTrip | src/client/user/contacts.cpp:189-298 | the client's map after LIST is that of the printed contacts; the leading code adds nothing |
| Contacts.ShownDistinct | src/client/user/contacts.cpp:235-298 | with distinct non-zero ids that map holds every contact with its own details and nothing else |
| Contacts.ContactListRoundTripIff | src/client/user/contacts.cpp:189-298 | with such ids the list is rebuilt exactly when every user name is free of commas and spaces |
| Contacts.ErrorReplyClears | src/client/user/contacts.cpp:189-200 | an error reply leaves no contact |
| TextIO.HeaderOfLength | src/shared/connection/text_io.cpp:79-85 | the header made from any size is the ten-digit length up to 2^31-1 |
| TextIO.Socket.Respond | src/shared/connection/text_io.cpp:44-58 | header and text are appended to the stream; a size whose narrowed text has more than ten characters throws |
| TextIO.Socket.Receive | src/shared/connection/text_io.cpp:19-42 | one frame is taken off the stream, the request is invalid, or a header of 2147483647 leaves no defined result |
| TextIO.HeaderReads | src/shared/connection/text_io.cpp:62-85 | the ten-digit header is read back for every length |
| TextIO.HeaderIsDecimal | src/shared/connection/text_io.cpp:79-85 | the header is ten digits with the length as their value |
| TextIO.HeaderDecides | src/shared/connection/text_io.cpp:19-76 | what is read behind any header: nothing behind one that is no number, an invalid request for a negative one, and as much as there is for any other |
| TextIO.CStringStops | src/shared/connection/text_io.cpp:35 | a text ends in front of its first NUL |
| TextIO.ShortStreamIsInvalid | src/shared/connection/text_io.cpp:62-77 | a stream with less than a header, a closed connection above all, makes the request invalid |
| TextIO.FrameRoundTrip | src/shared/connection/text_io.cpp:19-85 | a frame is read back exactly when it holds no NUL and is shorter than 2^31-1; below that length nothing behind it is touched, at it the result is undefined |
| TextIO.FramesRoundTrip | src/shared/connection/text_io.cpp:19-85 | any sequence of frames is read back, with no bytes left, exactly when each of them alone is |
| TextIO.EndIsNoticed | src/shared/connection/text_io.cpp:19-77 | behind the last message one more read finds the end of the stream |
| AudioBank.AudioBank.Load | include/client/av/audio_bank.hpp:18-44 | store and item after a load |
| AudioBank.AudioBank.CopyData | include/client/av/audio_bank.hpp:72-87 | the item grows by the next bytes until it is full or they run out |
| AudioBank.AudioBank.Grab | include/client/av/audio_bank.hpp:46-57 | the oldest chunk leaves the store |
| AudioBank.Rechunks | include/client/av/audio_bank.hpp:18-87 | after any calls, grabbed, stored and held bytes are all accepted bytes in order, every chunk is a whole buffer and the held item at most one |
| AudioBank.ItemIsKeptBack | include/client/av/audio_bank.hpp:25-28 | a full buffer is kept back exactly when it came as one package behind whole buffers and no package has come since |
| AudioBank.NextGrab | include/client/av/audio_bank.hpp:18-87 | exactly which bytes the next grab gives, from the calls alone |
| ConnectionPoll.ConnectionPoll.constructor | src/shared/connection/connection_poll.cpp:7-13 | all slots are free |
| ConnectionPoll.ConnectionPoll.AddSocket | src/shared/connection/connection_poll.cpp:15-29 | the slot at the index is taken; fails exactly when the index is at the end |
| ConnectionPoll.ConnectionPoll.RemoveSocket | src/shared/connection/connection_poll.cpp:57-67 | the table after clearing, one compacting pass and recounting, and which sockets were closed |
| ConnectionPoll.ConnectionPoll.RepositionPoll | src/shared/connection/connection_poll.cpp:69-83 | the in-place pass is the specified one |
| ConnectionPoll.ConnectionPoll.CountPollIndex | src/shared/connection/connection_poll.cpp:85-97 | the index is behind the leading used slots |
| ConnectionPoll.LiveShifted | src/shared/connection/connection_poll.cpp:69-83 | the pass neither loses nor reorders a socket |
| ConnectionPoll.ShiftedDenseIff | src/shared/connection/connection_poll.cpp:69-83 | one pass leaves a table without gaps exactly when at most one free slot had a used one behind it |
| ConnectionPoll.RemoveExactIff | src/shared/connection/connection_poll.cpp:57-97 | removing keeps the other clients in order, and gives their table exactly when at most one occurrence of the socket stands before another socket |
| ConnectionPoll.AlwaysExactIff | src/shared/connection/connection_poll.cpp:7-97 | for every capacity and every sequence of adds and removes, duplicates included, the table is that of the clients throughout exactly when before each removal at most one occurrence of the socket stands before another one |
| ConnectionPoll.TableHoldsClients | src/shared/connection/connection_poll.cpp:7-97 | so with sockets that are fresh when added: listener, live sockets in arrival order, free slots; the index is their number plus one, and adding fails exactly when the table is full |
| ConnectionPoll.RemovalCloses | src/shared/connection/connection_poll.cpp:57-63 | a client's socket is closed once, and nothing else is closed |
| ConnectionPoll.DuplicateLosesClient | src/shared/connection/connection_poll.cpp:57-97 | with a socket in the table twice, a removal leaves a gap and a later client overwrites a live socket |

## Left out

- StreamIO.Socket.Respond: requires a payload that the cut describes exactly; for others (the first has 80,982,000 bytes) the original reads behind its buffer, which has no defined result. The address that it takes from the request is not modelled.
- StreamIO.Socket.ReceiveData: requires a header whose size sum fits `size_t`. For others, which `StreamIO.Socket.Receive` reports as `Wraps`, the original allocates the wrapped size and writes behind its buffer, which has no defined result. No payload that the cut describes makes such a header.
- StreamIO.Socket.Receive: sets no sender address on the request.
- MediaStream.StreamRoundTrip: for a lossless first-in first-out channel; UDP does not promise one, and the original has no sequence numbers.
- TextIO.Socket.Receive: full reads, and headers other than 2147483647, whose buffer size overflows an `int` in the original.
- StringUtils.SplitLoop: requires a delimiter, as does `StringUtils.SplitToIntsLoop`; with an empty one the original never returns.
- StringUtils.JoinLoop: requires a piece unless the delimiter is empty; without one the original removes a character from an empty string.
- ChatClient.ReplyCutsIntoChats: total length up to 2^31-1, because longer offsets are not read back by `std::stoi`; strings longer than that are outside `ChatClient.ChatListRoundTrip` too.
- UserChats.ChatRoundTrip: without `m_empty`, which `from_string` does not set.
- AwaitingUsers.AwaitingTable.Insert: without the entry in the timeout table, which only the timeout worker reads.
- CallControllers.Controllers.Ping: without the timeout status that a PING refreshes, for the same reason.
- Signalling.ClientsHold: a datagram read instead of an answer may be any that names an address if it is a 201; `Signalling.AnswersNameAddress` and `Signalling.OthersNameNoAddress` show that the server's and the peers' do. Addresses are not empty, and they and the tokens hold no space, as the server's `address:port` texts and its tokens are.
- CallSetup.CallConnectsIff: each peer's datagrams arrive in order; the user's hangup flag and the server's timeout are not raised meanwhile.
- P2PClient.P2P.HandshakePeer: the request's address, which a successful read replaces by the sender's, is not modelled beyond `P2PClient.ExtraPortIgnored`.
- Contacts.ContactBook.PairContactDetails: fields that the original leaves uninitialised when an entry lacks them are false or empty here.
- Contacts.ContactBook.UpdateContacts: without the notification of what changed, which reports only the first awaiting change.
- ConnectionPoll.ConnectionPoll.AddSocket: without the `events` field, which is always `POLLIN`.
- AudioQueue.LockFreeAudioQueue.Push: the methods of the class run without interruption; interleaving is what the step machine and its theorems are about.
- A second consumer of the audio queue (draining while the device callback pops): outside the queue's own assumption.
- Weak memory effects: the atomics use the default sequentially consistent order.
- The body of `AwaitingUsers::timeout_loop` and its timeout bookkeeping: it erases from a vector inside a loop over it; it is kept as a move that may remove any request at any time.
- That only the intended callee can accept: the code does not check it, and the record does not hold the callee.
- Commands that are not for calls, whose requests the router passes to other controllers.
- Switching a connection back from media to text: the original does not do it, and creates a new connection for each call.
- The retries of `Call::accept` for the video connection, and the user interface flags around the drivers.
- `UserChat` comparison operators, `StringUtils::last`, `trim`, `to_upper`: easy or not an ordering.
- `ConnectionPoll::close_all`, `select_socket_with_events`; `disconnect_client`, which closes a socket that the removal has closed already.
- The database, the network and `poll` themselves, ffmpeg, OpenCV, SDL, Qt, configuration, logging and local IP discovery.
