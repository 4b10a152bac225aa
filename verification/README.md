# go-CFC: a verified model

go-CFC is a relay. Clients speak a framed, encrypted message protocol to a proxy server, which
pairs two connections in a room and then pipes raw bytes between them. This project models the
parts of it where that can go wrong and proves what they keep on every input, every run and
every schedule:

* the wire format and the reader that works in place on a `bufio` buffer (`Bytes`, `Codec`,
  `StreamReader`, `Message`), and any number of goroutines writing to one wire (`Writers`);
* the server's handler of a connection and the handover from messages to raw bytes (`Handler`,
  `LinkSwitch`, `LinkTheorems`), and the VPN tunnel in both directions (`Tunnel`);
* the server as a concurrent protocol: rooms (`TaskRoom`), closing with its cascades over links,
  subs, names and shutdown (`CloseProtocol`, `CloseInvariants`, `CloseTheorems`,
  `CloseLinks`, `CloseProgress`, `CloseCauses`, `CloseDeadlock`), and who can be attached to whom (`ConnGraph`);
* request/response correlation (`TaskCb`, `TaskResults`), the UDP rendezvous (`UdpRendezvous`) and the client
  box shutting down (`BoxShutdown`).

Verify everything with `dafny verify dfyconfig.toml`.

## How it is modelled

**Data and in-place code.** AES-GCM, SHA-256, JSON and base64 are functions in a record (`Codec.Suite`,
`Message.Env`) with the laws the code relies on as a hypothesis (`Codec.Valid`, `Message.ValidEnv`);
`Codec.ToySuiteIsValid` shows that it can be met. The nonce that encryption draws is an
argument, so every statement holds for every nonce. `StreamReader.BufReader` is `bufio.Reader` as a class
over an array with its two indices; the transport delivers the bytes in arbitrary pieces. Loops of the
source are loops here, each proved equal to a function of the byte stream still to come
(`Codec.ParseMsg`, `Codec.ParseAll`, `Handler.Serve`, `Tunnel.Upstream`, `Tunnel.Downstream`).

**Goroutines.** A protocol among goroutines is a state machine: a `Label` for each atomic step (a load, a
store, a lock, a channel operation, one connection write), `Enabled` and `Next` for what it needs and does,
and `Leads` for the schedules. The steps come from these places:

| machine | steps of |
|---|---|
| `Writers` | server/proxy_client.go:94-108, tool/cMsgTask.go:58-71; without the load of `disable`, tool/linkBox.go:31-47 and client/client_vpn.go:313-326 |
| `CloseProtocol` | server/proxy_client.go:86-92, 126-138, 153-172, 204-224; server/proxy_server.go:31-67; server/proxy.go:319-335; server/proxy_task.go:45-46 |
| `LinkSwitch` | server/proxy_task.go:40-75, server/proxy_client.go:126-141, server/proxy.go:116-134, tool/cMsgRead.go:54-64 |
| `TaskRoom` | server/proxy_task.go:24-126 |
| `TaskCb` | tool/cMsgTask.go:47-57, 81-107, 153-191, 231-238 |
| `BoxShutdown` | client/client.go:137-162, 212-237; client/client_box.go:159-165, 202-227, 292-312; client/client_sub.go:104-122 |
| `ConnGraph` | server/proxy.go:149-231, server/proxy_client.go:190-224 |

**Conforming clients.** The closing protocol assumes that a connection either shakes hands
(client/client_box.go:168-200) or sends TaskQ (client/client_sub.go:36-72) and ConnVPNQ1
(client/client_vpn.go:246-278) requests, any number of them, but not both. The handover and the first joiner of
`LinkSwitch` assume what the repository's own client does after its request: it is silent until it has the
TaskA, or sends tunnel data only. A failed write counts as undelivered. Ids from `NewId` are fresh.
`CloseDeadlock` proves that the assumption is needed, and `ConnGraph` does without it.

## Where the code does less than one would wish

Each of these is proved, with the exact condition where there is one.

* Closing can deadlock if one connection both registers and joins a room (it can then be linked with its
  own sub); without such connections it never does, however often the others join rooms
  (`CloseDeadlock.DeadlockFreeExactlyWhenConforming`).
* `initLinkConn` stores `linkSwitch` before `linkBox`, so a first joiner whose handler comes back in between
  uses a nil `linkBox` (`LinkTheorems.NilLinkBoxExactly`, `LinkTheorems.NilLinkBoxHappens`).
* A link switch first seen between two frames of a message loses the frames already read
  (`Handler.HandoverLosesNothing`).
* The second joiner is sent relay bytes before its TaskA when the first one's handler relays before that is
  locked (`LinkTheorems.RelayBeforeTask`, `LinkTheorems.SecondTaskFirstExactly`,
  `LinkTheorems.RelayedEarlyExactly`); the first joiner never is (`LinkTheorems.TaskBeforeRelay`).
* Message data that is itself an object carrying the byte-slice tag comes back as bytes
  (`Message.SetMsgRoundTrip`, `Message.TaggedObjectIsMistaken`).
* `ListenSubBox` never returns if it marks the box as listening after `Close` has looked
  (`BoxShutdown.ListenerReturnsExactly`, `BoxShutdown.ListenerCanMiss`).
* A sub that its user closes before `setSubBox` stores it stays in the client's sub map for good
  (`BoxShutdown.LeftInMapExactly`, `BoxShutdown.StaleEntryHappens`).
* A connection that sends TaskQ twice to one room is linked with itself exactly when its two requests are the
  first two that enter (`TaskRoom.SelfLinkExactly`); as soon as one connection may join twice, the links need not
  be a matching (`TaskRoom.MatchingExactly`).

## Model

| member | source | states |
|---|---|---|
| Bytes.LERoundTrip | tool/cMsgCrypto.go:65-72 | little-endian bytes of any width give back the number, for every number that fits |
| Bytes.Int64RoundTrip | tool/cMsgRead.go:80-86 | the eight bytes written for an int64, negative ones included, are read back as that int64 |
| Bytes.ToLEAt | tool/cMsgCrypto.go:65-72 | byte i of a number counts its 256^i: the bytes are in little-endian order |
| Bytes.LEInverse | tool/cMsgRead.go:80-86 | any bytes are those of the number they are read as |
| Bytes.Int64BytesAt | tool/cMsgCrypto.go:65-72 | byte i of an int64 is that of its two's complement |
| Bytes.Int64Inverse | tool/cMsgRead.go:80-86 | any eight bytes are those of the int64 they are read as |
| Codec.ChunksPartition | tool/cMsgCrypto.go:39-49 | the chunks of a ciphertext are 1 to 4004 bytes long and put together again are the ciphertext |
| Codec.AssemblyBytes | tool/cMsgCrypto.go:53-99 | the framing loop produces, for any chunks, the frames with countdowns from the number of chunks less one to zero |
| Codec.EncodeMsg | tool/cMsgCrypto.go:28-51 | the cutting loop with the framing loop produces exactly the frames that the round trips below are about |
| Codec.PacketAccepts | tool/cMsgRead.go:54-123 | every well-formed frame is accepted, whatever follows, as last or not by its countdown |
| Codec.PacketSound | tool/cMsgRead.go:54-123 | on arbitrary bytes and any decryption, what is accepted starts with a well-formed frame of 93 to 4096 bytes whose payload is returned |
| Codec.PacketExactly | tool/cMsgRead.go:54-123 | on all bytes, with and without the skip flag: which of its answers the reader gives, each refusal included, if and only if which condition holds of the version, the length, the sealed hash, the content and the countdown |
| Codec.DecodeExactly | tool/cMsgCrypto.go:101-117 | which payloads decode to which message, and which fail for which reason |
| Codec.FrameIsWellFormed | tool/cMsgCrypto.go:57-96 | every frame the writer makes passes every check of the reader |
| Codec.AssembledFrames | tool/cMsgCrypto.go:53-99 | the frames of a message are a run that is unfinished up to the last one, and carry the ciphertext |
| Codec.CountdownAt | tool/cMsgCrypto.go:53-99 | the countdown in each frame is the number of frames after it |
| Codec.EncodedFrames | tool/cMsgCrypto.go:28-51 | such a run decodes to the message that was encoded |
| Codec.FramesAreRead | tool/cMsgRead.go:11-53 | any run of well-formed frames is consumed exactly and yields what its payload decodes to, whatever follows |
| Codec.OnlyFramesAreRead | tool/cMsgRead.go:11-53 | on arbitrary bytes, one read consumes a run of well-formed frames and nothing else, takes none after the skip flag was seen, and leaves the offending packet unread on failure |
| Codec.MessageRoundTrip | tool/cMsgRead.go:11-53 | reading what encoding wrote gives the message and consumes exactly its bytes, for every nonce and whatever follows |
| Codec.PartialFrameWaits | tool/cMsgRead.go:65-101 | every strict prefix of a frame makes the reader wait for more |
| Codec.PartialMessageWaits | tool/cMsgRead.go:11-53 | every strict prefix of a message yields no message |
| Codec.WireRoundTrip | tool/cMsgRead.go:11-53 | any sequence of messages comes back in order, and the bytes after them are read as if they stood alone |
| Codec.WireWithPartialTail | tool/cMsgRead.go:11-53 | with a message partly arrived, exactly the complete ones before it are read |
| Codec.WirePrefixRead | tool/cMsgRead.go:11-53 | of a wire cut at any byte, exactly the messages that are wholly there are read, and then the reader waits |
| Codec.ToySuiteIsValid | tool/tool.go:33-70 | the laws assumed of encryption, hashing and JSON can be met together |
| StreamReader.BufReader.Fill | tool/cMsgRead.go:55-97 | sliding the buffer and reading once changes none of the bytes still to come, and brings more unless the connection ended |
| StreamReader.BufReader.Peek | tool/cMsgRead.go:55-97 | a view of exactly the next bytes of the stream, consuming nothing, for every way the transport cuts it |
| StreamReader.BufReader.Discard | tool/cMsgRead.go:19-33 | takes exactly n bytes off the stream |
| StreamReader.BufReader.Read | tool/linkBox.go:75-80 | returns a non-empty prefix of the stream and leaves the rest, or nothing exactly at the end |
| StreamReader.ReadCPacket | tool/cMsgRead.go:54-123 | peeking never leaves the buffer or consumes a byte; the view it returns shows, until the buffer moves, what the parser of the byte stream accepts; its answer, every refusal included, meets the condition on the bytes that decides it |
| StreamReader.CheckFrame | tool/cMsgRead.go:102-122 | decryption, hash and countdown are checked at their offsets in the frame, and the payload view follows the header |
| StreamReader.TakeFrame | tool/cMsgRead.go:15-41 | the payload copied out is the accepted one and exactly its frame is discarded; a bad packet stays |
| StreamReader.ReadCMsg | tool/cMsgRead.go:11-53 | for every cutting of the transport and every moment the skip flag is set, the result depends on the byte stream alone; the speed counter gets exactly the bytes consumed |
| StreamReader.ReadMessages | client/client_sub.go:299-314 | for every callback: it is given the messages of the stream in order, until it says no or fails or reading fails, and what follows the last message is still to be read |
| Message.SetMsgRoundTrip | tool/cMsgCrypto.go:119-130 | a message survives `SetMsg` and the end of `ReadCMsg` if and only if its data is not an object carrying the byte-slice tag |
| Message.TaggedObjectIsMistaken | tool/cMsgRead.go:48-51 | an object that carries the tag comes back as the bytes it names |
| Message.SendReceive | tool/cMsgCrypto.go:119-130 | what `SetMsg` writes is received as the same message, whatever follows |
| Writers.InvHolds | server/proxy_client.go:94-108 | on every schedule the wire is the logged messages whole but for the frames the lock holder has still to write, and every goroutine's messages are accounted for in order |
| Writers.ReaderSeesComplete | tool/cMsgTask.go:47-71 | a reader of the wire gets exactly the messages wholly written so far, and then waits |
| Writers.ReaderGetsAMerge | server/proxy_client.go:94-108 | for any number of goroutines and any schedule, the reader gets a merge of their messages that keeps each one's order, misses none unless the connection was disabled and the goroutine checks that, and after any number of bytes holds exactly the messages arrived whole |
| Writers.ReaderGetsArrived | tool/linkBox.go:37-47 | after any number of bytes the messages read are the beginning of the log that has arrived; of a goroutine that never checks `disable` nothing is missing in the end |
| Writers.NothingAfterDisable | server/proxy_client.go:94-108 | once the connection is disabled, no message of a goroutine that checks begins to be sent, on any schedule |
| Writers.EverythingCanBeSent | server/proxy_client.go:94-108 | from every reachable state some continuation sends everything: the lock is free and a reader has every goroutine's messages, but for those refused because of `disable` |
| Handler.ServeNext | server/proxy.go:117-133 | one turn of the handler is one step of the stream function, wherever the switch is seen |
| Handler.ServeMessages | tool/cMsgTask.go:47-57 | the reading loop, stopped by its flag at any moment, yields the messages that the stream function serves and consumes exactly their bytes |
| Handler.TcpHandler | server/proxy.go:116-134 | what `ReadCMsg` consumed, what was forwarded and what is still to come make up the input; a handler that never sees the switch forwards nothing, whatever the bytes |
| Handler.LinkedOnlyBySwitch | server/proxy.go:116-134 | on any bytes, the handler goes over to the link only if it has seen the switch, always if it sees it at the top of its loop, and if inside a message only with a byte waiting |
| Handler.Relay | tool/linkBox.go:74-81 | every byte still to come is forwarded, in order |
| Handler.SwitchInsideMessage | tool/cMsgRead.go:54-64 | a switch first seen before frame f of a message costs exactly the f frames before it |
| Handler.ServeOne | server/proxy.go:117-133 | a message is served whole, or given up exactly when the switch is seen between its frames |
| Handler.HandoverLosesNothing | server/proxy.go:116-134 | messages are served in order, and what is left for the link starts right after the served ones if and only if the switch is not first seen between two frames of a message |
| Handler.ConformingHandover | server/proxy.go:116-134 | a client silent until linked has all its messages served and all its raw bytes, only those, forwarded |
| LinkSwitch.InvRuns | server/proxy_task.go:40-75 | on every schedule of the two goroutines, from any state that has it: which flags are set at which point, conservation of relayed bytes, and what each wire holds |
| LinkTheorems.TaskBeforeRelay | server/proxy_task.go:65-66 | once relay bytes are on the first joiner's wire, reading it gives its TaskA first and then exactly a prefix of what the other client sent |
| LinkSwitch.RelayedInOrder | server/proxy.go:116-134 | the first joiner's bytes are never taken for messages and reach the other wire in order; the TaskA among them is whole |
| LinkSwitch.RelayDelivers | tool/linkBox.go:66-82 | the second joiner's goroutine can relay all that has arrived, in as many turns as buffers of 4096 bytes are needed for it, and then the first one's wire is its TaskA and all that the second one's client sent |
| LinkSwitch.RelayDeliversBack | tool/linkBox.go:66-82 | the first joiner's handler likewise, around the second one's TaskA |
| LinkTheorems.RelayBeforeTask | server/proxy_task.go:65-66 | for any two TaskA messages and any bytes, a schedule on which the second joiner's wire is those relayed bytes and then its TaskA |
| LinkTheorems.SecondTaskFirstExactly | server/proxy_task.go:65-66 | once the second joiner's TaskA is out, nothing is in front of it if and only if the first joiner's handler did not relay before the lock for it was taken; then reading the wire gives the TaskA first and then exactly the relayed bytes |
| LinkTheorems.RelayedEarlyExactly | server/proxy_task.go:45-66 | from every reachable state, some continuation puts relayed bytes in front of the second joiner's TaskA (or some are there) if and only if the lock for that TaskA has still to be taken and the first joiner's handler has not used a nil linkBox |
| LinkTheorems.EverythingGetsThrough | server/proxy.go:116-134 | from every reachable state in which no nil linkBox was used, some continuation relays everything sent, both ways, each wire then holding its TaskA and all that the other client sent |
| LinkTheorems.NilLinkBoxExactly | server/proxy_client.go:126-141 | from every reachable state, some continuation uses a nil linkBox if and only if one has, or linkBox is not set and the first joiner's handler is at the top of its loop or past a load that found the switch set |
| LinkTheorems.NilLinkBoxHappens | server/proxy_client.go:129-131 | so a schedule from the start does |
| Tunnel.Cut | client/client_vpn.go:196-209 | however reads cut the source, the chunks are non-empty, fit the buffer and put together are the source |
| Tunnel.RelayUp | server/proxy_vpn.go:48-64 | the loop writes the data of the messages up to the first that is not tunnel data and stops for the reason that message gives, or for the reading failure; in terms of header, code and data |
| Tunnel.UpstreamExactly | server/proxy_vpn.go:48-64 | the same of the stream function, for every byte stream |
| Tunnel.UpstreamPreserved | client/client_vpn.go:313-326 | for every cutting into chunks and every number of bytes arrived, the server has written exactly the chunks whose messages arrived whole, once and in order |
| Tunnel.TunnelFromTheStart | server/proxy.go:188-205 | from the client's first byte on: the request is served, and exactly the tunnel data is handed to the relay and comes out as chunks |
| Tunnel.LinkClient.HandleCMsg | client/client_vpn.go:211-231 | a message goes to its task, or its data is written if it is ConnVPNA2 with code 200 and bytes; every other one closes the client for the reason its header, code or data give |
| Tunnel.LinkClient.Listen | client/client_vpn.go:232-240 | the reading goroutine writes the data of the messages up to the first that closes the client, and leaves the client closed for that message's reason or for the reading failure |
| Tunnel.ClientExactly | client/client_vpn.go:211-231 | after any messages and with any tasks: what is written is the data up to the first message that closes the client, whose reason is the client's |
| Tunnel.ClosedExactly | client/client_vpn.go:211-231 | the client is closed if and only if some message has a malformed tag, or finds no task and is not ConnVPNA2 with code 200 and bytes |
| Tunnel.ClosedStays | client/client_vpn.go:82-94 | after closing, further messages write nothing |
| Tunnel.ClientExtracts | client/client_vpn.go:213-234 | from any interleaving of data and control messages the client extracts the data, in order, and all of it while open |
| Tunnel.DownstreamPreserved | server/proxy_vpn.go:64-71 | for every schedule of the server's writers, every cutting and every number of bytes arrived, the client has written a prefix of the source, while open exactly the chunks arrived whole, and all of them in the end even if the connection is disabled meanwhile; it stays open if control messages find their tasks |
| TaskRoom.ProxyTaskRoom.Join | server/proxy_task.go:31-75 | a join in place changes the room and answers as the function on rooms says |
| TaskRoom.EnterMatches | server/proxy_task.go:34-75 | entering keeps: the first waits, the second is linked with the first and both are answered with mirrored infos, all others are refused |
| TaskRoom.RoomsAreOneShot | server/proxy_task.go:24-76 | for every interleaving of lookups, entries and expiry, and connections that join any number of times, a room links exactly its first two entrants, once, answers them in mirror image and refuses the rest |
| TaskRoom.FoundExactly | server/proxy_task.go:24-36 | on every schedule a request finds a room if and only if that was opened, has not expired since and was entered by fewer than two requests; otherwise it is turned away |
| TaskRoom.LinksAreAMatching | server/proxy_task.go:45-46 | if each connection joins at most once, the links of all rooms together are a symmetric matching |
| TaskRoom.MatchingExactly | server/proxy.go:154-187 | the links are a symmetric matching on all schedules in which only given connections join more than once, if and only if none are given |
| TaskRoom.SelfLinkExactly | server/proxy_task.go:34-46 | a room links a connection with itself if and only if the first two requests that enter the room are that connection's |
| TaskRoom.SelfLinkHappens | server/proxy.go:154-187 | for every connection, a schedule in which it alone joins more than once and is linked with itself |
| CloseInvariants.DelNameInv | server/proxy_client.go:166-168 | a closing client removes only its own registry entry, and the invariant is kept |
| CloseInvariants.RegisterStepInv | server/proxy_server.go:48-56 | looking up, displacing and storing a name keeps the invariant |
| CloseInvariants.StepInv | server/proxy_client.go:153-172 | every step of every goroutine keeps the invariant, the ordering of disable stores of linked peers included |
| CloseInvariants.ReachableInv | server/proxy_client.go:153-172 | every state conforming clients can reach satisfies it |
| CloseTheorems.RegistryAgreement | server/proxy_server.go:31-56 | the registry maps a name to exactly the stored client of that name that has not reached its delete step |
| CloseTheorems.OneLiveClientPerName | server/proxy_server.go:48-56 | two live registered clients with one name are one client |
| CloseTheorems.ShutdownClosesAll | server/proxy.go:328-332 | when shutdown has ranged over the registry, it is empty and every client ever registered has closed as far as deleting its name |
| CloseTheorems.NoOrphanSubs | server/proxy_client.go:204-213 | once a parent's close has finished, every sub whose attach call returned has finished closing |
| CloseLinks.LinksMatch | server/proxy_task.go:45-46 | if no connection asks for a link twice, a linked client's peer is another client that is linked back or not linked yet |
| CloseLinks.LinkedAfterReturn | server/proxy_client.go:126-128 | under the same condition, when a linking operation has returned both ends are linked with each other and nobody is about to change that |
| CloseLinks.CloseReachesPeer | server/proxy_client.go:153-159 | if a client's link stands and it asks for no other, whatever links it had before, and its close begins then and has finished, it closed exactly whom the link names: a peer is disabled, over a link to a foreign connection no client is closed |
| CloseLinks.ForeignStands | server/proxy_vpn.go:48-49 | a VPN request links to the foreign connection, whatever the link was |
| CloseTheorems.SubBodySteps | server/proxy_client.go:86-92 | mutual close: a sub's close never waits in a cycle, because the peer it waits for stored `disable` later; for any number of links made and remade |
| CloseTheorems.NoDeadlock | server/proxy_client.go:153-172 | in every reachable state with an unfinished close or call, some goroutine can step |
| CloseProgress.InFlightStepCost | server/proxy_client.go:153-172 | every step of a call already made lowers a measure |
| CloseProgress.RunsAreBounded | server/proxy_client.go:153-172 | no schedule is longer than the measure and nineteen steps for each new call, request or connection in it |
| CloseProgress.EveryCloseFinishes | server/proxy.go:319-335 | from every reachable state, on every schedule and with any new calls, requests and connections in it: something can step until all closes (own, linked, cascaded, displaced, at shutdown) have finished, and after the number of steps that bound allows they have |
| CloseProgress.OneCloseIsBounded | server/proxy_client.go:153-172 | from any point on, the body of a close takes a bounded number of its own steps and ten more for each sub attached meanwhile, however many new calls arrive; none is attached once it has the lock of its subs |
| CloseCauses.EveryCloseHasACause | server/proxy_client.go:153-172 | a client whose close has begun was closed by a caller, is linked with one that closed, was attached to one that closed, was found registered by another that takes its name, or is registered and the server shuts down |
| CloseCauses.ReturnedOperations | server/proxy_client.go:204-213 | a registered client is found under its name until its close deletes it; an attached sub is in its parent's map or closed |
| CloseDeadlock.BothCanDeadlock | server/proxy.go:149-187 | a schedule of clients that register and also join a room leads to two closes waiting for each other |
| CloseDeadlock.DeadlockFreeExactlyWhenConforming | server/proxy_client.go:153-172 | closing is free of deadlock on all schedules, those with repeated TaskQ and VPN requests included, if and only if no connection both registers and joins a room |
| ConnGraph.AttachIsOlder | server/proxy.go:177-186 | an attach makes a registered connection the parent of one that is not registered yet |
| ConnGraph.InvHolds | server/proxy.go:149-231 | for arbitrary message sequences, a sub registers, if ever, later than its parent |
| ConnGraph.RegisteredExactly | server/proxy.go:209-229 | a connection is registered if and only if it has given its name in a handshake |
| ConnGraph.HandshakeRegisters | server/proxy.go:149-229 | a handshake's first step lets its second register the connection under the name it gives, whatever happens in between |
| ConnGraph.TaskQAttaches | server/proxy.go:176-186 | a TaskQ attaches the connection to whoever was registered under the name it gives, whatever happens in between, or changes nothing |
| ConnGraph.MembersExactly | server/proxy_client.go:190-224 | a step changes who is in a sub map, and who has which name, only by an attach, a registration or a close, and exactly for the connection concerned |
| ConnGraph.GraphIsAcyclic | server/proxy.go:154-187 | whatever clients send, no path through sub maps returns to its start |
| ConnGraph.AttachStores | server/proxy_client.go:204-213 | an attach adds the connection to its parent's sub map, and to the parent's totals, and changes no other entry |
| ConnGraph.NoSubTwice | server/proxy_client.go:211-211 | no connection is twice in one sub map, however often it attaches |
| ConnGraph.ReachedExactly | server/proxy_client.go:229-236 | what a speed total counts is exactly what paths of sub maps lead to |
| ConnGraph.HeightFalls | server/proxy_client.go:229-236 | the number of later registrations falls from a connection to its subs, so recursion over sub maps ends |
| ConnGraph.CountAllNetworkSpeedView | tool/speed.go:15-25 | the totals of the upload and of the download speeds of the list, without the formatted strings |
| ConnGraph.TotalIsSum | tool/speed.go:15-25 | what a total is: of one number that number, of two lists together the sum |
| ConnGraph.CountedOncePerPath | server/proxy_client.go:229-236 | the entries of the total stand, one for one, for the paths of sub maps from the connection: it counts itself once and every other as often as there are ways to it |
| ConnGraph.GetAllNetworkSpeed | server/proxy_client.go:229-236 | terminates, and both its totals are those of the speeds of everything reached over sub maps |
| TaskCb.ReachableInv | tool/cMsgTask.go:81-107 | every step of reader, callers and timeouts keeps the registration, callback and message invariants |
| TaskCb.DispatchIsSafe | tool/cMsgTask.go:81-107 | on every schedule each callback runs at most once and only on a message with its id, and each message has exactly one fate |
| TaskCb.ReaderNeverBlocks | tool/cMsgTask.go:95-107 | the reader's next statement is always possible: the channel it sends on is empty |
| TaskCb.WaitResultIsFaithful | tool/cMsgTask.go:153-178 | a nil return means the callback ran exactly once and returned nil; after any return the id is no longer registered |
| TaskResults.ResultExactly | tool/cMsgTask.go:153-193 | on every schedule, the result of `WaitCb` and `NowaitCb`: `ErrIsDisable` exactly if the context was closed when it started, and then its callback never runs; the write error if the write failed; else nil of `NowaitCb`, and of `WaitCb` the timeout, or what its callback returned, which ran once; after an error its task is disabled and no longer registered |
| TaskResults.ResultOfItsMessage | tool/cMsgTask.go:95-107 | a message given to a callback has the task's id, and the task's result is what the callback returned for it |
| TaskResults.NoRunAfterOver | tool/cMsgTask.go:95-107 | once `OverTask` has disabled a task, its callback is not started any more |
| TaskResults.CallersReturn | tool/cMsgTask.go:153-193 | a caller can always go on or time out, and returns within eight of its own steps, whatever else happens |
| TaskCb.ReplyReachesWaiter | tool/cMsgTask.go:81-107 | in every interleaving, five reader statements after the first reply of a waiting task was read, its callback has run on it, once, and its result is what the channel was given, unless the caller's write failed or its time was over |
| TaskCb.StopCaseNeverTaken | tool/cMsgTask.go:175-176 | without an outside `OverTask`, `WaitCb` never returns through its stop channel |
| UdpRendezvous.ProxyUP2P.Handle | server/proxy_p2p.go:96-136 | the three cases of the locked switch; the pair of replies goes to the two clients, each with the other's public address, and its own names and addresses as the local ones |
| UdpRendezvous.Listen | server/proxy_p2p.go:32-60 | for every sequence of datagrams, repeated and reordered, the replies are exactly the pair decided by the first datagram and the first from another address |
| UdpRendezvous.ExpectedIsUnique | server/proxy_p2p.go:95-137 | the datagrams determine the replies |
| UdpRendezvous.RepliesAreFinal | server/proxy_p2p.go:133-136 | later datagrams change nothing |
| UdpRendezvous.PairIsMirrored | server/proxy_p2p.go:115-132 | the first reply goes to the client of the first datagram, the second to that of the first from another address, each with the other's public address, in mirror image |
| UdpRendezvous.KnownExactly | server/proxy_p2p.go:17-62 | exactly the datagrams whose client is known count, in their order |
| BoxShutdown.TokensConserved | client/client.go:212-237 | for any number of waiters, each stop token is one from its sending on, in its channel or in one goroutine's hands; no send and no put-back can block |
| BoxShutdown.WaitersLeave | client/client.go:233-237 | once the token is sent, a waiter has left or can go on, or the one that has the token can put it back; and some continuation lets it leave |
| BoxShutdown.NoOrphanSubs | client/client_box.go:292-301 | once `Close` has finished, every sub in the sub map and every sub whose handing over returned is closed |
| BoxShutdown.LeftInMapExactly | client/client_sub.go:104-122 | once `Close` has finished, the sub map holds exactly the subs that their user had closed before `setSubBox` stored them; their own close, run once, never deletes them |
| BoxShutdown.StaleEntryHappens | client/client_box.go:159-161 | a schedule with such an entry: the listener closes the sub it was handed before `setSubBox` stores it |
| BoxShutdown.SubsStayOpen | client/client_box.go:292-301 | before `Close` sets disable, a sub handed over that its user has not closed is open and in the sub map |
| BoxShutdown.CloseGoesOn | client/client.go:212-231 | until it has finished, `Close` or the holder of the lock it waits for can step |
| BoxShutdown.ListenerReturnsExactly | client/client.go:137-162 | after `Close`, some continuation lets a listener return if and only if it had set isListen before `Close` read it |
| BoxShutdown.ListenerCanMiss | client/client.go:137-148 | a schedule on which the listener starts after `Close` looked, and waits for ever |

## Left out

- AES-GCM, SHA-256, UUIDs, JSON and base64 themselves: library code, represented by their laws; the `debug` branch of `Encode` and `Decode`, which is constantly off.
- Dialling, listening, socket options, KCP, TCP hole punching and `handshakeUP2P`: foreign calls and timing.
- Deadlines, expiry and timers: steps that can happen at any time; when the timer of `gcTask` fires is not modelled.
- The state machines are on values and not on classes, because their steps interleave: what one goroutine does between two of its steps is another label. Go's memory model is taken as interleaving of loads and stores.
- The closing protocol has no room lock and no write lock: no `close` is called by a goroutine holding a write lock and no closing step takes either lock. What a `close` does to the connection itself is one step.
- Write errors: in `Handler`, `Tunnel` and `LinkSwitch` every write succeeds; a failed one ends in `close`, which `CloseProtocol` lets happen at any time.
- `bufio` returning `ErrNoProgress` after a hundred empty reads, and reads of zero bytes.
- Handler.HandoverLosesNothing: the link itself (is it set when used) is the subject of `LinkSwitch`; here forwarding starts as soon as the switch is seen.
- LinkTheorems.TaskBeforeRelay: for the second joiner's wire it does not hold; `SecondTaskFirstExactly` and `RelayedEarlyExactly` say when it does.
- `Writers`: a method that loads `disable` does so once a message; `SubBox.WriteCMsg`, which does before every frame, can stop in mid-message, which counts as a failed write.
- TaskRoom.LinksAreAMatching: a room links a first joiner that closed while waiting; that a link is live is not claimed.
- CloseProgress.EveryCloseFinishes: on an infinite schedule whose new calls never stop, that a given close finishes would need locks that are granted fairly, which is not modelled; `OneCloseIsBounded` bounds its own steps.
- BoxShutdown.LeftInMapExactly: a sub's close is one step, its deletion from the map; what it does to the connection itself is left out.
- CloseTheorems.NoOrphanSubs: closed subs need not leave the parent's map; that a sub's own close removes it is not something the server does.
- TaskCb.WaitResultIsFaithful: a callback that the reader was about to run when `WaitCb` timed out may still run, so its effects are not excluded; keep-tasks (`KeepWaitCb`, `SetKeep`) are not modelled, for them the reader can block.
- UdpRendezvous.Listen: the framing of datagrams and their authentication is `Codec`; replies to clients are taken as sent.
- ConnGraph.GetAllNetworkSpeed: on sub maps that do not change during the recursion; one connection attached to several parents is counted for each. Formatted speed strings are left out.
- BoxShutdown.ListenerReturnsExactly: one `ListenSubBox` call, since a second one panics; `ListenSubBoxOnce`, whose stop channel has no buffer, is not modelled.
- `SpeedTicker`: only what is handed to it; its two locks are taken in opposite orders by `Set` and `Get`.
- The client's buffered reader in `fastHandshake` is dropped with what it read ahead, so delivery ends at the server's wire.
- `SubBox.setProxySubClient` (unused), the UDP branch of `linkVPNConn` (it dials a TCP network), delay and speed queries, logging, configuration and the `_hook-tcp` programs.
