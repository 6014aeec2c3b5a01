# Kapua, modelled and proved

Kapua is a peer-to-peer storage network. This project models four of its parts in Dafny and proves
what they promise. `dafny verify dfyconfig.toml` checks all of it.

**The peer handshake** (`src/UDPNetwork.cpp`, `src/Core.cpp`, `src/Node.hpp`). Processes announce
themselves by broadcast, exchange public keys, wrap a session key for each other and finish with a
`Ready` sealed under that key. There are no retransmissions, and a `PublicKeyRequest` resets a
record from any state, so neither safety nor progress can be read off the code.

- `PeerProtocol.dfy`: one turn of the main loop, as it concerns one peer record.
- `Nodes.dfy`, `UdpNetwork.dfy`: the node table and the network object as classes updated in place,
  proved to run exactly those turns.
- `MainLoops.dfy`: what the loop broadcasts, and that the processes of the world run that loop.
- `Replies.dfy`: every turn spelled out, and every answer of a run counted.
- `Sides.dfy`: the invariants between two processes, one turn at a time.
- `World.dfy`, `Runs.dfy`: any number of processes, and three networks: reliable and in order on
  each link; losing and reordering; and one that may deliver any datagram again and again.
- `HandshakeTheorems.dfy`, `Accounting.dfy`, `Losses.dfy`, `Resets.dfy`, `WireSizes.dfy`: the
  results about whole runs.
- `Scenes.dfy`, `ReplayScene.dfy`: concrete runs of two processes that show what goes wrong.

Three things are found out on the way. Without duplication no record ever goes back, although the
code resets it; the proof needs every packet in flight. With duplication that fails: a replayed
`PublicKeyRequest` takes a finished record back to `KeyExchange`, and three deliveries later both
processes are `Connected` with keys that do not match (`ReplayBreaksAgreement` is the run). Exactly
this is the trouble: in any run, replaying or not, keys agree at every state and no record goes back
if and only if no `PublicKeyRequest` is handed to a record beyond `KeyExchange` (`SteadyIff`). And
on a network that only loses and reorders, a pair finishes if and only if no packet of its handshake
was lost or handed over out of turn (`QuietOutcome`), because a wasted one is never made good
(`WasteIsFinal`; `LossSticks` and `ReorderingSticks` are runs that end stuck).

**Datagram framing** (`Cbc.dfy`, `Framing.dfy`, `Ciphertexts.dfy`): the 46-byte header, AES in CBC mode through the
library's update and final steps, the 32-byte vector slot of which 16 bytes are used, and the
buffers of `_send` and `_receive`. Section 6.2 of NIST SP 800-38A gives the mode, section 6.3 of
RFC 5652 the padding; `Ciphertexts.dfy` states both bit by bit and block by block.

**The block store ring** (`Rings.dfy`, `BlockStore.dfy`, `Lookups.dfy`): a consistent-hash ring with
five-step wrapping lookups, what they find in terms of distance from the block, and their stability
when nodes come and go.

**Parsers** (`Durations.dfy`, `WrittenDurations.dfy`, `HexIds.dfy`): durations into 32-bit
milliseconds, and node ids.

## Assumptions

- Cryptography is ideal in the handshake: a wrapped session key opens only under the key pair it
  was wrapped for, a sealed datagram only under the key that sealed it, and the library calls
  succeed on honest input. Nothing is assumed of the keys drawn, not even that they differ.
- A random vector does not begin with the five magic bytes, so a sealed datagram is never taken for
  one in clear.
- A sealed datagram that reaches a record below `CheckEncryption` is refused. The code goes on to
  the version check on its ciphertext; `Framing.UnreadablePassesIff` says exactly when that check
  lets it pass. On the reliable network the case is proved not to arise (`ReliableDropsNothing`).
- Addresses are fixed and ids distinct in the theorems about runs; a sender's address is genuine.
- Received datagrams, random draws, and whether a broadcast is due are parameters.

Where code and comments differ the code is followed. The comment at `src/UDPNetwork.cpp:224` speaks
of the node's public key; the session key is opened with the process's own private key. The message
at `src/Config.cpp:181` calls a bad first character an invalid format; the parse goes on and may
succeed (`BadStartParsesIff`).

## Model

| member | source | states |
|---|---|---|
| PeerProtocol.AcceptedIff | src/UDPNetwork.cpp:320-373 | which datagrams are processed: long enough, right version, not our own, and sealed ones only from a node past Handshake under the key it gave us |
| PeerProtocol.StageFallsIff | src/UDPNetwork.cpp:157-261 | a record moves back exactly when a PublicKeyRequest is admitted to a record beyond KeyExchange |
| PeerProtocol.OnlyReadyIsSealed | src/UDPNetwork.cpp:394-405 | for any record and any input, a turn answers only the sender, and seals a packet exactly if it is Ready |
| PeerProtocol.FrameIff | src/UDPNetwork.cpp:394-405 | a packet is sealed, under the tx key, exactly for a node in CheckEncryption or Connected |
| Nodes.FirstByIdIsFirst | src/Core.cpp:61-66 | the id index answers with the earliest created node of that id, or nothing if there is none |
| Nodes.FirstByAddrIsFirst | src/Core.cpp:68-73 | the same for the address index |
| Nodes.Core.AddNode | src/Core.cpp:44-50 | a new node joins the log; each index takes it only if its key is free |
| Nodes.Core.FindNode | src/Core.cpp:61-66 | the first logged node with the id |
| Nodes.Core.FindNodeByAddr | src/Core.cpp:68-73 | the first logged node with the address |
| Nodes.Core.AddressIndexIsComplete | src/UDPNetwork.cpp:327-380 | when nodes are added only for unknown addresses, the address index holds every node ever created exactly once under its own address, whatever the ids |
| UdpNetwork.UdpNetwork.Send | src/UDPNetwork.cpp:394-410 | one datagram goes out, sealed exactly for a node at least in CheckEncryption |
| UdpNetwork.UdpNetwork.Receive | src/UDPNetwork.cpp:290-392 | the live table after a datagram is the specified one; success yields a non-null node filed under the sender's address; no address is ever added twice |
| UdpNetwork.UdpNetwork.ProcessPacket | src/UDPNetwork.cpp:143-271 | only the given node changes, and as specified; an unknown node changes nothing |
| UdpNetwork.UdpNetwork.Hear | src/UDPNetwork.cpp:115-122 | one pass of the loop changes the whole process exactly as the turn of the protocol says |
| UdpNetwork.UdpNetwork.Broadcast | src/UDPNetwork.cpp:273-288 | one announcement in clear to everyone |
| UdpNetwork.UdpNetwork.MainLoop | src/UDPNetwork.cpp:94-141 | any number of passes is the sequence of those turns and announcements, events in order |
| MainLoops.PassByPass | src/UDPNetwork.cpp:115-134 | each pass is the turn on the datagram heard, if any, and after it the broadcast, if due, before anything of the next pass |
| MainLoops.LoopSays | src/UDPNetwork.cpp:94-141 | over any passes: one Discovery in clear to the broadcast id for each pass that finds one due, and otherwise exactly the turns on what was heard, in order |
| MainLoops.BroadcastReaches | src/UDPNetwork.cpp:273-288 | a broadcast puts that packet on every wire out of the process and changes nothing else |
| MainLoops.WorldRunsLoops | src/UDPNetwork.cpp:94-141 | in every run of every network, each process is where its own loop takes it on the passes it made |
| Replies.TurnExactly | src/UDPNetwork.cpp:143-392 | for any record and any datagram: what is admitted, which steps are heeded in which state, the record left and the events, field by field |
| Replies.EveryAnswerIsDue | src/UDPNetwork.cpp:157-239 | in every run of every network, replies are as many as requests handed over, contexts as keys drawn and replies waited for, Readys as keys opened and contexts waited for, and a known peer was asked once |
| Replies.AnswersCarryTheKeys | src/UDPNetwork.cpp:162-239 | in every run, a reply carries the process's own key, a context the key drawn just before it, wrapped for the peer, and a Ready comes right after the key it acknowledges |
| Sides.HearKeepsSound | src/UDPNetwork.cpp:143-271 | under any network, a turn keeps both sides' records and logs backed by what the other really did |
| Sides.DeliverKeepsOrderly | src/UDPNetwork.cpp:143-271 | without duplication, a turn keeps sends a prefix of the script, wires free of packets already passed, and keys aligned |
| Sides.DeliverKeepsInLine | src/UDPNetwork.cpp:143-271 | in order, what travels stays exactly what the receiver has still to take in |
| World.HandIsHear | src/UDPNetwork.cpp:115-122 | a turn of one process among many changes its view of the sender only |
| HandshakeTheorems.SafeUnderReplay | src/UDPNetwork.cpp:191-257 | even under replay, a key in use was drawn by the peer for this process, and Connected means the peer sent Ready under it right after decrypting a key drawn here |
| HandshakeTheorems.KeyAgreement | src/UDPNetwork.cpp:178-261 | without duplication, a record at CheckEncryption reads with the key its peer writes with; a Connected one has a peer at least at CheckEncryption and keys agreeing both ways |
| HandshakeTheorems.SentIsPrefixOfScript | src/UDPNetwork.cpp:157-261 | everything ever sent to a peer is a prefix of the four packets, of the length its stage says; a key is drawn at most once |
| HandshakeTheorems.StatesAreMonotone | src/UDPNetwork.cpp:157-174 | without duplication no record ever goes back and session keys, once set, never change, in spite of the reset |
| HandshakeTheorems.LossIsFinal | src/UDPNetwork.cpp:143-271 | a packet that went missing holds the peer's record at or below its step for ever |
| HandshakeTheorems.ReliableQuietIsConnected | src/UDPNetwork.cpp:143-271 | no deadlock on the reliable network: quiet and acquainted means both Connected with matching keys |
| HandshakeTheorems.ReliableDropsNothing | src/UDPNetwork.cpp:335-365 | on the reliable network every handshake packet handed over is accepted, is the one waited for, and advances the record by one |
| HandshakeTheorems.ReliableIsCounting | src/UDPNetwork.cpp:157-261 | the reliable handshake refines two counters: stage is packets handed over, sends are one for knowing the peer and one for each of the first three |
| HandshakeTheorems.ReliableCanFinish | src/UDPNetwork.cpp:143-271 | from every reachable acquainted state, delivering what is on the pair's wires connects both |
| HandshakeTheorems.PeersAreIsolated | src/UDPNetwork.cpp:327-389 | hearing one peer leaves every other record unchanged; records are filed under their own address; nobody has a record of itself |
| HandshakeTheorems.ReadyAloneIsSealed | src/UDPNetwork.cpp:233-239 | in every run, of all packets sent to peers exactly the Readys are sealed |
| Losses.EveryPacketIsAccountedFor | src/UDPNetwork.cpp:143-271 | without duplication, what was ever sent to a peer is what its record has taken in, plus what was lost or handed over out of turn, plus what still travels; never more than four |
| Losses.WasteIsFinal | src/UDPNetwork.cpp:143-271 | once a packet was lost or handed over out of turn, its receiver is not Connected in any continuation |
| Losses.NoneMissingIffNoneWasted | src/UDPNetwork.cpp:143-271 | at every state, some packet sent has neither been taken in nor still travels exactly if the run lost one or handed one over out of turn |
| Losses.QuietOutcome | src/UDPNetwork.cpp:143-271 | when nothing travels any more, two acquainted processes are both Connected if and only if the run lost no packet of theirs and handed none over out of turn |
| Losses.LossSticks | src/UDPNetwork.cpp:378-388 | a concrete run of three moves: one loss, and an acquainted pair is quiet and not Connected |
| Losses.ReorderingSticks | src/UDPNetwork.cpp:178-209 | a concrete run without loss: a reply overtakes its request, is ignored, and no continuation connects both |
| Resets.RetreatsIff | src/UDPNetwork.cpp:171-174 | in every run of every network, a move takes a record back exactly if it hands it a PublicKeyRequest beyond KeyExchange |
| Resets.SteadyIff | src/UDPNetwork.cpp:157-261 | in every run of every network, keys agree at every state and records and held keys never go back, if and only if no move does that |
| Resets.LateRequestsAreReplays | src/UDPNetwork.cpp:171-174 | without duplication no move ever does that |
| Accounting.Conservation | src/UDPNetwork.cpp:143-271 | handshake packets handed over or lost in a run are exactly those sent less those still travelling |
| Accounting.HandshakesAreBounded | src/UDPNetwork.cpp:143-271 | N processes send at most 4*N*(N-1) handshake packets in any run without duplication |
| Accounting.BudgetFalls | src/UDPNetwork.cpp:143-271 | a measure that is never negative falls by one exactly when a handshake packet leaves a wire |
| Accounting.AnnouncementIsStutter | src/UDPNetwork.cpp:263-265 | an announcement from a known peer changes nothing but the wire |
| ReplayScene.ReplayBreaksAgreement | src/UDPNetwork.cpp:171-174 | a concrete run: both Connected and agreeing, a replayed request takes one back to KeyExchange, and in the end both are Connected while one seals under a key the other does not hold |
| WireSizes.SealedIsReadyOfEightyBytes | src/UDPNetwork.cpp:233-239 | in every run, whatever goes out sealed is a Ready of 80 bytes, and every Ready is |
| Cbc.DecryptUndoesEncrypt | src/UDPNetwork.cpp:444-506 | CBC decryption undoes encryption for every invertible block function |
| Cbc.UnpadUndoesPadded | src/UDPNetwork.cpp:457-462 | padding is always recognised and stripped exactly |
| Cbc.EncryptInTwoSteps | src/UDPNetwork.cpp:450-462 | update and final lengths add up, and their outputs are the chained encryption of the padded packet |
| Cbc.DecryptInTwoSteps | src/UDPNetwork.cpp:486-500 | the update that holds the last block back and the final step together restore the plaintext |
| Ciphertexts.XorIsBitwise | src/UDPNetwork.cpp:445-480 | each bit of the exclusive or is the sum of the two bits without carry |
| Ciphertexts.SealedBlocks | src/UDPNetwork.cpp:432-468 | on the wire: the vector, then block by block the cipher on the padded packet mixed with the ciphertext before it, from the first half of the vector |
| Ciphertexts.OpenedBlocks | src/UDPNetwork.cpp:470-506 | any datagram opens exactly if it is whole blocks that unchain into well-formed padding, and to what is before it |
| Framing.HeaderLayout | src/Protocol.hpp:53-69 | each header field lies at its offset, as a weighted sum of its bytes, in what is written and in anything that is read |
| Framing.RefusedIff | src/UDPNetwork.cpp:315-366 | exactly which datagrams are refused, by their length, first six bytes and what they open to, and what the buffer holds afterwards |
| Framing.HeaderRoundTrip | src/Protocol.hpp:53-69 | every header is read back from its 46 little-endian bytes, whatever follows |
| Framing.OpenUndoesSeal | src/UDPNetwork.cpp:432-506 | opening a sealed packet under its key restores it, at every length |
| Framing.SlackIsIgnored | src/UDPNetwork.cpp:437-480 | the second half of the 32-byte vector slot has no effect |
| Framing.SealedFitsIff | src/Protocol.hpp:28-30 | the sealed datagram fits the 1450-byte buffer exactly if the data is at most 1361 bytes; a Ready is 80 |
| Framing.DatagramRoundTrip | src/UDPNetwork.cpp:340-405 | for every packet that fits, send then receive restores the exact header and data, whatever the buffer held |
| Framing.UnreadablePassesIff | src/UDPNetwork.cpp:335-365 | a sealed datagram read without a key passes the version check exactly if the sixth vector byte is the major version |
| Framing.AesEncrypt | src/UDPNetwork.cpp:432-468 | the front of the buffer becomes the sealed packet, the rest is untouched |
| Framing.AesDecrypt | src/UDPNetwork.cpp:470-506 | success exactly when the datagram opens, with the plaintext at the front |
| Framing.SendFrom | src/UDPNetwork.cpp:394-409 | the datagram for the packet in the buffer |
| Framing.ReceiveInto | src/UDPNetwork.cpp:320-366 | verdict and buffer contents after decrypting in place |
| Rings.FilteredWalk | src/DistributedBlockStore.cpp:59-68 | walking round a ring and dropping elements is walking round what is left |
| Rings.StartAmong | src/DistributedBlockStore.cpp:54-57 | the wrapped lower bound on what is left is where the filtered walk starts |
| BlockStore.AlwaysConsistent | src/DistributedBlockStore.cpp:14-46 | after any operations the ring is the owner map's keys, owners have capacities, usage is 0, overloaded means capacity 0 |
| BlockStore.StateAfter | src/DistributedBlockStore.cpp:22-46 | ring, owners and capacities after each operation, virtual id by virtual id and node by node |
| BlockStore.OpenAfter | src/DistributedBlockStore.cpp:22-46 | which virtual ids serve blocks after each operation |
| BlockStore.WindowGoesAround | src/DistributedBlockStore.cpp:54-68 | a lookup inspects the first virtual id at or after the block, then cyclic successors |
| BlockStore.LookUpShape | src/DistributedBlockStore.cpp:48-70 | at most five, all open, distinct on rings of five or more, all open ones on rings of five or fewer |
| Lookups.NearestFiveAreFound | src/DistributedBlockStore.cpp:48-70 | an open virtual id is found exactly if fewer than five of the ring are strictly nearer clockwise; on rings of five or more, once each, nearest first |
| Lookups.FoundTimes | src/DistributedBlockStore.cpp:59-68 | how often each virtual id is found, at every ring size |
| Lookups.FoundInOrder | src/DistributedBlockStore.cpp:59-68 | the first turn rises in clockwise distance, and every further position repeats the one a turn before |
| BlockStore.RemovalIsStable | src/DistributedBlockStore.cpp:30-70 | after a removal, the old result without the removed node is a prefix of the new one, at every ring size |
| BlockStore.AdditionIsStable | src/DistributedBlockStore.cpp:22-70 | after adding any node, known or not and whatever it takes over, the virtual ids it leaves alone are found as a prefix of those found before; for a fresh node these are all the old ones |
| BlockStore.AddThenRemove | src/DistributedBlockStore.cpp:22-40 | adding then removing restores ring, owners and capacities exactly if and only if id and virtual ids were fresh |
| BlockStore.ResizeIsLocal | src/DistributedBlockStore.cpp:42-46 | a capacity change affects a lookup only in that node's virtual ids |
| BlockStore.DistributedBlockStore.constructor | src/DistributedBlockStore.cpp:14-20 | the first node's store |
| BlockStore.DistributedBlockStore.AddNode | src/DistributedBlockStore.cpp:22-28 | claims every virtual id, taking over owned ones, and records the capacity |
| BlockStore.DistributedBlockStore.RemoveNode | src/DistributedBlockStore.cpp:30-40 | erasing while iterating leaves exactly the other nodes' virtual ids, in any order of visits |
| BlockStore.DistributedBlockStore.UpdateNodeCapacity | src/DistributedBlockStore.cpp:42-46 | changes the limit of a known node and nothing else |
| BlockStore.DistributedBlockStore.CheckNodeOverloaded | src/DistributedBlockStore.cpp:72-78 | usage at or above the limit of a known node |
| BlockStore.DistributedBlockStore.GetNodesForBlock | src/DistributedBlockStore.cpp:48-70 | the iterator loop returns exactly the open entries of the five-wide window modulo the ring length |
| Durations.ParseDuration | src/Config.cpp:160-221 | the loop computes the specified outcome and writes the result only on success |
| Durations.ParsesIff | src/Config.cpp:169-220 | for inputs starting with a digit, success with v exactly if the input is terms then digits, the terms total v, and v fits 32 bits |
| Durations.ConcatenationAdds | src/Config.cpp:199-207 | a complete duration followed by another parses to the sum when it fits |
| Durations.BadStartParsesIff | src/Config.cpp:172-184 | exactly when an input with a bad first character still parses, and to what |
| WrittenDurations.HoursMinutesSeconds | src/Config.cpp:199-207 | decimal h, m and s parse to 3600000h + 60000m + 1000s if that fits, and throw or overflow if not |
| WrittenDurations.AmountsAddUp | src/Config.cpp:169-220 | the same for any numbers with any leading zeros and units in any order, with the amount that breaks and how |
| WrittenDurations.MinusNegatesTheFirst | src/Config.cpp:172-184 | where a minus is allowed it negates the first amount only |
| WrittenDurations.StrayIsRejected | src/Config.cpp:193-212 | a character out of place is rejected, whatever follows |
| HexIds.PrintedDigits | src/Util.hpp:11-15 | "0x" and sixteen lower-case digits, each the digit of the id at its place |
| HexIds.ReadDigits | src/Config.cpp:268-295 | exactly sixteen digits of either case are read, each at its place |
| HexIds.OrderIff | src/Config.cpp:268-295 | ids are ordered as their canonical forms are, character by character |
| HexIds.ParseHexUint64 | src/Config.cpp:268-295 | accepts exactly the accepted forms, yields their value, and writes nothing otherwise |
| HexIds.ReadBack | src/Util.hpp:11-15 | every printed id is read back |
| HexIds.PrintBack | src/Config.cpp:268-295 | an input is read exactly if it is an optional lower-case 0x and 16 hex digits, and prints as its canonical lower-case form |
| HexIds.SameIdIff | src/Config.cpp:268-295 | two inputs are the same id exactly if their canonical forms are equal |

## Left out

- Sockets, `select`, binding, threads, timers, logging and shutdown: only handing over one datagram and putting one on the wire are kept.
- OpenSSL and PEM internals, and key serialisation in `src/Protocol.hpp`: a reply whose key does not parse raises an exception in the code, and has no counterpart here.
- `Core::remove_node`: never called by the protocol, and it locks a mutex that `find_node` locks again.
- `packet_id`, `ttl`, `request_id` and `to_id`: never checked on receipt; arbitrary in the framing, absent or unused in the handshake.
- The boolean result of `_send`: only logged by its callers.
- Restarts, colliding ids and changing addresses of live processes in the theorems about runs; the node table covers repeated ids.
- UdpNetwork.UdpNetwork.Send: does not model the bytes of the datagram; `Framing.SendFrom` does, under the same condition.
- PeerProtocol.AcceptedIff: takes a sealed datagram for a record below CheckEncryption as refused, where the code goes on to the version check on ciphertext bytes; `UnreadablePassesIff` says when that check would let it pass.
- UdpNetwork.UdpNetwork.Receive: refuses the same datagrams on the same assumption.
- Framing.SendFrom: requires at most 1361 bytes of data in a packet to be sealed, since the code would write past its buffer for more; it never seals anything but a Ready.
- Framing.AesEncrypt: requires the sealed packet to fit, which the code does not check; `SealedFitsIff` says when it does and `SealedIsReadyOfEightyBytes` that every sealed packet sent does.
- YAML and command-line loading, the boolean, log-level, IPv4 and port parsers, `Settings`, `MemcachedServer` and the action queue of `Core`: wrappers, stubs or easy members.
- Groups and routing in `docs/routing.md`: documented, not implemented.
- Replication in `docs/storage.md`: the store only names virtual ids for a block; nothing is stored.
