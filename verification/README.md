# A model of the peer library

The library gives several programs one shared, ordered log of messages. One peer is the host. It
stamps and merges its own messages and those of its clients into an append-only log, and sends every
client what is new, together with a trail of older messages in case something was lost. The network
may lose, repeat and reorder packets. This project models the code in `source/peer` down to the bytes
on the wire and proves what it keeps, over every run.

## How the model is built

From the bottom up; each file is one module.

| file | contents |
|---|---|
| `Options.dfy` | constants, error flags |
| `SharedByte.dfy`, `Serial.dfy` | the byte codec: integers, the byte shared by size and mode, the message header, writers that work in place on an array |
| `Packet.dfy`, `PacketImage.dfy`, `PacketBounds.dfy`, `PacketAsserts.dfy` | `peer_pack` and `peer_unpack` as methods, their round trip, the packets byte by byte, how many of them the packer needs, and when its assertions hold |
| `Queue.dfy`, `Trail.dfy` | queues with gaps, what is resent, `chunks_append_trail` and `queue_pack` as methods |
| `PeerState.dfy`, `Peer.dfy` | a peer: every operation as a function on values, and the class `Peer` that performs it in place and is proved to compute that function |
| `Answers.dfy`, `Letter.dfy` | what each operation answers and what taking in one message, one packet or many does, said without the functions of the model; packets that hold a single message |
| `HostRun.dfy`, `HostGrowth.dfy`, `MergeOrder.dfy`, `Session.dfy` | all runs of a host that is fed arbitrary packets, what it never takes back, the order of its log, and who gets which slot |
| `Network.dfy`, `Agreement.dfy`, `Runs.dfy` | the whole system (one host, any number of clients, a lossy network), its invariant, and what holds in all of its runs |
| `Carriage.dfy`, `CatchUp.dfy`, `TickContents.dfy` | which messages a tick's packets carry, how far one tick brings a client up to date, and all that a tick sends |
| `ClientTick.dfy`, `Heartbeat.dfy`, `Fifo.dfy`, `MisleadingBeat.dfy`, `Upload.dfy` | the way from a client into the log: order, gaps and duplicates |
| `Service.dfy` | the session handshake, how a client gets the host's time, and which packets are answered without an error |
| `Script.dfy`, `Counterexample.dfy` | concrete runs in which obvious claims fail |

The network is the set of packets ever sent. A packet that is never delivered is lost, one delivered
twice is duplicated, and delivery is in any order. Third parties may add packets of their own, as long
as they do not use an endpoint of the host (`Inject`). A run is any sequence of steps from freshly
opened peers.

## Choices

- Bytes are integers from 0 to 255; three lemmas on bit vectors show that the arithmetic on the byte
  shared by size and mode is what the masks and shifts compute. The fields `index` and `time` are
  written modulo 2^64 and the actor modulo 2^32, and are read back as the C types read them.
- A status is the set of error flags raised. In the source `PEER_ERROR_INVALID_MESSAGE_ACTOR` also
  contains the bit of `PEER_ERROR_INVALID_ID` (source/peer/options.h:109, :115); the model keeps the two names apart.
- The model follows the branches and returned errors where an assertion beside them is stricter. A packet
  with 370 to 385 bytes of chunks takes the ordinary path in packet.c but fails the assertions at
  source/peer/packet.c:27, :73 or :107; `PacketAsserts.PackAssertedIff` says exactly when all of them hold. A message with a
  time, or with the wrong actor, is answered with an error at source/peer/peer.c:309-322 but fails the
  assertion in front of it. Where the code has an assertion and no branch (the trail's index at
  source/peer/peer.c:485, the address size at :386), the condition is a precondition, and there are theorems about
  when it holds.
- The random numbers of a tick are an arbitrary function of slot and position.
- Endpoint ids are distinct and not -1, non-empty addresses of host slots are distinct, payloads have at
  most 355 bytes, there are fewer than 2^32 - 1 slots, queues stay below 2^63 entries.
- Clients connect to slot 0 of the host. `Resolve` is the application looking up the endpoint behind the
  address a client was told.

## What turned out false

- **Client messages are not always delivered in order.** A client's heartbeat takes its trail from the
  mutual queue, under indices of the outgoing queue (source/peer/peer.c:923). A resent entry of the mutual
  queue can then fill the client's inbox at the host in place of the message the client really queued.
  `Counterexamples.FifoCanBreak` is such a run, in which one packet is lost. Call an entry misleading if it
  is within reach of the trail and would be stored as one of the client's messages but is not the one
  queued under that index. Whatever is drawn, no packet of a heartbeat spoils an inbox if and only if the
  inbox it goes to already has the message under every misleading index
  (`MisleadingBeats.BeatKeepsInboxesIff`). If every heartbeat is covered in this way, the order holds in the
  whole run (`Fifo.FifoIntegrity`); a run in which one is not can go on to a wrong inbox
  (`MisleadingBeats.UncoveredBeatBreaksRun`). A client that cannot see the host can make sure that no
  entry is misleading at all (`Fifo.DiscreetIsCareful`): with nothing sent yet nothing is within reach, and
  an entry with a non-zero time is never misleading.
- **A client may not always tick.** The same line needs the outgoing index to lie inside the mutual queue
  (source/peer/peer.c:485). `ClientTicks.ClientTickOkIff` says exactly when it does not, and
  `Counterexamples.ClientTickCanFail` shows that a client that sends one message and hears nothing back
  gets there.
- **A client's heartbeat is not always welcome.** Its trail is made of entries of the mutual queue, and the
  host refuses those that have a time or another actor (source/peer/peer.c:309-322). Whatever is drawn, every
  packet of the heartbeat is taken without an error if and only if all entries within reach of the trail are
  untimed and under the client's own actor (`Services.BeatAnsweredIff`). The heartbeat message itself is
  always accepted, and before the client has sent anything there is no trail
  (`Services.FirstBeatAnswered`). New messages with their trail are always accepted (`Services.SendAnswered`).
- **Packing nothing clears someone else's packet.** With no chunks, slot 0 of the list is initialised
  instead of the slot that was added (source/peer/packet.c:94-96). `Packets.PackKeepsEarlierPackets` says
  exactly when earlier packets survive. Nothing in peer.c packs an empty list.
- **One source can hold several slots** (`Counterexamples.RepeatedRequest`). After any run every source
  holds at most one if and only if no delivered packet was for this host, belonged to no slot, found a
  free one, and came from a source that had a slot already (`Sessions.OneSlotPerSourceIff`).
- **A slot is not always opened with its own number.** `peer_open` numbers actors from 0 on each call
  (source/peer/peer.c:88), so a host's new slots get their own numbers if and only if there are none, or
  none were there before (`Sessions.OpenedNumbersIff`, `Sessions.SecondOpenStartsOver`). A slot bound to a
  client has its own number in every run (`Sessions.BoundNumbers`).
- An actor of 2^32 - 1 reads back as -1 (source/peer/serial.h:129); `Serial.RoundTripIff` gives the exact
  range of fields that survive.
- Sending new messages does not wind up a client's heartbeat clock, while it does a host's
  (`ClientTicks.ClientTickShape`, `HostRuns.HostSendShape`).

## Model

| member | source | states |
|---|---|---|
| SharedByte.SettersCommute | source/peer/serial.h:134-152 | Whatever the shared byte held, setting size and mode in either order leaves both in it, undisturbed |
| SharedByte.SizeSetterBits | source/peer/serial.h:140-142 | The masks and shift of the size setter, on all bytes and words, are the arithmetic used in the model |
| SharedByte.ModeSetterBits | source/peer/serial.h:148-151 | The same for the mode setter, under the setter's own condition on the mode |
| SharedByte.ReaderBits | source/peer/serial.h:93-110 | The same for reading size and mode |
| Serial.IntegerRoundTrip | source/peer/serial.h:34-85 | Any integer that fits n bytes is read back from its n little-endian bytes |
| Serial.IntegerBytesUnique | source/peer/serial.h:34-85 | Any n bytes are the encoding of the integer they read as, which fits n bytes |
| Serial.WriteU32 | source/peer/serial.h:65-72 | Replaces exactly four bytes of the buffer by the little-endian form |
| Serial.WriteU64 | source/peer/serial.h:74-85 | Replaces exactly eight bytes of the buffer by the little-endian form |
| Serial.WriteMessageSize | source/peer/serial.h:134-143 | Replaces the low size byte and the two size bits of the shared byte, nothing else |
| Serial.WriteMessageMode | source/peer/serial.h:145-152 | Replaces the six mode bits of the shared byte, nothing else |
| Serial.WriteMessage | source/peer/serial.h:154-186 | Over any prior contents the buffer starts with the message's encoding and is unchanged after it |
| Serial.MessageBytes | source/peer/serial.h:154-186 | The encoding byte by byte: eight zero bytes, size and mode in two, index, time and actor with the low byte first, then the payload |
| Serial.MessageRoundTrip | source/peer/serial.h:93-186 | Mode, index, time, actor and payload read back as written, and the size field is the chunk's length |
| Serial.RoundTripIff | source/peer/serial.h:112-182 | A message reads back as written if and only if index and time are 64-bit and the actor is between -1 and 2^32 - 2 |
| Serial.DecodeThenEncode | source/peer/serial.h:93-186 | Encoding what a framed chunk decodes to gives the chunk back if and only if its first eight bytes are zero |
| Packets.Pack | source/peer/packet.c:5-119 | Appends the greedy packets and leaves earlier ones alone; stops with an error at the first chunk whose size field is wrong, with what was packed so far; adds one packet for no chunks and clears slot 0 |
| Packets.MakeRoom | source/peer/packet.c:21-53 | Opens a packet exactly when the chunk does not fit, finishing the previous one if this call added it |
| Packets.AddForEmpty | source/peer/packet.c:85-116 | With no chunks the list grows by one packet of size zero and slot 0 is cleared |
| Packets.PackKeepsEarlierPackets | source/peer/packet.c:17-118 | Packing keeps all earlier packets if and only if there are chunks, or the list was empty, or slot 0 already was the cleared packet |
| Packets.EmptyPackClearsSlotZero | source/peer/packet.c:94-96 | A list for which packing nothing destroys an earlier packet |
| Packets.GroupsFit | source/peer/packet.c:20-83 | No packet is empty or holds more than 385 bytes of chunks |
| Packets.GroupsPartition | source/peer/packet.c:20-83 | The packets together hold exactly the chunks, in order |
| Packets.OnePacket | source/peer/packet.c:20-118 | Chunks of at most 385 bytes together are packed into one packet and parsed out of it again |
| Packets.PackRoundTrip | source/peer/packet.c:20-179 | Unpacking what was packed returns exactly the chunks, in order, with status OK, across any number of packets |
| Packets.PackedPacketsShape | source/peer/packet.c:42-116 | Every packet added is addressed as asked, has a size of 16 to 400 equal to its header field, parses with status OK, holds only packed chunks, and every chunk is in one |
| Packets.Unpack | source/peer/packet.c:121-182 | Terminates on all packets and computes the concatenation of what each parses to, with statuses OR-ed |
| Packets.ParseConcat | source/peer/packet.c:130-181 | Unpacking a concatenation of lists concatenates the chunks and ORs the statuses |
| Packets.ParsedSlice | source/peer/packet.c:147-178 | On arbitrary bytes the chunks are one contiguous slice from the offset on that never leaves the 400-byte buffer |
| Packets.ParsedSizes | source/peer/packet.c:147-178 | On arbitrary bytes every chunk is non-empty and, if it has a full header, as long as its own size field |
| Packets.ParseStops | source/peer/packet.c:147-157 | The parser stops with OK if and only if no full header is left or the next size is zero, and otherwise in front of a chunk that would leave the buffer |
| PacketImages.GreedyIffPacked | source/peer/packet.c:20-83 | There is one split of the chunks in which each part but the first begins with a chunk that does not fit the part before, and it is the packer's |
| PacketImages.PackedImages | source/peer/packet.c:42-116 | Each packet added is, byte for byte, its part of that split: twelve zero bytes, the mode, the size, the chunks one behind the other, and zeros |
| PacketImages.FailedPackShape | source/peer/packet.c:59-66 | When a chunk's size field is wrong, the packets added hold exactly the chunks before it: finished packets, and a last one without a header that reads as empty |
| PacketImages.ParseOutcome | source/peer/packet.c:133-145 | An empty packet is skipped, one whose size is not 15 to 400 is refused, and any other is parsed from byte 15 on |
| PacketBounds.GreedyIsSplit | source/peer/packet.c:20-83 | The packer's packets are an order-preserving split into payloads of at most 385 bytes |
| PacketBounds.GreedyStaysAhead | source/peer/packet.c:20-83 | The packer is never behind any such split in packets, nor, at equal packets, in bytes used in the last |
| PacketBounds.GreedyIsOptimal | source/peer/packet.c:20-83 | The packer adds the fewest packets of all such splits |
| PacketBounds.NeighboursOverflow | source/peer/packet.c:21-53 | Two neighbouring packets always carry more than 385 bytes together |
| PacketBounds.NextFitBound | source/peer/packet.c:20-83 | If k payloads can hold the chunks in any arrangement at all, the packer adds at most 2k - 1 packets |
| PacketAsserts.PackAssertedIff | source/peer/packet.c:26-107 | All assertions on chunk sizes and offsets hold if and only if every packet added carries fewer than 370 bytes of chunks |
| PacketAsserts.LongMessageStopsPacker | source/peer/packet.c:107 | A single message of 340 to 355 bytes already fails one of them |
| Queues.InsertExtends | source/peer/peer.c:145-192 | Inserting fills the index, never changes a filled entry, and widens the queue with gaps exactly as far as needed |
| Queues.DeliveryOutcome | source/peer/peer.c:145-192 | After any deliveries each entry is what was filled before, else the message with that index, else a gap, and the length is what the largest index needs |
| Queues.DeliveryOrderIrrelevant | source/peer/peer.c:145-192 | The same consistent messages delivered in any order, any of them repeatedly, give the same queue |
| Queues.DeliveredToEmpty | source/peer/peer.c:145-192 | Starting empty, the queue is filled exactly at the delivered indices and one longer than the largest |
| Queues.ReadyEnd | source/peer/peer.c:736-741 | The end of the maximal run of filled entries from an index |
| Trails.TrailShape | source/peer/peer.c:489-548 | For all random numbers, only earlier messages are resent: all of them in order below 105, else the last five in order and five out of the last hundred, each by its number modulo 100 |
| Trails.TrailCoverage | source/peer/peer.c:489-548 | A message is resent whatever is drawn if and only if the index is below 105 or it is one of the last five, and has a chance to be if and only if the index is below 105 or it is one of the last hundred |
| Trails.AppendTrail | source/peer/peer.c:479-571 | Appends the encodings of exactly the trail's messages; the modulus is never zero |
| Trails.AppendScatter | source/peer/peer.c:527-568 | The scattered part of the trail, for the numbers drawn |
| Trails.PrepareChunks | source/peer/peer.c:635-656 | The encodings of all messages from the index on, then of the trail, all packable |
| Trails.QueuePack | source/peer/peer.c:605-678 | Appends exactly the packets of those messages; nothing when there are none; an error and no change when the index is past the end |
| Trails.SendReceive | source/peer/peer.c:605-678 | Unpacking what is sent yields a chunk for every message from the index on, then for the trail, each with its length, mode and payload, decoding to exactly that message if and only if its fields fit the wire |
| PeerStates.FindUnbound | source/peer/peer.c:230-242 | The first slot without a remote, or none |
| PeerStates.FindMatch | source/peer/peer.c:271-276 | The first slot whose two endpoints are the packet's, or none |
| PeerStates.FindFree | source/peer/peer.c:457-470 | The first unbound slot that has an address, from slot 1 on, or none |
| PeerStates.ConnectsFirstUnbound | source/peer/peer.c:230-242 | Connecting succeeds if and only if a slot is unbound, and changes the first such slot and nothing else |
| PeerStates.HostStoresIff | source/peer/peer.c:302-363 | A host stores a message if and only if it is untimed, under the slot's actor, no service message and its index is unfilled; and exactly which messages it answers with an error |
| Answers.OpenAddsSlots | source/peer/peer.c:69-93 | For all ids and any peer: one more slot for each id behind those already there, unbound and empty, numbered from 0 on a host and without a number on a client; nothing else changes |
| Answers.OpenNull | source/peer/peer.c:64-67 | A null list opens nothing and is an error if and only if it claims a size |
| Answers.QueueAnswer | source/peer/peer.c:194-221 | Both errors of queueing, exactly when they occur, and that the message otherwise goes to the end of the one queue that is meant, unstamped, and nothing else changes |
| Answers.HostRefusals | source/peer/peer.c:302-363 | Which message a host answers with which error, in both directions |
| Answers.ClientRefusals | source/peer/peer.c:365-433 | The same for a client |
| Answers.ClientServed | source/peer/peer.c:367-432 | A service message moves a client's time up to its own; only a session response changes actor, address and the queued messages, and how |
| Answers.ClientStores | source/peer/peer.c:415-432 | Any other message fills its index unless that is filled, with gaps before it where needed, and moves the time up |
| Answers.ReceiveAllConcat | source/peer/peer.c:285-434 | The messages of a packet are taken in one after another whatever was answered to those before, and the answers are united |
| Answers.PacketAnswer | source/peer/peer.c:278-434 | An error is answered to a packet of a slot if and only if its parsing raises it or one of its messages does, wherever it stands |
| Answers.StrangerAnswer | source/peer/peer.c:435-474 | A packet that belongs to no slot changes nothing, except on a host it is for whose slot 0 is unbound: then exactly the first free slot is bound to its source, or there is none and that is the error |
| Answers.InputAllSingle | source/peer/peer.c:245-477 | Taking in a list of one packet is taking in the packet |
| Answers.InputAllConcat | source/peer/peer.c:245-477 | On host and client, taking in two lists of packets is taking in the second after the first, whatever was answered to the first, with statuses united |
| Answers.InputAllIsRun | source/peer/peer.c:245-477 | Taking in packets in one call leaves a host as a run in which it accepts them one by one |
| Letters.HeartbeatSays | source/peer/peer.c:843-859 | A heartbeat's packets decode to one service message with the given time and actor and without an index, and then to the trail |
| Letters.ResponseSays | source/peer/peer.c:772-796 | A session response's packets decode to one service message with the given time, the slot's actor and the slot's address |
| Peers.Peer.constructor | source/peer/peer.c:19-56 | A new host is actor 0, a new client has no actor; times are zero and there are no slots and no messages |
| Peers.Peer.Open | source/peer/peer.c:58-94 | One unbound slot for each id, numbered from 0 on a host (`Answers.OpenAddsSlots`); an error and no change for a null list that claims a size (`Answers.OpenNull`) |
| Peers.Peer.Queue | source/peer/peer.c:194-221 | The message goes to the end of the right queue, unstamped, with the peer's actor; both error cases leave the peer as it was |
| Peers.Peer.Connect | source/peer/peer.c:223-243 | The first unbound slot is pointed at the server; an error if there is none |
| Peers.Peer.ReceiveAsHost | source/peer/peer.c:302-363 | A message with a time or a wrong actor is refused, service messages are not stored, others fill the slot's inbox |
| Peers.Peer.ReceiveAsClient | source/peer/peer.c:365-433 | Service messages act, others fill the mutual queue, and the mutual time only rises |
| Peers.Peer.AdoptSession | source/peer/peer.c:383-403 | Actor and address are taken over and every queued message restamped |
| Peers.Peer.InputChunks | source/peer/peer.c:285-434 | All messages of a packet are taken in, in order, statuses OR-ed |
| Peers.Peer.InputOne | source/peer/peer.c:254-474 | A packet is skipped, taken in by the slot it belongs to, or makes the host bind the first free slot |
| Peers.Peer.Input | source/peer/peer.c:245-477 | The packets are taken in one after another, statuses OR-ed; a packet answered with an error stops nothing (`Answers.InputAllConcat`) |
| Peers.Peer.AdvanceClock | source/peer/peer.c:713-720 | Local time advances and every running heartbeat clock is wound down |
| Peers.Peer.StampQueue | source/peer/peer.c:725-731 | Exactly the unprocessed entries are stamped with the new time |
| Peers.Peer.MergeOne | source/peer/peer.c:736-754 | The maximal filled run of the inbox goes to the end of the log, stamped, under the slot's actor |
| Peers.Peer.MergeSlots | source/peer/peer.c:733-755 | The same for all slots from 1 on, in order, so that what a tick publishes is sorted by actor (`MergeOrders.TickOrder`) |
| Peers.Peer.Synchronize | source/peer/peer.c:725-757 | Stamping and merging, after which every entry counts as processed |
| Peers.Peer.SendFromHost | source/peer/peer.c:762-875 | The session response, the new messages, the heartbeat or nothing, and what that does to the slot |
| Peers.Peer.SendHeartbeat | source/peer/peer.c:823-859 | Appends the packets of a heartbeat with the time and actor given, and of a trail (`Letters.HeartbeatSays`) |
| Peers.Peer.SendToSlots | source/peer/peer.c:762-875 | Every slot from 1 on is served, in order |
| Peers.Peer.TickHost | source/peer/peer.c:722-876 | A host's tick after its clocks advanced |
| Peers.Peer.TickClient | source/peer/peer.c:878-941 | A client's tick after its clock advanced |
| Peers.Peer.Tick | source/peer/peer.c:680-944 | The whole operation, both error returns included |
| HostRuns.OpenedHostStarts | source/peer/peer.c:19-94 | What `peer_open` makes of a freshly initialised host, once its slots have addresses, is a start of the runs below |
| HostRuns.EnqueueKeeps | source/peer/peer.c:194-221 | Queueing keeps the host's invariant |
| HostRuns.AcceptKeeps | source/peer/peer.c:245-477 | Any packet at all that parses into whole headers keeps the host's invariant |
| HostRuns.MergedOk | source/peer/peer.c:722-757 | Stamping and merging conserve every message: the log is made of what the host queued and what was taken from the inboxes, in order |
| HostRuns.HostSendShape | source/peer/peer.c:762-870 | A slot is sent something if and only if it has requested a session, or is ready and behind, or its clock ran out; the clock is then wound up and a ready slot has been sent everything |
| HostRuns.TickNeverBlocked | source/peer/peer.c:485 | In every reachable state of a host the trail's index lies inside the queue |
| HostRuns.ElapseKeeps | source/peer/peer.c:680-876 | A tick, accepted or rejected, keeps the host's invariant |
| HostRuns.StepKeeps | source/peer/peer.c:194-876 | So does every step: slot states, bindings, inboxes, indices, times, clocks and the origin of every log entry |
| HostGrowth.TickSettles | source/peer/peer.c:722-870 | After an accepted tick the whole log is published, every inbox is drained up to its first gap, and every slot that was ready has been sent everything |
| HostGrowth.StepGrows | source/peer/peer.c:194-876 | No step takes back a published entry or its time, a binding, a filled message, an index, a slot state or time |
| HostGrowth.RunGrows | source/peer/peer.c:194-876 | Nor does any number of steps |
| HostGrowth.HostGuarantees | source/peer/peer.c:713-757 | In every run: published entries stay and are in time order; the log's part of actor 0 is what the host queued and of actor i what was taken from inbox i, complete and in order; sizes add up; no ready slot is silent for longer than the timeout |
| MergeOrders.TickOrder | source/peer/peer.c:722-757 | What an accepted tick publishes is all at its time and sorted by actor: first what the host queued, then slot by slot what was in the inboxes |
| MergeOrders.OrderDetermines | source/peer/peer.c:733-755 | There is one such log: entries at one time, sorted by actor, are determined by what each actor sent |
| MergeOrders.RunOrder | source/peer/peer.c:722-757 | In every later state of a run, what one of its ticks published is still at that tick's time and sorted by actor |
| MergeOrders.PublishingTick | source/peer/peer.c:722-757 | Every published entry was published by one of the run's ticks |
| Sessions.OpenedNumbersIff | source/peer/peer.c:82-91 | A host's newly opened slots carry their own numbers if and only if there are none, or none were there before |
| Sessions.SecondOpenStartsOver | source/peer/peer.c:88 | A second call that gives slot 1 the number 0 |
| Sessions.BoundNumbers | source/peer/peer.c:457-470 | In every run a bound slot carries its own number, and exactly the bound slots are not empty |
| Sessions.AcceptOneEachIff | source/peer/peer.c:444-474 | With every source at one slot or none, a packet leaves it so if and only if it is not one that belongs to no slot, finds a free one and comes from a source that has one |
| Sessions.OneSlotPerSourceIff | source/peer/peer.c:444-474 | After any run every source holds at most one slot if and only if no delivered packet was of that kind |
| Agreement.TickPacketsGood | source/peer/peer.c:762-870 | Every packet a host's tick sends carries only published entries under their own index, heartbeats, or the response for the client bound to that slot |
| Agreement.ReceiveGood | source/peer/peer.c:365-433 | A client that takes in such a message still holds only published entries, and holds this one |
| Agreement.InputGood | source/peer/peer.c:245-434 | The same for a whole packet |
| Agreement.DeliveryNeverBlocked | source/peer/peer.c:383-395 | No packet ever sent can overrun a client's address buffer |
| Agreement.ClientTickKeeps | source/peer/peer.c:878-941 | A client's tick changes only its clocks and its out-index, and it sends only under its own endpoint |
| Agreement.ResolveClient | source/peer/peer.c:383-395 | The address a client was told belongs to exactly the slot whose number it adopted |
| Agreement.SystemStepKeeps | source/peer/peer.c:194-944 | Every step of host, clients, network or third parties keeps the system's invariant |
| Runs.SystemRunGrows | source/peer/peer.c:194-944 | Between any two moments of a run the published log, every client's filled entries and what each client has queued only grow |
| Runs.LogAgreement | source/peer/peer.c:415-426 | Under any loss, repetition and reordering, an entry a client holds at any moment is the host's published entry at that index from then on, so no two clients ever hold different entries there |
| Runs.MutualTime | source/peer/peer.c:428-432 | A client's time never goes back, is at least that of every entry it holds and at most the host's |
| Runs.ActorIdentity | source/peer/peer.c:383-403 | An adopted actor numbers a slot bound to that client, so actors are distinct and not the host's 0, and everything filled in an inbox carries the slot's actor, as asserted at line 743 |
| Runs.NothingBlocked | source/peer/peer.c:245-477 | In every run any packet ever sent can be delivered to any client and to the host, and the host can tick |
| Carriage.QueuePacketsCarry | source/peer/peer.c:605-678 | The packets carry the new messages and the trail between them, and nothing else |
| Carriage.HeartbeatPacketsCarry | source/peer/peer.c:819-861 | A heartbeat's packets carry the heartbeat and the trail between them, and nothing else |
| CatchUp.DeliverAllGood | source/peer/peer.c:245-477 | Any packets ever sent, in any order and repeated at will, can be delivered, and every one addressed to the client gets its messages through |
| CatchUp.OneTickCatchUp | source/peer/peer.c:802-868 | A ready slot that is sent to, with a trail that reaches all its client lacks: those packets, delivered in any order among any others, make the client's queue equal to the host's log |
| CatchUp.OneTickCatchUpIff | source/peer/peer.c:802-868 | The tick's own packets bring the client up to date if and only if the trail reaches all it lacks |
| CatchUp.GapsAlwaysResentIff | source/peer/peer.c:489-548 | That is so whatever is drawn if and only if all it lacks is among the first 105 messages or the last five before the slot's out-index |
| CatchUp.ShortLogCatchUp | source/peer/peer.c:802-868 | In particular a slot not more than 104 messages in catches up whatever was lost before |
| CatchUp.CarriesLogIff | source/peer/peer.c:489-548 | New messages with their trail carry the whole log, whatever is drawn, if and only if the index is at most 104 |
| CatchUp.HeartbeatCarriesLogIff | source/peer/peer.c:849-850 | A heartbeat carries the whole log, whatever is drawn, if and only if the log has at most 104 entries |
| TickContents.HostTickSays | source/peer/peer.c:762-870 | All that a host's tick sends for a slot, whatever is drawn: nothing to an unbound one; the response to a request, from slot 0; to a ready slot the new messages in order and a trail; or, once its clock has run out, a heartbeat with the host's time and actor 0 and a trail; or nothing |
| TickContents.TickInSlotOrder | source/peer/peer.c:762-875 | A tick's packets are those for slot 1, then those for slot 2, and so on, and no others |
| TickContents.ClientTickSays | source/peer/peer.c:878-941 | All that a client's tick sends: its new messages in order and a trail of its own queue, or, once the clock has run out, a heartbeat with time 0 and its actor and a trail of the mutual queue, or nothing |
| ClientTicks.ClientTickShape | source/peer/peer.c:878-941 | When a client's tick sends, that everything has then been sent once, and that only a heartbeat winds up the clock |
| ClientTicks.ClientTickOkIff | source/peer/peer.c:893-924 | A client may tick except if and only if the tick sends a heartbeat and its out-index lies beyond the mutual queue |
| Heartbeats.NewMessagesHonest | source/peer/peer.c:881-892 | New messages always carry what the client queued under their index |
| Heartbeats.HeartbeatHonestIff | source/peer/peer.c:893-931 | A client's heartbeat resends nothing that could be stored as a wrong message, whatever is drawn, if and only if no mutual entry within reach of the trail is misleading |
| Fifo.FifoStepKeeps | source/peer/peer.c:329-361 | Every step without forged packets and uncovered heartbeats of a client keeps its inboxes true to what it queued, and every packet under way harmless to them |
| Fifo.FifoIntegrity | source/peer/peer.c:733-755 | In every run of such steps, the log's part from that client's slots is, in order and without gaps or duplicates, a prefix of what it queued, and so is what any client reads in its ready prefix |
| Fifo.DiscreetIsCareful | source/peer/peer.c:893-931 | A client whose heartbeats never have a misleading entry in reach, which it can check alone, meets that condition |
| MisleadingBeats.MisleadingBeatBreaksFifo | source/peer/peer.c:893-931 | A misleading entry within reach, for a message the host does not have yet, can be resent so that the wrong message fills the inbox for good |
| MisleadingBeats.BeatKeepsInboxesIff | source/peer/peer.c:893-931 | Whatever is drawn, no packet of a heartbeat spoils an inbox of its client if and only if the inbox it goes to is filled under every misleading index |
| MisleadingBeats.UncoveredBeatBreaksRun | source/peer/peer.c:893-931 | A run in which an uncovered heartbeat is due goes on, for some draws and one delivery, to an inbox that holds a message its client did not queue there |
| Uploads.OutboxArrives | source/peer/peer.c:881-892 | A client's tick with new messages and a trail that reaches all its inbox lacks: those packets, delivered in any order among any others, fill the inbox with everything the client queued |
| Uploads.OutboxLogged | source/peer/peer.c:733-755 | On the host's next tick the log's part from that slot is exactly what the client queued, in order |
| Uploads.ShortOutboxUploads | source/peer/peer.c:489-548 | The trail reaches all of it, whatever is drawn, while the client has sent at most 104 messages before |
| Uploads.FedIsInputAll | source/peer/peer.c:245-477 | Delivering packets to the host one by one leaves it as taking them in in one call |
| Services.ClientsRefuseNothing | source/peer/peer.c:365-433 | In every run, no packet ever sent is answered with an error by any client |
| Services.HostTimeArrives | source/peer/peer.c:428-432 | After a tick that publishes something or beats for its slot, a client that gets the slot's packets, in any order among any others ever sent, has exactly the host's time |
| Services.Handshake | source/peer/peer.c:768-799 | A requested slot is answered with one packet; with it the client is the slot's actor, under which all it has queued goes, knows the slot's address and has the host's time, and the slot is ready |
| Services.BeatAnsweredIff | source/peer/peer.c:302-363 | Whatever is drawn, the host takes every packet of a client's heartbeat without an error if and only if all mutual entries within reach of the trail are untimed and the client's own |
| Services.FirstBeatAnswered | source/peer/peer.c:893-931 | A client that has adopted a slot and sent nothing yet: the host takes every packet of its heartbeat tick without an error |
| Services.SendAnswered | source/peer/peer.c:878-892 | The host takes every packet of a client's new messages and their trail without an error |
| Counterexamples.FifoCanBreak | source/peer/peer.c:923-924 | A run without forged packets after which the log holds the client's first message twice, in place of its second |
| Counterexamples.ClientTickCanFail | source/peer/peer.c:485 | From any start, queueing one message and ticking leads a client to where it must not tick |
| Counterexamples.RepeatedRequest | source/peer/peer.c:444-470 | Two packets from one source to slot 0 take two slots, if two are free |

## Left out

- Sockets, address conversion and the socket pool (source/peer/socket_pool.c, source/peer/sockets.h): delivery is a step of the system, and looking up an address is the step `Resolve`.
- The ciphers (source/peer/cipher.c): stubs without behaviour.
- The random number generator: its source is not part of this model, and any numbers are allowed.
- Failed allocations, freeing memory, `peer_destroy`, null peers and the slot state outside the enumeration: allocation is taken to succeed. Null references to a message and to a list of ids are modelled.
- Checksum, packet index, session number, ping and session resume: constants or remarks only in the source. The checksum is written as zero and not looked at.
- Memory layout: packets, queues and slots are values in sequences that the methods replace, with the 400-byte buffers as byte sequences; only the message writers work on arrays. Aliasing between them is not captured.
- Errors of `INVALID_MESSAGE_ACTOR` as a bit pattern: the flag's second bit, shared with `INVALID_ID`, is not modelled.
- Chunks of fewer than 30 bytes as input to a peer: the parser accepts sizes of 1 to 29 and the model of it does too, but reading a message header from one would run past it, so peers are only fed packets with whole headers.
- Clients with several slots, clients that connect elsewhere than to slot 0, and slots opened in the middle of a run.
- Liveness: that a client eventually catches up depends on chance and on deliveries; `CatchUp.OneTickCatchUp` and `Trails.TrailCoverage` are what holds for certain.
- Fifo.FifoIntegrity: promised for all runs by the design, and false for some; proved for those in which nobody forges that client's packets and each of its heartbeats is covered, a condition that cannot be spared. That it is exact is stated for inboxes: whether a wrong inbox entry also reaches the log depends on the entries before it.
