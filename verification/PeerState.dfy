/** What a peer is and what each of its operations does to it, as functions on values. The class in
    Peers performs the operations in place and is proved against these. */
module PeerStates {
  import opened Options
  import opened Serial
  import opened Packets
  import opened Queues
  import opened Trails

  datatype Mode = Host | Client

  datatype SlotState = Empty | SessionRequest | Ready

  datatype Endpoint = Endpoint(id: int, resolved: bool, address: seq<byte>)

  /** A session. The queue holds incoming messages on a host and outgoing ones on a client. */
  datatype Slot = Slot(state: SlotState, local: Endpoint, remote: Endpoint, queue: seq<Entry>,
                       actor: int, inIndex: nat, outIndex: nat, clock: int)

  datatype PeerState = PeerState(mode: Mode, time: int, timeLocal: int, actor: int,
                                 slots: seq<Slot>, queue: seq<Entry>, queueIndex: nat)

  datatype Outcome = Outcome(status: Status, state: PeerState)

  // ---- Set-up ----

  function NewPeer(mode: Mode): PeerState {
    PeerState(mode, 0, 0, if mode == Host then 0 else UNDEFINED, [], [], 0)
  }

  /** The i-th slot opened by one call. */
  function NewSlot(mode: Mode, id: int, i: nat): Slot {
    Slot(Empty, Endpoint(id, true, []), Endpoint(UNDEFINED, false, []), [],
         if mode == Host then i else UNDEFINED, 0, 0, 0)
  }

  function OpenedSlots(s: PeerState, ids: seq<int>): PeerState {
    s.(slots := s.slots + seq(|ids|, i requires 0 <= i < |ids| => NewSlot(s.mode, ids[i], i)))
  }

  /** A reference to a list of ids; it can be null, and then still claim a size. */
  datatype IdList = Ids(values: seq<int>) | NullIds(size: nat)

  function OpenOutcome(s: PeerState, ids: IdList): Outcome {
    match ids
    case Ids(values) => Outcome(OK, OpenedSlots(s, values))
    case NullIds(size) => if size == 0 then Outcome(OK, s) else Outcome({InvalidId}, s)
  }

  function Connected(s: PeerState, server: int): Outcome {
    match FindUnbound(s.slots, 0)
    case None => Outcome({NoFreeSlots}, s)
    case Some(i) =>
      Outcome(OK, s.(slots := s.slots[i := s.slots[i].(remote := Endpoint(server, true, []))]))
  }

  /** The first slot from i on that has no remote yet. */
  function FindUnbound(slots: seq<Slot>, i: nat): (r: Option<nat>)
    ensures r.Some? ==> i <= r.value < |slots| && slots[r.value].remote.id == UNDEFINED
    ensures forall k :: i <= k < (if r.Some? then r.value else |slots|) ==> slots[k].remote.id != UNDEFINED
    decreases |slots| - i
  {
    if i >= |slots| then None
    else if slots[i].remote.id == UNDEFINED then Some(i)
    else FindUnbound(slots, i + 1)
  }

  /** Connecting succeeds exactly when a slot is unbound, and then changes the first such slot and nothing else. */
  lemma ConnectsFirstUnbound(s: PeerState, server: int)
    ensures var r := Connected(s, server);
            && (r.status == OK <==> exists i :: 0 <= i < |s.slots| && s.slots[i].remote.id == UNDEFINED)
            && (r.status != OK ==> r == Outcome({NoFreeSlots}, s))
            && r.state == s.(slots := r.state.slots) && |r.state.slots| == |s.slots|
            && forall i :: 0 <= i < |s.slots| ==>
                 if s.slots[i].remote.id == UNDEFINED && forall k :: 0 <= k < i ==> s.slots[k].remote.id != UNDEFINED
                 then r.state.slots[i] == s.slots[i].(remote := Endpoint(server, true, []))
                 else r.state.slots[i] == s.slots[i]
  {
    assert Connected(s, server).status == OK <==> FindUnbound(s.slots, 0).Some?;
  }

  // ---- Queueing a message; None is a null reference ----

  function Enqueued(s: PeerState, data: Option<seq<byte>>): Outcome {
    if data.None? then Outcome({InvalidMessage}, s)
    else if s.mode == Host then
      Outcome(OK, s.(queue := Append(s.queue, 0, s.actor, data.value)))
    else if |s.slots| > 0 then
      var slot := s.slots[0];
      Outcome(OK, s.(slots := s.slots[0 := slot.(queue := Append(slot.queue, 0, s.actor, data.value))]))
    else Outcome({InvalidMode}, s)
  }

  // ---- Receiving packets ----

  predicate HasLocal(slots: seq<Slot>, id: int) {
    exists j :: 0 <= j < |slots| && slots[j].local.id == id
  }

  predicate Matches(slot: Slot, p: Packet) {
    slot.local.id == p.destination && slot.remote.id == p.source
  }

  /** The first slot from j on that this packet belongs to. */
  function FindMatch(slots: seq<Slot>, p: Packet, j: nat): (r: Option<nat>)
    ensures r.Some? ==> j <= r.value < |slots| && Matches(slots[r.value], p)
    ensures forall k :: j <= k < (if r.Some? then r.value else |slots|) ==> !Matches(slots[k], p)
    decreases |slots| - j
  {
    if j >= |slots| then None
    else if Matches(slots[j], p) then Some(j)
    else FindMatch(slots, p, j + 1)
  }

  predicate Assignable(slot: Slot) {
    slot.remote.id == UNDEFINED && slot.local.address != []
  }

  /** The first slot from j on that can be given to a new client. */
  function FindFree(slots: seq<Slot>, j: nat): (r: Option<nat>)
    ensures r.Some? ==> j <= r.value < |slots| && Assignable(slots[r.value])
    ensures forall k :: j <= k < (if r.Some? then r.value else |slots|) ==> !Assignable(slots[k])
    decreases |slots| - j
  {
    if j >= |slots| then None
    else if Assignable(slots[j]) then Some(j)
    else FindFree(slots, j + 1)
  }

  predicate IsService(m: Message, id: byte) {
    m.mode == MESSAGE_MODE_SERVICE && |m.data| >= 1 && m.data[0] == id
  }

  /** The actor as the receiver holds it: an unsigned 32-bit number. */
  function Actor32(m: Message): nat {
    m.actor % TWO_32
  }

  datatype HostReceipt = HostReceipt(status: Status, slot: Slot)

  /** What a host does with a message from the client of a slot. */
  function HostReceive(slot: Slot, m: Message): HostReceipt {
    if m.time != 0 then HostReceipt({InvalidMessageTime}, slot)
    else if Actor32(m) != slot.actor then HostReceipt({InvalidMessageActor}, slot)
    else if m.mode == MESSAGE_MODE_SERVICE then
      HostReceipt(if IsService(m, M_HEARTBEAT) then OK else {UnknownServiceId}, slot)
    else
      var r := Insert(slot.queue, m.index, m.time, Actor32(m), m.data);
      HostReceipt(r.status, slot.(queue := r.queue))
  }

  /** A host stores a message exactly when it is untimed, comes under the slot's actor, is no service message and
      its index is not filled yet; it accepts it without an error also when it is a heartbeat, is unindexed, or is
      there already. */
  lemma HostStoresIff(slot: Slot, m: Message)
    ensures var r := HostReceive(slot, m);
            var addressed := m.time == 0 && Actor32(m) == slot.actor;
            && r.slot == slot.(queue := r.slot.queue)
            && (r.slot.queue != slot.queue <==>
                  addressed && m.mode != MESSAGE_MODE_SERVICE && m.index >= 0 && !Filled(slot.queue, m.index))
            && (r.slot.queue != slot.queue ==>
                  Filled(r.slot.queue, m.index) && r.slot.queue[m.index] == Entry(true, 0, slot.actor, m.data))
            && (r.status == OK <==>
                  && addressed
                  && if m.mode == MESSAGE_MODE_SERVICE then IsService(m, M_HEARTBEAT) else m.index >= UNDEFINED)
  {
    InsertExtends(slot.queue, m.index, m.time, Actor32(m), m.data);
  }

  /** The client takes the actor and the address from a session response, and restamps what it has queued. */
  function Adopt(s: PeerState, j: nat, m: Message): PeerState
    requires j < |s.slots| && |m.data| >= 1
  {
    var slot := s.slots[j];
    var remote := slot.remote.(resolved := false, address := m.data[1..]);
    s.(actor := Actor32(m), slots := s.slots[j := slot.(remote := remote, queue := Restamp(slot.queue, Actor32(m)))])
  }

  function Restamp(q: seq<Entry>, actor: int): (r: seq<Entry>)
    ensures |r| == |q| && forall k :: 0 <= k < |q| ==> r[k] == q[k].(actor := actor)
  {
    seq(|q|, k requires 0 <= k < |q| => q[k].(actor := actor))
  }

  /** What a client does with a message from its host. */
  function ClientReceive(s: PeerState, j: nat, m: Message): Outcome
    requires j < |s.slots|
  {
    var r :=
      if m.mode == MESSAGE_MODE_SERVICE then
        if IsService(m, M_SESSION_RESPONSE) then Outcome(OK, Adopt(s, j, m))
        else if IsService(m, M_HEARTBEAT) then Outcome(OK, s)
        else Outcome({UnknownServiceId}, s)
      else
        var i := Insert(s.queue, m.index, m.time, Actor32(m), m.data);
        Outcome(i.status, s.(queue := i.queue));
    if r.state.time < m.time then Outcome(r.status, r.state.(time := m.time)) else r
  }

  function Receive(s: PeerState, j: nat, m: Message): (r: Outcome)
    requires j < |s.slots|
    ensures |r.state.slots| == |s.slots| && r.state.mode == s.mode
  {
    if s.mode == Host then
      var r := HostReceive(s.slots[j], m);
      Outcome(r.status, s.(slots := s.slots[j := r.slot]))
    else ClientReceive(s, j, m)
  }

  predicate Headed(chunks: seq<Chunk>) {
    forall i :: 0 <= i < |chunks| ==> |chunks[i]| >= N_MESSAGE_DATA
  }

  function ReceiveAll(s: PeerState, j: nat, chunks: seq<Chunk>): (r: Outcome)
    requires j < |s.slots| && Headed(chunks)
    ensures |r.state.slots| == |s.slots| && r.state.mode == s.mode
  {
    if chunks == [] then Outcome(OK, s)
    else
      var most := ReceiveAll(s, j, chunks[..|chunks| - 1]);
      var last := Receive(most.state, j, ReadMessage(chunks[|chunks| - 1]));
      Outcome(most.status + last.status, last.state)
  }

  /** The chunks a peer parses must hold whole headers, and an address sent to a client must fit. */
  predicate ChunksOk(mode: Mode, chunks: seq<Chunk>) {
    && Headed(chunks)
    && (mode == Client ==>
          forall i :: 0 <= i < |chunks| && IsService(ReadMessage(chunks[i]), M_SESSION_RESPONSE) ==>
            |ReadMessage(chunks[i]).data| - 1 <= ADDRESS_SIZE)
  }

  predicate InputOk(s: PeerState, p: Packet) {
    HasLocal(s.slots, p.destination) && FindMatch(s.slots, p, 0).Some? ==> ChunksOk(s.mode, PacketChunks(p))
  }

  /** A slot as it is given to the sender of a packet that belongs to no slot. */
  function Assigned(slot: Slot, j: nat, p: Packet): Slot {
    slot.(state := SessionRequest, remote := slot.remote.(id := p.source, resolved := true), actor := j)
  }

  function InputPacket(s: PeerState, p: Packet): (r: Outcome)
    requires InputOk(s, p)
    ensures |r.state.slots| == |s.slots| && r.state.mode == s.mode
  {
    if !HasLocal(s.slots, p.destination) then Outcome(OK, s)
    else
      match FindMatch(s.slots, p, 0)
      case Some(j) =>
        var r := ReceiveAll(s, j, PacketChunks(p));
        Outcome(ParsePacket(p).status + r.status, r.state)
      case None =>
        if s.mode != Host || s.slots[0].remote.id != UNDEFINED then Outcome(OK, s)
        else
          match FindFree(s.slots, 1)
          case None => Outcome({NoFreeSlots}, s)
          case Some(j) => Outcome(OK, s.(slots := s.slots[j := Assigned(s.slots[j], j, p)]))
  }

  predicate InputAllOk(s: PeerState, ps: seq<Packet>)
    decreases |ps|, 0
  {
    ps == [] || (InputAllOk(s, ps[..|ps| - 1]) && InputOk(InputAll(s, ps[..|ps| - 1]).state, ps[|ps| - 1]))
  }

  function InputAll(s: PeerState, ps: seq<Packet>): Outcome
    requires InputAllOk(s, ps)
    decreases |ps|, 1
  {
    if ps == [] then Outcome(OK, s)
    else
      var most := InputAll(s, ps[..|ps| - 1]);
      var last := InputPacket(most.state, ps[|ps| - 1]);
      Outcome(most.status + last.status, last.state)
  }

  // ---- The clock ----

  function Aged(slot: Slot, elapsed: int): Slot {
    if slot.clock > 0 then slot.(clock := slot.clock - elapsed) else slot
  }

  function AgedAll(slots: seq<Slot>, elapsed: int): (r: seq<Slot>)
    ensures |r| == |slots| && forall i :: 0 <= i < |slots| ==> r[i] == Aged(slots[i], elapsed)
  {
    seq(|slots|, i requires 0 <= i < |slots| => Aged(slots[i], elapsed))
  }

  function Advanced(s: PeerState, elapsed: int): PeerState {
    s.(timeLocal := s.timeLocal + elapsed, slots := AgedAll(s.slots, elapsed))
  }

  // ---- Host: merging ----

  /** Stamps everything from an index on with a time. */
  function Stamp(q: seq<Entry>, from: nat, time: int): (r: seq<Entry>)
    ensures |r| == |q|
    ensures forall k :: 0 <= k < |q| ==> r[k] == if k < from then q[k] else q[k].(time := time)
  {
    seq(|q|, k requires 0 <= k < |q| => if k < from then q[k] else q[k].(time := time))
  }

  /** Messages a..b of a slot as they enter the mutual queue. */
  function Taken(q: seq<Entry>, a: nat, b: nat, time: int, actor: int): (r: seq<Entry>)
    requires a <= b && (b <= |q| || a == b)
    ensures |r| == b - a
    ensures forall k :: 0 <= k < b - a ==> r[k] == Entry(true, time, actor, q[a + k].data)
  {
    seq(b - a, k requires 0 <= k < b - a => Entry(true, time, actor, q[a + k].data))
  }

  /** Moves slot i's next run of filled messages into the mutual queue. */
  function MergeSlot(s: PeerState, i: nat): (r: PeerState)
    requires i < |s.slots|
    ensures |r.slots| == |s.slots|
  {
    var slot := s.slots[i];
    var end := ReadyEnd(slot.queue, slot.inIndex);
    s.(queue := s.queue + Taken(slot.queue, slot.inIndex, end, s.time, slot.actor),
       slots := s.slots[i := slot.(inIndex := end)])
  }

  /** Slots 1 up to n merged. */
  function MergeTo(s: PeerState, n: nat): (r: PeerState)
    requires n <= |s.slots|
    ensures |r.slots| == |s.slots|
  {
    if n <= 1 then s else MergeSlot(MergeTo(s, n - 1), n - 1)
  }

  function Stamped(s: PeerState): PeerState {
    s.(time := s.timeLocal, queue := Stamp(s.queue, s.queueIndex, s.timeLocal))
  }

  /** The host once its clock has advanced: times synchronised, ready messages merged, everything processed. */
  function Merged(s: PeerState): (r: PeerState)
    ensures |r.slots| == |s.slots|
  {
    var m := MergeTo(Stamped(s), |s.slots|);
    m.(queueIndex := |m.queue|)
  }

  // ---- Host: sending ----

  function SessionResponse(time: int, slot: Slot): Message {
    Message(MESSAGE_MODE_SERVICE, UNDEFINED, time, slot.actor, [M_SESSION_RESPONSE] + slot.local.address)
  }

  function Heartbeat(time: int, actor: int): Message {
    Message(MESSAGE_MODE_SERVICE, UNDEFINED, time, actor, [M_HEARTBEAT])
  }

  function HeartbeatChunks(q: seq<Entry>, index: nat, time: int, actor: int, draws: Draws, slot: nat): seq<Chunk>
    requires QueueFits(q) && index <= |q|
  {
    [Encode(Heartbeat(time, actor))] + TrailChunks(q, index, draws, slot)
  }

  function ResponsePackets(source: int, time: int, slot: Slot): seq<Packet>
    requires |slot.local.address| <= ADDRESS_SIZE
  {
    var m := SessionResponse(time, slot);
    EncodeFramed(m);
    PackedPackets(source, slot.remote.id, [Encode(m)])
  }

  function HeartbeatPackets(local: int, remote: int, q: seq<Entry>, index: nat, time: int, actor: int, draws: Draws,
      slot: nat): seq<Packet>
    requires QueueFits(q) && index <= |q|
  {
    HeartbeatChunksFramed(q, index, time, actor, draws, slot);
    PackedPackets(local, remote, HeartbeatChunks(q, index, time, actor, draws, slot))
  }

  lemma HeartbeatChunksFramed(q: seq<Entry>, index: nat, time: int, actor: int, draws: Draws, slot: nat)
    requires QueueFits(q) && index <= |q|
    ensures AllFramed(HeartbeatChunks(q, index, time, actor, draws, slot))
  {
    EncodeFramed(Heartbeat(time, actor));
    SendIndicesInRange(q, index, draws, slot);
    ChunksFramed(q, TrailIndices(index, draws, slot));
  }

  datatype Sent = Sent(slot: Slot, packets: seq<Packet>)

  /** What a sender needs to stay inside its buffers: small payloads, an address that fits, a trail inside the queue. */
  predicate SlotSendable(q: seq<Entry>, slot: Slot) {
    QueueFits(q) && |slot.local.address| <= ADDRESS_SIZE && slot.outIndex <= |q|
  }

  /** What the host does for slot i on a tick. */
  function HostSend(s: PeerState, i: nat, draws: Draws): Sent
    requires 0 < i < |s.slots| && SlotSendable(s.queue, s.slots[i])
  {
    var slot := s.slots[i];
    match slot.state
    case Empty => Sent(slot, [])
    case SessionRequest =>
      Sent(slot.(clock := TIMEOUT_HEARTBEAT, state := Ready),
           ResponsePackets(s.slots[0].local.id, s.time, slot))
    case Ready =>
      if slot.outIndex < |s.queue| then
        Sent(slot.(clock := TIMEOUT_HEARTBEAT, outIndex := |s.queue|),
             QueuePackets(s.queue, slot.outIndex, slot.local.id, slot.remote.id, draws, i))
      else if slot.clock <= 0 then
        Sent(slot.(clock := TIMEOUT_HEARTBEAT),
             HeartbeatPackets(slot.local.id, slot.remote.id, s.queue, slot.outIndex, s.time, s.actor, draws, i))
      else Sent(slot, [])
  }

  predicate HostSendable(s: PeerState) {
    forall i :: 0 < i < |s.slots| ==> SlotSendable(s.queue, s.slots[i])
  }

  function SentSlots(s: PeerState, n: nat, draws: Draws): (r: seq<Slot>)
    requires HostSendable(s) && n <= |s.slots|
    ensures |r| == |s.slots|
    ensures forall i :: 0 <= i < |s.slots| ==> r[i] == if 0 < i < n then HostSend(s, i, draws).slot else s.slots[i]
  {
    seq(|s.slots|, i requires 0 <= i < |s.slots| => if 0 < i < n then HostSend(s, i, draws).slot else s.slots[i])
  }

  /** The packets for slots 1 up to n, in slot order. */
  function SentPackets(s: PeerState, n: nat, draws: Draws): seq<Packet>
    requires HostSendable(s) && n <= |s.slots|
  {
    if n <= 1 then [] else SentPackets(s, n - 1, draws) + HostSend(s, n - 1, draws).packets
  }

  // ---- Client: sending ----

  predicate ClientBeats(slot: Slot) {
    slot.outIndex >= |slot.queue| && slot.clock <= 0
  }

  predicate ClientSendable(s: PeerState, slot: Slot) {
    && QueueFits(slot.queue)
    && QueueFits(s.queue)
    && (ClientBeats(slot) ==> slot.outIndex <= |s.queue|)
  }

  /** What a client does on a tick. Its heartbeat takes the trail from the mutual queue, at the index of its
      outgoing one. */
  function ClientSend(s: PeerState, draws: Draws): Sent
    requires |s.slots| > 0 && ClientSendable(s, s.slots[0])
  {
    var slot := s.slots[0];
    if slot.outIndex < |slot.queue| then
      Sent(slot.(outIndex := |slot.queue|),
           QueuePackets(slot.queue, slot.outIndex, slot.local.id, slot.remote.id, draws, 0))
    else if slot.clock <= 0 then
      Sent(slot.(clock := TIMEOUT_HEARTBEAT),
           HeartbeatPackets(slot.local.id, slot.remote.id, s.queue, slot.outIndex, 0, s.actor, draws, 0))
    else Sent(slot, [])
  }

  // ---- Ticks ----

  datatype Ticked = Ticked(status: Status, state: PeerState, packets: seq<Packet>)

  predicate TickAccepted(s: PeerState, elapsed: int) {
    elapsed >= 0 && s.timeLocal <= INT64_MAX - elapsed
  }

  /** What the source asserts of a peer while it ticks. */
  predicate TickOk(s: PeerState, elapsed: int) {
    TickAccepted(s, elapsed) ==>
      var a := Advanced(s, elapsed);
      if s.mode == Host then HostSendable(Merged(a))
      else |s.slots| > 0 ==> ClientSendable(a, a.slots[0])
  }

  function HostTick(a: PeerState, draws: Draws): Ticked
    requires HostSendable(Merged(a))
  {
    var m := Merged(a);
    Ticked(OK, m.(slots := SentSlots(m, |m.slots|, draws)), SentPackets(m, |m.slots|, draws))
  }

  function ClientTick(a: PeerState, draws: Draws): Ticked
    requires |a.slots| > 0 ==> ClientSendable(a, a.slots[0])
  {
    if |a.slots| == 0 then Ticked(OK, a, [])
    else
      var sent := ClientSend(a, draws);
      Ticked(OK, a.(slots := a.slots[0 := sent.slot]), sent.packets)
  }

  function Tick(s: PeerState, elapsed: int, draws: Draws): Ticked
    requires TickOk(s, elapsed)
  {
    if elapsed < 0 then Ticked({InvalidTimeElapsed}, s, [])
    else if s.timeLocal > INT64_MAX - elapsed then Ticked({TimeOverflow}, s, [])
    else
      var a := Advanced(s, elapsed);
      if s.mode == Host then HostTick(a, draws) else ClientTick(a, draws)
  }

  /** A tick goes through exactly when time does not run backwards or over; a rejected one changes nothing
      and sends nothing. */
  lemma RejectedTick(s: PeerState, elapsed: int, draws: Draws)
    requires TickOk(s, elapsed)
    ensures var r := Tick(s, elapsed, draws);
            && (r.status == OK <==> TickAccepted(s, elapsed))
            && (r.status != OK ==> r == Ticked(if elapsed < 0 then {InvalidTimeElapsed} else {TimeOverflow}, s, []))
  {
  }
}
