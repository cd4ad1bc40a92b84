/** One host, any number of clients, and a network that may lose, repeat and reorder packets: it is
    the set of packets ever sent, and any of them may be delivered at any time. */
module Network {
  import opened Options
  import opened Serial
  import opened Packets
  import opened Queues
  import opened Trails
  import opened PeerStates
  import opened HostRuns
  import opened HostGrowth

  datatype System = System(trace: HostTrace, clients: seq<PeerState>, net: set<Packet>) {
    function Host(): PeerState {
      trace.host
    }
  }

  datatype Step =
    | HostQueue(data: seq<byte>)
    | HostInput(p: Packet)
    | HostTick(elapsed: int, draws: Draws)
    | ClientConnect(c: nat)
    | ClientQueue(c: nat, data: seq<byte>)
    | ClientInput(c: nat, p: Packet)
    | ClientTick(c: nat, elapsed: int, draws: Draws)
    // The application finds the endpoint behind the address a client was told.
    | Resolve(c: nat, j: nat)
    // Some third party sends the host, or anyone, a well-formed packet.
    | Inject(p: Packet)

  // ---- Endpoints ----

  predicate IsHostId(h: PeerState, id: int) {
    HasLocal(h.slots, id)
  }

  function Local(c: PeerState): Endpoint
    requires |c.slots| > 0
  {
    c.slots[0].local
  }

  function Remote(c: PeerState): Endpoint
    requires |c.slots| > 0
  {
    c.slots[0].remote
  }

  predicate HostEndpointsOk(h: PeerState) {
    && |h.slots| > 0
    && (forall i :: 0 <= i < |h.slots| ==> h.slots[i].local.id != UNDEFINED)
    && (forall i, j :: 0 <= i < j < |h.slots| ==> h.slots[i].local.id != h.slots[j].local.id)
    && (forall i, j :: 0 <= i < j < |h.slots| && h.slots[i].local.address != [] ==>
          h.slots[i].local.address != h.slots[j].local.address)
  }

  predicate ClientEndpointsOk(h: PeerState, clients: seq<PeerState>) {
    && (forall c :: 0 <= c < |clients| ==>
          |clients[c].slots| == 1 && Local(clients[c]).id != UNDEFINED && !IsHostId(h, Local(clients[c]).id))
    && (forall c, d :: 0 <= c < d < |clients| ==> Local(clients[c]).id != Local(clients[d]).id)
  }

  // ---- Start and steps ----

  predicate Start(s: System) {
    && HostStart(s.trace)
    && HostEndpointsOk(s.Host())
    && (forall c :: 0 <= c < |s.clients| ==>
          |s.clients[c].slots| == 1 && s.clients[c] == OpenedSlots(NewPeer(Client), [Local(s.clients[c]).id]))
    && ClientEndpointsOk(s.Host(), s.clients)
    && s.net == {}
  }

  function PacketSet(ps: seq<Packet>): set<Packet> {
    set p | p in ps
  }

  ghost predicate Allowed(s: System, step: Step) {
    match step
    case HostQueue(data) => |data| <= MAX_MESSAGE_SIZE
    case HostInput(p) => p in s.net && InputOk(s.Host(), p)
    case HostTick(elapsed, draws) =>
      TickOk(s.Host(), elapsed) && |PeerStates.Tick(s.Host(), elapsed, draws).state.queue| <= INT64_MAX
    case ClientConnect(c) => c < |s.clients|
    case ClientQueue(c, data) => c < |s.clients| && |data| <= MAX_MESSAGE_SIZE
    case ClientInput(c, p) => c < |s.clients| && p in s.net && InputOk(s.clients[c], p)
    case ClientTick(c, elapsed, draws) =>
      && c < |s.clients| && TickOk(s.clients[c], elapsed)
      && |s.clients[c].slots| > 0 && |s.clients[c].slots[0].queue| <= INT64_MAX
    case Resolve(c, j) =>
      && c < |s.clients| && |s.clients[c].slots| > 0 && 0 < j < |s.Host().slots|
      && !Remote(s.clients[c]).resolved && Remote(s.clients[c]).address != []
      && Remote(s.clients[c]).address == s.Host().slots[j].local.address
    case Inject(p) => p.source != UNDEFINED && !IsHostId(s.Host(), p.source) && Headed(PacketChunks(p))
  }

  function Resolved(c: PeerState, id: int): PeerState
    requires |c.slots| > 0
  {
    c.(slots := c.slots[0 := c.slots[0].(remote := Remote(c).(id := id, resolved := true))])
  }

  lemma InvShape(s: System)
    requires Inv(s)
    ensures s.Host().mode == Host && |s.trace.quiet| == |s.Host().slots| > 0
  {
  }

  lemma SentHasSource(s: System, p: Packet)
    requires Inv(s) && p in s.net
    ensures p.source != UNDEFINED
  {
  }

  ghost function Next(s: System, step: Step): System
    requires Inv(s) && Allowed(s, step)
  {
    hide Inv, InputOk, InputPacket, TickOk, PeerStates.Tick, Enqueued, Connected;
    InvShape(s);
    match step
    case HostQueue(data) => s.(trace := HostNext(s.trace, Enqueue(data)))
    case HostInput(p) =>
      SentHasSource(s, p);
      s.(trace := HostNext(s.trace, Accept(p)))
    case HostTick(elapsed, draws) =>
      s.(trace := HostNext(s.trace, Elapse(elapsed, draws)),
         net := s.net + PacketSet(PeerStates.Tick(s.Host(), elapsed, draws).packets))
    case ClientConnect(c) =>
      s.(clients := s.clients[c := Connected(s.clients[c], s.Host().slots[0].local.id).state])
    case ClientQueue(c, data) => s.(clients := s.clients[c := Enqueued(s.clients[c], Some(data)).state])
    case ClientInput(c, p) => s.(clients := s.clients[c := InputPacket(s.clients[c], p).state])
    case ClientTick(c, elapsed, draws) =>
      var t := PeerStates.Tick(s.clients[c], elapsed, draws);
      s.(clients := s.clients[c := t.state], net := s.net + PacketSet(t.packets))
    case Resolve(c, j) => s.(clients := s.clients[c := Resolved(s.clients[c], s.Host().slots[j].local.id)])
    case Inject(p) => s.(net := s.net + {p})
  }

  // ---- The invariant ----

  /** A session response for whoever listens at `destination`: it names the slot bound to that endpoint. */
  predicate GoodResponse(h: PeerState, destination: int, m: Message) {
    && m.mode == MESSAGE_MODE_SERVICE
    && destination != UNDEFINED
    && 0 < m.actor < |h.slots|
    && h.slots[m.actor].remote.id == destination
    && h.slots[m.actor].local.address != []
    && |h.slots[m.actor].local.address| <= ADDRESS_SIZE
    && m.data == [M_SESSION_RESPONSE] + h.slots[m.actor].local.address
  }

  /** A heartbeat, or a published entry of the log under its own index. */
  predicate GoodUpdate(h: PeerState, m: Message) {
    || (m.mode == MESSAGE_MODE_SERVICE && m.data == [M_HEARTBEAT])
    || (&& m.mode == MESSAGE_MODE_APPLICATION
        && 0 <= m.index < h.queueIndex <= |h.queue|
        && h.queue[m.index] == Entry(true, m.time, m.actor, m.data))
  }

  /** What the host may ever have sent from slot j. */
  predicate GoodMessage(h: PeerState, j: nat, destination: int, m: Message) {
    && 0 <= m.time <= h.time
    && 0 <= Actor32(m) == m.actor
    && if j == 0 then GoodResponse(h, destination, m) else GoodUpdate(h, m)
  }

  predicate GoodChunks(h: PeerState, j: nat, destination: int, chunks: seq<Chunk>) {
    Headed(chunks) && forall i :: 0 <= i < |chunks| ==> GoodMessage(h, j, destination, ReadMessage(chunks[i]))
  }

  predicate PacketOk(h: PeerState, p: Packet) {
    && p.source != UNDEFINED
    && Headed(PacketChunks(p))
    && forall j :: 0 <= j < |h.slots| && h.slots[j].local.id == p.source ==>
         ParsePacket(p).status == OK && GoodChunks(h, j, p.destination, PacketChunks(p))
  }

  /** Every filled entry of a client's mutual queue is the host's published entry at that index. */
  predicate MutualOk(h: PeerState, q: seq<Entry>, time: int) {
    && |q| <= h.queueIndex <= |h.queue|
    && forall k :: 0 <= k < |q| ==> if q[k].ready then q[k] == h.queue[k] && q[k].time <= time else q[k] == GAP
  }

  /** The outgoing queue has no gaps and carries the client's present actor. */
  predicate OutboxOk(slot: Slot, actor: int) {
    && slot.outIndex <= |slot.queue|
    && forall k :: 0 <= k < |slot.queue| ==>
         slot.queue[k] == Entry(true, 0, actor, slot.queue[k].data) && |slot.queue[k].data| <= MAX_MESSAGE_SIZE
  }

  /** An adopted actor is the number of the slot the host bound to this client, and so is an adopted address. */
  predicate SessionOk(h: PeerState, c: PeerState)
    requires |c.slots| == 1 && |h.slots| > 0
  {
    && (c.actor == UNDEFINED || (0 < c.actor < |h.slots| && h.slots[c.actor].remote.id == Local(c).id))
    && (!Remote(c).resolved && Remote(c).address != [] ==>
          c.actor != UNDEFINED && Remote(c).address == h.slots[c.actor].local.address)
    && (Remote(c).id == UNDEFINED ==> Remote(c).address == [])
    && (Remote(c).id != UNDEFINED ==>
          || Remote(c).id == h.slots[0].local.id
          || (c.actor != UNDEFINED && Remote(c).resolved && Remote(c).id == h.slots[c.actor].local.id))
  }

  predicate ClientOk(h: PeerState, c: PeerState) {
    && c.mode == Client && |c.slots| == 1 && |h.slots| > 0
    && 0 <= c.time <= h.time
    && MutualOk(h, c.queue, c.time)
    && OutboxOk(c.slots[0], c.actor)
    && SessionOk(h, c)
  }

  ghost predicate Inv(s: System) {
    && HostInv(s.trace)
    && HostEndpointsOk(s.Host())
    && ClientEndpointsOk(s.Host(), s.clients)
    && (forall p :: p in s.net ==> PacketOk(s.Host(), p))
    && (forall c :: 0 <= c < |s.clients| ==> ClientOk(s.Host(), s.clients[c]))
  }

  lemma StartInvariant(s: System)
    requires Start(s)
    ensures Inv(s)
  {
    StartInv(s.trace);
  }

  // ---- Growth of the host keeps what others know true ----

  lemma GoodStays(h: PeerState, g: PeerState, j: nat, destination: int, m: Message)
    requires Grows(h, g) && GoodMessage(h, j, destination, m)
    ensures GoodMessage(g, j, destination, m)
  {
    if j == 0 {
      assert SlotGrows(h.slots[m.actor], g.slots[m.actor]);
    } else if m.mode == MESSAGE_MODE_APPLICATION {
      assert Published(h)[m.index] == Published(g)[m.index];
    }
  }

  lemma PacketStays(h: PeerState, g: PeerState, p: Packet)
    requires Grows(h, g) && PacketOk(h, p)
    ensures PacketOk(g, p)
  {
    forall j, i | 0 <= j < |g.slots| && g.slots[j].local.id == p.source && 0 <= i < |PacketChunks(p)|
      ensures GoodMessage(g, j, p.destination, ReadMessage(PacketChunks(p)[i]))
    {
      assert SlotGrows(h.slots[j], g.slots[j]);
      GoodStays(h, g, j, p.destination, ReadMessage(PacketChunks(p)[i]));
    }
  }

  lemma MutualStays(h: PeerState, g: PeerState, q: seq<Entry>, time: int)
    requires Grows(h, g) && MutualOk(h, q, time)
    ensures MutualOk(g, q, time)
  {
    forall k | 0 <= k < |q| ensures h.queue[k] == g.queue[k] {
      assert Published(h)[k] == Published(g)[k];
    }
    assert |Published(h)| <= |Published(g)|;
  }

  lemma ClientStays(h: PeerState, g: PeerState, c: PeerState)
    requires Grows(h, g) && ClientOk(h, c) && Local(c).id != UNDEFINED
    ensures ClientOk(g, c)
  {
    MutualStays(h, g, c.queue, c.time);
    assert SlotGrows(h.slots[0], g.slots[0]);
    if c.actor != UNDEFINED {
      assert SlotGrows(h.slots[c.actor], g.slots[c.actor]);
    }
  }

  lemma EndpointsStay(h: PeerState, g: PeerState, clients: seq<PeerState>)
    requires Grows(h, g) && HostEndpointsOk(h) && ClientEndpointsOk(h, clients)
    ensures HostEndpointsOk(g) && ClientEndpointsOk(g, clients)
  {
    forall i | 0 <= i < |h.slots| ensures g.slots[i].local == h.slots[i].local {
      assert SlotGrows(h.slots[i], g.slots[i]);
    }
  }

  /** A host step whose packets are good keeps the invariant. */
  lemma HostMoves(s: System, trace: HostTrace, sent: set<Packet>)
    requires Inv(s) && HostInv(trace) && Grows(s.Host(), trace.host)
    requires forall p :: p in sent ==> PacketOk(trace.host, p)
    ensures Inv(s.(trace := trace, net := s.net + sent))
  {
    hide HostInv, Grows, HostEndpointsOk, ClientEndpointsOk, PacketOk, ClientOk;
    EndpointsStay(s.Host(), trace.host, s.clients);
    forall p | p in s.net ensures PacketOk(trace.host, p) {
      PacketStays(s.Host(), trace.host, p);
    }
    forall c | 0 <= c < |s.clients| ensures ClientOk(trace.host, s.clients[c]) {
      ClientIdDefined(s, c);
      ClientStays(s.Host(), trace.host, s.clients[c]);
    }
  }

  lemma ClientIdDefined(s: System, c: nat)
    requires Inv(s) && c < |s.clients|
    ensures |s.clients[c].slots| == 1 && Local(s.clients[c]).id != UNDEFINED
    ensures !IsHostId(s.Host(), Local(s.clients[c]).id)
    ensures ClientOk(s.Host(), s.clients[c])
  {
  }

  /** A client step that keeps that client right, and whose packets are its own, keeps the invariant. */
  lemma ClientMoves(s: System, c: nat, next: PeerState, sent: set<Packet>)
    requires Inv(s) && c < |s.clients| && ClientOk(s.Host(), next) && Local(next) == Local(s.clients[c])
    requires forall p :: p in sent ==> p.source == Local(next).id && Headed(PacketChunks(p))
    ensures Inv(s.(clients := s.clients[c := next], net := s.net + sent))
  {
    hide HostInv, HostEndpointsOk, MutualOk, OutboxOk, SessionOk;
    ClientIdDefined(s, c);
    forall p | p in sent ensures PacketOk(s.Host(), p) {
    }
  }
}
