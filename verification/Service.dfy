/** What service messages achieve: a session response makes a client of the host's slot, a heartbeat brings the
    time, and nobody who keeps to the protocol is answered with an error. */
module Services {
  import opened Options
  import opened Serial
  import opened Packets
  import opened Queues
  import opened Trails
  import opened PeerStates
  import opened HostRuns
  import opened HostGrowth
  import opened Network
  import opened Agreement
  import opened Answers
  import opened Carriage
  import opened CatchUp
  import opened ClientTicks
  import opened Fifo
  import opened Heartbeats
  import opened Letters
  import opened MergeOrders
  import opened MisleadingBeats
  import opened Runs
  import opened Uploads

  // ---- Clients refuse nothing ----

  lemma GoodAccepted(h: PeerState, c: PeerState, j: nat, destination: int, m: Message)
    requires |c.slots| == 1 && GoodMessage(h, j, destination, m)
    ensures ClientReceive(c, 0, m).status == {}
  {
    hide Insert, Restamp;
    assert m.mode != MESSAGE_MODE_SERVICE ==> Insert(c.queue, m.index, m.time, Actor32(m), m.data).status == {} by {
      InsertAccepted(c.queue, m);
    }
  }

  lemma InsertAccepted(q: seq<Entry>, m: Message)
    ensures m.index >= 0 ==> Insert(q, m.index, m.time, Actor32(m), m.data).status == {}
  {
  }

  /** A packet ever sent is taken in by a client without an error. */
  lemma ClientAccepts(h: PeerState, c: PeerState, p: Packet)
    requires ClientOk(h, c) && PacketOk(h, p)
    ensures InputOk(c, p) && InputPacket(c, p).status == {}
  {
    ClientMode(h, c);
    DeliveryNeverBlocked(h, c, p);
    if FindMatch(c.slots, p, 0).Some? {
      var j := MatchIsHost(h, c, p);
      assert GoodChunks(h, j, p.destination, PacketChunks(p)) && ParsePacket(p).status == OK;
      hide ClientOk, PacketOk, GoodMessage, ReadMessage, ClientReceive, ParsePacket, InputPacket, ReceiveAll, InputOk;
      assert Headed(PacketChunks(p));
      forall i | 0 <= i < |PacketChunks(p)| ensures Receive(c, 0, ReadMessage(PacketChunks(p)[i])).status == {} {
        GoodAccepted(h, c, j, p.destination, ReadMessage(PacketChunks(p)[i]));
      }
      forall e ensures e !in InputPacket(c, p).status {
        PacketAnswer(c, p, 0, e);
      }
    } else {
      hide ClientOk, PacketOk;
      StrangerAnswer(c, p);
    }
  }

  /** In every run, delivering any packet ever sent to any client raises no error. */
  lemma ClientsRefuseNothing(s: System, steps: seq<Step>, c: nat, p: Packet)
    requires Run(s, steps) && p in After(s, steps).net && c < |After(s, steps).clients|
    ensures InputOk(After(s, steps).clients[c], p)
    ensures InputPacket(After(s, steps).clients[c], p).status == {}
  {
    hide Run, After;
    var now := After(s, steps);
    SentDefined(now, p);
    ClientIdDefined(now, c);
    hide Inv, ClientOk, PacketOk, InputPacket, InputOk;
    ClientAccepts(now.Host(), now.clients[c], p);
  }

  // ---- A message brings its time ----

  lemma ClientTimes(c: PeerState, m: Message)
    requires |c.slots| == 1
    ensures var r := ClientReceive(c, 0, m).state;
            && r.mode == c.mode && |r.slots| == 1 && Local(r) == Local(c) && Remote(r).id == Remote(c).id
            && c.time <= r.time && m.time <= r.time
  {
  }

  lemma {:induction false} ReceiveAllTimes(c: PeerState, chunks: seq<Chunk>)
    requires c.mode == Client && |c.slots| == 1 && Headed(chunks)
    ensures var r := ReceiveAll(c, 0, chunks).state;
            && |r.slots| == 1 && Local(r) == Local(c) && Remote(r).id == Remote(c).id && c.time <= r.time
            && forall i :: 0 <= i < |chunks| ==> ReadMessage(chunks[i]).time <= r.time
  {
    if chunks != [] {
      hide ReadMessage, ClientReceive;
      var most, m := chunks[..|chunks| - 1], ReadMessage(chunks[|chunks| - 1]);
      ReceiveAllTimes(c, most);
      ClientTimes(ReceiveAll(c, 0, most).state, m);
    }
  }

  lemma InputTimes(c: PeerState, p: Packet)
    requires c.mode == Client && |c.slots| == 1 && InputOk(c, p)
    ensures var r := InputPacket(c, p).state;
            && r.mode == Client && |r.slots| == 1 && Local(r) == Local(c) && Remote(r).id == Remote(c).id
            && c.time <= r.time
            && forall m :: ForClient(c, p) && Carries(p, m) ==> m.time <= r.time
  {
    hide PacketChunks, ReadMessage, ReceiveAll;
    assert ForClient(c, p) ==> HasLocal(c.slots, p.destination) && FindMatch(c.slots, p, 0) == Some(0);
    if HasLocal(c.slots, p.destination) && FindMatch(c.slots, p, 0).Some? {
      ReceiveAllTimes(c, PacketChunks(p));
    }
  }

  /** Whatever order they arrive in, the client's time ends no earlier than any message for it says. */
  lemma {:induction false} InputAllTimes(c: PeerState, ps: seq<Packet>, p: Packet, m: Message)
    requires c.mode == Client && |c.slots| == 1 && InputAllOk(c, ps)
    ensures var r := InputAll(c, ps).state;
            && r.mode == Client && |r.slots| == 1 && Local(r) == Local(c) && Remote(r).id == Remote(c).id
            && (p in ps && ForClient(c, p) && Carries(p, m) ==> m.time <= r.time)
  {
    if ps != [] {
      var most, last := ps[..|ps| - 1], ps[|ps| - 1];
      hide InputPacket, InputOk, Carries, Local, Remote;
      InputAllTimes(c, most, p, m);
      var mid := InputAll(c, most).state;
      InputTimes(mid, last);
      assert p in ps ==> p in most || p == last;
      assert ForClient(c, p) ==> ForClient(mid, p);
    }
  }

  // ---- The host's heartbeat ----

  /** The tick has something of this very moment for slot j: a heartbeat, or an entry it published. */
  predicate Timely(h: PeerState, g: PeerState, j: nat)
    requires j < |h.slots|
  {
    h.slots[j].outIndex == |g.queue| || h.queueIndex < |g.queue|
  }

  /** Some message among the packets for the slot says the host's time. */
  lemma SlotPacketsTimely(s: System, c: nat, j: nat, elapsed: int, draws: Draws) returns (p: Packet, m: Message)
    requires Inv(s) && Allowed(s, HostTick(elapsed, draws)) && SentTo(s, c, j, elapsed, draws)
    requires Timely(s.Host(), PeerStates.Tick(s.Host(), elapsed, draws).state, j)
    ensures p in SlotPackets(s.Host(), j, elapsed, draws) && Carries(p, m)
    ensures m.time == PeerStates.Tick(s.Host(), elapsed, draws).state.time
  {
    InvHost(s);
    var g := PeerStates.Tick(s.Host(), elapsed, draws).state;
    assert TickAccepted(s.Host(), elapsed) && TickOk(s.Host(), elapsed) && |g.queue| <= INT64_MAX;
    assert s.Host().slots[j].state == Ready && SlotPackets(s.Host(), j, elapsed, draws) != [];
    TickCarriesSent(s, c, j, elapsed, draws);
    hide Inv, Allowed, SentTo, HostInv, HostEndpointsOk, PeerStates.Tick, SlotPackets, CarrySent, Carries, TickOk;
    var index := s.Host().slots[j].outIndex;
    if index < |g.queue| {
      TickOrder(s.trace, elapsed, draws);
      p := CarriedOne(SlotPackets(s.Host(), j, elapsed, draws), g.queue, index, draws, j, |g.queue| - 1);
      m := MessageAt(g.queue, |g.queue| - 1);
    } else {
      p, m := BeatTimely(s.trace, elapsed, draws, j);
    }
  }

  lemma BeatTimely(t: HostTrace, elapsed: nat, draws: Draws, j: nat) returns (p: Packet, m: Message)
    requires HostInv(t) && HostEndpointsOk(t.host) && TickAccepted(t.host, elapsed) && TickOk(t.host, elapsed)
    requires |PeerStates.Tick(t.host, elapsed, draws).state.queue| <= INT64_MAX
    requires 0 < j < |t.host.slots| && t.host.slots[j].state == Ready
    requires HostSendable(Merged(Advanced(t.host, elapsed)))
    requires SlotPackets(t.host, j, elapsed, draws) != []
    requires t.host.slots[j].outIndex >= |PeerStates.Tick(t.host, elapsed, draws).state.queue|
    ensures p in SlotPackets(t.host, j, elapsed, draws) && Carries(p, m)
    ensures m.time == PeerStates.Tick(t.host, elapsed, draws).state.time
  {
    hide HostInv, HostEndpointsOk, Merged, HostSend, Publishing, Carries, SendableBelow, Sendable, TickOk;
    TickPublishes(t, elapsed, draws);
    TickedState(t, elapsed, draws);
    MergedSettles(t, elapsed, j);
    LogSendable(PeerStates.Tick(t.host, elapsed, draws).state);
    p, m := HeartbeatSaysTime(Merged(Advanced(t.host, elapsed)), j, draws);
  }

  lemma CarriedOne(ps: seq<Packet>, log: seq<Entry>, index: nat, draws: Draws, slot: nat, k: nat) returns (p: Packet)
    requires CarrySent(ps, log, index, draws, slot) && k < |log| && IsSent(index, draws, slot, k)
    ensures p in ps && Carries(p, MessageAt(log, k))
  {
    hide Carries, IsSent;
    assert Among(ps, MessageAt(log, k));
    p :| p in ps && Carries(p, MessageAt(log, k));
  }

  lemma HeartbeatSaysTime(m: PeerState, j: nat, draws: Draws) returns (p: Packet, say: Message)
    requires 0 < j < |m.slots| && SlotSendable(m.queue, m.slots[j]) && m.slots[j].state == Ready
    requires m.slots[j].outIndex == |m.queue| && HostSend(m, j, draws).packets != []
    requires SendableBelow(m.queue, |m.queue|) && Sendable(Heartbeat(m.time, m.actor))
    ensures p in HostSend(m, j, draws).packets && Carries(p, say) && say.time == m.time
  {
    var slot := m.slots[j];
    hide HeartbeatPackets, Carries, CarryExactly, Sendable, SendableBelow, TrailIndices;
    HeartbeatPacketsCarry(slot.local.id, slot.remote.id, m.queue, slot.outIndex, m.time, m.actor, draws, j);
    say := Heartbeat(m.time, m.actor);
    p := FirstCarried(HostSend(m, j, draws).packets, say, MessagesAt(m.queue, TrailIndices(slot.outIndex, draws, j)));
  }

  lemma FirstCarried(ps: seq<Packet>, first: Message, rest: seq<Message>) returns (p: Packet)
    requires CarryExactly(ps, [first] + rest)
    ensures p in ps && Carries(p, first)
  {
    hide Carries;
    assert first in [first] + rest;
    assert Among(ps, first);
    p :| p in ps && Carries(p, first);
  }

  /** After a tick with something timely for its slot, a client that gets the slot's packets, in any order among any
      others ever sent, has exactly the host's time. */
  lemma HostTimeArrives(s: System, c: nat, j: nat, elapsed: int, draws: Draws, order: seq<Packet>)
    requires Inv(s) && Allowed(s, HostTick(elapsed, draws)) && SentTo(s, c, j, elapsed, draws)
    requires Timely(s.Host(), PeerStates.Tick(s.Host(), elapsed, draws).state, j)
    requires forall p :: p in order ==> p in Next(s, HostTick(elapsed, draws)).net
    requires forall p :: p in SlotPackets(s.Host(), j, elapsed, draws) ==> p in order
    ensures InputAllOk(s.clients[c], order)
    ensures InputAll(s.clients[c], order).state.time == PeerStates.Tick(s.Host(), elapsed, draws).state.time
  {
    hide *;
    SentToClient(s, c, j, elapsed, draws);
    var next, client := Next(s, HostTick(elapsed, draws)), s.clients[c];
    SystemStepKeeps(s, HostTick(elapsed, draws));
    TickCarriesSent(s, c, j, elapsed, draws);
    NextHost(s, elapsed, draws);
    var p, m := SlotPacketsTimely(s, c, j, elapsed, draws);
    DeliveryAllowed(next, c, order);
    InputAllTimes(client, order, p, m);
    TimeBounded(next.Host(), InputAll(client, order).state);
  }

  lemma SentToClient(s: System, c: nat, j: nat, elapsed: int, draws: Draws)
    requires Inv(s) && SentTo(s, c, j, elapsed, draws)
    ensures c < |s.clients| && s.clients[c].mode == Client && |s.clients[c].slots| == 1
    ensures ClientOk(s.Host(), s.clients[c])
  {
    hide Inv, SlotPackets;
    ClientIdDefined(s, c);
    ClientMode(s.Host(), s.clients[c]);
  }

  lemma TimeBounded(h: PeerState, c: PeerState)
    requires ClientOk(h, c)
    ensures c.time <= h.time
  {
  }

  // ---- The session response ----

  /** Slot j has been requested by client c, who listens to slot 0. */
  ghost predicate Requested(s: System, c: nat, j: nat) {
    && c < |s.clients| && |s.clients[c].slots| == 1 && 0 < j < |s.Host().slots|
    && s.Host().slots[j].state == SessionRequest
    && s.Host().slots[j].remote.id == Local(s.clients[c]).id
    && Remote(s.clients[c]).id == s.Host().slots[0].local.id
  }

  /** The host's next tick answers such a request with one packet. With it the client becomes the slot's actor, under
      which all it has queued goes, knows the slot's address, which it has yet to resolve, and has the host's time. */
  lemma Handshake(s: System, c: nat, j: nat, elapsed: int, draws: Draws) returns (p: Packet)
    requires Inv(s) && Allowed(s, HostTick(elapsed, draws)) && TickAccepted(s.Host(), elapsed) && Requested(s, c, j)
    requires HostSendable(Merged(Advanced(s.Host(), elapsed)))
    ensures SlotPackets(s.Host(), j, elapsed, draws) == [p]
    ensures InputOk(s.clients[c], p)
    ensures var r := InputPacket(s.clients[c], p); var client := r.state;
            var g := PeerStates.Tick(s.Host(), elapsed, draws).state;
            && r.status == {}
            && client.actor == j && client.time == g.time && |client.slots| == 1
            && Remote(client).address == s.Host().slots[j].local.address != [] && !Remote(client).resolved
            && Payloads(client.slots[0].queue) == Payloads(s.clients[c].slots[0].queue)
            && (forall k :: 0 <= k < |client.slots[0].queue| ==> client.slots[0].queue[k].actor == j)
            && g.slots[j].state == Ready
  {
    hide *;
    RequestedClient(s, c, j, elapsed, draws);
    var client, h, m := s.clients[c], s.Host(), Merged(Advanced(s.Host(), elapsed));
    RequestedSlot(s.trace, elapsed, draws, j);
    var say := Message(0, -1, m.time, j, [5] + h.slots[j].local.address);
    var source := h.slots[0].local.id;
    One(source, Local(client).id, say);
    p := Sealed(source, Local(client).id, [Encode(say)]);
    SlotPacketsAre(h, j, elapsed, draws);
    Adopted(client, p, say, source);
  }

  lemma SlotPacketsAre(h: PeerState, j: nat, elapsed: int, draws: Draws)
    requires HostSendable(Merged(Advanced(h, elapsed))) && 0 < j < |h.slots|
    ensures SlotPackets(h, j, elapsed, draws) == HostSend(Merged(Advanced(h, elapsed)), j, draws).packets
  {
  }

  /** Everything about the state that the handshake uses. */
  lemma RequestedClient(s: System, c: nat, j: nat, elapsed: int, draws: Draws)
    requires Inv(s) && Allowed(s, HostTick(elapsed, draws)) && Requested(s, c, j)
    requires TickAccepted(s.Host(), elapsed)
    ensures s.Host() == s.trace.host && elapsed >= 0
    ensures c < |s.clients| && |s.clients[c].slots| == 1 && s.clients[c].mode == Client
    ensures HostInv(s.trace) && TickOk(s.Host(), elapsed) && 0 < j < |s.Host().slots|
    ensures s.Host().slots[j].state == SessionRequest && s.Host().slots[j].remote.id == Local(s.clients[c]).id
    ensures Remote(s.clients[c]).id == s.Host().slots[0].local.id && s.clients[c].time <= s.Host().time
  {
    hide Inv, HostInv, HostEndpointsOk, ClientOk, TickOk, PeerStates.Tick;
    InvHost(s);
    ClientIdDefined(s, c);
    ClientMode(s.Host(), s.clients[c]);
    TimeBounded(s.Host(), s.clients[c]);
  }

  /** What such an answer does to the client it is for. */
  lemma Adopted(c: PeerState, p: Packet, say: Message, source: int)
    requires c.mode == Client && |c.slots| == 1 && Remote(c).id == source && Sendable(say)
    requires 1 <= |say.data| <= ADDRESS_SIZE + 1 && c.time <= say.time && 0 <= say.actor < TWO_32
    requires say == Message(0, -1, say.time, say.actor, [5] + say.data[1..])
    requires p in PackedPackets(source, Local(c).id, [Encode(say)])
    ensures InputOk(c, p)
    ensures var r := InputPacket(c, p); var client := r.state;
            && r.status == {}
            && client.actor == say.actor && client.time == say.time && |client.slots| == 1
            && Remote(client).address == say.data[1..] && !Remote(client).resolved
            && Payloads(client.slots[0].queue) == Payloads(c.slots[0].queue)
            && forall k :: 0 <= k < |client.slots[0].queue| ==> client.slots[0].queue[k].actor == say.actor
  {
    AddressedAs(source, Local(c).id, say, p);
    assert Matches(c.slots[0], p);
    assert c.slots[0].local.id == p.destination;
    assert HasLocal(c.slots, p.destination) && FindMatch(c.slots, p, 0) == Some(0);
    hide PackedPackets, Encode, Sendable, InputPacket, InputOk, ClientReceive, HasLocal, FindMatch;
    InputsOne(c, 0, p, say);
    ClientServed(c, 0, say);
    ClientRefusals(c, 0, say);
    assert ClientReceive(c, 0, say).status == {};
    SmallActor(say.actor);
  }

  lemma SmallActor(actor: nat)
    ensures actor < TWO_32 ==> actor % 0x1_0000_0000 == actor
  {
  }

  lemma RequestedSlot(t: HostTrace, elapsed: nat, draws: Draws, j: nat)
    requires HostInv(t) && TickAccepted(t.host, elapsed) && TickOk(t.host, elapsed)
    requires 0 < j < |t.host.slots| && t.host.slots[j].state == SessionRequest
    requires HostSendable(Merged(Advanced(t.host, elapsed)))
    ensures var m := Merged(Advanced(t.host, elapsed)); var slot := t.host.slots[j];
            var say := Message(0, -1, m.time, j, [5] + slot.local.address);
            && |m.slots| == |t.host.slots| && m.slots[0].local == t.host.slots[0].local
            && slot.local.address != [] && Sendable(say) && Writable(say) && j < TWO_32
            && |say.data| - 1 <= ADDRESS_SIZE && m.time >= t.host.time
            && HostSend(m, j, draws).packets == PackedPackets(t.host.slots[0].local.id, slot.remote.id, [Encode(say)])
            && m.time == PeerStates.Tick(t.host, elapsed, draws).state.time
            && PeerStates.Tick(t.host, elapsed, draws).state.slots[j].state == Ready
  {
    hide Merged, PeerStates.Tick, TickOk;
    SlotsAre(t, j);
    TraceBounds(t);
    MergedLog(t, elapsed);
    MergedSettles(t, elapsed, j);
    TickSettles(t, elapsed, draws);
    TimeRange(t, elapsed);
    hide HostInv, PackedPackets, Encode;
  }

  lemma TimeRange(t: HostTrace, elapsed: nat)
    requires HostInv(t) && TickAccepted(t.host, elapsed)
    ensures 0 <= t.host.time <= t.host.timeLocal + elapsed <= INT64_MAX && |t.host.slots| < TWO_32 - 1
  {
    hide BooksOk, IndicesOk, ClocksOk;
    ActorLimit(t);
  }

  // ---- What the host answers to a client ----

  /** The host takes a message of slot j's client without an error. */
  predicate Accepted(h: PeerState, j: nat, m: Message)
    requires j < |h.slots|
  {
    HostReceive(h.slots[j], m).status == {}
  }

  /** The host takes the packet without an error. */
  predicate Answered(h: PeerState, p: Packet) {
    InputOk(h, p) && InputPacket(h, p).status == {}
  }

  /** Slot j is the client's, and the client writes to it. */
  ghost predicate Paired(t: HostTrace, c: PeerState, j: nat) {
    && HostInv(t) && HostEndpointsOk(t.host) && ClientOk(t.host, c) && Local(c).id != UNDEFINED
    && 0 < j < |t.host.slots| && c.actor == j && Remote(c).id == t.host.slots[j].local.id
  }

  /** The client might have packed this. */
  predicate FromClient(c: PeerState, p: Packet)
    requires |c.slots| == 1
  {
    && p.source == Local(c).id && p.destination == Remote(c).id
    && ParsePacket(p).status == {} && Headed(PacketChunks(p))
  }

  lemma PairedSlot(t: HostTrace, c: PeerState, j: nat)
    requires Paired(t, c, j)
    ensures |c.slots| == 1 && j < |t.host.slots| && t.host.slots[j].actor == j && t.host.mode == Host
    ensures HostInv(t) && ClientOk(t.host, c) && c.actor == j > 0
  {
    SlotsAre(t, j);
    hide HostInv, HostEndpointsOk, MutualOk, OutboxOk;
  }

  lemma PairedMatch(t: HostTrace, c: PeerState, j: nat, p: Packet)
    requires Paired(t, c, j) && |c.slots| == 1 && FromClient(c, p)
    ensures FindMatch(t.host.slots, p, 0) == Some(j) && InputOk(t.host, p)
  {
    OwnSlot(t, c, p);
    hide HostInv, HostEndpointsOk, ClientOk, PacketChunks, ParsePacket;
  }

  lemma AcceptedIs(h: PeerState, j: nat, m: Message)
    requires j < |h.slots| && h.mode == Host
    ensures Accepted(h, j, m) <==> Receive(h, j, m).status == {}
  {
    hide HostReceive;
  }

  lemma ChunkCarried(p: Packet, i: nat)
    requires Headed(PacketChunks(p)) && i < |PacketChunks(p)|
    ensures |PacketChunks(p)[i]| >= N_MESSAGE_DATA && Carries(p, ReadMessage(PacketChunks(p)[i]))
  {
    hide PacketChunks, ReadMessage;
  }

  /** A packet for the client's own slot gets no error if each of its messages is accepted. */
  lemma OwnPacketWelcome(t: HostTrace, c: PeerState, j: nat, p: Packet)
    requires Paired(t, c, j) && |c.slots| == 1 && FromClient(c, p) && j < |t.host.slots|
    requires forall m :: Carries(p, m) ==> Accepted(t.host, j, m)
    ensures Answered(t.host, p)
  {
    hide *;
    PairedSlot(t, c, j);
    PairedMatch(t, c, j, p);
    ClientParsed(c, p);
    forall e ensures e !in InputPacket(t.host, p).status {
      PacketAnswer(t.host, p, j, e);
      forall i | 0 <= i < |PacketChunks(p)| ensures Receive(t.host, j, ReadMessage(PacketChunks(p)[i])).status == {} {
        ChunkCarried(p, i);
        AcceptedIs(t.host, j, ReadMessage(PacketChunks(p)[i]));
      }
    }
    NoErrors(t.host, p);
  }

  lemma ClientParsed(c: PeerState, p: Packet)
    requires |c.slots| == 1 && FromClient(c, p)
    ensures ParsePacket(p).status == {} && Headed(PacketChunks(p))
    ensures forall i :: 0 <= i < |PacketChunks(p)| ==> |PacketChunks(p)[i]| >= N_MESSAGE_DATA
  {
    hide ParsePacket, PacketChunks;
  }

  lemma NoErrors(h: PeerState, p: Packet)
    requires InputOk(h, p) && forall e :: e !in InputPacket(h, p).status
    ensures Answered(h, p)
  {
    hide InputOk, InputPacket;
  }

  /** And it gets one if one of its messages is refused. */
  lemma OwnPacketRefused(t: HostTrace, c: PeerState, j: nat, p: Packet, m: Message)
    requires Paired(t, c, j) && |c.slots| == 1 && FromClient(c, p) && j < |t.host.slots|
    requires Carries(p, m) && !Accepted(t.host, j, m)
    ensures InputOk(t.host, p) && InputPacket(t.host, p).status != {} && !Answered(t.host, p)
  {
    hide *;
    PairedSlot(t, c, j);
    PairedMatch(t, c, j, p);
    ClientParsed(c, p);
    AcceptedIs(t.host, j, m);
    var i := SomeChunk(p, m);
    var e :| e in Receive(t.host, j, m).status;
    PacketAnswer(t.host, p, j, e);
    Refused(t.host, p, e);
  }

  lemma Refused(h: PeerState, p: Packet, e: Error)
    requires InputOk(h, p) && e in InputPacket(h, p).status
    ensures !Answered(h, p)
  {
    hide InputOk, InputPacket;
  }

  lemma HostAccepts(h: PeerState, j: nat, m: Message)
    requires j < |h.slots| && m.time == 0 && Actor32(m) == h.slots[j].actor
    requires if m.mode == 0 then m.data == [1] else m.index >= 0
    ensures Accepted(h, j, m)
  {
    HostRefusals(h.slots[j], m);
    hide HostReceive;
    assert HostReceive(h.slots[j], m).status == {};
  }

  lemma HeartbeatAccepted(t: HostTrace, j: nat)
    requires HostInv(t) && j < |t.host.slots| && t.host.slots[j].actor == j
    ensures Accepted(t.host, j, Heartbeat(0, j))
  {
    ActorLimit(t);
    hide HostInv, Accepted;
    HostAccepts(t.host, j, Heartbeat(0, j));
  }

  lemma OutboxAccepted(t: HostTrace, j: nat, q: seq<Entry>, k: nat)
    requires j < |t.host.slots| && t.host.slots[j].actor == j && k < |q|
    requires MessageAt(q, k).time == 0 && Actor32(MessageAt(q, k)) == j
    ensures Accepted(t.host, j, MessageAt(q, k))
  {
    hide Accepted;
    HostAccepts(t.host, j, MessageAt(q, k));
  }

  /** A resent entry of the mutual queue is accepted exactly if it is untimed and under the client's own actor. */
  lemma EntryAccepted(t: HostTrace, c: PeerState, j: nat, k: nat)
    requires HostInv(t) && ClientOk(t.host, c) && c.actor == j
    requires j < |t.host.slots| && t.host.slots[j].actor == j && k < |c.queue|
    ensures Accepted(t.host, j, MessageAt(c.queue, k)) <==> Own(c, k)
  {
    MutualActor(t, c, k);
    var m := MessageAt(c.queue, k);
    hide HostReceive, HostInv, ClientOk;
    HostRefusals(t.host.slots[j], m);
    if Own(c, k) {
      HostAccepts(t.host, j, m);
    } else {
      assert InvalidMessageTime in HostReceive(t.host.slots[j], m).status
             || InvalidMessageActor in HostReceive(t.host.slots[j], m).status;
    }
  }

  /** Client c has adopted slot j and is about to send it a heartbeat. */
  ghost predicate BeatsTo(s: System, c: nat, j: nat, elapsed: int) {
    && Inv(s) && SendsTo(s, c, j)
    && Beats(s.clients[c], elapsed) && TickOk(s.clients[c], elapsed) && |s.clients[c].slots[0].queue| <= INT64_MAX
  }

  /** An entry the host would accept from the client. */
  predicate Own(c: PeerState, k: nat)
    requires k < |c.queue|
  {
    c.queue[k].time == 0 && c.queue[k].actor == c.actor
  }

  /** Every entry the heartbeat's trail may reach is untimed and the client's own. */
  predicate TrailAcceptable(c: PeerState)
    requires |c.slots| == 1
  {
    forall k: nat :: k < |c.queue| && InReach(c.slots[0].outIndex, k) ==> Own(c, k)
  }

  /** Whatever is drawn, the host answers a client's heartbeat without an error exactly if every entry its trail may
      reach is untimed and the client's own; the heartbeat itself is always welcome. */
  lemma BeatAnsweredIff(s: System, c: nat, j: nat, elapsed: int)
    requires BeatsTo(s, c, j, elapsed)
    ensures (forall draws: Draws, p: Packet :: p in PeerStates.Tick(s.clients[c], elapsed, draws).packets ==>
               Answered(s.Host(), p))
        <==> TrailAcceptable(s.clients[c])
  {
    hide *;
    BeatDefined(s, c, j, elapsed);
    var client, h := s.clients[c], s.Host();
    if TrailAcceptable(client) {
      forall draws: Draws, p: Packet | p in PeerStates.Tick(client, elapsed, draws).packets ensures Answered(h, p) {
        BeatAccepted(s, c, j, elapsed, draws, p);
      }
    } else {
      var draws, p := BeatRefused(s, c, j, elapsed);
    }
  }

  lemma BeatDefined(s: System, c: nat, j: nat, elapsed: int)
    requires BeatsTo(s, c, j, elapsed)
    ensures c < |s.clients| && |s.clients[c].slots| == 1 && TickOk(s.clients[c], elapsed)
  {
    hide Inv, Beats, TickOk;
  }

  /** With nothing sent yet the trail is empty, and the bare heartbeat is welcome. */
  lemma FirstBeatAnswered(s: System, c: nat, j: nat, elapsed: int, draws: Draws, p: Packet)
    requires BeatsTo(s, c, j, elapsed) && s.clients[c].slots[0].outIndex == 0
    requires p in PeerStates.Tick(s.clients[c], elapsed, draws).packets
    ensures Answered(s.Host(), p)
  {
    hide *;
    BeatDefined(s, c, j, elapsed);
    NothingReached(s.clients[c]);
    BeatAccepted(s, c, j, elapsed, draws, p);
  }

  lemma NothingReached(c: PeerState)
    requires |c.slots| == 1 && c.slots[0].outIndex == 0
    ensures TrailAcceptable(c)
  {
  }

  /** Client and slot of a heartbeat that is due. */
  lemma BeatPaired(s: System, c: nat, j: nat, elapsed: int)
    requires BeatsTo(s, c, j, elapsed)
    ensures var client, h := s.clients[c], s.Host();
            && h == s.trace.host && Paired(s.trace, client, j) && |client.slots| == 1 && j < |h.slots|
            && |client.slots[0].queue| <= INT64_MAX && client.slots[0].outIndex <= |client.queue|
            && QueueFits(client.queue)
            && forall draws: Draws :: PeerStates.Tick(client, elapsed, draws).packets == BeatPackets(client, draws)
  {
    InvHost(s);
    ClientIdDefined(s, c);
    var client, h := s.clients[c], s.Host();
    hide Inv, HostInv, HostEndpointsOk, PeerStates.Tick, BeatPackets, TickOk, Beats, StateOk, SlotOk;
    ClientTickOkIff(s.trace, client, elapsed);
    MutualFits(s.trace, client);
    forall draws: Draws ensures PeerStates.Tick(client, elapsed, draws).packets == BeatPackets(client, draws) {
      BeatIsTick(h, client, elapsed, draws);
    }
    hide ClientOk;
  }

  /** Its packets. */
  lemma BeatPacketFrom(c: PeerState, draws: Draws, p: Packet)
    requires |c.slots| == 1 && QueueFits(c.queue) && c.slots[0].outIndex <= |c.queue|
    requires p in BeatPackets(c, draws)
    ensures FromClient(c, p)
  {
    hide ParsePacket, PacketChunks, BeatPackets;
    BeatPacketsAddressed(c, draws);
    BeatPacketsFrom(c, draws);
    BeatPacketsParse(c, draws);
  }

  lemma SlotNumber(t: HostTrace, j: nat)
    requires HostInv(t) && 0 < j < |t.host.slots| && t.host.slots[j].remote.id != UNDEFINED
    ensures t.host.slots[j].actor == j
  {
    SlotsAre(t, j);
    hide HostInv;
  }

  lemma BeatPacketsParse(c: PeerState, draws: Draws)
    requires |c.slots| == 1 && QueueFits(c.queue) && c.slots[0].outIndex <= |c.queue|
    ensures forall p :: p in BeatPackets(c, draws) ==> ParsePacket(p).status == {} && Headed(PacketChunks(p))
  {
    var slot := c.slots[0];
    HeartbeatChunksFramed(c.queue, slot.outIndex, 0, c.actor, draws, 0);
    PackedParse(slot.local.id, slot.remote.id, HeartbeatChunks(c.queue, slot.outIndex, 0, c.actor, draws, 0));
  }

  lemma PackedParse(source: int, destination: int, chunks: seq<Chunk>)
    requires AllFramed(chunks)
    ensures forall p :: p in PackedPackets(source, destination, chunks) ==>
              && p.source == source && p.destination == destination
              && ParsePacket(p).status == {} && Headed(PacketChunks(p))
  {
    PackedPacketsShape(source, destination, chunks);
    FramedHeaded(chunks);
    hide PackedPackets, ParsePacket;
  }

  lemma BeatAccepted(s: System, c: nat, j: nat, elapsed: int, draws: Draws, p: Packet)
    requires BeatsTo(s, c, j, elapsed) && TrailAcceptable(s.clients[c])
    requires p in PeerStates.Tick(s.clients[c], elapsed, draws).packets
    ensures Answered(s.Host(), p)
  {
    hide *;
    BeatDefined(s, c, j, elapsed);
    BeatPaired(s, c, j, elapsed);
    var t, client := s.trace, s.clients[c];
    BeatPacketFrom(client, draws, p);
    PairedSlot(t, client, j);
    forall m | Carries(p, m) ensures Accepted(t.host, j, m) {
      BeatMessage(t, client, draws, p, m);
      if m == Heartbeat(0, j) {
        HeartbeatAccepted(t, j);
      } else {
        TrailOwn(client, m.index);
        EntryAccepted(t, client, j, m.index);
      }
    }
    OwnPacketWelcome(t, client, j, p);
  }

  lemma TrailOwn(c: PeerState, k: nat)
    requires |c.slots| == 1 && TrailAcceptable(c) && k < |c.queue| && InReach(c.slots[0].outIndex, k)
    ensures Own(c, k)
  {
    hide InReach, Own;
  }

  lemma BeatRefused(s: System, c: nat, j: nat, elapsed: int) returns (draws: Draws, p: Packet)
    requires BeatsTo(s, c, j, elapsed) && !TrailAcceptable(s.clients[c])
    ensures p in PeerStates.Tick(s.clients[c], elapsed, draws).packets && !Answered(s.Host(), p)
  {
    hide *;
    BeatDefined(s, c, j, elapsed);
    BeatPaired(s, c, j, elapsed);
    var t, client := s.trace, s.clients[c];
    PairedSlot(t, client, j);
    var k := SomeForeign(client);
    draws, p := BeatReaches(t, client, k);
    BeatPacketFrom(client, draws, p);
    EntryAccepted(t, client, j, k);
    OwnPacketRefused(t, client, j, p, MessageAt(client.queue, k));
  }

  lemma SomeForeign(c: PeerState) returns (k: nat)
    requires |c.slots| == 1 && !TrailAcceptable(c)
    ensures k < |c.queue| && InReach(c.slots[0].outIndex, k) && !Own(c, k)
  {
    hide InReach, Own;
    k :| k < |c.queue| && InReach(c.slots[0].outIndex, k) && !Own(c, k);
  }

  /** New messages of a client for its own slot, and the trail behind them, are always accepted. */
  lemma SendAnswered(s: System, c: nat, j: nat, elapsed: int, draws: Draws, p: Packet)
    requires SendTick(s, c, j, elapsed, draws)
    requires p in PeerStates.Tick(s.clients[c], elapsed, draws).packets
    ensures Answered(s.Host(), p)
  {
    hide *;
    SendPaired(s, c, j, elapsed, draws);
    var t, client := s.trace, s.clients[c];
    var slot := client.slots[0];
    PairedSlot(t, client, j);
    TickCarriesOutbox(s, c, j, elapsed, draws);
    SentFrom(client, draws, p);
    forall m | Carries(p, m) ensures Accepted(t.host, j, m) {
      var k := CarriedEntry(slot.queue, slot.outIndex, slot.local.id, slot.remote.id, draws, p, m);
      OutboxAccepted(t, j, slot.queue, k);
    }
    OwnPacketWelcome(t, client, j, p);
  }

  lemma SendPaired(s: System, c: nat, j: nat, elapsed: int, draws: Draws)
    requires SendTick(s, c, j, elapsed, draws)
    ensures c < |s.clients| && |s.clients[c].slots| == 1 && TickOk(s.clients[c], elapsed)
    ensures s.Host() == s.trace.host && Paired(s.trace, s.clients[c], j) && j < |s.Host().slots|
    ensures var q := s.clients[c].slots[0].queue;
            s.clients[c].slots[0].outIndex < |q| && QueueFits(q) && SendableBelow(q, |q|)
  {
    hide HostInv, HostEndpointsOk, ClientOk, TickOk, PeerStates.Tick, Inv, QueueFits, SendableBelow;
    InvHost(s);
    ClientIdDefined(s, c);
    ActorLimit(s.trace);
    OutboxSendable(s.Host(), s.clients[c]);
  }

  lemma CarriedEntry(q: seq<Entry>, index: nat, source: int, destination: int, draws: Draws, p: Packet, m: Message)
    returns (k: nat)
    requires QueueFits(q) && SendableBelow(q, |q|) && index < |q|
    requires p in QueuePackets(q, index, source, destination, draws, 0) && Carries(p, m)
    ensures k < |q| && m == MessageAt(q, k)
  {
    hide Carries, TrailIndices, QueuePackets, Sendable;
    SendIndicesInRange(q, index, draws, 0);
    QueuePacketsCarry(q, index, source, destination, draws, 0);
    var indices := SendIndices(|q|, index, draws, 0);
    var i :| 0 <= i < |indices| && MessagesAt(q, indices)[i] == m;
    k := indices[i];
  }

  lemma SentFrom(c: PeerState, draws: Draws, p: Packet)
    requires |c.slots| == 1 && QueueFits(c.slots[0].queue) && c.slots[0].outIndex < |c.slots[0].queue|
    requires var slot := c.slots[0];
             p in QueuePackets(slot.queue, slot.outIndex, slot.local.id, slot.remote.id, draws, 0)
    ensures FromClient(c, p)
  {
    var slot := c.slots[0];
    hide QueuePackets, ParsePacket, PacketChunks;
    QueuePacketsParse(slot.queue, slot.outIndex, slot.local.id, slot.remote.id, draws);
  }

  lemma QueuePacketsParse(q: seq<Entry>, index: nat, source: int, destination: int, draws: Draws)
    requires QueueFits(q) && index < |q|
    ensures forall p :: p in QueuePackets(q, index, source, destination, draws, 0) ==>
              && p.source == source && p.destination == destination
              && ParsePacket(p).status == {} && Headed(PacketChunks(p))
  {
    SendIndicesInRange(q, index, draws, 0);
    ChunksFramed(q, SendIndices(|q|, index, draws, 0));
    PackedParse(source, destination, QueueChunks(q, index, draws, 0));
  }
}
