/** Client messages reach the log in order, without gaps or duplicates, as long as no heartbeat of that
    client resends a misleading entry under an index its inbox at the host still lacks. */
module Fifo {
  import opened Options
  import opened Serial
  import opened Packets
  import opened Queues
  import opened Trails
  import opened PeerStates
  import opened HostRuns
  import opened HostGrowth
  import opened Network
  import opened Agreement
  import opened ClientTicks
  import opened Heartbeats
  import opened Runs
  import opened Carriage

  // ---- The FIFO invariant of client c ----

  /** Everything filled in an inbox is what the client queued at that index. */
  predicate InboxFrom(slot: Slot, out: seq<Entry>) {
    forall k :: 0 <= k < |slot.queue| && slot.queue[k].ready ==> k < |out| && slot.queue[k].data == out[k].data
  }

  /** A message that cannot spoil an inbox q: it carries what was queued at its index, or the index is filled. */
  predicate Harmless(q: seq<Entry>, out: seq<Entry>, actor: int, m: Message) {
    Honest(out, actor, m) || (m.index >= 0 && Filled(q, m.index))
  }

  ghost predicate HarmlessPacket(q: seq<Entry>, out: seq<Entry>, actor: int, p: Packet) {
    forall m :: Carries(p, m) ==> Harmless(q, out, actor, m)
  }

  ghost predicate FifoNet(h: PeerState, net: set<Packet>, id: int, out: seq<Entry>) {
    forall p, j :: p in net && 0 < j < |h.slots| && p.source == id && p.destination == h.slots[j].local.id ==>
      HarmlessPacket(h.slots[j].queue, out, j, p)
  }

  predicate FifoInboxes(h: PeerState, id: int, out: seq<Entry>) {
    forall j :: 0 < j < |h.slots| && h.slots[j].remote.id == id ==> InboxFrom(h.slots[j], out)
  }

  ghost predicate FifoInv(s: System, c: nat) {
    && c < |s.clients| && |s.clients[c].slots| == 1
    && FifoNet(s.Host(), s.net, Local(s.clients[c]).id, s.clients[c].slots[0].queue)
    && FifoInboxes(s.Host(), Local(s.clients[c]).id, s.clients[c].slots[0].queue)
  }

  /** The host has the message at every index at which a heartbeat of this client would mislead the slot it goes to. */
  predicate BeatCovered(h: PeerState, c: PeerState)
    requires |c.slots| == 1
  {
    forall j, k ::
      0 < j < |h.slots| && h.slots[j].local.id == Remote(c).id && 0 <= k < |c.queue| && Misleading(c, k) ==>
        Filled(h.slots[j].queue, k)
  }

  /** Nobody forges client c's packets, and each of its heartbeats is covered when it is sent. */
  ghost predicate Careful(s: System, step: Step, c: nat)
    requires c < |s.clients| && |s.clients[c].slots| == 1
  {
    match step
    case Inject(p) => p.source != Local(s.clients[c]).id
    case ClientTick(i, elapsed, draws) =>
      i == c && Beats(s.clients[c], elapsed) ==> BeatCovered(s.Host(), s.clients[c])
    case _ => true
  }

  // ---- It survives growth ----

  lemma PayloadsGrow(a: seq<Entry>, b: seq<Entry>, k: nat)
    requires Payloads(a) <= Payloads(b) && k < |a|
    ensures k < |b| && a[k].data == b[k].data
  {
    assert Payloads(a)[k] == Payloads(b)[k];
  }

  lemma HarmlessGrows(q: seq<Entry>, r: seq<Entry>, a: seq<Entry>, b: seq<Entry>, actor: int, p: Packet)
    requires Extends(q, r) && Payloads(a) <= Payloads(b) && HarmlessPacket(q, a, actor, p)
    ensures HarmlessPacket(r, b, actor, p)
  {
    hide Carries;
    forall m | Carries(p, m) ensures Harmless(r, b, actor, m) {
      assert Harmless(q, a, actor, m);
      if 0 <= m.index < |a| {
        PayloadsGrow(a, b, m.index);
      }
    }
  }

  lemma InboxGrows(a: seq<Entry>, b: seq<Entry>, slot: Slot)
    requires Payloads(a) <= Payloads(b) && InboxFrom(slot, a)
    ensures InboxFrom(slot, b)
  {
    forall k | 0 <= k < |slot.queue| && slot.queue[k].ready ensures k < |b| && slot.queue[k].data == b[k].data {
      PayloadsGrow(a, b, k);
    }
  }

  /** The outgoing queue grows, the net gains packets that are not this client's or are harmless. */
  lemma FifoGrows(h: PeerState, net: set<Packet>, sent: set<Packet>, id: int, a: seq<Entry>, b: seq<Entry>)
    requires FifoNet(h, net, id, a) && FifoInboxes(h, id, a) && Payloads(a) <= Payloads(b)
    requires FifoNet(h, sent, id, b)
    ensures FifoNet(h, net + sent, id, b) && FifoInboxes(h, id, b)
  {
    hide HarmlessPacket, InboxFrom;
    forall p, j | p in net + sent && 0 < j < |h.slots| && p.source == id && p.destination == h.slots[j].local.id
      ensures HarmlessPacket(h.slots[j].queue, b, j, p)
    {
      if p in net {
        HarmlessGrows(h.slots[j].queue, h.slots[j].queue, a, b, j, p);
      }
    }
    forall j | 0 < j < |h.slots| && h.slots[j].remote.id == id ensures InboxFrom(h.slots[j], b) {
      InboxGrows(a, b, h.slots[j]);
    }
  }

  // ---- Host steps ----

  /** The host's slots only grow; nothing in the net becomes harmful. */
  lemma FifoNetGrows(h: PeerState, g: PeerState, net: set<Packet>, id: int, out: seq<Entry>)
    requires Grows(h, g) && FifoNet(h, net, id, out)
    ensures FifoNet(g, net, id, out)
  {
    hide HarmlessPacket, Extends;
    forall p, j | p in net && 0 < j < |g.slots| && p.source == id && p.destination == g.slots[j].local.id
      ensures HarmlessPacket(g.slots[j].queue, out, j, p)
    {
      assert SlotGrows(h.slots[j], g.slots[j]);
      HarmlessGrows(h.slots[j].queue, g.slots[j].queue, out, out, j, p);
    }
  }

  lemma InboxReceive(slot: Slot, out: seq<Entry>, m: Message)
    requires InboxFrom(slot, out) && Harmless(slot.queue, out, slot.actor, m)
    ensures InboxFrom(HostReceive(slot, m).slot, out) && Extends(slot.queue, HostReceive(slot, m).slot.queue)
  {
    InsertExtends(slot.queue, m.index, m.time, Actor32(m), m.data);
  }

  lemma HarmlessStays(q: seq<Entry>, r: seq<Entry>, out: seq<Entry>, actor: int, m: Message)
    requires Harmless(q, out, actor, m) && Extends(q, r)
    ensures Harmless(r, out, actor, m)
  {
  }

  lemma {:induction false} InboxReceiveAll(s: PeerState, j: nat, out: seq<Entry>, chunks: seq<Chunk>)
    requires s.mode == Host && j < |s.slots| && Headed(chunks) && InboxFrom(s.slots[j], out)
    requires forall i :: 0 <= i < |chunks| ==>
               Harmless(s.slots[j].queue, out, s.slots[j].actor, ReadMessage(chunks[i]))
    ensures var r := ReceiveAll(s, j, chunks).state;
            && r.slots[j].actor == s.slots[j].actor && InboxFrom(r.slots[j], out)
            && Extends(s.slots[j].queue, r.slots[j].queue)
  {
    if chunks != [] {
      hide ReadMessage, Harmless, InboxFrom, Extends;
      var most, m := chunks[..|chunks| - 1], ReadMessage(chunks[|chunks| - 1]);
      InboxReceiveAll(s, j, out, most);
      var mid := ReceiveAll(s, j, most).state.slots[j];
      HarmlessStays(s.slots[j].queue, mid.queue, out, mid.actor, m);
      InboxReceive(mid, out, m);
      ExtendsTransitive(s.slots[j].queue, mid.queue, HostReceive(mid, m).slot.queue);
    }
  }

  lemma SlotsAre(t: HostTrace, j: nat)
    requires HostInv(t) && j < |t.host.slots|
    ensures j == 0 ==> FreshSlot(t.host.slots[j])
    ensures j > 0 ==> StateOk(t.host.slots[j], j) && SlotOk(t.host.slots[j], j, t.host.queue)
    ensures t.host.mode == Host
  {
  }

  lemma FifoHostInput(s: System, c: nat, p: Packet)
    requires Inv(s) && Allowed(s, HostInput(p)) && FifoInv(s, c)
    ensures var h := InputPacket(s.Host(), p).state; var id, out := Local(s.clients[c]).id, s.clients[c].slots[0].queue;
            |h.slots| == |s.Host().slots| && FifoInboxes(h, id, out)
            && forall j :: 0 <= j < |h.slots| ==> h.slots[j].local == s.Host().slots[j].local
  {
    var h, id, out := s.Host(), Local(s.clients[c]).id, s.clients[c].slots[0].queue;
    InvHost(s);
    SentDefined(s, p);
    assert FifoNet(h, s.net, id, out);
    hide Inv, HostInv, PacketOk, InboxFrom, HarmlessPacket, FifoInboxes, SlotOk, StateOk;
    if HasLocal(h.slots, p.destination) {
      match FindMatch(h.slots, p, 0)
      case Some(j) =>
        SlotsAre(s.trace, j);
        SlotHears(s, c, p, j);
        OneInbox(h, j, ReceiveAll(h, j, PacketChunks(p)).state.slots[j], id, out);
      case None =>
        match FindFree(h.slots, 1)
        case Some(j) =>
          SlotsAre(s.trace, j);
          FreeSlotEmpty(s.trace, j);
          NothingInbox(h.slots[j], Assigned(h.slots[j], j, p), out);
          OneInbox(h, j, Assigned(h.slots[j], j, p), id, out);
        case None =>
    }
  }

  lemma OneInbox(h: PeerState, j: nat, slot: Slot, id: int, out: seq<Entry>)
    requires FifoInboxes(h, id, out) && j < |h.slots| && slot.local == h.slots[j].local
    requires slot.remote.id == id ==> InboxFrom(slot, out)
    ensures var g := h.(slots := h.slots[j := slot]);
            FifoInboxes(g, id, out) && forall i :: 0 <= i < |g.slots| ==> g.slots[i].local == h.slots[i].local
  {
    hide InboxFrom;
  }

  lemma FreeSlotEmpty(t: HostTrace, j: nat)
    requires HostInv(t) && j < |t.host.slots| && Assignable(t.host.slots[j])
    ensures t.host.slots[j].queue == []
  {
    SlotsAre(t, j);
  }

  /** What a packet does to the slot it belongs to. */
  lemma SlotHears(s: System, c: nat, p: Packet, j: nat)
    requires Inv(s) && Allowed(s, HostInput(p)) && FifoInv(s, c)
    requires HasLocal(s.Host().slots, p.destination) && FindMatch(s.Host().slots, p, 0) == Some(j)
    ensures Headed(PacketChunks(p))
    ensures var h := s.Host(); var r := ReceiveAll(h, j, PacketChunks(p)).state;
            && r == h.(slots := h.slots[j := r.slots[j]]) && r.slots[j].local == h.slots[j].local
            && (r.slots[j].remote.id == Local(s.clients[c]).id ==> InboxFrom(r.slots[j], s.clients[c].slots[0].queue))
  {
    var h, id, out := s.Host(), Local(s.clients[c]).id, s.clients[c].slots[0].queue;
    InvHost(s);
    SentDefined(s, p);
    ClientIdDefined(s, c);
    hide Inv, HostInv, PacketOk, InboxFrom, HarmlessPacket, ClientOk;
    SlotsAre(s.trace, j);
    PacketChunksSmall(p);
    HostReceiveAllKeeps(h, j, h.queue, PacketChunks(p));
    if h.slots[j].remote.id == id {
      HarmlessChunks(h.slots[j].queue, out, j, p);
      InboxReceiveAll(h, j, out, PacketChunks(p));
    }
  }

  lemma HarmlessChunks(q: seq<Entry>, out: seq<Entry>, actor: int, p: Packet)
    requires HarmlessPacket(q, out, actor, p) && Headed(PacketChunks(p))
    ensures forall i :: 0 <= i < |PacketChunks(p)| ==> Harmless(q, out, actor, ReadMessage(PacketChunks(p)[i]))
  {
    hide Harmless, ReadMessage, PacketChunks;
    forall i | 0 <= i < |PacketChunks(p)| ensures Harmless(q, out, actor, ReadMessage(PacketChunks(p)[i])) {
      assert PacketChunks(p)[i] in PacketChunks(p);
      assert Carries(p, ReadMessage(PacketChunks(p)[i]));
    }
  }

  lemma NothingInbox(a: Slot, b: Slot, out: seq<Entry>)
    requires a.queue == [] && b.queue == a.queue
    ensures InboxFrom(b, out)
  {
  }

  /** The host sends from its own endpoints only. */
  lemma HostPacketSource(t: HostTrace, elapsed: nat, draws: Draws, p: Packet)
    requires HostInv(t) && TickAccepted(t.host, elapsed) && TickOk(t.host, elapsed)
    requires p in PeerStates.Tick(t.host, elapsed, draws).packets
    ensures IsHostId(t.host, p.source)
  {
    hide HostInv, Merged, TickOk, HostSend;
    var m := Merged(Advanced(t.host, elapsed));
    MergedOk(t, elapsed);
    TickedState(t, elapsed, draws);
    var i := SentPacketsFrom(m, |m.slots|, draws, p);
    MergedSettles(t, elapsed, i);
    MergedLog(t, elapsed);
    SlotPacketSource(m, i, draws, p);
    assert m.slots[0].local == t.host.slots[0].local && m.slots[i].local == t.host.slots[i].local;
  }

  lemma SlotPacketSource(m: PeerState, i: nat, draws: Draws, p: Packet)
    requires 0 < i < |m.slots| && SlotSendable(m.queue, m.slots[i]) && p in HostSend(m, i, draws).packets
    ensures p.source == m.slots[0].local.id || p.source == m.slots[i].local.id
  {
    hide QueuePackets, HeartbeatPackets;
    var slot := m.slots[i];
    match slot.state
    case SessionRequest =>
      var r := SessionResponse(m.time, slot);
      EncodeFramed(r);
      OwnPackets(m.slots[0].local.id, slot.remote.id, [Encode(r)]);
    case Ready =>
      QueuePacketsOwn(m.queue, slot.outIndex, slot.local.id, slot.remote.id, draws, i);
      HeartbeatPacketsOwn(slot.local.id, slot.remote.id, m.queue, slot.outIndex, m.time, m.actor, draws, i);
  }

  lemma FifoHostTick(s: System, c: nat, elapsed: nat, draws: Draws)
    requires Inv(s) && Allowed(s, HostTick(elapsed, draws)) && FifoInv(s, c) && TickAccepted(s.Host(), elapsed)
    ensures FifoInv(Next(s, HostTick(elapsed, draws)), c)
  {
    var r := PeerStates.Tick(s.Host(), elapsed, draws);
    InvHost(s);
    ClientIdDefined(s, c);
    NextHost(s, elapsed, draws);
    hide Next, Inv, HostInv, PeerStates.Tick, TickOk, FifoNet, FifoInboxes, HostEndpointsOk, ClientOk;
    forall p | p in r.packets ensures p.source != Local(s.clients[c]).id {
      HostPacketSource(s.trace, elapsed, draws, p);
    }
    TickLeavesInboxes(s.trace, elapsed, draws);
    FifoSameSlots(s.Host(), r.state, s.net, PacketSet(r.packets), Local(s.clients[c]).id, s.clients[c].slots[0].queue);
  }

  lemma TickLeavesInboxes(t: HostTrace, elapsed: nat, draws: Draws)
    requires HostInv(t) && TickAccepted(t.host, elapsed) && TickOk(t.host, elapsed)
    ensures SameInboxes(t.host, PeerStates.Tick(t.host, elapsed, draws).state)
  {
    hide HostInv, PeerStates.Tick, TickOk;
    TickSettles(t, elapsed, draws);
  }

  predicate SameInboxes(h: PeerState, g: PeerState) {
    && |g.slots| == |h.slots|
    && forall j :: 0 <= j < |h.slots| ==>
         g.slots[j].local == h.slots[j].local && g.slots[j].remote == h.slots[j].remote &&
             g.slots[j].queue == h.slots[j].queue
  }

  lemma FifoSameSlots(h: PeerState, g: PeerState, net: set<Packet>, sent: set<Packet>, id: int, out: seq<Entry>)
    requires SameInboxes(h, g) && FifoNet(h, net, id, out) && FifoInboxes(h, id, out)
    requires forall p :: p in sent ==> p.source != id
    ensures FifoNet(g, net + sent, id, out) && FifoInboxes(g, id, out)
  {
    hide HarmlessPacket;
  }

  lemma InputGrows(s: System, p: Packet)
    requires Inv(s) && Allowed(s, HostInput(p))
    ensures Grows(s.Host(), InputPacket(s.Host(), p).state)
  {
    InvHost(s);
    SentDefined(s, p);
    AcceptGrows(s.trace, p);
  }

  lemma FifoHostStep(s: System, c: nat, step: Step)
    requires Inv(s) && Allowed(s, step) && FifoInv(s, c) && (step.HostQueue? || step.HostInput? || step.HostTick?)
    ensures FifoInv(Next(s, step), c)
  {
    InvHost(s);
    hide Inv, HostInv, HarmlessPacket, PeerStates.Tick, InboxFrom;
    match step
    case HostQueue(data) =>
    case HostInput(p) =>
      FifoHostInput(s, c, p);
      InputGrows(s, p);
      FifoNetGrows(s.Host(), InputPacket(s.Host(), p).state, s.net, Local(s.clients[c]).id,
          s.clients[c].slots[0].queue);
    case HostTick(elapsed, draws) =>
      if TickAccepted(s.Host(), elapsed) {
        FifoHostTick(s, c, elapsed, draws);
      } else {
        RejectedTick(s.Host(), elapsed, draws);
        assert PacketSet([]) == {} && s.net + {} == s.net;
      }
  }

  // ---- Client steps ----

  /** The only host slot past 0 a client ever sends to is the one it adopted. */
  lemma SendsToOwnSlot(h: PeerState, c: PeerState, j: nat)
    requires HostEndpointsOk(h) && ClientOk(h, c) && 0 < j < |h.slots| && Remote(c).id == h.slots[j].local.id
    ensures j == c.actor
  {
    hide MutualOk, OutboxOk;
  }

  /** What a tick sends, told apart by the branch it takes. */
  lemma ClientTickPackets(c: PeerState, elapsed: int, draws: Draws)
    requires c.mode == Client && |c.slots| == 1 && TickOk(c, elapsed)
    ensures var r := PeerStates.Tick(c, elapsed, draws).packets; var slot := c.slots[0];
            && (r != [] ==> TickAccepted(c, elapsed) && QueueFits(c.queue) && QueueFits(slot.queue))
            && (r != [] && Beats(c, elapsed) ==> slot.outIndex <= |c.queue| && r == BeatPackets(c, draws))
            && (r != [] && !Beats(c, elapsed) ==>
                  slot.outIndex < |slot.queue| &&
                      r == QueuePackets(slot.queue, slot.outIndex, slot.local.id, slot.remote.id, draws, 0))
  {
    hide QueuePackets, HeartbeatPackets;
  }

  lemma HonestIsHarmless(q: seq<Entry>, out: seq<Entry>, actor: int, p: Packet)
    requires HonestPacket(out, actor, p)
    ensures HarmlessPacket(q, out, actor, p)
  {
    hide Carries, Honest;
  }

  /** What a covered heartbeat resends is honest or comes too late to matter. */
  lemma CoveredBeat(t: HostTrace, c: PeerState, draws: Draws, p: Packet, j: nat)
    requires HostInv(t) && ClientOk(t.host, c) && BeatCovered(t.host, c)
    requires |c.slots[0].queue| <= INT64_MAX && c.slots[0].outIndex <= |c.queue|
    requires QueueFits(c.queue) && p in BeatPackets(c, draws)
    requires 0 < j < |t.host.slots| && j == c.actor && t.host.slots[j].local.id == Remote(c).id
    ensures HarmlessPacket(t.host.slots[j].queue, c.slots[0].queue, j, p)
  {
    hide HostInv, Carries, BeatPackets, MessageAt, MutualOk, OutboxOk, SessionOk, Honest, InReach;
    var q, out := t.host.slots[j].queue, c.slots[0].queue;
    forall m | Carries(p, m) ensures Harmless(q, out, j, m) {
      BeatMessage(t, c, draws, p, m);
      if m == Heartbeat(0, c.actor) {
        BeatHonest(out, c.actor);
      } else {
        MisleadingIff(t, c, m.index);
        assert Misleading(c, m.index) ==> Filled(q, m.index);
      }
    }
  }

  lemma BeatHonest(out: seq<Entry>, actor: int)
    ensures Honest(out, actor, Heartbeat(0, actor))
  {
  }

  lemma FifoClientTick(s: System, c: nat, elapsed: int, draws: Draws)
    requires Inv(s) && Allowed(s, ClientTick(c, elapsed, draws)) && c < |s.clients| && |s.clients[c].slots| == 1
    requires Careful(s, ClientTick(c, elapsed, draws), c)
    ensures var client := s.clients[c];
            FifoNet(s.Host(), PacketSet(PeerStates.Tick(client, elapsed, draws).packets), Local(client).id,
                client.slots[0].queue)
  {
    var client, h := s.clients[c], s.Host();
    var sent := PeerStates.Tick(client, elapsed, draws).packets;
    InvHost(s);
    ClientIdDefined(s, c);
    ClientMode(h, client);
    ActorLimit(s.trace);
    ClientTickPackets(client, elapsed, draws);
    hide Inv, HostInv, ClientOk, PeerStates.Tick, QueuePackets, BeatPackets, HonestPacket, HarmlessPacket,
         HostEndpointsOk, TickOk, Beats, BeatCovered;
    forall p, j | p in sent && 0 < j < |h.slots| && p.destination == h.slots[j].local.id
      ensures HarmlessPacket(h.slots[j].queue, client.slots[0].queue, j, p)
    {
      if Beats(client, elapsed) {
        BeatPacketsAddressed(client, draws);
        SendsToOwnSlot(h, client, j);
        CoveredBeat(s.trace, client, draws, p, j);
      } else {
        NewMessagesHonest(h, client, draws, j);
        HonestIsHarmless(h.slots[j].queue, client.slots[0].queue, j, p);
      }
    }
  }

  lemma ActorLimit(t: HostTrace)
    requires HostInv(t)
    ensures |t.host.slots| < TWO_32 - 1
  {
  }

  lemma FifoClientStep(s: System, c: nat, step: Step)
    requires Inv(s) && Allowed(s, step) && FifoInv(s, c) && Careful(s, step, c)
    requires !(step.HostQueue? || step.HostInput? || step.HostTick?)
    ensures FifoInv(Next(s, step), c)
  {
    var h, client := s.Host(), s.clients[c];
    var id, out := Local(client).id, client.slots[0].queue;
    ClientStepGrows(s, step);
    ClientIdDefined(s, c);
    assert ClientGrows(client, Next(s, step).clients[c]);
    var sent: set<Packet> := {};
    match step {
      case Inject(p) => sent := {p};
      case ClientTick(i, elapsed, draws) =>
        sent := PacketSet(PeerStates.Tick(s.clients[i], elapsed, draws).packets);
        if i == c {
          FifoClientTick(s, c, elapsed, draws);
          PayloadsSame(s, c, elapsed, draws);
        } else {
          OthersSend(s, i, c, elapsed, draws);
        }
      case _ =>
    }
    hide Inv, HostInv, PeerStates.Tick, Enqueued, Connected, InputPacket, Resolved, HarmlessPacket, InboxFrom, Allowed,
         SystemGrows;
    assert s.net + {} == s.net;
    FifoGrows(h, s.net, sent, id, out, Next(s, step).clients[c].slots[0].queue);
  }

  lemma PayloadsSame(s: System, c: nat, elapsed: int, draws: Draws)
    requires Inv(s) && Allowed(s, ClientTick(c, elapsed, draws))
    ensures |PeerStates.Tick(s.clients[c], elapsed, draws).state.slots| == 1
    ensures PeerStates.Tick(s.clients[c], elapsed, draws).state.slots[0].queue == s.clients[c].slots[0].queue
  {
    ClientIdDefined(s, c);
    ClientTickKeeps(s.Host(), s.clients[c], elapsed, draws);
    hide Inv;
    ClientMode(s.Host(), PeerStates.Tick(s.clients[c], elapsed, draws).state);
  }

  lemma OthersSend(s: System, i: nat, c: nat, elapsed: int, draws: Draws)
    requires Inv(s) && Allowed(s, ClientTick(i, elapsed, draws)) && i != c && c < |s.clients|
    ensures |s.clients[c].slots| == 1
    ensures forall p :: p in PeerStates.Tick(s.clients[i], elapsed, draws).packets ==>
        p.source != Local(s.clients[c]).id
  {
    ClientIdDefined(s, i);
    ClientIdDefined(s, c);
    ClientTickKeeps(s.Host(), s.clients[i], elapsed, draws);
    hide HostInv, PeerStates.Tick, ClientOk, PacketOk, HostEndpointsOk;
  }

  lemma FifoStepKeeps(s: System, c: nat, step: Step)
    requires Inv(s) && Allowed(s, step) && FifoInv(s, c) && Careful(s, step, c)
    ensures FifoInv(Next(s, step), c)
  {
    hide Inv, Allowed, FifoInv, Careful;
    if step.HostQueue? || step.HostInput? || step.HostTick? {
      FifoHostStep(s, c, step);
    } else {
      FifoClientStep(s, c, step);
    }
  }

  // ---- Every careful run ----

  ghost predicate CarefulRun(s: System, steps: seq<Step>, c: nat)
    requires Run(s, steps)
  {
    && c < |s.clients|
    && forall n :: 0 <= n < |steps| ==> CarefulAt(s, steps, n, c)
  }

  ghost predicate CarefulAt(s: System, steps: seq<Step>, n: nat, c: nat)
    requires Run(s, steps) && n < |steps|
  {
    SystemRunGrows(s, steps, n);
    var now := After(s, steps[..n]);
    c < |now.clients| && |now.clients[c].slots| == 1 && Careful(now, steps[n], c)
  }

  lemma StartFifo(s: System, c: nat)
    requires Start(s) && c < |s.clients|
    ensures FifoInv(s, c)
  {
  }

  lemma {:induction false} FifoAlways(s: System, steps: seq<Step>, c: nat)
    requires Run(s, steps) && CarefulRun(s, steps, c)
    ensures FifoInv(After(s, steps), c)
  {
    hide FifoInv, Careful, Inv, Next, Start, Allowed;
    if steps == [] {
      RunStart(s, steps);
      StartFifo(s, c);
    } else {
      var n := |steps| - 1;
      var most := steps[..n];
      forall i | 0 <= i < n ensures CarefulAt(s, most, i, c) {
        assert most[..i] == steps[..i];
        assert CarefulAt(s, steps, i, c);
      }
      FifoAlways(s, most, c);
      assert CarefulAt(s, steps, n, c);
      FifoStepKeeps(After(s, most), c, steps[n]);
    }
  }

  lemma RunStart(s: System, steps: seq<Step>)
    requires Run(s, steps)
    ensures Start(s)
  {
  }

  lemma TakenFrom(slot: Slot, j: nat, log: seq<Entry>, out: seq<Entry>)
    requires SlotOk(slot, j, log) && InboxFrom(slot, out)
    ensures SentBy(log, j) <= Payloads(out)
  {
    var taken := slot.queue[..slot.inIndex];
    assert forall k :: 0 <= k < slot.inIndex ==> slot.queue[k].ready;
    if slot.inIndex > 0 {
      assert slot.queue[slot.inIndex - 1].ready;
    }
  }

  lemma FifoLog(now: System, c: nat, j: nat)
    requires Inv(now) && FifoInv(now, c)
    requires 0 < j < |now.Host().slots| && now.Host().slots[j].remote.id == Local(now.clients[c]).id
    ensures SentBy(now.Host().queue, j) <= Payloads(now.clients[c].slots[0].queue)
  {
    InvHost(now);
    SlotsAre(now.trace, j);
    hide Inv, HostInv, SlotOk, InboxFrom;
    TakenFrom(now.Host().slots[j], j, now.Host().queue, now.clients[c].slots[0].queue);
  }

  lemma ReadyPrefix(h: PeerState, d: PeerState, n: nat)
    requires ClientOk(h, d) && n <= ReadyEnd(d.queue, 0)
    ensures n <= |d.queue| && n <= |h.queue| && d.queue[..n] == h.queue[..n]
  {
    hide OutboxOk, SessionOk;
    assert MutualOk(h, d.queue, d.time);
  }

  /** In every careful run: what the log holds from client c's slot is, in order and without gaps or duplicates,
      a prefix of what c queued, and so is what any client can read of it in its own copy of the log. */
  lemma FifoIntegrity(s: System, steps: seq<Step>, c: nat, d: nat, n: nat)
    requires Run(s, steps) && CarefulRun(s, steps, c) && d < |s.clients|
    ensures var now := After(s, steps);
            && |now.clients| == |s.clients| && |now.clients[c].slots| == 1
            && (forall j :: 0 < j < |now.Host().slots| && now.Host().slots[j].remote.id == Local(now.clients[c]).id ==>
                  && SentBy(now.Host().queue, j) <= Payloads(now.clients[c].slots[0].queue)
                  && (n <= ReadyEnd(now.clients[d].queue, 0) ==>
                        n <= |now.clients[d].queue| &&
                            SentBy(now.clients[d].queue[..n], j) <= Payloads(now.clients[c].slots[0].queue)))
  {
    hide Inv, FifoInv;
    var now := After(s, steps);
    SystemRunGrows(s, steps, 0);
    assert steps[..0] == [];
    FifoAlways(s, steps, c);
    FifoShape(now, c);
    ClientIdDefined(now, d);
    hide Run, CarefulRun, After, ClientOk, SystemGrows;
    forall j | 0 < j < |now.Host().slots| && now.Host().slots[j].remote.id == Local(now.clients[c]).id
      ensures SentBy(now.Host().queue, j) <= Payloads(now.clients[c].slots[0].queue)
      ensures n <= ReadyEnd(now.clients[d].queue, 0) ==>
                n <= |now.clients[d].queue| &&
                    SentBy(now.clients[d].queue[..n], j) <= Payloads(now.clients[c].slots[0].queue)
    {
      FifoLog(now, c, j);
      if n <= ReadyEnd(now.clients[d].queue, 0) {
        ReadyPrefix(now.Host(), now.clients[d], n);
        SentByPrefix(now.Host().queue, n, j);
      }
    }
  }

  lemma FifoShape(s: System, c: nat)
    requires FifoInv(s, c)
    ensures c < |s.clients| && |s.clients[c].slots| == 1
  {
  }

  // ---- What a client can check alone ----

  /** Nobody forges client c's packets, and its heartbeats resend nothing misleading at all. */
  ghost predicate Discreet(s: System, step: Step, c: nat)
    requires c < |s.clients| && |s.clients[c].slots| == 1
  {
    match step
    case Inject(p) => p.source != Local(s.clients[c]).id
    case ClientTick(i, elapsed, draws) =>
      i == c && Beats(s.clients[c], elapsed) ==>
        forall k :: 0 <= k < |s.clients[c].queue| ==> !Misleading(s.clients[c], k)
    case _ => true
  }

  ghost predicate DiscreetAt(s: System, steps: seq<Step>, n: nat, c: nat)
    requires Run(s, steps) && n < |steps|
  {
    SystemRunGrows(s, steps, n);
    var now := After(s, steps[..n]);
    c < |now.clients| && |now.clients[c].slots| == 1 && Discreet(now, steps[n], c)
  }

  /** A client that sees to that by itself, without knowing the host, is careful. */
  lemma DiscreetIsCareful(s: System, steps: seq<Step>, c: nat)
    requires Run(s, steps) && c < |s.clients| && forall n :: 0 <= n < |steps| ==> DiscreetAt(s, steps, n, c)
    ensures CarefulRun(s, steps, c)
  {
    forall n | 0 <= n < |steps| ensures CarefulAt(s, steps, n, c) {
      assert DiscreetAt(s, steps, n, c);
      DiscreetStepIsCareful(s, steps, n, c);
    }
  }

  lemma DiscreetStepIsCareful(s: System, steps: seq<Step>, n: nat, c: nat)
    requires Run(s, steps) && n < |steps| && DiscreetAt(s, steps, n, c)
    ensures CarefulAt(s, steps, n, c)
  {
    hide Run, After, Misleading, Inv, Filled;
  }
}
