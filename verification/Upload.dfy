/** The way up: one tick's packets of a client bring its whole outgoing queue into the host's log. */
module Uploads {
  import opened Options
  import opened Serial
  import opened Packets
  import opened Queues
  import opened Trails
  import opened PeerStates
  import opened HostRuns
  import opened HostGrowth
  import opened Network
  import opened Agreement
  import opened Carriage
  import opened CatchUp
  import opened ClientTicks
  import opened Heartbeats
  import opened Fifo
  import opened MisleadingBeats

  // ---- Feeding packets to the host ----

  lemma InputAllowed(s: System, p: Packet)
    requires Inv(s) && p in s.net
    ensures Allowed(s, HostInput(p))
  {
    InvHost(s);
    SentDefined(s, p);
  }

  /** The system after these packets, all sent before, were delivered to the host. */
  ghost function Fed(s: System, order: seq<Packet>): (r: System)
    requires Inv(s) && forall p :: p in order ==> p in s.net
    ensures Inv(r) && r.net == s.net && r.clients == s.clients
  {
    hide Inv, Allowed;
    if order == [] then s
    else
      var most, p := Fed(s, order[..|order| - 1]), order[|order| - 1];
      InputAllowed(most, p);
      SystemStepKeeps(most, HostInput(p));
      Next(most, HostInput(p))
  }

  lemma FedSnoc(s: System, order: seq<Packet>)
    requires Inv(s) && order != [] && forall p :: p in order ==> p in s.net
    ensures var most, p := Fed(s, order[..|order| - 1]), order[|order| - 1];
            && Allowed(most, HostInput(p)) && Fed(s, order) == Next(most, HostInput(p))
            && Fed(s, order).Host() == InputPacket(most.Host(), p).state
            && Grows(most.Host(), Fed(s, order).Host())
  {
    hide Inv, InputPacket, InputOk, Grows;
    var most, p := Fed(s, order[..|order| - 1]), order[|order| - 1];
    InputAllowed(most, p);
    InputGrows(most, p);
    InvHost(most);
  }

  lemma {:induction false} FedGrows(s: System, order: seq<Packet>)
    requires Inv(s) && forall p :: p in order ==> p in s.net
    ensures Grows(s.Host(), Fed(s, order).Host())
  {
    hide Inv, Next, Allowed;
    if order == [] {
      InvHost(s);
      TraceBounds(s.trace);
      GrowsRefl(s.Host());
    } else {
      hide Grows;
      FedGrows(s, order[..|order| - 1]);
      FedSnoc(s, order);
      GrowsTransitive(s.Host(), Fed(s, order[..|order| - 1]).Host(), Fed(s, order).Host());
    }
  }

  lemma GrowsRefl(h: PeerState)
    requires h.queueIndex <= |h.queue|
    ensures Grows(h, h)
  {
  }

  /** Delivering them one by one is taking them in in one call. */
  lemma {:induction false} FedIsInputAll(s: System, order: seq<Packet>)
    requires Inv(s) && forall p :: p in order ==> p in s.net
    ensures InputAllOk(s.Host(), order) && Fed(s, order).Host() == InputAll(s.Host(), order).state
  {
    if order != [] {
      hide Inv, Next, InputPacket, InputOk, Grows;
      FedIsInputAll(s, order[..|order| - 1]);
      FedSnoc(s, order);
    }
  }

  lemma {:induction false} FedFifo(s: System, order: seq<Packet>, c: nat)
    requires Inv(s) && FifoInv(s, c) && forall p :: p in order ==> p in s.net
    ensures FifoInv(Fed(s, order), c)
  {
    if order != [] {
      hide Inv, FifoInv, Next, Allowed;
      FedFifo(s, order[..|order| - 1], c);
      FedSnoc(s, order);
      FifoStepKeeps(Fed(s, order[..|order| - 1]), c, HostInput(order[|order| - 1]));
    }
  }

  // ---- What one packet brings ----

  /** Client c has adopted slot j and sends to it. */
  ghost predicate SendsTo(s: System, c: nat, j: nat) {
    && c < |s.clients| && |s.clients[c].slots| == 1 && 0 < j < |s.Host().slots|
    && s.clients[c].actor == j && Remote(s.clients[c]).id == s.Host().slots[j].local.id
  }

  lemma FedSendsTo(s: System, order: seq<Packet>, c: nat, j: nat)
    requires Inv(s) && SendsTo(s, c, j) && forall p :: p in order ==> p in s.net
    ensures SendsTo(Fed(s, order), c, j) && SlotGrows(s.Host().slots[j], Fed(s, order).Host().slots[j])
    ensures |Fed(s, order).Host().slots| == |s.Host().slots|
  {
    hide Inv, Fed;
    FedGrows(s, order);
    assert SlotGrows(s.Host().slots[j], Fed(s, order).Host().slots[j]);
  }

  lemma HeardFills(s: System, c: nat, j: nat, p: Packet, k: nat, m: Message)
    requires Inv(s) && SendsTo(s, c, j) && Allowed(s, HostInput(p))
    requires p.source == Local(s.clients[c]).id && p.destination == Remote(s.clients[c]).id
    requires Carries(p, m) && m.mode != MESSAGE_MODE_SERVICE && m.time == 0 && Actor32(m) == j && m.index == k
    ensures |InputPacket(s.Host(), p).state.slots| == |s.Host().slots|
    ensures Filled(InputPacket(s.Host(), p).state.slots[j].queue, k)
  {
    InvHost(s);
    SentDefined(s, p);
    ClientIdDefined(s, c);
    assert Headed(PacketChunks(p));
    var i := SomeChunk(p, m);
    hide Inv, HostInv, HostEndpointsOk, ClientOk, PacketChunks, ReadMessage, PacketOk, Carries, InputOk;
    SlotHeard(s.trace, s.clients[c], j, p, k, i);
  }

  lemma SomeChunk(p: Packet, m: Message) returns (i: nat)
    requires Carries(p, m)
    ensures i < |PacketChunks(p)| && |PacketChunks(p)[i]| >= N_MESSAGE_DATA && ReadMessage(PacketChunks(p)[i]) == m
  {
    hide PacketChunks, ReadMessage;
    var chunk :| chunk in PacketChunks(p) && |chunk| >= N_MESSAGE_DATA && ReadMessage(chunk) == m;
    i :| 0 <= i < |PacketChunks(p)| && PacketChunks(p)[i] == chunk;
  }

  lemma SlotHeard(t: HostTrace, c: PeerState, j: nat, p: Packet, k: nat, i: nat)
    requires HostInv(t) && HostEndpointsOk(t.host) && ClientOk(t.host, c) && Local(c).id != UNDEFINED
    requires 0 < j < |t.host.slots| && c.actor == j && Remote(c).id == t.host.slots[j].local.id
    requires p.source == Local(c).id && p.destination == Remote(c).id
    requires InputOk(t.host, p) && Headed(PacketChunks(p)) && i < |PacketChunks(p)|
    requires var m := ReadMessage(PacketChunks(p)[i]);
             m.mode != MESSAGE_MODE_SERVICE && m.time == 0 && Actor32(m) == j && m.index == k
    ensures |InputPacket(t.host, p).state.slots| == |t.host.slots|
    ensures Filled(InputPacket(t.host, p).state.slots[j].queue, k)
  {
    OwnSlot(t, c, p);
    hide HostInv, HostEndpointsOk, ClientOk, PacketChunks, ReadMessage, FindMatch, HasLocal, Filled;
    ReceiveAllStores(t.host, j, k, PacketChunks(p), i);
  }

  lemma {:induction false} FedFills(s: System, order: seq<Packet>, c: nat, j: nat, p: Packet, k: nat, m: Message)
    requires Inv(s) && SendsTo(s, c, j) && (forall x :: x in order ==> x in s.net) && p in order
    requires p.source == Local(s.clients[c]).id && p.destination == Remote(s.clients[c]).id
    requires Carries(p, m) && m.mode != MESSAGE_MODE_SERVICE && m.time == 0 && Actor32(m) == j && m.index == k
    ensures |Fed(s, order).Host().slots| == |s.Host().slots|
    ensures Filled(Fed(s, order).Host().slots[j].queue, k)
  {
    hide Inv, Next, Allowed, Carries, InputPacket, Extends;
    var most, last := order[..|order| - 1], order[|order| - 1];
    var mid := Fed(s, most);
    FedGrows(s, most);
    FedSnoc(s, order);
    assert SlotGrows(s.Host().slots[j], mid.Host().slots[j]);
    if p == last {
      HeardFills(mid, c, j, p, k, m);
    } else {
      FedFills(s, most, c, j, p, k, m);
      assert SlotGrows(mid.Host().slots[j], Fed(s, order).Host().slots[j]);
      FilledStays(mid.Host().slots[j].queue, Fed(s, order).Host().slots[j].queue, k);
    }
  }

  lemma FilledStays(q: seq<Entry>, r: seq<Entry>, k: nat)
    requires Extends(q, r) && Filled(q, k)
    ensures Filled(r, k)
  {
  }

  // ---- What a tick brings ----

  /** A tick that sends new messages to slot j. */
  ghost predicate SendTick(s: System, c: nat, j: nat, elapsed: int, draws: Draws) {
    && Inv(s) && SendsTo(s, c, j) && Allowed(s, ClientTick(c, elapsed, draws)) && TickAccepted(s.clients[c], elapsed)
    && s.clients[c].slots[0].outIndex < |s.clients[c].slots[0].queue|
  }

  /** And a trail that reaches all the slot lacks. */
  ghost predicate UploadTick(s: System, c: nat, j: nat, elapsed: int, draws: Draws) {
    && SendTick(s, c, j, elapsed, draws)
    && forall k: nat :: k < s.clients[c].slots[0].outIndex && !Filled(s.Host().slots[j].queue, k) ==>
         k in TrailIndices(s.clients[c].slots[0].outIndex, draws, 0)
  }

  /** While the client has sent at most 104 messages before, the trail reaches everything, whatever is drawn. */
  lemma ShortOutboxUploads(s: System, c: nat, j: nat, elapsed: int, draws: Draws)
    requires Inv(s) && SendsTo(s, c, j) && Allowed(s, ClientTick(c, elapsed, draws)) &&
        TickAccepted(s.clients[c], elapsed)
    requires s.clients[c].slots[0].outIndex < |s.clients[c].slots[0].queue| && s.clients[c].slots[0].outIndex <= 104
    ensures UploadTick(s, c, j, elapsed, draws)
  {
    hide Inv, Allowed, TrailIndices, Filled;
    var index := s.clients[c].slots[0].outIndex;
    forall k: nat | k < index ensures k in TrailIndices(index, draws, 0) {
      TrailCoverage(index, 0, k);
    }
  }

  lemma TickCarriesOutbox(s: System, c: nat, j: nat, elapsed: int, draws: Draws)
    requires SendTick(s, c, j, elapsed, draws)
    ensures var client := s.clients[c]; var slot := client.slots[0];
            var ps := PeerStates.Tick(client, elapsed, draws).packets;
            && CarrySent(ps, slot.queue, slot.outIndex, draws, 0)
            && QueueFits(slot.queue)
            && ps == QueuePackets(slot.queue, slot.outIndex, slot.local.id, slot.remote.id, draws, 0)
            && (forall p :: p in ps ==> p.source == Local(client).id && p.destination == Remote(client).id)
            && (forall k :: 0 <= k < |slot.queue| ==>
                  && MessageAt(slot.queue, k).time == 0 && Actor32(MessageAt(slot.queue, k)) == j)
  {
    var client, h := s.clients[c], s.Host();
    var slot := client.slots[0];
    InvHost(s);
    ClientIdDefined(s, c);
    ActorLimit(s.trace);
    OutboxEntries(h, client);
    OutboxSendable(h, client);
    ClientTickKeeps(h, client, elapsed, draws);
    ClientTickShape(h, client, elapsed, draws);
    ClientTickPackets(client, elapsed, draws);
    hide Inv, HostInv, ClientOk, PeerStates.Tick, TickOk, QueuePackets, CarrySent, Sendable, TrailIndices;
    QueuePacketsCarrySent(slot.queue, slot.outIndex, slot.local.id, slot.remote.id, draws, 0);
    OutboxAddressed(client, draws);
  }

  lemma OutboxEntries(h: PeerState, c: PeerState)
    requires ClientOk(h, c) && c.actor >= 0 && c.actor < TWO_32
    ensures forall k :: 0 <= k < |c.slots[0].queue| ==>
              MessageAt(c.slots[0].queue, k).time == 0 && Actor32(MessageAt(c.slots[0].queue, k)) == c.actor
  {
    hide MutualOk, SessionOk;
  }

  lemma OutboxAddressed(c: PeerState, draws: Draws)
    requires |c.slots| == 1 && QueueFits(c.slots[0].queue) && c.slots[0].outIndex < |c.slots[0].queue|
    ensures var slot := c.slots[0];
            forall p :: p in QueuePackets(slot.queue, slot.outIndex, slot.local.id, slot.remote.id, draws, 0) ==>
              p.destination == Remote(c).id
  {
    var slot := c.slots[0];
    SendIndicesInRange(slot.queue, slot.outIndex, draws, 0);
    ChunksFramed(slot.queue, SendIndices(|slot.queue|, slot.outIndex, draws, 0));
    PackedPacketsShape(slot.local.id, slot.remote.id, QueueChunks(slot.queue, slot.outIndex, draws, 0));
  }

  /** Deliver the packets of the tick, in any order, any number of times, among any others ever sent: the inbox is
      then filled under every index the client has queued a message at. */
  lemma OutboxArrives(s: System, c: nat, j: nat, elapsed: int, draws: Draws, order: seq<Packet>)
    requires UploadTick(s, c, j, elapsed, draws)
    requires forall p :: p in order ==> p in Next(s, ClientTick(c, elapsed, draws)).net
    requires forall p :: p in PeerStates.Tick(s.clients[c], elapsed, draws).packets ==> p in order
    ensures Inv(Next(s, ClientTick(c, elapsed, draws)))
    ensures var h := Fed(Next(s, ClientTick(c, elapsed, draws)), order).Host();
            |h.slots| == |s.Host().slots|
            && forall k :: 0 <= k < |s.clients[c].slots[0].queue| ==> Filled(h.slots[j].queue, k)
  {
    var next, out := Next(s, ClientTick(c, elapsed, draws)), s.clients[c].slots[0].queue;
    AfterUpload(s, c, j, elapsed, draws);
    FedGrows(next, order);
    var h := Fed(next, order).Host();
    assert SlotGrows(s.Host().slots[j], h.slots[j]);
    hide Inv, Next, Allowed, PeerStates.Tick, Fed, Extends;
    forall k | 0 <= k < |out| ensures Filled(h.slots[j].queue, k) {
      if Filled(s.Host().slots[j].queue, k) {
        FilledStays(s.Host().slots[j].queue, h.slots[j].queue, k);
      } else {
        var p := SomePacketCarries(s, c, j, elapsed, draws, k);
        FedFills(next, order, c, j, p, k, MessageAt(out, k));
      }
    }
  }

  lemma AfterUpload(s: System, c: nat, j: nat, elapsed: int, draws: Draws)
    requires UploadTick(s, c, j, elapsed, draws)
    ensures var next := Next(s, ClientTick(c, elapsed, draws));
            && Inv(next) && next.Host() == s.Host() && SendsTo(next, c, j)
            && Local(next.clients[c]) == Local(s.clients[c]) && Remote(next.clients[c]) == Remote(s.clients[c])
            && next.clients[c].slots[0].queue == s.clients[c].slots[0].queue
  {
    assert Inv(s) && SendsTo(s, c, j);
    hide Inv, UploadTick, SendTick, Allowed, Next;
    SystemStepKeeps(s, ClientTick(c, elapsed, draws));
    AfterTick(s, c, elapsed, draws);
  }

  lemma SomePacketCarries(s: System, c: nat, j: nat, elapsed: int, draws: Draws, k: nat) returns (p: Packet)
    requires UploadTick(s, c, j, elapsed, draws)
    requires k < |s.clients[c].slots[0].queue| && !Filled(s.Host().slots[j].queue, k)
    ensures p in PeerStates.Tick(s.clients[c], elapsed, draws).packets
    ensures p.source == Local(s.clients[c]).id && p.destination == Remote(s.clients[c]).id
    ensures var m := MessageAt(s.clients[c].slots[0].queue, k);
            Carries(p, m) && m.time == 0 && Actor32(m) == j
  {
    var slot := s.clients[c].slots[0];
    assert IsSent(slot.outIndex, draws, 0, k);
    var ps := PeerStates.Tick(s.clients[c], elapsed, draws).packets;
    TickCarriesOutbox(s, c, j, elapsed, draws);
    hide *;
    p := SentCarried(ps, slot.queue, slot.outIndex, draws, 0, k);
  }

  lemma SentCarried(ps: seq<Packet>, log: seq<Entry>, index: nat, draws: Draws, slot: nat, k: nat) returns (p: Packet)
    requires CarrySent(ps, log, index, draws, slot) && k < |log| && IsSent(index, draws, slot, k)
    ensures p in ps && Carries(p, MessageAt(log, k))
  {
    hide Carries, IsSent;
    assert Among(ps, MessageAt(log, k));
    p :| p in ps && Carries(p, MessageAt(log, k));
  }

  // ---- And into the log ----

  /** On the host's next tick the log holds, from the client's slot, everything the client queued, in order. */
  lemma OutboxLogged(s: System, c: nat, j: nat, elapsed: int, draws: Draws, order: seq<Packet>,
                     later: int, laterDraws: Draws)
    requires UploadTick(s, c, j, elapsed, draws) && FifoInv(s, c)
    requires forall p :: p in order ==> p in Next(s, ClientTick(c, elapsed, draws)).net
    requires forall p :: p in PeerStates.Tick(s.clients[c], elapsed, draws).packets ==> p in order
    ensures Inv(Next(s, ClientTick(c, elapsed, draws)))
    ensures var fed := Fed(Next(s, ClientTick(c, elapsed, draws)), order);
            TickAccepted(fed.Host(), later) ==>
              && TickOk(fed.Host(), later)
              && SentBy(PeerStates.Tick(fed.Host(), later, laterDraws).state.queue, j)
                 == Payloads(s.clients[c].slots[0].queue)
  {
    var step := ClientTick(c, elapsed, draws);
    UploadCareful(s, c, j, elapsed, draws);
    hide *;
    OutboxArrives(s, c, j, elapsed, draws, order);
    AfterUpload(s, c, j, elapsed, draws);
    FifoStepKeeps(s, c, step);
    FedFifo(Next(s, step), order, c);
    FedSendsTo(Next(s, step), order, c, j);
    FullInboxLogged(Fed(Next(s, step), order), c, j, later, laterDraws);
  }

  /** A tick that sends new messages is no heartbeat, so there is nothing to be careful about. */
  lemma UploadCareful(s: System, c: nat, j: nat, elapsed: int, draws: Draws)
    requires UploadTick(s, c, j, elapsed, draws)
    ensures Inv(s) && Allowed(s, ClientTick(c, elapsed, draws)) && Careful(s, ClientTick(c, elapsed, draws), c)
  {
    hide Inv;
  }

  lemma FullInboxLogged(s: System, c: nat, j: nat, elapsed: int, draws: Draws)
    requires Inv(s) && FifoInv(s, c) && SendsTo(s, c, j)
    requires forall k :: 0 <= k < |s.clients[c].slots[0].queue| ==> Filled(s.Host().slots[j].queue, k)
    ensures TickAccepted(s.Host(), elapsed) ==>
              && TickOk(s.Host(), elapsed)
              && SentBy(PeerStates.Tick(s.Host(), elapsed, draws).state.queue, j)
                 == Payloads(s.clients[c].slots[0].queue)
  {
    InvHost(s);
    ClientIdDefined(s, c);
    SessionBound(s.Host(), s.clients[c], j);
    SlotsAre(s.trace, j);
    assert InboxFrom(s.Host().slots[j], s.clients[c].slots[0].queue);
    hide Inv, FifoInv, HostInv, PeerStates.Tick, TickOk, ClientOk;
    if TickAccepted(s.Host(), elapsed) {
      TickNeverBlocked(s.trace, elapsed, draws);
      TickSettles(s.trace, elapsed, draws);
      ElapseKeeps(s.trace, elapsed, draws);
      var next := HostNext(s.trace, Elapse(elapsed, draws));
      SlotsAre(next, j);
      DrainedInbox(s.Host().slots[j], next.host.slots[j], j, next.host.queue, s.clients[c].slots[0].queue);
    }
  }

  lemma DrainedInbox(a: Slot, b: Slot, j: nat, log: seq<Entry>, out: seq<Entry>)
    requires SlotSettled(a, b, log) && TakenOk(b, j, log) && InboxOk(a, j)
    requires InboxFrom(a, out) && forall k :: 0 <= k < |out| ==> Filled(a.queue, k)
    ensures SentBy(log, j) == Payloads(out)
  {
    hide SlotGrows, SentBy;
    forall k | 0 <= k < |out| ensures k < |a.queue| && a.queue[k].ready && a.queue[k].data == out[k].data {
      assert Filled(a.queue, k);
    }
    assert b.inIndex < |out| ==> Filled(a.queue, b.inIndex);
    assert forall k :: 0 <= k < b.inIndex ==> a.queue[k].ready;
    assert b.inIndex > 0 ==> a.queue[b.inIndex - 1].ready;
    assert b.inIndex < |a.queue| ==> !a.queue[b.inIndex].ready;
    assert b.inIndex >= |out|;
    assert b.inIndex <= |out|;
    assert SentBy(log, j) == Payloads(a.queue[..|out|]);
    hide InboxOk, InboxFrom, TakenOk, ReadyEnd;
  }
}
