/** One tick's packets bring a client fully up to date exactly if they reach everything it lacks, in particular
    while its slot is not more than 104 messages in. */
module CatchUp {
  import opened Options
  import opened Serial
  import opened Packets
  import opened Queues
  import opened Trails
  import opened PeerStates
  import opened HostRuns
  import opened HostGrowth
  import opened Network
  import opened Agreement
  import opened Carriage

  /** The packets the host produces for slot j on a tick. */
  ghost function SlotPackets(h: PeerState, j: nat, elapsed: int, draws: Draws): seq<Packet>
    requires HostSendable(Merged(Advanced(h, elapsed))) && 0 < j < |h.slots|
  {
    HostSend(Merged(Advanced(h, elapsed)), j, draws).packets
  }

  // ---- They carry the whole log ----

  lemma {:induction false} SlotPacketsSent(m: PeerState, n: nat, j: nat, draws: Draws)
    requires HostSendable(m) && 0 < j < n <= |m.slots|
    ensures forall p :: p in HostSend(m, j, draws).packets ==> p in SentPackets(m, n, draws)
  {
    hide HostSend;
    if j < n - 1 {
      SlotPacketsSent(m, n - 1, j, draws);
    }
  }

  lemma LogSendable(g: PeerState)
    requires Publishing(g)
    ensures QueueFits(g.queue) && SendableBelow(g.queue, |g.queue|) && Sendable(Heartbeat(g.time, g.actor))
  {
  }

  // ---- What the packets for a slot carry ----

  /** Message k is new to the slot, or in its trail. */
  predicate IsSent(index: nat, draws: Draws, slot: nat, k: nat) {
    k >= index || k in TrailIndices(index, draws, slot)
  }

  /** The packets carry exactly the entries of the log that are sent, and service messages. */
  ghost predicate CarrySent(ps: seq<Packet>, log: seq<Entry>, index: nat, draws: Draws, slot: nat) {
    && (forall k :: 0 <= k < |log| ==> (Among(ps, MessageAt(log, k)) <==> IsSent(index, draws, slot, k)))
    && (forall m :: Among(ps, m) && m.mode != MESSAGE_MODE_SERVICE ==>
          0 <= m.index < |log| && m == MessageAt(log, m.index))
  }

  lemma ExactlySent(ps: seq<Packet>, ms: seq<Message>, log: seq<Entry>, index: nat, draws: Draws, slot: nat)
    requires CarryExactly(ps, ms)
    requires forall k :: 0 <= k < |log| ==> (MessageAt(log, k) in ms <==> IsSent(index, draws, slot, k))
    requires forall m :: m in ms && m.mode != MESSAGE_MODE_SERVICE ==>
        0 <= m.index < |log| && m == MessageAt(log, m.index)
    ensures CarrySent(ps, log, index, draws, slot)
  {
    hide Carries, IsSent;
    forall m ensures Among(ps, m) <==> m in ms {
    }
    hide CarryExactly, Among;
  }

  lemma QueuePacketsCarrySent(log: seq<Entry>, index: nat, source: int, destination: int, draws: Draws, slot: nat)
    requires QueueFits(log) && SendableBelow(log, |log|) && index < |log|
    ensures CarrySent(QueuePackets(log, index, source, destination, draws, slot), log, index, draws, slot)
  {
    hide QueuePackets, Sendable, TrailIndices, CarryExactly, CarrySent;
    var indices := SendIndices(|log|, index, draws, slot);
    QueuePacketsCarry(log, index, source, destination, draws, slot);
    var ms := MessagesAt(log, indices);
    forall k | 0 <= k < |log| ensures MessageAt(log, k) in ms <==> IsSent(index, draws, slot, k) {
      MessageInList(log, indices, k);
      assert k in NewIndices(|log|, index) <==> k >= index by {
        if k >= index {
          assert NewIndices(|log|, index)[k - index] == k;
        }
      }
    }
    ExactlySent(QueuePackets(log, index, source, destination, draws, slot), ms, log, index, draws, slot);
  }

  lemma MessageInList(log: seq<Entry>, indices: seq<nat>, k: nat)
    requires IndicesOf(log, indices) && k < |log|
    ensures MessageAt(log, k) in MessagesAt(log, indices) <==> k in indices
  {
    if k in indices {
      var i :| 0 <= i < |indices| && indices[i] == k;
      assert MessagesAt(log, indices)[i] == MessageAt(log, k);
    }
  }

  lemma HeartbeatPacketsCarrySent(local: int, remote: int, log: seq<Entry>, time: int, actor: int, draws: Draws,
      slot: nat)
    requires QueueFits(log) && SendableBelow(log, |log|) && Sendable(Heartbeat(time, actor))
    ensures CarrySent(HeartbeatPackets(local, remote, log, |log|, time, actor, draws, slot), log, |log|, draws, slot)
  {
    hide HeartbeatPackets, Sendable, TrailIndices, CarryExactly, CarrySent;
    var indices := TrailIndices(|log|, draws, slot);
    HeartbeatPacketsCarry(local, remote, log, |log|, time, actor, draws, slot);
    var ms := [Heartbeat(time, actor)] + MessagesAt(log, indices);
    forall k | 0 <= k < |log| ensures MessageAt(log, k) in ms <==> IsSent(|log|, draws, slot, k) {
      MessageInList(log, indices, k);
    }
    ExactlySent(HeartbeatPackets(local, remote, log, |log|, time, actor, draws, slot), ms, log, |log|, draws, slot);
  }

  ghost predicate CarriesLog(ps: seq<Packet>, log: seq<Entry>) {
    forall k :: 0 <= k < |log| ==> Among(ps, MessageAt(log, k))
  }

  /** Draws that leave the first message out. */
  lemma MissingFirst(index: nat, slot: nat) returns (draws: Draws)
    requires index > 104
    ensures !IsSent(index, draws, slot, 0)
  {
    TrailCoverage(index, slot, 0);
    draws :| 0 !in TrailIndices(index, draws, slot);
  }

  lemma AllSent(index: nat, draws: Draws, slot: nat, k: nat)
    requires index <= 104
    ensures IsSent(index, draws, slot, k)
  {
    if k < index {
      TrailCoverage(index, slot, k);
    }
  }

  /** New messages with their trail carry the whole log, whatever is drawn, exactly up to an index of 104. */
  lemma CarriesLogIff(log: seq<Entry>, index: nat, source: int, destination: int, slot: nat)
    requires QueueFits(log) && SendableBelow(log, |log|) && index < |log|
    ensures (forall draws: Draws :: CarriesLog(QueuePackets(log, index, source, destination, draws, slot), log))
        <==> index <= 104
  {
    hide QueuePackets, IsSent, Among, Sendable;
    if index <= 104 {
      forall draws: Draws ensures CarriesLog(QueuePackets(log, index, source, destination, draws, slot), log) {
        QueuePacketsCarrySent(log, index, source, destination, draws, slot);
        forall k | 0 <= k < |log| ensures IsSent(index, draws, slot, k) {
          AllSent(index, draws, slot, k);
        }
      }
    } else {
      var draws := MissingFirst(index, slot);
      QueuePacketsCarrySent(log, index, source, destination, draws, slot);
      assert !CarriesLog(QueuePackets(log, index, source, destination, draws, slot), log);
    }
  }

  /** And so does a heartbeat. */
  lemma HeartbeatCarriesLogIff(local: int, remote: int, log: seq<Entry>, time: int, actor: int, slot: nat)
    requires QueueFits(log) && SendableBelow(log, |log|) && Sendable(Heartbeat(time, actor))
    ensures (forall draws: Draws ::
               CarriesLog(HeartbeatPackets(local, remote, log, |log|, time, actor, draws, slot), log))
        <==> |log| <= 104
  {
    hide HeartbeatPackets, IsSent, Among, Sendable;
    if |log| <= 104 {
      forall draws: Draws
        ensures CarriesLog(HeartbeatPackets(local, remote, log, |log|, time, actor, draws, slot), log)
      {
        HeartbeatPacketsCarrySent(local, remote, log, time, actor, draws, slot);
        forall k | 0 <= k < |log| ensures IsSent(|log|, draws, slot, k) {
          AllSent(|log|, draws, slot, k);
        }
      }
    } else {
      var draws := MissingFirst(|log|, slot);
      HeartbeatPacketsCarrySent(local, remote, log, time, actor, draws, slot);
      assert !CarriesLog(HeartbeatPackets(local, remote, log, |log|, time, actor, draws, slot), log);
    }
  }

  lemma SlotPacketsCarrySent(m: PeerState, j: nat, draws: Draws)
    requires 0 < j < |m.slots| && SlotSendable(m.queue, m.slots[j])
    requires SendableBelow(m.queue, |m.queue|) && Sendable(Heartbeat(m.time, m.actor))
    requires m.slots[j].state == Ready && HostSend(m, j, draws).packets != []
    ensures CarrySent(HostSend(m, j, draws).packets, m.queue, m.slots[j].outIndex, draws, j)
  {
    hide QueuePackets, HeartbeatPackets, CarrySent, Sendable;
    var slot := m.slots[j];
    if slot.outIndex < |m.queue| {
      QueuePacketsCarrySent(m.queue, slot.outIndex, slot.local.id, slot.remote.id, draws, j);
    } else {
      HeartbeatPacketsCarrySent(slot.local.id, slot.remote.id, m.queue, m.time, m.actor, draws, j);
    }
  }

  lemma SlotPacketsAddressed(m: PeerState, j: nat, draws: Draws)
    requires 0 < j < |m.slots| && SlotSendable(m.queue, m.slots[j]) && m.slots[j].state == Ready
    ensures forall p :: p in HostSend(m, j, draws).packets ==>
              p.source == m.slots[j].local.id && p.destination == m.slots[j].remote.id
  {
    var slot := m.slots[j];
    if slot.outIndex < |m.queue| {
      SendIndicesInRange(m.queue, slot.outIndex, draws, j);
      ChunksFramed(m.queue, SendIndices(|m.queue|, slot.outIndex, draws, j));
      PackedPacketsShape(slot.local.id, slot.remote.id, QueueChunks(m.queue, slot.outIndex, draws, j));
    } else {
      HeartbeatChunksFramed(m.queue, slot.outIndex, m.time, m.actor, draws, j);
      PackedPacketsShape(slot.local.id, slot.remote.id,
          HeartbeatChunks(m.queue, slot.outIndex, m.time, m.actor, draws, j));
    }
  }

  // ---- Delivering them in any order ----

  /** Every message of the log that p carries is filled in q. */
  ghost predicate Reached(p: Packet, log: seq<Entry>, q: seq<Entry>) {
    forall k :: 0 <= k < |log| && Carries(p, MessageAt(log, k)) ==> Filled(q, k)
  }

  lemma DeliveredReached(p: Packet, log: seq<Entry>, q: seq<Entry>)
    requires Headed(PacketChunks(p)) && Delivered(PacketChunks(p), q)
    ensures Reached(p, log, q)
  {
    hide PacketChunks, ReadMessage;
    forall k | 0 <= k < |log| && Carries(p, MessageAt(log, k)) ensures Filled(q, k) {
      var c :| c in PacketChunks(p) && |c| >= N_MESSAGE_DATA && ReadMessage(c) == MessageAt(log, k);
      var i :| 0 <= i < |PacketChunks(p)| && PacketChunks(p)[i] == c;
    }
  }

  lemma ReachedStays(p: Packet, log: seq<Entry>, q: seq<Entry>, r: seq<Entry>)
    requires Reached(p, log, q) && Extends(q, r)
    ensures Reached(p, log, r)
  {
    hide Carries;
  }

  ghost predicate ForClient(c: PeerState, p: Packet) {
    |c.slots| > 0 && Local(c).id == p.destination && Remote(c).id == p.source
  }

  /** Any packets ever sent, in any order and repeated at will: each one addressed to the client gets through. */
  lemma {:induction false} DeliverAllGood(g: PeerState, c: PeerState, order: seq<Packet>)
    requires HostEndpointsOk(g) && ClientOk(g, c) && forall p :: p in order ==> PacketOk(g, p)
    ensures InputAllOk(c, order)
    ensures var r := InputAll(c, order).state;
            && ClientOk(g, r) && |c.slots| == 1 && |r.slots| == 1 && Local(r) == Local(c)
            && Remote(r).id == Remote(c).id
            && Extends(c.queue, r.queue)
            && forall p :: p in order && ForClient(c, p) ==> Reached(p, g.queue, r.queue)
  {
    hide HostEndpointsOk, ClientOk, PacketOk, InputOk, InputPacket, Reached, Delivered;
    ClientMode(g, c);
    if order != [] {
      var most, p := order[..|order| - 1], order[|order| - 1];
      hide Extends;
      DeliverAllGood(g, c, most);
      var mid := InputAll(c, most).state;
      DeliverOneGood(g, mid, p);
      var r := InputPacket(mid, p).state;
      ExtendsTransitive(c.queue, mid.queue, r.queue);
      forall x | x in order && ForClient(c, x) ensures Reached(x, g.queue, r.queue) {
        if x in most {
          ReachedStays(x, g.queue, mid.queue, r.queue);
        }
      }
    }
  }

  lemma DeliverOneGood(g: PeerState, c: PeerState, p: Packet)
    requires HostEndpointsOk(g) && ClientOk(g, c) && PacketOk(g, p)
    ensures InputOk(c, p)
    ensures var r := InputPacket(c, p).state;
            && ClientOk(g, r) && |c.slots| == 1 && |r.slots| == 1 && Local(r) == Local(c)
            && Remote(r).id == Remote(c).id
            && Extends(c.queue, r.queue)
            && (ForClient(c, p) ==> Reached(p, g.queue, r.queue))
  {
    hide HostEndpointsOk, ClientOk, PacketOk, InputOk, InputPacket, Reached, Extends, Delivered;
    ClientMode(g, c);
    DeliveryNeverBlocked(g, c, p);
    InputGood(g, c, p);
    var r := InputPacket(c, p).state;
    ClientMode(g, r);
    PacketHeaded(g, p);
    if ForClient(c, p) {
      DeliveredReached(p, g.queue, r.queue);
    }
  }

  lemma PacketHeaded(g: PeerState, p: Packet)
    requires PacketOk(g, p)
    ensures Headed(PacketChunks(p))
  {
  }

  /** A client that holds something under every index holds the log. */
  lemma FullyReady(g: PeerState, c: PeerState)
    requires ClientOk(g, c) && g.queueIndex == |g.queue|
    requires forall k :: 0 <= k < |g.queue| ==> Filled(c.queue, k)
    ensures c.queue == g.queue
  {
    hide OutboxOk, SessionOk;
    assert MutualOk(g, c.queue, c.time);
    if |g.queue| > 0 {
      assert Filled(c.queue, |g.queue| - 1);
    }
    forall k | 0 <= k < |g.queue| ensures c.queue[k] == g.queue[k] {
      assert Filled(c.queue, k);
    }
  }

  // ---- Catching up in one tick ----

  /** Slot j is ready and sent to on this tick, and client c listens to it. */
  ghost predicate SentTo(s: System, c: nat, j: nat, elapsed: int, draws: Draws) {
    && c < |s.clients| && |s.clients[c].slots| == 1 && 0 < j < |s.Host().slots|
    && TickAccepted(s.Host(), elapsed)
    && HostSendable(Merged(Advanced(s.Host(), elapsed)))
    && s.Host().slots[j].state == Ready
    && s.Host().slots[j].remote.id == Local(s.clients[c]).id
    && Remote(s.clients[c]).id == s.Host().slots[j].local.id
    && SlotPackets(s.Host(), j, elapsed, draws) != []
  }

  /** Every message the client lacks below the slot's out-index is in the trail. */
  ghost predicate GapsResent(s: System, c: nat, j: nat, draws: Draws)
    requires c < |s.clients| && j < |s.Host().slots|
  {
    forall k: nat :: k < s.Host().slots[j].outIndex && !Filled(s.clients[c].queue, k) ==>
      k in TrailIndices(s.Host().slots[j].outIndex, draws, j)
  }

  lemma TickCarriesSent(s: System, c: nat, j: nat, elapsed: int, draws: Draws)
    requires Inv(s) && Allowed(s, HostTick(elapsed, draws)) && SentTo(s, c, j, elapsed, draws)
    ensures var g := PeerStates.Tick(s.Host(), elapsed, draws).state;
            && g.queueIndex == |g.queue| && s.Host().slots[j].outIndex <= |g.queue|
            && (forall k :: 0 <= k < |g.queue| ==> g.queue[k].ready)
            && CarrySent(SlotPackets(s.Host(), j, elapsed, draws), g.queue, s.Host().slots[j].outIndex, draws, j)
            && (forall p :: p in SlotPackets(s.Host(), j, elapsed, draws) ==> ForClient(s.clients[c], p))
            && (forall p :: p in SlotPackets(s.Host(), j, elapsed, draws) ==>
                  p in PeerStates.Tick(s.Host(), elapsed, draws).packets)
  {
    InvHost(s);
    hide Inv, HostInv, HostEndpointsOk, Merged, HostSend, SendableBelow, Sendable, CarrySent;
    var t, m := s.trace, Merged(Advanced(s.Host(), elapsed));
    TickPublishes(t, elapsed, draws);
    TickedState(t, elapsed, draws);
    MergedSettles(t, elapsed, j);
    LogSendable(PeerStates.Tick(s.Host(), elapsed, draws).state);
    SlotPacketsCarrySent(m, j, draws);
    SlotPacketsAddressed(m, j, draws);
    SlotPacketsSent(m, |m.slots|, j, draws);
  }

  /** Deliver the packets of one tick for a client's slot, in any order, any number of times, among any other packets
      ever sent: the client then holds the whole log of the host, whatever was lost before, if the trail reaches
      all it lacks. */
  lemma OneTickCatchUp(s: System, c: nat, j: nat, elapsed: int, draws: Draws, order: seq<Packet>)
    requires Inv(s) && Allowed(s, HostTick(elapsed, draws)) && SentTo(s, c, j, elapsed, draws)
    requires GapsResent(s, c, j, draws)
    requires forall p :: p in order ==> p in Next(s, HostTick(elapsed, draws)).net
    requires forall p :: p in SlotPackets(s.Host(), j, elapsed, draws) ==> p in order
    ensures InputAllOk(s.clients[c], order)
    ensures InputAll(s.clients[c], order).state.queue == Next(s, HostTick(elapsed, draws)).Host().queue
  {
    var next := Next(s, HostTick(elapsed, draws));
    SystemStepKeeps(s, HostTick(elapsed, draws));
    TickCarriesSent(s, c, j, elapsed, draws);
    NextHost(s, elapsed, draws);
    hide Inv, PeerStates.Tick, SlotPackets, ForClient, SentTo, Among;
    DeliveryFills(next, c, SlotPackets(s.Host(), j, elapsed, draws), order);
  }

  /** The bare packets of the tick bring the client up to date exactly if the trail reaches all it lacks. */
  lemma OneTickCatchUpIff(s: System, c: nat, j: nat, elapsed: int, draws: Draws)
    requires Inv(s) && Allowed(s, HostTick(elapsed, draws)) && SentTo(s, c, j, elapsed, draws)
    ensures InputAllOk(s.clients[c], SlotPackets(s.Host(), j, elapsed, draws))
    ensures InputAll(s.clients[c], SlotPackets(s.Host(), j, elapsed, draws)).state.queue
            == PeerStates.Tick(s.Host(), elapsed, draws).state.queue
        <==> GapsResent(s, c, j, draws)
  {
    var next, ps := Next(s, HostTick(elapsed, draws)), SlotPackets(s.Host(), j, elapsed, draws);
    SystemStepKeeps(s, HostTick(elapsed, draws));
    TickCarriesSent(s, c, j, elapsed, draws);
    NextHost(s, elapsed, draws);
    hide Inv, PeerStates.Tick, SlotPackets, ForClient, SentTo, Among, CarrySent;
    DeliveryAllowed(next, c, ps);
    if GapsResent(s, c, j, draws) {
      OneTickCatchUp(s, c, j, elapsed, draws, ps);
    } else {
      var k: nat :| k < s.Host().slots[j].outIndex && !Filled(s.clients[c].queue, k)
                    && k !in TrailIndices(s.Host().slots[j].outIndex, draws, j);
      GapStays(next, c, ps, s.Host().slots[j].outIndex, draws, j, k);
    }
  }

  /** Whatever is drawn, one tick's packets bring the client up to date, exactly if all it lacks is among the first
      105 messages or the last five before the slot's out-index. */
  lemma GapsAlwaysResentIff(s: System, c: nat, j: nat)
    requires c < |s.clients| && j < |s.Host().slots|
    ensures var index := s.Host().slots[j].outIndex;
            (forall draws: Draws :: GapsResent(s, c, j, draws))
            <==> forall k: nat :: k < index && !Filled(s.clients[c].queue, k) ==> index < 105 || k >= index - 5
  {
    hide TrailIndices, Filled;
    var index, q := s.Host().slots[j].outIndex, s.clients[c].queue;
    if forall draws: Draws :: GapsResent(s, c, j, draws) {
      forall k: nat | k < index && !Filled(q, k) ensures index < 105 || k >= index - 5 {
        TrailCoverage(index, j, k);
        forall draws: Draws ensures k in TrailIndices(index, draws, j) {
          assert GapsResent(s, c, j, draws);
        }
      }
    }
    if forall k: nat :: k < index && !Filled(q, k) ==> index < 105 || k >= index - 5 {
      forall draws: Draws ensures GapsResent(s, c, j, draws) {
        forall k: nat | k < index && !Filled(q, k) ensures k in TrailIndices(index, draws, j) {
          TrailCoverage(index, j, k);
        }
      }
    }
  }

  /** In particular while the slot is not more than 104 messages in, whatever the client lacks. */
  lemma ShortLogCatchUp(s: System, c: nat, j: nat, elapsed: int, draws: Draws, order: seq<Packet>)
    requires Inv(s) && Allowed(s, HostTick(elapsed, draws)) && SentTo(s, c, j, elapsed, draws)
    requires s.Host().slots[j].outIndex <= 104
    requires forall p :: p in order ==> p in Next(s, HostTick(elapsed, draws)).net
    requires forall p :: p in SlotPackets(s.Host(), j, elapsed, draws) ==> p in order
    ensures InputAllOk(s.clients[c], order)
    ensures InputAll(s.clients[c], order).state.queue == Next(s, HostTick(elapsed, draws)).Host().queue
  {
    GapsAlwaysResentIff(s, c, j);
    OneTickCatchUp(s, c, j, elapsed, draws, order);
  }

  lemma DeliveryAllowed(s: System, c: nat, order: seq<Packet>)
    requires Inv(s) && c < |s.clients| && forall p :: p in order ==> p in s.net
    ensures |s.clients[c].slots| == 1
    ensures InputAllOk(s.clients[c], order)
    ensures ClientOk(s.Host(), InputAll(s.clients[c], order).state)
    ensures Extends(s.clients[c].queue, InputAll(s.clients[c], order).state.queue)
    ensures forall p :: p in order && ForClient(s.clients[c], p) ==>
              Reached(p, s.Host().queue, InputAll(s.clients[c], order).state.queue)
  {
    InvHost(s);
    ClientIdDefined(s, c);
    forall p | p in order ensures PacketOk(s.Host(), p) {
      SentDefined(s, p);
    }
    hide Inv, HostInv, HostEndpointsOk, ClientOk, PacketOk, ForClient;
    DeliverAllGood(s.Host(), s.clients[c], order);
  }

  lemma DeliveryFills(s: System, c: nat, ps: seq<Packet>, order: seq<Packet>)
    requires Inv(s) && c < |s.clients| && s.Host().queueIndex == |s.Host().queue|
    requires forall k :: 0 <= k < |s.Host().queue| ==>
               Filled(s.clients[c].queue, k) || Among(ps, MessageAt(s.Host().queue, k))
    requires forall p :: p in ps ==> ForClient(s.clients[c], p) && p in order
    requires forall p :: p in order ==> p in s.net
    ensures InputAllOk(s.clients[c], order)
    ensures InputAll(s.clients[c], order).state.queue == s.Host().queue
  {
    var g := s.Host();
    DeliveryAllowed(s, c, order);
    hide Inv, ClientOk, ForClient, Carries, Reached, InputAll;
    var r := InputAll(s.clients[c], order).state;
    forall k | 0 <= k < |g.queue| ensures Filled(r.queue, k) {
      if !Filled(s.clients[c].queue, k) {
        assert Among(ps, MessageAt(g.queue, k));
        var p :| p in ps && Carries(p, MessageAt(g.queue, k));
        ReachedEntry(p, g.queue, r.queue, k);
      }
    }
    FullyReady(g, r);
  }

  lemma ReachedEntry(p: Packet, log: seq<Entry>, q: seq<Entry>, k: nat)
    requires Reached(p, log, q) && k < |log| && Carries(p, MessageAt(log, k))
    ensures Filled(q, k)
  {
    hide Carries;
  }

  // ---- What is not sent stays missing ----

  lemma {:induction false} ReceiveAllMisses(c: PeerState, chunks: seq<Chunk>, k: nat)
    requires c.mode == Client && |c.slots| == 1 && Headed(chunks)
    requires forall i :: 0 <= i < |chunks| && ReadMessage(chunks[i]).mode != MESSAGE_MODE_SERVICE ==>
               ReadMessage(chunks[i]).index != k
    ensures Filled(ReceiveAll(c, 0, chunks).state.queue, k) ==> Filled(c.queue, k)
  {
    if chunks != [] {
      hide ReadMessage, ClientReceive;
      var most, m := chunks[..|chunks| - 1], ReadMessage(chunks[|chunks| - 1]);
      ReceiveAllMisses(c, most, k);
      ReceiveMisses(ReceiveAll(c, 0, most).state, m, k);
    }
  }

  lemma ReceiveMisses(c: PeerState, m: Message, k: nat)
    requires |c.slots| == 1 && (m.mode != MESSAGE_MODE_SERVICE ==> m.index != k)
    ensures Filled(ClientReceive(c, 0, m).state.queue, k) ==> Filled(c.queue, k)
  {
    InsertExtends(c.queue, m.index, m.time, Actor32(m), m.data);
  }

  /** No message in the packet goes to index k. */
  ghost predicate Misses(p: Packet, k: nat) {
    forall m :: Carries(p, m) && m.mode != MESSAGE_MODE_SERVICE ==> m.index != k
  }

  lemma InputMisses(c: PeerState, p: Packet, k: nat)
    requires c.mode == Client && |c.slots| == 1 && InputOk(c, p) && Misses(p, k)
    ensures Filled(InputPacket(c, p).state.queue, k) ==> Filled(c.queue, k)
    ensures InputPacket(c, p).state.mode == Client && |InputPacket(c, p).state.slots| == 1
  {
    hide PacketChunks, ReadMessage, ReceiveAll;
    if HasLocal(c.slots, p.destination) && FindMatch(c.slots, p, 0).Some? {
      forall i | 0 <= i < |PacketChunks(p)| && ReadMessage(PacketChunks(p)[i]).mode != MESSAGE_MODE_SERVICE
        ensures ReadMessage(PacketChunks(p)[i]).index != k
      {
        assert PacketChunks(p)[i] in PacketChunks(p);
        assert Carries(p, ReadMessage(PacketChunks(p)[i]));
      }
      ReceiveAllMisses(c, PacketChunks(p), k);
    }
  }

  lemma {:induction false} InputAllMisses(c: PeerState, ps: seq<Packet>, k: nat)
    requires c.mode == Client && |c.slots| == 1 && InputAllOk(c, ps) && forall p :: p in ps ==> Misses(p, k)
    ensures var r := InputAll(c, ps).state;
            r.mode == Client && |r.slots| == 1 && (Filled(r.queue, k) ==> Filled(c.queue, k))
  {
    if ps != [] {
      hide InputPacket, InputOk, Misses;
      var most, p := ps[..|ps| - 1], ps[|ps| - 1];
      InputAllMisses(c, most, k);
      InputMisses(InputAll(c, most).state, p, k);
    }
  }

  lemma GapStays(s: System, c: nat, ps: seq<Packet>, index: nat, draws: Draws, slot: nat, k: nat)
    requires Inv(s) && c < |s.clients| && |s.clients[c].slots| == 1 && InputAllOk(s.clients[c], ps)
    requires CarrySent(ps, s.Host().queue, index, draws, slot) && k < index <= |s.Host().queue|
    requires !Filled(s.clients[c].queue, k) && k !in TrailIndices(index, draws, slot) && s.Host().queue[k].ready
    ensures InputAll(s.clients[c], ps).state.queue != s.Host().queue
  {
    ClientIdDefined(s, c);
    ClientMode(s.Host(), s.clients[c]);
    forall p | p in ps ensures Misses(p, k) {
      NotSentMisses(ps, s.Host().queue, index, draws, slot, k, p);
    }
    hide Inv, ClientOk, Misses, CarrySent;
    InputAllMisses(s.clients[c], ps, k);
  }

  lemma NotSentMisses(ps: seq<Packet>, log: seq<Entry>, index: nat, draws: Draws, slot: nat, k: nat, p: Packet)
    requires CarrySent(ps, log, index, draws, slot) && k < index <= |log| && k !in TrailIndices(index, draws, slot)
    requires p in ps
    ensures Misses(p, k)
  {
    hide Carries, TrailIndices;
    forall m | Carries(p, m) && m.mode != MESSAGE_MODE_SERVICE ensures m.index != k {
      assert Among(ps, m);
    }
  }
}
