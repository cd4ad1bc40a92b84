/** The converse of the FIFO theorem: exactly which heartbeats can put a wrong message into an inbox. */
module MisleadingBeats {
  import opened Options
  import opened Serial
  import opened Packets
  import opened Queues
  import opened Trails
  import opened PeerStates
  import opened HostRuns
  import opened HostGrowth
  import opened Network
  import opened Agreement
  import opened ClientTicks
  import opened Heartbeats
  import opened Fifo
  import opened Runs
  import opened Carriage
  import opened Scripts

  predicate Stores(slot: Slot, k: nat, m: Message) {
    m.mode != MESSAGE_MODE_SERVICE && m.time == 0 && Actor32(m) == slot.actor && m.index == k
  }

  lemma ReceiveFills(slot: Slot, k: nat, data: seq<byte>, m: Message)
    requires Filled(slot.queue, k) ==> slot.queue[k].data == data
    requires Stores(slot, k, m) ==> m.data == data
    ensures var r := HostReceive(slot, m).slot;
            r.actor == slot.actor && (Filled(r.queue, k) ==> r.queue[k].data == data)
  {
    InsertExtends(slot.queue, m.index, m.time, Actor32(m), m.data);
  }

  lemma ReceiveStores(slot: Slot, k: nat, m: Message)
    ensures var r := HostReceive(slot, m).slot;
            r.actor == slot.actor && (Filled(slot.queue, k) || Stores(slot, k, m) ==> Filled(r.queue, k))
  {
    InsertExtends(slot.queue, m.index, m.time, Actor32(m), m.data);
  }

  /** If everything that could be stored at index k agrees, nothing else is stored there. */
  lemma {:induction false} ReceiveAllFills(s: PeerState, j: nat, k: nat, data: seq<byte>, chunks: seq<Chunk>)
    requires s.mode == Host && j < |s.slots| && Headed(chunks) && !Filled(s.slots[j].queue, k)
    requires forall i :: 0 <= i < |chunks| && Stores(s.slots[j], k, ReadMessage(chunks[i])) ==>
        ReadMessage(chunks[i]).data == data
    ensures var r := ReceiveAll(s, j, chunks).state.slots[j];
            r.actor == s.slots[j].actor && (Filled(r.queue, k) ==> r.queue[k].data == data)
  {
    if chunks != [] {
      hide ReadMessage, HostReceive;
      var most := chunks[..|chunks| - 1];
      ReceiveAllFills(s, j, k, data, most);
      ReceiveFills(ReceiveAll(s, j, most).state.slots[j], k, data, ReadMessage(chunks[|chunks| - 1]));
    }
  }

  /** And if chunk number i is to be stored there, something is. */
  lemma {:induction false} ReceiveAllStores(s: PeerState, j: nat, k: nat, chunks: seq<Chunk>, i: nat)
    requires s.mode == Host && j < |s.slots| && Headed(chunks)
    ensures var r := ReceiveAll(s, j, chunks).state.slots[j];
            r.actor == s.slots[j].actor && (i < |chunks| && Stores(s.slots[j], k, ReadMessage(chunks[i])) ==>
                Filled(r.queue, k))
  {
    if chunks != [] {
      hide ReadMessage, HostReceive, Filled;
      var most := chunks[..|chunks| - 1];
      ReceiveAllStores(s, j, k, most, i);
      ReceiveStores(ReceiveAll(s, j, most).state.slots[j], k, ReadMessage(chunks[|chunks| - 1]));
    }
  }

  /** If a heartbeat can resend a misleading entry, and the client's own message at that index has not arrived yet,
      some draw makes the host fill the inbox with the wrong message, and filled entries never change. */
  lemma MisleadingBeatBreaksFifo(t: HostTrace, c: PeerState, k: nat) returns (draws: Draws, p: Packet)
    requires HostInv(t) && HostEndpointsOk(t.host) && ClientOk(t.host, c)
    requires |c.slots[0].queue| <= INT64_MAX && c.slots[0].outIndex <= |c.queue|
    requires Misleading(c, k)
    requires c.actor != UNDEFINED && Remote(c).id == t.host.slots[c.actor].local.id && Local(c).id != UNDEFINED
    requires !Filled(t.host.slots[c.actor].queue, k)
    ensures QueueFits(c.queue) && p in BeatPackets(c, draws) && InputOk(t.host, p)
    ensures var inbox := InputPacket(t.host, p).state.slots[c.actor];
            Filled(inbox.queue, k) && inbox.queue[k].data == c.queue[k].data && !InboxFrom(inbox, c.slots[0].queue)
  {
    hide HostInv, HostEndpointsOk, MutualOk, OutboxOk, BeatPackets, PacketChunks, Carries, InReach;
    var j := c.actor;
    draws, p := BeatReaches(t, c, k);
    MutualActor(t, c, k);
    BeatMessage(t, c, draws, p, MessageAt(c.queue, k));
    BeatPacketsAddressed(c, draws);
    BeatPacketsFrom(c, draws);
    OwnSlot(t, c, p);
    BeatMessagesAgree(t, c, draws, p, k, t.host.slots[j]);
    var i := BeatStores(t.host.slots[j], k, c.queue[k].data, p, MessageAt(c.queue, k));
    ReceiveAllFills(t.host, j, k, c.queue[k].data, PacketChunks(p));
    ReceiveAllStores(t.host, j, k, PacketChunks(p), i);
  }

  lemma OwnSlot(t: HostTrace, c: PeerState, p: Packet)
    requires HostInv(t) && HostEndpointsOk(t.host) && ClientOk(t.host, c) && Local(c).id != UNDEFINED
    requires c.actor != UNDEFINED && Remote(c).id == t.host.slots[c.actor].local.id
    requires p.source == Local(c).id && p.destination == Remote(c).id
    ensures HasLocal(t.host.slots, p.destination) && FindMatch(t.host.slots, p, 0) == Some(c.actor)
    ensures t.host.mode == Host && t.host.slots[c.actor].actor == c.actor
  {
    SlotsAre(t, c.actor);
    hide HostInv, MutualOk, OutboxOk;
    assert Matches(t.host.slots[c.actor], p);
  }

  lemma BeatStores(slot: Slot, k: nat, data: seq<byte>, p: Packet, sent: Message) returns (i: nat)
    requires Headed(PacketChunks(p)) && Carries(p, sent) && Stores(slot, k, sent)
    requires forall m :: Carries(p, m) && Stores(slot, k, m) ==> m.data == data
    ensures forall n :: 0 <= n < |PacketChunks(p)| && Stores(slot, k, ReadMessage(PacketChunks(p)[n])) ==>
              ReadMessage(PacketChunks(p)[n]).data == data
    ensures i < |PacketChunks(p)| && Stores(slot, k, ReadMessage(PacketChunks(p)[i]))
  {
    hide PacketChunks, ReadMessage, Stores;
    forall n | 0 <= n < |PacketChunks(p)| && Stores(slot, k, ReadMessage(PacketChunks(p)[n]))
      ensures ReadMessage(PacketChunks(p)[n]).data == data
    {
      assert PacketChunks(p)[n] in PacketChunks(p);
      assert Carries(p, ReadMessage(PacketChunks(p)[n]));
    }
    var chunk :| chunk in PacketChunks(p) && |chunk| >= N_MESSAGE_DATA && ReadMessage(chunk) == sent;
    i :| 0 <= i < |PacketChunks(p)| && PacketChunks(p)[i] == chunk;
  }

  lemma BeatMessagesAgree(t: HostTrace, c: PeerState, draws: Draws, p: Packet, k: nat, slot: Slot)
    requires HostInv(t) && ClientOk(t.host, c) && |c.slots[0].queue| <= INT64_MAX && c.slots[0].outIndex <= |c.queue|
    requires QueueFits(c.queue) && p in BeatPackets(c, draws) && k < |c.queue|
    ensures forall m :: Carries(p, m) && Stores(slot, k, m) ==> m.data == c.queue[k].data
  {
    hide HostInv, ClientOk, BeatPackets, Carries, InReach;
    forall m | Carries(p, m) && Stores(slot, k, m) ensures m.data == c.queue[k].data {
      BeatMessage(t, c, draws, p, m);
    }
  }

  // ---- Exactly when a heartbeat is harmless ----

  /** Delivering p to the host now leaves every inbox of client c true to what c queued. */
  ghost predicate KeepsInboxes(s: System, c: nat, p: Packet)
    requires c < |s.clients| && |s.clients[c].slots| == 1
  {
    && InputOk(s.Host(), p)
    && FifoInboxes(InputPacket(s.Host(), p).state, Local(s.clients[c]).id, s.clients[c].slots[0].queue)
  }

  /** Client c is about to send a heartbeat. */
  ghost predicate AboutToBeat(s: System, c: nat, elapsed: int) {
    && Inv(s) && FifoInv(s, c)
    && c < |s.clients| && |s.clients[c].slots| == 1
    && Beats(s.clients[c], elapsed) && TickOk(s.clients[c], elapsed)
    && |s.clients[c].slots[0].queue| <= INT64_MAX
  }

  /** What a client's tick leaves as it was. */
  lemma AfterTick(s: System, c: nat, elapsed: int, draws: Draws)
    requires Inv(s) && Allowed(s, ClientTick(c, elapsed, draws))
    ensures var next := Next(s, ClientTick(c, elapsed, draws));
            && next.Host() == s.Host() && |next.clients| == |s.clients| && c < |s.clients|
            && |s.clients[c].slots| == 1 && |next.clients[c].slots| == 1
            && Local(next.clients[c]) == Local(s.clients[c]) && Remote(next.clients[c]) == Remote(s.clients[c])
            && next.clients[c].actor == s.clients[c].actor
            && next.clients[c].slots[0].queue == s.clients[c].slots[0].queue
            && forall p :: p in PeerStates.Tick(s.clients[c], elapsed, draws).packets ==> p in next.net
  {
    ClientIdDefined(s, c);
    hide Inv, TickOk;
    ClientTickKeeps(s.Host(), s.clients[c], elapsed, draws);
    PayloadsSame(s, c, elapsed, draws);
    ActorSame(s.Host(), s.clients[c], elapsed, draws);
    hide PeerStates.Tick, ClientOk;
  }

  lemma ActorSame(h: PeerState, c: PeerState, elapsed: int, draws: Draws)
    requires ClientOk(h, c) && TickOk(c, elapsed)
    ensures PeerStates.Tick(c, elapsed, draws).state.actor == c.actor
  {
    hide PeerStates.Tick, TickOk;
    if TickAccepted(c, elapsed) {
      ClientTicked(h, c, elapsed, draws);
    } else {
      RejectedTick(c, elapsed, draws);
    }
  }

  lemma AboutToBeatAllowed(s: System, c: nat, elapsed: int, draws: Draws)
    requires AboutToBeat(s, c, elapsed)
    ensures Inv(s) && FifoInv(s, c) && Allowed(s, ClientTick(c, elapsed, draws))
    ensures BeatCovered(s.Host(), s.clients[c]) ==> Careful(s, ClientTick(c, elapsed, draws), c)
  {
    hide Inv, FifoInv, TickOk, Beats, BeatCovered;
  }

  /** A covered heartbeat's packets leave the inboxes true. */
  lemma CoveredBeatKeeps(s: System, c: nat, elapsed: int, draws: Draws, p: Packet)
    requires AboutToBeat(s, c, elapsed) && BeatCovered(s.Host(), s.clients[c])
    requires p in PeerStates.Tick(s.clients[c], elapsed, draws).packets
    ensures KeepsInboxes(s, c, p)
  {
    var step := ClientTick(c, elapsed, draws);
    AboutToBeatAllowed(s, c, elapsed, draws);
    hide *;
    AfterTick(s, c, elapsed, draws);
    SystemStepKeeps(s, step);
    FifoStepKeeps(s, c, step);
    BeatDelivered(s, Next(s, step), c, p);
  }

  lemma BeatDelivered(s: System, next: System, c: nat, p: Packet)
    requires Inv(next) && FifoInv(next, c) && p in next.net && next.Host() == s.Host()
    requires c < |s.clients| && |s.clients[c].slots| == 1
    requires c < |next.clients| && |next.clients[c].slots| == 1 && Local(next.clients[c]) == Local(s.clients[c])
    requires next.clients[c].slots[0].queue == s.clients[c].slots[0].queue
    ensures KeepsInboxes(s, c, p)
  {
    InvHost(next);
    SentDefined(next, p);
    hide Inv, FifoInv, HostInv, InputPacket;
    FifoHostInput(next, c, p);
  }

  /** An uncovered one has, for some draws, a packet that spoils an inbox. */
  lemma UncoveredBeatSpoils(s: System, c: nat, elapsed: int) returns (draws: Draws, p: Packet)
    requires AboutToBeat(s, c, elapsed) && !BeatCovered(s.Host(), s.clients[c])
    ensures p in PeerStates.Tick(s.clients[c], elapsed, draws).packets
    ensures InputOk(s.Host(), p) && !KeepsInboxes(s, c, p)
    ensures !FifoInboxes(InputPacket(s.Host(), p).state, Local(s.clients[c]).id, s.clients[c].slots[0].queue)
  {
    var h, client := s.Host(), s.clients[c];
    var j, k :| 0 < j < |h.slots| && h.slots[j].local.id == Remote(client).id
                && 0 <= k < |client.queue| && Misleading(client, k) && !Filled(h.slots[j].queue, k);
    InvHost(s);
    ClientIdDefined(s, c);
    hide Inv, HostInv, FifoInv, PeerStates.Tick, BeatCovered, Misleading, HostEndpointsOk;
    ClientTickOkIff(s.trace, client, elapsed);
    SendsToOwnSlot(h, client, j);
    SessionBound(h, client, j);
    draws, p := MisleadingBeatBreaksFifo(s.trace, client, k);
    BeatIsTick(h, client, elapsed, draws);
    BeatPacketsFrom(client, draws);
    hide ClientOk, BeatPackets, TickOk, Beats;
    SpoiledInbox(s.trace, client, p, j);
  }

  lemma SessionBound(h: PeerState, c: PeerState, j: nat)
    requires ClientOk(h, c) && 0 < j < |h.slots| && j == c.actor
    ensures h.slots[j].remote.id == Local(c).id
  {
    hide MutualOk, OutboxOk;
  }

  lemma BeatIsTick(h: PeerState, c: PeerState, elapsed: int, draws: Draws)
    requires ClientOk(h, c) && Beats(c, elapsed) && TickOk(c, elapsed)
    requires QueueFits(c.queue) && c.slots[0].outIndex <= |c.queue|
    ensures PeerStates.Tick(c, elapsed, draws).packets == BeatPackets(c, draws)
  {
    ClientMode(h, c);
    ClientTickShape(h, c, elapsed, draws);
    hide ClientOk, PeerStates.Tick, TickOk, BeatPackets;
    ClientTickPackets(c, elapsed, draws);
  }

  lemma SpoiledInbox(t: HostTrace, c: PeerState, p: Packet, j: nat)
    requires |c.slots| == 1 && HostInv(t) && InputOk(t.host, p) && p.source == Local(c).id != UNDEFINED
    requires 0 < j < |t.host.slots| && t.host.slots[j].remote.id == Local(c).id
    requires j < |InputPacket(t.host, p).state.slots|
    requires !InboxFrom(InputPacket(t.host, p).state.slots[j], c.slots[0].queue)
    ensures !FifoInboxes(InputPacket(t.host, p).state, Local(c).id, c.slots[0].queue)
  {
    AcceptGrows(t, p);
    hide HostInv, InputPacket, InboxFrom;
    assert SlotGrows(t.host.slots[j], InputPacket(t.host, p).state.slots[j]);
  }

  /** Whatever is drawn, no packet of a heartbeat spoils an inbox, exactly if the heartbeat is covered. */
  lemma BeatKeepsInboxesIff(s: System, c: nat, elapsed: int)
    requires AboutToBeat(s, c, elapsed)
    ensures (forall draws: Draws, p: Packet ::
               p in PeerStates.Tick(s.clients[c], elapsed, draws).packets ==> KeepsInboxes(s, c, p))
        <==> BeatCovered(s.Host(), s.clients[c])
  {
    var client := s.clients[c];
    hide AboutToBeat, BeatCovered, KeepsInboxes, PeerStates.Tick;
    if BeatCovered(s.Host(), client) {
      forall draws: Draws, p: Packet | p in PeerStates.Tick(client, elapsed, draws).packets
        ensures KeepsInboxes(s, c, p)
      {
        CoveredBeatKeeps(s, c, elapsed, draws, p);
      }
    } else {
      var draws, p := UncoveredBeatSpoils(s, c, elapsed);
    }
  }

  /** So the condition of the FIFO theorem cannot be spared: a run in which an uncovered heartbeat is due goes on,
      for some draws, to a point where an inbox holds a message its client did not queue there. */
  lemma UncoveredBeatBreaksRun(s: System, steps: seq<Step>, c: nat, elapsed: int) returns (longer: seq<Step>)
    requires Run(s, steps) && AboutToBeat(After(s, steps), c, elapsed)
    requires !BeatCovered(After(s, steps).Host(), After(s, steps).clients[c])
    ensures Run(s, longer) && steps <= longer && |longer| == |steps| + 2
    ensures var now := After(s, longer);
            && c < |now.clients| && |now.clients[c].slots| == 1
            && !FifoInboxes(now.Host(), Local(now.clients[c]).id, now.clients[c].slots[0].queue)
  {
    hide *;
    var now := After(s, steps);
    var draws, p := UncoveredBeatSpoils(now, c, elapsed);
    var first := ClientTick(c, elapsed, draws);
    AboutToBeatAllowed(now, c, elapsed, draws);
    AfterTick(now, c, elapsed, draws);
    ExtendTwice(s, steps, first, p);
    longer := steps + [first] + [HostInput(p)];
  }

  /** Any step that leaves the host alone, and then the delivery of a packet it sent. */
  lemma ExtendTwice(s: System, steps: seq<Step>, first: Step, p: Packet)
    requires Run(s, steps) && Allowed(After(s, steps), first)
    requires var next := Next(After(s, steps), first);
             next.Host() == After(s, steps).Host() && p in next.net && InputOk(next.Host(), p)
    ensures var longer := steps + [first] + [HostInput(p)]; var next := Next(After(s, steps), first);
            && Run(s, longer)
            && After(s, longer).Host() == InputPacket(next.Host(), p).state
            && After(s, longer).clients == next.clients
  {
    hide Inv, Run, After, InputOk, InputPacket;
    Extend(s, steps, first);
    InvHost(After(s, steps + [first]));
    SentDefined(After(s, steps + [first]), p);
    Extend(s, steps + [first], HostInput(p));
  }
}
