/** Every step of the system keeps its invariant: what a host sends is good, and what good packets do to a client. */
module Agreement {
  import opened Options
  import opened Serial
  import opened Packets
  import opened Queues
  import opened Trails
  import opened PeerStates
  import opened HostRuns
  import opened HostGrowth
  import opened Network

  // ---- What the host sends is good ----

  /** Packing good messages gives good packets. */
  lemma GoodPackets(h: PeerState, j: nat, destination: int, ms: seq<Message>, chunks: seq<Chunk>)
    requires HostEndpointsOk(h) && j < |h.slots| && |ms| == |chunks| && AllFramed(chunks)
    requires forall i :: 0 <= i < |ms| ==> ReadMessage(chunks[i]) == ms[i] && GoodMessage(h, j, destination, ms[i])
    ensures forall p :: p in PackedPackets(h.slots[j].local.id, destination, chunks) ==> PacketOk(h, p)
  {
    hide PackedPackets, GoodMessage, ReadMessage, PacketChunks;
    var ps := PackedPackets(h.slots[j].local.id, destination, chunks);
    PackedPacketsShape(h.slots[j].local.id, destination, chunks);
    forall p | p in ps ensures PacketOk(h, p) {
      var cs := PacketChunks(p);
      forall i | 0 <= i < |cs|
        ensures |cs[i]| >= N_MESSAGE_DATA && GoodMessage(h, j, destination, ReadMessage(cs[i]))
      {
        assert cs[i] in chunks;
      }
    }
  }

  /** What a host about to send looks like: its whole log published, in range for the wire. */
  predicate Publishing(h: PeerState) {
    && HostEndpointsOk(h)
    && h.queueIndex == |h.queue| && QueueFits(h.queue) && QueueSendable(h.queue)
    && h.actor == 0 && 0 <= h.time <= INT64_MAX && |h.slots| < TWO_32 - 1
    && forall k :: 0 <= k < |h.queue| ==>
         h.queue[k].ready && 0 <= h.queue[k].actor < TWO_32 - 1 && 0 <= h.queue[k].time <= h.time
  }

  lemma EntryGood(h: PeerState, j: nat, destination: int, k: nat)
    requires Publishing(h) && 0 < j && k < |h.queue|
    ensures GoodMessage(h, j, destination, MessageAt(h.queue, k))
  {
  }

  lemma EntriesGood(h: PeerState, j: nat, destination: int, indices: seq<nat>) returns (ms: seq<Message>)
    requires Publishing(h) && 0 < j && IndicesOf(h.queue, indices)
    ensures |ms| == |indices|
    ensures forall i :: 0 <= i < |ms| ==>
              ReadMessage(ChunksAt(h.queue, indices)[i]) == ms[i] && GoodMessage(h, j, destination, ms[i])
  {
    hide GoodMessage, ReadMessage;
    ms := seq(|indices|, i requires 0 <= i < |indices| => MessageAt(h.queue, indices[i]));
    forall i | 0 <= i < |indices|
      ensures ReadMessage(ChunksAt(h.queue, indices)[i]) == ms[i] && GoodMessage(h, j, destination, ms[i])
    {
      ChunkDecodes(h.queue, indices[i]);
      EntryGood(h, j, destination, indices[i]);
    }
  }

  lemma QueuePacketsGood(h: PeerState, j: nat, index: nat, destination: int, draws: Draws)
    requires Publishing(h) && 0 < j < |h.slots| && index <= |h.queue|
    ensures forall p :: p in QueuePackets(h.queue, index, h.slots[j].local.id, destination, draws, j) ==> PacketOk(h, p)
  {
    if index < |h.queue| {
      hide GoodMessage, PackedPackets, PacketOk, SendIndices, Publishing;
      var indices := SendIndices(|h.queue|, index, draws, j);
      SendIndicesInRange(h.queue, index, draws, j);
      assert Publishing(h) ==> QueueFits(h.queue);
      ChunksFramed(h.queue, indices);
      var ms := EntriesGood(h, j, destination, indices);
      GoodPackets(h, j, destination, ms, QueueChunks(h.queue, index, draws, j));
    }
  }

  lemma HeartbeatGood(h: PeerState, j: nat, destination: int)
    requires Publishing(h) && 0 < j < |h.slots|
    ensures ReadMessage(Encode(Heartbeat(h.time, h.actor))) == Heartbeat(h.time, h.actor)
    ensures GoodMessage(h, j, destination, Heartbeat(h.time, h.actor))
  {
    MessageRoundTrip(Heartbeat(h.time, h.actor));
  }

  lemma HeartbeatPacketsGood(h: PeerState, j: nat, index: nat, destination: int, draws: Draws)
    requires Publishing(h) && 0 < j < |h.slots| && index <= |h.queue|
    ensures forall p ::
              p in HeartbeatPackets(h.slots[j].local.id, destination, h.queue, index, h.time, h.actor, draws, j) ==>
                PacketOk(h, p)
  {
    hide GoodMessage, PackedPackets, PacketOk, TrailIndices, Encode;
    var indices := TrailIndices(index, draws, j);
    SendIndicesInRange(h.queue, index, draws, j);
    HeartbeatChunksFramed(h.queue, index, h.time, h.actor, draws, j);
    HeartbeatGood(h, j, destination);
    var ms := EntriesGood(h, j, destination, indices);
    GoodPackets(h, j, destination, [Heartbeat(h.time, h.actor)] + ms,
                HeartbeatChunks(h.queue, index, h.time, h.actor, draws, j));
  }

  lemma ResponseGood(h: PeerState, i: nat, slot: Slot)
    requires Publishing(h) && 0 < i < |h.slots| && slot.actor == i && slot.local == h.slots[i].local &&
        slot.remote == h.slots[i].remote
    requires slot.remote.id != UNDEFINED && slot.local.address != [] && |slot.local.address| <= ADDRESS_SIZE
    ensures var m := SessionResponse(h.time, slot);
            Writable(m) && ReadMessage(Encode(m)) == m && GoodMessage(h, 0, slot.remote.id, m)
    ensures HostEndpointsOk(h)
  {
    hide ReadMessage, Encode, QueueSendable, QueueFits;
    assert HostEndpointsOk(h);
    hide HostEndpointsOk;
    MessageRoundTrip(SessionResponse(h.time, slot));
  }

  lemma ResponsePacketsGood(h: PeerState, i: nat, slot: Slot)
    requires Publishing(h) && 0 < i < |h.slots| && slot.actor == i && slot.local == h.slots[i].local &&
        slot.remote == h.slots[i].remote
    requires slot.remote.id != UNDEFINED && slot.local.address != [] && |slot.local.address| <= ADDRESS_SIZE
    ensures forall p :: p in ResponsePackets(h.slots[0].local.id, h.time, slot) ==> PacketOk(h, p)
  {
    var m := SessionResponse(h.time, slot);
    ResponseGood(h, i, slot);
    hide GoodMessage, PackedPackets, PacketOk, Encode, Publishing;
    EncodeFramed(m);
    GoodPackets(h, 0, slot.remote.id, [m], [Encode(m)]);
  }

  /** The host as it sends and as it ends the tick publish the same log to the same endpoints. */
  lemma SlotPacketsGood(m: PeerState, g: PeerState, i: nat, draws: Draws)
    requires 0 < i < |m.slots| && HostSendable(m) && Publishing(g)
    requires g == m.(slots := g.slots) && |g.slots| == |m.slots|
    requires g.slots[0].local == m.slots[0].local && g.slots[i].local == m.slots[i].local &&
        g.slots[i].remote == m.slots[i].remote
    requires SlotOk(m.slots[i], i, m.queue)
    ensures forall p :: p in HostSend(m, i, draws).packets ==> PacketOk(g, p)
  {
    hide QueuePackets, HeartbeatPackets, ResponsePackets, PacketOk, Publishing, InboxOk, TakenOk;
    var slot := m.slots[i];
    match slot.state
    case Empty =>
    case SessionRequest => ResponsePacketsGood(g, i, slot);
    case Ready =>
      QueuePacketsGood(g, i, slot.outIndex, slot.remote.id, draws);
      HeartbeatPacketsGood(g, i, slot.outIndex, slot.remote.id, draws);
  }

  lemma {:induction false} SentPacketsFrom(m: PeerState, n: nat, draws: Draws, p: Packet) returns (i: nat)
    requires HostSendable(m) && n <= |m.slots| && p in SentPackets(m, n, draws)
    ensures 0 < i < n && p in HostSend(m, i, draws).packets
  {
    hide HostSend;
    i := n - 1;
    if p !in HostSend(m, i, draws).packets {
      i := SentPacketsFrom(m, n - 1, draws, p);
    }
  }

  lemma TickPublishes(t: HostTrace, elapsed: nat, draws: Draws)
    requires HostInv(t) && HostEndpointsOk(t.host) && TickAccepted(t.host, elapsed) && TickOk(t.host, elapsed)
    requires |PeerStates.Tick(t.host, elapsed, draws).state.queue| <= INT64_MAX
    ensures Publishing(PeerStates.Tick(t.host, elapsed, draws).state)
  {
    hide PeerStates.Tick, TickOk, HostInv, HostEndpointsOk, Publishing, Grows;
    TraceShape(t);
    ElapseKeeps(t, elapsed, draws);
    TickSettles(t, elapsed, draws);
    TickGrows(t, elapsed, draws);
    EndpointsStay(t.host, HostNext(t, Elapse(elapsed, draws)).host, []);
    SettledPublishes(HostNext(t, Elapse(elapsed, draws)));
  }

  lemma TraceShape(t: HostTrace)
    requires HostInv(t)
    ensures |t.quiet| == |t.host.slots| && t.host.mode == Host
  {
  }

  lemma SettledPublishes(t: HostTrace)
    requires HostInv(t) && HostEndpointsOk(t.host) && t.host.queueIndex == |t.host.queue| <= INT64_MAX
    ensures Publishing(t.host)
  {
  }

  lemma TickPacketsGood(t: HostTrace, elapsed: nat, draws: Draws)
    requires HostInv(t) && HostEndpointsOk(t.host) && TickAccepted(t.host, elapsed) && TickOk(t.host, elapsed)
    requires |PeerStates.Tick(t.host, elapsed, draws).state.queue| <= INT64_MAX
    ensures var r := PeerStates.Tick(t.host, elapsed, draws);
            forall p :: p in r.packets ==> PacketOk(r.state, p)
  {
    hide HostInv, Merged, HostSend, Publishing, PacketOk, Stocked, TickOk;
    var r := PeerStates.Tick(t.host, elapsed, draws);
    var m := Merged(Advanced(t.host, elapsed));
    TickPublishes(t, elapsed, draws);
    MergedOk(t, elapsed);
    TickedState(t, elapsed, draws);
    forall p | p in r.packets ensures PacketOk(r.state, p) {
      var i := SentPacketsFrom(m, |m.slots|, draws, p);
      StockedSlot(m, t.hosted, i);
      HostSendShape(m, i, draws);
      SlotPacketsGood(m, r.state, i, draws);
    }
  }

  lemma StockedSlot(m: PeerState, hosted: seq<seq<byte>>, i: nat)
    requires Stocked(m, hosted) && 0 < i < |m.slots|
    ensures SlotOk(m.slots[i], i, m.queue)
  {
  }

  // ---- What a client does with good packets ----

  lemma MutualInsert(h: PeerState, q: seq<Entry>, time: int, m: Message)
    requires MutualOk(h, q, time) && GoodUpdate(h, m) && m.mode == MESSAGE_MODE_APPLICATION && Actor32(m) == m.actor
    ensures MutualOk(h, Insert(q, m.index, m.time, Actor32(m), m.data).queue, if time < m.time then m.time else time)
  {
    InsertExtends(q, m.index, m.time, Actor32(m), m.data);
  }

  lemma AdoptKeeps(h: PeerState, c: PeerState, m: Message)
    requires ClientOk(h, c) && HostEndpointsOk(h) && GoodMessage(h, 0, Local(c).id, m)
    requires Remote(c).id == h.slots[0].local.id
    ensures ClientOk(h, Adopt(c, 0, m)) && Remote(Adopt(c, 0, m)).id == Remote(c).id
  {
  }

  /** One good message, from the endpoint the client listens to, keeps the client right. */
  lemma ReceiveGood(h: PeerState, c: PeerState, j: nat, m: Message)
    requires ClientOk(h, c) && HostEndpointsOk(h) && j < |h.slots|
    requires GoodMessage(h, j, Local(c).id, m) && Remote(c).id == h.slots[j].local.id
    ensures var r := ClientReceive(c, 0, m).state;
            && ClientOk(h, r) && c.time <= r.time && m.time <= r.time && Local(r) == Local(c)
            && Remote(r).id == Remote(c).id
            && Extends(c.queue, r.queue)
            && (m.mode == MESSAGE_MODE_APPLICATION ==> 0 <= m.index < |r.queue| && r.queue[m.index].ready)
  {
    if m.mode == MESSAGE_MODE_APPLICATION {
      assert j != 0;
      MutualInsert(h, c.queue, c.time, m);
      InsertExtends(c.queue, m.index, m.time, Actor32(m), m.data);
    } else if j == 0 {
      hide MutualOk, OutboxOk, SessionOk, Adopt;
      AdoptKeeps(h, c, m);
      AdoptFrame(c, m);
      LaterTime(h, Adopt(c, 0, m), m.time);
    } else {
      LaterTime(h, c, m.time);
    }
  }

  lemma AdoptFrame(c: PeerState, m: Message)
    requires |c.slots| == 1 && |m.data| >= 1
    ensures var r := Adopt(c, 0, m); |r.slots| == 1 && Local(r) == Local(c) && r.queue == c.queue && r.time == c.time
  {
  }

  lemma LaterTime(h: PeerState, c: PeerState, time: int)
    requires ClientOk(h, c) && time <= h.time
    ensures var r := if c.time < time then c.(time := time) else c;
            ClientOk(h, r) && Local(r) == Local(c) && Remote(r) == Remote(c)
  {
  }

  /** The entries a list of chunks carries are filled in a queue. */
  ghost predicate Delivered(chunks: seq<Chunk>, q: seq<Entry>)
    requires Headed(chunks)
  {
    forall i :: 0 <= i < |chunks| && ReadMessage(chunks[i]).mode == MESSAGE_MODE_APPLICATION ==>
      0 <= ReadMessage(chunks[i]).index < |q| && q[ReadMessage(chunks[i]).index].ready
  }

  lemma {:induction false} ReceiveAllGood(h: PeerState, c: PeerState, j: nat, chunks: seq<Chunk>)
    requires ClientOk(h, c) && HostEndpointsOk(h) && j < |h.slots|
    requires GoodChunks(h, j, Local(c).id, chunks) && Remote(c).id == h.slots[j].local.id
    ensures var r := ReceiveAll(c, 0, chunks).state;
            && ClientOk(h, r) && c.time <= r.time && Local(r) == Local(c) && Remote(r).id == Remote(c).id
            && Extends(c.queue, r.queue) && Delivered(chunks, r.queue)
  {
    if chunks != [] {
      hide ClientOk, HostEndpointsOk, GoodMessage, ClientReceive, ReadMessage, Delivered, Extends;
      var most, last := chunks[..|chunks| - 1], chunks[|chunks| - 1];
      ClientMode(h, c);
      ReceiveAllGood(h, c, j, most);
      var mid := ReceiveAll(c, 0, most).state;
      ClientMode(h, mid);
      ReceiveGood(h, mid, j, ReadMessage(last));
      ExtendsTransitive(c.queue, mid.queue, ClientReceive(mid, 0, ReadMessage(last)).state.queue);
      DeliveredSnoc(chunks, mid.queue, ClientReceive(mid, 0, ReadMessage(last)).state.queue);
    } else {
      hide ClientOk, HostEndpointsOk, GoodMessage;
    }
  }

  lemma ExtendsTransitive(a: seq<Entry>, b: seq<Entry>, c: seq<Entry>)
    requires Extends(a, b) && Extends(b, c)
    ensures Extends(a, c)
  {
  }

  lemma DeliveredSnoc(chunks: seq<Chunk>, q: seq<Entry>, r: seq<Entry>)
    requires Headed(chunks) && chunks != [] && Delivered(chunks[..|chunks| - 1], q) && Extends(q, r)
    requires var m := ReadMessage(chunks[|chunks| - 1]);
             m.mode == MESSAGE_MODE_APPLICATION ==> 0 <= m.index < |r| && r[m.index].ready
    ensures Delivered(chunks, r)
  {
    hide ReadMessage;
    var most := chunks[..|chunks| - 1];
    forall i | 0 <= i < |chunks| && ReadMessage(chunks[i]).mode == MESSAGE_MODE_APPLICATION
      ensures 0 <= ReadMessage(chunks[i]).index < |r| && r[ReadMessage(chunks[i]).index].ready
    {
      if i < |most| {
        assert most[i] == chunks[i];
      }
    }
  }

  lemma ClientMode(h: PeerState, c: PeerState)
    requires ClientOk(h, c)
    ensures c.mode == Client && |c.slots| == 1 && |h.slots| > 0
  {
  }

  /** A packet a client pays attention to comes from one of the host's slots. */
  lemma {:induction false} MatchIsHost(h: PeerState, c: PeerState, p: Packet) returns (j: nat)
    requires ClientOk(h, c) && p.source != UNDEFINED && FindMatch(c.slots, p, 0).Some?
    ensures j < |h.slots| && h.slots[j].local.id == p.source == Remote(c).id
    ensures Local(c).id == p.destination && FindMatch(c.slots, p, 0) == Some(0)
  {
    if Remote(c).id == h.slots[0].local.id {
      j := 0;
    } else {
      j := c.actor;
    }
  }

  /** Any packet ever sent can be delivered to a client: it parses, and no address overruns its buffer. */
  lemma DeliveryNeverBlocked(h: PeerState, c: PeerState, p: Packet)
    requires ClientOk(h, c) && PacketOk(h, p)
    ensures InputOk(c, p)
  {
    if FindMatch(c.slots, p, 0).Some? {
      var j := MatchIsHost(h, c, p);
      var chunks := PacketChunks(p);
      assert GoodChunks(h, j, p.destination, chunks);
      forall i | 0 <= i < |chunks| && IsService(ReadMessage(chunks[i]), M_SESSION_RESPONSE)
        ensures |ReadMessage(chunks[i]).data| - 1 <= ADDRESS_SIZE
      {
        assert GoodMessage(h, j, p.destination, ReadMessage(chunks[i]));
      }
    }
  }

  lemma InputGood(h: PeerState, c: PeerState, p: Packet)
    requires ClientOk(h, c) && HostEndpointsOk(h) && PacketOk(h, p) && InputOk(c, p)
    ensures var r := InputPacket(c, p).state;
            && ClientOk(h, r) && c.time <= r.time && Local(r) == Local(c) && Remote(r).id == Remote(c).id
            && Extends(c.queue, r.queue)
            && (Local(c).id == p.destination && Remote(c).id == p.source ==> Delivered(PacketChunks(p), r.queue))
  {
    if FindMatch(c.slots, p, 0).Some? {
      var j := MatchIsHost(h, c, p);
      assert GoodChunks(h, j, p.destination, PacketChunks(p));
      ReceiveAllGood(h, c, j, PacketChunks(p));
    }
  }

  // ---- What a client sends is its own ----

  lemma OwnPackets(source: int, destination: int, chunks: seq<Chunk>)
    requires AllFramed(chunks)
    ensures forall p :: p in PackedPackets(source, destination, chunks) ==>
        p.source == source && Headed(PacketChunks(p))
  {
    hide PackedPackets, PacketChunks;
    PackedPacketsShape(source, destination, chunks);
    assert forall c :: c in chunks ==> |c| >= N_MESSAGE_DATA;
  }

  lemma QueuePacketsOwn(q: seq<Entry>, index: nat, source: int, destination: int, draws: Draws, slot: nat)
    requires QueueFits(q) && index <= |q|
    ensures forall p :: p in QueuePackets(q, index, source, destination, draws, slot) ==>
        p.source == source && Headed(PacketChunks(p))
  {
    if index < |q| {
      SendIndicesInRange(q, index, draws, slot);
      ChunksFramed(q, SendIndices(|q|, index, draws, slot));
      OwnPackets(source, destination, QueueChunks(q, index, draws, slot));
    }
  }

  lemma HeartbeatPacketsOwn(local: int, remote: int, q: seq<Entry>, index: nat, time: int, actor: int, draws: Draws,
      slot: nat)
    requires QueueFits(q) && index <= |q|
    ensures forall p :: p in HeartbeatPackets(local, remote, q, index, time, actor, draws, slot) ==>
        p.source == local && Headed(PacketChunks(p))
  {
    HeartbeatChunksFramed(q, index, time, actor, draws, slot);
    OwnPackets(local, remote, HeartbeatChunks(q, index, time, actor, draws, slot));
  }

  /** A client's tick changes its clocks and its out-index only. */
  lemma ClientTickKeeps(h: PeerState, c: PeerState, elapsed: int, draws: Draws)
    requires ClientOk(h, c) && TickOk(c, elapsed)
    ensures var r := PeerStates.Tick(c, elapsed, draws);
            && ClientOk(h, r.state) && Local(r.state) == Local(c) && Remote(r.state) == Remote(c)
            && r.state.time == c.time && r.state.queue == c.queue && r.state.slots[0].queue == c.slots[0].queue
            && (forall p :: p in r.packets ==> p.source == Local(c).id && Headed(PacketChunks(p)))
  {
    if TickAccepted(c, elapsed) {
      hide QueuePackets, HeartbeatPackets, MutualOk, SessionOk;
      var slot := Advanced(c, elapsed).slots[0];
      if slot.outIndex < |slot.queue| {
        QueuePacketsOwn(slot.queue, slot.outIndex, slot.local.id, slot.remote.id, draws, 0);
      } else if slot.clock <= 0 {
        HeartbeatPacketsOwn(slot.local.id, slot.remote.id, c.queue, slot.outIndex, 0, c.actor, draws, 0);
      }
      ClientTicked(h, c, elapsed, draws);
    }
  }

  lemma ClientTicked(h: PeerState, c: PeerState, elapsed: int, draws: Draws)
    requires ClientOk(h, c) && TickOk(c, elapsed) && TickAccepted(c, elapsed)
    ensures var r := PeerStates.Tick(c, elapsed, draws).state;
            && r == c.(timeLocal := r.timeLocal,
              slots := [c.slots[0].(clock := r.slots[0].clock, outIndex := r.slots[0].outIndex)])
            && r.slots[0].outIndex <= |c.slots[0].queue|
            && ClientOk(h, r)
  {
    hide QueuePackets, HeartbeatPackets;
  }

  // ---- Every step keeps the invariant ----

  lemma HostStepKeeps(s: System, step: Step)
    requires Inv(s) && Allowed(s, step) && (step.HostQueue? || step.HostInput? || step.HostTick?)
    ensures Inv(Next(s, step))
  {
    hide Inv, HostInv, Grows, PacketOk, PeerStates.Tick;
    InvHost(s);
    match step
    case HostQueue(data) =>
      StepKeeps(s.trace, Enqueue(data));
      StepGrows(s.trace, Enqueue(data));
      HostMoves(s, HostNext(s.trace, Enqueue(data)), {});
      assert s.net + {} == s.net;
    case HostInput(p) =>
      SentDefined(s, p);
      StepKeeps(s.trace, Accept(p));
      StepGrows(s.trace, Accept(p));
      HostMoves(s, HostNext(s.trace, Accept(p)), {});
      assert s.net + {} == s.net;
    case HostTick(elapsed, draws) =>
      StepKeeps(s.trace, Elapse(elapsed, draws));
      StepGrows(s.trace, Elapse(elapsed, draws));
      HostTickGood(s, elapsed, draws);
      HostMoves(s, HostNext(s.trace, Elapse(elapsed, draws)),
          PacketSet(PeerStates.Tick(s.Host(), elapsed, draws).packets));
  }

  lemma InvHost(s: System)
    requires Inv(s)
    ensures HostInv(s.trace) && HostEndpointsOk(s.Host()) && |s.trace.quiet| == |s.Host().slots| &&
        s.Host().mode == Host
  {
  }

  lemma SentDefined(s: System, p: Packet)
    requires Inv(s) && p in s.net
    ensures p.source != UNDEFINED && PacketOk(s.Host(), p)
  {
  }

  lemma HostTickGood(s: System, elapsed: int, draws: Draws)
    requires Inv(s) && Allowed(s, HostTick(elapsed, draws))
    ensures var r := PeerStates.Tick(s.Host(), elapsed, draws);
            forall p :: p in r.packets ==> PacketOk(r.state, p)
  {
    if TickAccepted(s.Host(), elapsed) {
      hide PeerStates.Tick, HostInv;
      TickPacketsGood(s.trace, elapsed, draws);
    }
  }

  lemma EnqueueClient(h: PeerState, c: PeerState, data: seq<byte>)
    requires ClientOk(h, c) && |data| <= MAX_MESSAGE_SIZE
    ensures ClientOk(h, Enqueued(c, Some(data)).state) && Local(Enqueued(c, Some(data)).state) == Local(c)
  {
  }

  lemma ConnectClient(h: PeerState, c: PeerState)
    requires ClientOk(h, c) && HostEndpointsOk(h)
    ensures var r := Connected(c, h.slots[0].local.id).state; ClientOk(h, r) && Local(r) == Local(c)
  {
    assert FindUnbound(c.slots, 1) == None;
  }

  /** The application resolves the address a client was told to exactly the slot whose number it adopted. */
  lemma ResolveClient(h: PeerState, c: PeerState, j: nat)
    requires ClientOk(h, c) && HostEndpointsOk(h) && 0 < j < |h.slots|
    requires !Remote(c).resolved && Remote(c).address != [] && Remote(c).address == h.slots[j].local.address
    ensures j == c.actor && ClientOk(h, Resolved(c, h.slots[j].local.id)) &&
        Local(Resolved(c, h.slots[j].local.id)) == Local(c)
  {
  }

  lemma ClientStepKeeps(s: System, step: Step)
    requires Inv(s) && Allowed(s, step) && !(step.HostQueue? || step.HostInput? || step.HostTick?)
    ensures Inv(Next(s, step))
  {
    hide Inv, ClientOk, PeerStates.Tick, Enqueued, Connected, InputPacket, Resolved, HostInv, HostEndpointsOk,
        InputOk, TickOk;
    var h := s.Host();
    InvHost(s);
    if step.Inject? {
      InjectKeeps(s, step.p);
      return;
    }
    ClientIdDefined(s, step.c);
    var c := s.clients[step.c];
    assert s.net + {} == s.net;
    match step
    case ClientConnect(i) =>
      ConnectClient(h, c);
      ClientMoves(s, i, Connected(c, h.slots[0].local.id).state, {});
    case ClientQueue(i, data) =>
      EnqueueClient(h, c, data);
      ClientMoves(s, i, Enqueued(c, Some(data)).state, {});
    case ClientInput(i, p) =>
      SentDefined(s, p);
      InputGood(h, c, p);
      ClientMoves(s, i, InputPacket(c, p).state, {});
    case ClientTick(i, elapsed, draws) =>
      ClientTickKeeps(h, c, elapsed, draws);
      ClientMoves(s, i, PeerStates.Tick(c, elapsed, draws).state,
          PacketSet(PeerStates.Tick(c, elapsed, draws).packets));
    case Resolve(i, j) =>
      ResolveClient(h, c, j);
      ClientMoves(s, i, Resolved(c, h.slots[j].local.id), {});
  }

  lemma InjectKeeps(s: System, p: Packet)
    requires Inv(s) && Allowed(s, Inject(p))
    ensures Inv(Next(s, Inject(p)))
  {
    hide HostInv, HostEndpointsOk, ClientOk, ClientEndpointsOk;
  }

  /** The invariant is inductive. */
  lemma SystemStepKeeps(s: System, step: Step)
    requires Inv(s) && Allowed(s, step)
    ensures Inv(Next(s, step))
  {
    hide Inv, Allowed;
    if step.HostQueue? || step.HostInput? || step.HostTick? {
      HostStepKeeps(s, step);
    } else {
      ClientStepKeeps(s, step);
    }
  }

  lemma NextHost(s: System, elapsed: int, draws: Draws)
    requires Inv(s) && Allowed(s, HostTick(elapsed, draws))
    ensures var next, t := Next(s, HostTick(elapsed, draws)), PeerStates.Tick(s.Host(), elapsed, draws);
            next.Host() == t.state && next.clients == s.clients && next.net == s.net + PacketSet(t.packets)
  {
    hide Inv, PeerStates.Tick, TickOk;
    InvHost(s);
  }
}
