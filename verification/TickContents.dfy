/** Everything that a tick sends. */
module TickContents {
  import opened Options
  import opened Serial
  import opened Packets
  import opened Queues
  import opened Trails
  import opened PeerStates
  import opened HostRuns
  import opened HostGrowth
  import opened Network
  import opened Carriage
  import opened CatchUp
  import opened Letters

  /** The packets go from one endpoint to another and decode, in order, to the messages ms. */
  predicate Says(ps: seq<Packet>, source: int, destination: int, ms: seq<Message>) {
    var r := ParseAll(ps);
    && (forall p :: p in ps ==> p.source == source && p.destination == destination)
    && r.status == {} && |r.chunks| == |ms|
    && forall i :: 0 <= i < |ms| ==> |r.chunks[i]| >= N_MESSAGE_DATA && DecodesAs(r.chunks[i], ms[i])
  }

  /** The entries of q from an index on, as messages. */
  function From(q: seq<Entry>, index: nat): (ms: seq<Message>)
    requires index <= |q|
    ensures |ms| == |q| - index && forall i :: 0 <= i < |ms| ==> ms[i] == MessageAt(q, index + i)
  {
    seq(|q| - index, i requires 0 <= i < |q| - index => MessageAt(q, index + i))
  }

  /** The entries of q that the trail before an index holds, as messages. */
  function Trail(q: seq<Entry>, index: nat, draws: Draws, slot: nat): seq<Message>
    requires index <= |q|
  {
    SendIndicesInRange(q, index, draws, slot);
    MessagesAt(q, TrailIndices(index, draws, slot))
  }

  lemma TrailAt(q: seq<Entry>, index: nat, draws: Draws, slot: nat)
    requires index <= |q|
    ensures var ms, t := Trail(q, index, draws, slot), TrailIndices(index, draws, slot);
            IndicesOf(q, t) && |ms| == |t| && forall k :: 0 <= k < |t| ==> t[k] < |q| && ms[k] == MessageAt(q, t[k])
  {
    hide TrailIndices;
    SendIndicesInRange(q, index, draws, slot);
  }

  /** The chunk holds a whole header and decodes to m. */
  predicate Tells(c: Chunk, m: Message) {
    |c| >= N_MESSAGE_DATA && DecodesAs(c, m)
  }

  predicate Addressed(ps: seq<Packet>, source: int, destination: int) {
    forall p :: p in ps ==> p.source == source && p.destination == destination
  }

  lemma Told(ps: seq<Packet>, source: int, destination: int, ms: seq<Message>)
    requires Addressed(ps, source, destination) && ParseAll(ps).status == {} && |ParseAll(ps).chunks| == |ms|
    requires forall i :: 0 <= i < |ms| ==> Tells(ParseAll(ps).chunks[i], ms[i])
    ensures Says(ps, source, destination, ms)
  {
    hide ParseAll, DecodesAs;
    forall i | 0 <= i < |ms|
      ensures |ParseAll(ps).chunks[i]| >= N_MESSAGE_DATA && DecodesAs(ParseAll(ps).chunks[i], ms[i])
    {
      assert Tells(ParseAll(ps).chunks[i], ms[i]);
    }
  }

  lemma Tell(c: Chunk, m: Message)
    requires |c| >= N_MESSAGE_DATA && DecodesAs(c, m)
    ensures Tells(c, m)
  {
    hide DecodesAs;
  }

  lemma QueueSays(q: seq<Entry>, index: nat, source: int, destination: int, draws: Draws, slot: nat)
    requires QueueFits(q) && index < |q|
    ensures Says(QueuePackets(q, index, source, destination, draws, slot), source, destination,
                 From(q, index) + Trail(q, index, draws, slot))
  {
    hide *;
    TrailAt(q, index, draws, slot);
    SendReceive(q, index, source, destination, draws, slot);
    QueuePacketsAddressed(q, index, source, destination, draws, slot);
    var ps := QueuePackets(q, index, source, destination, draws, slot);
    var chunks, t := ParseAll(ps).chunks, TrailIndices(index, draws, slot);
    var ms := From(q, index) + Trail(q, index, draws, slot);
    forall i | 0 <= i < |ms| ensures Tells(chunks[i], ms[i]) {
      assert chunks[i] in chunks;
      if i >= |q| - index {
        var k := i - (|q| - index);
        assert chunks[|q| - index + k] == chunks[i] && ms[i] == MessageAt(q, t[k]);
      }
      Tell(chunks[i], ms[i]);
    }
    Told(ps, source, destination, ms);
  }

  lemma QueuePacketsAddressed(q: seq<Entry>, index: nat, source: int, destination: int, draws: Draws, slot: nat)
    requires QueueFits(q) && index < |q|
    ensures Addressed(QueuePackets(q, index, source, destination, draws, slot), source, destination)
  {
    hide TrailIndices, PackedPackets, ParsePacket;
    SendIndicesInRange(q, index, draws, slot);
    ChunksFramed(q, SendIndices(|q|, index, draws, slot));
    PackedPacketsShape(source, destination, QueueChunks(q, index, draws, slot));
  }

  lemma BeatSays(local: int, remote: int, q: seq<Entry>, index: nat, time: int, actor: int, draws: Draws, slot: nat)
    requires QueueFits(q) && index <= |q|
    ensures Says(HeartbeatPackets(local, remote, q, index, time, actor, draws, slot), local, remote,
                 [Message(0, -1, time, actor, [1])] + Trail(q, index, draws, slot))
  {
    hide *;
    TrailAt(q, index, draws, slot);
    HeartbeatSays(local, remote, q, index, time, actor, draws, slot);
    BeatAddressed(local, remote, q, index, time, actor, draws, slot);
    var ps := HeartbeatPackets(local, remote, q, index, time, actor, draws, slot);
    var chunks := ParseAll(ps).chunks;
    var ms := [Message(0, -1, time, actor, [1])] + Trail(q, index, draws, slot);
    forall i | 0 <= i < |ms| ensures Tells(chunks[i], ms[i]) {
      assert chunks[i] in chunks;
      if i >= 1 {
        assert chunks[1 + (i - 1)] == chunks[i];
      }
      Tell(chunks[i], ms[i]);
    }
    Told(ps, local, remote, ms);
  }

  lemma BeatAddressed(local: int, remote: int, q: seq<Entry>, index: nat, time: int, actor: int,
                      draws: Draws, slot: nat)
    requires QueueFits(q) && index <= |q|
    ensures Addressed(HeartbeatPackets(local, remote, q, index, time, actor, draws, slot), local, remote)
  {
    hide TrailIndices, PackedPackets, ParsePacket;
    HeartbeatChunksFramed(q, index, time, actor, draws, slot);
    PackedPacketsShape(local, remote, HeartbeatChunks(q, index, time, actor, draws, slot));
  }

  lemma AnswerSays(source: int, time: int, slot: Slot)
    requires |slot.local.address| <= ADDRESS_SIZE
    ensures Says(ResponsePackets(source, time, slot), source, slot.remote.id,
                 [Message(0, -1, time, slot.actor, [5] + slot.local.address)])
  {
    hide *;
    ResponseSays(source, time, slot);
    AnswerAddressed(source, time, slot);
    var ps, m := ResponsePackets(source, time, slot), Message(0, -1, time, slot.actor, [5] + slot.local.address);
    Tell(ParseAll(ps).chunks[0], m);
    Told(ps, source, slot.remote.id, [m]);
  }

  lemma AnswerAddressed(source: int, time: int, slot: Slot)
    requires |slot.local.address| <= ADDRESS_SIZE
    ensures Addressed(ResponsePackets(source, time, slot), source, slot.remote.id)
  {
    hide PackedPackets, Encode, ParsePacket;
    EncodeFramed(SessionResponse(time, slot));
    PackedPacketsShape(source, slot.remote.id, [Encode(SessionResponse(time, slot))]);
  }

  // ---- The host ----

  /** Slot j once a tick has merged everything. */
  lemma MergedSlot(t: HostTrace, elapsed: nat, draws: Draws, j: nat)
    requires HostInv(t) && TickAccepted(t.host, elapsed) && TickOk(t.host, elapsed) && 0 < j < |t.host.slots|
    ensures var m := Merged(Advanced(t.host, elapsed)); var a := t.host.slots[j]; var b := m.slots[j];
            var g := PeerStates.Tick(t.host, elapsed, draws).state;
            && HostSendable(m) && |m.slots| == |t.host.slots| && SlotSendable(m.queue, b)
            && b.state == a.state && b.local == a.local && b.remote == a.remote && b.actor == a.actor
            && b.outIndex == a.outIndex <= |m.queue|
            && b.clock == (if a.clock > 0 then a.clock - elapsed else a.clock)
            && m.slots[0].local == t.host.slots[0].local && m.actor == 0
            && m.time == g.time && m.queue == g.queue
            && (a.state != Empty ==> a.actor == j)
            && QueueFits(m.queue) && |b.local.address| <= ADDRESS_SIZE
  {
    hide Merged, SentSlots, SentPackets, TickOk, PeerStates.Tick, ClocksOk, InboxOk, TakenOk, LogOk;
    var a := Advanced(t.host, elapsed);
    MergedOk(t, elapsed);
    MergedSettles(t, elapsed, j);
    MergedLog(t, elapsed);
    TickedState(t, elapsed, draws);
    assert MergedUpTo(Stamped(a), MergeTo(Stamped(a), |a.slots|), |a.slots|);
    MergedActor(a);
  }

  lemma MergedActor(a: PeerState)
    ensures Merged(a).actor == a.actor && Merged(a).time == a.timeLocal
  {
    MergeToActor(Stamped(a), |a.slots|);
  }

  lemma {:induction false} MergeToActor(s: PeerState, n: nat)
    requires n <= |s.slots|
    ensures MergeTo(s, n).actor == s.actor && MergeTo(s, n).time == s.time
  {
    if n > 1 {
      MergeToActor(s, n - 1);
    }
  }

  /** What a tick of the host sends for slot j: nothing for an unbound slot; from slot 0 the response to a request;
      to a ready slot all that is new to it and a trail, or else, once its clock has run out, a heartbeat and a
      trail. */
  lemma HostTickSays(t: HostTrace, elapsed: nat, draws: Draws, j: nat)
    requires HostInv(t) && TickAccepted(t.host, elapsed) && TickOk(t.host, elapsed) && 0 < j < |t.host.slots|
    ensures HostSendable(Merged(Advanced(t.host, elapsed)))
    ensures var slot, ps := t.host.slots[j], SlotPackets(t.host, j, elapsed, draws);
            var g := PeerStates.Tick(t.host, elapsed, draws).state;
            var left := if slot.clock > 0 then slot.clock - elapsed else slot.clock;
            && slot.outIndex <= |g.queue|
            && match slot.state
               case Empty => ps == []
               case SessionRequest =>
                 Says(ps, t.host.slots[0].local.id, slot.remote.id,
                      [Message(0, -1, g.time, j, [5] + slot.local.address)])
               case Ready =>
                 var trail := Trail(g.queue, slot.outIndex, draws, j);
                 if slot.outIndex < |g.queue| then
                   Says(ps, slot.local.id, slot.remote.id, From(g.queue, slot.outIndex) + trail)
                 else if left <= 0 then
                   Says(ps, slot.local.id, slot.remote.id, [Message(0, -1, g.time, 0, [1])] + trail)
                 else ps == []
  {
    MergedSlot(t, elapsed, draws, j);
    hide HostInv, TickOk, PeerStates.Tick, Merged, Says, Trail, From, QueuePackets, HeartbeatPackets, ResponsePackets,
         HostSendable, SlotSendable;
    var m := Merged(Advanced(t.host, elapsed));
    var slot := m.slots[j];
    match slot.state
    case Empty =>
    case SessionRequest =>
      AnswerSays(m.slots[0].local.id, m.time, slot);
    case Ready =>
      if slot.outIndex < |m.queue| {
        QueueSays(m.queue, slot.outIndex, slot.local.id, slot.remote.id, draws, j);
      } else {
        BeatSays(slot.local.id, slot.remote.id, m.queue, slot.outIndex, m.time, m.actor, draws, j);
      }
  }

  // ---- The client ----

  /** What a tick of a client sends: all it has not sent yet of its own queue and a trail of that, or else, once its
      clock has run out, an untimed heartbeat under its actor and a trail of the mutual queue. */
  lemma ClientTickSays(h: PeerState, c: PeerState, elapsed: int, draws: Draws)
    requires ClientOk(h, c) && TickAccepted(c, elapsed) && TickOk(c, elapsed)
    ensures var slot, ps := c.slots[0], PeerStates.Tick(c, elapsed, draws).packets;
            var left := if slot.clock > 0 then slot.clock - elapsed else slot.clock;
            if slot.outIndex < |slot.queue| then
              Says(ps, slot.local.id, slot.remote.id,
                   From(slot.queue, slot.outIndex) + Trail(slot.queue, slot.outIndex, draws, 0))
            else if left <= 0 then
              slot.outIndex <= |c.queue| &&
              Says(ps, slot.local.id, slot.remote.id,
                   [Message(0, -1, 0, c.actor, [1])] + Trail(c.queue, slot.outIndex, draws, 0))
            else ps == []
  {
    hide Says, Trail, From, QueuePackets, HeartbeatPackets, MutualOk, OutboxOk, SessionOk;
    var slot := Advanced(c, elapsed).slots[0];
    if slot.outIndex < |slot.queue| {
      QueueSays(slot.queue, slot.outIndex, slot.local.id, slot.remote.id, draws, 0);
    } else if slot.clock <= 0 {
      BeatSays(slot.local.id, slot.remote.id, c.queue, slot.outIndex, 0, c.actor, draws, 0);
    }
  }

  // ---- The order of a tick's packets ----

  /** The packets for slots from a up to b, one slot after the other. */
  ghost function InSlotOrder(h: PeerState, a: nat, b: nat, elapsed: int, draws: Draws): seq<Packet>
    requires HostSendable(Merged(Advanced(h, elapsed))) && 0 < a && b <= |h.slots|
    decreases b - a
  {
    if a >= b then [] else SlotPackets(h, a, elapsed, draws) + InSlotOrder(h, a + 1, b, elapsed, draws)
  }

  lemma {:induction false} OneSlotMore(h: PeerState, a: nat, b: nat, elapsed: int, draws: Draws)
    requires HostSendable(Merged(Advanced(h, elapsed))) && 0 < a <= b < |h.slots|
    ensures InSlotOrder(h, a, b + 1, elapsed, draws)
         == InSlotOrder(h, a, b, elapsed, draws) + SlotPackets(h, b, elapsed, draws)
    decreases b - a
  {
    hide SlotPackets, HostSendable, Merged, Advanced;
    if a < b {
      OneSlotMore(h, a + 1, b, elapsed, draws);
    } else {
      assert SlotPackets(h, b, elapsed, draws) + [] == [] + SlotPackets(h, b, elapsed, draws);
    }
  }

  lemma {:induction false} SentInOrder(h: PeerState, n: nat, elapsed: int, draws: Draws)
    requires HostSendable(Merged(Advanced(h, elapsed))) && 0 < n <= |h.slots|
    ensures SentPackets(Merged(Advanced(h, elapsed)), n, draws) == InSlotOrder(h, 1, n, elapsed, draws)
  {
    hide HostSend, HostSendable, Merged, Advanced;
    if n > 1 {
      SentInOrder(h, n - 1, elapsed, draws);
      OneSlotMore(h, 1, n - 1, elapsed, draws);
    }
  }

  /** A tick's packets are those of slot 1, then those of slot 2, and so on, and no others. */
  lemma TickInSlotOrder(t: HostTrace, elapsed: nat, draws: Draws)
    requires HostInv(t) && TickAccepted(t.host, elapsed) && TickOk(t.host, elapsed) && |t.host.slots| > 0
    ensures HostSendable(Merged(Advanced(t.host, elapsed)))
    ensures PeerStates.Tick(t.host, elapsed, draws).packets == InSlotOrder(t.host, 1, |t.host.slots|, elapsed, draws)
  {
    hide HostInv, HostSendable, Merged, PeerStates.Tick, TickOk;
    MergedOk(t, elapsed);
    TickedState(t, elapsed, draws);
    SentInOrder(t.host, |t.host.slots|, elapsed, draws);
  }
}
