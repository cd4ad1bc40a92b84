/** What a client's packets carry, and exactly when a heartbeat can be mistaken for the client's own messages. */
module Heartbeats {
  import opened Options
  import opened Serial
  import opened Packets
  import opened Queues
  import opened Trails
  import opened PeerStates
  import opened HostRuns
  import opened Network
  import opened Agreement
  import opened Carriage

  /** A message that the host's slot for `actor` would store carries what the client queued at that index. */
  predicate Honest(out: seq<Entry>, actor: int, m: Message) {
    m.mode != MESSAGE_MODE_SERVICE && m.time == 0 && Actor32(m) == actor ==>
      0 <= m.index < |out| && m.data == out[m.index].data
  }

  ghost predicate HonestPacket(out: seq<Entry>, actor: int, p: Packet) {
    forall m :: Carries(p, m) ==> Honest(out, actor, m)
  }

  /** The indices a trail may reach, over all random draws. */
  predicate InReach(index: nat, k: nat) {
    k < index && (index < 105 || k >= index - 100)
  }

  /** The mutual queue holds, at an index a trail may reach, an untimed message of this client that is not
      the one it queued at that index. */
  predicate Misleading(c: PeerState, k: nat)
    requires |c.slots| == 1
  {
    && k < |c.queue| && InReach(c.slots[0].outIndex, k)
    && c.queue[k].time == 0 && c.queue[k].actor == c.actor
    && !(k < |c.slots[0].queue| && c.queue[k].data == c.slots[0].queue[k].data)
  }

  // ---- What a client sends ----

  lemma OutboxSendable(h: PeerState, c: PeerState)
    requires ClientOk(h, c) && |h.slots| < TWO_32 - 1 && |c.slots[0].queue| <= INT64_MAX
    ensures QueueFits(c.slots[0].queue) && SendableBelow(c.slots[0].queue, |c.slots[0].queue|)
    ensures Sendable(Heartbeat(0, c.actor))
  {
  }

  lemma MutualSendable(t: HostTrace, c: PeerState, n: nat)
    requires HostInv(t) && ClientOk(t.host, c) && n <= |c.queue| && n <= INT64_MAX
    ensures QueueFits(c.queue) && SendableBelow(c.queue, n)
  {
    hide ClocksOk, SlotOk, SessionOk, OutboxOk, SumIn;
    forall k | 0 <= k < |c.queue|
      ensures |c.queue[k].data| <= MAX_MESSAGE_SIZE && 0 <= c.queue[k].time <= INT64_MAX &&
          0 <= c.queue[k].actor < TWO_32 - 1
    {
      if c.queue[k].ready {
        assert c.queue[k] == t.host.queue[k];
      }
    }
  }

  /** New messages are always honest: they are sent from the outgoing queue itself. */
  lemma NewMessagesHonest(h: PeerState, c: PeerState, draws: Draws, actor: int)
    requires ClientOk(h, c) && |h.slots| < TWO_32 - 1 && |c.slots[0].queue| <= INT64_MAX
    requires c.slots[0].outIndex < |c.slots[0].queue|
    ensures QueueFits(c.slots[0].queue)
    ensures var slot := c.slots[0];
            forall p :: p in QueuePackets(slot.queue, slot.outIndex, slot.local.id, slot.remote.id, draws, 0) ==>
              HonestPacket(slot.queue, actor, p)
  {
    hide QueuePackets, Carries, SendIndices;
    var slot := c.slots[0];
    OutboxSendable(h, c);
    QueuePacketsCarry(slot.queue, slot.outIndex, slot.local.id, slot.remote.id, draws, 0);
  }

  lemma TrailReach(index: nat, draws: Draws, k: nat)
    requires k in TrailIndices(index, draws, 0)
    ensures InReach(index, k)
  {
    TrailShape(index, draws, 0);
    TrailCoverage(index, 0, k);
  }

  /** What a heartbeat from this client's state would send. */
  ghost function BeatPackets(c: PeerState, draws: Draws): seq<Packet>
    requires |c.slots| == 1 && QueueFits(c.queue) && c.slots[0].outIndex <= |c.queue|
  {
    var slot := c.slots[0];
    HeartbeatPackets(slot.local.id, slot.remote.id, c.queue, slot.outIndex, 0, c.actor, draws, 0)
  }

  lemma BeatCarries(t: HostTrace, c: PeerState, draws: Draws)
    requires HostInv(t) && ClientOk(t.host, c) && |c.slots[0].queue| <= INT64_MAX && c.slots[0].outIndex <= |c.queue|
    ensures QueueFits(c.queue)
    ensures IndicesOf(c.queue, TrailIndices(c.slots[0].outIndex, draws, 0))
    ensures CarryExactly(BeatPackets(c, draws),
                         [Heartbeat(0, c.actor)] + MessagesAt(c.queue, TrailIndices(c.slots[0].outIndex, draws, 0)))
  {
    hide HeartbeatPackets, TrailIndices, CarryExactly, Sendable, SendableBelow;
    var slot := c.slots[0];
    OutboxSendable(t.host, c);
    MutualSendable(t, c, slot.outIndex);
    HeartbeatPacketsCarry(slot.local.id, slot.remote.id, c.queue, slot.outIndex, 0, c.actor, draws, 0);
  }

  /** A packet of a heartbeat carries the heartbeat itself and entries of the mutual queue that the trail reaches. */
  lemma BeatMessage(t: HostTrace, c: PeerState, draws: Draws, p: Packet, m: Message)
    requires HostInv(t) && ClientOk(t.host, c) && |c.slots[0].queue| <= INT64_MAX && c.slots[0].outIndex <= |c.queue|
    requires QueueFits(c.queue) && p in BeatPackets(c, draws) && Carries(p, m)
    ensures m != Heartbeat(0, c.actor) ==>
              0 <= m.index < |c.queue| && InReach(c.slots[0].outIndex, m.index) && m == MessageAt(c.queue, m.index)
    ensures Headed(PacketChunks(p))
  {
    BeatCarries(t, c, draws);
    FromTrail(c.queue, c.slots[0].outIndex, draws, BeatPackets(c, draws), Heartbeat(0, c.actor), p, m);
  }

  lemma FromTrail(q: seq<Entry>, index: nat, draws: Draws, ps: seq<Packet>, first: Message, p: Packet, m: Message)
    requires IndicesOf(q, TrailIndices(index, draws, 0))
    requires CarryExactly(ps, [first] + MessagesAt(q, TrailIndices(index, draws, 0))) && p in ps && Carries(p, m)
    ensures m != first ==> 0 <= m.index < |q| && InReach(index, m.index) && m == MessageAt(q, m.index)
    ensures Headed(PacketChunks(p))
  {
    hide Carries, TrailIndices, InReach;
    var indices := TrailIndices(index, draws, 0);
    var ms := [first] + MessagesAt(q, indices);
    assert m in ms;
    var i :| 0 <= i < |ms| && ms[i] == m;
    if i > 0 {
      assert indices[i - 1] in indices;
      TrailReach(index, draws, indices[i - 1]);
    }
  }

  /** Every entry within reach of the trail is sent, for some draws. */
  lemma BeatReaches(t: HostTrace, c: PeerState, k: nat) returns (draws: Draws, p: Packet)
    requires HostInv(t) && ClientOk(t.host, c) && |c.slots[0].queue| <= INT64_MAX && c.slots[0].outIndex <= |c.queue|
    requires k < |c.queue| && InReach(c.slots[0].outIndex, k)
    ensures QueueFits(c.queue) && p in BeatPackets(c, draws) && Carries(p, MessageAt(c.queue, k))
  {
    draws := DrawsFor(c.slots[0].outIndex, k);
    BeatCarries(t, c, draws);
    p := ToTrail(c.queue, c.slots[0].outIndex, draws, BeatPackets(c, draws), Heartbeat(0, c.actor), k);
  }

  lemma DrawsFor(index: nat, k: nat) returns (draws: Draws)
    requires InReach(index, k)
    ensures k in TrailIndices(index, draws, 0)
  {
    TrailCoverage(index, 0, k);
    draws :| k in TrailIndices(index, draws, 0);
  }

  lemma ToTrail(q: seq<Entry>, index: nat, draws: Draws, ps: seq<Packet>, first: Message, k: nat) returns (p: Packet)
    requires IndicesOf(q, TrailIndices(index, draws, 0)) && k in TrailIndices(index, draws, 0)
    requires CarryExactly(ps, [first] + MessagesAt(q, TrailIndices(index, draws, 0)))
    ensures k < |q| && p in ps && Carries(p, MessageAt(q, k))
  {
    hide Carries, TrailIndices;
    var indices := TrailIndices(index, draws, 0);
    var ms := [first] + MessagesAt(q, indices);
    var i :| 0 <= i < |indices| && indices[i] == k;
    assert ms[i + 1] == MessageAt(q, k);
    assert Among(ps, MessageAt(q, k));
    p :| p in ps && Carries(p, MessageAt(q, k));
  }

  lemma MutualActor(t: HostTrace, c: PeerState, k: nat)
    requires HostInv(t) && ClientOk(t.host, c) && k < |c.queue|
    ensures 0 <= c.queue[k].actor < TWO_32 && Actor32(MessageAt(c.queue, k)) == c.queue[k].actor
  {
    MutualSendable(t, c, 0);
    hide ClocksOk, SlotOk, SessionOk, OutboxOk, SumIn;
    if c.queue[k].ready {
      assert c.queue[k] == t.host.queue[k];
    }
  }

  /** A resent entry could be stored as one of the client's own messages and be the wrong one exactly when it
      is misleading. */
  lemma MisleadingIff(t: HostTrace, c: PeerState, k: nat)
    requires HostInv(t) && ClientOk(t.host, c) && k < |c.queue| && InReach(c.slots[0].outIndex, k)
    ensures Honest(c.slots[0].queue, c.actor, MessageAt(c.queue, k)) <==> !Misleading(c, k)
  {
    MutualActor(t, c, k);
    hide HostInv, ClientOk;
  }

  lemma HonestBeat(t: HostTrace, c: PeerState, draws: Draws, p: Packet)
    requires HostInv(t) && ClientOk(t.host, c) && |c.slots[0].queue| <= INT64_MAX && c.slots[0].outIndex <= |c.queue|
    requires forall k :: 0 <= k < |c.queue| ==> !Misleading(c, k)
    requires QueueFits(c.queue) && p in BeatPackets(c, draws)
    ensures HonestPacket(c.slots[0].queue, c.actor, p)
  {
    hide HostInv, Carries, BeatPackets, MessageAt, MutualOk, OutboxOk, SessionOk;
    forall m | Carries(p, m) ensures Honest(c.slots[0].queue, c.actor, m) {
      BeatMessage(t, c, draws, p, m);
      if m != Heartbeat(0, c.actor) {
        MisleadingIff(t, c, m.index);
      }
    }
  }

  /** A heartbeat can be told apart from the client's own messages, whatever numbers are drawn, exactly when
      no entry within reach of its trail is misleading. */
  lemma HeartbeatHonestIff(t: HostTrace, c: PeerState)
    requires HostInv(t) && ClientOk(t.host, c) && |c.slots[0].queue| <= INT64_MAX && c.slots[0].outIndex <= |c.queue|
    ensures QueueFits(c.queue)
    ensures (forall draws: Draws, p: Packet :: p in BeatPackets(c, draws) ==>
        HonestPacket(c.slots[0].queue, c.actor, p))
        <==> (forall k :: 0 <= k < |c.queue| ==> !Misleading(c, k))
  {
    hide HostInv, Carries, BeatPackets, MessageAt, MutualOk, OutboxOk, SessionOk, Honest, InReach;
    MutualSendable(t, c, 0);
    if forall k :: 0 <= k < |c.queue| ==> !Misleading(c, k) {
      forall draws: Draws, p: Packet | p in BeatPackets(c, draws) ensures HonestPacket(c.slots[0].queue, c.actor, p) {
        HonestBeat(t, c, draws, p);
      }
    } else {
      var k :| 0 <= k < |c.queue| && Misleading(c, k);
      var draws, p := BeatReaches(t, c, k);
      MisleadingIff(t, c, k);
      assert !HonestPacket(c.slots[0].queue, c.actor, p);
    }
  }

  lemma BeatPacketsAddressed(c: PeerState, draws: Draws)
    requires |c.slots| == 1 && QueueFits(c.queue) && c.slots[0].outIndex <= |c.queue|
    ensures forall p :: p in BeatPackets(c, draws) ==> p.destination == Remote(c).id
  {
    var slot := c.slots[0];
    HeartbeatChunksFramed(c.queue, slot.outIndex, 0, c.actor, draws, 0);
    PackedPacketsShape(slot.local.id, slot.remote.id, HeartbeatChunks(c.queue, slot.outIndex, 0, c.actor, draws, 0));
  }

  lemma BeatPacketsFrom(c: PeerState, draws: Draws)
    requires |c.slots| == 1 && QueueFits(c.queue) && c.slots[0].outIndex <= |c.queue|
    ensures forall p :: p in BeatPackets(c, draws) ==> p.source == Local(c).id
  {
    var slot := c.slots[0];
    HeartbeatPacketsOwn(slot.local.id, slot.remote.id, c.queue, slot.outIndex, 0, c.actor, draws, 0);
  }
}
