/** Which messages a packet carries, and which messages the packets of a send carry between them. */
module Carriage {
  import opened Options
  import opened Serial
  import opened Packets
  import opened Queues
  import opened Trails
  import opened PeerStates

  /** Some chunk of the packet decodes to m. */
  ghost predicate Carries(p: Packet, m: Message) {
    exists c :: c in PacketChunks(p) && |c| >= N_MESSAGE_DATA && ReadMessage(c) == m
  }

  ghost predicate Among(ps: seq<Packet>, m: Message) {
    exists p :: p in ps && Carries(p, m)
  }

  /** Between them the packets carry the messages ms and nothing else. */
  ghost predicate CarryExactly(ps: seq<Packet>, ms: seq<Message>) {
    && (forall p :: p in ps ==> Headed(PacketChunks(p)))
    && (forall p, m :: p in ps && Carries(p, m) ==> m in ms)
    && (forall m :: m in ms ==> Among(ps, m))
  }

  lemma PackedCarry(source: int, destination: int, chunks: seq<Chunk>, ms: seq<Message>)
    requires AllFramed(chunks) && |ms| == |chunks| && forall i :: 0 <= i < |ms| ==> ReadMessage(chunks[i]) == ms[i]
    ensures CarryExactly(PackedPackets(source, destination, chunks), ms)
  {
    hide ReadMessage, PackedPackets, PacketChunks, Framed;
    var ps := PackedPackets(source, destination, chunks);
    PackedPacketsShape(source, destination, chunks);
    FramedHeaded(chunks);
    forall p, m | p in ps && Carries(p, m) ensures m in ms {
      var c :| c in PacketChunks(p) && |c| >= N_MESSAGE_DATA && ReadMessage(c) == m;
      assert c in chunks;
      var i :| 0 <= i < |chunks| && chunks[i] == c;
      assert ms[i] == m;
    }
    forall m | m in ms ensures Among(ps, m) {
      var i :| 0 <= i < |ms| && ms[i] == m;
      assert chunks[i] in chunks;
      var p :| p in ps && chunks[i] in PacketChunks(p);
      assert Carries(p, m);
    }
    forall p | p in ps ensures Headed(PacketChunks(p)) {
      forall i | 0 <= i < |PacketChunks(p)| ensures |PacketChunks(p)[i]| >= N_MESSAGE_DATA {
        assert PacketChunks(p)[i] in chunks;
      }
    }
  }

  lemma FramedHeaded(chunks: seq<Chunk>)
    requires AllFramed(chunks)
    ensures forall c :: c in chunks ==> |c| >= N_MESSAGE_DATA
  {
  }

  /** The messages of a queue under the given indices. */
  function MessagesAt(q: seq<Entry>, indices: seq<nat>): (ms: seq<Message>)
    requires IndicesOf(q, indices)
    ensures |ms| == |indices| && forall i :: 0 <= i < |ms| ==> ms[i] == MessageAt(q, indices[i])
  {
    seq(|indices|, i requires 0 <= i < |indices| => MessageAt(q, indices[i]))
  }

  lemma ChunksDecode(q: seq<Entry>, indices: seq<nat>)
    requires QueueFits(q) && IndicesOf(q, indices)
    requires forall i :: 0 <= i < |indices| ==> Sendable(MessageAt(q, indices[i]))
    ensures forall i :: 0 <= i < |indices| ==> ReadMessage(ChunksAt(q, indices)[i]) == MessageAt(q, indices[i])
  {
    hide ReadMessage, Encode, Sendable;
    forall i | 0 <= i < |indices| ensures ReadMessage(ChunksAt(q, indices)[i]) == MessageAt(q, indices[i]) {
      MessageRoundTrip(MessageAt(q, indices[i]));
    }
  }

  predicate SendableBelow(q: seq<Entry>, n: nat)
    requires n <= |q|
  {
    forall k :: 0 <= k < n ==> Sendable(MessageAt(q, k))
  }

  lemma QueuePacketsCarry(q: seq<Entry>, index: nat, source: int, destination: int, draws: Draws, slot: nat)
    requires QueueFits(q) && index < |q| && SendableBelow(q, |q|)
    ensures IndicesOf(q, SendIndices(|q|, index, draws, slot))
    ensures CarryExactly(QueuePackets(q, index, source, destination, draws, slot),
        MessagesAt(q, SendIndices(|q|, index, draws, slot)))
  {
    hide ReadMessage, PackedPackets, Encode, SendIndices, CarryExactly, Sendable;
    var indices := SendIndices(|q|, index, draws, slot);
    SendIndicesInRange(q, index, draws, slot);
    ChunksFramed(q, indices);
    ChunksDecode(q, indices);
    PackedCarry(source, destination, QueueChunks(q, index, draws, slot), MessagesAt(q, indices));
  }

  lemma HeartbeatPacketsCarry(local: int, remote: int, q: seq<Entry>, index: nat, time: int, actor: int,
      draws: Draws, slot: nat)
    requires QueueFits(q) && index <= |q| && SendableBelow(q, index) && Sendable(Heartbeat(time, actor))
    ensures IndicesOf(q, TrailIndices(index, draws, slot))
    ensures CarryExactly(HeartbeatPackets(local, remote, q, index, time, actor, draws, slot),
                         [Heartbeat(time, actor)] + MessagesAt(q, TrailIndices(index, draws, slot)))
  {
    hide ReadMessage, PackedPackets, Encode, TrailIndices, CarryExactly, Sendable;
    var indices := TrailIndices(index, draws, slot);
    SendIndicesInRange(q, index, draws, slot);
    TrailShape(index, draws, slot);
    HeartbeatChunksFramed(q, index, time, actor, draws, slot);
    MessageRoundTrip(Heartbeat(time, actor));
    forall i | 0 <= i < |indices| ensures Sendable(MessageAt(q, indices[i])) {
      assert indices[i] in indices;
    }
    ChunksDecode(q, indices);
    PackedCarry(local, remote, HeartbeatChunks(q, index, time, actor, draws, slot),
        [Heartbeat(time, actor)] + MessagesAt(q, indices));
  }
}
