/** Packets that hold a single message. */
module Letters {
  import opened Options
  import opened Serial
  import opened Packets
  import opened Queues
  import opened Trails
  import opened PeerStates
  import opened Answers

  lemma One(source: int, destination: int, m: Message)
    requires Sendable(m)
    ensures AllFramed([Encode(m)]) && Fits([Encode(m)])
    ensures PackedPackets(source, destination, [Encode(m)]) == [Sealed(source, destination, [Encode(m)])]
    ensures ParsePacket(Sealed(source, destination, [Encode(m)])) == Parsed(OK, [Encode(m)])
    ensures ReadMessage(Encode(m)) == m
  {
    MessageRoundTrip(m);
    EncodeFramed(m);
    assert Load([Encode(m)]) == |Encode(m)| by {
      LoadSnoc([], Encode(m));
      EmptyGroup();
      assert [] + [Encode(m)] == [Encode(m)];
    }
    OnePacket(source, destination, [Encode(m)]);
  }

  lemma ReceiveOne(s: PeerState, j: nat, m: Message)
    requires j < |s.slots| && Sendable(m)
    ensures Headed([Encode(m)])
    ensures ReceiveAll(s, j, [Encode(m)]) == Receive(s, j, m)
  {
    hide Receive;
    MessageRoundTrip(m);
    ReceiveAllSingle(s, j, Encode(m));
  }

  /** Taking in a packet that holds one message is taking in the message. */
  lemma InputsOne(s: PeerState, j: nat, p: Packet, m: Message)
    requires Sendable(m) && HasLocal(s.slots, p.destination) && FindMatch(s.slots, p, 0) == Some(j)
    requires s.mode == Client ==> |m.data| - 1 <= ADDRESS_SIZE
    requires p in PackedPackets(p.source, p.destination, [Encode(m)])
    ensures InputOk(s, p) && InputPacket(s, p) == Receive(s, j, m)
  {
    One(p.source, p.destination, m);
    ReceiveOne(s, j, m);
    hide PackedPackets, ReadMessage, Encode, ParsePacket, Sealed, ReceiveAll, Receive, FindMatch;
    assert PacketChunks(p) == [Encode(m)];
    assert OK + Receive(s, j, m).status == Receive(s, j, m).status;
  }

  lemma AddressedAs(source: int, destination: int, m: Message, p: Packet)
    requires Sendable(m) && p in PackedPackets(source, destination, [Encode(m)])
    ensures p.source == source && p.destination == destination
  {
    One(source, destination, m);
  }

  // ---- What service packets say ----

  /** A heartbeat's packets hold, first, a service message without an index, with the given time and actor and the
      heartbeat's id, and then the trail. */
  lemma HeartbeatSays(local: int, remote: int, q: seq<Entry>, index: nat, time: int, actor: int,
                      draws: Draws, slot: nat)
    requires QueueFits(q) && index <= |q|
    ensures IndicesOf(q, TrailIndices(index, draws, slot))
    ensures var r := ParseAll(HeartbeatPackets(local, remote, q, index, time, actor, draws, slot));
            var t := TrailIndices(index, draws, slot);
            && r.status == {} && |r.chunks| == 1 + |t|
            && (forall c :: c in r.chunks ==> |c| >= N_MESSAGE_DATA)
            && DecodesAs(r.chunks[0], Message(0, -1, time, actor, [1]))
            && (forall i :: 0 <= i < |t| ==> DecodesAs(r.chunks[1 + i], MessageAt(q, t[i])))
  {
    hide PackedPackets, ParseAll, Encode, TrailIndices, ReadMessage, AllFramed, DecodesAs;
    var t := TrailIndices(index, draws, slot);
    var chunks := HeartbeatChunks(q, index, time, actor, draws, slot);
    SendIndicesInRange(q, index, draws, slot);
    HeartbeatChunksFramed(q, index, time, actor, draws, slot);
    PackRoundTrip(local, remote, chunks);
    DecodesExactly(Message(0, -1, time, actor, [1]));
    assert AllFramed(chunks) ==> forall i :: 0 <= i < |chunks| ==> |chunks[i]| >= N_MESSAGE_DATA by {
      FramedLong(chunks);
    }
    forall i | 0 <= i < |t| ensures DecodesAs(chunks[1 + i], MessageAt(q, t[i])) {
      DecodesExactly(MessageAt(q, t[i]));
    }
  }

  lemma FramedLong(chunks: seq<Chunk>)
    ensures AllFramed(chunks) ==> forall i :: 0 <= i < |chunks| ==> |chunks[i]| >= N_MESSAGE_DATA
  {
  }

  /** A session response says the time, the slot's actor and its address. */
  lemma ResponseSays(source: int, time: int, slot: Slot)
    requires |slot.local.address| <= ADDRESS_SIZE
    ensures var r := ParseAll(ResponsePackets(source, time, slot));
            && r.status == {} && |r.chunks| == 1 && |r.chunks[0]| >= N_MESSAGE_DATA
            && DecodesAs(r.chunks[0], Message(0, -1, time, slot.actor, [5] + slot.local.address))
  {
    var m := SessionResponse(time, slot);
    EncodeFramed(m);
    hide PackedPackets, ParseAll, Encode, ReadMessage, DecodesAs;
    PackRoundTrip(source, slot.remote.id, [Encode(m)]);
    DecodesExactly(Message(0, -1, time, slot.actor, [5] + slot.local.address));
  }
}
