/** What is sent for a queue: every message from an index on, then a trail of earlier ones again. */
module Trails {
  import opened Options
  import opened Serial
  import opened Packets
  import opened Queues

  /** The random numbers of one tick: draws(i, k) is the k-th number drawn for slot i. Any function will do. */
  type Draws = (nat, nat) -> uint64

  // ---- Which messages ----

  function SerialSize(index: nat): (n: nat)
    ensures n <= index
  {
    if TRAIL_SERIAL_SIZE > index || index - TRAIL_SERIAL_SIZE < TRAIL_SCATTER_DISTANCE then index
    else TRAIL_SERIAL_SIZE
  }

  function ScatterDistance(index: nat): (d: nat)
    ensures d <= index
  {
    var rest := index - SerialSize(index);
    if TRAIL_SCATTER_DISTANCE > rest then rest else TRAIL_SCATTER_DISTANCE
  }

  function ScatterSize(index: nat): nat {
    if TRAIL_SCATTER_SIZE > ScatterDistance(index) then ScatterDistance(index) else TRAIL_SCATTER_SIZE
  }

  function SerialIndices(index: nat): (r: seq<nat>)
    ensures |r| == SerialSize(index)
    ensures forall i :: 0 <= i < |r| ==> r[i] == index - SerialSize(index) + i
  {
    seq(SerialSize(index), i requires 0 <= i < SerialSize(index) => index - SerialSize(index) + i)
  }

  function ScatterPick(index: nat, draw: uint64): (k: nat)
    requires ScatterSize(index) > 0
    ensures index - ScatterDistance(index) <= k < index
  {
    var distance := ScatterDistance(index);
    assert 0 <= draw % distance < distance;
    index - distance + draw % distance
  }

  function ScatterIndices(index: nat, draws: Draws, slot: nat): (r: seq<nat>)
    ensures |r| == ScatterSize(index)
    ensures forall i :: 0 <= i < |r| ==> r[i] == ScatterPick(index, draws(slot, i))
  {
    seq<nat>(ScatterSize(index), i requires 0 <= i < ScatterSize(index) => ScatterPick(index, draws(slot, i)))
  }

  function TrailIndices(index: nat, draws: Draws, slot: nat): seq<nat> {
    SerialIndices(index) + ScatterIndices(index, draws, slot)
  }

  /** Whatever the draws, only earlier messages are sent again: all of them below 105, and from there
      on the last five in order and then five picks among the last hundred, each by a number drawn. */
  lemma TrailShape(index: nat, draws: Draws, slot: nat)
    ensures var t := TrailIndices(index, draws, slot);
            && (forall k :: k in t ==> k < index)
            && (index < 105 ==> |t| == index && forall i :: 0 <= i < index ==> t[i] == i)
            && (index >= 105 ==>
                  && |t| == 10
                  && (forall i :: 0 <= i < 5 ==> t[i] == index - 5 + i)
                  && (forall i :: 5 <= i < 10 ==>
                        index - 100 <= t[i] < index && t[i] == index - 100 + draws(slot, i - 5) % 100))
  {
  }

  /** A message is sent again on every tick exactly when it is among the first 105 or the last five;
      it has a chance exactly when it is among the last hundred too. */
  lemma TrailCoverage(index: nat, slot: nat, k: nat)
    requires k < index
    ensures (forall draws: Draws :: k in TrailIndices(index, draws, slot)) <==> index < 105 || k >= index - 5
    ensures (exists draws: Draws :: k in TrailIndices(index, draws, slot)) <==> index < 105 || k >= index - 100
  {
    if index < 105 {
      forall draws: Draws ensures k in TrailIndices(index, draws, slot) {
        TrailShape(index, draws, slot);
        assert TrailIndices(index, draws, slot)[k] == k;
      }
      var zero: Draws := (_, _) => 0;
      assert k in TrailIndices(index, zero, slot);
    } else {
      AlwaysSent(index, slot, k);
      SometimesSent(index, slot, k);
    }
  }

  lemma AlwaysSent(index: nat, slot: nat, k: nat)
    requires 105 <= index && k < index
    ensures (forall draws: Draws :: k in TrailIndices(index, draws, slot)) <==> k >= index - 5
  {
    if k >= index - 5 {
      forall draws: Draws ensures k in TrailIndices(index, draws, slot) {
        assert TrailIndices(index, draws, slot)[k - (index - 5)] == k;
      }
    } else {
      // Every pick hits the oldest message in reach, or the one after it when k is that message.
      var miss: uint64 := if k == index - 100 then 1 else 0;
      var draws: Draws := (_, _) => miss;
      forall i | 0 <= i < 10 ensures TrailIndices(index, draws, slot)[i] != k {
        if i >= 5 {
          assert TrailIndices(index, draws, slot)[i] == ScatterPick(index, miss) == index - 100 + miss;
        }
      }
      assert k !in TrailIndices(index, draws, slot);
    }
  }

  lemma SometimesSent(index: nat, slot: nat, k: nat)
    requires 105 <= index && k < index
    ensures (exists draws: Draws :: k in TrailIndices(index, draws, slot)) <==> k >= index - 100
  {
    if k >= index - 100 {
      var hit: uint64 := k - (index - 100);
      var draws: Draws := (_, _) => hit;
      assert TrailIndices(index, draws, slot)[5] == ScatterPick(index, hit) == k;
    } else {
      forall draws: Draws ensures k !in TrailIndices(index, draws, slot) {
        TrailShape(index, draws, slot);
        var t := TrailIndices(index, draws, slot);
        assert forall i :: 0 <= i < |t| ==> t[i] >= index - 100;
      }
    }
  }

  // ---- Their chunks ----

  /** Every payload is small enough to travel. */
  predicate QueueFits(q: seq<Entry>) {
    forall k :: 0 <= k < |q| ==> |q[k].data| <= MAX_MESSAGE_SIZE
  }

  predicate IndicesOf(q: seq<Entry>, indices: seq<nat>) {
    forall i :: 0 <= i < |indices| ==> indices[i] < |q|
  }

  function MessageAt(q: seq<Entry>, k: nat): Message
    requires k < |q|
  {
    Message(MESSAGE_MODE_APPLICATION, k, q[k].time, q[k].actor, q[k].data)
  }

  function ChunksAt(q: seq<Entry>, indices: seq<nat>): (chunks: seq<Chunk>)
    requires QueueFits(q) && IndicesOf(q, indices)
    ensures |chunks| == |indices|
    ensures forall i :: 0 <= i < |chunks| ==> chunks[i] == Encode(MessageAt(q, indices[i]))
  {
    seq(|indices|, i requires 0 <= i < |indices| => Encode(MessageAt(q, indices[i])))
  }

  function NewIndices(size: nat, index: nat): (r: seq<nat>)
    requires index <= size
    ensures |r| == size - index && forall i :: 0 <= i < |r| ==> r[i] == index + i
  {
    seq(size - index, i requires 0 <= i < size - index => index + i)
  }

  function SendIndices(size: nat, index: nat, draws: Draws, slot: nat): (r: seq<nat>)
    requires index <= size
  {
    NewIndices(size, index) + TrailIndices(index, draws, slot)
  }

  lemma SendIndicesInRange(q: seq<Entry>, index: nat, draws: Draws, slot: nat)
    requires index <= |q|
    ensures IndicesOf(q, SendIndices(|q|, index, draws, slot)) && IndicesOf(q, TrailIndices(index, draws, slot))
  {
    TrailShape(index, draws, slot);
  }

  function QueueChunks(q: seq<Entry>, index: nat, draws: Draws, slot: nat): seq<Chunk>
    requires QueueFits(q) && index <= |q|
  {
    SendIndicesInRange(q, index, draws, slot);
    ChunksAt(q, SendIndices(|q|, index, draws, slot))
  }

  function TrailChunks(q: seq<Entry>, index: nat, draws: Draws, slot: nat): seq<Chunk>
    requires QueueFits(q) && index <= |q|
  {
    SendIndicesInRange(q, index, draws, slot);
    ChunksAt(q, TrailIndices(index, draws, slot))
  }

  lemma EncodeFramed(m: Message)
    requires Writable(m)
    ensures Framed(Encode(m)) && |Encode(m)| <= PAYLOAD_SIZE
  {
    SizeAndModeRoundTrip(m);
  }

  lemma ChunksFramed(q: seq<Entry>, indices: seq<nat>)
    requires QueueFits(q) && IndicesOf(q, indices)
    ensures AllFramed(ChunksAt(q, indices))
  {
    forall i | 0 <= i < |indices| ensures Framed(ChunksAt(q, indices)[i]) && |ChunksAt(q, indices)[i]| <= PAYLOAD_SIZE {
      EncodeFramed(MessageAt(q, indices[i]));
    }
  }

  // ---- Packing them ----

  function QueuePackets(q: seq<Entry>, index: nat, source: int, destination: int, draws: Draws, slot: nat): seq<Packet>
    requires QueueFits(q) && index <= |q|
  {
    if index == |q| then []
    else
      SendIndicesInRange(q, index, draws, slot);
      ChunksFramed(q, SendIndices(|q|, index, draws, slot));
      PackedPackets(source, destination, QueueChunks(q, index, draws, slot))
  }

  method NewChunk(m: Message) returns (c: Chunk)
    requires Writable(m)
    ensures c == Encode(m)
  {
    var buffer := new byte[N_MESSAGE_DATA + |m.data|];
    WriteMessage(buffer, m);
    c := buffer[..];
    assert c == Encode(m) + c[|Encode(m)|..];
  }

  /** Appends the trail of q before an index to the chunks. */
  method AppendTrail(q: seq<Entry>, index: nat, draws: Draws, slot: nat, chunks: seq<Chunk>) returns (r: seq<Chunk>)
    requires QueueFits(q) && index <= |q|
    ensures r == chunks + TrailChunks(q, index, draws, slot)
  {
    hide Encode, ChunksAt;
    ghost var serial, scatter := SerialIndices(index), ScatterIndices(index, draws, slot);
    SendIndicesInRange(q, index, draws, slot);
    ChunksConcat(q, serial, scatter);
    var trailSize: nat := TRAIL_SERIAL_SIZE;
    if trailSize > index || index - trailSize < TRAIL_SCATTER_DISTANCE {
      trailSize := index;
    }
    r := chunks;
    for i := 0 to trailSize
      invariant r == chunks + ChunksAt(q, serial[..i])
    {
      var c := NewChunk(MessageAt(q, index - trailSize + i));
      r := r + [c];
      ChunksSnoc(q, serial, i);
    }
    assert serial[..trailSize] == serial;
    r := AppendScatter(q, index, trailSize, draws, slot, r);
    Associative(chunks, ChunksAt(q, serial), ChunksAt(q, scatter));
  }

  method AppendScatter(q: seq<Entry>, index: nat, trailSize: nat, draws: Draws, slot: nat, chunks: seq<Chunk>)
    returns (r: seq<Chunk>)
    requires QueueFits(q) && index <= |q| && trailSize == SerialSize(index)
    requires IndicesOf(q, ScatterIndices(index, draws, slot))
    ensures r == chunks + ChunksAt(q, ScatterIndices(index, draws, slot))
  {
    hide Encode, ChunksAt;
    ghost var indices := ScatterIndices(index, draws, slot);
    var distance, size := TRAIL_SCATTER_DISTANCE, TRAIL_SCATTER_SIZE;
    if distance > index - trailSize {
      distance := index - trailSize;
    }
    if size > distance {
      size := distance;
    }
    r := chunks;
    for i := 0 to size
      invariant r == chunks + ChunksAt(q, indices[..i])
    {
      var k := index - distance + draws(slot, i) % distance;
      assert k == indices[i];
      var c := NewChunk(MessageAt(q, k));
      r := r + [c];
      ChunksSnoc(q, indices, i);
    }
    assert indices[..size] == indices;
  }

  lemma ChunksConcat(q: seq<Entry>, a: seq<nat>, b: seq<nat>)
    requires QueueFits(q) && IndicesOf(q, a + b)
    ensures IndicesOf(q, a) && IndicesOf(q, b)
    ensures ChunksAt(q, a + b) == ChunksAt(q, a) + ChunksAt(q, b)
  {
    hide Encode, MessageAt;
    assert forall i :: 0 <= i < |a| ==> (a + b)[i] == a[i];
    assert forall i :: 0 <= i < |b| ==> (a + b)[|a| + i] == b[i];
  }

  lemma ChunksSnoc(q: seq<Entry>, indices: seq<nat>, i: nat)
    requires QueueFits(q) && IndicesOf(q, indices) && i < |indices|
    ensures ChunksAt(q, indices[..i + 1]) == ChunksAt(q, indices[..i]) + [Encode(MessageAt(q, indices[i]))]
  {
  }

  lemma PackedOutput(source: int, destination: int, chunks: seq<Chunk>, before: seq<Packet>, after: seq<Packet>,
      status: Status)
    requires AllFramed(chunks) && chunks != []
    requires PackEffect(source, destination, chunks, before, after, status)
    ensures status == OK && after == before + PackedPackets(source, destination, chunks)
  {
  }

  /** The chunks of every message of q from an index on, and of its trail. */
  method PrepareChunks(q: seq<Entry>, index: nat, draws: Draws, slot: nat) returns (chunks: seq<Chunk>)
    requires QueueFits(q) && index < |q|
    ensures chunks == QueueChunks(q, index, draws, slot)
    ensures AllFramed(chunks) && chunks != []
  {
    hide Encode, ChunksAt, TrailIndices, AllFramed;
    ghost var newest, trail := NewIndices(|q|, index), TrailIndices(index, draws, slot);
    SendIndicesInRange(q, index, draws, slot);
    chunks := [];
    for i := 0 to |q| - index
      invariant chunks == ChunksAt(q, newest[..i])
    {
      var c := NewChunk(MessageAt(q, index + i));
      chunks := chunks + [c];
      ChunksSnoc(q, newest, i);
    }
    assert newest[..|q| - index] == newest;
    chunks := AppendTrail(q, index, draws, slot, chunks);
    ChunksConcat(q, newest, trail);
    ChunksFramed(q, newest + trail);
  }

  /** Packs the messages of q from an index on, and the trail, onto a packet list. */
  method QueuePack(q: seq<Entry>, index: nat, source: int, destination: int, draws: Draws, slot: nat, out: PacketList)
    returns (status: Status)
    requires QueueFits(q)
    modifies out
    ensures index > |q| ==> status == {InvalidOutIndex} && out.values == old(out.values)
    ensures index <= |q| ==>
              status == OK && out.values == old(out.values) + QueuePackets(q, index, source, destination, draws, slot)
  {
    var size := |q| - index;
    if size < 0 {
      return {InvalidOutIndex};
    }
    if size == 0 {
      assert out.values == old(out.values) + [];
      return OK;
    }
    var chunks := PrepareChunks(q, index, draws, slot);
    ghost var before := out.values;
    status := Pack(source, destination, chunks, out);
    PackedOutput(source, destination, chunks, before, out.values, status);
  }

  // ---- Sending and receiving ----

  /** Entries whose fields survive the wire, under indices that do. */
  predicate QueueSendable(q: seq<Entry>) {
    && |q| <= INT64_MAX
    && forall k :: 0 <= k < |q| ==> EntrySendable(q[k])
  }

  predicate EntrySendable(e: Entry) {
    IsInt64(e.time) && UNDEFINED <= e.actor < TWO_32 - 1 && |e.data| <= MAX_MESSAGE_SIZE
  }

  lemma ChunkDecodes(q: seq<Entry>, k: nat)
    requires QueueSendable(q) && k < |q|
    ensures Framed(Encode(MessageAt(q, k))) && |Encode(MessageAt(q, k))| <= PAYLOAD_SIZE
    ensures ReadMessage(Encode(MessageAt(q, k))) == MessageAt(q, k)
  {
    assert EntrySendable(q[k]);
    MessageRoundTrip(MessageAt(q, k));
  }

  /** The chunk is of m's length and mode, carries m's payload, and decodes to m exactly if m fits the wire. */
  predicate DecodesAs(c: Chunk, m: Message) {
    && |c| == N_MESSAGE_DATA + |m.data|
    && ReadMessage(c).mode == m.mode && ReadMessage(c).data == m.data
    && (ReadMessage(c) == m <==> Sendable(m))
  }

  lemma DecodesExactly(m: Message)
    requires Writable(m)
    ensures DecodesAs(Encode(m), m)
  {
    RoundTripIff(m);
    SizeAndModeRoundTrip(m);
    EncodeLayout(m);
  }

  /** A receiver of the packets decodes exactly the new messages in order, then the trail, across any number of
      packets: each of them as it is in the queue, exactly if it fits the wire. */
  lemma SendReceive(q: seq<Entry>, index: nat, source: int, destination: int, draws: Draws, slot: nat)
    requires QueueFits(q) && index < |q|
    ensures IndicesOf(q, TrailIndices(index, draws, slot))
    ensures var r := ParseAll(QueuePackets(q, index, source, destination, draws, slot));
            var t := TrailIndices(index, draws, slot);
            && r.status == {}
            && |r.chunks| == |q| - index + |t|
            && (forall c :: c in r.chunks ==> |c| >= N_MESSAGE_DATA)
            && (forall i :: 0 <= i < |q| - index ==> DecodesAs(r.chunks[i], MessageAt(q, index + i)))
            && (forall i :: 0 <= i < |t| ==> DecodesAs(r.chunks[|q| - index + i], MessageAt(q, t[i])))
  {
    hide *;
    var chunks, t := QueueChunks(q, index, draws, slot), TrailIndices(index, draws, slot);
    QueueChunksPack(q, index, source, destination, draws, slot);
    forall c | c in chunks ensures |c| >= N_MESSAGE_DATA {
      var i :| 0 <= i < |chunks| && chunks[i] == c;
      QueueChunkDecodes(q, index, draws, slot, i);
    }
    forall i | 0 <= i < |q| - index ensures DecodesAs(chunks[i], MessageAt(q, index + i)) {
      QueueChunkDecodes(q, index, draws, slot, i);
    }
    forall i | 0 <= i < |t| ensures t[i] < |q| && DecodesAs(chunks[|q| - index + i], MessageAt(q, t[i])) {
      QueueChunkDecodes(q, index, draws, slot, |q| - index + i);
    }
    IndicesWithin(q, t);
  }

  lemma IndicesWithin(q: seq<Entry>, t: seq<nat>)
    requires forall i :: 0 <= i < |t| ==> t[i] < |q|
    ensures IndicesOf(q, t)
  {
  }

  lemma QueueChunksPack(q: seq<Entry>, index: nat, source: int, destination: int, draws: Draws, slot: nat)
    requires QueueFits(q) && index < |q|
    ensures var chunks := QueueChunks(q, index, draws, slot);
            var r := ParseAll(QueuePackets(q, index, source, destination, draws, slot));
            r.chunks == chunks && r.status == {} && |chunks| == |q| - index + |TrailIndices(index, draws, slot)|
  {
    hide PackedPackets, ParseAll, Encode, TrailIndices, AllFramed;
    SendIndicesInRange(q, index, draws, slot);
    ChunksFramed(q, SendIndices(|q|, index, draws, slot));
    PackRoundTrip(source, destination, QueueChunks(q, index, draws, slot));
  }

  lemma QueueChunkDecodes(q: seq<Entry>, index: nat, draws: Draws, slot: nat, i: nat)
    requires QueueFits(q) && index < |q| && i < |q| - index + |TrailIndices(index, draws, slot)|
    ensures var chunks, t := QueueChunks(q, index, draws, slot), TrailIndices(index, draws, slot);
            var k := if i < |q| - index then index + i else t[i - (|q| - index)];
            && |chunks| == |q| - index + |t| && k < |q|
            && |chunks[i]| >= N_MESSAGE_DATA && DecodesAs(chunks[i], MessageAt(q, k))
  {
    hide Encode, TrailIndices, DecodesAs;
    var t := TrailIndices(index, draws, slot);
    SendIndicesInRange(q, index, draws, slot);
    var k := if i < |q| - index then index + i else t[i - (|q| - index)];
    assert SendIndices(|q|, index, draws, slot)[i] == k;
    DecodesExactly(MessageAt(q, k));
    DecodedLength(Encode(MessageAt(q, k)), MessageAt(q, k));
  }

  lemma DecodedLength(c: Chunk, m: Message)
    requires DecodesAs(c, m)
    ensures |c| >= N_MESSAGE_DATA
  {
    hide ReadMessage, Sendable;
  }
}
