/** The assertions of the packer on how far a packet is filled. They are stricter than its branches; a build
    that keeps them stops where the branches alone would go on. */
module PacketAsserts {
  import opened Options
  import opened Packets

  /** The bound the packer asserts of an offset it is about to write as a size. */
  predicate OffsetAsserted(offset: int) {
    offset < PACKET_SIZE - N_PACKET_MESSAGES
  }

  /** The bound the packer asserts of a chunk it is about to copy. */
  predicate ChunkAsserted(c: Chunk) {
    |c| + N_PACKET_MESSAGES < PACKET_SIZE
  }

  /** All assertions of the loop hold for the first chunks: of the offset whenever the next chunk closes a packet
      of this call, and of every chunk. */
  predicate LoopAsserted(chunks: seq<Chunk>) {
    chunks == []
    || (var most, c := chunks[..|chunks| - 1], chunks[|chunks| - 1];
        var groups := Groups(most);
        && LoopAsserted(most)
        && (Offset(groups) + |c| > PACKET_SIZE && groups != [] ==> OffsetAsserted(Offset(groups)))
        && ChunkAsserted(c))
  }

  /** And the assertion behind the loop. With no chunks the offset is reset to zero. */
  predicate PackAsserted(chunks: seq<Chunk>) {
    LoopAsserted(chunks) && OffsetAsserted(if chunks == [] then 0 else Offset(Groups(chunks)))
  }

  predicate ChunksAsserted(chunks: seq<Chunk>) {
    forall i :: 0 <= i < |chunks| ==> ChunkAsserted(chunks[i])
  }

  const ASSERTED_LOAD := PACKET_SIZE - 2 * N_PACKET_MESSAGES

  predicate LoadsBelow(groups: seq<seq<Chunk>>) {
    forall i :: 0 <= i < |groups| ==> Load(groups[i]) < ASSERTED_LOAD
  }

  lemma LastLoadBelow(groups: seq<seq<Chunk>>)
    requires groups != []
    ensures LoadsBelow(groups) <==>
            LoadsBelow(groups[..|groups| - 1]) && OffsetAsserted(Offset(groups))
  {
    hide Load;
  }

  lemma AssertedSnoc(most: seq<Chunk>, c: Chunk)
    ensures LoopAsserted([])
    ensures ChunksAsserted(most + [c]) <==> ChunksAsserted(most) && ChunkAsserted(c)
    ensures var groups := Groups(most);
            LoopAsserted(most + [c]) <==>
              && LoopAsserted(most)
              && (Offset(groups) + |c| > PACKET_SIZE && groups != [] ==> OffsetAsserted(Offset(groups)))
              && ChunkAsserted(c)
  {
    hide Groups, Offset, OffsetAsserted, ChunkAsserted;
    var chunks := most + [c];
    assert chunks[..|most|] == most && chunks[|most|] == c;
    assert forall i :: 0 <= i < |most| ==> chunks[i] == most[i];
  }

  /** The loop's assertions hold exactly if every packet is below the bound when it is closed and every chunk is
      on its own. */
  lemma {:induction false} LoopAssertedIff(chunks: seq<Chunk>)
    requires Packable(chunks) && chunks != []
    ensures Groups(chunks) != []
    ensures LoopAsserted(chunks) <==>
            LoadsBelow(Groups(chunks)[..|Groups(chunks)| - 1]) && ChunksAsserted(chunks)
  {
    var most, c := chunks[..|chunks| - 1], chunks[|chunks| - 1];
    assert chunks == most + [c] && Packable(most);
    hide *;
    GroupsSnoc(most, c);
    AssertedSnoc(most, c);
    if most == [] {
      FirstGroup(c);
    } else {
      LoopAssertedIff(most);
      LastLoadBelow(Groups(most));
      ClosedGroups(Groups(most), c);
    }
  }

  lemma FirstGroup(c: Chunk)
    ensures Groups([]) == [] && Opened([], c) == [[]] && AddToLast([[]], c) == [[c]]
    ensures LoadsBelow([[c]][..0]) && ChunksAsserted([])
  {
    GroupsEmpty();
    assert [] + [c] == [c];
  }

  /** Adding a chunk closes the last packet exactly if it opens another. */
  lemma ClosedGroups(groups: seq<seq<Chunk>>, c: Chunk)
    requires groups != []
    ensures var next := AddToLast(Opened(groups, c), c);
            next[..|next| - 1] == if Offset(groups) + |c| > PACKET_SIZE then groups else groups[..|groups| - 1]
  {
  }

  /** No chunk of a group is longer than the group. */
  lemma {:induction false} ChunkInGroup(group: seq<Chunk>, j: nat)
    requires j < |group|
    ensures |group[j]| <= Load(group)
  {
    if j < |group| - 1 {
      ChunkInGroup(group[..|group| - 1], j);
    }
  }

  lemma ChunksBelow(chunks: seq<Chunk>)
    requires LoadsBelow(Groups(chunks))
    ensures ChunksAsserted(chunks)
  {
    hide Groups, Load, Flatten;
    GroupsPartition(chunks);
    forall i | 0 <= i < |chunks| ensures ChunkAsserted(chunks[i]) {
      var g := FlattenFind(Groups(chunks), chunks[i]);
      var j :| 0 <= j < |Groups(chunks)[g]| && Groups(chunks)[g][j] == chunks[i];
      ChunkInGroup(Groups(chunks)[g], j);
    }
  }

  /** No assertion fails exactly if every packet added carries fewer than 370 bytes of chunks. */
  lemma PackAssertedIff(chunks: seq<Chunk>)
    requires Packable(chunks)
    ensures PackAsserted(chunks) <==> forall i :: 0 <= i < |Groups(chunks)| ==> Load(Groups(chunks)[i]) < 370
  {
    if chunks == [] {
      GroupsEmpty();
    } else {
      LoopAssertedIff(chunks);
      LastLoadBelow(Groups(chunks));
      if LoadsBelow(Groups(chunks)) {
        ChunksBelow(chunks);
      }
      hide LoopAsserted, Groups, Load;
    }
  }

  /** A message of 340 bytes, well within the limit of 355, does not pass them. */
  lemma LongMessageStopsPacker(c: Chunk)
    requires 370 <= |c| <= PAYLOAD_SIZE
    ensures !PackAsserted([c])
  {
    assert Load([]) == 0 && [c][..0] == [];
    OneGroup([c]);
    PackAssertedIff([c]);
  }
}
