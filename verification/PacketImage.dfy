/** Packets seen from outside: byte by byte, and the one way to split chunks into them that is greedy. */
module PacketImages {
  import opened Options
  import opened Serial
  import opened Packets

  // ---- The split ----

  /** A split of chunks into payloads that starts a new payload only when the next chunk does not fit. */
  predicate IsGreedy(split: seq<seq<Chunk>>, chunks: seq<Chunk>) {
    Flatten(split) == chunks && IsTight(split)
  }

  predicate IsTight(split: seq<seq<Chunk>>) {
    && AllFit(split)
    && (forall i :: 0 <= i < |split| ==> split[i] != [])
    && forall i :: 0 < i < |split| ==> NoRoom(split, i)
  }

  /** The first chunk of payload i does not fit the payload before it. */
  predicate NoRoom(split: seq<seq<Chunk>>, i: nat)
    requires 0 < i < |split|
  {
    split[i] != [] && Load(split[i - 1]) + |split[i][0]| > PAYLOAD_SIZE
  }

  /** There is one greedy split, and it is the packer's. */
  lemma {:induction false} GreedyIffPacked(chunks: seq<Chunk>, split: seq<seq<Chunk>>)
    requires Packable(chunks)
    ensures IsGreedy(split, chunks) <==> split == Groups(chunks)
  {
    GroupsGreedy(chunks);
    if IsGreedy(split, chunks) {
      GreedyUnique(chunks, split);
    }
  }

  lemma {:induction false} GroupsGreedy(chunks: seq<Chunk>)
    requires Packable(chunks)
    ensures IsGreedy(Groups(chunks), chunks)
  {
    GroupsFit(chunks);
    GroupsPartition(chunks);
    var groups := Groups(chunks);
    hide Groups, Load, Flatten;
    forall i | 0 < i < |groups| ensures NoRoom(groups, i) {
      NextDoesNotFit(chunks, i);
    }
    forall i | 0 <= i < |groups| ensures groups[i] != [] {
      assert groups[i] in groups;
    }
  }

  lemma {:induction false} NextDoesNotFit(chunks: seq<Chunk>, i: nat)
    requires Packable(chunks) && 0 < i < |Groups(chunks)|
    ensures Groups(chunks)[i] != []
    ensures Load(Groups(chunks)[i - 1]) + |Groups(chunks)[i][0]| > PAYLOAD_SIZE
    decreases |chunks|
  {
    hide *;
    if chunks == [] {
      GroupsEmpty();
    } else {
      var most, c := LastChunk(chunks);
      GroupsSnoc(most, c);
      if i < |Groups(most)| {
        NextDoesNotFit(most, i);
      }
      StepDoesNotFit(Groups(most), c, i);
    }
  }

  lemma LastChunk(chunks: seq<Chunk>) returns (most: seq<Chunk>, c: Chunk)
    requires Packable(chunks) && chunks != []
    ensures chunks == most + [c] && Packable(most)
  {
    most, c := chunks[..|chunks| - 1], chunks[|chunks| - 1];
  }

  lemma StepDoesNotFit(groups: seq<seq<Chunk>>, c: Chunk, i: nat)
    requires 0 < i < |AddToLast(Opened(groups, c), c)|
    requires i < |groups| ==> groups[i] != [] && Load(groups[i - 1]) + |groups[i][0]| > PAYLOAD_SIZE
    ensures var next := AddToLast(Opened(groups, c), c);
            next[i] != [] && Load(next[i - 1]) + |next[i][0]| > PAYLOAD_SIZE
  {
    hide Load;
  }

  lemma {:induction false} GreedyUnique(chunks: seq<Chunk>, split: seq<seq<Chunk>>)
    requires Packable(chunks) && IsGreedy(split, chunks)
    ensures split == Groups(chunks)
    decreases |chunks|
  {
    hide *;
    if split == [] {
      NothingSplit(chunks, split);
    } else {
      var front, most, c, rest := LastOfSplit(chunks, split);
      GroupsSnoc(rest, c);
      GreedyUnique(rest, if most == [] then front else front + [most]);
      PutBack(front, most, c);
    }
  }

  lemma NothingSplit(chunks: seq<Chunk>, split: seq<seq<Chunk>>)
    requires IsGreedy(split, chunks) && split == []
    ensures split == Groups(chunks)
  {
    GroupsEmpty();
  }

  /** Taking the last chunk off a greedy split leaves a greedy split of the rest, and putting it back is greedy. */
  lemma LastOfSplit(chunks: seq<Chunk>, split: seq<seq<Chunk>>)
    returns (front: seq<seq<Chunk>>, most: seq<Chunk>, c: Chunk, rest: seq<Chunk>)
    requires Packable(chunks) && IsGreedy(split, chunks) && split != []
    ensures split == front + [most + [c]] && chunks == rest + [c] && Packable(rest)
    ensures IsGreedy(if most == [] then front else front + [most], rest)
    ensures most == [] && front != [] ==> Load(front[|front| - 1]) + |c| > PAYLOAD_SIZE
    ensures Load(most) + |c| <= PAYLOAD_SIZE
  {
    hide Load, Flatten;
    assert split[|split| - 1] != [];
    front, most, c := LastParts(split);
    rest := Flatten(front) + most;
    FlattenSnoc(front, most + [c]);
    Associative(Flatten(front), most, [c]);
    DropLast(front, most, c);
    DropLastGreedy(front, most, c);
    assert forall i :: 0 <= i < |rest| ==> rest[i] == chunks[i];
  }

  lemma LastParts(split: seq<seq<Chunk>>) returns (front: seq<seq<Chunk>>, most: seq<Chunk>, c: Chunk)
    requires split != [] && split[|split| - 1] != []
    ensures split == front + [most + [c]]
  {
    front := split[..|split| - 1];
    var last := split[|split| - 1];
    most, c := last[..|last| - 1], last[|last| - 1];
    assert last == most + [c];
  }

  lemma PutBack(front: seq<seq<Chunk>>, most: seq<Chunk>, c: Chunk)
    requires most == [] && front != [] ==> Load(front[|front| - 1]) + |c| > PAYLOAD_SIZE
    requires Load(most) + |c| <= PAYLOAD_SIZE
    ensures AddToLast(Opened(if most == [] then front else front + [most], c), c) == front + [most + [c]]
  {
    hide Load, AddToLast;
    if most != [] {
      AddedToLast(front, most, c);
    } else {
      AddedToLast(front, [], c);
    }
  }

  lemma AddedToLast(front: seq<seq<Chunk>>, most: seq<Chunk>, c: Chunk)
    ensures AddToLast(front + [most], c) == front + [most + [c]]
  {
    assert (front + [most])[..|front|] == front;
  }

  lemma FlattenSnoc(front: seq<seq<Chunk>>, group: seq<Chunk>)
    ensures Flatten(front + [group]) == Flatten(front) + group
  {
    assert (front + [group])[..|front|] == front;
  }

  /** Without its last chunk a tight split is tight. */
  lemma DropLast(front: seq<seq<Chunk>>, most: seq<Chunk>, c: Chunk)
    requires IsTight(front + [most + [c]])
    ensures IsTight(if most == [] then front else front + [most])
    ensures most == [] && front != [] ==> Load(front[|front| - 1]) + |c| > PAYLOAD_SIZE
    ensures Load(most) + |c| <= PAYLOAD_SIZE
  {
    LastFits(front, most, c);
    if most == [] {
      assert [] + [c] == [c];
      DropGroup(front, [c]);
    } else {
      ShrinkGroup(front, most, c);
    }
  }

  lemma LastFits(front: seq<seq<Chunk>>, most: seq<Chunk>, c: Chunk)
    requires IsTight(front + [most + [c]])
    ensures Load(most) + |c| <= PAYLOAD_SIZE
  {
    hide Load, NoRoom;
    LoadSnoc(most, c);
    assert Fits((front + [most + [c]])[|front|]);
  }

  lemma DropGroup(front: seq<seq<Chunk>>, group: seq<Chunk>)
    requires IsTight(front + [group])
    ensures IsTight(front) && group != []
    ensures front != [] ==> Load(front[|front| - 1]) + |group[0]| > PAYLOAD_SIZE
  {
    hide Load;
    var split := front + [group];
    assert split[|front|] != [];
    if front != [] {
      assert NoRoom(split, |front|);
    }
    forall i | 0 < i < |front| ensures NoRoom(front, i) {
      assert NoRoom(split, i);
    }
    forall i | 0 <= i < |front| ensures Fits(front[i]) && front[i] != [] {
      assert Fits(split[i]) && split[i] != [];
    }
  }

  lemma ShrinkGroup(front: seq<seq<Chunk>>, most: seq<Chunk>, c: Chunk)
    requires IsTight(front + [most + [c]]) && most != []
    ensures IsTight(front + [most])
  {
    LastFits(front, most, c);
    DropGroup(front, most + [c]);
    hide Load;
    var shorter := front + [most];
    assert (most + [c])[0] == most[0];
    forall i | 0 < i < |shorter| ensures NoRoom(shorter, i) {
      assert i < |front| ==> NoRoom(front, i);
    }
  }

  lemma DropLastGreedy(front: seq<seq<Chunk>>, most: seq<Chunk>, c: Chunk)
    requires IsTight(front + [most + [c]])
    ensures IsGreedy(if most == [] then front else front + [most], Flatten(front) + most)
  {
    DropLast(front, most, c);
    FlattenSnoc(front, most);
    hide IsTight, Flatten;
    if most == [] {
      assert Flatten(front) + most == Flatten(front);
    }
  }

  // ---- The bytes ----

  /** The image of a packet that carries a group of chunks: twelve zero bytes, the mode, the size with the low
      byte first, the chunks one behind the other, and zeros. */
  predicate IsImage(p: Packet, group: seq<Chunk>) {
    && p.size == 15 + Load(group) <= PACKET_SIZE
    && (forall i :: 0 <= i < 13 ==> p.data[i] == 0)
    && p.data[13] == p.size % 0x100 && p.data[14] == p.size / 0x100
    && (forall i :: p.size <= i < PACKET_SIZE ==> p.data[i] == 0)
    && ChunksFrom(p.data, 15, group)
  }

  /** The chunks lie in the buffer one behind the other from an offset on. */
  predicate ChunksFrom(data: Frame, offset: nat, group: seq<Chunk>)
    decreases |group|
  {
    group == [] || (offset + |group[0]| <= PACKET_SIZE && data[offset..offset + |group[0]|] == group[0]
                    && ChunksFrom(data, offset + |group[0]|, group[1..]))
  }

  lemma {:induction false} JoinedChunks(data: Frame, offset: nat, group: seq<Chunk>)
    requires offset + Load(group) <= PACKET_SIZE && data[offset..offset + Load(group)] == Join(group)
    ensures ChunksFrom(data, offset, group)
    decreases |group|
  {
    if group != [] {
      hide Load, Join;
      var c, rest := group[0], group[1..];
      assert group == [c] + rest;
      LoadCons(c, rest);
      var joined := data[offset..offset + Load(group)];
      assert data[offset..offset + |c|] == joined[..|c|] == c;
      assert data[offset + |c|..offset + |c| + Load(rest)] == joined[|c|..] == Join(rest);
      JoinedChunks(data, offset + |c|, rest);
    }
  }

  lemma SealedImage(source: int, destination: int, group: seq<Chunk>)
    requires Fits(group)
    ensures IsImage(Sealed(source, destination, group), group)
    ensures Sealed(source, destination, group).source == source
    ensures Sealed(source, destination, group).destination == destination
  {
    hide Load, Join;
    var p := Sealed(source, destination, group);
    SizeBytes(p.size);
    assert p.data[..15] == PacketHeader(p.size);
    assert forall i :: 0 <= i < 15 ==> p.data[i] == p.data[..15][i];
    assert p.data[15..p.size] == Join(group);
    JoinedChunks(p.data, 15, group);
  }

  lemma SizeBytes(size: nat)
    requires size <= PACKET_SIZE
    ensures LittleEndian(size, 2) == [size % 0x100, size / 0x100]
  {
    assert LittleEndian(size / 0x100, 1) == [size / 0x100 % 0x100] + LittleEndian(size / 0x100 / 0x100, 0);
  }

  /** Every packet added for good chunks is the image of its part of the greedy split, addressed as asked. */
  lemma PackedImages(source: int, destination: int, chunks: seq<Chunk>, split: seq<seq<Chunk>>)
    requires Packable(chunks) && IsGreedy(split, chunks)
    ensures var ps := PackedPackets(source, destination, chunks);
            && |ps| == |split|
            && forall i :: 0 <= i < |ps| ==>
                 ps[i].source == source && ps[i].destination == destination && IsImage(ps[i], split[i])
  {
    GreedyUnique(chunks, split);
    GroupsFit(chunks);
    hide IsGreedy, Groups, Load, Sealed, IsImage;
    forall i | 0 <= i < |split| ensures IsImage(PackedPackets(source, destination, chunks)[i], split[i]) {
      SealedImage(source, destination, split[i]);
    }
    forall i | 0 <= i < |split|
      ensures PackedPackets(source, destination, chunks)[i].source == source
      ensures PackedPackets(source, destination, chunks)[i].destination == destination
    {
      SealedImage(source, destination, split[i]);
    }
  }

  // ---- A chunk whose size field is wrong ----

  /** When chunk k is the first whose size field is wrong, the packets added hold the chunks before it, in order,
      and nothing of chunk k: finished packets first, then one that still has no header and reads as empty. */
  lemma FailedPackShape(source: int, destination: int, chunks: seq<Chunk>, k: nat)
    requires Packable(chunks) && k < |chunks| && AllFramed(chunks[..k])
    ensures var ps := PackOutput(source, destination, chunks, k);
            && ps != []
            && var kept := ParseAll(ps).chunks; var p := ps[|ps| - 1];
               && ParseAll(ps).status == OK
               && kept <= chunks[..k]
               && p.source == source && p.destination == destination && p.size == 0
               && ChunksFrom(p.data, 15, chunks[|kept|..k])
               && (forall i :: 0 <= i < 15 ==> p.data[i] == 0)
               && 15 + Load(chunks[|kept|..k]) <= PACKET_SIZE
               && (forall i :: 15 + Load(chunks[|kept|..k]) <= i < PACKET_SIZE ==> p.data[i] == 0)
  {
    var groups := Opened(Groups(chunks[..k]), chunks[k]);
    OpenedFits(chunks, k);
    OpenedFlat(chunks[..k], chunks[k]);
    var n := |groups| - 1;
    var ps := PackOutput(source, destination, chunks, k);
    assert ps == SealAll(source, destination, groups[..n]) + [Draft(source, destination, groups[n])];
    assert AllFit(groups[..n]) && Fits(groups[n]);
    hide *;
    DraftedShape(source, destination, groups[..n], groups[n]);
    assert chunks[..k][|Flatten(groups[..n])|..] == groups[n];
  }

  lemma DraftedShape(source: int, destination: int, sealed: seq<seq<Chunk>>, rest: seq<Chunk>)
    requires AllFit(sealed) && Fits(rest) && forall i :: 0 <= i < |sealed| ==> AllFramed(sealed[i])
    ensures ParseAll(SealAll(source, destination, sealed) + [Draft(source, destination, rest)])
            == Parsed(OK, Flatten(sealed))
    ensures var p := Draft(source, destination, rest);
            && p.source == source && p.destination == destination && p.size == 0
            && ChunksFrom(p.data, 15, rest) && 15 + Load(rest) <= PACKET_SIZE
            && (forall i :: 0 <= i < 15 ==> p.data[i] == 0)
            && (forall i :: 15 + Load(rest) <= i < PACKET_SIZE ==> p.data[i] == 0)
  {
    hide Load, Draft, ParsePacket, ParseAll, ChunksFrom, AllFramed, Flatten;
    ParseSealedAll(source, destination, sealed);
    ParseSnoc(SealAll(source, destination, sealed), Draft(source, destination, rest));
    DraftImage(source, destination, rest);
  }

  lemma OpenedFlat(chunks: seq<Chunk>, c: Chunk)
    requires AllFramed(chunks)
    ensures var groups := Opened(Groups(chunks), c);
            && Flatten(groups) == chunks
            && Flatten(groups) == Flatten(groups[..|groups| - 1]) + groups[|groups| - 1]
            && forall i :: 0 <= i < |groups| - 1 ==> AllFramed(groups[i])
  {
    GroupsPartition(chunks);
    GroupsFramed(chunks);
    FlattenOpened(Groups(chunks), c);
    hide Groups, Load, AllFramed;
  }

  lemma DraftImage(source: int, destination: int, group: seq<Chunk>)
    requires Fits(group)
    ensures var p := Draft(source, destination, group);
            && p.source == source && p.destination == destination && p.size == 0
            && ParsePacket(p) == Parsed(OK, [])
            && (forall i :: 0 <= i < 15 ==> p.data[i] == 0)
            && ChunksFrom(p.data, 15, group)
            && (forall i :: 15 + Load(group) <= i < PACKET_SIZE ==> p.data[i] == 0)
  {
    hide Load, Join, ParseFrom;
    var p := Draft(source, destination, group);
    assert p.data[15..15 + Load(group)] == Join(group);
    JoinedChunks(p.data, 15, group);
  }

  // ---- Which packets are parsed at all ----

  /** An empty packet is skipped, one whose size cannot be right is refused, and any other is parsed from byte 15. */
  lemma ParseOutcome(p: Packet)
    ensures (InvalidPacketSize in ParsePacket(p).status) <==> p.size != 0 && !(15 <= p.size <= 400)
    ensures !(15 <= p.size <= 400) ==> ParsePacket(p).chunks == [] && ParsePacket(p).status <= {InvalidPacketSize}
    ensures 15 <= p.size <= 400 ==> ParsePacket(p) == ParseFrom(p.data, p.size, 15)
  {
    if 15 <= p.size <= 400 {
      ParseStops(p.data, p.size, 15);
    }
  }
}
