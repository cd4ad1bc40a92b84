/** Packets: the greedy packer that appends to a packet list, the parser, and their round trip. */
module Packets {
  import opened Options
  import opened Serial

  type Chunk = seq<byte>

  /** The fixed data buffer of a packet. */
  type Frame = s: seq<byte> | |s| == PACKET_SIZE witness seq(PACKET_SIZE, _ => 0)

  datatype Packet = Packet(source: int, destination: int, size: int, data: Frame)

  /** A growing packet list that callers append to. */
  class PacketList {
    var values: seq<Packet>

    constructor ()
      ensures values == []
    {
      values := [];
    }
  }

  // ---- Greedy grouping ----

  /** The bytes a group of chunks takes. */
  function Load(group: seq<Chunk>): nat {
    if group == [] then 0 else Load(group[..|group| - 1]) + |group[|group| - 1]|
  }

  function Join(group: seq<Chunk>): (s: seq<byte>)
    ensures |s| == Load(group)
  {
    if group == [] then [] else Join(group[..|group| - 1]) + group[|group| - 1]
  }

  predicate Fits(group: seq<Chunk>) {
    Load(group) <= PAYLOAD_SIZE
  }

  /** The group list in which the next chunk c has room: a new group is opened unless c fits the last one. */
  function Opened(groups: seq<seq<Chunk>>, c: Chunk): (r: seq<seq<Chunk>>)
    ensures r != []
  {
    if groups == [] || Load(groups[|groups| - 1]) + |c| > PAYLOAD_SIZE then groups + [[]] else groups
  }

  function AddToLast(groups: seq<seq<Chunk>>, c: Chunk): (r: seq<seq<Chunk>>)
    requires groups != []
    ensures r != []
  {
    groups[..|groups| - 1] + [groups[|groups| - 1] + [c]]
  }

  /** How the packer splits chunks into packets: always into the last packet while it has room. */
  function Groups(chunks: seq<Chunk>): seq<seq<Chunk>> {
    if chunks == [] then []
    else
      var c := chunks[|chunks| - 1];
      AddToLast(Opened(Groups(chunks[..|chunks| - 1]), c), c)
  }

  lemma GroupsEmpty()
    ensures Groups([]) == []
  {
  }

  predicate Packable(chunks: seq<Chunk>) {
    forall i :: 0 <= i < |chunks| ==> N_MESSAGE_SIZE_AND_MODE < |chunks[i]| <= PAYLOAD_SIZE
  }

  lemma {:induction false} GroupsFit(chunks: seq<Chunk>)
    requires Packable(chunks)
    ensures chunks != [] ==> Groups(chunks) != []
    ensures AllFit(Groups(chunks)) && [] !in Groups(chunks)
  {
    if chunks != [] {
      var most, c := chunks[..|chunks| - 1], chunks[|chunks| - 1];
      GroupsFit(most);
      OpenedHasRoom(Groups(most), c);
      AddedFits(Opened(Groups(most), c), c);
    }
  }

  lemma LoadSnoc(group: seq<Chunk>, c: Chunk)
    ensures Load(group + [c]) == Load(group) + |c|
    ensures Join(group + [c]) == Join(group) + c
  {
    assert (group + [c])[..|group|] == group;
  }

  lemma OpenedHasRoom(groups: seq<seq<Chunk>>, c: Chunk)
    requires AllFit(groups) && |c| <= PAYLOAD_SIZE
    ensures AllFit(Opened(groups, c))
    ensures Load(Opened(groups, c)[|Opened(groups, c)| - 1]) + |c| <= PAYLOAD_SIZE
    ensures forall i :: 0 <= i < |Opened(groups, c)| - 1 ==> i < |groups| && Opened(groups, c)[i] == groups[i]
  {
  }

  lemma AddedFits(groups: seq<seq<Chunk>>, c: Chunk)
    requires groups != [] && AllFit(groups) && Load(groups[|groups| - 1]) + |c| <= PAYLOAD_SIZE
    ensures AllFit(AddToLast(groups, c))
    ensures Load(AddToLast(groups, c)[|groups| - 1]) == Load(groups[|groups| - 1]) + |c|
  {
    LoadSnoc(groups[|groups| - 1], c);
  }

  // ---- Packet images ----

  function Zeros(n: nat): (s: seq<byte>)
    ensures |s| == n
  {
    seq(n, _ => 0)
  }

  function PacketHeader(size: nat): (h: seq<byte>)
    requires size < 0x1_0000
    ensures |h| == N_PACKET_MESSAGES
  {
    Zeros(N_PACKET_MODE) + [PACKET_MODE_PLAIN] + LittleEndian(size, 2)
  }

  function Body(group: seq<Chunk>): (s: seq<byte>)
    requires Fits(group)
    ensures |s| == PAYLOAD_SIZE
  {
    Join(group) + Zeros(PAYLOAD_SIZE - Load(group))
  }

  /** A packet under construction: no header, size still zero. */
  function Draft(source: int, destination: int, group: seq<Chunk>): Packet
    requires Fits(group)
  {
    Packet(source, destination, 0, Zeros(N_PACKET_MESSAGES) + Body(group))
  }

  /** A finished packet. */
  function Sealed(source: int, destination: int, group: seq<Chunk>): Packet
    requires Fits(group)
  {
    var size := N_PACKET_MESSAGES + Load(group);
    Packet(source, destination, size, PacketHeader(size) + Body(group))
  }

  predicate AllFit(groups: seq<seq<Chunk>>) {
    forall i :: 0 <= i < |groups| ==> Fits(groups[i])
  }

  function SealAll(source: int, destination: int, groups: seq<seq<Chunk>>): (ps: seq<Packet>)
    requires AllFit(groups)
    ensures |ps| == |groups|
    ensures forall i :: 0 <= i < |ps| ==> ps[i] == Sealed(source, destination, groups[i])
  {
    seq(|groups|, i requires 0 <= i < |groups| => Sealed(source, destination, groups[i]))
  }

  /** All groups sealed but the last, which is still a draft. */
  function Drafted(source: int, destination: int, groups: seq<seq<Chunk>>): (ps: seq<Packet>)
    requires AllFit(groups) && groups != []
    ensures |ps| == |groups|
  {
    SealAll(source, destination, groups[..|groups| - 1]) + [Draft(source, destination, groups[|groups| - 1])]
  }

  /** The packets the packer adds for chunks whose size fields are right. */
  function PackedPackets(source: int, destination: int, chunks: seq<Chunk>): seq<Packet>
    requires Packable(chunks)
  {
    GroupsFit(chunks);
    SealAll(source, destination, Groups(chunks))
  }

  function Blank(source: int, destination: int): Packet {
    Packet(source, destination, 0, Zeros(PACKET_SIZE))
  }

  /** The list index of the first chunk whose size field disagrees with its length, or |chunks|. */
  predicate FirstMismatch(chunks: seq<Chunk>, k: nat)
    requires Packable(chunks)
  {
    && k <= |chunks|
    && (forall i :: 0 <= i < k ==> ReadMessageSize(chunks[i]) == |chunks[i]|)
    && (k < |chunks| ==> ReadMessageSize(chunks[k]) != |chunks[k]|)
  }

  /** Everything a call to the packer can do to the list `before`. With no chunks to pack it adds one
      packet of size zero, but clears slot 0 of the list instead of the slot it added. */
  ghost predicate PackEffect(source: int, destination: int, chunks: seq<Chunk>,
                             before: seq<Packet>, after: seq<Packet>, status: Status)
    requires Packable(chunks)
  {
    if chunks == [] then
      && status == OK
      && |after| == |before| + 1
      && after[|before|].size == 0
      && after[0].source == source && after[0].destination == destination && after[0].size == 0
      && (before == [] ==> after == [Blank(source, destination)])
      && (before != [] ==> after[..|before|] == before[0 := Blank(source, destination)])
    else
      exists k: nat :: FirstMismatch(chunks, k)
        && status == (if k < |chunks| then {InvalidMessageSize} else OK)
        && after == before + PackOutput(source, destination, chunks, k)
  }

  /** The packets added when the first bad chunk is number k; on error the last one stays a draft. */
  function PackOutput(source: int, destination: int, chunks: seq<Chunk>, k: nat): seq<Packet>
    requires Packable(chunks) && k <= |chunks|
  {
    if k == |chunks| then PackedPackets(source, destination, chunks)
    else
      OpenedFits(chunks, k);
      Drafted(source, destination, Opened(Groups(chunks[..k]), chunks[k]))
  }

  lemma OpenedFits(chunks: seq<Chunk>, k: nat)
    requires Packable(chunks) && k < |chunks|
    ensures AllFit(Opened(Groups(chunks[..k]), chunks[k]))
  {
    GroupsFit(chunks[..k]);
  }

  /** Packing never disturbs packets already in the list, except that an empty chunk list clears
      slot 0: exactly when slot 0 exists and is not already that cleared packet. */
  lemma PackKeepsEarlierPackets(source: int, destination: int, chunks: seq<Chunk>,
                                before: seq<Packet>, after: seq<Packet>, status: Status)
    requires Packable(chunks) && PackEffect(source, destination, chunks, before, after, status)
    ensures before <= after <==> chunks != [] || before == [] || before[0] == Blank(source, destination)
  {
    if chunks == [] && before != [] {
      assert after[0] == after[..|before|][0];
      if before[0] == Blank(source, destination) {
        assert before[0 := Blank(source, destination)] == before;
      }
    }
  }

  lemma EmptyPackClearsSlotZero(after: seq<Packet>, status: Status)
    requires PackEffect(1, 2, [], [Sealed(3, 4, [])], after, status)
    ensures !([Sealed(3, 4, [])] <= after)
  {
    PackKeepsEarlierPackets(1, 2, [], [Sealed(3, 4, [])], after, status);
  }

  // ---- The packer ----

  /** The byte offset at which the packer writes next: just past the last group. */
  function Offset(groups: seq<seq<Chunk>>): nat {
    if groups == [] then PACKET_SIZE else N_PACKET_MESSAGES + Load(groups[|groups| - 1])
  }

  function SealedTail(ps: seq<Packet>, offset: nat): seq<Packet>
    requires ps != [] && offset <= PACKET_SIZE
  {
    var n := |ps| - 1;
    var header := [PACKET_MODE_PLAIN] + LittleEndian(offset, 2);
    ps[n := ps[n].(size := offset, data := Splice(ps[n].data, N_PACKET_MODE, header))]
  }

  function CopiedTail(ps: seq<Packet>, offset: nat, c: Chunk): seq<Packet>
    requires ps != [] && offset + |c| <= PACKET_SIZE
  {
    var n := |ps| - 1;
    ps[n := ps[n].(data := Splice(ps[n].data, offset, c))]
  }

  lemma SealDraft(source: int, destination: int, group: seq<Chunk>)
    requires Fits(group)
    ensures SealedTail([Draft(source, destination, group)], N_PACKET_MESSAGES + Load(group))
        == [Sealed(source, destination, group)]
  {
    var d := Draft(source, destination, group);
    var offset := N_PACKET_MESSAGES + Load(group);
    assert d.data[15..] == Body(group);
    assert d.data[..12] == Zeros(12);
    assert PacketHeader(offset) == Zeros(12) + ([PACKET_MODE_PLAIN] + LittleEndian(offset, 2));
  }

  lemma CopyToDraft(source: int, destination: int, group: seq<Chunk>, c: Chunk)
    requires Load(group) + |c| <= PAYLOAD_SIZE
    ensures Fits(group + [c])
    ensures CopiedTail([Draft(source, destination, group)], N_PACKET_MESSAGES + Load(group), c)
         == [Draft(source, destination, group + [c])]
  {
    hide Load, Join, Zeros, Splice;
    LoadSnoc(group, c);
    SpliceInBody(Zeros(N_PACKET_MESSAGES), Join(group), Zeros(PAYLOAD_SIZE - Load(group)), c);
    ZerosDrop(PAYLOAD_SIZE - Load(group), |c|);
  }

  lemma SpliceInBody(head: seq<byte>, joined: seq<byte>, pad: seq<byte>, c: Chunk)
    requires |c| <= |pad|
    ensures Splice(head + (joined + pad), |head| + |joined|, c) == head + ((joined + c) + pad[|c|..])
  {
    assert head + (joined + pad) == (head + joined) + pad;
    SpliceAfter(head + joined, pad, c);
  }

  lemma ZerosDrop(n: nat, k: nat)
    requires k <= n
    ensures Zeros(n)[k..] == Zeros(n - k)
  {
  }

  lemma BlankIsDraft(source: int, destination: int)
    ensures Fits([]) && Blank(source, destination) == Draft(source, destination, [])
  {
    assert Zeros(PACKET_SIZE) == Zeros(N_PACKET_MESSAGES) + ([] + Zeros(PAYLOAD_SIZE));
  }

  lemma TailOnly(front: seq<Packet>, p: Packet, offset: nat, c: Chunk)
    requires offset + |c| <= PACKET_SIZE
    ensures SealedTail(front + [p], offset) == front + SealedTail([p], offset)
    ensures CopiedTail(front + [p], offset, c) == front + CopiedTail([p], offset, c)
  {
  }

  /** What the packing loop maintains: the packets are those of the groups so far, the last a draft. */
  ghost predicate Progress(source: int, destination: int, before: seq<Packet>, groups: seq<seq<Chunk>>,
                           values: seq<Packet>, offset: nat)
  {
    && AllFit(groups)
    && offset == Offset(groups)
    && values == if groups == [] then before else before + Drafted(source, destination, groups)
  }

  lemma SealProgress(source: int, destination: int, before: seq<Packet>, groups: seq<seq<Chunk>>,
      values: seq<Packet>, offset: nat)
    requires Progress(source, destination, before, groups, values, offset) && groups != []
    ensures values != [] && offset <= PACKET_SIZE && |values| > |before|
    ensures SealedTail(values, offset) == before + SealAll(source, destination, groups)
  {
    var n := |groups| - 1;
    var front := before + SealAll(source, destination, groups[..n]);
    SealDraft(source, destination, groups[n]);
    TailOnly(front, Draft(source, destination, groups[n]), offset, []);
    assert values == front + [Draft(source, destination, groups[n])];
    assert SealAll(source, destination, groups)
        == SealAll(source, destination, groups[..n]) + [Sealed(source, destination, groups[n])];
    assert front + [Sealed(source, destination, groups[n])] == before + SealAll(source, destination, groups);
  }

  lemma OpenProgress(source: int, destination: int, before: seq<Packet>, groups: seq<seq<Chunk>>, values: seq<Packet>)
    requires AllFit(groups) && values == before + SealAll(source, destination, groups)
    ensures Progress(source, destination, before, groups + [[]], values + [Blank(source, destination)],
        N_PACKET_MESSAGES)
  {
    BlankIsDraft(source, destination);
    assert (groups + [[]])[..|groups|] == groups;
    assert values + [Blank(source, destination)]
        == before + (SealAll(source, destination, groups) + [Draft(source, destination, [])]);
  }

  lemma CopyProgress(source: int, destination: int, before: seq<Packet>, groups: seq<seq<Chunk>>,
                     values: seq<Packet>, offset: nat, c: Chunk)
    requires Progress(source, destination, before, groups, values, offset)
    requires groups != [] && Load(groups[|groups| - 1]) + |c| <= PAYLOAD_SIZE
    ensures values != [] && offset + |c| <= PACKET_SIZE
    ensures Progress(source, destination, before, AddToLast(groups, c), CopiedTail(values, offset, c), offset + |c|)
  {
    var n := |groups| - 1;
    var front := before + SealAll(source, destination, groups[..n]);
    AddedFits(groups, c);
    CopyToDraft(source, destination, groups[n], c);
    TailOnly(front, Draft(source, destination, groups[n]), offset, c);
    assert values == front + [Draft(source, destination, groups[n])];
    assert AddToLast(groups, c)[..n] == groups[..n];
    assert front + [Draft(source, destination, groups[n] + [c])]
        == before + Drafted(source, destination, AddToLast(groups, c));
  }

  lemma GroupsSnoc(chunks: seq<Chunk>, c: Chunk)
    ensures Groups(chunks + [c]) == AddToLast(Opened(Groups(chunks), c), c)
  {
    assert (chunks + [c])[..|chunks|] == chunks;
  }

  /** Writes the header of the last packet. */
  method SealLast(out: PacketList, offset: nat)
    requires out.values != [] && offset <= PACKET_SIZE
    modifies out
    ensures out.values == SealedTail(old(out.values), offset)
  {
    var n := |out.values| - 1;
    var data := Splice(out.values[n].data, N_PACKET_MODE, [PACKET_MODE_PLAIN]);
    data := Splice(data, N_PACKET_SIZE, LittleEndian(offset, 2));
    assert data == Splice(out.values[n].data, N_PACKET_MODE, [PACKET_MODE_PLAIN] + LittleEndian(offset, 2));
    out.values := out.values[n := out.values[n].(size := offset, data := data)];
  }

  /** Makes room for a chunk: unless it fits the last packet, closes that packet, if this call added
      one, and adds an empty one. */
  method MakeRoom(source: int, destination: int, previous: nat, offset: nat, c: Chunk, out: PacketList,
                  ghost before: seq<Packet>, ghost groups: seq<seq<Chunk>>) returns (next: nat)
    requires previous == |before| && 0 < |c| <= PAYLOAD_SIZE
    requires Progress(source, destination, before, groups, out.values, offset)
    modifies out
    ensures Progress(source, destination, before, Opened(groups, c), out.values, next)
    ensures Load(Opened(groups, c)[|Opened(groups, c)| - 1]) + |c| <= PAYLOAD_SIZE
  {
    next := offset;
    if offset + |c| > PACKET_SIZE {
      if |out.values| > previous {
        SealProgress(source, destination, before, groups, out.values, offset);
        SealLast(out, offset);
      }
      assert out.values == before + SealAll(source, destination, groups);
      OpenProgress(source, destination, before, groups, out.values);
      out.values := out.values + [Packet(source, destination, 0, Zeros(PACKET_SIZE))];
      next := N_PACKET_MESSAGES;
    }
  }

  method CopyToLast(out: PacketList, offset: nat, c: Chunk)
    requires out.values != [] && offset + |c| <= PACKET_SIZE
    modifies out
    ensures out.values == CopiedTail(old(out.values), offset, c)
  {
    var m := |out.values| - 1;
    out.values := out.values[m := out.values[m].(data := Splice(out.values[m].data, offset, c))];
  }

  lemma PackFailed(source: int, destination: int, chunks: seq<Chunk>, before: seq<Packet>, values: seq<Packet>,
      offset: nat, k: nat)
    requires Packable(chunks) && k < |chunks| && FirstMismatch(chunks, k)
    requires Progress(source, destination, before, Opened(Groups(chunks[..k]), chunks[k]), values, offset)
    ensures PackEffect(source, destination, chunks, before, values, {InvalidMessageSize})
  {
  }

  lemma PackDone(source: int, destination: int, chunks: seq<Chunk>, before: seq<Packet>, values: seq<Packet>)
    requires Packable(chunks) && chunks != []
    requires forall j :: 0 <= j < |chunks| ==> ReadMessageSize(chunks[j]) == |chunks[j]|
    requires AllFit(Groups(chunks)) && values == before + SealAll(source, destination, Groups(chunks))
    ensures PackEffect(source, destination, chunks, before, values, OK)
  {
    assert FirstMismatch(chunks, |chunks|);
    assert values == before + PackOutput(source, destination, chunks, |chunks|);
  }

  lemma PackStarts(source: int, destination: int, before: seq<Packet>)
    ensures Groups([]) == [] && Progress(source, destination, before, [], before, PACKET_SIZE)
  {
  }

  lemma ProgressGrows(source: int, destination: int, before: seq<Packet>, groups: seq<seq<Chunk>>,
      values: seq<Packet>, offset: nat)
    requires Progress(source, destination, before, groups, values, offset)
    ensures AllFit(groups) && |values| >= |before| && (|values| == |before| <==> groups == [])
    ensures groups == [] ==> values == before
  {
  }

  method Pack(source: int, destination: int, chunks: seq<Chunk>, out: PacketList) returns (status: Status)
    requires Packable(chunks)
    modifies out
    ensures PackEffect(source, destination, chunks, old(out.values), out.values, status)
  {
    hide Groups, Load, Opened, AddToLast, Progress, SealedTail, CopiedTail, PackedPackets, PackEffect;
    PackStarts(source, destination, out.values);
    var previous := |out.values|;
    ghost var before := out.values;
    var offset: nat := PACKET_SIZE;
    ghost var packed: seq<Chunk> := [];
    ghost var groups: seq<seq<Chunk>> := [];
    for i := 0 to |chunks|
      invariant packed == chunks[..i]
      invariant groups == Groups(packed) && (packed != [] ==> groups != [])
      invariant Progress(source, destination, before, groups, out.values, offset)
      invariant forall j :: 0 <= j < i ==> ReadMessageSize(chunks[j]) == |chunks[j]|
    {
      var c := chunks[i];
      ghost var target := Opened(groups, c);
      GroupsSnoc(packed, c);
      offset := MakeRoom(source, destination, previous, offset, c, out, before, groups);
      if ReadMessageSize(c) != |c| {
        PackFailed(source, destination, chunks, before, out.values, offset, i);
        return {InvalidMessageSize};
      }
      CopyProgress(source, destination, before, target, out.values, offset, c);
      CopyToLast(out, offset, c);
      offset := offset + |c|;
      packed, groups := packed + [c], AddToLast(target, c);
    }
    assert packed == chunks;
    ProgressGrows(source, destination, before, groups, out.values, offset);
    if |out.values| == previous {
      AddForEmpty(source, destination, out);
      return OK;
    }
    SealProgress(source, destination, before, groups, out.values, offset);
    SealLast(out, offset);
    PackDone(source, destination, chunks, before, out.values);
    return OK;
  }

  /** The branch that makes sure there is at least one packet. The new slot is not initialised;
      slot 0 is cleared instead. */
  method AddForEmpty(source: int, destination: int, out: PacketList)
    modifies out
    ensures PackEffect(source, destination, [], old(out.values), out.values, OK)
  {
    var added: Packet := *;
    out.values := out.values + [added];
    out.values := out.values[0 := Packet(source, destination, 0, Zeros(PACKET_SIZE))];
    SealLast(out, 0);
    assert Splice(Zeros(PACKET_SIZE), N_PACKET_MODE, [PACKET_MODE_PLAIN] + LittleEndian(0, 2)) == Zeros(PACKET_SIZE);
  }

  // ---- The parser ----

  datatype Parsed = Parsed(status: Status, chunks: seq<Chunk>)

  /** The chunks a packet of the given size holds from an offset on: one after another, each as long
      as its size field says, until no full header is left, a size is zero, or a chunk would run past
      the end of the 400-byte buffer (not of the packet). */
  function ParseFrom(data: Frame, size: int, offset: nat): Parsed
    requires offset <= PACKET_SIZE && size <= PACKET_SIZE
    decreases PACKET_SIZE - offset
  {
    if offset + N_MESSAGE_DATA > size then Parsed(OK, [])
    else
      var n := ReadMessageSize(data[offset..]);
      if n == 0 then Parsed(OK, [])
      else if offset + n > PACKET_SIZE then Parsed({InvalidMessageSize}, [])
      else
        var rest := ParseFrom(data, size, offset + n);
        Parsed(rest.status, [data[offset..offset + n]] + rest.chunks)
  }

  function ParsePacket(p: Packet): Parsed {
    if p.size == 0 then Parsed(OK, [])
    else if p.size < N_PACKET_MESSAGES || p.size > PACKET_SIZE then Parsed({InvalidPacketSize}, [])
    else ParseFrom(p.data, p.size, N_PACKET_MESSAGES)
  }

  function PacketChunks(p: Packet): seq<Chunk> {
    ParsePacket(p).chunks
  }

  function ParseAll(ps: seq<Packet>): Parsed {
    if ps == [] then Parsed(OK, [])
    else
      var most, last := ParseAll(ps[..|ps| - 1]), ParsePacket(ps[|ps| - 1]);
      Parsed(most.status + last.status, most.chunks + last.chunks)
  }

  method Unpack(packets: seq<Packet>) returns (status: Status, chunks: seq<Chunk>)
    ensures Parsed(status, chunks) == ParseAll(packets)
  {
    hide ReadMessageSize;
    status, chunks := OK, [];
    for i := 0 to |packets|
      invariant Parsed(status, chunks) == ParseAll(packets[..i])
    {
      ParseStep(packets, i);
      var p := packets[i];
      ghost var before := chunks;
      if p.size == 0 {
        continue;
      }
      var offset: nat := N_PACKET_MESSAGES;
      if p.size < offset || p.size > PACKET_SIZE {
        status := status + {InvalidPacketSize};
        continue;
      }
      while offset + N_MESSAGE_DATA <= p.size
        invariant offset <= PACKET_SIZE
        invariant chunks + ParseFrom(p.data, p.size, offset).chunks == before + ParsePacket(p).chunks
        invariant ParseFrom(p.data, p.size, offset).status == ParsePacket(p).status
        decreases PACKET_SIZE - offset
      {
        var size := ReadMessageSize(p.data[offset..]);
        if size == 0 {
          break;
        }
        if offset + size > PACKET_SIZE {
          status := status + {InvalidMessageSize};
          break;
        }
        chunks := chunks + [p.data[offset..offset + size]];
        offset := offset + size;
      }
    }
    assert packets[..|packets|] == packets;
  }

  lemma ParseStep(ps: seq<Packet>, i: nat)
    requires i < |ps|
    ensures ParseAll(ps[..i + 1]).chunks == ParseAll(ps[..i]).chunks + ParsePacket(ps[i]).chunks
    ensures ParseAll(ps[..i + 1]).status == ParseAll(ps[..i]).status + ParsePacket(ps[i]).status
  {
    assert ps[..i + 1] == ps[..i] + [ps[i]];
    ParseSnoc(ps[..i], ps[i]);
  }

  lemma ParseSnoc(ps: seq<Packet>, p: Packet)
    ensures ParseAll(ps + [p]).chunks == ParseAll(ps).chunks + ParsePacket(p).chunks
    ensures ParseAll(ps + [p]).status == ParseAll(ps).status + ParsePacket(p).status
  {
    assert (ps + [p])[..|ps|] == ps;
  }

  lemma Associative<T>(a: seq<T>, b: seq<T>, c: seq<T>)
    ensures (a + b) + c == a + (b + c)
  {
  }

  /** Unpacking a concatenation is unpacking the parts and OR-ing the statuses. */
  lemma {:induction false} ParseConcat(ps: seq<Packet>, qs: seq<Packet>)
    ensures ParseAll(ps + qs).chunks == ParseAll(ps).chunks + ParseAll(qs).chunks
    ensures ParseAll(ps + qs).status == ParseAll(ps).status + ParseAll(qs).status
  {
    if qs == [] {
      assert ps + qs == ps;
    } else {
      hide ParsePacket, ParseAll;
      var most, q := qs[..|qs| - 1], qs[|qs| - 1];
      assert qs == most + [q];
      Associative(ps, most, [q]);
      ParseConcat(ps, most);
      ParseSnoc(ps + most, q);
      ParseSnoc(most, q);
      Associative(ParseAll(ps).chunks, ParseAll(most).chunks, ParsePacket(q).chunks);
    }
  }

  lemma SizeOfSlice(s: seq<byte>, at: nat, n: nat)
    requires N_MESSAGE_SIZE_AND_MODE < n && at + n <= |s|
    ensures ReadMessageSize(s[at..at + n]) == ReadMessageSize(s[at..])
  {
  }

  /** On arbitrary bytes the chunks of a packet lie side by side in the buffer from the offset on,
      never past its end. */
  lemma {:induction false} ParsedSlice(data: Frame, size: int, offset: nat)
    requires offset <= PACKET_SIZE && size <= PACKET_SIZE
    ensures var chunks := ParseFrom(data, size, offset).chunks;
            && offset + Load(chunks) <= PACKET_SIZE
            && Join(chunks) == data[offset..offset + Load(chunks)]
    decreases PACKET_SIZE - offset
  {
    hide Load, Join, ReadMessageSize;
    EmptyGroup();
    if offset + N_MESSAGE_DATA <= size {
      var n := ReadMessageSize(data[offset..]);
      if n != 0 && offset + n <= PACKET_SIZE {
        var c, rest := data[offset..offset + n], ParseFrom(data, size, offset + n).chunks;
        ParsedSlice(data, size, offset + n);
        LoadCons(c, rest);
        assert c + data[offset + n..offset + n + Load(rest)] == data[offset..offset + n + Load(rest)];
      }
    }
  }

  /** Each of them is as long as its own size field, unless it is too short for a header. */
  lemma {:induction false} ParsedSizes(data: Frame, size: int, offset: nat)
    requires offset <= PACKET_SIZE && size <= PACKET_SIZE
    ensures forall c :: c in ParseFrom(data, size, offset).chunks ==> |c| > 0 && (|c| >= N_MESSAGE_DATA ==> Framed(c))
    decreases PACKET_SIZE - offset
  {
    hide ReadMessageSize;
    if offset + N_MESSAGE_DATA <= size {
      var n := ReadMessageSize(data[offset..]);
      if n != 0 && offset + n <= PACKET_SIZE {
        ParsedSizes(data, size, offset + n);
        if n >= N_MESSAGE_DATA {
          SizeOfSlice(data, offset, n);
        }
      }
    }
  }

  /** One round of the parser that finds a chunk. */
  lemma ParseMore(data: Frame, size: int, offset: nat)
    requires offset + N_MESSAGE_DATA <= size <= PACKET_SIZE
    requires var n := ReadMessageSize(data[offset..]); n != 0 && offset + n <= PACKET_SIZE
    ensures var n := ReadMessageSize(data[offset..]);
            var c, rest := data[offset..offset + n], ParseFrom(data, size, offset + n);
            && ParseFrom(data, size, offset) == Parsed(rest.status, [c] + rest.chunks)
            && Load([c] + rest.chunks) == n + Load(rest.chunks)
  {
    hide Load, ReadMessageSize;
    var n := ReadMessageSize(data[offset..]);
    LoadCons(data[offset..offset + n], ParseFrom(data, size, offset + n).chunks);
  }

  /** Where a parser may stop, and with which status. */
  predicate StopsAt(data: Frame, size: int, status: Status, end: nat)
    requires size <= PACKET_SIZE
  {
    && end <= PACKET_SIZE
    && (status == OK <==> end + N_MESSAGE_DATA > size || ReadMessageSize(data[end..]) == 0)
    && (status != OK ==> status == {InvalidMessageSize} && end + ReadMessageSize(data[end..]) > PACKET_SIZE)
  }

  /** The parser stops only when no full header is left or at a zero size, or, with an error, at a
      chunk that would run past the buffer. */
  lemma {:induction false} ParseStops(data: Frame, size: int, offset: nat)
    requires offset <= PACKET_SIZE && size <= PACKET_SIZE
    ensures var r := ParseFrom(data, size, offset);
            StopsAt(data, size, r.status, offset + Load(r.chunks))
    decreases PACKET_SIZE - offset
  {
    hide Load, ReadMessageSize;
    EmptyGroup();
    if offset + N_MESSAGE_DATA <= size {
      var n := ReadMessageSize(data[offset..]);
      if n != 0 && offset + n <= PACKET_SIZE {
        ParseMore(data, size, offset);
        ParseStops(data, size, offset + n);
        hide ParseFrom, StopsAt;
      }
    }
  }

  lemma EmptyGroup()
    ensures Load([]) == 0 && Join([]) == []
  {
  }

  lemma {:induction false} LoadCons(c: Chunk, group: seq<Chunk>)
    ensures Load([c] + group) == |c| + Load(group)
    ensures Join([c] + group) == c + Join(group)
  {
    if group != [] {
      var most := group[..|group| - 1];
      LoadCons(c, most);
      assert ([c] + group)[..|group|] == [c] + most;
    } else {
      assert ([c] + group)[..0] == [];
    }
  }

  // ---- Round trip ----

  predicate AllFramed(chunks: seq<Chunk>)
    ensures AllFramed(chunks) ==> Packable(chunks)
  {
    forall i :: 0 <= i < |chunks| ==> Framed(chunks[i]) && |chunks[i]| <= PAYLOAD_SIZE
  }

  lemma {:induction false} ParseSuffix(data: Frame, size: int, offset: nat, group: seq<Chunk>)
    requires AllFramed(group) && offset + Load(group) == size <= PACKET_SIZE
    requires data[offset..size] == Join(group)
    ensures ParseFrom(data, size, offset) == Parsed(OK, group)
    decreases |group|
  {
    hide Load, Join, ReadMessageSize;
    EmptyGroup();
    if group != [] {
      var c, rest := group[0], group[1..];
      assert group == [c] + rest;
      LoadCons(c, rest);
      var tail := data[offset..size];
      assert data[offset..offset + |c|] == tail[..|c|] == c;
      assert data[offset + |c|..size] == tail[|c|..] == Join(rest);
      SizeOfSlice(data, offset, |c|);
      ParseSuffix(data, size, offset + |c|, rest);
    }
  }

  lemma ParseSealed(source: int, destination: int, group: seq<Chunk>)
    requires AllFramed(group) && Fits(group)
    ensures ParsePacket(Sealed(source, destination, group)) == Parsed(OK, group)
  {
    var p := Sealed(source, destination, group);
    assert p.data[N_PACKET_MESSAGES..p.size] == Join(group);
    ParseSuffix(p.data, p.size, N_PACKET_MESSAGES, group);
  }

  function Flatten(groups: seq<seq<Chunk>>): seq<Chunk> {
    if groups == [] then [] else Flatten(groups[..|groups| - 1]) + groups[|groups| - 1]
  }

  lemma FlattenOpened(groups: seq<seq<Chunk>>, c: Chunk)
    ensures Flatten(Opened(groups, c)) == Flatten(groups)
  {
    assert (groups + [[]])[..|groups|] == groups;
  }

  lemma FlattenAdded(groups: seq<seq<Chunk>>, c: Chunk)
    requires groups != []
    ensures Flatten(AddToLast(groups, c)) == Flatten(groups) + [c]
  {
    assert AddToLast(groups, c)[..|groups| - 1] == groups[..|groups| - 1];
  }

  lemma {:induction false} GroupsPartition(chunks: seq<Chunk>)
    ensures Flatten(Groups(chunks)) == chunks
  {
    if chunks != [] {
      var most, c := chunks[..|chunks| - 1], chunks[|chunks| - 1];
      assert chunks == most + [c];
      hide Opened, AddToLast, Flatten;
      GroupsPartition(most);
      FlattenOpened(Groups(most), c);
      FlattenAdded(Opened(Groups(most), c), c);
    }
  }

  lemma {:induction false} ParseSealedAll(source: int, destination: int, groups: seq<seq<Chunk>>)
    requires AllFit(groups) && forall i :: 0 <= i < |groups| ==> AllFramed(groups[i])
    ensures ParseAll(SealAll(source, destination, groups)) == Parsed(OK, Flatten(groups))
  {
    if groups != [] {
      var most, last := groups[..|groups| - 1], groups[|groups| - 1];
      ParseSealedAll(source, destination, most);
      ParseSealed(source, destination, last);
      assert SealAll(source, destination, groups)[..|groups| - 1] == SealAll(source, destination, most);
    }
  }

  lemma {:induction false} FlattenMembers(groups: seq<seq<Chunk>>, i: nat, j: nat)
    requires i < |groups| && j < |groups[i]|
    ensures groups[i][j] in Flatten(groups)
  {
    if i < |groups| - 1 {
      FlattenMembers(groups[..|groups| - 1], i, j);
    }
  }

  lemma GroupsFramed(chunks: seq<Chunk>)
    requires AllFramed(chunks)
    ensures forall i :: 0 <= i < |Groups(chunks)| ==> AllFramed(Groups(chunks)[i])
  {
    GroupsPartition(chunks);
    forall i, j | 0 <= i < |Groups(chunks)| && 0 <= j < |Groups(chunks)[i]|
      ensures Groups(chunks)[i][j] in chunks
    {
      FlattenMembers(Groups(chunks), i, j);
    }
  }

  /** Packing then unpacking returns exactly the chunks, in order, across any number of packets. */
  lemma PackRoundTrip(source: int, destination: int, chunks: seq<Chunk>)
    requires AllFramed(chunks)
    ensures ParseAll(PackedPackets(source, destination, chunks)) == Parsed(OK, chunks)
  {
    GroupsFit(chunks);
    GroupsFramed(chunks);
    GroupsPartition(chunks);
    ParseSealedAll(source, destination, Groups(chunks));
  }

  /** Chunks that fit one payload go into one packet. */
  lemma OnePacket(source: int, destination: int, chunks: seq<Chunk>)
    requires AllFramed(chunks) && chunks != [] && Fits(chunks)
    ensures PackedPackets(source, destination, chunks) == [Sealed(source, destination, chunks)]
    ensures ParsePacket(Sealed(source, destination, chunks)) == Parsed(OK, chunks)
  {
    OneGroup(chunks);
    ParseSealed(source, destination, chunks);
  }

  lemma {:induction false} OneGroup(chunks: seq<Chunk>)
    requires chunks != [] && Fits(chunks)
    ensures Groups(chunks) == [chunks]
  {
    var most, c := chunks[..|chunks| - 1], chunks[|chunks| - 1];
    assert chunks == most + [c];
    GroupsSnoc(most, c);
    LoadSnoc(most, c);
    if most != [] {
      OneGroup(most);
      assert Opened([most], c) == [most];
    } else {
      GroupsEmpty();
    }
  }

  /** Every packet added is addressed as asked, is within the buffer, says its own size in its header,
      and holds only chunks that were packed; and every chunk packed is in one of them. */
  lemma PackedPacketsShape(source: int, destination: int, chunks: seq<Chunk>)
    requires AllFramed(chunks)
    ensures var ps := PackedPackets(source, destination, chunks);
            && (chunks != [] ==> ps != [])
            && (forall p :: p in ps ==>
                  && p.source == source && p.destination == destination
                  && N_PACKET_MESSAGES < p.size <= PACKET_SIZE
                  && p.size == ReadU16(p.data, N_PACKET_SIZE)
                  && p.data[N_PACKET_MODE] == PACKET_MODE_PLAIN
                  && ParsePacket(p).status == OK
                  && (forall c :: c in PacketChunks(p) ==> c in chunks))
            && (forall c :: c in chunks ==> exists p :: p in ps && c in PacketChunks(p))
  {
    hide Groups, Load, Sealed, ParsePacket, Framed, ReadU16, Flatten, Join;
    assert Packable(chunks);
    var groups, ps := Groups(chunks), PackedPackets(source, destination, chunks);
    GroupsFit(chunks);
    GroupsFramed(chunks);
    GroupsPartition(chunks);
    forall i | 0 <= i < |ps|
      ensures ps[i].source == source && ps[i].destination == destination
      ensures N_PACKET_MESSAGES < ps[i].size <= PACKET_SIZE
      ensures ps[i].size == ReadU16(ps[i].data, N_PACKET_SIZE) && ps[i].data[N_PACKET_MODE] == PACKET_MODE_PLAIN
      ensures PacketChunks(ps[i]) == groups[i] && ParsePacket(ps[i]).status == OK
      ensures forall c :: c in groups[i] ==> c in chunks
    {
      ParseSealed(source, destination, groups[i]);
      SealedHeader(source, destination, groups[i]);
      forall c | c in groups[i] ensures c in chunks {
        var j :| 0 <= j < |groups[i]| && groups[i][j] == c;
        FlattenMembers(groups, i, j);
      }
    }
    forall c | c in chunks ensures exists p :: p in ps && c in PacketChunks(p) {
      var i := FlattenFind(groups, c);
      assert ps[i] in ps && c in PacketChunks(ps[i]);
    }
  }

  lemma {:induction false} FlattenFind(groups: seq<seq<Chunk>>, c: Chunk) returns (i: nat)
    requires c in Flatten(groups)
    ensures i < |groups| && c in groups[i]
  {
    i := |groups| - 1;
    if c !in groups[i] {
      i := FlattenFind(groups[..i], c);
    }
  }

  lemma SealedHeader(source: int, destination: int, group: seq<Chunk>)
    requires Fits(group) && group != [] && AllFramed(group)
    ensures var p := Sealed(source, destination, group);
            && p.source == source && p.destination == destination
            && N_PACKET_MESSAGES < p.size <= PACKET_SIZE
            && p.size == ReadU16(p.data, N_PACKET_SIZE)
            && p.data[N_PACKET_MODE] == PACKET_MODE_PLAIN
  {
    var p := Sealed(source, destination, group);
    Capacities();
    IntegerRoundTrip(p.size, 2);
    assert p.data[N_PACKET_SIZE..N_PACKET_SIZE + 2] == LittleEndian(p.size, 2);
  }
}
