/** How many packets the packer adds: no order-preserving split uses fewer, and no arrangement at
    all uses less than about half. */
module PacketBounds {
  import opened Options
  import opened Packets

  /** An order-preserving way to cut chunks into payloads. */
  predicate IsSplit(split: seq<seq<Chunk>>, chunks: seq<Chunk>) {
    Flatten(split) == chunks && AllFit(split)
  }

  /** The packer's groups are themselves such a split. */
  lemma GreedyIsSplit(chunks: seq<Chunk>)
    requires Packable(chunks)
    ensures IsSplit(Groups(chunks), chunks)
  {
    GroupsFit(chunks);
    GroupsPartition(chunks);
  }

  ghost function LastLoad(groups: seq<seq<Chunk>>): nat {
    if groups == [] then 0 else Load(groups[|groups| - 1])
  }

  /** Greedy stays ahead: it is never behind any split in packets, nor, at equal packets, in bytes used. */
  lemma {:induction false} GreedyStaysAhead(chunks: seq<Chunk>, split: seq<seq<Chunk>>)
    requires Packable(chunks) && IsSplit(split, chunks)
    ensures |Groups(chunks)| < |split|
         || (|Groups(chunks)| == |split| && LastLoad(Groups(chunks)) <= LastLoad(split))
    decreases |chunks|, |split|
  {
    if chunks == [] {
      GroupsEmpty();
      hide *;
    } else {
      var front, last := split[..|split| - 1], split[|split| - 1];
      if last == [] {
        DropEmptyGroup(chunks, split);
        GreedyStaysAhead(chunks, front);
      } else {
        var most, c, shorter := chunks[..|chunks| - 1], chunks[|chunks| - 1], front + [last[..|last| - 1]];
        DropLastChunk(chunks, split);
        assert chunks == most + [c];
        assert |c| <= PAYLOAD_SIZE && Packable(most);
        hide Groups, Load, Flatten, AllFit, Packable, IsSplit;
        GreedyStaysAhead(most, shorter);
        GreedyStep(most, c);
      }
    }
  }

  lemma DropEmptyGroup(chunks: seq<Chunk>, split: seq<seq<Chunk>>)
    requires IsSplit(split, chunks) && split != [] && split[|split| - 1] == []
    ensures IsSplit(split[..|split| - 1], chunks)
  {
    hide Load;
    assert Flatten(split[..|split| - 1]) + [] == Flatten(split[..|split| - 1]);
  }

  /** Taking the last chunk off a split's last group gives a split of the remaining chunks. */
  lemma DropLastChunk(chunks: seq<Chunk>, split: seq<seq<Chunk>>)
    requires Packable(chunks) && IsSplit(split, chunks) && split != [] && split[|split| - 1] != []
    ensures var last := split[|split| - 1];
            var shorter := split[..|split| - 1] + [last[..|last| - 1]];
            && chunks != []
            && last[|last| - 1] == chunks[|chunks| - 1]
            && IsSplit(shorter, chunks[..|chunks| - 1])
            && LastLoad(split) == LastLoad(shorter) + |chunks[|chunks| - 1]| <= PAYLOAD_SIZE
  {
    var front, last := split[..|split| - 1], split[|split| - 1];
    var most, c := last[..|last| - 1], last[|last| - 1];
    var shorter := front + [most];
    assert last == most + [c];
    assert shorter[..|split| - 1] == front;
    assert chunks == (Flatten(front) + most) + [c];
    assert chunks[..|chunks| - 1] == Flatten(front) + most;
    LoadSnoc(most, c);
  }

  lemma GreedyStep(most: seq<Chunk>, c: Chunk)
    requires Packable(most) && |c| <= PAYLOAD_SIZE
    ensures var groups, next := Groups(most), Groups(most + [c]);
            if groups == [] || LastLoad(groups) + |c| > PAYLOAD_SIZE
            then |next| == |groups| + 1 && LastLoad(next) == |c|
            else |next| == |groups| && LastLoad(next) == LastLoad(groups) + |c|
  {
    var target := Opened(Groups(most), c);
    GroupsSnoc(most, c);
    LoadSnoc(target[|target| - 1], c);
  }

  /** The packer adds the fewest packets any order-preserving split into payloads can have. */
  lemma GreedyIsOptimal(source: int, destination: int, chunks: seq<Chunk>, split: seq<seq<Chunk>>)
    requires Packable(chunks) && IsSplit(split, chunks)
    ensures |PackedPackets(source, destination, chunks)| <= |split|
  {
    GreedyStaysAhead(chunks, split);
  }

  // ---- Against arrangements that may reorder ----

  ghost function TotalLoad(groups: seq<seq<Chunk>>): nat {
    if groups == [] then 0 else TotalLoad(groups[..|groups| - 1]) + Load(groups[|groups| - 1])
  }

  lemma {:induction false} FlattenLoad(groups: seq<seq<Chunk>>)
    ensures Load(Flatten(groups)) == TotalLoad(groups)
  {
    if groups != [] {
      FlattenLoad(groups[..|groups| - 1]);
      LoadConcat(Flatten(groups[..|groups| - 1]), groups[|groups| - 1]);
    }
  }

  lemma {:induction false} LoadConcat(a: seq<Chunk>, b: seq<Chunk>)
    ensures Load(a + b) == Load(a) + Load(b)
  {
    if b == [] {
      assert a + b == a;
    } else {
      var most, c := b[..|b| - 1], b[|b| - 1];
      assert b == most + [c];
      assert a + b == (a + most) + [c];
      LoadConcat(a, most);
      LoadSnoc(a + most, c);
    }
  }

  /** Some other sequence holding c also holds it at the end, as far as loads and contents go. */
  lemma MoveToEnd(b: seq<Chunk>, c: Chunk) returns (rest: seq<Chunk>)
    requires c in b
    ensures multiset(b) == multiset(rest) + multiset{c} && Load(b) == Load(rest) + |c|
  {
    var i :| 0 <= i < |b| && b[i] == c;
    var front, back := b[..i], b[i + 1..];
    rest := front + back;
    assert b == (front + [c]) + back;
    LoadSnoc(front, c);
    LoadConcat(front + [c], back);
    LoadConcat(front, back);
  }

  lemma {:induction false} LoadOfPermutation(a: seq<Chunk>, b: seq<Chunk>)
    requires multiset(a) == multiset(b)
    ensures Load(a) == Load(b)
  {
    if a == [] {
      assert |multiset(b)| == 0;
    } else {
      var most, c := a[..|a| - 1], a[|a| - 1];
      assert a == most + [c];
      assert multiset(a) == multiset(most) + multiset{c};
      assert c in multiset(b);
      var rest := MoveToEnd(b, c);
      assert multiset(most) == multiset(a) - multiset{c};
      assert multiset(rest) == multiset(b) - multiset{c};
      LoadOfPermutation(most, rest);
      LoadSnoc(most, c);
    }
  }

  lemma {:induction false} TotalLoadBound(groups: seq<seq<Chunk>>)
    requires AllFit(groups)
    ensures TotalLoad(groups) <= PAYLOAD_SIZE * |groups|
  {
    if groups != [] {
      TotalLoadBound(groups[..|groups| - 1]);
    }
  }

  /** Two neighbouring packets together always carry more than one payload. */
  lemma {:induction false} NeighboursOverflow(chunks: seq<Chunk>, i: nat)
    requires Packable(chunks) && i + 1 < |Groups(chunks)|
    ensures Load(Groups(chunks)[i]) + Load(Groups(chunks)[i + 1]) > PAYLOAD_SIZE
  {
    var most, c := chunks[..|chunks| - 1], chunks[|chunks| - 1];
    assert chunks == most + [c];
    var groups, target := Groups(most), Opened(Groups(most), c);
    GroupsSnoc(most, c);
    LoadSnoc(target[|target| - 1], c);
    if i + 1 < |groups| {
      NeighboursOverflow(most, i);
    } else {
      assert Load([]) == 0;
    }
  }

  lemma TotalLoadTwo(groups: seq<seq<Chunk>>, n: nat)
    requires n + 2 <= |groups|
    ensures TotalLoad(groups[..n + 2]) == TotalLoad(groups[..n]) + Load(groups[n]) + Load(groups[n + 1])
  {
    assert groups[..n + 2][..n + 1] == groups[..n + 1];
    assert groups[..n + 1][..n] == groups[..n];
  }

  lemma {:induction false} PairedLoad(chunks: seq<Chunk>, n: nat)
    requires Packable(chunks) && 2 * n <= |Groups(chunks)|
    ensures TotalLoad(Groups(chunks)[..2 * n]) >= PAYLOAD_SIZE * n + n
  {
    hide Groups, Load;
    var groups := Groups(chunks);
    if n == 0 {
      assert groups[..0] == [];
    } else {
      var m := 2 * (n - 1);
      PairedLoad(chunks, n - 1);
      hide TotalLoad;
      NeighboursOverflow(chunks, m);
      TotalLoadTwo(groups, m);
      assert PAYLOAD_SIZE * n == PAYLOAD_SIZE * (n - 1) + PAYLOAD_SIZE;
    }
  }

  lemma {:induction false} TotalLoadPrefix(groups: seq<seq<Chunk>>, n: nat)
    requires n <= |groups|
    ensures TotalLoad(groups[..n]) <= TotalLoad(groups)
  {
    if n == |groups| {
      assert groups[..n] == groups;
    } else {
      TotalLoadPrefix(groups[..|groups| - 1], n);
      assert groups[..|groups| - 1][..n] == groups[..n];
    }
  }

  /** However the chunks are rearranged, if k payloads can hold them the packer adds at most 2k-1 packets. */
  lemma NextFitBound(source: int, destination: int, chunks: seq<Chunk>, arrangement: seq<seq<Chunk>>)
    requires Packable(chunks) && chunks != []
    requires multiset(Flatten(arrangement)) == multiset(chunks) && AllFit(arrangement)
    ensures |PackedPackets(source, destination, chunks)| <= 2 * |arrangement| - 1
  {
    var groups, k := Groups(chunks), |arrangement|;
    GroupsFit(chunks);
    GroupsPartition(chunks);
    LoadOfPermutation(Flatten(arrangement), chunks);
    FlattenLoad(arrangement);
    FlattenLoad(groups);
    TotalLoadBound(arrangement);
    if |groups| >= 2 * k {
      PairedLoad(chunks, k);
      TotalLoadPrefix(groups, 2 * k);
    }
  }
}
