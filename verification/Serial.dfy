/** Byte codec: little-endian integers, the two bytes shared by a 10-bit size and a
    6-bit mode, and the 30-byte message header. */
module Serial {
  import opened Options
  import opened SharedByte

  // ---- Little-endian integers ----

  function LittleEndian(x: nat, n: nat): (s: seq<byte>)
    ensures |s| == n
  {
    if n == 0 then [] else [x % 0x100] + LittleEndian(x / 0x100, n - 1)
  }

  function FromLittleEndian(s: seq<byte>): nat {
    if s == [] then 0 else s[0] + 0x100 * FromLittleEndian(s[1..])
  }

  /** How many values n bytes can hold. */
  function Capacity(n: nat): nat {
    if n == 0 then 1 else 0x100 * Capacity(n - 1)
  }

  lemma {:induction false} IntegerRoundTrip(x: nat, n: nat)
    requires x < Capacity(n)
    ensures FromLittleEndian(LittleEndian(x, n)) == x
  {
    if n > 0 {
      IntegerRoundTrip(x / 0x100, n - 1);
    }
  }

  lemma {:induction false} IntegerBytesUnique(s: seq<byte>)
    ensures FromLittleEndian(s) < Capacity(|s|)
    ensures LittleEndian(FromLittleEndian(s), |s|) == s
  {
    if s != [] {
      IntegerBytesUnique(s[1..]);
    }
  }

  lemma Capacities()
    ensures Capacity(2) == 0x1_0000 && Capacity(4) == TWO_32 && Capacity(8) == TWO_64
  {
    assert Capacity(2) == 0x100 * Capacity(1);
    assert Capacity(4) == 0x100 * Capacity(3) && Capacity(3) == 0x100 * Capacity(2);
    assert Capacity(6) == 0x100 * Capacity(5) && Capacity(5) == 0x100 * Capacity(4);
    assert Capacity(8) == 0x100 * Capacity(7) && Capacity(7) == 0x100 * Capacity(6);
  }

  function ReadU16(s: seq<byte>, at: nat): nat
    requires at + 2 <= |s|
  {
    FromLittleEndian(s[at..at + 2])
  }

  function ReadU32(s: seq<byte>, at: nat): nat
    requires at + 4 <= |s|
  {
    FromLittleEndian(s[at..at + 4])
  }

  function ReadU64(s: seq<byte>, at: nat): nat
    requires at + 8 <= |s|
  {
    FromLittleEndian(s[at..at + 8])
  }

  /** The value of a two's complement 64-bit word. */
  function Signed64(x: nat): int {
    if x <= INT64_MAX then x else x - TWO_64
  }

  lemma SignedRoundTrip(x: int)
    requires IsInt64(x)
    ensures 0 <= x % TWO_64 < TWO_64 && Signed64(x % TWO_64) == x
  {
    assert x % TWO_64 == if x < 0 then x + TWO_64 else x;
  }

  lemma UnsignedRoundTrip(x: nat)
    requires x < TWO_64
    ensures Signed64(x) % TWO_64 == x
  {
  }

  predicate IsInt64(x: int) {
    -INT64_MAX - 1 <= x <= INT64_MAX
  }

  // ---- Messages ----

  /** A message as it travels: header fields and payload. */
  datatype Message = Message(mode: nat, index: int, time: int, actor: int, data: seq<byte>)

  /** The field ranges that survive the wire. */
  predicate Sendable(m: Message) {
    && m.mode < 64
    && IsInt64(m.index)
    && IsInt64(m.time)
    && UNDEFINED <= m.actor < TWO_32 - 1
    && |m.data| <= MAX_MESSAGE_SIZE
  }

  predicate Writable(m: Message) {
    m.mode < 64 && |m.data| <= MAX_MESSAGE_SIZE
  }

  function ReadMessageSize(c: seq<byte>): (n: nat)
    requires |c| > N_MESSAGE_SIZE_AND_MODE
    ensures n < 0x400
  {
    var low: nat, high: nat := c[N_MESSAGE_SIZE], c[N_MESSAGE_SIZE_AND_MODE];
    low + high % 4 * 0x100
  }

  /** A chunk that holds exactly one message: a full header, and a size field equal to its length. */
  predicate Framed(c: seq<byte>) {
    |c| >= N_MESSAGE_DATA && ReadMessageSize(c) == |c|
  }

  function ReadMessage(c: seq<byte>): Message
    requires |c| >= N_MESSAGE_DATA
  {
    var actor := ReadU32(c, N_MESSAGE_ACTOR);
    Message(
      c[N_MESSAGE_SIZE_AND_MODE] / 4,
      Signed64(ReadU64(c, N_MESSAGE_INDEX)),
      Signed64(ReadU64(c, N_MESSAGE_TIME)),
      if actor == TWO_32 - 1 then UNDEFINED else actor,
      c[N_MESSAGE_DATA..])
  }

  /** The 30 bytes in front of the payload. Negative values are written modulo the field width. */
  function Header(m: Message): (h: seq<byte>)
    requires Writable(m)
    ensures |h| == N_MESSAGE_DATA
  {
    Assemble(SizeAndMode(N_MESSAGE_DATA + |m.data|, m.mode), LittleEndian(m.index % TWO_64, 8),
             LittleEndian(m.time % TWO_64, 8), LittleEndian(m.actor % TWO_32, 4))
  }

  /** The checksum field is always written as zero. */
  function Assemble(sizeAndMode: seq<byte>, index: seq<byte>, time: seq<byte>, actor: seq<byte>): seq<byte> {
    Checksum() + sizeAndMode + index + time + actor
  }

  /** The bytes of a message. */
  function Encode(m: Message): (c: seq<byte>)
    requires Writable(m)
    ensures |c| == N_MESSAGE_DATA + |m.data|
  {
    Header(m) + m.data
  }

  function Checksum(): (s: seq<byte>)
    ensures |s| == 8
  {
    LittleEndian(0, 8)
  }

  function SizeAndMode(size: nat, mode: nat): (s: seq<byte>)
    requires size < 0x400 && mode < 64
    ensures |s| == 2
  {
    [size % 0x100, size / 0x100 + mode * 4]
  }

  lemma EncodeLayout(m: Message)
    requires Writable(m)
    ensures var c := Encode(m);
            && |c| == N_MESSAGE_DATA + |m.data|
            && c[..8] == Checksum()
            && c[8..10] == SizeAndMode(|c|, m.mode)
            && c[10..18] == LittleEndian(m.index % TWO_64, 8)
            && c[18..26] == LittleEndian(m.time % TWO_64, 8)
            && c[26..30] == LittleEndian(m.actor % TWO_32, 4)
            && c[30..] == m.data
  {
    hide LittleEndian, Checksum, SizeAndMode;
  }

  /** Everything written is read back, and the chunk announces its own length. */
  lemma MessageRoundTrip(m: Message)
    requires Sendable(m)
    ensures Framed(Encode(m)) && |Encode(m)| == N_MESSAGE_DATA + |m.data|
    ensures ReadMessage(Encode(m)) == m
  {
    EncodeLayout(m);
    SizeAndModeRoundTrip(m);
    Word64RoundTrip(m.index);
    Word64RoundTrip(m.time);
    ActorRoundTrip(m.actor);
  }

  /** Fields outside those ranges never survive: a message reads back as written exactly when it is sendable. */
  lemma RoundTripIff(m: Message)
    requires Writable(m)
    ensures |Encode(m)| >= N_MESSAGE_DATA
    ensures ReadMessage(Encode(m)) == m <==> Sendable(m)
  {
    if Sendable(m) {
      MessageRoundTrip(m);
    } else {
      ReadInRange(Encode(m));
    }
  }

  lemma ReadInRange(c: seq<byte>)
    requires |c| >= N_MESSAGE_DATA
    ensures var m := ReadMessage(c); IsInt64(m.index) && IsInt64(m.time) && UNDEFINED <= m.actor < TWO_32 - 1
  {
    Capacities();
    IntegerBytesUnique(c[N_MESSAGE_INDEX..N_MESSAGE_INDEX + 8]);
    IntegerBytesUnique(c[N_MESSAGE_TIME..N_MESSAGE_TIME + 8]);
    IntegerBytesUnique(c[N_MESSAGE_ACTOR..N_MESSAGE_ACTOR + 4]);
  }

  lemma SizeAndModeRoundTrip(m: Message)
    requires Writable(m)
    ensures Framed(Encode(m)) && Encode(m)[9] / 4 == m.mode
  {
    hide Encode, LittleEndian, Checksum;
    var c := Encode(m);
    EncodeLayout(m);
    assert c[8] == c[8..10][0] && c[9] == c[8..10][1];
    SharedArithmetic(|c|, m.mode);
  }

  lemma SharedArithmetic(size: nat, mode: nat)
    requires size < 0x400 && mode < 64
    ensures (size / 0x100 + mode * 4) / 4 == mode
    ensures size % 0x100 + (size / 0x100 + mode * 4) % 4 * 0x100 == size
  {
  }

  lemma Word64RoundTrip(x: int)
    requires IsInt64(x)
    ensures Signed64(FromLittleEndian(LittleEndian(x % TWO_64, 8))) == x
  {
    Capacities();
    SignedRoundTrip(x);
    IntegerRoundTrip(x % TWO_64, 8);
  }

  lemma ActorRoundTrip(actor: int)
    requires UNDEFINED <= actor < TWO_32 - 1
    ensures FromLittleEndian(LittleEndian(actor % TWO_32, 4)) == if actor == UNDEFINED then TWO_32 - 1 else actor
  {
    Capacities();
    assert actor % TWO_32 == if actor == UNDEFINED then TWO_32 - 1 else actor;
    IntegerRoundTrip(actor % TWO_32, 4);
  }

  lemma ChecksumIsZero()
    ensures Checksum() == [0, 0, 0, 0, 0, 0, 0, 0]
  {
    ShiftedBytes64(0);
  }

  /** A message byte by byte: a zero checksum, the size and the mode in two bytes, index, time and actor
      with the low byte first, then the payload. */
  lemma MessageBytes(m: Message)
    requires Writable(m)
    ensures var c := Encode(m);
            && |c| == 30 + |m.data|
            && (forall i :: 0 <= i < 8 ==> c[i] == 0)
            && c[8] == |c| % 0x100 && c[9] == |c| / 0x100 + m.mode * 4
            && c[10..18] == LittleEndian(m.index % TWO_64, 8)
            && c[18..26] == LittleEndian(m.time % TWO_64, 8)
            && c[26..30] == LittleEndian(m.actor % TWO_32, 4)
            && c[30..] == m.data
  {
    ChecksumIsZero();
    EncodeLayout(m);
    hide Encode, LittleEndian, Checksum;
    var c := Encode(m);
    assert forall i :: 0 <= i < 8 ==> c[i] == c[..8][i];
    assert c[8] == c[8..10][0] && c[9] == c[8..10][1];
  }

  /** The converse: a framed chunk is the encoding of what it decodes to exactly when its first
      eight bytes, the checksum field, are zero, so on such chunks decoding loses nothing. */
  lemma DecodeThenEncode(c: seq<byte>)
    requires Framed(c) && |c| <= PAYLOAD_SIZE
    ensures Writable(ReadMessage(c))
    ensures Encode(ReadMessage(c)) == c <==> forall i :: 0 <= i < 8 ==> c[i] == 0
  {
    DecodeThenEncodeFront(c);
    ChecksumIsZero();
    hide Encode, ReadMessage, Checksum;
    assert c[..8] == [0, 0, 0, 0, 0, 0, 0, 0] <==> forall i :: 0 <= i < 8 ==> c[i] == 0 by {
      assert forall i :: 0 <= i < 8 ==> c[..8][i] == c[i];
    }
  }

  lemma DecodeThenEncodeFront(c: seq<byte>)
    requires Framed(c) && |c| <= PAYLOAD_SIZE
    ensures Writable(ReadMessage(c))
    ensures Encode(ReadMessage(c)) == c <==> c[..8] == Checksum()
  {
    HeaderUnique(c);
    assert c == c[..8] + (c[8..30] + c[30..]);
    FrontMatters(Checksum(), c[..8], c[8..30] + c[30..]);
    assert Encode(ReadMessage(c)) == Checksum() + (c[8..30] + c[30..]);
  }

  lemma FrontMatters(a: seq<byte>, b: seq<byte>, rest: seq<byte>)
    requires |a| == |b|
    ensures a + rest == b + rest <==> a == b
  {
    assert (a + rest)[..|a|] == a && (b + rest)[..|b|] == b;
  }

  lemma HeaderUnique(c: seq<byte>)
    requires Framed(c) && |c| <= PAYLOAD_SIZE
    ensures Writable(ReadMessage(c)) && Header(ReadMessage(c)) == Checksum() + c[8..30]
  {
    SizeAndModeUnique(c);
    WordsUnique(c);
    AssembledFields(c);
  }

  lemma AssembledFields(c: seq<byte>)
    requires |c| >= N_MESSAGE_DATA
    ensures Assemble(c[8..10], c[10..18], c[18..26], c[26..30]) == Checksum() + c[8..30]
  {
    assert c[8..30] == c[8..10] + c[10..18] + c[18..26] + c[26..30];
  }

  lemma SizeAndModeUnique(c: seq<byte>)
    requires Framed(c)
    ensures c[9] / 4 < 64 && c[8..10] == SizeAndMode(|c|, c[9] / 4)
  {
  }

  lemma WordsUnique(c: seq<byte>)
    requires |c| >= N_MESSAGE_DATA
    ensures LittleEndian(ReadMessage(c).index % TWO_64, 8) == c[10..18]
    ensures LittleEndian(ReadMessage(c).time % TWO_64, 8) == c[18..26]
    ensures LittleEndian(ReadMessage(c).actor % TWO_32, 4) == c[26..30]
  {
    Word64Unique(c[10..18]);
    Word64Unique(c[18..26]);
    ActorUnique(c[26..30]);
  }

  lemma Word64Unique(s: seq<byte>)
    requires |s| == 8
    ensures LittleEndian(Signed64(FromLittleEndian(s)) % TWO_64, 8) == s
  {
    Capacities();
    IntegerBytesUnique(s);
    UnsignedRoundTrip(FromLittleEndian(s));
  }

  lemma ActorUnique(s: seq<byte>)
    requires |s| == 4
    ensures var actor := FromLittleEndian(s);
            LittleEndian((if actor == TWO_32 - 1 then UNDEFINED else actor) % TWO_32, 4) == s
  {
    Capacities();
    IntegerBytesUnique(s);
    hide LittleEndian, FromLittleEndian, Capacity;
    UnsignedActor(FromLittleEndian(s));
  }

  lemma UnsignedActor(actor: nat)
    requires actor < TWO_32
    ensures (if actor == TWO_32 - 1 then UNDEFINED else actor) % TWO_32 == actor
  {
  }

  // ---- Writing in place ----

  /** s with the bytes from `at` on replaced by b. */
  function Splice(s: seq<byte>, at: nat, b: seq<byte>): (r: seq<byte>)
    requires at + |b| <= |s|
    ensures |r| == |s|
  {
    s[..at] + b + s[at + |b|..]
  }

  lemma SpliceAfter(front: seq<byte>, rest: seq<byte>, b: seq<byte>)
    requires |b| <= |rest|
    ensures Splice(front + rest, |front|, b) == (front + b) + rest[|b|..]
  {
  }

  lemma SpliceThree(front: seq<byte>, rest: seq<byte>, a: seq<byte>, b: seq<byte>, c: seq<byte>)
    requires |a| + |b| + |c| <= |rest|
    ensures Splice(Splice(Splice(front + rest, |front|, a), |front + a|, b), |front + a + b|, c)
         == (front + a + b + c) + rest[|a| + |b| + |c|..]
  {
    SpliceAfter(front, rest, a);
    SpliceAfter(front + a, rest[|a|..], b);
    SpliceAfter(front + a + b, rest[|a|..][|b|..], c);
    assert rest[|a|..][|b|..][|c|..] == rest[|a| + |b| + |c|..];
  }

  lemma ShiftedBytes32(x: nat)
    requires x < TWO_32
    ensures LittleEndian(x, 4) == [x % 0x100, x / 0x100 % 0x100, x / 0x1_0000 % 0x100, x / 0x100_0000 % 0x100]
  {
    var x1 := x / 0x100;
    var x2 := x1 / 0x100;
    assert x2 == x / 0x1_0000;
    assert x2 / 0x100 == x / 0x100_0000;
    assert LittleEndian(x2, 2) == [x2 % 0x100] + LittleEndian(x2 / 0x100, 1);
  }

  lemma ShiftedBytes64(x: nat)
    requires x < TWO_64
    ensures LittleEndian(x, 8)
         == [x % 0x100, x / 0x100 % 0x100, x / 0x1_0000 % 0x100, x / 0x100_0000 % 0x100,
             x / TWO_32 % 0x100, x / 0x100_0000_0000 % 0x100,
             x / 0x1_0000_0000_0000 % 0x100, x / 0x100_0000_0000_0000 % 0x100]
  {
    var x1 := x / 0x100;
    var x2 := x1 / 0x100;
    var x3 := x2 / 0x100;
    var x4 := x3 / 0x100;
    var x5 := x4 / 0x100;
    var x6 := x5 / 0x100;
    var x7 := x6 / 0x100;
    assert x2 == x / 0x1_0000;
    assert x3 == x / 0x100_0000;
    assert x4 == x / TWO_32;
    assert x5 == x / 0x100_0000_0000;
    assert x6 == x / 0x1_0000_0000_0000;
    assert x7 == x / 0x100_0000_0000_0000;
    assert LittleEndian(x6, 2) == [x6 % 0x100] + LittleEndian(x7, 1);
    assert LittleEndian(x4, 4) == [x4 % 0x100] + ([x5 % 0x100] + LittleEndian(x6, 2));
    assert LittleEndian(x2, 6) == [x2 % 0x100] + ([x3 % 0x100] + LittleEndian(x4, 4));
  }

  method WriteU32(destination: array<byte>, at: nat, x: nat)
    requires at + 4 <= destination.Length && x < TWO_32
    modifies destination
    ensures destination[..] == Splice(old(destination[..]), at, LittleEndian(x, 4))
  {
    ShiftedBytes32(x);
    destination[at] := x % 0x100;
    destination[at + 1] := x / 0x100 % 0x100;
    destination[at + 2] := x / 0x1_0000 % 0x100;
    destination[at + 3] := x / 0x100_0000 % 0x100;
  }

  method WriteU64(destination: array<byte>, at: nat, x: nat)
    requires at + 8 <= destination.Length && x < TWO_64
    modifies destination
    ensures destination[..] == Splice(old(destination[..]), at, LittleEndian(x, 8))
  {
    ShiftedBytes64(x);
    destination[at] := x % 0x100;
    destination[at + 1] := x / 0x100 % 0x100;
    destination[at + 2] := x / 0x1_0000 % 0x100;
    destination[at + 3] := x / 0x100_0000 % 0x100;
    destination[at + 4] := x / TWO_32 % 0x100;
    destination[at + 5] := x / 0x100_0000_0000 % 0x100;
    destination[at + 6] := x / 0x1_0000_0000_0000 % 0x100;
    destination[at + 7] := x / 0x100_0000_0000_0000 % 0x100;
  }

  method WriteMessageSize(message: array<byte>, size: nat)
    requires message.Length > N_MESSAGE_SIZE_AND_MODE && size < 0x400
    modifies message
    ensures message[..] == Splice(old(message[..]), 8, [size % 0x100, WithSizeBits(old(message[9]), size)])
  {
    message[N_MESSAGE_SIZE] := size % 0x100;
    message[N_MESSAGE_SIZE_AND_MODE] := WithSizeBits(message[N_MESSAGE_SIZE_AND_MODE], size);
  }

  method WriteMessageMode(message: array<byte>, mode: nat)
    requires message.Length > N_MESSAGE_SIZE_AND_MODE && mode < 64
    modifies message
    ensures message[..] == Splice(old(message[..]), 9, [WithModeBits(old(message[9]), mode)])
  {
    message[N_MESSAGE_SIZE_AND_MODE] := WithModeBits(message[N_MESSAGE_SIZE_AND_MODE], mode);
  }

  method CopyInto(destination: array<byte>, at: nat, data: seq<byte>)
    requires at + |data| <= destination.Length
    modifies destination
    ensures destination[..] == Splice(old(destination[..]), at, data)
  {
    forall i | 0 <= i < |data| {
      destination[at + i] := data[i];
    }
  }

  /** Writes a message over whatever the buffer held; bytes past the message stay as they were. */
  method WriteMessage(destination: array<byte>, m: Message)
    requires Writable(m) && N_MESSAGE_DATA + |m.data| <= destination.Length
    modifies destination
    ensures destination[..] == Splice(old(destination[..]), 0, Encode(m))
  {
    ghost var before := destination[..];
    WriteHeader(destination, m);
    CopyInto(destination, N_MESSAGE_DATA, m.data);
    assert destination[..] == (Header(m) + m.data) + before[N_MESSAGE_DATA + |m.data|..];
  }

  method WriteHeader(destination: array<byte>, m: Message)
    requires Writable(m) && N_MESSAGE_DATA <= destination.Length
    modifies destination
    ensures destination[..] == Header(m) + old(destination[N_MESSAGE_DATA..])
  {
    var size := N_MESSAGE_DATA + |m.data|;
    ghost var rest := destination[10..];
    WriteFront(destination, size, m.mode);
    var index, time, actor := m.index % TWO_64, m.time % TWO_64, m.actor % TWO_32;
    ghost var front := Checksum() + SizeAndMode(size, m.mode);
    SpliceThree(front, rest, LittleEndian(index, 8), LittleEndian(time, 8), LittleEndian(actor, 4));
    WriteU64(destination, N_MESSAGE_INDEX, index);
    WriteU64(destination, N_MESSAGE_TIME, time);
    WriteU32(destination, N_MESSAGE_ACTOR, actor);
    assert rest[20..] == old(destination[N_MESSAGE_DATA..]);
  }

  method WriteFront(destination: array<byte>, size: nat, mode: nat)
    requires size < 0x400 && mode < 64 && N_MESSAGE_DATA <= destination.Length
    modifies destination
    ensures destination[..] == (Checksum() + SizeAndMode(size, mode)) + old(destination[10..])
  {
    ghost var shared: int := destination[9];
    hide LittleEndian, WithSizeBits, WithModeBits, Splice;
    ghost var before := destination[..];
    SettersCommute(shared, size, mode);
    FrontSplices(before, Checksum(), size % 0x100, WithSizeBits(shared, size),
        WithModeBits(WithSizeBits(shared, size), mode));
    WriteU64(destination, N_MESSAGE_CHECKSUM, 0);
    assert destination[9] == destination[..][9];
    WriteMessageSize(destination, size);
    assert destination[9] == destination[..][9];
    WriteMessageMode(destination, mode);
  }

  lemma FrontSplices(s: seq<byte>, checksum: seq<byte>, low: byte, first: byte, second: byte)
    requires |s| >= 10 && |checksum| == 8
    ensures Splice(s, 0, checksum)[9] == s[9]
    ensures Splice(Splice(s, 0, checksum), 8, [low, first])[9] == first
    ensures Splice(Splice(Splice(s, 0, checksum), 8, [low, first]), 9, [second]) == (checksum + [low, second]) + s[10..]
  {
  }
}
