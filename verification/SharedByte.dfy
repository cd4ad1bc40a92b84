/** The byte that carries bits 8 and 9 of a message's size in its low two bits and the mode in
    its high six, as arithmetic, and the proof that the arithmetic is what the C code's masks
    and shifts compute. */
module SharedByte {

  /** Replaces the low two bits by bits 8 and 9 of the size. */
  function WithSizeBits(shared: int, size: nat): (r: int)
    requires 0 <= shared < 0x100
    ensures 0 <= r < 0x100 && r % 4 == size / 0x100 % 4 && r / 4 == shared / 4
  {
    shared / 4 * 4 + size / 0x100 % 4
  }

  /** Replaces the high six bits by the mode. */
  function WithModeBits(shared: int, mode: nat): (r: int)
    requires 0 <= shared < 0x100 && mode < 64
    ensures 0 <= r < 0x100 && r % 4 == shared % 4 && r / 4 == mode
  {
    shared % 4 + mode * 4
  }

  /** Neither setter disturbs the other, whatever the byte held before and whichever runs first. */
  lemma SettersCommute(shared: int, size: nat, mode: nat)
    requires 0 <= shared < 0x100 && size < 0x400 && mode < 64
    ensures WithModeBits(WithSizeBits(shared, size), mode) == size / 0x100 + mode * 4
    ensures WithSizeBits(WithModeBits(shared, mode), size) == size / 0x100 + mode * 4
  {
  }

  lemma SizeSetterBits(shared: bv8, size: bv16)
    ensures ((shared & 0xfc) | (((size >> 8) & 0x3) as bv8)) as int == WithSizeBits(shared as int, size as int)
  {
    MaskedByte(shared, ((size >> 8) & 0x3) as bv8);
    HighBits(size);
  }

  lemma ModeSetterBits(shared: bv8, mode: bv8)
    requires mode & 0xc0 == 0
    ensures mode as int < 64
    ensures ((shared & 0x3) | (mode << 2)) as int == WithModeBits(shared as int, mode as int)
  {
    assert (shared & 0x3) | (mode << 2) == (shared & 0x3) + (mode << 2);
    assert mode < 64;
    assert (mode << 2) as int == mode as int * 4;
    LowTwoBits(shared);
  }

  lemma ReaderBits(low: bv8, shared: bv8)
    ensures ((low as bv16) | (((shared as bv16) & 0x3) << 8)) as int == low as int + shared as int % 4 * 0x100
    ensures (shared >> 2) as int == shared as int / 4
  {
    var high := shared & 0x3;
    LowTwoBits(shared);
    assert ((shared as bv16) & 0x3) == high as bv16;
    JoinBits(low, high);
    assert (shared >> 2) as int == shared as int / 4;
  }

  lemma MaskedByte(shared: bv8, bits: bv8)
    requires bits < 4
    ensures ((shared & 0xfc) | bits) as int == shared as int / 4 * 4 + bits as int
  {
    var top := shared >> 2;
    assert top as int == shared as int / 4;
    assert top < 64;
    assert (top << 2) as int == top as int * 4;
    assert (shared & 0xfc) | bits == (top << 2) | bits;
    assert ((top << 2) | bits) as int == (top << 2) as int + bits as int;
  }

  lemma HighBits(size: bv16)
    ensures (((size >> 8) & 0x3) as bv8) as int == size as int / 0x100 % 4
  {
    var top := (size >> 8) as bv8;
    HighByte(size);
    LowTwoBits(top);
    assert ((size >> 8) & 0x3) as bv8 == top & 0x3;
  }

  lemma HighByte(size: bv16)
    ensures ((size >> 8) as bv8) as int == size as int / 0x100
  {
    assert (size >> 8) as int == size as int / 0x100;
  }

  lemma LowTwoBits(x: bv8)
    ensures (x & 0x3) as int == x as int % 4
  {
  }

  lemma JoinBits(low: bv8, high: bv8)
    requires high < 4
    ensures ((low as bv16) | ((high as bv16) << 8)) as int == low as int + high as int * 0x100
  {
  }
}
