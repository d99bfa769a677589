/** The Adalight wire protocol shared by the host application and the
    firmware: a 6-byte header (the magic word "Ada", the high and low byte of
    LED-count minus one, and a checksum) followed by three bytes per LED. */
module Adalight {
  import opened Common

  /** The magic word "Ada" that starts every frame. */
  const Prefix: seq<byte> := ['A' as int, 'd' as int, 'a' as int]

  /** The constant folded into the checksum. */
  const ChecksumKey: byte := 0x55

  /** Header length in bytes: magic word, hi, lo, checksum. */
  const HeaderLength: nat := 6

  /** The checksum byte that must follow `hi` and `lo`. */
  function Checksum(hi: byte, lo: byte): byte
  {
    Xor(Xor(hi, lo), ChecksumKey)
  }

  /** XOR-ing the key back out of a checksum leaves `hi ^ lo`. */
  lemma ChecksumRemovesKey(hi: byte, lo: byte)
    ensures Xor(Checksum(hi, lo), ChecksumKey) == Xor(hi, lo)
  {
    XorTwice(Xor(hi, lo), ChecksumKey);
  }

  /** A single corrupted count byte always changes the checksum, so the
      firmware rejects the header. */
  lemma ChecksumDetectsByteError(hi: byte, lo: byte, hi2: byte, lo2: byte)
    requires (hi != hi2 && lo == lo2) || (hi == hi2 && lo != lo2)
    ensures Checksum(hi, lo) != Checksum(hi2, lo2)
  {
    if Checksum(hi, lo) == Checksum(hi2, lo2) {
      ChecksumRemovesKey(hi, lo);
      ChecksumRemovesKey(hi2, lo2);
      assert Xor(hi, lo) == Xor(hi2, lo2);
      if lo == lo2 {
        XorInjective(hi, hi2, lo);
      } else {
        XorCommutes(hi, lo, ByteBits);
        XorCommutes(hi2, lo2, ByteBits);
        XorInjective(lo, lo2, hi);
      }
    }
  }
  /** The two checksums this model needs as numbers: the header of a
      one-pixel frame and the header of a 73-pixel frame. */
  lemma ChecksumValues()
    ensures Checksum(0, 0) == 0x55
    ensures Checksum(0, 0x48) == 0x1D
  {
    XorZeroZero();
    XorZeroKey();
    XorZeroCount();
    XorCountKey();
  }

  /** XorBits(0, 0, 8) == 0: the intermediate values, bit by bit
      from the low end, keep the proof cheap. */
  lemma XorZeroZero()
    ensures XorBits(0, 0, 8) == 0
  {
    assert XorBits(0, 0, 0) == 0;
    assert XorBits(0, 0, 1) == 0;
    assert XorBits(0, 0, 2) == 0;
    assert XorBits(0, 0, 3) == 0;
    assert XorBits(0, 0, 4) == 0;
    assert XorBits(0, 0, 5) == 0;
    assert XorBits(0, 0, 6) == 0;
    assert XorBits(0, 0, 7) == 0;
  }

  /** XorBits(0, 85, 8) == 85: the intermediate values, bit by bit
      from the low end, keep the proof cheap. */
  lemma XorZeroKey()
    ensures XorBits(0, 85, 8) == 85
  {
    assert XorBits(0, 0, 0) == 0;
    assert XorBits(0, 0, 1) == 0;
    assert XorBits(0, 1, 2) == 1;
    assert XorBits(0, 2, 3) == 2;
    assert XorBits(0, 5, 4) == 5;
    assert XorBits(0, 10, 5) == 10;
    assert XorBits(0, 21, 6) == 21;
    assert XorBits(0, 42, 7) == 42;
  }

  /** XorBits(0, 72, 8) == 72: the intermediate values, bit by bit
      from the low end, keep the proof cheap. */
  lemma XorZeroCount()
    ensures XorBits(0, 72, 8) == 72
  {
    assert XorBits(0, 0, 0) == 0;
    assert XorBits(0, 0, 1) == 0;
    assert XorBits(0, 1, 2) == 1;
    assert XorBits(0, 2, 3) == 2;
    assert XorBits(0, 4, 4) == 4;
    assert XorBits(0, 9, 5) == 9;
    assert XorBits(0, 18, 6) == 18;
    assert XorBits(0, 36, 7) == 36;
  }

  /** XorBits(72, 85, 8) == 29: the intermediate values, bit by bit
      from the low end, keep the proof cheap. */
  lemma XorCountKey()
    ensures XorBits(72, 85, 8) == 29
  {
    assert XorBits(0, 0, 0) == 0;
    assert XorBits(0, 0, 1) == 0;
    assert XorBits(1, 1, 2) == 0;
    assert XorBits(2, 2, 3) == 0;
    assert XorBits(4, 5, 4) == 1;
    assert XorBits(9, 10, 5) == 3;
    assert XorBits(18, 21, 6) == 7;
    assert XorBits(36, 42, 7) == 14;
  }
}
