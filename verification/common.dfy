/** Small shared vocabulary: unsigned bytes, bitwise XOR on them, and an
    optional value for operations of the source that can fail. */
module Common {

  /** An unsigned 8-bit value (uint8_t in the firmware, a Python int in 0..255 on the host). */
  type byte = x: int | 0 <= x < 256

  datatype Option<T> = None | Some(value: T)

  /** Bitwise exclusive or of the low `n` bits of `a` and `b`. */
  function XorBits(a: nat, b: nat, n: nat): (r: nat)
    ensures r < Pow2(n)
  {
    if n == 0 then 0
    else (if a % 2 == b % 2 then 0 else 1) + 2 * XorBits(a / 2, b / 2, n - 1)
  }

  function Pow2(n: nat): (p: nat)
    ensures p > 0
  {
    if n == 0 then 1 else 2 * Pow2(n - 1)
  }

  /** Bitwise exclusive or of two bytes (`^` in both C++ and Python). */
  function Xor(a: byte, b: byte): byte
  {
    ByteWidth();
    XorBits(a, b, ByteBits)
  }

  /** Bits in a byte. */
  const ByteBits: nat := 8

  lemma ByteWidth()
    ensures Pow2(ByteBits) == 256
  {
  }

  /** XOR with the same `b` twice gives back the low `n` bits of `a`. */
  lemma {:induction false} XorSelfInverse(a: nat, b: nat, n: nat)
    ensures XorBits(XorBits(a, b, n), b, n) == a % Pow2(n)
  {
    if n > 0 {
      var bit := if a % 2 == b % 2 then 0 else 1;
      var rest := XorBits(a / 2, b / 2, n - 1);
      var x := bit + 2 * rest;
      assert XorBits(a, b, n) == x;
      DigitSplit(bit, rest);
      assert XorBits(x, b, n) == a % 2 + 2 * XorBits(rest, b / 2, n - 1);
      XorSelfInverse(a / 2, b / 2, n - 1);
      SplitLowBit(a, Pow2(n - 1));
    }
  }

  /** The low bit and the rest of `bit + 2 * rest`. */
  lemma DigitSplit(bit: nat, rest: nat)
    requires bit < 2
    ensures (bit + 2 * rest) % 2 == bit && (bit + 2 * rest) / 2 == rest
  {
  }

  /** Taking `a` modulo `2p` keeps its low bit and `a / 2` modulo `p`. */
  lemma SplitLowBit(a: nat, p: nat)
    requires p > 0
    ensures a % (2 * p) == a % 2 + 2 * ((a / 2) % p)
  {
    var h, q := a / 2, (a / 2) / p;
    var r := a % 2 + 2 * (h % p);
    assert a == 2 * h + a % 2;
    assert h == p * q + h % p;
    assert a == (2 * p) * q + r by {
      assert 2 * h == 2 * (p * q) + 2 * (h % p);
      assert 2 * (p * q) == (2 * p) * q;
    }
    ModUnique(a, 2 * p, q, r);
  }

  /** The remainder is the only `r` in [0, m) with `a == m * q + r`. */
  lemma ModUnique(a: nat, m: nat, q: nat, r: nat)
    requires 0 <= r < m && a == m * q + r
    ensures a % m == r
  {
    var d := q - a / m;
    assert a == m * (a / m) + a % m;
    assert m * d == m * q - m * (a / m);
    MulSign(m, d);
  }

  /** A non-zero multiple of `m` is at least `m` away from zero. */
  lemma MulSign(m: nat, d: int)
    requires m > 0
    ensures d >= 1 ==> m * d >= m
    ensures d <= -1 ==> m * d <= -(m as int)
  {
    if d >= 1 {
      var e: nat := d - 1;
      assert m * d == m * e + m;
    } else if d <= -1 {
      var e: nat := -d - 1;
      assert m * d == -(m * e) - m;
    }
  }

  /** XOR of two bytes is symmetric. */
  lemma {:induction false} XorCommutes(a: nat, b: nat, n: nat)
    ensures XorBits(a, b, n) == XorBits(b, a, n)
  {
    if n > 0 {
      XorCommutes(a / 2, b / 2, n - 1);
    }
  }

  /** XOR-ing the same byte in twice changes nothing. */
  lemma XorTwice(x: byte, k: byte)
    ensures Xor(Xor(x, k), k) == x
  {
    ByteWidth();
    XorSelfInverse(x, k, ByteBits);
  }

  /** XOR with a fixed byte never maps two different bytes to one. */
  lemma XorInjective(a: byte, a2: byte, c: byte)
    requires Xor(a, c) == Xor(a2, c)
    ensures a == a2
  {
    ByteWidth();
    XorInjectiveBits(a, a2, c, ByteBits);
  }

  lemma XorInjectiveBits(a: nat, a2: nat, c: nat, n: nat)
    requires a < Pow2(n) && a2 < Pow2(n) && XorBits(a, c, n) == XorBits(a2, c, n)
    ensures a == a2
  {
    XorSelfInverse(a, c, n);
    XorSelfInverse(a2, c, n);
  }
}
