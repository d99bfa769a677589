/** The bytes the host application writes per frame (pc_app/ambilight.py):
    the constant header built once by the constructor, followed by
    `output.tobytes()`, the 73 x 3 uint8 array in row-major order. */
module WireFrame {
  import opened Common
  import opened Adalight
  import opened Colors
  import opened Layout

  /** The header announcing `count + 1` LEDs: `hi = (count >> 8) & 0xFF`,
      `lo = count & 0xFF`, then `hi ^ lo ^ 0x55`. */
  function HeaderFor(count: nat): (h: seq<byte>)
    ensures |h| == HeaderLength && h[..3] == Prefix
    ensures h[3] as int * 256 + h[4] as int == count % 0x1_0000
    ensures h[5] == Checksum(h[3], h[4])
  {
    var hi := (count / 256) % 256;
    var lo := count % 256;
    CountBytes(count);
    Prefix + [hi, lo, Checksum(hi, lo)]
  }

  /** The high and low byte of the low 16 bits of `count`. */
  lemma CountBytes(count: nat)
    ensures ((count / 256) % 256) * 256 + count % 256 == count % 0x1_0000
  {
    var q, r := count / 256, count % 256;
    assert count == 256 * q + r;
    assert q == 256 * (q / 256) + q % 256;
    assert count == 0x1_0000 * (q / 256) + (256 * (q % 256) + r);
  }

  /** `self.header`: NUM_LEDS_TOTAL - 1 = 72 is announced. */
  function Header(): seq<byte>
  {
    HeaderFor(NumLedsTotal - 1)
  }

  /** The header as it appears on the wire: "Ada", 0x00, 0x48, 0x1D. */
  lemma HeaderBytes()
    ensures Header() == [0x41, 0x64, 0x61, 0x00, 0x48, 0x1D]
  {
    HeaderForBytes(NumLedsTotal - 1);
  }

  /** Counts below 256 have a zero high byte. */
  lemma HeaderForSmall(count: nat)
    requires count < 256
    ensures HeaderFor(count)[3] == 0 && HeaderFor(count)[4] == count
  {
  }

  lemma HeaderForBytes(count: nat)
    requires count == 72
    ensures HeaderFor(count) == [0x41, 0x64, 0x61, 0x00, 0x48, 0x1D]
  {
    HeaderForSmall(count);
    var h := HeaderFor(count);
    assert h[5] == 0x1D by {
      ChecksumValues();
    }
    assert h[0] == 0x41 && h[1] == 0x64 && h[2] == 0x61 by {
      assert h[..3] == Prefix;
      assert h[0] == Prefix[0] && h[1] == Prefix[1] && h[2] == Prefix[2];
    }
    assert h == [h[0], h[1], h[2], h[3], h[4], h[5]];
  }

  /** `tobytes()` of an (n, 3) uint8 array: R, G, B of LED 0, then of LED 1,
      and so on. */
  function Payload(colors: seq<Rgb8>): (p: seq<byte>)
    ensures |p| == 3 * |colors|
    ensures forall k :: 0 <= k < |colors| ==>
      p[3 * k] == colors[k].r && p[3 * k + 1] == colors[k].g && p[3 * k + 2] == colors[k].b
  {
    if colors == [] then []
    else
      var c := colors[0];
      var rest := Payload(colors[1..]);
      assert forall k :: 1 <= k < |colors| ==> colors[k] == colors[1..][k - 1];
      [c.r, c.g, c.b] + rest
  }

  /** `self.header + colors.tobytes()`: the header, then byte
      `6 + 3k + c` is channel `c` of LED `k`. */
  function Frame(colors: seq<Rgb8>): (f: seq<byte>)
    ensures |f| == HeaderLength + 3 * |colors| && f[..HeaderLength] == Header()
    ensures forall k :: 0 <= k < |colors| ==>
      f[HeaderLength + 3 * k] == colors[k].r && f[HeaderLength + 3 * k + 1] == colors[k].g
      && f[HeaderLength + 3 * k + 2] == colors[k].b
  {
    Header() + Payload(colors)
  }

  /** A frame of the full strip is 6 + 3 * 73 = 225 bytes long, and byte
      `6 + 3k + c` is channel `c` of LED `k`. */
  lemma FrameLayout(colors: seq<Rgb8>)
    requires |colors| == NumLedsTotal
    ensures |Frame(colors)| == 225
    ensures Frame(colors)[..HeaderLength] == [0x41, 0x64, 0x61, 0x00, 0x48, 0x1D]
    ensures forall k :: 0 <= k < |colors| ==>
      Frame(colors)[HeaderLength + 3 * k] == colors[k].r
      && Frame(colors)[HeaderLength + 3 * k + 1] == colors[k].g
      && Frame(colors)[HeaderLength + 3 * k + 2] == colors[k].b
  {
    HeaderBytes();
    assert Frame(colors)[..HeaderLength] == Header();
  }

  /** The frame `cleanup` sends: the header and 219 zero bytes. */
  lemma BlackoutFrame()
    ensures Frame(seq(NumLedsTotal, _ => Rgb8(0, 0, 0))) == Header() + seq(3 * NumLedsTotal, _ => 0)
  {
    var black := seq(NumLedsTotal, _ => Rgb8(0, 0, 0));
    var p := Payload(black);
    forall i | 0 <= i < 3 * NumLedsTotal
      ensures p[i] == 0
    {
      var k := i / 3;
      assert black[k] == Rgb8(0, 0, 0);
      assert i == 3 * k || i == 3 * k + 1 || i == 3 * k + 2;
    }
  }
}
