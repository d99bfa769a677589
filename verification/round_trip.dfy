/** The two ends of the serial line together: a frame built by the host
    application (pc_app/ambilight.py) is accepted by the firmware's parser
    (src/main.cpp), which recovers the LED count and every colour. */
module RoundTrip {
  import opened Common
  import opened Adalight
  import opened Firmware
  import opened Colors
  import opened WireFrame
  import Layout

  /** Any header the host can build passes the firmware's checksum; the
      announced count `count + 1` is taken modulo 2^16 and clamped to the
      strip, so 65536 LEDs wrap around to none. */
  lemma HeaderAccepted(count: nat, rest: seq<byte>)
    ensures Parse(HeaderFor(count) + rest).Header?
    ensures Parse(HeaderFor(count) + rest).payloadAt == HeaderLength
    ensures count % UInt16Modulus < NumLeds ==>
      Parse(HeaderFor(count) + rest).numLeds == count % UInt16Modulus + 1
    ensures NumLeds <= count % UInt16Modulus < UInt16Modulus - 1 ==>
      Parse(HeaderFor(count) + rest).numLeds == NumLeds
    ensures count % UInt16Modulus == UInt16Modulus - 1 ==>
      Parse(HeaderFor(count) + rest).numLeds == 0
  {
    var h := HeaderFor(count);
    var s := h + rest;
    assert h[0] == Prefix[0] && h[1] == Prefix[1] && h[2] == Prefix[2] by {
      assert h[..3] == Prefix;
    }
    assert s[0] == h[0] && s[1] == h[1] && s[2] == h[2];
    assert s[3] == h[3] && s[4] == h[4] && s[5] == h[5];
    assert Scan(s, 0, 0) == Scan(s, 1, 1) == Scan(s, 2, 2) == Header(6, DecodeCount(s[3], s[4]));
  }

  /** The strip showing the host's colours in RGBW form, dark past the
      last colour given. */
  function Shown(colors: seq<Rgb8>): (leds: seq<Rgbw>)
    ensures |leds| == NumLeds
  {
    seq(NumLeds, k requires 0 <= k < NumLeds =>
      if k < |colors| then ToRgbw(colors[k].r, colors[k].g, colors[k].b) else Off)
  }

  /** A frame for 1 to 73 LEDs, followed by any further bytes: the parser
      accepts its header, all of its pixel data has arrived, and the LEDs
      it announces show the host's colours split into RGBW while the rest
      of the strip is dark. */
  lemma FrameDecodes(colors: seq<Rgb8>, rest: seq<byte>)
    requires 1 <= |colors| <= NumLeds
    ensures var s := HeaderFor(|colors| - 1) + Payload(colors) + rest;
      Parse(s) == Header(HeaderLength, |colors|) && Complete(s, Parse(s))
      && Decoded(s, HeaderLength, |colors|) == Shown(colors)
  {
    var s := HeaderFor(|colors| - 1) + Payload(colors) + rest;
    FrameHeader(colors, rest);
    forall k | 0 <= k < NumLeds
      ensures Decoded(s, HeaderLength, |colors|)[k] == Shown(colors)[k]
    {
      PixelAfterFrame(colors, rest, k);
    }
  }

  /** Pixel `k` of the buffer after a host frame. */
  lemma PixelAfterFrame(colors: seq<Rgb8>, rest: seq<byte>, k: nat)
    requires 1 <= |colors| <= NumLeds
    ensures PixelAfter(HeaderFor(|colors| - 1) + Payload(colors) + rest, HeaderLength, |colors|, k)
         == if k < |colors| then ToRgbw(colors[k].r, colors[k].g, colors[k].b) else Off
  {
    if k < |colors| {
      PayloadTriple(HeaderFor(|colors| - 1), colors, rest, k);
    }
  }

  /** The header part of FrameDecodes. */
  lemma FrameHeader(colors: seq<Rgb8>, rest: seq<byte>)
    requires 1 <= |colors| <= NumLeds
    ensures var s := HeaderFor(|colors| - 1) + Payload(colors) + rest;
      Parse(s) == Header(HeaderLength, |colors|) && Complete(s, Parse(s))
  {
    var count := |colors| - 1;
    var h := HeaderFor(count);
    var p := Payload(colors);
    assert h + p + rest == h + (p + rest);
    HeaderAccepted(count, p + rest);
    SmallMod(count);
    var r := Parse(h + (p + rest));
    assert r.numLeds == |colors|;
    assert r == Header(HeaderLength, |colors|);
  }

  lemma SmallMod(x: nat)
    requires x < UInt16Modulus
    ensures x % UInt16Modulus == x
  {
  }

  /** Triple `k` after the header is the host's `k`-th colour. */
  lemma PayloadTriple(h: seq<byte>, colors: seq<Rgb8>, rest: seq<byte>, k: nat)
    requires k < |colors|
    ensures |h| + 3 * k + 3 <= |h + Payload(colors) + rest|
    ensures TripleAt(h + Payload(colors) + rest, |h|, k) == ToRgbw(colors[k].r, colors[k].g, colors[k].b)
  {
    var p := Payload(colors);
    var s := h + p + rest;
    assert s[|h| + 3 * k] == p[3 * k];
    assert s[|h| + 3 * k + 1] == p[3 * k + 1];
    assert s[|h| + 3 * k + 2] == p[3 * k + 2];
  }

  /** The frame the host sends every cycle: 73 LEDs, and LED `k` of the
      strip gives back the host's `k`-th triple once its white channel is
      added back to each colour channel. */
  lemma HostFrameRoundTrip(colors: seq<Rgb8>, rest: seq<byte>)
    requires |colors| == Layout.NumLedsTotal
    ensures var s := Frame(colors) + rest;
      Parse(s) == Header(HeaderLength, NumLeds) && Complete(s, Parse(s))
      && forall k :: 0 <= k < NumLeds ==>
           var led := Decoded(s, HeaderLength, NumLeds)[k];
           led.r + led.w == colors[k].r && led.g + led.w == colors[k].g
           && led.b + led.w == colors[k].b
  {
    FrameDecodes(colors, rest);
  }

  /** The firmware fed one host frame: a fresh controller receives the
      frame's bytes and runs loop() once; the frame is shown and every LED
      holds the host's colour in RGBW form. */
  method HostToStrip(colors: seq<Rgb8>, ambient: Rgbw, now: nat) returns (shown: bool, leds: seq<Rgbw>)
    requires |colors| == NumLeds && now < ULongModulus
    ensures shown
    ensures leds == Shown(colors)
    ensures forall k :: 0 <= k < NumLeds ==>
      leds[k].r + leds[k].w == colors[k].r && leds[k].g + leds[k].w == colors[k].g
      && leds[k].b + leds[k].w == colors[k].b
  {
    var frame := Frame(colors);
    assert frame == HeaderFor(|colors| - 1) + Payload(colors) + [];
    FrameDecodes(colors, []);
    var c := new Controller(ambient);
    c.Receive(frame);
    assert c.rx == frame;
    shown := c.Loop(now);
    leds := c.leds[..];
  }
}
