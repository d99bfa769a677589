/** The microcontroller firmware (src/main.cpp): it reads Adalight frames
    from the serial line into a buffer of 73 RGBW pixels, and between frames
    falls back to an ambient colour and finally fades the strip out.

    The serial line is the byte sequence `rx` of received but unread bytes;
    `Serial.read()` takes its first element. The frame parser is specified by
    the function `Parse` over those bytes, and the method `Loop` (the
    firmware's `loop()`) is proved to follow it. */
module Firmware {
  import opened Common
  import opened Adalight

  /** NUM_LEDS: pixels on the strip (19 + 35 + 19). */
  const NumLeds: nat := 73
  /** IDLE_TIMEOUT in milliseconds: after this the ambient colour is shown. */
  const IdleTimeout: nat := 5000
  /** OFF_TIMEOUT in milliseconds: after this the strip fades out. */
  const OffTimeout: nat := 600000
  /** BRIGHTNESS: the brightness restored by every frame. */
  const FullBrightness: byte := 255
  /** `unsigned long` (millis()) is 32 bits wide on the target. */
  const ULongModulus: nat := 0x1_0000_0000
  /** `numLeds` is a uint16_t. */
  const UInt16Modulus: nat := 0x1_0000

  /** One SK6812 pixel. */
  datatype Rgbw = Rgbw(r: byte, g: byte, b: byte, w: byte)

  /** The all-zero pixel that memset leaves behind. */
  const Off := Rgbw(0, 0, 0, 0)

  function Min(a: byte, b: byte): byte
  {
    if a <= b then a else b
  }

  /** RGB to RGBW: the white channel takes the common part of r, g and b
      and is subtracted from each of them. */
  function ToRgbw(r: byte, g: byte, b: byte): (c: Rgbw)
    ensures c.w <= r && c.w <= g && c.w <= b
    ensures c.r == 0 || c.g == 0 || c.b == 0
    ensures c.r + c.w == r && c.g + c.w == g && c.b + c.w == b
  {
    var w := Min(Min(r, g), b);
    Rgbw(r - w, g - w, b - w, w)
  }

  /** The number of pixels a header announces: `(hi << 8 | lo) + 1` in a
      uint16_t (so 0xFFFF + 1 wraps to 0), then clamped to NUM_LEDS. */
  function DecodeCount(hi: byte, lo: byte): (n: nat)
    ensures n <= NumLeds
    ensures hi * 256 + lo < NumLeds ==> n == hi * 256 + lo + 1
    ensures NumLeds <= hi * 256 + lo < UInt16Modulus - 1 ==> n == NumLeds
    ensures hi * 256 + lo == UInt16Modulus - 1 ==> n == 0
  {
    var numLeds := (hi * 256 + lo + 1) % UInt16Modulus;
    if numLeds > NumLeds then NumLeds else numLeds
  }

  /** Where the parser stands once it has accepted a header. */
  datatype Parsed =
    | NoHeader                              // the bytes ran out before a header was accepted
    | Header(payloadAt: nat, numLeds: nat)  // pixel data starts at payloadAt

  /** The last `k` bytes before `pos` are the first `k` bytes of "Ada". */
  predicate Matched(s: seq<byte>, pos: nat, k: nat)
  {
    k < |Prefix| && k <= pos <= |s|
    && (1 <= k ==> s[pos - 1] == Prefix[k - 1])
    && (2 <= k ==> s[pos - 2] == Prefix[k - 2])
  }

  /** A header with a valid checksum ends just before `at`. */
  predicate HeaderEndsAt(s: seq<byte>, at: nat)
  {
    HeaderLength <= at <= |s|
    && s[at - 6] == Prefix[0] && s[at - 5] == Prefix[1] && s[at - 4] == Prefix[2]
    && s[at - 1] == Checksum(s[at - 3], s[at - 2])
  }

  /** The header search of `loop()`: `k` bytes of "Ada" have been matched
      and `pos` is the next unread byte. A byte that does not match resets
      `k` to 0 and is consumed (it is not compared against 'A' again); a
      header whose checksum fails is dropped and the search restarts after
      its checksum byte. */
  function Scan(s: seq<byte>, k: nat, pos: nat): (p: Parsed)
    requires Matched(s, pos, k)
    ensures p.Header? ==>
      pos - k + HeaderLength <= p.payloadAt && HeaderEndsAt(s, p.payloadAt)
      && p.numLeds == DecodeCount(s[p.payloadAt - 3], s[p.payloadAt - 2])
    decreases |s| - pos
  {
    if pos == |s| then NoHeader
    else
      var k' := if s[pos] == Prefix[k] then k + 1 else 0;
      if k' < |Prefix| then Scan(s, k', pos + 1)
      else if pos + 4 > |s| then NoHeader
      else if s[pos + 3] != Checksum(s[pos + 1], s[pos + 2]) then Scan(s, 0, pos + 4)
      else Header(pos + 4, DecodeCount(s[pos + 1], s[pos + 2]))
  }

  /** The header the firmware accepts first in the byte stream `s`. */
  function Parse(s: seq<byte>): Parsed
  {
    Scan(s, 0, 0)
  }

  /** A frame whose pixel data has fully arrived. */
  predicate Complete(s: seq<byte>, p: Parsed)
  {
    p.Header? && p.payloadAt + 3 * p.numLeds <= |s|
  }

  /** The pixel that the `j`-th RGB triple after `at` becomes. */
  function TripleAt(s: seq<byte>, at: nat, j: nat): Rgbw
    requires at + 3 * j + 3 <= |s|
  {
    ToRgbw(s[at + 3 * j], s[at + 3 * j + 1], s[at + 3 * j + 2])
  }

  /** The LED buffer after a header at `at` announcing `numLeds` pixels:
      cleared, then filled with every triple that has arrived. */
  function Decoded(s: seq<byte>, at: nat, numLeds: nat): (leds: seq<Rgbw>)
    ensures |leds| == NumLeds
    ensures forall j :: numLeds <= j < NumLeds ==> leds[j] == Off
    ensures forall j :: 0 <= j < NumLeds && j < numLeds && at + 3 * j + 3 <= |s| ==>
      leds[j].r + leds[j].w == s[at + 3 * j] && leds[j].g + leds[j].w == s[at + 3 * j + 1]
      && leds[j].b + leds[j].w == s[at + 3 * j + 2]
    ensures forall j :: 0 <= j < NumLeds && j < numLeds && at + 3 * j + 3 <= |s| ==>
      leds[j] == ToRgbw(s[at + 3 * j], s[at + 3 * j + 1], s[at + 3 * j + 2])
  {
    seq(NumLeds, j requires 0 <= j < NumLeds => PixelAfter(s, at, numLeds, j))
  }

  /** Pixel `j` of `Decoded(s, at, numLeds)`. */
  function PixelAfter(s: seq<byte>, at: nat, numLeds: nat, j: nat): Rgbw
  {
    if j < numLeds && at + 3 * j + 3 <= |s| then TripleAt(s, at, j) else Off
  }

  /** A strip on which every pixel shows `c`. */
  function Uniform(c: Rgbw): (leds: seq<Rgbw>)
    ensures |leds| == NumLeds
  {
    seq(NumLeds, _ => c)
  }

  /** `millis() - lastDataTime` in unsigned 32-bit arithmetic: the time since
      the last frame even when the millisecond counter has wrapped around. */
  function Elapsed(now: nat, last: nat): (e: nat)
    requires now < ULongModulus && last < ULongModulus
    ensures e < ULongModulus
    ensures (last + e) % ULongModulus == now
    ensures last <= now ==> e == now - last
  {
    (now - last) % ULongModulus
  }

  /** One step of the long-idle fade: one less, never below zero. */
  function Fade(b: byte): (r: byte)
    ensures r <= b && b - r <= 1
    ensures r == b <==> b == 0
  {
    if b > 0 then b - 1 else 0
  }

  /** Brightness after `n` long-idle calls of checkConnection(). */
  function FadeSteps(b: byte, n: nat): byte
  {
    if n == 0 then b else FadeSteps(Fade(b), n - 1)
  }

  /** The fade goes down one step per call and stops at zero: from any
      brightness the strip is dark after 255 calls. */
  lemma {:induction false} FadeReachesOff(b: byte, n: nat)
    ensures FadeSteps(b, n) == if n < b then b - n else 0
  {
    if n > 0 {
      FadeReachesOff(Fade(b), n - 1);
    }
  }

  /** The sync quirk: in "AAda" the second 'A' breaks the match and is not
      taken as a new start, so the header that follows is missed. */
  lemma RepeatedLeadByteMissesHeader()
    ensures Parse([65, 100, 97, 0, 0, 0x55]) == Header(6, 1)
    ensures Parse([65, 65, 100, 97, 0, 0, 0x55]) == NoHeader
  {
    ChecksumValues();
  }

  /** The sync quirk for every stream: after an 'A', any byte other than
      'd' is consumed together with the 'A', so the search goes on from the
      third byte exactly as if the stream began there. */
  lemma LeadByteThenMismatch(x: byte, rest: seq<byte>)
    requires x != Prefix[1]
    ensures Parse([Prefix[0], x] + rest) == Shifted(Parse(rest), 2)
  {
    var t := [Prefix[0], x] + rest;
    assert Scan(t, 0, 0) == Scan(t, 1, 1) == Scan(t, 0, 2);
    ScanShift([Prefix[0], x], rest, 0, 0);
  }

  /** Moves a parse result `d` bytes further into the stream. */
  function Shifted(p: Parsed, d: nat): (q: Parsed)
    ensures q.Header? <==> p.Header?
    ensures q.Header? ==> q.payloadAt == p.payloadAt + d && q.numLeds == p.numLeds
  {
    match p
    case NoHeader => NoHeader
    case Header(at, n) => Header(at + d, n)
  }

  /** The search does not depend on bytes it has already passed: running it
      after a prefix `pre` gives the same header, shifted by |pre|. */
  lemma {:induction false} ScanShift(pre: seq<byte>, s: seq<byte>, k: nat, pos: nat)
    requires Matched(s, pos, k)
    ensures Matched(pre + s, |pre| + pos, k)
    ensures Scan(pre + s, k, |pre| + pos) == Shifted(Scan(s, k, pos), |pre|)
    decreases |s| - pos, 1
  {
    var t := pre + s;
    assert k >= 1 ==> t[|pre| + pos - 1] == s[pos - 1];
    assert k >= 2 ==> t[|pre| + pos - 2] == s[pos - 2];
    if pos < |s| {
      if s[pos] == Prefix[k] && k + 1 == |Prefix| {
        HeaderShift(pre, s, k, pos);
      } else {
        var k' := if s[pos] == Prefix[k] then k + 1 else 0;
        assert t[|pre| + pos] == s[pos];
        ScanShift(pre, s, k', pos + 1);
      }
    }
  }

  /** ScanShift once "Ada" has just been completed at `pos`. */
  lemma {:induction false} HeaderShift(pre: seq<byte>, s: seq<byte>, k: nat, pos: nat)
    requires Matched(s, pos, k) && pos < |s| && s[pos] == Prefix[k] && k + 1 == |Prefix|
    ensures Matched(pre + s, |pre| + pos, k)
    ensures Scan(pre + s, k, |pre| + pos) == Shifted(Scan(s, k, pos), |pre|)
    decreases |s| - pos, 0
  {
    var t := pre + s;
    assert t[|pre| + pos - 1] == s[pos - 1];
    assert t[|pre| + pos - 2] == s[pos - 2];
    assert t[|pre| + pos] == s[pos];
    if pos + 4 <= |s| {
      assert t[|pre| + pos + 1] == s[pos + 1];
      assert t[|pre| + pos + 2] == s[pos + 2];
      assert t[|pre| + pos + 3] == s[pos + 3];
      if s[pos + 3] != Checksum(s[pos + 1], s[pos + 2]) {
        ScanShift(pre, s, 0, pos + 4);
      }
    }
  }

  /** A header with a wrong checksum is abandoned: the search restarts
      right after it, so its bytes never reach the LED buffer. */
  lemma ChecksumFailureRestarts(hi: byte, lo: byte, chk: byte, rest: seq<byte>)
    requires chk != Checksum(hi, lo)
    ensures Parse(Prefix + [hi, lo, chk] + rest) == Shifted(Parse(rest), HeaderLength)
  {
    var head := Prefix + [hi, lo, chk];
    var s := head + rest;
    assert s[0] == 'A' as int && s[1] == 'd' as int && s[2] == 'a' as int;
    assert s[3] == hi && s[4] == lo && s[5] == chk;
    assert Scan(s, 0, 0) == Scan(s, 1, 1) == Scan(s, 2, 2) == Scan(s, 0, 6);
    ScanShift(head, rest, 0, 0);
  }

  /** The first half of loop(): the goto-driven search for "Ada" followed
      by hi, lo and a checksum that holds. `found` is false when the bytes
      run out first; otherwise the pixel data starts at `pos`. */
  method AwaitHeader(s: seq<byte>) returns (found: bool, pos: nat, hi: byte, lo: byte)
    ensures found == Parse(s).Header?
    ensures found ==> Parse(s) == Header(pos, DecodeCount(hi, lo)) && pos <= |s|
  {
    var i := 0;
    pos := 0;
    while true
      invariant Matched(s, pos, i)
      invariant Scan(s, i, pos) == Parse(s)
      decreases |s| - pos
    {
      if pos == |s| {
        return false, pos, 0, 0;
      }
      var next := if s[pos] == Prefix[i] then i + 1 else 0;
      if next < |Prefix| {
        i, pos := next, pos + 1;
      } else {
        if pos + 4 > |s| {
          return false, pos, 0, 0;
        }
        hi, lo := s[pos + 1], s[pos + 2];
        var chk := s[pos + 3];
        pos := pos + 4;
        if chk == Checksum(hi, lo) {
          return true, pos, hi, lo;
        }
        i := 0;  // goto waitLoop: the search starts over
      }
    }
  }

  /** The firmware's global state. */
  class Controller {
    /** leds[]: the pixel buffer shown on the strip. */
    const leds: array<Rgbw>
    /** CRGB::SaddleBrown, the colour shown while idle. */
    const ambient: Rgbw
    /** millis() at the end of the last complete frame. */
    var lastDataTime: nat
    var currentBrightness: byte
    /** Bytes received on the serial line and not read yet. */
    var rx: seq<byte>

    ghost predicate Valid()
      reads this
    {
      leds.Length == NumLeds && lastDataTime < ULongModulus
    }

    /** The globals' initial values followed by setup(): a cleared buffer at
        full brightness. */
    constructor (ambient: Rgbw)
      ensures Valid() && fresh(leds)
      ensures leds[..] == Uniform(Off)
      ensures this.ambient == ambient
      ensures lastDataTime == 0 && currentBrightness == FullBrightness && rx == []
    {
      leds := new Rgbw[NumLeds](_ => Off);
      this.ambient := ambient;
      lastDataTime := 0;
      currentBrightness := FullBrightness;
      rx := [];
    }

    /** Bytes arriving on the serial line. */
    method Receive(bytes: seq<byte>)
      modifies this`rx
      ensures rx == old(rx) + bytes
    {
      rx := rx + bytes;
    }

    /** One run of loop(): search for a header, clear the buffer, read the
        announced pixels. Returns true when a whole frame was read; when the
        received bytes run out first it returns false at the point where the
        device would wait for more. */
    method Loop(now: nat) returns (shown: bool)
      requires Valid() && now < ULongModulus
      modifies this, leds
      ensures Valid()
      ensures shown == Complete(old(rx), Parse(old(rx)))
      ensures Parse(old(rx)).NoHeader? ==> leds[..] == old(leds[..])
      ensures Parse(old(rx)).Header? ==>
        leds[..] == Decoded(old(rx), Parse(old(rx)).payloadAt, Parse(old(rx)).numLeds)
      ensures shown ==>
        rx == old(rx)[Parse(old(rx)).payloadAt + 3 * Parse(old(rx)).numLeds..]
        && lastDataTime == now && currentBrightness == FullBrightness
      ensures !shown ==>
        rx == [] && lastDataTime == old(lastDataTime)
        && currentBrightness == old(currentBrightness)
    {
      var s := rx;
      var found, pos, hi, lo := AwaitHeader(s);
      if !found {
        rx := [];
        return false;
      }
      var numLeds := DecodeCount(hi, lo);
      var complete;
      pos, complete := ClearAndFill(s, pos, numLeds);
      if !complete {
        rx := [];
        return false;
      }
      rx := s[pos..];
      lastDataTime := now;
      currentBrightness := FullBrightness;
      shown := true;
    }

    /** The second half of loop(): memset the buffer, then read `numLeds`
        RGB triples from `s` starting at `at`, converting each to RGBW.
        `complete` is false when `s` ends first. */
    method ClearAndFill(s: seq<byte>, at: nat, numLeds: nat) returns (pos: nat, complete: bool)
      requires Valid() && at <= |s| && numLeds <= NumLeds
      modifies leds
      ensures leds[..] == Decoded(s, at, numLeds)
      ensures complete == (at + 3 * numLeds <= |s|)
      ensures complete ==> pos == at + 3 * numLeds
    {
      forall j | 0 <= j < NumLeds {
        leds[j] := Off;
      }
      pos, complete := Fill(s, at, numLeds);
      assert forall j :: 0 <= j < NumLeds ==> leds[j] == Decoded(s, at, numLeds)[j];
    }

    /** The per-pixel loop of loop() on a cleared buffer. */
    method Fill(s: seq<byte>, at: nat, numLeds: nat) returns (pos: nat, complete: bool)
      requires Valid() && at <= |s| && numLeds <= NumLeds
      requires forall j :: 0 <= j < NumLeds ==> leds[j] == Off
      modifies leds
      ensures forall j :: 0 <= j < NumLeds ==> leds[j] == PixelAfter(s, at, numLeds, j)
      ensures complete == (at + 3 * numLeds <= |s|)
      ensures complete ==> pos == at + 3 * numLeds
    {
      pos := at;
      var ledIdx := 0;
      while ledIdx < numLeds
        invariant ledIdx <= numLeds && pos == at + 3 * ledIdx && pos <= |s|
        invariant forall j :: 0 <= j < ledIdx ==> leds[j] == TripleAt(s, at, j)
        invariant forall j :: ledIdx <= j < NumLeds ==> leds[j] == Off
      {
        if pos + 3 > |s| {
          return pos, false;
        }
        leds[ledIdx] := TripleAt(s, at, ledIdx);  // r, g, b read in turn, then w = min
        pos, ledIdx := pos + 3, ledIdx + 1;
      }
      complete := true;
    }

    /** checkConnection(): what the firmware does while no byte is waiting.
        Past OFF_TIMEOUT the brightness fades one step per call; past
        IDLE_TIMEOUT every pixel shows the ambient colour; otherwise
        nothing changes. */
    method CheckConnection(now: nat)
      requires Valid() && now < ULongModulus
      modifies this`currentBrightness, leds
      ensures Valid()
      ensures Elapsed(now, lastDataTime) > OffTimeout ==>
        currentBrightness == Fade(old(currentBrightness)) && leds[..] == old(leds[..])
      ensures IdleTimeout < Elapsed(now, lastDataTime) <= OffTimeout ==>
        currentBrightness == old(currentBrightness) && leds[..] == Uniform(ambient)
      ensures Elapsed(now, lastDataTime) <= IdleTimeout ==>
        currentBrightness == old(currentBrightness) && leds[..] == old(leds[..])
    {
      var elapsed := Elapsed(now, lastDataTime);
      if elapsed > OffTimeout {
        if currentBrightness > 0 {
          currentBrightness := currentBrightness - 1;
        }
      } else if elapsed > IdleTimeout {
        for i := 0 to NumLeds
          invariant forall j :: 0 <= j < i ==> leds[j] == ambient
          invariant currentBrightness == old(currentBrightness)
        {
          leds[i] := ambient;
        }
        assert leds[..] == Uniform(ambient);
      }
    }
  }
}
