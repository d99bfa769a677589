/** The host application object `Ambilight` (pc_app/ambilight.py): the
    preallocated colour arrays, the smoothing state and the frames written to
    the serial port. The screen grabber and the serial port are replaced by
    inputs (the three shots, whether a write succeeds) and by the sequence
    `tx` of bytes written so far. */
module Host {
  import opened Common
  import opened Layout
  import opened Colors
  import opened Sampling
  import opened WireFrame

  function ClipColor(c: Color): Color
  {
    Color(Clip(c.r), Clip(c.g), Clip(c.b))
  }

  /** The smoothing state after one call of `process_colors` on `input`. */
  function NextState(firstFrame: bool, prev: seq<Color>, input: seq<Color>,
                     saturation: real, brightness: real, smoothing: real): (next: seq<Color>)
    requires |prev| == |input|
    ensures |next| == |input|
    ensures firstFrame ==> forall k :: 0 <= k < |input| ==> next[k] == Adjust(input[k], saturation, brightness)
    ensures !firstFrame ==> forall k :: 0 <= k < |input| ==>
      var target := Adjust(input[k], saturation, brightness);
      next[k].r - target.r == (1.0 - smoothing) * (prev[k].r - target.r)
      && next[k].g - target.g == (1.0 - smoothing) * (prev[k].g - target.g)
      && next[k].b - target.b == (1.0 - smoothing) * (prev[k].b - target.b)
  {
    seq(|input|, k requires 0 <= k < |input| =>
      Smooth(firstFrame, prev[k], Adjust(input[k], saturation, brightness), smoothing))
  }

  /** The uint8 output array for a smoothing state. */
  function Render(state: seq<Color>): (out: seq<Rgb8>)
    ensures |out| == |state|
    ensures forall k :: 0 <= k < |out| ==>
      out[k].r as real <= Clip(state[k].r) < out[k].r as real + 1.0
      && out[k].g as real <= Clip(state[k].g) < out[k].g as real + 1.0
      && out[k].b as real <= Clip(state[k].b) < out[k].b as real + 1.0
  {
    seq(|state|, k requires 0 <= k < |state| => Quantize(state[k]))
  }

  /** With smoothing 1 the output follows the adjusted input exactly, on
      the first frame as on every later one. */
  lemma NoSmoothingFollowsInput(firstFrame: bool, prev: seq<Color>, input: seq<Color>,
                                saturation: real, brightness: real)
    requires |prev| == |input|
    ensures Render(NextState(firstFrame, prev, input, saturation, brightness, 1.0))
         == Render(seq(|input|, k requires 0 <= k < |input| => Adjust(input[k], saturation, brightness)))
  {
    forall k | 0 <= k < |input|
      ensures NextState(firstFrame, prev, input, saturation, brightness, 1.0)[k]
           == Adjust(input[k], saturation, brightness)
    {
      FullAlphaFollowsInput(prev[k], Adjust(input[k], saturation, brightness));
    }
  }

  /** After the first frame, each LED's new state lies between its old
      state and its adjusted input, channel by channel. */
  lemma StateMovesTowardInput(prev: seq<Color>, input: seq<Color>,
                              saturation: real, brightness: real, smoothing: real, k: nat)
    requires |prev| == |input| && k < |input| && 0.0 <= smoothing <= 1.0
    ensures var next := NextState(false, prev, input, saturation, brightness, smoothing)[k];
      var target := Adjust(input[k], saturation, brightness);
      Between(next.r, prev[k].r, target.r) && Between(next.g, prev[k].g, target.g)
      && Between(next.b, prev[k].b, target.b)
  {
    BlendBetween(prev[k], Adjust(input[k], saturation, brightness), smoothing);
  }

  class Ambilight {
    /** The capture geometry computed by `_setup_monitor`. */
    const geometry: Geometry
    /** `min(fps, 60)`. */
    const targetFps: int
    /** `brightness / 255.0`. */
    const brightness: real
    const saturation: real
    /** The blend factor alpha of the temporal filter. */
    const smoothing: real
    /** The device name of the serial port. */
    const device: string
    /** The constant frame header. */
    const header: seq<byte>
    /** `self.colors`, `self.prev_colors` and `self.output`, 73 rows each. */
    const colors: array<Color>
    const prevColors: array<Color>
    const output: array<Rgb8>
    var firstFrame: bool
    var running: bool
    /** Whether the serial port is open (`serial.is_open`). */
    var portOpen: bool
    /** Every byte written to the serial port so far. */
    var tx: seq<byte>

    ghost predicate Valid()
      reads this
    {
      colors.Length == NumLedsTotal && prevColors.Length == NumLedsTotal
      && output.Length == NumLedsTotal
      && colors != prevColors
      && header == Header()
    }

    /** `__init__` for the selected monitor `mon` and the chosen port
        `device`: the frame-rate cap, the brightness scale, zeroed arrays,
        the first-frame flag and the prebuilt header. */
    constructor (mon: Monitor, device: string, fps: int, brightness: int,
                 saturation: real, smoothing: real)
      ensures Valid() && fresh(colors) && fresh(prevColors) && fresh(output)
      ensures geometry == SetupGeometry(mon) && this.device == device
      ensures targetFps == TargetFps(fps) && targetFps <= MaxFps
      ensures this.brightness == brightness as real / 255.0
      ensures this.saturation == saturation && this.smoothing == smoothing
      ensures colors[..] == prevColors[..] == seq(NumLedsTotal, _ => Color(0.0, 0.0, 0.0))
      ensures output[..] == seq(NumLedsTotal, _ => Rgb8(0, 0, 0))
      ensures firstFrame && !running && portOpen && tx == []
      ensures header == [0x41, 0x64, 0x61, 0x00, 0x48, 0x1D]
    {
      targetFps := TargetFps(fps);
      this.brightness := brightness as real / 255.0;
      this.saturation := saturation;
      this.smoothing := smoothing;
      running := false;
      geometry := SetupGeometry(mon);
      this.device := device;
      portOpen := true;
      prevColors := new Color[NumLedsTotal](_ => Color(0.0, 0.0, 0.0));
      colors := new Color[NumLedsTotal](_ => Color(0.0, 0.0, 0.0));
      output := new Rgb8[NumLedsTotal](_ => Rgb8(0, 0, 0));
      firstFrame := true;
      header := HeaderFor(NumLedsTotal - 1);
      tx := [];
      new;
      HeaderBytes();
      assert colors[..] == seq(NumLedsTotal, _ => Color(0.0, 0.0, 0.0));
      assert prevColors[..] == seq(NumLedsTotal, _ => Color(0.0, 0.0, 0.0));
      assert output[..] == seq(NumLedsTotal, _ => Rgb8(0, 0, 0));
    }

    /** `capture_and_sample`: the left edge's LEDs bottom to top, the top
        edge's left to right, the right edge's top to bottom, so that the
        whole array holds the sampled colours. */
    method CaptureAndSample(left: Shot, top: Shot, right: Shot)
      requires Valid() && Sampleable(geometry, left, top, right)
      modifies colors
      ensures colors[..] == Sample(geometry, left, top, right)
    {
      SampleEdge(Left, left, top, right);
      ghost var afterLeft := colors[..];
      SampleEdge(Top, left, top, right);
      ghost var afterTop := colors[..];
      SampleEdge(Right, left, top, right);
      assert forall i :: 0 <= i < NumLedsLeft ==> colors[i] == afterTop[i] == afterLeft[i];
      SampleFromEdges(geometry, left, top, right, colors[..]);
    }

    /** One of the three loops of `capture_and_sample`: LED `i` of edge `e`
        gets the colour of its segment at strip index `EdgeBase(e) + i`, and
        no index outside the edge's block is written. */
    method SampleEdge(e: Edge, left: Shot, top: Shot, right: Shot)
      requires Valid() && Sampleable(geometry, left, top, right)
      modifies colors
      ensures forall i :: 0 <= i < EdgeCount(e) ==>
        colors[EdgeBase(e) + i] == SegmentColor(geometry, e, left, top, right, i)
      ensures forall j :: 0 <= j < NumLedsTotal && !(EdgeBase(e) <= j < EdgeBase(e) + EdgeCount(e)) ==>
        colors[j] == old(colors[j])
    {
      var idx := EdgeBase(e);
      assert idx + EdgeCount(e) <= NumLedsTotal;
      for i := 0 to EdgeCount(e)
        invariant forall i' :: 0 <= i' < i ==>
          colors[idx + i'] == SegmentColor(geometry, e, left, top, right, i')
        invariant forall j :: 0 <= j < NumLedsTotal && !(idx <= j < idx + i) ==> colors[j] == old(colors[j])
      {
        colors[idx + i] := SegmentColor(geometry, e, left, top, right, i);
      }
    }

    /** `process_colors(self.colors)`: the new smoothing state is the
        adjusted input on the first frame and the blend afterwards, kept
        unclipped; the output is that state clipped and truncated. With a
        saturation factor of 1 no copy is made, so `self.colors` itself is
        scaled in place (and clipped in place on the first frame). */
    method ProcessColors()
      requires Valid()
      modifies colors, prevColors, output, this`firstFrame
      ensures Valid() && !firstFrame
      ensures prevColors[..] == NextState(old(firstFrame), old(prevColors[..]), old(colors[..]),
                                          saturation, brightness, smoothing)
      ensures output[..] == Render(prevColors[..])
      ensures saturation != 1.0 ==> colors[..] == old(colors[..])
      ensures saturation == 1.0 ==> forall k :: 0 <= k < NumLedsTotal ==>
        colors[k] == (if old(firstFrame) then ClipColor(Brighten(old(colors[k]), brightness))
                      else Brighten(old(colors[k]), brightness))
    {
      ghost var input := colors[..];
      forall k | 0 <= k < NumLedsTotal {
        prevColors[k] := Smooth(firstFrame, prevColors[k], Adjust(colors[k], saturation, brightness), smoothing);
      }
      if saturation == 1.0 {
        forall k | 0 <= k < NumLedsTotal {
          colors[k] := if firstFrame then ClipColor(Brighten(colors[k], brightness))
                       else Brighten(colors[k], brightness);
        }
      }
      forall k | 0 <= k < NumLedsTotal {
        output[k] := Quantize(prevColors[k]);
      }
      firstFrame := false;
    }

    /** `send`: the header and the output bytes are written; a failed write
        stops the main loop instead. */
    method Send(rgb: seq<Rgb8>, writeOk: bool)
      requires Valid()
      modifies this`tx, this`running
      ensures writeOk ==> tx == old(tx) + Frame(rgb) && running == old(running)
      ensures !writeOk ==> tx == old(tx) && !running
    {
      if writeOk {
        tx := tx + (header + Payload(rgb));
      } else {
        running := false;
      }
    }

    /** One pass of the body of `run`'s loop: capture, process, send. The
        colour array ends as the sample, scaled in place when the saturation
        factor is 1. */
    method Step(left: Shot, top: Shot, right: Shot, writeOk: bool)
      requires Valid() && Sampleable(geometry, left, top, right)
      modifies colors, prevColors, output, this`firstFrame, this`tx, this`running
      ensures Valid() && !firstFrame
      ensures prevColors[..] == NextState(old(firstFrame), old(prevColors[..]),
                                          Sample(geometry, left, top, right),
                                          saturation, brightness, smoothing)
      ensures output[..] == Render(prevColors[..])
      ensures saturation != 1.0 ==> colors[..] == Sample(geometry, left, top, right)
      ensures saturation == 1.0 ==> forall k :: 0 <= k < NumLedsTotal ==>
        colors[k] == (if old(firstFrame) then ClipColor(Brighten(Sample(geometry, left, top, right)[k], brightness))
                      else Brighten(Sample(geometry, left, top, right)[k], brightness))
      ensures writeOk ==> tx == old(tx) + Frame(output[..]) && running == old(running)
      ensures !writeOk ==> tx == old(tx) && !running
    {
      CaptureAndSample(left, top, right);
      ProcessColors();
      Send(output[..], writeOk);
    }

    /** `cleanup`: the loop stops; if the port is open the strip is blanked
        with an all-zero frame and the port is closed. */
    method Cleanup(writeOk: bool)
      requires Valid()
      modifies this`tx, this`running, this`portOpen
      ensures !running && !portOpen
      ensures old(portOpen) && writeOk ==> tx == old(tx) + Frame(seq(NumLedsTotal, _ => Rgb8(0, 0, 0)))
      ensures !(old(portOpen) && writeOk) ==> tx == old(tx)
    {
      running := false;
      if portOpen {
        Send(seq(NumLedsTotal, _ => Rgb8(0, 0, 0)), writeOk);
        portOpen := false;
      }
    }
  }
}
