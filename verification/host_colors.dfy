/** Colour arithmetic of the host's `process_colors` (pc_app/ambilight.py):
    saturation boost, brightness, exponential smoothing and the final clip
    and truncation to bytes. numpy's float32 arithmetic is idealised as
    exact real arithmetic. */
module Colors {
  import opened Common

  /** One row of the float colour arrays (`colors`, `prev_colors`): R, G, B. */
  datatype Color = Color(r: real, g: real, b: real)

  /** One row of the uint8 `output` array: R, G, B. */
  datatype Rgb8 = Rgb8(r: byte, g: byte, b: byte)

  /** Mean of the three channels. */
  function Gray(c: Color): real
  {
    (c.r + c.g + c.b) / 3.0
  }

  /** Saturation boost, skipped when the factor is exactly 1: each channel
      moves away from the grey level by the factor `s`, so the grey level
      itself is kept. */
  function Saturate(c: Color, s: real): (d: Color)
    ensures Gray(d) == Gray(c)
    ensures d.r - Gray(c) == (c.r - Gray(c)) * s
    ensures d.g - Gray(c) == (c.g - Gray(c)) * s
    ensures d.b - Gray(c) == (c.b - Gray(c)) * s
  {
    if s != 1.0 then
      var gray := Gray(c);
      Color(gray + (c.r - gray) * s, gray + (c.g - gray) * s, gray + (c.b - gray) * s)
    else c
  }

  /** Brightness, skipped when the factor is exactly 1. */
  function Brighten(c: Color, f: real): (d: Color)
    ensures d == Color(c.r * f, c.g * f, c.b * f)
  {
    if f != 1.0 then Color(c.r * f, c.g * f, c.b * f) else c
  }

  /** A brightness factor in [0, 1] keeps every channel in [0, 255]: no
      channel grows and none turns negative. */
  lemma BrightenInRange(c: Color, f: real)
    requires 0.0 <= f <= 1.0
    requires 0.0 <= c.r && 0.0 <= c.g && 0.0 <= c.b
    ensures 0.0 <= Brighten(c, f).r <= c.r
    ensures 0.0 <= Brighten(c, f).g <= c.g
    ensures 0.0 <= Brighten(c, f).b <= c.b
  {
    ScaledWithin(c.r, f, Brighten(c, f).r);
    ScaledWithin(c.g, f, Brighten(c, f).g);
    ScaledWithin(c.b, f, Brighten(c, f).b);
  }

  /** Brightness scales the grey level by its factor. */
  lemma BrightenScalesGray(c: Color, f: real)
    ensures Gray(Brighten(c, f)) == Gray(c) * f
  {
    assert c.r * f + c.g * f + c.b * f == (c.r + c.g + c.b) * f;
  }

  /** `y = x * f` with a factor in [0, 1] lies between 0 and `x`. */
  lemma ScaledWithin(x: real, f: real, y: real)
    requires 0.0 <= x && 0.0 <= f <= 1.0 && y == x * f
    ensures 0.0 <= y <= x
  {
    assert x - y == x * (1.0 - f);
  }

  /** Saturation then brightness, in that order. */
  function Adjust(c: Color, saturation: real, brightness: real): (d: Color)
    ensures Gray(d) == Gray(c) * brightness
    ensures d.r - Gray(d) == (c.r - Gray(c)) * saturation * brightness
    ensures d.g - Gray(d) == (c.g - Gray(c)) * saturation * brightness
    ensures d.b - Gray(d) == (c.b - Gray(c)) * saturation * brightness
  {
    Brighten(Saturate(c, saturation), brightness)
  }

  /** One channel of `prev * (1 - alpha) + c * alpha`: the distance to the
      current value shrinks by the factor 1 - alpha. */
  function Mix(p: real, c: real, alpha: real): (x: real)
    ensures x - c == (1.0 - alpha) * (p - c)
  {
    p * (1.0 - alpha) + c * alpha
  }

  /** `prev_colors * (1 - alpha) + colors * alpha`, channel by channel:
      every channel's distance to the current colour shrinks by 1 - alpha. */
  function Blend(prev: Color, c: Color, alpha: real): (d: Color)
    ensures d.r - c.r == (1.0 - alpha) * (prev.r - c.r)
    ensures d.g - c.g == (1.0 - alpha) * (prev.g - c.g)
    ensures d.b - c.b == (1.0 - alpha) * (prev.b - c.b)
  {
    Color(Mix(prev.r, c.r, alpha), Mix(prev.g, c.g, alpha), Mix(prev.b, c.b, alpha))
  }

  /** The smoothing state after one frame: the first frame is taken as it
      is (no fade-in from black), later frames are blended into it. */
  function Smooth(firstFrame: bool, prev: Color, c: Color, alpha: real): (d: Color)
    ensures firstFrame ==> d == c
    ensures !firstFrame ==> d.r - c.r == (1.0 - alpha) * (prev.r - c.r)
    ensures !firstFrame ==> d.g - c.g == (1.0 - alpha) * (prev.g - c.g)
    ensures !firstFrame ==> d.b - c.b == (1.0 - alpha) * (prev.b - c.b)
  {
    if firstFrame then c else Blend(prev, c, alpha)
  }

  /** `np.clip(x, 0, 255)` on a float, without the conversion to bytes. */
  function Clip(x: real): (y: real)
    ensures 0.0 <= y <= 255.0
    ensures 0.0 <= x <= 255.0 ==> y == x
    ensures x < 0.0 ==> y == 0.0
    ensures x > 255.0 ==> y == 255.0
  {
    if x < 0.0 then 0.0 else if x > 255.0 then 255.0 else x
  }

  /** `np.clip(x, 0, 255)` then `astype(np.uint8)` (truncation). */
  function ClipTrunc(x: real): (v: byte)
    ensures x <= 0.0 ==> v == 0
    ensures 255.0 <= x ==> v == 255
    ensures 0.0 <= x <= 255.0 ==> v as real <= x < v as real + 1.0
  {
    Clip(x).Floor
  }

  /** One LED of the output array. */
  function Quantize(c: Color): (q: Rgb8)
    ensures 0.0 <= c.r <= 255.0 ==> q.r as real <= c.r < q.r as real + 1.0
    ensures 0.0 <= c.g <= 255.0 ==> q.g as real <= c.g < q.g as real + 1.0
    ensures 0.0 <= c.b <= 255.0 ==> q.b as real <= c.b < q.b as real + 1.0
    ensures (c.r <= 0.0 ==> q.r == 0) && (255.0 <= c.r ==> q.r == 255)
    ensures (c.g <= 0.0 ==> q.g == 0) && (255.0 <= c.g ==> q.g == 255)
    ensures (c.b <= 0.0 ==> q.b == 0) && (255.0 <= c.b ==> q.b == 255)
  {
    Rgb8(ClipTrunc(c.r), ClipTrunc(c.g), ClipTrunc(c.b))
  }

  /** With alpha = 1 smoothing is off: the state becomes the current
      colour, and so does the output. */
  lemma FullAlphaFollowsInput(prev: Color, c: Color)
    ensures Blend(prev, c, 1.0) == c
    ensures Quantize(Smooth(false, prev, c, 1.0)) == Quantize(c)
  {
  }

  /** A smoothing step lands between the previous state and the current
      colour whenever 0 <= alpha <= 1. */
  lemma BlendBetween(prev: Color, c: Color, alpha: real)
    requires 0.0 <= alpha <= 1.0
    ensures Between(Blend(prev, c, alpha).r, prev.r, c.r)
    ensures Between(Blend(prev, c, alpha).g, prev.g, c.g)
    ensures Between(Blend(prev, c, alpha).b, prev.b, c.b)
  {
    MixBetween(prev.r, c.r, alpha);
    MixBetween(prev.g, c.g, alpha);
    MixBetween(prev.b, c.b, alpha);
  }

  lemma MixBetween(p: real, c: real, alpha: real)
    requires 0.0 <= alpha <= 1.0
    ensures Between(Mix(p, c, alpha), p, c)
  {
    var f := 1.0 - alpha;
    var d := if p >= c then p - c else c - p;
    NonNegProduct(f, d);
    NonNegProduct(alpha, d);
    assert f * d + alpha * d == d;
  }

  lemma NonNegProduct(a: real, b: real)
    requires 0.0 <= a && 0.0 <= b
    ensures 0.0 <= a * b
  {
  }

  predicate Between(x: real, a: real, b: real)
  {
    (a <= x <= b) || (b <= x <= a)
  }

  function Pow(x: real, n: nat): real
  {
    if n == 0 then 1.0 else x * Pow(x, n - 1)
  }

  /** The smoothing state after `n` further frames of the same colour `c`. */
  function SmoothN(prev: Color, c: Color, alpha: real, n: nat): Color
  {
    if n == 0 then prev else Blend(SmoothN(prev, c, alpha, n - 1), c, alpha)
  }

  /** One channel of SmoothN. */
  function MixN(p: real, c: real, alpha: real, n: nat): real
  {
    if n == 0 then p else Mix(MixN(p, c, alpha, n - 1), c, alpha)
  }

  lemma {:induction false} SmoothNChannels(prev: Color, c: Color, alpha: real, n: nat)
    ensures SmoothN(prev, c, alpha, n)
         == Color(MixN(prev.r, c.r, alpha, n), MixN(prev.g, c.g, alpha, n), MixN(prev.b, c.b, alpha, n))
  {
    if n > 0 {
      SmoothNChannels(prev, c, alpha, n - 1);
    }
  }

  lemma {:induction false} MixConverges(p: real, c: real, alpha: real, n: nat)
    ensures MixN(p, c, alpha, n) - c == Pow(1.0 - alpha, n) * (p - c)
  {
    if n > 0 {
      MixConverges(p, c, alpha, n - 1);
      var x, m := MixN(p, c, alpha, n), MixN(p, c, alpha, n - 1);
      var f, q, w := 1.0 - alpha, Pow(1.0 - alpha, n - 1), Pow(1.0 - alpha, n);
      MixNStep(p, c, alpha, n);
      PowStep(f, n);
      ScaleStep(x - c, m - c, p - c, f, q, w);
    }
  }

  lemma MixNStep(p: real, c: real, alpha: real, n: nat)
    requires n > 0
    ensures MixN(p, c, alpha, n) - c == (1.0 - alpha) * (MixN(p, c, alpha, n - 1) - c)
  {
  }

  lemma PowStep(x: real, n: nat)
    requires n > 0
    ensures Pow(x, n) == x * Pow(x, n - 1)
  {
  }

  /** d = f * e, e = q * x and w = f * q give d = w * x. */
  lemma ScaleStep(d: real, e: real, x: real, f: real, q: real, w: real)
    requires d == f * e && e == q * x && w == f * q
    ensures d == w * x
  {
  }

  /** Convergence: for a constant input the distance to it after `n`
      frames is the initial distance times (1 - alpha)^n. */
  lemma SmoothingConverges(prev: Color, c: Color, alpha: real, n: nat)
    ensures SmoothN(prev, c, alpha, n).r - c.r == Pow(1.0 - alpha, n) * (prev.r - c.r)
    ensures SmoothN(prev, c, alpha, n).g - c.g == Pow(1.0 - alpha, n) * (prev.g - c.g)
    ensures SmoothN(prev, c, alpha, n).b - c.b == Pow(1.0 - alpha, n) * (prev.b - c.b)
  {
    SmoothNChannels(prev, c, alpha, n);
    MixConverges(prev.r, c.r, alpha, n);
    MixConverges(prev.g, c.g, alpha, n);
    MixConverges(prev.b, c.b, alpha, n);
  }

  /** A worked case: (200, 100, 100) with factor 1.2 has grey level 133.3
      and becomes (213.3, 93.3, 93.3), which truncates to (213, 93, 93). */
  lemma SaturationExample()
    ensures Saturate(Color(200.0, 100.0, 100.0), 1.2) == Color(640.0 / 3.0, 280.0 / 3.0, 280.0 / 3.0)
    ensures Quantize(Saturate(Color(200.0, 100.0, 100.0), 1.2)) == Rgb8(213, 93, 93)
  {
  }

  /** A boosted channel above 255 is clipped, one below 0 is raised to 0. */
  lemma SaturationClips()
    ensures Quantize(Saturate(Color(255.0, 0.0, 0.0), 1.2)) == Rgb8(255, 0, 0)
  {
  }
}
