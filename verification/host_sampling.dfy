/** Colour sampling of `capture_and_sample` (pc_app/ambilight.py): the
    average of one rectangle of a screenshot, and the colour of every LED as
    the average of its segment of the matching edge strip.

    A screenshot is what `np.frombuffer(shot.raw).reshape(h, w, 4)` sees:
    `h` rows of `4 * w` bytes, each pixel stored as B, G, R, A. The screen
    grabber itself is not modelled; the three shots are inputs. */
module Sampling {
  import opened Common
  import opened Layout
  import opened Colors

  /** Rows of raw BGRA bytes. */
  type Shot = seq<seq<byte>>

  /** The three channels of the colour arrays, in their order. */
  datatype Channel = R | G | B

  /** The fancy index `[2, 1, 0]`: R is byte 2 of a BGRA pixel, B is byte 0. */
  function ByteOffset(ch: Channel): (o: nat)
    ensures o < 4
  {
    match ch
    case R => 2
    case G => 1
    case B => 0
  }

  /** A screenshot of a region of width `w` and height `h`. */
  predicate Fits(shot: Shot, w: nat, h: nat)
  {
    |shot| == h && forall y :: 0 <= y < h ==> |shot[y]| == 4 * w
  }

  /** Rows `y0 .. y1` all hold at least `x1` pixels. */
  predicate RowsWide(shot: Shot, y0: nat, y1: nat, x1: nat)
  {
    y0 <= y1 <= |shot| && forall y :: y0 <= y < y1 ==> 4 * x1 <= |shot[y]|
  }

  /** Channel `ch` of pixel `x` of a row. */
  function PixelChannel(row: seq<byte>, x: nat, ch: Channel): byte
    requires 4 * x + 4 <= |row|
  {
    row[4 * x + ByteOffset(ch)]
  }

  /** Sum of channel `ch` over pixels `x0 .. x1` of one row. */
  function RowSum(row: seq<byte>, x0: nat, x1: nat, ch: Channel): (s: nat)
    requires x0 <= x1 && 4 * x1 <= |row|
    ensures s <= 255 * (x1 - x0)
    decreases x1 - x0
  {
    if x1 == x0 then 0
    else RowSum(row, x0, x1 - 1, ch) + PixelChannel(row, x1 - 1, ch)
  }

  /** Sum of channel `ch` over the rectangle of rows `y0 .. y1` and
      columns `x0 .. x1`: at most 255 per pixel. */
  function RectSum(shot: Shot, y0: nat, y1: nat, x0: nat, x1: nat, ch: Channel): (s: nat)
    requires RowsWide(shot, y0, y1, x1) && x0 <= x1
    ensures s <= 255 * ((y1 - y0) * (x1 - x0))
    decreases y1 - y0
  {
    if y1 == y0 then 0
    else
      var above := RectSum(shot, y0, y1 - 1, x0, x1, ch);
      assert (y1 - y0) * (x1 - x0) == (y1 - 1 - y0) * (x1 - x0) + (x1 - x0);
      above + RowSum(shot[y1 - 1], x0, x1, ch)
  }

  /** A sum of `n` bytes divided by `n` lies in [0, 255]. */
  lemma MeanBounds(s: nat, n: nat)
    requires 0 < n && s <= 255 * n
    ensures 0.0 <= s as real / n as real <= 255.0
  {
    assert s as real <= 255.0 * n as real;
  }

  /** `img[y0:y1, x0:x1, c].mean()`: the average of one channel over a
      non-empty rectangle, between 0 and 255. */
  function ChannelMean(shot: Shot, y0: nat, y1: nat, x0: nat, x1: nat, ch: Channel): (m: real)
    requires RowsWide(shot, y0, y1, x1) && y0 < y1 && x0 < x1
    ensures 0.0 <= m <= 255.0
  {
    var s := RectSum(shot, y0, y1, x0, x1, ch);
    MeanBounds(s, (y1 - y0) * (x1 - x0));
    s as real / ((y1 - y0) * (x1 - x0)) as real
  }

  /** `img[y0:y1, x0:x1, [2, 1, 0]].mean(axis=(0, 1))`. */
  function RectMean(shot: Shot, y0: nat, y1: nat, x0: nat, x1: nat): (c: Color)
    requires RowsWide(shot, y0, y1, x1) && y0 < y1 && x0 < x1
    ensures 0.0 <= c.r <= 255.0 && 0.0 <= c.g <= 255.0 && 0.0 <= c.b <= 255.0
  {
    Color(ChannelMean(shot, y0, y1, x0, x1, R),
          ChannelMean(shot, y0, y1, x0, x1, G),
          ChannelMean(shot, y0, y1, x0, x1, B))
  }

  /** Every pixel of the rectangle has value `v` in channel `ch`. */
  predicate UniformChannel(shot: Shot, y0: nat, y1: nat, x0: nat, x1: nat, ch: Channel, v: byte)
    requires RowsWide(shot, y0, y1, x1)
  {
    forall y, x :: y0 <= y < y1 && x0 <= x < x1 ==> PixelChannel(shot[y], x, ch) == v
  }

  lemma {:induction false} UniformRowSum(row: seq<byte>, x0: nat, x1: nat, ch: Channel, v: byte)
    requires x0 <= x1 && 4 * x1 <= |row|
    requires forall x :: x0 <= x < x1 ==> PixelChannel(row, x, ch) == v
    ensures RowSum(row, x0, x1, ch) == v * (x1 - x0)
    decreases x1 - x0
  {
    if x1 > x0 {
      UniformRowSum(row, x0, x1 - 1, ch, v);
    }
  }

  lemma {:induction false} UniformRectSum(shot: Shot, y0: nat, y1: nat, x0: nat, x1: nat, ch: Channel, v: byte)
    requires RowsWide(shot, y0, y1, x1) && x0 <= x1
    requires UniformChannel(shot, y0, y1, x0, x1, ch, v)
    ensures RectSum(shot, y0, y1, x0, x1, ch) == v * ((y1 - y0) * (x1 - x0))
    decreases y1 - y0
  {
    if y1 > y0 {
      UniformRectSum(shot, y0, y1 - 1, x0, x1, ch, v);
      UniformRowSum(shot[y1 - 1], x0, x1, ch, v);
      Distribute(v, y1 - 1 - y0, x1 - x0);
    }
  }

  lemma Distribute(v: nat, h: nat, w: nat)
    ensures v * ((h + 1) * w) == v * (h * w) + v * w
  {
    assert (h + 1) * w == h * w + w;
  }

  lemma DivideProduct(v: nat, h: nat, w: nat)
    requires 0 < h && 0 < w
    ensures (v * (h * w)) as real / (h * w) as real == v as real
  {
    var n := h * w;
    assert 0 < n;
    assert (v * n) as real == v as real * n as real;
  }

  /** The average of a rectangle of one colour is that colour: the mean of
      a uniform channel is its value. */
  lemma UniformMean(shot: Shot, y0: nat, y1: nat, x0: nat, x1: nat, ch: Channel, v: byte)
    requires RowsWide(shot, y0, y1, x1) && y0 < y1 && x0 < x1
    requires UniformChannel(shot, y0, y1, x0, x1, ch, v)
    ensures ChannelMean(shot, y0, y1, x0, x1, ch) == v as real
  {
    UniformRectSum(shot, y0, y1, x0, x1, ch, v);
    DivideProduct(v, y1 - y0, x1 - x0);
  }

  /** Two shots whose pixels agree on their B, G and R bytes over a
      rectangle; byte 3 (alpha) may differ. */
  predicate SameColourBytes(s1: Shot, s2: Shot, y0: nat, y1: nat, x0: nat, x1: nat)
    requires RowsWide(s1, y0, y1, x1) && RowsWide(s2, y0, y1, x1)
  {
    forall ch: Channel, y, x :: y0 <= y < y1 && x0 <= x < x1 ==>
      PixelChannel(s1[y], x, ch) == PixelChannel(s2[y], x, ch)
  }

  lemma {:induction false} AlphaIgnoredRow(row1: seq<byte>, row2: seq<byte>, x0: nat, x1: nat, ch: Channel)
    requires x0 <= x1 && 4 * x1 <= |row1| && 4 * x1 <= |row2|
    requires forall x :: x0 <= x < x1 ==> PixelChannel(row1, x, ch) == PixelChannel(row2, x, ch)
    ensures RowSum(row1, x0, x1, ch) == RowSum(row2, x0, x1, ch)
    decreases x1 - x0
  {
    if x1 > x0 {
      AlphaIgnoredRow(row1, row2, x0, x1 - 1, ch);
    }
  }

  lemma {:induction false} AlphaIgnoredRect(s1: Shot, s2: Shot, y0: nat, y1: nat, x0: nat, x1: nat, ch: Channel)
    requires RowsWide(s1, y0, y1, x1) && RowsWide(s2, y0, y1, x1) && x0 <= x1
    requires SameColourBytes(s1, s2, y0, y1, x0, x1)
    ensures RectSum(s1, y0, y1, x0, x1, ch) == RectSum(s2, y0, y1, x0, x1, ch)
    decreases y1 - y0
  {
    if y1 > y0 {
      AlphaIgnoredRect(s1, s2, y0, y1 - 1, x0, x1, ch);
      AlphaIgnoredRow(s1[y1 - 1], s2[y1 - 1], x0, x1, ch);
    }
  }

  /** The fourth byte of every pixel (alpha) never reaches a colour: shots
      that agree on their B, G and R bytes have the same mean. */
  lemma AlphaIgnored(s1: Shot, s2: Shot, y0: nat, y1: nat, x0: nat, x1: nat)
    requires RowsWide(s1, y0, y1, x1) && RowsWide(s2, y0, y1, x1) && y0 < y1 && x0 < x1
    requires SameColourBytes(s1, s2, y0, y1, x0, x1)
    ensures RectMean(s1, y0, y1, x0, x1) == RectMean(s2, y0, y1, x0, x1)
  {
    AlphaIgnoredRect(s1, s2, y0, y1, x0, x1, R);
    AlphaIgnoredRect(s1, s2, y0, y1, x0, x1, G);
    AlphaIgnoredRect(s1, s2, y0, y1, x0, x1, B);
  }

  /** Channel R of a pixel is its byte 2, G byte 1 and B byte 0 (BGRA). */
  lemma ChannelBytes(row: seq<byte>, x: nat)
    requires 4 * x + 4 <= |row|
    ensures PixelChannel(row, x, R) == row[4 * x + 2]
    ensures PixelChannel(row, x, G) == row[4 * x + 1]
    ensures PixelChannel(row, x, B) == row[4 * x]
  {
  }

  /** Everything `capture_and_sample` needs: a geometry from SetupGeometry
      with non-empty segments and a non-empty strip depth, and three shots of
      the sizes of the three regions. (With fewer than 19 rows or 35 columns
      a segment is empty and numpy's mean of it is NaN.) */
  predicate Sampleable(g: Geometry, left: Shot, top: Shot, right: Shot)
  {
    ValidGeometry(g) && g.vSeg > 0 && g.hSeg > 0 && g.depth > 0
    && Fits(left, g.leftRegion.width, g.leftRegion.height)
    && Fits(top, g.topRegion.width, g.topRegion.height)
    && Fits(right, g.rightRegion.width, g.rightRegion.height)
  }

  /** The shot an edge is sampled from. */
  function ShotOf(e: Edge, left: Shot, top: Shot, right: Shot): Shot
  {
    match e
    case Left => left
    case Top => top
    case Right => right
  }

  /** The colour of LED `i` of edge `e`: the side edges average `vSeg`
      full-width rows starting at SegmentStart, the top edge averages `hSeg`
      full-height columns. */
  function SegmentColor(g: Geometry, e: Edge, left: Shot, top: Shot, right: Shot, i: nat): (c: Color)
    requires Sampleable(g, left, top, right) && i < EdgeCount(e)
    ensures 0.0 <= c.r <= 255.0 && 0.0 <= c.g <= 255.0 && 0.0 <= c.b <= 255.0
  {
    SegmentInside(g, e, i);
    var start := SegmentStart(g, e, i);
    var shot := ShotOf(e, left, top, right);
    if e == Top then
      RectMean(shot, 0, g.depth, start, start + g.hSeg)
    else
      RectMean(shot, start, start + g.vSeg, 0, g.depth)
  }

  /** The whole `colors` array: strip index `k` takes the colour of its
      segment on its edge. */
  function Sample(g: Geometry, left: Shot, top: Shot, right: Shot): (colors: seq<Color>)
    requires Sampleable(g, left, top, right)
    ensures |colors| == NumLedsTotal
    ensures forall e: Edge, i: nat {:trigger LedIndex(e, i)} :: i < EdgeCount(e) ==>
      colors[LedIndex(e, i)] == SegmentColor(g, e, left, top, right, i)
  {
    seq(NumLedsTotal, k requires 0 <= k < NumLedsTotal =>
      SegmentColor(g, EdgeOf(k).0, left, top, right, EdgeOf(k).1))
  }

  /** Every pixel of a shot of width `w` and height `h` has colour (r, g, b). */
  predicate Solid(shot: Shot, w: nat, h: nat, r: byte, gr: byte, b: byte)
    requires Fits(shot, w, h)
  {
    forall y, x :: 0 <= y < h && 0 <= x < w ==>
      PixelChannel(shot[y], x, R) == r && PixelChannel(shot[y], x, G) == gr && PixelChannel(shot[y], x, B) == b
  }

  /** Three solid shots of one colour. */
  predicate SolidScreen(g: Geometry, left: Shot, top: Shot, right: Shot, r: byte, gr: byte, b: byte)
    requires Sampleable(g, left, top, right)
  {
    Solid(left, g.leftRegion.width, g.leftRegion.height, r, gr, b)
    && Solid(top, g.topRegion.width, g.topRegion.height, r, gr, b)
    && Solid(right, g.rightRegion.width, g.rightRegion.height, r, gr, b)
  }

  /** On a solid screen every segment's mean is the screen's colour. */
  lemma UniformSegment(g: Geometry, e: Edge, left: Shot, top: Shot, right: Shot, i: nat, r: byte, gr: byte, b: byte)
    requires Sampleable(g, left, top, right) && i < EdgeCount(e)
    requires SolidScreen(g, left, top, right, r, gr, b)
    ensures SegmentColor(g, e, left, top, right, i) == Color(r as real, gr as real, b as real)
  {
    SegmentInside(g, e, i);
    var start := SegmentStart(g, e, i);
    match e
    case Left =>
      SolidRect(left, g.leftRegion.width, g.leftRegion.height, start, start + g.vSeg, 0, g.depth, r, gr, b);
    case Top =>
      SolidRect(top, g.topRegion.width, g.topRegion.height, 0, g.depth, start, start + g.hSeg, r, gr, b);
    case Right =>
      SolidRect(right, g.rightRegion.width, g.rightRegion.height, start, start + g.vSeg, 0, g.depth, r, gr, b);
  }

  /** The mean of any non-empty rectangle of a solid shot is its colour. */
  lemma SolidRect(shot: Shot, w: nat, h: nat, y0: nat, y1: nat, x0: nat, x1: nat, r: byte, gr: byte, b: byte)
    requires Fits(shot, w, h) && Solid(shot, w, h, r, gr, b)
    requires y0 < y1 <= h && x0 < x1 <= w
    ensures RowsWide(shot, y0, y1, x1)
    ensures RectMean(shot, y0, y1, x0, x1) == Color(r as real, gr as real, b as real)
  {
    UniformMean(shot, y0, y1, x0, x1, R, r);
    UniformMean(shot, y0, y1, x0, x1, G, gr);
    UniformMean(shot, y0, y1, x0, x1, B, b);
  }

  /** Strip index `EdgeBase(e) + i` holds the colour of segment `i` of
      edge `e`. */
  lemma SampleAt(g: Geometry, left: Shot, top: Shot, right: Shot, e: Edge, i: nat)
    requires Sampleable(g, left, top, right) && i < EdgeCount(e)
    ensures EdgeBase(e) + i < NumLedsTotal
    ensures Sample(g, left, top, right)[EdgeBase(e) + i] == SegmentColor(g, e, left, top, right, i)
  {
    assert LedIndex(e, i) == EdgeBase(e) + i;
  }

  /** Colours that agree with the segment colours on all three edges are
      the whole sample. */
  lemma SampleFromEdges(g: Geometry, left: Shot, top: Shot, right: Shot, c: seq<Color>)
    requires Sampleable(g, left, top, right) && |c| == NumLedsTotal
    requires forall i :: 0 <= i < NumLedsLeft ==> c[EdgeBase(Left) + i] == SegmentColor(g, Left, left, top, right, i)
    requires forall i :: 0 <= i < NumLedsTop ==> c[EdgeBase(Top) + i] == SegmentColor(g, Top, left, top, right, i)
    requires forall i :: 0 <= i < NumLedsRight ==> c[EdgeBase(Right) + i] == SegmentColor(g, Right, left, top, right, i)
    ensures c == Sample(g, left, top, right)
  {
    forall j | 0 <= j < NumLedsTotal
      ensures c[j] == Sample(g, left, top, right)[j]
    {
      var (e, i) := EdgeOf(j);
      SampleAt(g, left, top, right, e, i);
    }
  }

  /** A screen whose every pixel has colour (r, g, b) drives every LED to
      exactly that colour. */
  lemma UniformScreen(g: Geometry, left: Shot, top: Shot, right: Shot, r: byte, gr: byte, b: byte)
    requires Sampleable(g, left, top, right)
    requires SolidScreen(g, left, top, right, r, gr, b)
    ensures Sample(g, left, top, right) == seq(NumLedsTotal, _ => Color(r as real, gr as real, b as real))
  {
    var colors := Sample(g, left, top, right);
    forall k | 0 <= k < NumLedsTotal
      ensures colors[k] == Color(r as real, gr as real, b as real)
    {
      var loc := EdgeOf(k);
      UniformSegment(g, loc.0, left, top, right, loc.1, r, gr, b);
    }
  }
}
