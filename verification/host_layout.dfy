/** The host application's fixed LED layout and the capture geometry derived
    once from the chosen monitor (pc_app/ambilight.py): which strip index
    belongs to which screen edge, where the three capture regions lie, and
    which rows or columns each LED averages. */
module Layout {
  import opened Common

  const NumLedsLeft: nat := 19
  const NumLedsTop: nat := 35
  const NumLedsRight: nat := 19
  const NumLedsTotal: nat := NumLedsLeft + NumLedsTop + NumLedsRight
  /** CAPTURE_DEPTH: thickness in pixels of each capture strip. */
  const CaptureDepth: nat := 30
  /** The upper bound `_setup_monitor` applies to the depth. */
  const MaxCaptureDepth: nat := 50
  /** The frame-rate cap applied by the constructor. */
  const MaxFps: int := 60

  /** The three screen edges, in strip order: the strip runs up the left
      edge, across the top from left to right, and down the right edge. */
  datatype Edge = Left | Top | Right

  function EdgeCount(e: Edge): nat
  {
    match e
    case Left => NumLedsLeft
    case Top => NumLedsTop
    case Right => NumLedsRight
  }

  /** Strip index of the first LED of edge `e`. */
  function EdgeBase(e: Edge): nat
  {
    match e
    case Left => 0
    case Top => NumLedsLeft
    case Right => NumLedsLeft + NumLedsTop
  }

  /** Strip index of the `i`-th LED along edge `e`. */
  function LedIndex(e: Edge, i: nat): (k: nat)
    requires i < EdgeCount(e)
    ensures EdgeBase(e) <= k < EdgeBase(e) + EdgeCount(e) <= NumLedsTotal
  {
    EdgeBase(e) + i
  }

  /** The edge and position along it of strip index `k`: every index of the
      strip belongs to some edge. */
  function EdgeOf(k: nat): (loc: (Edge, nat))
    requires k < NumLedsTotal
    ensures loc.1 < EdgeCount(loc.0) && LedIndex(loc.0, loc.1) == k
  {
    if k < NumLedsLeft then (Left, k)
    else if k < NumLedsLeft + NumLedsTop then (Top, k - NumLedsLeft)
    else (Right, k - NumLedsLeft - NumLedsTop)
  }

  /** No strip index belongs to two edges, nor to two positions on one
      edge: together with EdgeOf, the three edges partition 0..73 into
      [0,19), [19,54) and [54,73). */
  lemma LedIndexInjective(e1: Edge, i1: nat, e2: Edge, i2: nat)
    requires i1 < EdgeCount(e1) && i2 < EdgeCount(e2)
    ensures LedIndex(e1, i1) == LedIndex(e2, i2) <==> e1 == e2 && i1 == i2
  {
  }

  /** One entry of mss's monitor list. */
  datatype Monitor = Monitor(left: int, top: int, width: nat, height: nat)

  /** A capture rectangle passed to the screen grabber. */
  datatype Region = Region(left: int, top: int, width: nat, height: nat)

  /** `min(fps, 60)`: the target frame rate never exceeds 60. */
  function TargetFps(fps: int): (r: int)
    ensures r <= MaxFps
    ensures fps <= MaxFps ==> r == fps
    ensures fps > MaxFps ==> r == MaxFps
  {
    if fps < MaxFps then fps else MaxFps
  }

  /** `min(monitor + 1, len(monitors) - 1)`: entry 0 of mss's list is the
      union of all screens, so a non-negative selector picks a real monitor
      and an out-of-range one is pulled back to the last. */
  function MonitorIndex(monitorNum: int, count: nat): (idx: int)
    ensures idx <= count - 1
    ensures monitorNum + 1 <= count - 1 ==> idx == monitorNum + 1
    ensures monitorNum + 1 > count - 1 ==> idx == count - 1
    ensures 0 <= monitorNum && 2 <= count ==> 1 <= idx
  {
    if monitorNum + 1 < count - 1 then monitorNum + 1 else count - 1
  }

  /** Python list indexing: a negative index counts from the end; anything
      else out of range raises IndexError (None here). */
  function PyIndex(i: int, n: nat): Option<nat>
  {
    if 0 <= i < n then Some(i)
    else if i < 0 && 0 <= n + i then Some(n + i)
    else None
  }

  /** `monitors[idx]` in `_setup_monitor`. None is the IndexError that only
      an empty list or a very negative selector can raise. */
  function SelectMonitor(monitorNum: int, monitors: seq<Monitor>): (m: Option<Monitor>)
    ensures m.None? <==> MonitorIndex(monitorNum, |monitors|) + |monitors| < 0
    ensures 0 <= monitorNum && 1 <= |monitors| ==> m.Some?
    ensures 0 <= monitorNum && 2 <= |monitors| ==> m.Some? && m.value in monitors[1..]
    ensures 0 <= monitorNum < |monitors| - 1 ==> m == Some(monitors[monitorNum + 1])
  {
    match PyIndex(MonitorIndex(monitorNum, |monitors|), |monitors|)
    case None => None
    case Some(i) => Some(monitors[i])
  }

  /** `min(CAPTURE_DEPTH, 50)`. */
  function ClampDepth(depth: int): (d: int)
    ensures d <= MaxCaptureDepth
    ensures depth <= MaxCaptureDepth ==> d == depth
    ensures depth > MaxCaptureDepth ==> d == MaxCaptureDepth
  {
    if depth < MaxCaptureDepth then depth else MaxCaptureDepth
  }

  /** What `_setup_monitor` stores: the monitor size, the three capture
      regions and the segment lengths. */
  datatype Geometry = Geometry(
    width: nat, height: nat, depth: nat,
    leftRegion: Region, topRegion: Region, rightRegion: Region,
    vSeg: nat, hSeg: nat)

  /** The shape every geometry built by SetupGeometry has. */
  predicate ValidGeometry(g: Geometry)
  {
    g.leftRegion.width == g.depth && g.leftRegion.height == g.height
    && g.topRegion.width == g.width && g.topRegion.height == g.depth
    && g.rightRegion.width == g.depth && g.rightRegion.height == g.height
    && g.vSeg * NumLedsLeft <= g.height && g.hSeg * NumLedsTop <= g.width
  }

  /** `_setup_monitor`: the left and right strips are `d` pixels wide and
      the full height, the top strip is the full width and `d` high, the
      right strip ends flush with the monitor's right edge, and the segment
      lengths are the floor of edge length over LED count. */
  function SetupGeometry(mon: Monitor): (g: Geometry)
    ensures ValidGeometry(g)
    ensures g.width == mon.width && g.height == mon.height && g.depth == CaptureDepth
    ensures g.leftRegion == Region(mon.left, mon.top, g.depth, mon.height)
    ensures g.topRegion == Region(mon.left, mon.top, mon.width, g.depth)
    ensures g.rightRegion.top == mon.top
    ensures g.rightRegion.left + g.rightRegion.width == mon.left + mon.width
    ensures g.vSeg * NumLedsLeft <= mon.height < (g.vSeg + 1) * NumLedsLeft
    ensures g.hSeg * NumLedsTop <= mon.width < (g.hSeg + 1) * NumLedsTop
  {
    var d := ClampDepth(CaptureDepth);
    Geometry(
      mon.width, mon.height, d,
      Region(mon.left, mon.top, d, mon.height),
      Region(mon.left, mon.top, mon.width, d),
      Region(mon.left + mon.width - d, mon.top, d, mon.height),
      mon.height / NumLedsLeft,
      mon.width / NumLedsTop)
  }

  /** Pixels along edge `e`: rows for the side edges, columns for the top. */
  function EdgeLength(g: Geometry, e: Edge): nat
  {
    if e == Top then g.width else g.height
  }

  /** Rows (side edges) or columns (top) averaged by one LED. */
  function SegmentLength(g: Geometry, e: Edge): nat
  {
    if e == Top then g.hSeg else g.vSeg
  }

  /** First row or column of LED `i` on edge `e`: the left edge counts up
      from the bottom, the top edge runs left to right, the right edge runs
      top to bottom. */
  function SegmentStart(g: Geometry, e: Edge, i: nat): int
  {
    match e
    case Left => g.height - (i + 1) * g.vSeg
    case Top => i * g.hSeg
    case Right => i * g.vSeg
  }

  /** The part of the edge the segments cover. The rest (edge length mod
      LED count pixels: at the top of the left edge, the bottom of the right
      edge and the right end of the top edge) is never sampled. */
  function SpanStart(g: Geometry, e: Edge): int
  {
    if e == Left then g.height - NumLedsLeft * g.vSeg else 0
  }

  function SpanEnd(g: Geometry, e: Edge): int
  {
    match e
    case Left => g.height
    case Top => NumLedsTop * g.hSeg
    case Right => NumLedsRight * g.vSeg
  }

  lemma MulMono(a: nat, b: nat, c: nat)
    requires a <= b
    ensures a * c <= b * c
  {
  }

  /** Where each LED's segment lies: top and right LED i start i segment
      lengths from the start of the edge, and left LED i ends i segment
      lengths above the bottom of the monitor. */
  lemma SegmentPosition(g: Geometry, e: Edge, i: nat)
    requires i < EdgeCount(e)
    ensures e != Left ==> SegmentStart(g, e, i) == i * SegmentLength(g, e)
    ensures e == Left ==> SegmentStart(g, e, i) + (i + 1) * SegmentLength(g, e) == g.height
  {
  }

  /** Neighbouring LEDs of an edge average neighbouring pixels: each
      segment starts right where the previous one ends, going up the left
      edge, right along the top and down the right edge. */
  lemma SegmentsAbut(g: Geometry, e: Edge, i: nat)
    requires i + 1 < EdgeCount(e)
    ensures e == Left ==> SegmentStart(g, e, i + 1) + SegmentLength(g, e) == SegmentStart(g, e, i)
    ensures e != Left ==> SegmentStart(g, e, i) + SegmentLength(g, e) == SegmentStart(g, e, i + 1)
  {
  }

  /** Every segment lies inside its edge, and inside the sampled span. */
  lemma SegmentInside(g: Geometry, e: Edge, i: nat)
    requires ValidGeometry(g) && i < EdgeCount(e)
    ensures 0 <= SpanStart(g, e) <= SegmentStart(g, e, i)
    ensures SegmentStart(g, e, i) + SegmentLength(g, e) <= SpanEnd(g, e) <= EdgeLength(g, e)
  {
    MulMono(i + 1, EdgeCount(e), SegmentLength(g, e));
  }

  /** Segments of one edge never overlap; a higher LED number lies further
      along the edge's traversal direction. */
  lemma SegmentsDisjoint(g: Geometry, e: Edge, i: nat, j: nat)
    requires i < j < EdgeCount(e)
    ensures e == Left ==> SegmentStart(g, e, j) + SegmentLength(g, e) <= SegmentStart(g, e, i)
    ensures e != Left ==> SegmentStart(g, e, i) + SegmentLength(g, e) <= SegmentStart(g, e, j)
  {
    MulMono(i + 1, j, SegmentLength(g, e));
  }

  /** Pixel `p` of edge `e` is averaged by some LED. */
  ghost predicate Covered(g: Geometry, e: Edge, p: int)
  {
    exists i :: 0 <= i < EdgeCount(e) && InSegment(g, e, i, p)
  }

  predicate InSegment(g: Geometry, e: Edge, i: nat, p: int)
  {
    SegmentStart(g, e, i) <= p < SegmentStart(g, e, i) + SegmentLength(g, e)
  }

  /** Which segment a pixel at distance `q` from the start of the
      traversal falls in. */
  lemma SegmentOfOffset(q: int, len: nat, count: nat) returns (i: nat)
    requires 0 <= q < count * len
    ensures i < count && i * len <= q < i * len + len
  {
    i := q / len;
    if i >= count {
      MulMono(count, i, len);
    }
  }

  /** The segments tile the sampled span exactly: a pixel is averaged by
      some LED if and only if it lies in [SpanStart, SpanEnd). */
  lemma CoveredIffInSpan(g: Geometry, e: Edge, p: int)
    requires ValidGeometry(g)
    ensures Covered(g, e, p) <==> SpanStart(g, e) <= p < SpanEnd(g, e)
  {
    if Covered(g, e, p) {
      var i :| 0 <= i < EdgeCount(e) && InSegment(g, e, i, p);
      SegmentInside(g, e, i);
    }
    if SpanStart(g, e) <= p < SpanEnd(g, e) && SegmentLength(g, e) > 0 {
      var len := SegmentLength(g, e);
      // distance from the start of the traversal, in pixels
      var q := if e == Left then g.height - 1 - p else p;
      var i := SegmentOfOffset(q, len, EdgeCount(e));
      assert InSegment(g, e, i, p);
    }
  }
}
