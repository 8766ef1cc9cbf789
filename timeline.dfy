/** The timeline's coordinate arithmetic: layout options, integer and real
    ranges, Swift's `round`, the frame-to-period mapping every gesture file
    defines as `period(for:)`, and the snapping of a frame origin to the bar and
    track grid that the release handlers perform. */
module Timeline {
  import opened Geometry

  /** The layout options every view reads from the environment
      (`TrackOptions` / `TrackEditorOptions`); the calendar fields are not modelled. */
  datatype Options = Options(headerWidth: real, rulerHeight: real, trackHeight: real, barWidth: real)

  /** The configuration the editor is built with: bars and tracks have a positive size. */
  predicate ValidOptions(o: Options) {
    o.barWidth > 0.0 && o.trackHeight > 0.0
  }

  /** `Range<Int>`: the lane range `[lower, upper)` and region addresses. */
  datatype IntRange = IntRange(lower: int, upper: int) {
    predicate Valid() { lower <= upper }
    function Count(): int { upper - lower }
  }

  /** `Range<CGFloat>`: a period before it is snapped. */
  datatype RealRange = RealRange(lower: real, upper: real)

  predicate IsIntegral(x: real) { x.Floor as real == x }

  /** Swift's `round`: to the nearest integer, halves away from zero. */
  function Round(x: real): (r: int)
    ensures x >= 0.0 ==> r as real - 0.5 <= x < r as real + 0.5
    ensures x < 0.0 ==> r as real - 0.5 < x <= r as real + 0.5
  {
    if x >= 0.0 then (x + 0.5).Floor else -((-x + 0.5).Floor)
  }

  lemma RoundNear(x: real)
    ensures -0.5 <= Round(x) as real - x <= 0.5
  {
  }

  lemma RoundOfInt(n: int)
    ensures Round(n as real) == n
  {
  }

  lemma RoundMono(x: real, y: real)
    requires x <= y
    ensures Round(x) <= Round(y)
  {
  }

  /** Moving by a whole number of units moves the rounded value by as much, as
      long as the value does not cross zero (halves round away from zero). */
  lemma RoundShift(x: real, k: int)
    requires (x >= 0.0 && x + k as real >= 0.0) || (x < 0.0 && x + k as real < 0.0)
    ensures Round(x + k as real) == Round(x) + k
  {
  }

  /** Across zero the rounded value can move by more than the shift, never less. */
  lemma RoundStep(x: real)
    ensures Round(x + 1.0) >= Round(x) + 1
  {
  }

  /** Every half-integer rounds away from zero, so the cell around zero is two
      units wide: `-0.5` and `0.5` round apart by two. */
  lemma RoundHalves(n: int)
    ensures Round(n as real + 0.5) == (if n >= 0 then n + 1 else n)
    ensures Round(n as real - 0.5) == (if n <= 0 then n - 1 else n)
  {
  }

  /** A pixel x given in bars from the header: `(x - headerWidth) / barWidth`. */
  function Bars(o: Options, x: real): real
    requires o.barWidth > 0.0
  {
    (x - o.headerWidth) / o.barWidth
  }

  /** `period(for:)`: the frame's edges in bars, each rounded to a whole bar. */
  function PeriodFor(o: Options, frame: Rect): (p: RealRange)
    requires o.barWidth > 0.0
    ensures IsIntegral(p.lower) && IsIntegral(p.upper)
    ensures -0.5 <= p.lower - Bars(o, MinX(frame)) <= 0.5
    ensures -0.5 <= p.upper - Bars(o, MaxX(frame)) <= 0.5
    ensures frame.size.width >= 0.0 ==> p.lower <= p.upper
  {
    var start := Round((MinX(frame) - o.headerWidth) / o.barWidth);
    var end := Round((MaxX(frame) - o.headerWidth) / o.barWidth);
    RoundNear(Bars(o, MinX(frame)));
    RoundNear(Bars(o, MaxX(frame)));
    EdgesOrdered(o, frame);
    RealRange(start as real, end as real)
  }

  /** The period the drag handlers report in flight: the translated frame's edges
      measured in frame widths (not in bars, and not relative to the header). */
  function InFlightPeriod(frame: Rect, translation: Size): (p: RealRange)
    requires frame.size.width > 0.0
    ensures IsIntegral(p.lower) && IsIntegral(p.upper)
    ensures -0.5 <= p.lower - (MinX(frame) + translation.width) / frame.size.width <= 0.5
  {
    var moved := OffsetBy(frame, translation.width, translation.height);
    RoundNear(MinX(moved) / moved.size.width);
    RealRange(Round(MinX(moved) / moved.size.width) as real,
              Round((MinX(moved) + moved.size.width) / moved.size.width) as real)
  }

  /** Right of the origin, the in-flight period is exactly one unit long. */
  lemma {:induction false} InFlightPeriodIsOneUnit(frame: Rect, translation: Size)
    requires frame.size.width > 0.0
    requires MinX(frame) + translation.width >= 0.0
    ensures InFlightPeriod(frame, translation).upper - InFlightPeriod(frame, translation).lower == 1.0
  {
    var w := frame.size.width;
    var x := MinX(frame) + translation.width;
    var t := x / w;
    assert (x + w) / w == t + 1 as real by {
      DivAdd(x, w, w);
      assert w / w == 1.0;
    }
    DivMono(0.0, x, w);
    RoundShift(t, 1);
  }

  /** Rounding keeps a non-negative width's edges in order. */
  lemma RoundedOrdered(x: real, w: real, c: real)
    requires c > 0.0
    ensures w >= 0.0 ==> Round(x / c) <= Round((x + w) / c)
  {
    if w >= 0.0 {
      DivMono(x, x + w, c);
      RoundMono(x / c, (x + w) / c);
    }
  }

  /** From a non-negative start, `k` whole cells round to `k` whole cells. */
  lemma WholeCells(x: real, c: real, k: nat)
    requires x >= 0.0 && c > 0.0
    ensures Round((x + k as real * c) / c) == Round(x / c) + k
  {
    var t := x / c;
    assert (x + k as real * c) / c == t + k as real by {
      DivAdd(x, k as real * c, c);
      MulDiv(k as real, c);
    }
    DivMono(0.0, x, c);
    RoundShift(t, k);
  }

  lemma EdgesOrdered(o: Options, frame: Rect)
    requires o.barWidth > 0.0
    ensures frame.size.width >= 0.0 ==> Round(Bars(o, MinX(frame))) <= Round(Bars(o, MaxX(frame)))
  {
    if frame.size.width >= 0.0 {
      DivMono(MinX(frame) - o.headerWidth, MaxX(frame) - o.headerWidth, o.barWidth);
      RoundMono(Bars(o, MinX(frame)), Bars(o, MaxX(frame)));
    }
  }

  lemma DivMono(a: real, b: real, c: real)
    requires a <= b && c > 0.0
    ensures a / c <= b / c
  {
    assert b / c - a / c == (b - a) / c;
  }

  /** Positions within half a bar of each other are within half a bar in bars. */
  lemma {:induction false} BarsNear(o: Options, a: real, b: real)
    requires o.barWidth > 0.0 && -o.barWidth / 2.0 <= a - b <= o.barWidth / 2.0
    ensures -0.5 <= Bars(o, a) - Bars(o, b) <= 0.5
  {
    var c := o.barWidth;
    assert Bars(o, a) - Bars(o, b) == (a - b) / c by {
      DivAdd(b - o.headerWidth, a - b, c);
    }
    DivMono(a - b, c / 2.0, c);
    DivMono(-c / 2.0, a - b, c);
  }

  lemma DivAdd(a: real, b: real, c: real)
    requires c > 0.0
    ensures (a + b) / c == a / c + b / c
  {
    assert (a / c + b / c) * c == a + b;
  }

  /** Half a cell either way is half a unit in cells. */
  lemma HalfCell(x: real, c: real)
    requires c > 0.0
    ensures (x - c / 2.0) / c == x / c - 0.5
    ensures (x + c / 2.0) / c == x / c + 0.5
  {
    DivUnique(x - c / 2.0, c, x / c - 0.5);
    DivUnique(x + c / 2.0, c, x / c + 0.5);
  }

  /** A quotient is the one value that gives back the dividend. */
  lemma DivUnique(y: real, c: real, z: real)
    requires c > 0.0 && z * c == y
    ensures y / c == z
  {
  }

  lemma MulDiv(n: real, c: real)
    requires c > 0.0
    ensures (n * c) / c == n
  {
  }

  /** One axis of the release snapping:
      `round((v - origin) / cell) * cell + origin`. */
  function SnapAxis(v: real, origin: real, cell: real): (r: real)
    requires cell > 0.0
    ensures IsIntegral((r - origin) / cell)
    ensures -cell / 2.0 <= r - v <= cell / 2.0
  {
    var k := Round((v - origin) / cell);
    OnCell(k, origin, cell);
    SnapNear(v, origin, cell);
    k as real * cell + origin
  }

  lemma OnCell(k: int, origin: real, cell: real)
    requires cell > 0.0
    ensures ((k as real * cell + origin) - origin) / cell == k as real
  {
    assert (k as real * cell + origin) - origin == k as real * cell;
  }

  lemma SnapNear(v: real, origin: real, cell: real)
    requires cell > 0.0
    ensures -cell / 2.0 <= (Round((v - origin) / cell) as real * cell + origin) - v <= cell / 2.0
  {
    var t := (v - origin) / cell;
    var k := Round(t);
    RoundNear(t);
    assert v == t * cell + origin;
    var d := k as real - t;
    assert (k as real * cell + origin) - v == d * cell;
    MulBounds(d, cell);
    assert cell / 2.0 == 0.5 * cell && -cell / 2.0 == -0.5 * cell;
    assert -cell / 2.0 <= d * cell <= cell / 2.0;
    assert -cell / 2.0 <= (k as real * cell + origin) - v <= cell / 2.0;
  }

  lemma MulBounds(d: real, c: real)
    requires -0.5 <= d <= 0.5 && c > 0.0
    ensures -0.5 * c <= d * c <= 0.5 * c
  {
    assert (d + 0.5) * c >= 0.0;
    assert (0.5 - d) * c >= 0.0;
  }

  /** Snapping a value that is already on the grid leaves it where it is. */
  lemma {:induction false} SnapAxisIdempotent(v: real, origin: real, cell: real)
    requires cell > 0.0
    ensures SnapAxis(SnapAxis(v, origin, cell), origin, cell) == SnapAxis(v, origin, cell)
  {
    var k := Round((v - origin) / cell);
    SnapAxisOnGrid(v, origin, cell);
    RoundOfInt(k);
  }

  /** A value on the grid is a whole number of cells from the origin. */
  lemma SnapAxisOnGrid(v: real, origin: real, cell: real)
    requires cell > 0.0
    ensures SnapAxis(v, origin, cell) == Round((v - origin) / cell) as real * cell + origin
    ensures (SnapAxis(v, origin, cell) - origin) / cell == Round((v - origin) / cell) as real
  {
    OnCell(Round((v - origin) / cell), origin, cell);
  }

  /** The release handlers' snapping of a frame origin:
      x to the bar grid right of the header, y to the track grid below the ruler;
      the size is untouched. */
  function SnapOrigin(o: Options, frame: Rect): (r: Rect)
    requires ValidOptions(o)
    ensures r.size == frame.size
    ensures IsIntegral(Bars(o, MinX(r)))
    ensures IsIntegral((MinY(r) - o.rulerHeight) / o.trackHeight)
    ensures -o.barWidth / 2.0 <= MinX(r) - MinX(frame) <= o.barWidth / 2.0
    ensures -o.trackHeight / 2.0 <= MinY(r) - MinY(frame) <= o.trackHeight / 2.0
  {
    Rect(Point(SnapAxis(MinX(frame), o.headerWidth, o.barWidth),
               SnapAxis(MinY(frame), o.rulerHeight, o.trackHeight)),
         frame.size)
  }

  lemma {:induction false} SnapOriginIdempotent(o: Options, frame: Rect)
    requires ValidOptions(o)
    ensures SnapOrigin(o, SnapOrigin(o, frame)) == SnapOrigin(o, frame)
  {
    SnapAxisIdempotent(MinX(frame), o.headerWidth, o.barWidth);
    SnapAxisIdempotent(MinY(frame), o.rulerHeight, o.trackHeight);
  }

  /** After snapping, the period's start is exactly the frame's x in bars. */
  lemma {:induction false} SnappedPeriodStart(o: Options, frame: Rect)
    requires ValidOptions(o)
    ensures PeriodFor(o, SnapOrigin(o, frame)).lower == Bars(o, MinX(SnapOrigin(o, frame)))
  {
    var k := Round(Bars(o, MinX(frame)));
    SnapAxisOnGrid(MinX(frame), o.headerWidth, o.barWidth);
    assert Bars(o, MinX(SnapOrigin(o, frame))) == k as real;
    RoundOfInt(k);
  }

  /** A frame on the bar grid whose width is `n` bars has a period of exactly `n` bars. */
  lemma {:induction false} GridFramePeriod(o: Options, frame: Rect, k: int, n: nat)
    requires o.barWidth > 0.0
    requires MinX(frame) == k as real * o.barWidth + o.headerWidth
    requires frame.size.width == n as real * o.barWidth
    ensures PeriodFor(o, frame) == RealRange(k as real, (k + n) as real)
  {
    OnCell(k, o.headerWidth, o.barWidth);
    assert (k + n) as real * o.barWidth == k as real * o.barWidth + n as real * o.barWidth;
    assert MaxX(frame) == (k + n) as real * o.barWidth + o.headerWidth;
    OnCell(k + n, o.headerWidth, o.barWidth);
    assert Bars(o, MinX(frame)) == k as real;
    assert Bars(o, MaxX(frame)) == (k + n) as real;
    RoundOfInt(k);
    RoundOfInt(k + n);
  }
}
