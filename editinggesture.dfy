/** What the single-lane editor's gestures share: the record a gesture writes
    for a frame it shows, and the release snapping of a moved frame to the bar
    and track grid (`frame.origin.x = round(...) * barWidth + headerWidth`, then
    the same for y). */
module EditingGesture {
  import opened Base
  import opened Geometry
  import opened Timeline
  import opened EditingRegion

  /** The record a gesture writes while showing `frame`: its centre, the
      given size, its period and the state. */
  function Showing(o: Options, id: Option<Id>, frame: Rect, size: Size, state: EditingGestureState): EditingSelection
    requires o.barWidth > 0.0
  {
    EditingSelection(id, Mid(frame), size, PeriodFor(o, frame), state)
  }

  /** The frame a release settles on: moved by the translation, then its origin
      snapped to the grid. */
  function ReleaseFrame(o: Options, frame: Rect, translation: Size): (r: Rect)
    requires ValidOptions(o)
    ensures r.size == frame.size
    ensures IsIntegral(Bars(o, MinX(r))) && IsIntegral((MinY(r) - o.rulerHeight) / o.trackHeight)
    ensures -o.barWidth / 2.0 <= MinX(r) - (MinX(frame) + translation.width) <= o.barWidth / 2.0
    ensures -o.trackHeight / 2.0 <= MinY(r) - (MinY(frame) + translation.height) <= o.trackHeight / 2.0
  {
    SnapOrigin(o, OffsetBy(frame, translation.width, translation.height))
  }

  /** Releasing a settled frame where it is leaves it there. */
  lemma {:induction false} ReleaseFrameIdempotent(o: Options, frame: Rect, translation: Size)
    requires ValidOptions(o)
    ensures ReleaseFrame(o, ReleaseFrame(o, frame, translation), ZeroSize) == ReleaseFrame(o, frame, translation)
  {
    var moved := OffsetBy(frame, translation.width, translation.height);
    assert OffsetBy(SnapOrigin(o, moved), 0.0, 0.0) == SnapOrigin(o, moved);
    SnapOriginIdempotent(o, moved);
  }

  /** The settled frame's period starts exactly at its x in bars, a whole number. */
  lemma {:induction false} ReleasePeriodStartsOnBar(o: Options, frame: Rect, translation: Size)
    requires ValidOptions(o)
    ensures PeriodFor(o, ReleaseFrame(o, frame, translation)).lower == Bars(o, MinX(ReleaseFrame(o, frame, translation)))
    ensures IsIntegral(PeriodFor(o, ReleaseFrame(o, frame, translation)).lower)
  {
    SnappedPeriodStart(o, OffsetBy(frame, translation.width, translation.height));
  }

  /** A settled frame `n` bars wide spans exactly `n` whole bars from its x in bars. */
  lemma {:induction false} SettledPeriodSpansWidth(o: Options, frame: Rect, translation: Size, n: nat)
    requires ValidOptions(o) && frame.size.width == n as real * o.barWidth
    ensures var settled := ReleaseFrame(o, frame, translation);
            var p := PeriodFor(o, settled);
            p.lower == Bars(o, MinX(settled)) && p.upper - p.lower == n as real
  {
    var moved := OffsetBy(frame, translation.width, translation.height);
    var k := Round((MinX(moved) - o.headerWidth) / o.barWidth);
    SnapAxisOnGrid(MinX(moved), o.headerWidth, o.barWidth);
    GridFramePeriod(o, ReleaseFrame(o, frame, translation), k, n);
    ReleasePeriodStartsOnBar(o, frame, translation);
  }

  /** The release snapping as the closures write it: the moved frame's x origin
      is rounded in place, then its y origin. */
  method SettleInPlace(o: Options, frame: Rect, translation: Size) returns (settled: Rect)
    requires ValidOptions(o)
    ensures settled == ReleaseFrame(o, frame, translation)
  {
    settled := OffsetBy(frame, translation.width, translation.height);
    ghost var moved := settled;
    settled := settled.(origin := settled.origin.(x := Round((MinX(settled) - o.headerWidth) / o.barWidth) as real * o.barWidth + o.headerWidth));
    assert settled.origin.x == SnapAxis(MinX(moved), o.headerWidth, o.barWidth);
    settled := settled.(origin := settled.origin.(y := Round((MinY(settled) - o.rulerHeight) / o.trackHeight) as real * o.trackHeight + o.rulerHeight));
    assert settled.origin.y == SnapAxis(MinY(moved), o.rulerHeight, o.trackHeight);
  }
}
