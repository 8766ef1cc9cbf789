/** `TrackLaneDragGestureBackground`: the empty area of the single-lane editor.
    A drag shows a new one-bar region following the pointer; the release
    settles it on the grid, moved by the drag's actual translation. A tap clears
    the selection. */
module TrackLaneDragGestureBackground {
  import opened Base
  import opened Geometry
  import opened Timeline
  import opened EditingRegion
  import opened GestureValue
  import opened EditingGesture

  /** The one-bar, one-track frame a drag starts from: its left edge half a bar
      left of the start point, its top at the start point. */
  function StartFrame(o: Options, value: DragValue): (r: Rect)
    ensures r.size == Size(o.barWidth, o.trackHeight)
    ensures Mid(r) == Point(value.startLocation.x, value.startLocation.y + o.trackHeight / 2.0)
  {
    Rect(Point(value.startLocation.x - o.barWidth / 2.0, value.startLocation.y), Size(o.barWidth, o.trackHeight))
  }

  /** The selection `onChanged` writes: a new region without an id, one bar by
      one track, centred half a track below the pointer. */
  function Changed(o: Options, value: DragValue): (r: EditingSelection)
    requires ValidOptions(o)
    ensures r.id.None? && r.state == Dragging && r.size == Size(o.barWidth, o.trackHeight)
    ensures r.position == Point(value.startLocation.x + value.translation.width,
                                value.startLocation.y + o.trackHeight / 2.0 + value.translation.height)
    ensures r.period == PeriodFor(o, OffsetBy(StartFrame(o, value), value.translation.width, value.translation.height))
  {
    Showing(o, None, OffsetBy(StartFrame(o, value), value.translation.width, value.translation.height), Size(o.barWidth, o.trackHeight), Dragging)
  }

  /** The selection `onEnded` writes: the start frame moved by the translation
      and settled on the grid, focused. */
  function Ended(o: Options, value: DragValue): (r: EditingSelection)
    requires ValidOptions(o)
    ensures var settled := ReleaseFrame(o, StartFrame(o, value), value.translation);
            r.id.None? && r.state == Focused && r.size == Size(o.barWidth, o.trackHeight)
            && r.position == Mid(settled) && r.period == PeriodFor(o, settled)
  {
    Showing(o, None, ReleaseFrame(o, StartFrame(o, value), value.translation), Size(o.barWidth, o.trackHeight), Focused)
  }

  /** A release commits exactly one whole bar, the one whose left edge is
      nearest the dragged frame's. */
  lemma {:induction false} ReleaseIsOneBar(o: Options, value: DragValue)
    requires ValidOptions(o)
    ensures var p := Ended(o, value).period;
            IsIntegral(p.lower) && p.upper - p.lower == 1.0
            && -0.5 <= p.lower - Bars(o, value.startLocation.x - o.barWidth / 2.0 + value.translation.width) <= 0.5
  {
    var start := StartFrame(o, value);
    var settled := ReleaseFrame(o, start, value.translation);
    SettledPeriodSpansWidth(o, start, value.translation, 1);
    ReleasePeriodStartsOnBar(o, start, value.translation);
    BarsNear(o, MinX(settled), MinX(start) + value.translation.width);
  }

  /** The background and the selection binding it writes. */
  class TrackLaneDragGestureBackground {
    const options: Options
    var selection: Option<EditingSelection>

    constructor (options: Options, selection: Option<EditingSelection>)
      requires ValidOptions(options)
      ensures this.options == options && this.selection == selection
    {
      this.options := options;
      this.selection := selection;
    }

    /** `onTapGesture`: a tap clears the selection. */
    method Tap()
      modifies this
      ensures selection.None?
    {
      if selection.Some? {
        selection := None;
      }
    }

    /** The `onChanged` closure. */
    method OnChanged(value: DragValue)
      requires ValidOptions(options)
      modifies this
      ensures selection == Some(Changed(options, value))
    {
      var frame := Rect(Point(value.startLocation.x - options.barWidth / 2.0, value.startLocation.y), Size(options.barWidth, options.trackHeight));
      frame := OffsetBy(frame, value.translation.width, value.translation.height);
      var position := Point(MidX(frame), MidY(frame));
      var period := PeriodFor(options, frame);
      selection := Some(EditingSelection(None, position, frame.size, period, Dragging));
    }

    /** The `onEnded` closure: the moved frame is settled on the grid in place. */
    method OnEnded(value: DragValue)
      requires ValidOptions(options)
      modifies this
      ensures selection == Some(Ended(options, value))
    {
      var frame := Rect(Point(value.startLocation.x - options.barWidth / 2.0, value.startLocation.y), Size(options.barWidth, options.trackHeight));
      frame := SettleInPlace(options, frame, value.translation);
      var position := Point(MidX(frame), MidY(frame));
      var period := PeriodFor(options, frame);
      selection := Some(EditingSelection(None, position, frame.size, period, Focused));
    }
  }
}
