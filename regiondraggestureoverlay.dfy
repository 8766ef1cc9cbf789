/** `RegionDragGestureOverlay`: a plain drag on a region of the single-lane
    editor. Each change shows the region moved by the translation; the release
    settles the frame moved by the predicted end translation on the grid. No
    state is read: every event overwrites the selection. */
module RegionDragGestureOverlay {
  import opened Base
  import opened Geometry
  import opened Timeline
  import opened EditingRegion
  import opened GestureValue
  import opened EditingGesture

  /** The view's inputs: options, the region's optional id, and its measured
      frame and size. */
  datatype View = View(options: Options, id: Option<Id>, frame: Rect, size: Size)

  /** The selection `onChanged` writes: the region's centre follows the
      pointer's translation, its period is that of the moved frame. */
  function Changed(v: View, value: DragValue): (r: EditingSelection)
    requires ValidOptions(v.options)
    ensures r.id == v.id && r.size == v.size && r.state == Dragging
    ensures r.position == Point(MidX(v.frame) + value.translation.width, MidY(v.frame) + value.translation.height)
    ensures r.period == PeriodFor(v.options, OffsetBy(v.frame, value.translation.width, value.translation.height))
  {
    Showing(v.options, v.id, OffsetBy(v.frame, value.translation.width, value.translation.height), v.size, Dragging)
  }

  /** The selection `onEnded` writes: focused, centred on the settled frame. */
  function Ended(v: View, value: DragValue): (r: EditingSelection)
    requires ValidOptions(v.options)
    ensures var settled := ReleaseFrame(v.options, v.frame, value.predictedEndTranslation);
            r.id == v.id && r.size == v.size && r.state == Focused
            && r.position == Mid(settled) && r.period == PeriodFor(v.options, settled)
  {
    Showing(v.options, v.id, ReleaseFrame(v.options, v.frame, value.predictedEndTranslation), v.size, Focused)
  }

  /** A region `n` bars wide is released onto exactly `n` whole bars, starting
      at the bar the settled frame's left edge sits on. */
  lemma {:induction false} ReleaseKeepsBarCount(v: View, value: DragValue, n: nat)
    requires ValidOptions(v.options) && v.frame.size.width == n as real * v.options.barWidth
    ensures var p := Ended(v, value).period;
            IsIntegral(p.lower) && p.upper - p.lower == n as real
            && p.lower == Bars(v.options, MinX(ReleaseFrame(v.options, v.frame, value.predictedEndTranslation)))
  {
    SettledPeriodSpansWidth(v.options, v.frame, value.predictedEndTranslation, n);
    ReleasePeriodStartsOnBar(v.options, v.frame, value.predictedEndTranslation);
  }

  /** The settled centre is within half a bar and half a track of where the
      drag predicted the region would end. */
  lemma {:induction false} ReleaseNearPrediction(v: View, value: DragValue)
    requires ValidOptions(v.options)
    ensures var r := Ended(v, value);
            var o := v.options;
            var t := value.predictedEndTranslation;
            -o.barWidth / 2.0 <= r.position.x - (MidX(v.frame) + t.width) <= o.barWidth / 2.0
            && -o.trackHeight / 2.0 <= r.position.y - (MidY(v.frame) + t.height) <= o.trackHeight / 2.0
  {
  }

  /** The overlay and the selection binding it writes. */
  class RegionDragGestureOverlay {
    const view: View
    var selection: Option<EditingSelection>

    constructor (view: View, selection: Option<EditingSelection>)
      requires ValidOptions(view.options)
      ensures this.view == view && this.selection == selection
    {
      this.view := view;
      this.selection := selection;
    }

    /** The `onChanged` closure. */
    method OnChanged(value: DragValue)
      requires ValidOptions(view.options)
      modifies this
      ensures selection == Some(Changed(view, value))
    {
      var frame := OffsetBy(view.frame, value.translation.width, value.translation.height);
      var position := Point(MidX(frame), MidY(frame));
      var period := PeriodFor(view.options, frame);
      selection := Some(EditingSelection(view.id, position, view.size, period, Dragging));
    }

    /** The `onEnded` closure: the moved frame is settled on the grid in place. */
    method OnEnded(value: DragValue)
      requires ValidOptions(view.options)
      modifies this
      ensures selection == Some(Ended(view, value))
    {
      var frame := SettleInPlace(view.options, view.frame, value.predictedEndTranslation);
      var position := Point(MidX(frame), MidY(frame));
      var period := PeriodFor(view.options, frame);
      selection := Some(EditingSelection(view.id, position, view.size, period, Focused));
    }
  }
}
