/** `RegionLongPressDragGesture`: the long-press-then-drag gesture of a region
    of a known frame. Unlike the overlay view it has no focus guard: a confirmed
    press always shows the region as pressing, a drag as moved, and a confirmed
    press-and-drag release settles it on the grid as focused; every other
    release leaves the selection alone. */
module RegionLongPressDragGesture {
  import opened Base
  import opened Geometry
  import opened Timeline
  import opened EditingRegion
  import opened GestureValue
  import opened EditingGesture
  import Overlay = RegionLongPressDragGestureOverlay

  /** The gesture's inputs: options, the region's optional id and its frame. */
  datatype Gesture = Gesture(options: Options, id: Option<Id>, frame: Rect)

  /** The selection after `onChanged`. */
  function Changed(g: Gesture, current: Option<EditingSelection>, value: SequenceValue): (r: Option<EditingSelection>)
    requires ValidOptions(g.options)
    ensures value.First? || !value.secondPressed ==> r == current
    ensures value.Second? && value.secondPressed && value.drag.None? ==>
      r == Some(EditingSelection(g.id, Mid(g.frame), g.frame.size, PeriodFor(g.options, g.frame), Pressing))
    ensures value.Second? && value.secondPressed && value.drag.Some? ==>
      var moved := OffsetBy(g.frame, value.drag.value.translation.width, value.drag.value.translation.height);
      r == Some(EditingSelection(g.id, Mid(moved), g.frame.size, PeriodFor(g.options, moved), Dragging))
  {
    match value
    case Second(true, Some(drag)) =>
      Some(Showing(g.options, g.id, OffsetBy(g.frame, drag.translation.width, drag.translation.height), g.frame.size, Dragging))
    case Second(true, None) =>
      Some(Showing(g.options, g.id, g.frame, g.frame.size, Pressing))
    case _ => current
  }

  /** The selection after `onEnded`: only a confirmed press followed by a drag
      changes it, settling the frame moved by the predicted end translation on
      the grid. */
  function Ended(g: Gesture, current: Option<EditingSelection>, value: SequenceValue): (r: Option<EditingSelection>)
    requires ValidOptions(g.options)
    ensures !(value.Second? && value.secondPressed && value.drag.Some?) ==> r == current
    ensures value.Second? && value.secondPressed && value.drag.Some? ==>
      var settled := ReleaseFrame(g.options, g.frame, value.drag.value.predictedEndTranslation);
      r == Some(EditingSelection(g.id, Mid(settled), g.frame.size, PeriodFor(g.options, settled), Focused))
  {
    match value
    case Second(true, Some(drag)) =>
      Some(Showing(g.options, g.id, ReleaseFrame(g.options, g.frame, drag.predictedEndTranslation), g.frame.size, Focused))
    case _ => current
  }

  /** Wherever it is released, a settled region starts on a bar and is shown
      with its own size. */
  lemma {:induction false} ReleaseStartsOnBar(g: Gesture, current: Option<EditingSelection>, drag: DragValue)
    requires ValidOptions(g.options)
    ensures var r := Ended(g, current, Second(true, Some(drag)));
            r.Some? && r.value.state == Focused && r.value.size == g.frame.size
            && IsIntegral(r.value.period.lower)
            && r.value.period.lower == Bars(g.options, MinX(ReleaseFrame(g.options, g.frame, drag.predictedEndTranslation)))
  {
    ReleasePeriodStartsOnBar(g.options, g.frame, drag.predictedEndTranslation);
  }

  /** While the selection is not focused, the overlay view of a region with an
      id behaves exactly like this gesture on the frame it measured; the only
      difference between the two is the overlay's focus guard. */
  lemma {:induction false} AgreesWithOverlayWhenNotFocused(o: Options, id: Id, frame: Rect, current: Option<EditingSelection>, value: SequenceValue)
    requires ValidOptions(o) && Overlay.NotFocused(current)
    ensures Overlay.Changed(Overlay.View(o, id, frame, frame.size), current, value) == Changed(Gesture(o, Some(id), frame), current, value)
    ensures Overlay.Ended(Overlay.View(o, id, frame, frame.size), current, value) == Ended(Gesture(o, Some(id), frame), current, value)
  {
  }

  /** A focused selection: the gesture moves it again, the overlay leaves it. */
  lemma {:induction false} DiffersFromOverlayWhenFocused(o: Options, id: Id, frame: Rect, s: EditingSelection, drag: DragValue)
    requires ValidOptions(o) && s.state == Focused
    ensures Overlay.Changed(Overlay.View(o, id, frame, frame.size), Some(s), Second(true, Some(drag))) == Some(s)
    ensures Changed(Gesture(o, Some(id), frame), Some(s), Second(true, Some(drag))).value.state == Dragging
    ensures Overlay.Ended(Overlay.View(o, id, frame, frame.size), Some(s), Second(true, Some(drag))).None?
    ensures Ended(Gesture(o, Some(id), frame), Some(s), Second(true, Some(drag))).value.state == Focused
  {
  }

  /** The gesture and the selection binding it writes. */
  class RegionLongPressDragGesture {
    const gesture: Gesture
    var selection: Option<EditingSelection>

    constructor (gesture: Gesture, selection: Option<EditingSelection>)
      requires ValidOptions(gesture.options)
      ensures this.gesture == gesture && this.selection == selection
    {
      this.gesture := gesture;
      this.selection := selection;
    }

    /** The `onChanged` closure. */
    method OnChanged(value: SequenceValue)
      requires ValidOptions(gesture.options)
      modifies this
      ensures selection == Changed(gesture, old(selection), value)
    {
      if value.Second? && value.secondPressed {
        var frame := gesture.frame;
        if value.drag.Some? {
          var drag := value.drag.value;
          frame := OffsetBy(gesture.frame, drag.translation.width, drag.translation.height);
          selection := Some(EditingSelection(gesture.id, Point(MidX(frame), MidY(frame)), gesture.frame.size, PeriodFor(gesture.options, frame), Dragging));
        } else {
          selection := Some(EditingSelection(gesture.id, Point(MidX(frame), MidY(frame)), gesture.frame.size, PeriodFor(gesture.options, frame), Pressing));
        }
      }
    }

    /** The `onEnded` closure: the moved frame is settled on the grid in place. */
    method OnEnded(value: SequenceValue)
      requires ValidOptions(gesture.options)
      modifies this
      ensures selection == Ended(gesture, old(selection), value)
    {
      if !(value.Second? && value.secondPressed && value.drag.Some?) {
        return;
      }
      var o := gesture.options;
      var drag := value.drag.value;
      var frame := SettleInPlace(o, gesture.frame, drag.predictedEndTranslation);
      selection := Some(EditingSelection(gesture.id, Point(MidX(frame), MidY(frame)), gesture.frame.size, PeriodFor(o, frame), Focused));
    }
  }
}
