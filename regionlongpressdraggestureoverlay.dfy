/** `RegionLongPressDragGestureOverlay`: a region moved by a long press followed
    by a drag. While the selection is not focused, a confirmed press shows the
    region as pressing, a drag shows it moved; the release settles it on the
    grid as focused. Releasing while focused clears the selection. */
module RegionLongPressDragGestureOverlay {
  import opened Base
  import opened Geometry
  import opened Timeline
  import opened EditingRegion
  import opened GestureValue
  import opened EditingGesture

  /** The view's inputs: options, the region's id, and its measured frame and size. */
  datatype View = View(options: Options, id: Id, frame: Rect, size: Size)

  /** `selection.wrappedValue?.state != .focused`: true for no selection too. */
  predicate NotFocused(s: Option<EditingSelection>) {
    !(s.Some? && s.value.state == Focused)
  }

  /** The selection after `onChanged`. */
  function Changed(v: View, current: Option<EditingSelection>, value: SequenceValue): (r: Option<EditingSelection>)
    requires ValidOptions(v.options)
    ensures !NotFocused(current) ==> r == current
    ensures value.First? || !value.secondPressed ==> r == current
    ensures NotFocused(current) && value.Second? && value.secondPressed && value.drag.None? ==>
      r == Some(EditingSelection(Some(v.id), Mid(v.frame), v.size, PeriodFor(v.options, v.frame), Pressing))
    ensures NotFocused(current) && value.Second? && value.secondPressed && value.drag.Some? ==>
      var moved := OffsetBy(v.frame, value.drag.value.translation.width, value.drag.value.translation.height);
      r == Some(EditingSelection(Some(v.id), Mid(moved), v.size, PeriodFor(v.options, moved), Dragging))
    ensures r != current ==> r.Some? && r.value.size == v.size && r.value.id == Some(v.id)
  {
    if !NotFocused(current) then current
    else match value
      case Second(true, Some(drag)) =>
        Some(Showing(v.options, Some(v.id), OffsetBy(v.frame, drag.translation.width, drag.translation.height), v.size, Dragging))
      case Second(true, None) =>
        Some(Showing(v.options, Some(v.id), v.frame, v.size, Pressing))
      case _ => current
  }

  /** The selection after `onEnded`: a confirmed press-and-drag settles on the
      grid, moved by the predicted end translation; any other release changes
      nothing; a release while focused clears the selection. */
  function Ended(v: View, current: Option<EditingSelection>, value: SequenceValue): (r: Option<EditingSelection>)
    requires ValidOptions(v.options)
    ensures !NotFocused(current) ==> r.None?
    ensures NotFocused(current) && !(value.Second? && value.secondPressed && value.drag.Some?) ==> r == current
    ensures NotFocused(current) && value.Second? && value.secondPressed && value.drag.Some? ==>
      var settled := ReleaseFrame(v.options, v.frame, value.drag.value.predictedEndTranslation);
      r == Some(EditingSelection(Some(v.id), Mid(settled), v.size, PeriodFor(v.options, settled), Focused))
  {
    if NotFocused(current) then
      match value
      case Second(true, Some(drag)) =>
        Some(Showing(v.options, Some(v.id), ReleaseFrame(v.options, v.frame, drag.predictedEndTranslation), v.size, Focused))
      case _ => current
    else None
  }

  /** The settled selection sits on the grid, within half a cell of where the
      drag predicted it would end, and keeps the region's size. */
  lemma {:induction false} ReleaseSettlesOnGrid(v: View, current: Option<EditingSelection>, drag: DragValue)
    requires ValidOptions(v.options) && NotFocused(current)
    ensures var r := Ended(v, current, Second(true, Some(drag)));
            var settled := ReleaseFrame(v.options, v.frame, drag.predictedEndTranslation);
            r.Some? && r.value.state == Focused && r.value.size == v.size
            && r.value.position == Mid(settled)
            && IsIntegral(Bars(v.options, MinX(settled)))
            && IsIntegral((MinY(settled) - v.options.rulerHeight) / v.options.trackHeight)
            && -v.options.barWidth / 2.0 <= MinX(settled) - (MinX(v.frame) + drag.predictedEndTranslation.width) <= v.options.barWidth / 2.0
            && IsIntegral(r.value.period.lower) && r.value.period.lower == Bars(v.options, MinX(settled))
  {
    ReleasePeriodStartsOnBar(v.options, v.frame, drag.predictedEndTranslation);
  }

  /** A press, a drag and a release take an idle region to a focused one of the
      same id and size; releasing again clears it. */
  lemma {:induction false} PressDragReleaseThenRelease(v: View, drag: DragValue, again: SequenceValue)
    requires ValidOptions(v.options)
    ensures var pressed := Changed(v, None, Second(true, None));
            var dragged := Changed(v, pressed, Second(true, Some(drag)));
            var released := Ended(v, dragged, Second(true, Some(drag)));
            pressed.Some? && pressed.value.state == Pressing
            && dragged.Some? && dragged.value.state == Dragging
            && released.Some? && released.value.state == Focused
            && released.value.id == Some(v.id) && released.value.size == v.size
            && Ended(v, released, again).None?
  {
  }

  /** The overlay and the selection binding it writes. */
  class RegionLongPressDragGestureOverlay {
    const view: View
    var selection: Option<EditingSelection>

    constructor (view: View, selection: Option<EditingSelection>)
      requires ValidOptions(view.options)
      ensures this.view == view && this.selection == selection
    {
      this.view := view;
      this.selection := selection;
    }

    /** The `onChanged` closure. */
    method OnChanged(value: SequenceValue)
      requires ValidOptions(view.options)
      modifies this
      ensures selection == Changed(view, old(selection), value)
    {
      if selection.None? || selection.value.state != Focused {
        if value.Second? && value.secondPressed {
          if value.drag.Some? {
            var drag := value.drag.value;
            var frame := OffsetBy(view.frame, drag.translation.width, drag.translation.height);
            var position := Point(MidX(frame), MidY(frame));
            var period := PeriodFor(view.options, frame);
            selection := Some(EditingSelection(Some(view.id), position, view.size, period, Dragging));
          } else {
            var position := Point(MidX(view.frame), MidY(view.frame));
            var period := PeriodFor(view.options, view.frame);
            selection := Some(EditingSelection(Some(view.id), position, view.size, period, Pressing));
          }
        }
      }
    }

    /** The `onEnded` closure: the moved frame is settled on the grid in place. */
    method OnEnded(value: SequenceValue)
      requires ValidOptions(view.options)
      modifies this
      ensures selection == Ended(view, old(selection), value)
    {
      var o := view.options;
      if selection.None? || selection.value.state != Focused {
        if !(value.Second? && value.secondPressed && value.drag.Some?) {
          return;
        }
        var drag := value.drag.value;
        var frame := SettleInPlace(o, view.frame, drag.predictedEndTranslation);
        var position := Point(MidX(frame), MidY(frame));
        var period := PeriodFor(o, frame);
        selection := Some(EditingSelection(Some(view.id), position, view.size, period, Focused));
      } else {
        selection := None;
      }
    }
  }
}
