/** `Gestures/RegionDragGestureOverlay`: the same plain drag as the single-lane
    overlay, writing a selection that also carries the region's tag. */
module TaggedRegionDragGestureOverlay {
  import opened Base
  import opened Geometry
  import opened Timeline
  import opened EditingRegion
  import opened GestureValue
  import opened EditingGesture
  import Untagged = RegionDragGestureOverlay

  /** The view's inputs: options, the region's optional id, its tag, and its
      measured frame and size. */
  datatype View = View(options: Options, id: Option<Id>, tag: Id, frame: Rect, size: Size)

  /** The same view without its tag. */
  function Untag(v: View): Untagged.View {
    Untagged.View(v.options, v.id, v.frame, v.size)
  }

  /** The tagged record of an untagged one. */
  function Tagged(tag: Id, s: EditingSelection): (r: TaggedEditingSelection)
    ensures r.tag == tag && r.id == s.id && r.position == s.position && r.size == s.size
            && r.period == s.period && r.state == s.state
  {
    TaggedEditingSelection(s.id, tag, s.position, s.size, s.period, s.state)
  }

  /** The selection `onChanged` writes: its centre follows the translation. */
  function Changed(v: View, value: DragValue): (r: TaggedEditingSelection)
    requires ValidOptions(v.options)
    ensures r.id == v.id && r.tag == v.tag && r.size == v.size && r.state == Dragging
    ensures r.position == Point(MidX(v.frame) + value.translation.width, MidY(v.frame) + value.translation.height)
  {
    var moved := OffsetBy(v.frame, value.translation.width, value.translation.height);
    TaggedEditingSelection(v.id, v.tag, Mid(moved), v.size, PeriodFor(v.options, moved), Dragging)
  }

  /** The selection `onEnded` writes: focused, centred on the settled frame. */
  function Ended(v: View, value: DragValue): (r: TaggedEditingSelection)
    requires ValidOptions(v.options)
    ensures var settled := ReleaseFrame(v.options, v.frame, value.predictedEndTranslation);
            r.id == v.id && r.tag == v.tag && r.size == v.size && r.state == Focused
            && r.position == Mid(settled) && r.period == PeriodFor(v.options, settled)
  {
    var settled := ReleaseFrame(v.options, v.frame, value.predictedEndTranslation);
    TaggedEditingSelection(v.id, v.tag, Mid(settled), v.size, PeriodFor(v.options, settled), Focused)
  }

  /** Apart from the tag, the tagged overlay writes exactly what the untagged
      one writes, on every change and every release. */
  lemma {:induction false} AgreesWithUntagged(v: View, value: DragValue)
    requires ValidOptions(v.options)
    ensures Changed(v, value) == Tagged(v.tag, Untagged.Changed(Untag(v), value))
    ensures Ended(v, value) == Tagged(v.tag, Untagged.Ended(Untag(v), value))
  {
  }

  /** After snapping, the committed period starts on a whole bar, the settled
      frame's left edge in bars. */
  lemma {:induction false} ReleaseStartsOnBar(v: View, value: DragValue)
    requires ValidOptions(v.options)
    ensures IsIntegral(Ended(v, value).period.lower)
    ensures Ended(v, value).period.lower == Bars(v.options, MinX(ReleaseFrame(v.options, v.frame, value.predictedEndTranslation)))
  {
    ReleasePeriodStartsOnBar(v.options, v.frame, value.predictedEndTranslation);
  }

  /** The overlay and the selection binding it writes. */
  class TaggedRegionDragGestureOverlay {
    const view: View
    var selection: Option<TaggedEditingSelection>

    constructor (view: View, selection: Option<TaggedEditingSelection>)
      requires ValidOptions(view.options)
      ensures this.view == view && this.selection == selection
    {
      this.view := view;
      this.selection := selection;
    }

    /** The `onChanged` closure. */
    method OnChanged(value: DragValue)
      requires ValidOptions(view.options)
      modifies this
      ensures selection == Some(Changed(view, value))
    {
      var frame := OffsetBy(view.frame, value.translation.width, value.translation.height);
      var position := Point(MidX(frame), MidY(frame));
      var period := PeriodFor(view.options, frame);
      selection := Some(TaggedEditingSelection(view.id, view.tag, position, view.size, period, Dragging));
    }

    /** The `onEnded` closure: the moved frame is settled on the grid in place. */
    method OnEnded(value: DragValue)
      requires ValidOptions(view.options)
      modifies this
      ensures selection == Some(Ended(view, value))
    {
      var frame := SettleInPlace(view.options, view.frame, value.predictedEndTranslation);
      var position := Point(MidX(frame), MidY(frame));
      var period := PeriodFor(view.options, frame);
      selection := Some(TaggedEditingSelection(view.id, view.tag, position, view.size, period, Focused));
    }
  }
}
