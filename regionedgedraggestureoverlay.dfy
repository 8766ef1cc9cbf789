/** `RegionEdgeDragGestureOverlay`: the handle on a selected region's trailing
    edge. Dragging it resizes the region from the frame it had before the
    gesture, never narrower than one bar and with its leading edge fixed; the
    release commits the resized bars in the lane the overlay belongs to. With no
    selection the overlay shows no handle and does nothing. */
module RegionEdgeDragGestureOverlay {
  import opened Base
  import opened Geometry
  import opened Timeline
  import opened Selection
  import opened GestureValue
  import opened MoveCommit
  import opened LanePreference
  import opened TrackGestureHandler

  /** The overlay's inputs: options, lane range, whether
      `onRegionDragGestureEnded` is set, the region and lane ids and the registry. */
  datatype View = View(options: Options, laneRange: IntRange, hasEndedCallback: bool,
                       regionID: Option<Id>, laneID: Id, preferenceValue: seq<LanePreference>)

  /** The resized frame: the `before` state's frame with the horizontal
      translation added to its width, but at least one bar wide. */
  function EdgeFrame(o: Options, before: State, dx: real): (r: Rect)
    ensures r.size.width >= o.barWidth && r.size.height == before.size.height
    ensures before.size.width + dx >= o.barWidth ==> r.size.width == before.size.width + dx
    ensures before.size.width + dx < o.barWidth ==> r.size.width == o.barWidth
    ensures MinX(r) == before.position.x - before.size.width / 2.0
    ensures MinY(r) == before.position.y - before.size.height / 2.0
  {
    var x := before.position.x - before.size.width / 2.0;
    var y := before.position.y - before.size.height / 2.0;
    Rect(Point(x, y), Size(Max(before.size.width + dx, o.barWidth), before.size.height))
  }

  /** A wider drag never gives a narrower frame. */
  lemma {:induction false} EdgeFrameMonotone(o: Options, before: State, dx1: real, dx2: real)
    requires dx1 <= dx2
    ensures EdgeFrame(o, before, dx1).size.width <= EdgeFrame(o, before, dx2).size.width
    ensures MinX(EdgeFrame(o, before, dx1)) == MinX(EdgeFrame(o, before, dx2))
  {
  }

  /** The handler each closure builds, remembering the current selection. */
  function HandlerFor(v: View, s: RegionSelection): Handler {
    Handler(v.options, v.laneRange, Some(s), v.hasEndedCallback)
  }

  /** The selection after `onChanged`: an edge-dragging selection of the overlay's
      region and lane whose history (`startState` and `changes.before`) is the
      current selection's, showing the resized frame with no offset, its left
      edge and vertical centre those of `before`. */
  function Changed(v: View, current: Option<RegionSelection>, value: DragValue): (r: Option<RegionSelection>)
    requires ValidOptions(v.options)
    ensures r.Some? <==> current.Some?
    ensures current.Some? ==>
      var before := current.value.changes.before;
      var after := r.value.changes.after;
      r.value.gestureState == EdgeDragging
      && r.value.id == v.regionID && r.value.laneID == v.laneID
      && r.value.startState == current.value.startState && r.value.changes.before == before
      && after.offset == ZeroSize
      && after.size.width == Max(before.size.width + value.translation.width, v.options.barWidth)
      && after.size.height == before.size.height
      && after.position.x - after.size.width / 2.0 == before.position.x - before.size.width / 2.0
      && after.position.y == before.position.y
      && r.value.period == PeriodFor(v.options, EdgeFrame(v.options, before, value.translation.width))
  {
    match current
    case None => None
    case Some(s) =>
      Some(EdgeDragChanged(HandlerFor(v, s), v.regionID, v.laneID, EdgeFrame(v.options, s.changes.before, value.translation.width)))
  }

  /** However far the edge is dragged, the period shown starts where the
      region started before the gesture. */
  lemma {:induction false} ShownPeriodKeepsStart(v: View, s: RegionSelection, a: DragValue, b: DragValue)
    requires ValidOptions(v.options)
    ensures Changed(v, Some(s), a).value.period.lower == Changed(v, Some(s), b).value.period.lower
  {
  }

  /** Resizing again, from the selection a resize produced, resizes from the same
      `before` frame: successive drag events do not accumulate. */
  lemma {:induction false} ResizeDoesNotAccumulate(v: View, s: RegionSelection, a: DragValue, b: DragValue)
    requires ValidOptions(v.options)
    ensures Changed(v, Changed(v, Some(s), a), b) == Changed(v, Some(s), b)
  {
  }

  /** What `onEnded` passes through the resolver: nothing without a selection,
      otherwise `onEdgeDragGestureEnded` on the resized frame, addressed to the
      overlay's lane. */
  function Released(v: View, current: Option<RegionSelection>, value: DragValue): (r: Option<Handoff<MoveAction, RegionSelection>>)
    requires ValidOptions(v.options)
    ensures r.Some? <==> current.Some?
    ensures r.Some? ==>
      r.value.Address() == RegionAddress(v.laneID, EdgeRange(v.options, v.laneRange, EdgeFrame(v.options, current.value.changes.before, value.translation.width)))
      && r.value.Address().range.Count() >= 1
    ensures r.Some? ==> (r.value.ToHost? <==> v.hasEndedCallback)
  {
    match current
    case None => None
    case Some(s) =>
      var frame := EdgeFrame(v.options, s.changes.before, value.translation.width);
      EdgeRangeAtLeastOneBar(v.options, v.laneRange, frame);
      Some(EdgeDragEnded(HandlerFor(v, s), v.regionID, v.laneID, frame, v.preferenceValue))
  }

  /** The selection after `onEnded`: replaced by what the resolver applied
      itself, unchanged while the action waits for the host or when the lane is
      not registered. */
  function EndedSelection(v: View, current: Option<RegionSelection>, value: DragValue): (r: Option<RegionSelection>)
    requires ValidOptions(v.options)
    ensures current.None? ==> r.None?
    ensures v.hasEndedCallback ==> r == current
    ensures current.Some? && !v.hasEndedCallback && Get(v.preferenceValue, v.laneID).Some? ==>
      r.Some? && r.value.gestureState == Focused && r.value.id == v.regionID && r.value.laneID == v.laneID
  {
    match Released(v, current, value)
    case None => current
    case Some(ToHost(_, _)) => current
    case Some(SelfApplied(_, performed)) => if performed.Some? then performed else current
  }

  /** What the host's callback receives on release, if anything. */
  function HostPart(v: View, current: Option<RegionSelection>, value: DragValue): (r: Option<Handoff<MoveAction, RegionSelection>>)
    requires ValidOptions(v.options)
    ensures r.Some? <==> current.Some? && v.hasEndedCallback
    ensures r.Some? ==> r.value.ToHost? && r == Released(v, current, value)
  {
    match Released(v, current, value)
    case Some(ToHost(a, action)) => Some(ToHost(a, action))
    case _ => None
  }

  /** Dragging and releasing with the same gesture value, with no callback and
      the overlay's lane registered, commits the period shown during the drag,
      moved by the lane range's start. */
  lemma {:induction false} ReleaseCommitsShownPeriod(v: View, s: RegionSelection, value: DragValue)
    requires ValidOptions(v.options) && !v.hasEndedCallback && Get(v.preferenceValue, v.laneID).Some?
    ensures var shown := Changed(v, Some(s), value).value;
            var committed := EndedSelection(v, Changed(v, Some(s), value), value).value;
            committed.gestureState == Focused
            && committed.period.lower - v.laneRange.lower as real == shown.period.lower
            && committed.period.upper - v.laneRange.lower as real == shown.period.upper
  {
    var shown := Changed(v, Some(s), value).value;
    var frame := EdgeFrame(v.options, s.changes.before, value.translation.width);
    assert shown.changes.before == s.changes.before;
    EdgeReleaseCommitsShownPeriod(HandlerFor(v, shown), v.regionID, v.laneID, frame, v.preferenceValue);
  }

  /** The overlay and the selection binding it writes. */
  class RegionEdgeDragGestureOverlay {
    const view: View
    var selection: Option<RegionSelection>

    constructor (view: View, selection: Option<RegionSelection>)
      requires ValidOptions(view.options)
      ensures this.view == view && this.selection == selection
    {
      this.view := view;
      this.selection := selection;
    }

    /** The `onChanged` closure of the handle, present only with a selection. */
    method OnChanged(value: DragValue)
      requires ValidOptions(view.options)
      modifies this
      ensures selection == Changed(view, old(selection), value)
    {
      if selection.None? {
        return;
      }
      var current := selection.value;
      var frame := EdgeFrame(view.options, current.changes.before, value.translation.width);
      var h := HandlerFor(view, current);
      selection := Some(EdgeDragChanged(h, view.regionID, view.laneID, frame));
    }

    /** The `onEnded` closure; `handoff` is what the host's callback received. */
    method OnEnded(value: DragValue) returns (handoff: Option<Handoff<MoveAction, RegionSelection>>)
      requires ValidOptions(view.options)
      modifies this
      ensures selection == EndedSelection(view, old(selection), value)
      ensures handoff == HostPart(view, old(selection), value)
    {
      handoff := None;
      if selection.None? {
        return;
      }
      var current := selection.value;
      var frame := EdgeFrame(view.options, current.changes.before, value.translation.width);
      var h := HandlerFor(view, current);
      EdgeRangeAtLeastOneBar(view.options, view.laneRange, frame);
      var outcome := EdgeDragEnded(h, view.regionID, view.laneID, frame, view.preferenceValue);
      match outcome
      case ToHost(_, _) =>
        handoff := Some(outcome);
      case SelfApplied(_, performed) =>
        if performed.Some? {
          selection := performed;
        }
    }

    /** The host running the action it was handed. */
    method HostApply(action: MoveAction, address: RegionAddress)
      modifies this
      ensures selection == (if Apply(action, address).Some? then Apply(action, address) else old(selection))
    {
      var performed := Apply(action, address);
      if performed.Some? {
        selection := performed;
      }
    }
  }
}
