/** `TrackGestureHandler`: turns a region drag or edge drag of the track into
    an in-flight `RegionSelection`, and on release resolves the dragged frame to
    an integer `RegionAddress` plus a deferred move action that either goes to
    the host's callback or is applied at once. */
module TrackGestureHandler {
  import opened Base
  import opened Geometry
  import opened Timeline
  import opened Selection
  import opened GestureValue
  import opened MoveCommit
  import opened LanePreference
  import opened HitTest

  /** The handler's stored configuration: options, lane range, the selection the
      gesture continues (if any), and whether `onTrackDragGestureEnded` is set. */
  datatype Handler = Handler(options: Options, laneRange: IntRange, regionSelection: Option<RegionSelection>, hasEndedCallback: bool)

  /** The selection state a committed address is shown with. */
  function CommittedState(h: Handler, address: RegionAddress, lane: LanePreference): State {
    var width := address.range.Count() as real * h.options.barWidth;
    State(Point((address.range.lower - h.laneRange.lower) as real * h.options.barWidth + h.options.headerWidth + width / 2.0,
                MidY(lane.bounds)),
          Size(width, h.options.trackHeight), ZeroSize)
  }

  /** `makeRegionSelection(regionID:address:geometoryProxy:lanePreferences:)`:
      nothing when the address's lane is not registered; otherwise a focused
      selection spanning the address's bars in that lane, whose leading edge sits
      at the address's lower bound counted from the lane range's start. */
  function MakeRegionSelection(h: Handler, regionID: Option<Id>, address: RegionAddress, lanePreferences: seq<LanePreference>): (r: Option<RegionSelection>)
    ensures r.None? <==> Get(lanePreferences, address.laneID).None?
    ensures r.Some? ==>
      var after := r.value.changes.after;
      r.value.id == regionID && r.value.laneID == address.laneID && r.value.gestureState == Focused
      && r.value.changes.before == after && after.offset == ZeroSize
      && after.size == Size(address.range.Count() as real * h.options.barWidth, h.options.trackHeight)
      && after.position.x - after.size.width / 2.0
         == (address.range.lower - h.laneRange.lower) as real * h.options.barWidth + h.options.headerWidth
      && after.position.y == MidY(Get(lanePreferences, address.laneID).value.bounds)
      && r.value.period == RealRange(address.range.lower as real, address.range.upper as real)
      && r.value.startState == (if h.regionSelection.Some? then h.regionSelection.value.startState else after)
  {
    match Get(lanePreferences, address.laneID)
    case None => None
    case Some(preference) =>
      var current := CommittedState(h, address, preference);
      var startState := if h.regionSelection.Some? then h.regionSelection.value.startState else current;
      Some(RegionSelection(regionID, address.laneID, startState, Changes(current, current),
                           RealRange(address.range.lower as real, address.range.upper as real), Focused))
  }

  /** The deferred `RegionMoveAction` of this handler: what its closure captured. */
  datatype MoveAction = MoveAction(handler: Handler, regionID: Option<Id>, lanePreferences: seq<LanePreference>)

  /** Calling the action with an address: the selection it passes to `perform`,
      or nothing when the guard on the lane lookup returns early. */
  function Apply(action: MoveAction, address: RegionAddress): (r: Option<RegionSelection>)
    ensures r.None? <==> Get(action.lanePreferences, address.laneID).None?
    ensures r.Some? ==> r.value.gestureState == Focused && r.value.laneID == address.laneID && r.value.id == action.regionID
  {
    MakeRegionSelection(action.handler, action.regionID, address, action.lanePreferences)
  }

  /** `onDragGestureChanged`: a dragging selection showing the untranslated frame
      with the translation as its offset; the start state and `changes.before`
      are carried over from the selection being continued. The period is the
      translated frame's edges measured in frame widths. */
  function DragChanged(h: Handler, id: Option<Id>, laneID: Id, frame: Rect, gesture: DragValue): (s: RegionSelection)
    requires frame.size.width > 0.0
    ensures s.id == id && s.laneID == laneID && s.gestureState == Dragging
    ensures s.changes.after == State(Mid(frame), frame.size, gesture.translation)
    ensures s.startState == (if h.regionSelection.Some? then h.regionSelection.value.startState else s.changes.after)
    ensures s.changes.before == (if h.regionSelection.Some? then h.regionSelection.value.changes.before else s.changes.after)
    ensures s.period == InFlightPeriod(frame, gesture.translation)
  {
    var current := State(Mid(frame), frame.size, gesture.translation);
    var startState := if h.regionSelection.Some? then h.regionSelection.value.startState else current;
    var before := if h.regionSelection.Some? then h.regionSelection.value.changes.before else current;
    RegionSelection(id, laneID, startState, Changes(before, current), InFlightPeriod(frame, gesture.translation), Dragging)
  }

  /** The release range: the translated frame's leading x, relative to the header
      and clamped at zero, and its trailing x, each rounded to a bar and shifted by
      the lane range's start. */
  function DragRange(o: Options, laneRange: IntRange, frame: Rect, translation: Size): (r: IntRange)
    requires o.barWidth > 0.0
    ensures r.lower >= laneRange.lower
    ensures frame.size.width >= 0.0 ==> r.Valid()
    ensures -0.5 <= (r.lower - laneRange.lower) as real - Max(MinX(frame) + translation.width - o.headerWidth, 0.0) / o.barWidth <= 0.5
  {
    var translateFrame := OffsetBy(frame, translation.width, translation.height);
    var x := Max(MinX(translateFrame) - o.headerWidth, 0.0);
    DivMono(0.0, x, o.barWidth);
    RoundMono(0.0, x / o.barWidth);
    RoundedOrdered(x, translateFrame.size.width, o.barWidth);
    RoundNear(x / o.barWidth);
    IntRange(Round(x / o.barWidth) + laneRange.lower, Round((x + translateFrame.size.width) / o.barWidth) + laneRange.lower)
  }

  /** A frame exactly `k` bars wide resolves to a range of exactly `k` bars,
      wherever it is dropped. */
  lemma {:induction false} WholeBarsGiveWholeRange(o: Options, laneRange: IntRange, frame: Rect, translation: Size, k: nat)
    requires o.barWidth > 0.0
    requires frame.size.width == k as real * o.barWidth
    ensures DragRange(o, laneRange, frame, translation).Count() == k
  {
    var x := Max(MinX(frame) + translation.width - o.headerWidth, 0.0);
    WholeCells(x, o.barWidth, k);
  }

  /** `onDragGestureEnded`: the address is the drop lane and the release range;
      the action goes to the host when a callback is set, and is applied to the
      same address otherwise. */
  function DragEnded(h: Handler, id: Option<Id>, laneID: Id, frame: Rect, gesture: DragValue, lanePreferences: seq<LanePreference>): (r: Handoff<MoveAction, RegionSelection>)
    requires h.options.barWidth > 0.0 && frame.size.width >= 0.0
    ensures r.Address() == RegionAddress(DropLane(lanePreferences, gesture.location, laneID),
                                         DragRange(h.options, h.laneRange, frame, gesture.translation))
    ensures r.Address().range.Valid()
    ensures r.ToHost? <==> h.hasEndedCallback
    ensures r.ToHost? ==> r.action == MoveAction(h, id, lanePreferences)
    ensures r.SelfApplied? ==> r.performed == Apply(MoveAction(h, id, lanePreferences), r.address)
  {
    var address := RegionAddress(DropLane(lanePreferences, gesture.location, laneID),
                                 DragRange(h.options, h.laneRange, frame, gesture.translation));
    var action := MoveAction(h, id, lanePreferences);
    if h.hasEndedCallback then ToHost(address, action) else SelfApplied(address, Apply(action, address))
  }

  /** Deferral changes nothing: a host that runs the action it received with the
      address it received gets exactly the selection the handler would have applied
      itself without a callback. */
  lemma {:induction false} DeferredEqualsImmediate(h: Handler, id: Option<Id>, laneID: Id, frame: Rect, gesture: DragValue, lanePreferences: seq<LanePreference>)
    requires h.options.barWidth > 0.0 && frame.size.width >= 0.0
    ensures var deferred := DragEnded(h.(hasEndedCallback := true), id, laneID, frame, gesture, lanePreferences);
            var immediate := DragEnded(h.(hasEndedCallback := false), id, laneID, frame, gesture, lanePreferences);
            deferred.ToHost? && immediate.SelfApplied? && deferred.address == immediate.address
            && Apply(deferred.action, deferred.address) == immediate.performed
  {
    var address := DragEnded(h, id, laneID, frame, gesture, lanePreferences).Address();
    SelectionIgnoresCallback(h, id, address, lanePreferences);
  }

  /** The committed selection does not depend on whether a callback is set. */
  lemma SelectionIgnoresCallback(h: Handler, regionID: Option<Id>, address: RegionAddress, lanePreferences: seq<LanePreference>)
    ensures MakeRegionSelection(h.(hasEndedCallback := true), regionID, address, lanePreferences)
         == MakeRegionSelection(h.(hasEndedCallback := false), regionID, address, lanePreferences)
  {
    var a, b := h.(hasEndedCallback := true), h.(hasEndedCallback := false);
    match Get(lanePreferences, address.laneID)
    case None =>
    case Some(p) =>
      assert CommittedState(a, address, p) == CommittedState(b, address, p);
  }

  /** Releasing a committed selection where it stands resolves to the address it
      was committed at, as long as that address does not start before the lane. */
  lemma {:induction false} CommitThenResolve(h: Handler, regionID: Option<Id>, address: RegionAddress, lanePreferences: seq<LanePreference>)
    requires h.options.barWidth > 0.0
    requires address.range.Valid() && address.range.lower >= h.laneRange.lower
    requires MakeRegionSelection(h, regionID, address, lanePreferences).Some?
    ensures var after := MakeRegionSelection(h, regionID, address, lanePreferences).value.changes.after;
            var frame := Rect(Point(after.position.x - after.size.width / 2.0, after.position.y - after.size.height / 2.0), after.size);
            DragRange(h.options, h.laneRange, frame, ZeroSize) == address.range
  {
    var after := MakeRegionSelection(h, regionID, address, lanePreferences).value.changes.after;
    var frame := Rect(Point(after.position.x - after.size.width / 2.0, after.position.y - after.size.height / 2.0), after.size);
    var bw := h.options.barWidth;
    var n := address.range.lower - h.laneRange.lower;
    var m := address.range.upper - h.laneRange.lower;
    var x := MinX(frame) - h.options.headerWidth;
    assert x == n as real * bw;
    assert x >= 0.0;
    assert x + frame.size.width == m as real * bw by {
      assert frame.size.width == (address.range.upper - address.range.lower) as real * bw;
    }
    OnCell(n, 0.0, bw);
    OnCell(m, 0.0, bw);
    RoundOfInt(n);
    RoundOfInt(m);
  }

  /** `onEdgeDragGestureChanged`: an edge-dragging selection showing the resized
      frame with no offset, its period being the frame's edges in bars. */
  function EdgeDragChanged(h: Handler, id: Option<Id>, laneID: Id, frame: Rect): (s: RegionSelection)
    requires h.options.barWidth > 0.0
    ensures s.id == id && s.laneID == laneID && s.gestureState == EdgeDragging
    ensures s.changes.after == State(Mid(frame), frame.size, ZeroSize)
    ensures s.startState == (if h.regionSelection.Some? then h.regionSelection.value.startState else s.changes.after)
    ensures s.changes.before == (if h.regionSelection.Some? then h.regionSelection.value.changes.before else s.changes.after)
    ensures s.period == PeriodFor(h.options, frame)
  {
    var current := State(Mid(frame), frame.size, ZeroSize);
    var startState := if h.regionSelection.Some? then h.regionSelection.value.startState else current;
    var before := if h.regionSelection.Some? then h.regionSelection.value.changes.before else current;
    RegionSelection(id, laneID, startState, Changes(before, current),
                    RealRange(Round((MinX(frame) - h.options.headerWidth) / h.options.barWidth) as real,
                              Round((MaxX(frame) - h.options.headerWidth) / h.options.barWidth) as real),
                    EdgeDragging)
  }

  /** The edge-release range: the in-flight period shifted by the lane range's start. */
  function EdgeRange(o: Options, laneRange: IntRange, frame: Rect): (r: IntRange)
    requires o.barWidth > 0.0
    ensures (r.lower - laneRange.lower) as real == PeriodFor(o, frame).lower
    ensures (r.upper - laneRange.lower) as real == PeriodFor(o, frame).upper
    ensures frame.size.width >= 0.0 ==> r.Valid()
  {
    EdgesOrdered(o, frame);
    IntRange(Round((MinX(frame) - o.headerWidth) / o.barWidth) + laneRange.lower,
             Round((MaxX(frame) - o.headerWidth) / o.barWidth) + laneRange.lower)
  }

  /** A resized frame at least one bar wide commits at least one bar. */
  lemma {:induction false} EdgeRangeAtLeastOneBar(o: Options, laneRange: IntRange, frame: Rect)
    requires o.barWidth > 0.0 && frame.size.width >= o.barWidth
    ensures EdgeRange(o, laneRange, frame).Count() >= 1
  {
    var a := Bars(o, MinX(frame));
    DivMono(MinX(frame) - o.headerWidth + o.barWidth, MaxX(frame) - o.headerWidth, o.barWidth);
    DivAdd(MinX(frame) - o.headerWidth, o.barWidth, o.barWidth);
    RoundMono(a + 1.0, Bars(o, MaxX(frame)));
    RoundStep(a);
  }

  /** `onEdgeDragGestureEnded`: the address keeps the lane the resize started in,
      whatever lies under the release point; host or immediate application as on
      a drag release. */
  function EdgeDragEnded(h: Handler, id: Option<Id>, laneID: Id, frame: Rect, lanePreferences: seq<LanePreference>): (r: Handoff<MoveAction, RegionSelection>)
    requires h.options.barWidth > 0.0 && frame.size.width >= 0.0
    ensures r.Address() == RegionAddress(laneID, EdgeRange(h.options, h.laneRange, frame))
    ensures r.Address().range.Valid()
    ensures r.ToHost? <==> h.hasEndedCallback
    ensures r.ToHost? ==> r.action == MoveAction(h, id, lanePreferences)
    ensures r.SelfApplied? ==> r.performed == Apply(MoveAction(h, id, lanePreferences), r.address)
  {
    var address := RegionAddress(laneID, EdgeRange(h.options, h.laneRange, frame));
    var action := MoveAction(h, id, lanePreferences);
    if h.hasEndedCallback then ToHost(address, action) else SelfApplied(address, Apply(action, address))
  }

  /** Without a callback, an edge release inside a registered lane commits a
      focused selection whose period is the one shown while resizing, shifted by
      the lane range's start. */
  lemma {:induction false} EdgeReleaseCommitsShownPeriod(h: Handler, id: Option<Id>, laneID: Id, frame: Rect, lanePreferences: seq<LanePreference>)
    requires h.options.barWidth > 0.0 && frame.size.width >= 0.0
    requires !h.hasEndedCallback && Get(lanePreferences, laneID).Some?
    ensures var r := EdgeDragEnded(h, id, laneID, frame, lanePreferences);
            r.SelfApplied? && r.performed.Some? && r.performed.value.gestureState == Focused
            && r.performed.value.laneID == laneID
            && r.performed.value.period.lower - h.laneRange.lower as real == EdgeDragChanged(h, id, laneID, frame).period.lower
            && r.performed.value.period.upper - h.laneRange.lower as real == EdgeDragChanged(h, id, laneID, frame).period.upper
  {
  }
}
