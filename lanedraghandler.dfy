/** `LaneDragGestureHandler`: the lane-relative variant of the resolver. In
    flight it reports the start and current states; on release it rounds the
    dragged frame to bars counted from the header, with neither a clamp at zero
    nor the lane range's start added, and commits a `focused` selection whose
    centre is shifted down by the ruler's height. */
module LaneDragGestureHandler {
  import opened Base
  import opened Geometry
  import opened Timeline
  import opened Selection
  import opened GestureValue
  import opened MoveCommit
  import opened LanePreference
  import opened HitTest

  /** The handler's stored configuration; `hasEndedCallback` says whether
      `onRegionDragGestureEnded` is set. */
  datatype Handler = Handler(options: Options, laneRange: IntRange, regionSelection: Option<RegionSelection>, hasEndedCallback: bool)

  /** `onDragGestureChanged`: a dragging record whose current state is the
      untranslated frame with the translation as offset. */
  function DragChanged(h: Handler, id: Option<Id>, laneID: Id, frame: Rect, gesture: DragValue): (s: CurrentSelection)
    requires frame.size.width > 0.0
    ensures s.id == id && s.laneID == laneID && s.gestureState == Dragging
    ensures s.currentState == State(Mid(frame), frame.size, gesture.translation)
    ensures s.startState == (if h.regionSelection.Some? then h.regionSelection.value.startState else s.currentState)
    ensures s.period == InFlightPeriod(frame, gesture.translation)
  {
    var current := State(Mid(frame), frame.size, gesture.translation);
    var startState := if h.regionSelection.Some? then h.regionSelection.value.startState else current;
    CurrentSelection(id, laneID, startState, current, InFlightPeriod(frame, gesture.translation), Dragging)
  }

  /** The release range shared with `RegionDragGestureHandler`: the translated
      frame's edges relative to the header, each rounded to a bar. */
  function ReleaseRange(o: Options, frame: Rect, translation: Size): (r: IntRange)
    requires o.barWidth > 0.0
    ensures -0.5 <= r.lower as real - (MinX(frame) + translation.width - o.headerWidth) / o.barWidth <= 0.5
    ensures -0.5 <= r.upper as real - (MaxX(frame) + translation.width - o.headerWidth) / o.barWidth <= 0.5
    ensures frame.size.width >= 0.0 ==> r.Valid()
  {
    var translateFrame := OffsetBy(frame, translation.width, translation.height);
    var x := MinX(translateFrame) - o.headerWidth;
    RoundNear(x / o.barWidth);
    RoundNear((x + translateFrame.size.width) / o.barWidth);
    RoundedOrdered(x, translateFrame.size.width, o.barWidth);
    IntRange(Round(x / o.barWidth), Round((x + translateFrame.size.width) / o.barWidth))
  }

  /** Dropped right of the header, a frame `k` bars wide resolves to `k` bars. */
  lemma {:induction false} WholeBarsRightOfHeader(o: Options, frame: Rect, translation: Size, k: nat)
    requires o.barWidth > 0.0
    requires frame.size.width == k as real * o.barWidth
    requires MinX(frame) + translation.width >= o.headerWidth
    ensures ReleaseRange(o, frame, translation).Count() == k
  {
    WholeCells(MinX(frame) + translation.width - o.headerWidth, o.barWidth, k);
  }

  /** Without the clamp, a one-bar frame dropped half a bar left of the header
      straddles zero and resolves to two bars. */
  lemma OneBarStraddlingHeaderSpansTwo(o: Options, frame: Rect)
    requires o.barWidth > 0.0
    requires frame.size.width == o.barWidth && MinX(frame) == o.headerWidth - o.barWidth / 2.0
    ensures ReleaseRange(o, frame, ZeroSize) == IntRange(-1, 1)
  {
    var bw := o.barWidth;
    assert (MinX(frame) - o.headerWidth) / bw == -0.5;
    assert (MinX(frame) - o.headerWidth + bw) / bw == 0.5;
    RoundHalves(0);
  }

  /** The deferred `RegionMoveAction` of this handler: what its closure captured. */
  datatype MoveAction = MoveAction(handler: Handler, regionID: Option<Id>, lanePreferences: seq<LanePreference>)

  /** Calling the action: nothing when the address's lane is not registered;
      otherwise a focused record spanning the address's bars, its leading edge at
      the lower bound counted from the lane range's start, its centre y the
      lane's midY plus the ruler height. */
  function Apply(action: MoveAction, address: RegionAddress): (r: Option<CurrentSelection>)
    ensures r.None? <==> Get(action.lanePreferences, address.laneID).None?
    ensures r.Some? ==>
      var h := action.handler;
      var current := r.value.currentState;
      r.value.id == action.regionID && r.value.laneID == address.laneID && r.value.gestureState == Focused
      && current.offset == ZeroSize
      && current.size == Size(address.range.Count() as real * h.options.barWidth, h.options.trackHeight)
      && current.position.x - current.size.width / 2.0
         == (address.range.lower - h.laneRange.lower) as real * h.options.barWidth + h.options.headerWidth
      && current.position.y == MidY(Get(action.lanePreferences, address.laneID).value.bounds) + h.options.rulerHeight
      && r.value.period == RealRange(address.range.lower as real, address.range.upper as real)
      && r.value.startState == (if h.regionSelection.Some? then h.regionSelection.value.startState else current)
  {
    var h := action.handler;
    match Get(action.lanePreferences, address.laneID)
    case None => None
    case Some(preference) =>
      var width := address.range.Count() as real * h.options.barWidth;
      var position := Point((address.range.lower - h.laneRange.lower) as real * h.options.barWidth + h.options.headerWidth + width / 2.0,
                            MidY(preference.bounds) + h.options.rulerHeight);
      var current := State(position, Size(width, h.options.trackHeight), ZeroSize);
      var startState := if h.regionSelection.Some? then h.regionSelection.value.startState else current;
      Some(CurrentSelection(action.regionID, address.laneID, startState, current,
                            RealRange(address.range.lower as real, address.range.upper as real), Focused))
  }

  /** `onDragGestureEnded`: the drop lane and the release range; host or
      immediate application of the action. */
  function DragEnded(h: Handler, id: Option<Id>, laneID: Id, frame: Rect, gesture: DragValue, lanePreferences: seq<LanePreference>): (r: Handoff<MoveAction, CurrentSelection>)
    requires h.options.barWidth > 0.0 && frame.size.width >= 0.0
    ensures r.Address() == RegionAddress(DropLane(lanePreferences, gesture.location, laneID),
                                         ReleaseRange(h.options, frame, gesture.translation))
    ensures r.Address().range.Valid()
    ensures r.ToHost? <==> h.hasEndedCallback
    ensures r.ToHost? ==> r.action == MoveAction(h, id, lanePreferences)
    ensures r.SelfApplied? ==> r.performed == Apply(MoveAction(h, id, lanePreferences), r.address)
  {
    var address := RegionAddress(DropLane(lanePreferences, gesture.location, laneID),
                                 ReleaseRange(h.options, frame, gesture.translation));
    var action := MoveAction(h, id, lanePreferences);
    if h.hasEndedCallback then ToHost(address, action) else SelfApplied(address, Apply(action, address))
  }

  /** Releasing a committed record where it stands resolves to its address moved
      left by the lane range's start: the two halves agree only for lanes that
      start at bar zero. */
  lemma {:induction false} ResolveShiftsByLaneStart(action: MoveAction, address: RegionAddress)
    requires action.handler.options.barWidth > 0.0
    requires address.range.Valid()
    requires Apply(action, address).Some?
    ensures var current := Apply(action, address).value.currentState;
            var frame := Rect(Point(current.position.x - current.size.width / 2.0, current.position.y - current.size.height / 2.0), current.size);
            var L := action.handler.laneRange.lower;
            ReleaseRange(action.handler.options, frame, ZeroSize) == IntRange(address.range.lower - L, address.range.upper - L)
  {
    var h := action.handler;
    var current := Apply(action, address).value.currentState;
    var frame := Rect(Point(current.position.x - current.size.width / 2.0, current.position.y - current.size.height / 2.0), current.size);
    var bw := h.options.barWidth;
    var n := address.range.lower - h.laneRange.lower;
    var m := address.range.upper - h.laneRange.lower;
    assert MinX(frame) - h.options.headerWidth == n as real * bw;
    assert MinX(frame) - h.options.headerWidth + frame.size.width == m as real * bw by {
      assert frame.size.width == (address.range.upper - address.range.lower) as real * bw;
    }
    OnCell(n, 0.0, bw);
    OnCell(m, 0.0, bw);
    RoundOfInt(n);
    RoundOfInt(m);
  }
}
