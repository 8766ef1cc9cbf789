/** `RegionDragGestureHandler`: the resolver used by the lane backgrounds. In
    flight it only reports the frame, the translation and the period; on release
    it resolves the frame exactly as `LaneDragGestureHandler` does and commits a
    `focused` placed selection. */
module RegionDragGestureHandler {
  import opened Base
  import opened Geometry
  import opened Timeline
  import opened Selection
  import opened GestureValue
  import opened MoveCommit
  import opened LanePreference
  import opened HitTest
  import LaneDragGestureHandler

  /** The handler's stored configuration; `hasEndedCallback` says whether
      `onRegionDragGestureEnded` is set. */
  datatype Handler = Handler(options: Options, laneRange: IntRange, hasEndedCallback: bool)

  /** The three values `onDragGestureChanged` passes to `perform`. */
  datatype InFlight = InFlight(frame: Rect, translation: Size, period: RealRange)

  /** `onDragGestureChanged`: the untranslated frame, the raw translation and the
      translated frame's period in frame widths. */
  function DragChanged(frame: Rect, gesture: DragValue): (r: InFlight)
    requires frame.size.width > 0.0
    ensures r.frame == frame && r.translation == gesture.translation
    ensures r.period == InFlightPeriod(frame, gesture.translation)
  {
    InFlight(frame, gesture.translation, InFlightPeriod(frame, gesture.translation))
  }

  /** The deferred `RegionMoveAction` of this handler: what its closure captured. */
  datatype MoveAction = MoveAction(handler: Handler, regionID: Option<Id>, lanePreferences: seq<LanePreference>)

  /** Calling the action: nothing when the address's lane is not registered;
      otherwise a focused placed selection spanning the address's bars, leading
      edge at the lower bound counted from the lane range's start, centre y the
      lane's midY plus the ruler height, no offset. */
  function Apply(action: MoveAction, address: RegionAddress): (r: Option<PlacedSelection>)
    ensures r.None? <==> Get(action.lanePreferences, address.laneID).None?
    ensures r.Some? ==>
      var h := action.handler;
      r.value.id == action.regionID && r.value.laneID == address.laneID && r.value.state == Focused
      && r.value.offset == ZeroSize
      && r.value.size == Size(address.range.Count() as real * h.options.barWidth, h.options.trackHeight)
      && r.value.position.x - r.value.size.width / 2.0
         == (address.range.lower - h.laneRange.lower) as real * h.options.barWidth + h.options.headerWidth
      && r.value.position.y == MidY(Get(action.lanePreferences, address.laneID).value.bounds) + h.options.rulerHeight
      && r.value.period == RealRange(address.range.lower as real, address.range.upper as real)
  {
    var h := action.handler;
    match Get(action.lanePreferences, address.laneID)
    case None => None
    case Some(preference) =>
      var width := address.range.Count() as real * h.options.barWidth;
      var position := Point((address.range.lower - h.laneRange.lower) as real * h.options.barWidth + h.options.headerWidth + width / 2.0,
                            MidY(preference.bounds) + h.options.rulerHeight);
      Some(PlacedSelection(action.regionID, address.laneID, position, Size(width, h.options.trackHeight), ZeroSize,
                           RealRange(address.range.lower as real, address.range.upper as real), Focused))
  }

  /** `onDragGestureEnded`: the drop lane and the release range; host or
      immediate application of the action. */
  function DragEnded(h: Handler, id: Option<Id>, laneID: Id, frame: Rect, gesture: DragValue, lanePreferences: seq<LanePreference>): (r: Handoff<MoveAction, PlacedSelection>)
    requires h.options.barWidth > 0.0 && frame.size.width >= 0.0
    ensures r.Address() == RegionAddress(DropLane(lanePreferences, gesture.location, laneID),
                                         LaneDragGestureHandler.ReleaseRange(h.options, frame, gesture.translation))
    ensures r.Address().range.Valid()
    ensures r.ToHost? <==> h.hasEndedCallback
    ensures r.ToHost? ==> r.action == MoveAction(h, id, lanePreferences)
    ensures r.SelfApplied? ==> r.performed == Apply(MoveAction(h, id, lanePreferences), r.address)
  {
    var address := RegionAddress(DropLane(lanePreferences, gesture.location, laneID),
                                 LaneDragGestureHandler.ReleaseRange(h.options, frame, gesture.translation));
    var action := MoveAction(h, id, lanePreferences);
    if h.hasEndedCallback then ToHost(address, action) else SelfApplied(address, Apply(action, address))
  }

  /** The two lane-relative resolvers agree on the address of every release and
      on whether it goes to the host. */
  lemma {:induction false} SameAddressAsLaneDrag(h: LaneDragGestureHandler.Handler, id: Option<Id>, laneID: Id, frame: Rect, gesture: DragValue, lanePreferences: seq<LanePreference>)
    requires h.options.barWidth > 0.0 && frame.size.width >= 0.0
    ensures var r := DragEnded(Handler(h.options, h.laneRange, h.hasEndedCallback), id, laneID, frame, gesture, lanePreferences);
            var l := LaneDragGestureHandler.DragEnded(h, id, laneID, frame, gesture, lanePreferences);
            r.Address() == l.Address() && r.ToHost? == l.ToHost?
  {
  }

  /** The actions of the two resolvers commit the same id, lane, geometry and
      period for every address. */
  lemma {:induction false} SameCommitAsLaneDrag(h: LaneDragGestureHandler.Handler, id: Option<Id>, lanePreferences: seq<LanePreference>, address: RegionAddress)
    ensures var placed := Apply(MoveAction(Handler(h.options, h.laneRange, h.hasEndedCallback), id, lanePreferences), address);
            var current := LaneDragGestureHandler.Apply(LaneDragGestureHandler.MoveAction(h, id, lanePreferences), address);
            placed.Some? == current.Some?
            && (placed.Some? ==>
                 placed.value.id == current.value.id && placed.value.laneID == current.value.laneID
                 && placed.value.position == current.value.currentState.position
                 && placed.value.size == current.value.currentState.size
                 && placed.value.offset == current.value.currentState.offset
                 && placed.value.period == current.value.period)
  {
  }
}
