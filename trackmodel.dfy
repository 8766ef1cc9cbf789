/** `TrackModel.onDragGestureEnded`: the pointer-location resolver. It takes
    the one-bar cell around the release point, resolves the lane under it, and
    only ever hands the result to the host; without a lane, or without a
    callback, nothing happens. */
module TrackModel {
  import opened Base
  import opened Geometry
  import opened Timeline
  import opened Selection
  import opened GestureValue
  import opened MoveCommit
  import opened LanePreference
  import opened HitTest

  /** The model's configuration; `hasEndedCallback` says whether
      `onTrackGestureEneded` is set. */
  datatype Model = Model(options: Options, laneRange: IntRange, hasEndedCallback: bool)

  /** The bar range around a pointer: the cell of one bar centred on the pointer,
      each edge rounded to a bar counted from the header. */
  function PointerRange(o: Options, x: real): (r: IntRange)
    requires o.barWidth > 0.0
    ensures r.lower == Round(Bars(o, x) - 0.5) && r.upper == Round(Bars(o, x) + 0.5)
    ensures r.Valid()
  {
    var locationX := x - o.headerWidth;
    var t := locationX / o.barWidth;
    HalfCell(locationX, o.barWidth);
    RoundMono(t - 0.5, t + 0.5);
    IntRange(Round((locationX - o.barWidth / 2.0) / o.barWidth), Round((locationX + o.barWidth / 2.0) / o.barWidth))
  }

  /** Right of the header the pointer's cell is exactly one bar, and it contains
      the pointer's bar position. */
  lemma {:induction false} OneBarRightOfHeader(o: Options, x: real)
    requires o.barWidth > 0.0 && x > o.headerWidth
    ensures PointerRange(o, x).Count() == 1
    ensures PointerRange(o, x).lower as real <= Bars(o, x) <= PointerRange(o, x).upper as real
  {
    var t := Bars(o, x);
    DivMono(0.0, x - o.headerWidth, o.barWidth);
    assert t >= 0.0;
    if t >= 0.5 {
      RoundShift(t - 0.5, 1);
      RoundNear(t - 0.5);
      RoundNear(t + 0.5);
    } else {
      assert t > 0.0 by {
        assert x - o.headerWidth > 0.0;
        assert t * o.barWidth == x - o.headerWidth;
      }
      assert Round(t - 0.5) == 0;
      assert Round(t + 0.5) == 1;
    }
  }

  /** Exactly on the header's edge the cell straddles zero and spans two bars. */
  lemma AtHeaderEdgeSpansTwo(o: Options)
    requires o.barWidth > 0.0
    ensures PointerRange(o, o.headerWidth) == IntRange(-1, 1)
  {
    assert Bars(o, o.headerWidth) == 0.0;
    RoundHalves(0);
  }

  /** The deferred `RegionMoveAction`: what its closure captured. */
  datatype MoveAction = MoveAction(model: Model, regionID: Option<Id>, lanePreferences: seq<LanePreference>)

  /** Calling the action: nothing when the address's lane is not registered;
      otherwise a focused placed selection whose position is the leading edge of
      the address's bars, counted from the lane range's start, at the lane's midY. */
  function Apply(action: MoveAction, address: RegionAddress): (r: Option<PlacedSelection>)
    ensures r.None? <==> Get(action.lanePreferences, address.laneID).None?
    ensures r.Some? ==>
      var m := action.model;
      r.value.id == action.regionID && r.value.laneID == address.laneID && r.value.state == Focused
      && r.value.offset == ZeroSize
      && r.value.size == Size((address.range.upper - address.range.lower) as real * m.options.barWidth, m.options.trackHeight)
      && r.value.position == Point((address.range.lower - m.laneRange.lower) as real * m.options.barWidth + m.options.headerWidth,
                                   MidY(Get(action.lanePreferences, address.laneID).value.bounds))
      && r.value.period == RealRange(address.range.lower as real, address.range.upper as real)
  {
    var m := action.model;
    match Get(action.lanePreferences, address.laneID)
    case None => None
    case Some(preference) =>
      var width := (address.range.upper - address.range.lower) as real * m.options.barWidth;
      var position := Point((address.range.lower - m.laneRange.lower) as real * m.options.barWidth + m.options.headerWidth,
                            MidY(preference.bounds));
      Some(PlacedSelection(action.regionID, address.laneID, position, Size(width, m.options.trackHeight), ZeroSize,
                           RealRange(address.range.lower as real, address.range.upper as real), Focused))
  }

  /** `onDragGestureEnded`: something reaches the host only when the release point
      is in a lane and a callback is set; the host then receives the hit lane and
      the pointer's cell. The action is never applied here. */
  function DragEnded(m: Model, id: Option<Id>, gesture: DragValue, preferenceValue: seq<LanePreference>): (r: Option<Handoff<MoveAction, PlacedSelection>>)
    requires m.options.barWidth > 0.0
    ensures r.Some? <==> LaneAt(preferenceValue, gesture.location).Some? && m.hasEndedCallback
    ensures r.Some? ==> r.value.ToHost?
                        && r.value.address == RegionAddress(LaneAt(preferenceValue, gesture.location).value.id,
                                                            PointerRange(m.options, gesture.location.x))
                        && r.value.action == MoveAction(m, id, preferenceValue)
  {
    match LaneAt(preferenceValue, gesture.location)
    case None => None
    case Some(preference) =>
      var address := RegionAddress(preference.id, PointerRange(m.options, gesture.location.x));
      if m.hasEndedCallback then Some(ToHost(address, MoveAction(m, id, preferenceValue))) else None
  }

  /** A host that runs the action it received commits a one-bar selection in the
      lane that was hit, whenever the release is right of the header. */
  lemma {:induction false} HostCommitsOneBar(m: Model, id: Option<Id>, gesture: DragValue, preferenceValue: seq<LanePreference>)
    requires m.options.barWidth > 0.0 && gesture.location.x > m.options.headerWidth
    requires DragEnded(m, id, gesture, preferenceValue).Some?
    ensures var r := DragEnded(m, id, gesture, preferenceValue).value;
            var s := Apply(r.action, r.address);
            s.Some? && s.value.laneID == LaneAt(preferenceValue, gesture.location).value.id
            && s.value.size.width == m.options.barWidth && s.value.period.upper - s.value.period.lower == 1.0
  {
    var r := DragEnded(m, id, gesture, preferenceValue).value;
    var lane := LaneAt(preferenceValue, gesture.location).value;
    OneBarRightOfHeader(m.options, gesture.location.x);
    GetFindsLane(preferenceValue, lane);
  }
}
