/** `LaneDragGestureBackground`: the drag area of one lane. A drag carries on a
    selection that is not focused, or starts a new one in this lane, on the
    region under the pointer if any; the release resolves a one-bar frame at the
    start point and commits it through `RegionDragGestureHandler`, or clears an
    idle or focused selection. A tap clears the selection. */
module LaneDragGestureBackground {
  import opened Base
  import opened Geometry
  import opened Timeline
  import opened Selection
  import opened GestureValue
  import opened MoveCommit
  import opened RegionPreference
  import opened LanePreference
  import opened HitTest
  import opened RegionDragGestureHandler
  import LaneDragGestureHandler

  /** What the view reads from its environment and its inputs: options, lane
      range, whether `onRegionDragGestureEnded` is set, its own lane's id and the
      registry. */
  datatype Environment = Environment(options: Options, laneRange: IntRange, hasEndedCallback: bool, laneID: Id, preferenceValue: seq<LanePreference>)

  predicate WellFormed(e: Environment) {
    ValidOptions(e.options) && PositiveWidths(e.preferenceValue)
  }

  /** A gesture in progress: a selection that is not focused. */
  predicate Continuing(s: Option<PlacedSelection>) {
    s.Some? && s.value.state != Focused
  }

  /** A gesture in progress has a positive width. */
  predicate Resumable(s: Option<PlacedSelection>) {
    Continuing(s) ==> s.value.size.width > 0.0
  }

  /** A registered region as this lane's drag shows it: its bounds moved down by
      the ruler's height. */
  function RegionFrame(o: Options, region: RegionPreference): (r: Rect)
    ensures r.size == region.bounds.size
    ensures MinX(r) == MinX(region.bounds) && MinY(r) == MinY(region.bounds) + o.rulerHeight
  {
    OffsetBy(region.bounds, 0.0, o.rulerHeight)
  }

  /** The frame a drag starts from without a region: the given size, its left
      edge half a bar left of the start point and its top at the start point. */
  function StartFrame(o: Options, start: Point, size: Size): (r: Rect)
    ensures r.size == size
    ensures size == Size(o.barWidth, o.trackHeight) ==> Mid(r) == Point(start.x, start.y + o.trackHeight / 2.0)
  {
    Rect(Point(start.x - o.barWidth / 2.0, start.y), size)
  }

  /** The frame a continuing gesture is shown with: the selected region of this
      lane when it is registered, else the start frame with the selection's size. */
  function ContinuingFrame(e: Environment, s: PlacedSelection, value: DragValue): Rect
  {
    match if s.id.Some? then RegionById(e.preferenceValue, e.laneID, s.id.value) else None
    case Some(region) => RegionFrame(e.options, region)
    case None => StartFrame(e.options, value.startLocation, s.size)
  }

  /** The frame is that of a region of this lane with the selected id, moved
      down by the ruler, when one is registered, else the start frame with the
      selection's size. */
  lemma ContinuingFrameSource(e: Environment, s: PlacedSelection, value: DragValue)
    ensures var lane := Get(e.preferenceValue, e.laneID);
            if s.id.Some? && lane.Some? && exists p :: p in lane.value.regionPreferences && p.id == s.id.value
            then exists p :: p in lane.value.regionPreferences && p.id == s.id.value && ContinuingFrame(e, s, value) == RegionFrame(e.options, p)
            else ContinuingFrame(e, s, value) == StartFrame(e.options, value.startLocation, s.size)
  {
  }

  lemma {:induction false} ContinuingFrameIsPositive(e: Environment, s: PlacedSelection, value: DragValue)
    requires PositiveWidths(e.preferenceValue) && s.size.width > 0.0
    ensures ContinuingFrame(e, s, value).size.width > 0.0
  {
    if s.id.Some? {
      RegionByIdIsPositive(e.preferenceValue, e.laneID, s.id.value);
    }
  }

  /** The selection after `onChanged`: always a dragging selection in this lane
      whose offset is the translation, centred on the frame it was given, with the
      frame's in-flight period. A continuing gesture keeps its id; a new one takes
      the region under the pointer, or none. */
  function Changed(e: Environment, current: Option<PlacedSelection>, value: DragValue): (r: PlacedSelection)
    requires WellFormed(e) && Resumable(current)
    ensures r.state == Dragging && r.laneID == e.laneID && r.offset == value.translation
    ensures r.size.width > 0.0
    ensures Continuing(current) ==>
      var frame := ContinuingFrame(e, current.value, value);
      r.id == current.value.id && r.position == Mid(frame) && r.size == frame.size
      && r.period == InFlightPeriod(frame, value.translation)
    ensures !Continuing(current) && RegionAt(e.preferenceValue, value.location).None? ==>
      r.id.None? && r.position == Point(value.startLocation.x, value.startLocation.y + e.options.trackHeight / 2.0)
      && r.size == Size(e.options.barWidth, e.options.trackHeight)
    ensures !Continuing(current) && RegionAt(e.preferenceValue, value.location).Some? ==>
      var region := RegionAt(e.preferenceValue, value.location).value;
      r.id == Some(region.id) && r.position == Mid(RegionFrame(e.options, region)) && r.size == region.bounds.size
      && r.period == InFlightPeriod(RegionFrame(e.options, region), value.translation)
  {
    var o := e.options;
    if Continuing(current) then
      var s := current.value;
      ContinuingFrameIsPositive(e, s, value);
      var moved := DragChanged(ContinuingFrame(e, s, value), value);
      PlacedSelection(s.id, e.laneID, Mid(moved.frame), moved.frame.size, moved.translation, moved.period, Dragging)
    else
      RegionAtIsPositive(e.preferenceValue, value.location);
      match RegionAt(e.preferenceValue, value.location)
      case None =>
        var moved := DragChanged(StartFrame(o, value.startLocation, Size(o.barWidth, o.trackHeight)), value);
        PlacedSelection(None, e.laneID, Mid(moved.frame), moved.frame.size, moved.translation, moved.period, Dragging)
      case Some(region) =>
        var moved := DragChanged(RegionFrame(o, region), value);
        PlacedSelection(Some(region.id), e.laneID, Mid(moved.frame), moved.frame.size, moved.translation, moved.period, Dragging)
  }

  /** The release frame: one bar by one track, centred on the start point. */
  function ReleaseFrame(o: Options, value: DragValue): (r: Rect)
    ensures r.size == Size(o.barWidth, o.trackHeight) && Mid(r) == value.startLocation
  {
    Rect(Point(value.startLocation.x - o.barWidth / 2.0, value.startLocation.y - o.trackHeight / 2.0), Size(o.barWidth, o.trackHeight))
  }

  /** What `onEnded` passes through the resolver: nothing for an idle or focused
      selection, otherwise `onDragGestureEnded` on the release frame, dropped in
      the lane under the pointer or else in the selection's own lane. */
  function Released(e: Environment, current: Option<PlacedSelection>, value: DragValue): (r: Option<Handoff<MoveAction, PlacedSelection>>)
    requires WellFormed(e)
    ensures r.Some? <==> Continuing(current)
    ensures r.Some? ==>
      r.value.Address() == RegionAddress(DropLane(e.preferenceValue, value.location, current.value.laneID),
                                         LaneDragGestureHandler.ReleaseRange(e.options, ReleaseFrame(e.options, value), value.translation))
    ensures r.Some? ==> (r.value.ToHost? <==> e.hasEndedCallback)
  {
    if Continuing(current) then
      var s := current.value;
      var h := Handler(e.options, e.laneRange, e.hasEndedCallback);
      Some(DragEnded(h, s.id, s.laneID, ReleaseFrame(e.options, value), value, e.preferenceValue))
    else None
  }

  /** The selection after `onEnded`: cleared when no gesture was in progress;
      replaced by what the resolver applied itself; unchanged while the action
      waits for the host or when the target lane is not registered. Applied by
      the resolver itself, the commit is focused and unoffset in the drop lane,
      keeps the region, and spans the release range. */
  function EndedSelection(e: Environment, current: Option<PlacedSelection>, value: DragValue): (r: Option<PlacedSelection>)
    requires WellFormed(e) && Resumable(current)
    ensures Resumable(r)
    ensures !Continuing(current) ==> r.None?
    ensures Continuing(current) && e.hasEndedCallback ==> r == current
    ensures Continuing(current) && !e.hasEndedCallback ==>
      (Get(e.preferenceValue, DropLane(e.preferenceValue, value.location, current.value.laneID)).None? ==> r == current)
    ensures Continuing(current) && !e.hasEndedCallback
            && Get(e.preferenceValue, DropLane(e.preferenceValue, value.location, current.value.laneID)).Some? ==>
      var range := LaneDragGestureHandler.ReleaseRange(e.options, ReleaseFrame(e.options, value), value.translation);
      r.Some? && r.value.state == Focused && r.value.offset == ZeroSize && r.value.id == current.value.id
      && r.value.laneID == DropLane(e.preferenceValue, value.location, current.value.laneID)
      && r.value.period == RealRange(range.lower as real, range.upper as real)
  {
    match Released(e, current, value)
    case None => None
    case Some(ToHost(_, _)) => current
    case Some(SelfApplied(_, performed)) => if performed.Some? then performed else current
  }

  /** What the host's callback receives on release, if anything. */
  function HostPart(e: Environment, current: Option<PlacedSelection>, value: DragValue): (r: Option<Handoff<MoveAction, PlacedSelection>>)
    requires WellFormed(e)
    ensures r.Some? <==> Continuing(current) && e.hasEndedCallback
    ensures r.Some? ==> r.value.ToHost? && r == Released(e, current, value)
  {
    match Released(e, current, value)
    case Some(ToHost(a, action)) => Some(ToHost(a, action))
    case _ => None
  }

  /** Whatever was dragged, a release whose one-bar frame lands right of the
      header is resolved to exactly one bar. */
  lemma {:induction false} ReleaseIsOneBar(e: Environment, current: Option<PlacedSelection>, value: DragValue)
    requires WellFormed(e) && Continuing(current)
    requires value.startLocation.x - e.options.barWidth / 2.0 + value.translation.width >= e.options.headerWidth
    ensures Released(e, current, value).value.Address().range.Count() == 1
  {
    LaneDragGestureHandler.WholeBarsRightOfHeader(e.options, ReleaseFrame(e.options, value), value.translation, 1);
  }

  /** A drag and a release with no callback set, where the target lane is
      registered, end in a focused one-track-high selection of the region first
      pressed (or of none), in the lane the release resolves to. */
  lemma {:induction false} PressDragReleaseCommits(e: Environment, press: DragValue, release: DragValue)
    requires WellFormed(e) && !e.hasEndedCallback
    requires Get(e.preferenceValue, e.laneID).Some? || LaneAt(e.preferenceValue, release.location).Some?
    ensures var s := EndedSelection(e, Some(Changed(e, None, press)), release);
            var region := RegionAt(e.preferenceValue, press.location);
            s.Some? && s.value.state == Focused && s.value.offset == ZeroSize
            && s.value.id == (if region.Some? then Some(region.value.id) else None)
            && s.value.laneID == DropLane(e.preferenceValue, release.location, e.laneID)
            && s.value.size.height == e.options.trackHeight
  {
    DropLaneIsRegistered(e.preferenceValue, release.location, e.laneID);
  }

  /** Such a commit is one bar wide when it is dropped right of the header. */
  lemma {:induction false} PressDragReleaseIsOneBar(e: Environment, press: DragValue, release: DragValue)
    requires WellFormed(e) && !e.hasEndedCallback
    requires Get(e.preferenceValue, e.laneID).Some? || LaneAt(e.preferenceValue, release.location).Some?
    requires release.startLocation.x - e.options.barWidth / 2.0 + release.translation.width >= e.options.headerWidth
    ensures var s := EndedSelection(e, Some(Changed(e, None, press)), release);
            s.Some? && s.value.size.width == e.options.barWidth
  {
    DropLaneIsRegistered(e.preferenceValue, release.location, e.laneID);
    ReleaseIsOneBar(e, Some(Changed(e, None, press)), release);
  }

  /** With a callback set, the release leaves the dragging selection in place and
      hands the host an action that, run with the address it came with, commits
      the same region focused whenever the target lane is registered. */
  lemma {:induction false} PressDragReleaseDefers(e: Environment, press: DragValue, release: DragValue)
    requires WellFormed(e) && e.hasEndedCallback
    requires Get(e.preferenceValue, e.laneID).Some? || LaneAt(e.preferenceValue, release.location).Some?
    ensures var dragging := Some(Changed(e, None, press));
            var handoff := HostPart(e, dragging, release);
            EndedSelection(e, dragging, release) == dragging
            && handoff.Some? && Apply(handoff.value.action, handoff.value.address).Some?
            && Apply(handoff.value.action, handoff.value.address).value.state == Focused
            && Apply(handoff.value.action, handoff.value.address).value.id == dragging.value.id
  {
    DropLaneIsRegistered(e.preferenceValue, release.location, e.laneID);
  }

  /** The view and the selection binding it writes. */
  class LaneDragGestureBackground {
    const env: Environment
    var selection: Option<PlacedSelection>

    predicate Valid()
      reads this
    {
      WellFormed(env) && Resumable(selection)
    }

    constructor (env: Environment, selection: Option<PlacedSelection>)
      requires WellFormed(env) && Resumable(selection)
      ensures Valid() && this.env == env && this.selection == selection
    {
      this.env := env;
      this.selection := selection;
    }

    /** `onTapGesture`: a tap clears the selection. */
    method Tap()
      requires Valid()
      modifies this
      ensures Valid() && selection.None?
    {
      if selection.Some? {
        selection := None;
      }
    }

    /** The `onChanged` closure. */
    method OnChanged(value: DragValue)
      requires Valid()
      modifies this
      ensures Valid() && selection == Some(Changed(env, old(selection), value))
    {
      var o := env.options;
      if selection.Some? && selection.value.state != Focused {
        var current := selection.value;
        var frame := Rect(Point(value.startLocation.x - o.barWidth / 2.0, value.startLocation.y), current.size);
        if current.id.Some? {
          var region := RegionById(env.preferenceValue, env.laneID, current.id.value);
          if region.Some? {
            frame := OffsetBy(region.value.bounds, 0.0, o.rulerHeight);
          }
          RegionByIdIsPositive(env.preferenceValue, env.laneID, current.id.value);
        }
        var moved := DragChanged(frame, value);
        selection := Some(PlacedSelection(current.id, env.laneID, Point(MidX(moved.frame), MidY(moved.frame)), moved.frame.size, moved.translation, moved.period, Dragging));
      } else {
        var id: Option<Id> := None;
        var frame := Rect(Point(value.startLocation.x - o.barWidth / 2.0, value.startLocation.y), Size(o.barWidth, o.trackHeight));
        var region := RegionAt(env.preferenceValue, value.location);
        RegionAtIsPositive(env.preferenceValue, value.location);
        if region.Some? {
          id := Some(region.value.id);
          frame := OffsetBy(region.value.bounds, 0.0, o.rulerHeight);
        }
        var moved := DragChanged(frame, value);
        selection := Some(PlacedSelection(id, env.laneID, Point(MidX(moved.frame), MidY(moved.frame)), moved.frame.size, moved.translation, moved.period, Dragging));
      }
    }

    /** The `onEnded` closure; `handoff` is what the host's callback received. */
    method OnEnded(value: DragValue) returns (handoff: Option<Handoff<MoveAction, PlacedSelection>>)
      requires Valid()
      modifies this
      ensures Valid() && selection == EndedSelection(env, old(selection), value)
      ensures handoff == HostPart(env, old(selection), value)
    {
      handoff := None;
      if selection.Some? && selection.value.state != Focused {
        var current := selection.value;
        var o := env.options;
        var frame := Rect(Point(value.startLocation.x - o.barWidth / 2.0, value.startLocation.y - o.trackHeight / 2.0), Size(o.barWidth, o.trackHeight));
        var h := Handler(o, env.laneRange, env.hasEndedCallback);
        var outcome := DragEnded(h, current.id, current.laneID, frame, value, env.preferenceValue);
        match outcome
        case ToHost(_, _) =>
          handoff := Some(outcome);
        case SelfApplied(_, performed) =>
          if performed.Some? {
            selection := performed;
          }
      } else {
        selection := None;
      }
    }

    /** The host running the action it was handed: the closure's `perform`
        writes the selection when the lane is registered. */
    method HostApply(action: MoveAction, address: RegionAddress)
      requires Valid()
      modifies this
      ensures Valid()
      ensures selection == (if Apply(action, address).Some? then Apply(action, address) else old(selection))
    {
      var performed := Apply(action, address);
      if performed.Some? {
        selection := performed;
      }
    }
  }
}
