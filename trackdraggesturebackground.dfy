/** The active `TrackDragGestureBackground`: the track-wide drag that starts a
    selection over empty lane space or over a region, continues it while it is
    not focused, and on release commits it through `TrackGestureHandler` or
    clears it. The shared `selection` binding is the state this view changes. */
module TrackDragGestureBackground {
  import opened Base
  import opened Geometry
  import opened Timeline
  import opened Selection
  import opened GestureValue
  import opened MoveCommit
  import opened RegionPreference
  import opened LanePreference
  import opened HitTest
  import opened TrackGestureHandler

  /** What the view reads from its environment and its input: options, lane
      range, whether `onTrackDragGestureEnded` is set, and the registry. */
  datatype Environment = Environment(options: Options, laneRange: IntRange, hasEndedCallback: bool, preferenceValue: seq<LanePreference>)

  predicate WellFormed(e: Environment) {
    ValidOptions(e.options) && PositiveWidths(e.preferenceValue)
  }

  /** A gesture in progress: a selection that is not focused. */
  predicate Continuing(s: Option<RegionSelection>) {
    s.Some? && s.value.gestureState != Focused
  }

  /** A gesture in progress shows a frame of positive width. */
  predicate Resumable(s: Option<RegionSelection>) {
    Continuing(s) ==> s.value.changes.after.size.width > 0.0
  }

  /** The frame a gesture starts from before any region is found: the given size
      with its origin half a bar left of and half a track above the start point. */
  function StartFrame(o: Options, start: Point, size: Size): (r: Rect)
    ensures r.size == size
    ensures size == Size(o.barWidth, o.trackHeight) ==> Mid(r) == start
  {
    Rect(Point(start.x - o.barWidth / 2.0, start.y - o.trackHeight / 2.0), size)
  }

  /** The frame a continuing gesture is shown with: the selected region's
      measured bounds when it is still registered in its lane, else the start
      frame with the selection's current size. */
  function ContinuingFrame(e: Environment, s: RegionSelection, value: DragValue): Rect
  {
    match if s.id.Some? then RegionById(e.preferenceValue, s.laneID, s.id.value) else None
    case Some(region) => region.bounds
    case None => StartFrame(e.options, value.startLocation, s.changes.after.size)
  }

  /** The frame is that of a region of the selection's lane with the selected
      id when one is registered, else the start frame with the selection's size. */
  lemma ContinuingFrameSource(e: Environment, s: RegionSelection, value: DragValue)
    ensures var lane := Get(e.preferenceValue, s.laneID);
            if s.id.Some? && lane.Some? && exists p :: p in lane.value.regionPreferences && p.id == s.id.value
            then exists p :: p in lane.value.regionPreferences && p.id == s.id.value && ContinuingFrame(e, s, value) == p.bounds
            else ContinuingFrame(e, s, value) == StartFrame(e.options, value.startLocation, s.changes.after.size)
  {
  }

  lemma {:induction false} ContinuingFrameIsPositive(e: Environment, s: RegionSelection, value: DragValue)
    requires PositiveWidths(e.preferenceValue) && s.changes.after.size.width > 0.0
    ensures ContinuingFrame(e, s, value).size.width > 0.0
  {
    if s.id.Some? {
      RegionByIdIsPositive(e.preferenceValue, s.laneID, s.id.value);
    }
  }

  /** The selection after `onChanged`: a continuing gesture is carried on in its
      own lane; otherwise a new one starts in the lane under the pointer, on the
      region under it if any, and nothing changes outside every lane. */
  function Changed(e: Environment, current: Option<RegionSelection>, value: DragValue): (r: Option<RegionSelection>)
    requires WellFormed(e) && Resumable(current)
    ensures Resumable(r)
    ensures Continuing(current) ==>
      r.Some? && r.value.gestureState == Dragging
      && r.value.id == current.value.id && r.value.laneID == current.value.laneID
      && r.value.startState == current.value.startState && r.value.changes.before == current.value.changes.before
      && r.value.changes.after.offset == value.translation
    ensures !Continuing(current) && LaneAt(e.preferenceValue, value.location).None? ==> r == current
    ensures !Continuing(current) && LaneAt(e.preferenceValue, value.location).Some? ==>
      r.Some? && r.value.gestureState == Dragging
      && r.value.laneID == LaneAt(e.preferenceValue, value.location).value.id
      && r.value.startState == r.value.changes.after && r.value.changes.before == r.value.changes.after
      && r.value.changes.after.offset == value.translation
      && (RegionAt(e.preferenceValue, value.location).None? ==>
            r.value.id.None? && r.value.changes.after.position == value.startLocation
            && r.value.changes.after.size == Size(e.options.barWidth, e.options.trackHeight))
      && (RegionAt(e.preferenceValue, value.location).Some? ==>
            r.value.id == Some(RegionAt(e.preferenceValue, value.location).value.id)
            && r.value.changes.after.position == Mid(RegionAt(e.preferenceValue, value.location).value.bounds)
            && r.value.changes.after.size == RegionAt(e.preferenceValue, value.location).value.bounds.size)
  {
    if Continuing(current) then
      var s := current.value;
      ContinuingFrameIsPositive(e, s, value);
      var h := Handler(e.options, e.laneRange, current, e.hasEndedCallback);
      Some(DragChanged(h, s.id, s.laneID, ContinuingFrame(e, s, value), value))
    else
      match LaneAt(e.preferenceValue, value.location)
      case None => current
      case Some(lane) =>
        RegionAtIsPositive(e.preferenceValue, value.location);
        var h := Handler(e.options, e.laneRange, None, e.hasEndedCallback);
        match RegionAt(e.preferenceValue, value.location)
        case None =>
          Some(DragChanged(h, None, lane.id, StartFrame(e.options, value.startLocation, Size(e.options.barWidth, e.options.trackHeight)), value))
        case Some(region) =>
          Some(DragChanged(h, Some(region.id), lane.id, region.bounds, value))
  }

  /** The release frame: half a bar left of the start point, with the selection's
      current size. */
  function ReleaseFrame(o: Options, s: RegionSelection, value: DragValue): (r: Rect)
    ensures r == OffsetBy(StartFrame(o, value.startLocation, s.changes.after.size), 0.0, o.trackHeight / 2.0)
    ensures s.changes.after.size.width == o.barWidth ==> MidX(r) == value.startLocation.x
  {
    Rect(Point(value.startLocation.x - o.barWidth / 2.0, value.startLocation.y), s.changes.after.size)
  }

  /** What `onEnded` passes through the resolver: nothing for an idle or focused
      selection, otherwise `onDragGestureEnded` on the release frame. */
  function Released(e: Environment, current: Option<RegionSelection>, value: DragValue): (r: Option<Handoff<MoveAction, RegionSelection>>)
    requires WellFormed(e) && Resumable(current)
    ensures r.Some? <==> Continuing(current)
    ensures r.Some? ==> r.value.Address().laneID == DropLane(e.preferenceValue, value.location, current.value.laneID)
    ensures r.Some? ==> r.value.Address().range
                        == DragRange(e.options, e.laneRange, ReleaseFrame(e.options, current.value, value), value.translation)
    ensures r.Some? ==> (r.value.ToHost? <==> e.hasEndedCallback)
  {
    if Continuing(current) then
      var s := current.value;
      var h := Handler(e.options, e.laneRange, current, e.hasEndedCallback);
      Some(DragEnded(h, s.id, s.laneID, ReleaseFrame(e.options, s, value), value, e.preferenceValue))
    else None
  }

  /** The selection after `onEnded`: cleared when no gesture was in progress;
      replaced by what the resolver applied itself; unchanged while the action
      waits for the host or when the resolver found no lane. Applied by the
      resolver itself, the commit is focused in the drop lane, keeps the region
      and the gesture's start state, and spans the release range. */
  function EndedSelection(e: Environment, current: Option<RegionSelection>, value: DragValue): (r: Option<RegionSelection>)
    requires WellFormed(e) && Resumable(current)
    ensures Resumable(r)
    ensures !Continuing(current) ==> r.None?
    ensures Continuing(current) && e.hasEndedCallback ==> r == current
    ensures Continuing(current) && !e.hasEndedCallback ==>
      (Get(e.preferenceValue, DropLane(e.preferenceValue, value.location, current.value.laneID)).None? ==> r == current)
    ensures Continuing(current) && !e.hasEndedCallback
            && Get(e.preferenceValue, DropLane(e.preferenceValue, value.location, current.value.laneID)).Some? ==>
      var range := DragRange(e.options, e.laneRange, ReleaseFrame(e.options, current.value, value), value.translation);
      r.Some? && r.value.gestureState == Focused && r.value.id == current.value.id
      && r.value.laneID == DropLane(e.preferenceValue, value.location, current.value.laneID)
      && r.value.startState == current.value.startState
      && r.value.period == RealRange(range.lower as real, range.upper as real)
  {
    match Released(e, current, value)
    case None => None
    case Some(ToHost(_, _)) => current
    case Some(SelfApplied(_, performed)) => if performed.Some? then performed else current
  }

  /** What the host's callback receives on release, if anything. */
  function HostPart(e: Environment, current: Option<RegionSelection>, value: DragValue): (r: Option<Handoff<MoveAction, RegionSelection>>)
    requires WellFormed(e) && Resumable(current)
    ensures r.Some? <==> Continuing(current) && e.hasEndedCallback
    ensures r.Some? ==> r.value.ToHost? && r == Released(e, current, value)
  {
    match Released(e, current, value)
    case Some(ToHost(a, action)) => Some(ToHost(a, action))
    case _ => None
  }

  /** A press, a drag and a release over a lane with no callback set end in a
      focused selection of the region first pressed (or of none), in the lane
      the release resolves to. */
  lemma {:induction false} PressDragReleaseCommits(e: Environment, press: DragValue, release: DragValue)
    requires WellFormed(e) && !e.hasEndedCallback
    requires LaneAt(e.preferenceValue, press.location).Some?
    ensures var s := EndedSelection(e, Changed(e, None, press), release);
            var lane := LaneAt(e.preferenceValue, press.location).value;
            var region := RegionAt(e.preferenceValue, press.location);
            s.Some? && s.value.gestureState == Focused
            && s.value.id == (if region.Some? then Some(region.value.id) else None)
            && s.value.laneID == DropLane(e.preferenceValue, release.location, lane.id)
  {
    var prefs := e.preferenceValue;
    var lane := LaneAt(prefs, press.location).value;
    var dragging := Changed(e, None, press);
    var target := DropLane(prefs, release.location, lane.id);
    if LaneAt(prefs, release.location).Some? {
      GetFindsLane(prefs, LaneAt(prefs, release.location).value);
    } else {
      GetFindsLane(prefs, lane);
    }
    assert Get(prefs, target).Some?;
  }

  /** With a callback set, the release leaves the dragging selection in place and
      hands the host an action that commits it, focused, when run. */
  lemma {:induction false} PressDragReleaseDefers(e: Environment, press: DragValue, release: DragValue)
    requires WellFormed(e) && e.hasEndedCallback
    requires LaneAt(e.preferenceValue, press.location).Some?
    ensures var dragging := Changed(e, None, press);
            var handoff := HostPart(e, dragging, release);
            EndedSelection(e, dragging, release) == dragging
            && handoff.Some? && Apply(handoff.value.action, handoff.value.address).Some?
            && Apply(handoff.value.action, handoff.value.address).value.gestureState == Focused
            && Apply(handoff.value.action, handoff.value.address).value.id == dragging.value.id
  {
    var prefs := e.preferenceValue;
    var lane := LaneAt(prefs, press.location).value;
    var target := DropLane(prefs, release.location, lane.id);
    if LaneAt(prefs, release.location).Some? {
      GetFindsLane(prefs, LaneAt(prefs, release.location).value);
    } else {
      GetFindsLane(prefs, lane);
    }
    assert Get(prefs, target).Some?;
  }

  /** The view and the selection binding it writes. */
  class TrackDragGestureBackground {
    const env: Environment
    var selection: Option<RegionSelection>

    predicate Valid()
      reads this
    {
      WellFormed(env) && Resumable(selection)
    }

    constructor (env: Environment, selection: Option<RegionSelection>)
      requires WellFormed(env) && Resumable(selection)
      ensures Valid() && this.env == env && this.selection == selection
    {
      this.env := env;
      this.selection := selection;
    }

    /** `onTapGesture`: the tap callback, when set, receives the current
        selection; the handler's own `onTapGesture` does nothing. */
    method Tap(hasTapCallback: bool) returns (reported: Option<Option<RegionSelection>>)
      ensures reported == (if hasTapCallback then Some(selection) else None)
    {
      reported := None;
      if hasTapCallback {
        reported := Some(selection);
      }
    }

    /** The `onChanged` closure. */
    method OnChanged(value: DragValue)
      requires Valid()
      modifies this
      ensures Valid() && selection == Changed(env, old(selection), value)
    {
      var o := env.options;
      if selection.Some? && selection.value.gestureState != Focused {
        var current := selection.value;
        var laneID := current.laneID;
        var x := value.startLocation.x - o.barWidth / 2.0;
        var y := value.startLocation.y - o.trackHeight / 2.0;
        var frame := Rect(Point(x, y), current.changes.after.size);
        if current.id.Some? {
          var region := RegionById(env.preferenceValue, laneID, current.id.value);
          if region.Some? {
            frame := region.value.bounds;
          }
          RegionByIdIsPositive(env.preferenceValue, laneID, current.id.value);
        }
        var h := Handler(o, env.laneRange, selection, env.hasEndedCallback);
        selection := Some(DragChanged(h, current.id, laneID, frame, value));
      } else {
        var lane := LaneAt(env.preferenceValue, value.location);
        if lane.None? {
          return;
        }
        var id: Option<Id> := None;
        var x := value.startLocation.x - o.barWidth / 2.0;
        var y := value.startLocation.y - o.trackHeight / 2.0;
        var frame := Rect(Point(x, y), Size(o.barWidth, o.trackHeight));
        var region := RegionAt(env.preferenceValue, value.location);
        RegionAtIsPositive(env.preferenceValue, value.location);
        if region.Some? {
          id := Some(region.value.id);
          frame := region.value.bounds;
        }
        var h := Handler(o, env.laneRange, None, env.hasEndedCallback);
        selection := Some(DragChanged(h, id, lane.value.id, frame, value));
      }
    }

    /** The `onEnded` closure; `handoff` is what the host's callback received. */
    method OnEnded(value: DragValue) returns (handoff: Option<Handoff<MoveAction, RegionSelection>>)
      requires Valid()
      modifies this
      ensures Valid() && selection == EndedSelection(env, old(selection), value)
      ensures handoff == HostPart(env, old(selection), value)
    {
      handoff := None;
      if selection.Some? && selection.value.gestureState != Focused {
        var current := selection.value;
        var o := env.options;
        var frame := Rect(Point(value.startLocation.x - o.barWidth / 2.0, value.startLocation.y), current.changes.after.size);
        var h := Handler(o, env.laneRange, selection, env.hasEndedCallback);
        var outcome := DragEnded(h, current.id, current.laneID, frame, value, env.preferenceValue);
        match outcome
        case ToHost(_, _) =>
          handoff := Some(outcome);
        case SelfApplied(_, performed) =>
          if performed.Some? {
            selection := performed;
          }
      } else {
        selection := None;
      }
    }

    /** The host running the action it was handed: the closure's `perform`
        writes the selection when the lane is registered. */
    method HostApply(action: MoveAction, address: RegionAddress)
      requires Valid()
      modifies this
      ensures Valid()
      ensures selection == (if Apply(action, address).Some? then Apply(action, address) else old(selection))
    {
      var performed := Apply(action, address);
      if performed.Some? {
        selection := performed;
      }
    }
  }
}
