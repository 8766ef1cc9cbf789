/** `TrackDragGesture`: the same track-wide drag as the background view, built
    as a standalone gesture reading the registry and geometry from the shared
    model. Its `onChanged`/`onEnded` dispatch is the background's, so it is
    proved against the same specification. */
module TrackDragGesture {
  import opened Base
  import opened Geometry
  import opened Timeline
  import opened Selection
  import opened GestureValue
  import opened MoveCommit
  import opened LanePreference
  import opened HitTest
  import opened TrackGestureHandler
  import opened TrackDragGestureBackground

  /** The gesture and the selection binding it writes. */
  class TrackDragGesture {
    const env: Environment
    var selection: Option<RegionSelection>

    predicate Valid()
      reads this
    {
      WellFormed(env) && Resumable(selection)
    }

    constructor (env: Environment, selection: Option<RegionSelection>)
      requires WellFormed(env) && Resumable(selection)
      ensures Valid() && this.env == env && this.selection == selection
    {
      this.env := env;
      this.selection := selection;
    }

    /** The `onChanged` closure. */
    method OnChanged(value: DragValue)
      requires Valid()
      modifies this
      ensures Valid() && selection == Changed(env, old(selection), value)
    {
      var o := env.options;
      if selection.Some? && selection.value.gestureState != Focused {
        var current := selection.value;
        var laneID := current.laneID;
        var x := value.startLocation.x - o.barWidth / 2.0;
        var y := value.startLocation.y - o.trackHeight / 2.0;
        var frame := Rect(Point(x, y), current.changes.after.size);
        if current.id.Some? {
          var region := RegionById(env.preferenceValue, laneID, current.id.value);
          if region.Some? {
            frame := region.value.bounds;
          }
          RegionByIdIsPositive(env.preferenceValue, laneID, current.id.value);
        }
        var h := Handler(o, env.laneRange, selection, env.hasEndedCallback);
        selection := Some(DragChanged(h, current.id, laneID, frame, value));
      } else {
        var lane := LaneAt(env.preferenceValue, value.location);
        if lane.None? {
          return;
        }
        var id: Option<Id> := None;
        var x := value.startLocation.x - o.barWidth / 2.0;
        var y := value.startLocation.y - o.trackHeight / 2.0;
        var frame := Rect(Point(x, y), Size(o.barWidth, o.trackHeight));
        var region := RegionAt(env.preferenceValue, value.location);
        RegionAtIsPositive(env.preferenceValue, value.location);
        if region.Some? {
          id := Some(region.value.id);
          frame := region.value.bounds;
        }
        var h := Handler(o, env.laneRange, None, env.hasEndedCallback);
        selection := Some(DragChanged(h, id, lane.value.id, frame, value));
      }
    }

    /** The `onEnded` closure; `handoff` is what the host's callback received. */
    method OnEnded(value: DragValue) returns (handoff: Option<Handoff<MoveAction, RegionSelection>>)
      requires Valid()
      modifies this
      ensures Valid() && selection == EndedSelection(env, old(selection), value)
      ensures handoff == HostPart(env, old(selection), value)
    {
      handoff := None;
      if selection.Some? && selection.value.gestureState != Focused {
        var current := selection.value;
        var o := env.options;
        var frame := Rect(Point(value.startLocation.x - o.barWidth / 2.0, value.startLocation.y), current.changes.after.size);
        var h := Handler(o, env.laneRange, selection, env.hasEndedCallback);
        var outcome := DragEnded(h, current.id, current.laneID, frame, value, env.preferenceValue);
        match outcome
        case ToHost(_, _) =>
          handoff := Some(outcome);
        case SelfApplied(_, performed) =>
          if performed.Some? {
            selection := performed;
          }
      } else {
        selection := None;
      }
    }

    /** The host running the action it was handed: the closure's `perform`
        writes the selection when the lane is registered. */
    method HostApply(action: MoveAction, address: RegionAddress)
      requires Valid()
      modifies this
      ensures Valid()
      ensures selection == (if Apply(action, address).Some? then Apply(action, address) else old(selection))
    {
      var performed := Apply(action, address);
      if performed.Some? {
        selection := performed;
      }
    }
  }
}
