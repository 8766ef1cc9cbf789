/** The selected region value the gesture layer replaces on every change,
    release and tap (`RegionSelection`), its gesture states, and the equality
    the source defines through hashing. The handlers also call two
    initialisers the struct does not declare; each is given its own record. */
module Selection {
  import opened Base
  import opened Geometry
  import opened Timeline

  /** `TrackGestureState`. */
  datatype TrackGestureState = Focused | Pressing | Dragging | EdgeDragging

  const AllGestureStates: set<TrackGestureState> := {Focused, Pressing, Dragging, EdgeDragging}

  /** The enum has exactly four cases. */
  lemma GestureStatesAreFour()
    ensures forall s: TrackGestureState :: s in AllGestureStates
    ensures |AllGestureStates| == 4
  {
    forall s: TrackGestureState ensures s in AllGestureStates {
      assert s.Focused? || s.Pressing? || s.Dragging? || s.EdgeDragging?;
    }
  }

  /** `RegionSelection.State`: a centre, a size and the drag offset. */
  datatype State = State(position: Point, size: Size, offset: Size)

  /** The `changes` tuple. */
  datatype Changes = Changes(before: State, after: State)

  /** The declared struct. */
  datatype RegionSelection = RegionSelection(
    id: Option<Id>, laneID: Id, startState: State, changes: Changes,
    period: RealRange, gestureState: TrackGestureState)

  /** The `RegionSelection(id:laneID:startState:currentState:period:gestureState:)`
      record built by `LaneDragGestureHandler`. */
  datatype CurrentSelection = CurrentSelection(
    id: Option<Id>, laneID: Id, startState: State, currentState: State,
    period: RealRange, gestureState: TrackGestureState)

  /** The `RegionSelection(id:laneID:position:size:offset:period:state:)` record
      built by `RegionDragGestureHandler`, `TrackModel` and
      `LaneDragGestureBackground`. */
  datatype PlacedSelection = PlacedSelection(
    id: Option<Id>, laneID: Id, position: Point, size: Size, offset: Size,
    period: RealRange, state: TrackGestureState)

  /** One value handed to `Hasher.combine`. The hasher is taken to be
      collision-free: a hash value is the sequence of values combined into it. */
  datatype Hashed =
    | OptionalId(optionalId: Option<Id>)
    | LaneId(laneId: Id)
    | Coordinate(coordinate: real)
    | Gesture(gesture: TrackGestureState)

  /** `State.hash(into:)`: position x and y, size width and height, offset
      width and height, in that order. */
  function StateHash(s: State): (h: seq<Hashed>)
    ensures |h| == 6
    ensures forall i :: 0 <= i < 6 ==> h[i].Coordinate?
  {
    [Coordinate(s.position.x), Coordinate(s.position.y),
     Coordinate(s.size.width), Coordinate(s.size.height),
     Coordinate(s.offset.width), Coordinate(s.offset.height)]
  }

  /** Two states hash alike exactly when they are the same state. */
  lemma StateHashInjective(a: State, b: State)
    ensures StateHash(a) == StateHash(b) <==> a == b
  {
    if StateHash(a) == StateHash(b) {
      var ha, hb := StateHash(a), StateHash(b);
      assert ha[0] == hb[0] && ha[1] == hb[1] && ha[2] == hb[2];
      assert ha[3] == hb[3] && ha[4] == hb[4] && ha[5] == hb[5];
      assert a.position == b.position && a.size == b.size && a.offset == b.offset;
    }
  }

  /** `RegionSelection.hash(into:)`: the id, the lane id, `changes.after` and the
      gesture state. */
  function SelectionHash(s: RegionSelection): (h: seq<Hashed>)
    ensures |h| == 9
    ensures h[0] == OptionalId(s.id) && h[1] == LaneId(s.laneID) && h[8] == Gesture(s.gestureState)
  {
    [OptionalId(s.id), LaneId(s.laneID)] + StateHash(s.changes.after) + [Gesture(s.gestureState)]
  }

  /** `==`: the hash values agree. */
  predicate Equal(a: RegionSelection, b: RegionSelection) {
    SelectionHash(a) == SelectionHash(b)
  }

  /** Equality is decided by the id, the lane id, `changes.after` and the
      gesture state, and by nothing else. */
  lemma {:induction false} EqualIff(a: RegionSelection, b: RegionSelection)
    ensures Equal(a, b) <==>
      a.id == b.id && a.laneID == b.laneID && a.changes.after == b.changes.after
      && a.gestureState == b.gestureState
  {
    var ha, hb := SelectionHash(a), SelectionHash(b);
    if ha == hb {
      assert ha[2..8] == StateHash(a.changes.after);
      assert hb[2..8] == StateHash(b.changes.after);
      StateHashInjective(a.changes.after, b.changes.after);
    }
  }

  /** Selections differing only in `startState`, `changes.before` and `period`
      compare equal. */
  lemma {:induction false} EqualIgnoresHistory(a: RegionSelection, startState: State, before: State, period: RealRange)
    ensures Equal(a, a.(startState := startState, changes := Changes(before, a.changes.after), period := period))
  {
    EqualIff(a, a.(startState := startState, changes := Changes(before, a.changes.after), period := period));
  }

  /** Selections in different gesture states never compare equal. */
  lemma {:induction false} GestureStateDistinguishes(a: RegionSelection, b: RegionSelection)
    requires a.gestureState != b.gestureState
    ensures !Equal(a, b)
  {
    EqualIff(a, b);
  }

  /** `Binding<RegionSelection?>.==`: the wrapped optionals compare equal, by
      `Optional`'s own `==` over the selection's. */
  predicate BindingEqual(a: Option<RegionSelection>, b: Option<RegionSelection>) {
    match (a, b)
    case (None, None) => true
    case (Some(x), Some(y)) => Equal(x, y)
    case _ => false
  }

  /** Binding equality is an equivalence, and it never identifies an empty
      binding with a selected one. */
  lemma {:induction false} BindingEqualIsEquivalence(a: Option<RegionSelection>, b: Option<RegionSelection>, c: Option<RegionSelection>)
    ensures BindingEqual(a, a)
    ensures BindingEqual(a, b) ==> BindingEqual(b, a)
    ensures BindingEqual(a, b) && BindingEqual(b, c) ==> BindingEqual(a, c)
    ensures BindingEqual(a, b) ==> a.None? == b.None?
  {
  }

  /** Two bindings over selections compare equal exactly when the selections
      agree on the hashed fields. */
  lemma {:induction false} BindingEqualSome(x: RegionSelection, y: RegionSelection)
    ensures BindingEqual(Some(x), Some(y)) <==>
      x.id == y.id && x.laneID == y.laneID && x.changes.after == y.changes.after
      && x.gestureState == y.gestureState
  {
    EqualIff(x, y);
  }
}
