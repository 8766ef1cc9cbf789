/** `TrackEditorGestureState` and its derived properties. */
module TrackEditorGestureState {
  import opened Geometry

  datatype TrackEditorGestureState =
    | Inactive
    | Pressing
    | Dragging(translation: Size, startLocation: Point)
  {
    /** `translation`: the drag's translation, zero otherwise. */
    function Translation(): Size {
      match this
      case Inactive | Pressing => ZeroSize
      case Dragging(t, _) => t
    }

    /** `startLocation`: the drag's start, zero otherwise. */
    function StartLocation(): Point {
      match this
      case Inactive | Pressing => ZeroPoint
      case Dragging(_, s) => s
    }

    function IsActive(): bool {
      match this
      case Inactive => false
      case Pressing | Dragging(_, _) => true
    }

    function IsDragging(): bool {
      match this
      case Inactive | Pressing => false
      case Dragging(_, _) => true
    }
  }

  /** What the derived properties say about the state they are read from:
      only a drag carries a translation and a start, only `inactive` is inactive,
      and a drag is always active. */
  lemma DerivedProperties(s: TrackEditorGestureState)
    ensures s.Dragging? ==> s.Translation() == s.translation && s.StartLocation() == s.startLocation
    ensures !s.Dragging? ==> s.Translation() == ZeroSize && s.StartLocation() == ZeroPoint
    ensures s.IsActive() <==> !s.Inactive?
    ensures s.IsDragging() <==> s.Dragging?
    ensures s.IsDragging() ==> s.IsActive()
  {
  }

  /** A state with a non-zero translation or start is a drag. */
  lemma NonZeroIsDragging(s: TrackEditorGestureState)
    requires s.Translation() != ZeroSize || s.StartLocation() != ZeroPoint
    ensures s.IsDragging()
  {
  }
}
