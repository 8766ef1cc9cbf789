/** The selection record of the single-lane editor (`EditingSelection`) and its
    gesture states. The tagged form is what `Gestures/RegionDragGestureOverlay`
    builds with an initialiser the struct does not declare. */
module EditingRegion {
  import opened Base
  import opened Geometry
  import opened Timeline

  /** `EditingGestureState`. */
  datatype EditingGestureState = Focused | Pressing | Dragging

  /** `EditingSelection`: its synthesised `==` compares every field. */
  datatype EditingSelection = EditingSelection(
    id: Option<Id>, position: Point, size: Size, period: RealRange, state: EditingGestureState)

  /** `EditingSelection(id:tag:position:size:period:state:)`. */
  datatype TaggedEditingSelection = TaggedEditingSelection(
    id: Option<Id>, tag: Id, position: Point, size: Size, period: RealRange, state: EditingGestureState)
}
