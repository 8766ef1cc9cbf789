/** `FrameBackground`: the long-press-then-drag state it tracks (`DragState`),
    the `updating` mapping from gesture values to that state, the text label it
    shows, and the `onEnded` guard. */
module FrameBackground {
  import opened Base
  import opened Geometry
  import opened GestureValue

  /** `FrameBackground.DragState`. */
  datatype DragState =
    | Inactive
    | Pressing
    | Dragging(translation: Size)
  {
    function Translation(): Size {
      match this
      case Inactive | Pressing => ZeroSize
      case Dragging(t) => t
    }

    function IsActive(): bool {
      match this
      case Inactive => false
      case Pressing | Dragging(_) => true
    }

    function IsDragging(): bool {
      match this
      case Inactive | Pressing => false
      case Dragging(_) => true
    }
  }

  lemma DerivedProperties(s: DragState)
    ensures !s.Dragging? ==> s.Translation() == ZeroSize
    ensures s.Dragging? ==> s.Translation() == s.translation
    ensures s.IsActive() <==> !s.Inactive?
    ensures s.IsDragging() <==> s.Dragging?
    ensures s.IsDragging() ==> s.IsActive()
  {
  }

  /** The label's content: a literal, or the description of an optional drag
      value (`"\(drag)"`), whose formatting is not modelled. */
  datatype Label = Literal(text: string) | Describing(drag: Option<DragValue>)

  /** The state `updating` writes for a gesture value. */
  function UpdatedState(value: SequenceValue): (s: DragState)
    ensures s.IsActive() <==> (value == First(true) || (value.Second? && value.secondPressed))
    ensures s.IsDragging() <==> (value.Second? && value.secondPressed)
    ensures s.IsDragging() ==> s.Translation() == (if value.drag.Some? then value.drag.value.translation else ZeroSize)
    ensures !s.IsDragging() ==> s.Translation() == ZeroSize
  {
    match value
    case First(true) => Pressing
    case Second(true, drag) => Dragging(if drag.Some? then drag.value.translation else ZeroSize)
    case _ => Inactive
  }

  /** Whether `onEnded` gets past its guard: a confirmed press followed by a drag. */
  predicate EndAccepted(value: SequenceValue) {
    value.Second? && value.secondPressed && value.drag.Some?
  }

  /** The view's `@GestureState` and `@State` storage. */
  class FrameBackground {
    var dragState: DragState
    var text: Label

    /** The initial values: inactive, and the placeholder label. */
    constructor ()
      ensures dragState == Inactive && text == Literal("www")
    {
      dragState := Inactive;
      text := Literal("www");
    }

    /** The `updating` closure: assigns the state for the value, and the label
        for a pressed value. */
    method Updating(value: SequenceValue)
      modifies this
      ensures dragState == UpdatedState(value)
      ensures value == First(true) ==> text == Literal("first")
      ensures value.Second? && value.secondPressed ==> text == Describing(value.drag)
      ensures !UpdatedState(value).IsActive() ==> text == old(text)
    {
      match value {
        case First(true) =>
          text := Literal("first");
          dragState := Pressing;
        case Second(true, drag) =>
          text := Describing(drag);
          dragState := Dragging(if drag.Some? then drag.value.translation else ZeroSize);
        case _ =>
          dragState := Inactive;
      }
    }

    /** The `onEnded` closure: only a confirmed drag reaches the label. */
    method OnEnded(value: SequenceValue)
      modifies this
      ensures dragState == old(dragState)
      ensures EndAccepted(value) ==> text == Describing(value.drag)
      ensures !EndAccepted(value) ==> text == old(text)
    {
      if value.Second? && value.secondPressed && value.drag.Some? {
        text := Describing(value.drag);
      }
    }
  }
}
