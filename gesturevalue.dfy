/** The values gesture recognisers deliver, as plain records: recogniser timing
    (minimum durations and distances) is not part of the model. */
module GestureValue {
  import opened Base
  import opened Geometry

  /** `DragGesture.Value`. */
  datatype DragValue = DragValue(startLocation: Point, location: Point, translation: Size, predictedEndTranslation: Size)

  /** `SequenceGesture<LongPressGesture, DragGesture>.Value`: the long press in
      progress (`first`), or confirmed and followed by an optional drag (`second`). */
  datatype SequenceValue =
    | First(firstPressed: bool)
    | Second(secondPressed: bool, drag: Option<DragValue>)
}
