/** `EqualParts`: the lane range's width split into `number` equal columns. */
module EqualParts {
  import opened Timeline

  /** One column, as `ForEach(0..<number)` produces it: its index and width. */
  datatype Part = Part(index: nat, width: real)

  /** `width`: the lane range's pixel width over the number of parts. The
      division needs a non-zero count. */
  function Width(o: Options, laneRange: IntRange, number: int): (w: real)
    requires number != 0
    ensures w * number as real == (laneRange.upper - laneRange.lower) as real * o.barWidth
  {
    (laneRange.upper - laneRange.lower) as real * o.barWidth / number as real
  }

  /** `body`: `number` columns indexed from zero, each `width` wide. With no
      columns the width is never computed. */
  function Parts(o: Options, laneRange: IntRange, number: nat): (r: seq<Part>)
    ensures |r| == number
    ensures forall i :: 0 <= i < |r| ==> r[i].index == i
    ensures forall i :: 0 <= i < |r| ==> r[i].width == Width(o, laneRange, number)
  {
    if number == 0 then [] else seq(number, i requires 0 <= i < number => Part(i, Width(o, laneRange, number)))
  }

  /** The columns placed side by side. */
  function TotalWidth(parts: seq<Part>): real {
    if |parts| == 0 then 0.0 else TotalWidth(parts[..|parts| - 1]) + parts[|parts| - 1].width
  }

  lemma {:induction false} TotalOfEqual(parts: seq<Part>, w: real)
    requires forall i :: 0 <= i < |parts| ==> parts[i].width == w
    ensures TotalWidth(parts) == |parts| as real * w
  {
    if |parts| > 0 {
      TotalOfEqual(parts[..|parts| - 1], w);
      assert (|parts| - 1) as real * w + w == |parts| as real * w;
    }
  }

  /** The columns fill exactly the lane range's width. */
  lemma {:induction false} PartsFillRange(o: Options, laneRange: IntRange, number: nat)
    requires number > 0
    ensures TotalWidth(Parts(o, laneRange, number)) == (laneRange.upper - laneRange.lower) as real * o.barWidth
  {
    var w := Width(o, laneRange, number);
    TotalOfEqual(Parts(o, laneRange, number), w);
    assert w * number as real == number as real * w;
  }
}
