/** The `Lane.swift` revision: a lane row's widths, the registry entries a
    lane and its regions publish, and its `Arrange`, which measures each gap
    from the previous sorted element's end without clamping it. */
module Lane {
  import opened Base
  import opened Geometry
  import opened Timeline
  import opened LaneRegioning
  import opened RegionPreference
  import opened LanePreference
  import EqualParts

  /** `trackEditorAreaWidth`: the lane range in pixels. */
  function TrackEditorAreaWidth(o: Options, laneRange: IntRange): (w: real)
    ensures o.barWidth >= 0.0 && laneRange.Valid() ==> w >= 0.0
  {
    o.barWidth * laneRange.Count() as real
  }

  /** The lane row's frame width: the header, then the lane range. */
  function RowWidth(o: Options, laneRange: IntRange): (w: real)
    ensures o.barWidth >= 0.0 && laneRange.Valid() ==> w >= o.headerWidth
  {
    TrackEditorAreaWidth(o, laneRange) + o.headerWidth
  }

  /** Every region of the lane that lies inside the lane range is drawn inside
      the editor area: at or after its start, ending no later than its end. */
  lemma {:induction false} RegionsFitInArea(o: Options, laneRange: IntRange, s: seq<Span>, i: nat)
    requires i < |s| && DistinctIds(s) && o.barWidth >= 0.0
    requires laneRange.lower as real <= s[i].start <= s[i].end <= laneRange.upper as real
    ensures var l := Layout(o, laneRange, s);
            0.0 <= LeadingEdge(l, i) && LeadingEdge(l, i) + l[i].width <= TrackEditorAreaWidth(o, laneRange)
  {
    LayoutTelescopes(o, laneRange, s);
    TelescopingFits(o, laneRange, Layout(o, laneRange, s), s, i);
  }

  /** The same for any layout that telescopes over the lane range. */
  lemma {:induction false} TelescopingFits(o: Options, laneRange: IntRange, l: seq<Placement>, s: seq<Span>, i: nat)
    requires |l| == |s| && i < |s| && o.barWidth >= 0.0
    requires Telescopes(l, s, laneRange.lower as real, o.barWidth)
    requires laneRange.lower as real <= s[i].start <= s[i].end <= laneRange.upper as real
    ensures 0.0 <= LeadingEdge(l, i) && LeadingEdge(l, i) + l[i].width <= TrackEditorAreaWidth(o, laneRange)
  {
    TelescopingEdge(l, s, laneRange.lower as real, o.barWidth, i);
    FitsInArea(o, laneRange, s[i].start, s[i].end, LeadingEdge(l, i), l[i].width);
  }

  /** So, within the row, such a region is drawn right of the header and ends no
      later than the row's trailing edge. */
  lemma {:induction false} RegionsFitInRow(o: Options, laneRange: IntRange, s: seq<Span>, i: nat)
    requires i < |s| && DistinctIds(s) && o.barWidth >= 0.0
    requires laneRange.lower as real <= s[i].start <= s[i].end <= laneRange.upper as real
    ensures var l := Layout(o, laneRange, s);
            o.headerWidth <= o.headerWidth + LeadingEdge(l, i)
            && o.headerWidth + LeadingEdge(l, i) + l[i].width <= RowWidth(o, laneRange)
  {
    RegionsFitInArea(o, laneRange, s, i);
  }

  /** A span inside `[lower, upper]` starts and ends inside the area, in pixels. */
  lemma FitsInArea(o: Options, laneRange: IntRange, start: real, end: real, edge: real, width: real)
    requires laneRange.lower as real <= start <= end <= laneRange.upper as real && o.barWidth >= 0.0
    requires edge == (start - laneRange.lower as real) * o.barWidth && width == (end - start) * o.barWidth
    ensures 0.0 <= edge && edge + width <= TrackEditorAreaWidth(o, laneRange)
  {
    var a, b, c, bw := start - laneRange.lower as real, end - start, laneRange.upper as real - end, o.barWidth;
    assert TrackEditorAreaWidth(o, laneRange) == a * bw + b * bw + Scale(c, bw);
    assert a * bw == Scale(a, bw);
  }

  /** The equal columns of `EqualParts` fill the editor area of the row exactly. */
  lemma {:induction false} PartsFillEditorArea(o: Options, laneRange: IntRange, number: nat)
    requires number > 0
    ensures EqualParts.TotalWidth(EqualParts.Parts(o, laneRange, number)) == TrackEditorAreaWidth(o, laneRange)
    ensures EqualParts.Width(o, laneRange, number) * number as real == TrackEditorAreaWidth(o, laneRange)
  {
    EqualParts.PartsFillRange(o, laneRange, number);
  }

  /** `sortedData`. */
  function SortedData(data: seq<Span>): (r: seq<Span>)
    ensures SortedByStart(r) && multiset(r) == multiset(data)
  {
    SortByStart(data)
  }

  /** `position(data:element:)` of this revision: the index is looked up in the
      `data` argument (force-unwrapped), but the predecessor is read from the
      sorted property, which must be long enough. */
  function Position(o: Options, laneRange: IntRange, data: seq<Span>, sortedData: seq<Span>, element: Span): (p: Placement)
    requires IndexOfId(data, element.id).Some?
    requires IndexOfId(data, element.id).value <= |sortedData|
    ensures o.barWidth >= 0.0 && element.end >= element.start ==> p.width >= 0.0
    ensures var index := IndexOfId(data, element.id).value;
            o.barWidth > 0.0 && index > 0 && element.start < sortedData[index - 1].end ==> p.padding < 0.0
  {
    var index := IndexOfId(data, element.id).value;
    var prevEnd := if index == 0 then laneRange.lower as real else sortedData[index - 1].end;
    PlacementFrom(element.start, element.end, prevEnd, o.barWidth)
  }

  /** The width and the leading padding of a region measured from `prevEnd`. */
  function PlacementFrom(start: real, end: real, prevEnd: real, barWidth: real): (p: Placement)
    ensures barWidth >= 0.0 && end >= start ==> p.width >= 0.0
    ensures barWidth > 0.0 && start < prevEnd ==> p.padding < 0.0
  {
    Placement(Scale(end - start, barWidth), Scale(start - prevEnd, barWidth))
  }

  /** A length in bars as pixels, with the signs the products keep. */
  function Scale(a: real, c: real): (r: real)
    ensures a < 0.0 && c > 0.0 ==> r < 0.0
    ensures a >= 0.0 && c >= 0.0 ==> r >= 0.0
  {
    a * c
  }

  /** What `body` lays out: both arguments are the sorted property. */
  function Layout(o: Options, laneRange: IntRange, sorted: seq<Span>): (l: seq<Placement>)
    ensures |l| == |sorted|
  {
    seq(|sorted|, i requires 0 <= i < |sorted| => Position(o, laneRange, sorted, sorted, sorted[i]))
  }

  lemma {:induction false} PositionAt(o: Options, laneRange: IntRange, s: seq<Span>, i: nat)
    requires i < |s| && IndexOfId(s, s[i].id) == Some(i)
    ensures Layout(o, laneRange, s)[i] == Position(o, laneRange, s, s, s[i])
    ensures Position(o, laneRange, s, s, s[i]).width == (s[i].end - s[i].start) * o.barWidth
    ensures Position(o, laneRange, s, s, s[i]).padding
            == (s[i].start - (if i == 0 then laneRange.lower as real else s[i - 1].end)) * o.barWidth
  {
  }

  /** The width is the region's length in bars times the bar width. */
  lemma {:induction false} WidthIsLength(o: Options, laneRange: IntRange, s: seq<Span>, i: nat)
    requires i < |s| && DistinctIds(s)
    ensures Layout(o, laneRange, s)[i].width == (s[i].end - s[i].start) * o.barWidth
  {
    IndexOfOwnId(s, i);
    PositionAt(o, laneRange, s, i);
  }

  /** The first element's padding is its start's distance from the lane start. */
  lemma {:induction false} FirstPadding(o: Options, laneRange: IntRange, s: seq<Span>)
    requires |s| > 0
    ensures Layout(o, laneRange, s)[0].padding == (s[0].start - laneRange.lower as real) * o.barWidth
  {
    assert IndexOfId(s, s[0].id) == Some(0);
    PositionAt(o, laneRange, s, 0);
  }

  /** A region starting before its predecessor's end gets a negative padding,
      whatever that end is: there is no clamp. */
  lemma {:induction false} OverlapGivesNegativePadding(o: Options, laneRange: IntRange, s: seq<Span>, i: nat)
    requires 0 < i < |s| && DistinctIds(s) && o.barWidth > 0.0
    requires s[i].start < s[i - 1].end
    ensures Layout(o, laneRange, s)[i].padding < 0.0
  {
    IndexOfOwnId(s, i);
    PositionAt(o, laneRange, s, i);
  }

  lemma {:induction false} LayoutTelescopes(o: Options, laneRange: IntRange, s: seq<Span>)
    requires DistinctIds(s)
    ensures Telescopes(Layout(o, laneRange, s), s, laneRange.lower as real, o.barWidth)
  {
    var l := Layout(o, laneRange, s);
    forall k | 0 <= k < |l|
      ensures l[k].width == (s[k].end - s[k].start) * o.barWidth
      ensures l[k].padding == (s[k].start - (if k == 0 then laneRange.lower as real else s[k - 1].end)) * o.barWidth
    {
      IndexOfOwnId(s, k);
      PositionAt(o, laneRange, s, k);
    }
  }

  lemma {:induction false} LayoutEdge(o: Options, laneRange: IntRange, s: seq<Span>, i: nat)
    requires i < |s|
    requires Telescopes(Layout(o, laneRange, s), s, laneRange.lower as real, o.barWidth)
    ensures LeadingEdge(Layout(o, laneRange, s), i) == (s[i].start - laneRange.lower as real) * o.barWidth
  {
    TelescopingEdge(Layout(o, laneRange, s), s, laneRange.lower as real, o.barWidth, i);
  }

  /** Without the clamp, every element lands at its start's distance from the
      lane start whenever the ids are distinct, overlapping or not. */
  lemma {:induction false} LandsAtAbsoluteBars(o: Options, laneRange: IntRange, s: seq<Span>, i: nat)
    requires i < |s| && DistinctIds(s)
    ensures LeadingEdge(Layout(o, laneRange, s), i) == (s[i].start - laneRange.lower as real) * o.barWidth
  {
    LayoutTelescopes(o, laneRange, s);
    LayoutEdge(o, laneRange, s, i);
  }

  /** One registry entry per sorted region, in order, each tagged with the
      enclosing lane's id (`bounds[i]` is the measured rect of element `i`):
      the fold of the regions' singleton preference values. */
  function RegionEntries(laneID: Id, sorted: seq<Span>, bounds: seq<Rect>): (r: seq<RegionPreference>)
    requires |bounds| == |sorted|
    ensures |r| == |sorted|
    ensures forall i :: 0 <= i < |r| ==> r[i] == RegionPreference(sorted[i].id, laneID, bounds[i])
  {
    var singles := seq(|sorted|, i requires 0 <= i < |sorted| => [RegionPreference(sorted[i].id, laneID, bounds[i])]);
    FlattenSingletons(singles);
    Flatten(singles)
  }

  lemma {:induction false} FlattenSingletons(singles: seq<seq<RegionPreference>>)
    requires forall i :: 0 <= i < |singles| ==> |singles[i]| == 1
    ensures |Flatten(singles)| == |singles|
    ensures forall i :: 0 <= i < |singles| ==> Flatten(singles)[i] == singles[i][0]
  {
    if |singles| > 0 {
      FlattenSingletons(singles[..|singles| - 1]);
    }
  }

  /** The lane's own entry: its id, its rect, and the region entries collected
      from inside it. */
  function LaneEntry(laneID: Id, bounds: Rect, regionValue: seq<RegionPreference>): LanePreference {
    LanePreference(laneID, bounds, regionValue)
  }

  /** The lane entry is the lane's id and rect and wraps exactly its own
      regions, in order, each tagged with the lane's id; a region is found in it
      by id exactly when it is one of this lane's regions, and what is found
      carries this lane's id and the rect measured for the first such region. */
  lemma {:induction false} LaneEntryOwnsItsRegions(laneID: Id, laneBounds: Rect, sorted: seq<Span>, bounds: seq<Rect>, id: Id)
    requires |bounds| == |sorted|
    ensures var e := LaneEntry(laneID, laneBounds, RegionEntries(laneID, sorted, bounds));
            e.id == laneID && e.bounds == laneBounds && |e.regionPreferences| == |sorted|
            && (forall i :: 0 <= i < |sorted| ==> e.regionPreferences[i].id == sorted[i].id && e.regionPreferences[i].laneID == e.id)
            && (RegionWithId(e.regionPreferences, id).Some? <==> exists i :: 0 <= i < |sorted| && sorted[i].id == id)
            && (RegionWithId(e.regionPreferences, id).Some? ==>
                  exists i :: 0 <= i < |sorted| && sorted[i].id == id
                              && RegionWithId(e.regionPreferences, id).value == RegionPreference(id, laneID, bounds[i])
                              && forall j :: 0 <= j < i ==> sorted[j].id != id)
  {
    var r := RegionEntries(laneID, sorted, bounds);
    if RegionWithId(r, id).None? {
      forall i | 0 <= i < |sorted| ensures sorted[i].id != id {
        assert r[i].id == sorted[i].id;
      }
    } else {
      var i :| 0 <= i < |r| && r[i] == RegionWithId(r, id).value && r[i].id == id
               && forall j :: 0 <= j < i ==> r[j].id != id;
      assert sorted[i].id == id;
      forall j | 0 <= j < i ensures sorted[j].id != id {
        assert r[j].id == sorted[j].id;
      }
    }
  }
}
