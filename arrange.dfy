/** `Arrange` as `Arrange.swift` defines it: regions sorted by start, each given
    a frame width and a leading padding, where the predecessor's end is
    clamped to the lane range's lower bound. */
module Arrange {
  import opened Base
  import opened Geometry
  import opened Timeline
  import opened LaneRegioning

  /** `sortedData`. */
  function SortedData(data: seq<Span>): (r: seq<Span>)
    ensures SortedByStart(r) && multiset(r) == multiset(data)
  {
    SortByStart(data)
  }

  /** The predecessor's end that `position` measures from: the lane's lower
      bound for the first element, else the larger of that bound and the
      previous element's end. */
  function PrevEnd(laneRange: IntRange, data: seq<Span>, index: nat): (e: real)
    requires index < |data|
    ensures e >= laneRange.lower as real
    ensures index == 0 ==> e == laneRange.lower as real
    ensures index > 0 ==> e == laneRange.lower as real || e == data[index - 1].end
    ensures index > 0 && data[index - 1].end >= laneRange.lower as real ==> e == data[index - 1].end
  {
    var min := laneRange.lower as real;
    if index == 0 then min else Max(min, data[index - 1].end)
  }

  /** `position(data:element:)`. The element's index is looked up by id and
      force-unwrapped: the element must be in `data`. */
  function Position(o: Options, laneRange: IntRange, data: seq<Span>, element: Span): (p: Placement)
    requires IndexOfId(data, element.id).Some?
    ensures o.barWidth >= 0.0 && element.end >= element.start ==> p.width >= 0.0
    ensures o.barWidth >= 0.0 ==> p.padding <= (element.start - laneRange.lower as real) * o.barWidth
  {
    var index := IndexOfId(data, element.id).value;
    var prevEnd := PrevEnd(laneRange, data, index);
    var start := element.start;
    var end := element.end;
    MulMono(start - prevEnd, start - laneRange.lower as real, o.barWidth);
    MulNonNeg(end - start, o.barWidth);
    Placement((end - start) * o.barWidth, (start - prevEnd) * o.barWidth)
  }

  lemma MulMono(a: real, b: real, c: real)
    ensures c >= 0.0 && a <= b ==> a * c <= b * c
  {
    assert b * c - a * c == (b - a) * c;
  }

  /** The placement of the element found at its own index. */
  lemma {:induction false} PositionAt(o: Options, laneRange: IntRange, s: seq<Span>, i: nat)
    requires i < |s| && IndexOfId(s, s[i].id) == Some(i)
    ensures Layout(o, laneRange, s)[i] == Position(o, laneRange, s, s[i])
    ensures Position(o, laneRange, s, s[i])
            == Placement((s[i].end - s[i].start) * o.barWidth, (s[i].start - PrevEnd(laneRange, s, i)) * o.barWidth)
  {
  }

  lemma MulNonNeg(a: real, c: real)
    ensures a >= 0.0 && c >= 0.0 ==> a * c >= 0.0
  {
  }

  /** What `body` lays out: one placement per sorted element, in order. */
  function Layout(o: Options, laneRange: IntRange, sorted: seq<Span>): (l: seq<Placement>)
    ensures |l| == |sorted|
  {
    seq(|sorted|, i requires 0 <= i < |sorted| => Position(o, laneRange, sorted, sorted[i]))
  }

  /** The width is the region's length in bars times the bar width. */
  lemma {:induction false} WidthIsLength(o: Options, laneRange: IntRange, data: seq<Span>, i: nat)
    requires i < |data|
    ensures IndexOfId(data, data[i].id).Some?
    ensures Position(o, laneRange, data, data[i]).width == (data[i].end - data[i].start) * o.barWidth
  {
  }

  /** The first element's padding is its start's distance from the lane start. */
  lemma {:induction false} FirstPadding(o: Options, laneRange: IntRange, data: seq<Span>)
    requires |data| > 0
    ensures Position(o, laneRange, data, data[0]).padding == (data[0].start - laneRange.lower as real) * o.barWidth
  {
    assert IndexOfId(data, data[0].id) == Some(0);
  }

  /** A region that starts before its predecessor ends (and that predecessor
      ends inside the lane range) is given a negative padding: nothing keeps
      regions apart. */
  lemma {:induction false} OverlapGivesNegativePadding(o: Options, laneRange: IntRange, data: seq<Span>, i: nat)
    requires 0 < i < |data| && DistinctIds(data) && o.barWidth > 0.0
    requires data[i - 1].end >= laneRange.lower as real && data[i].start < data[i - 1].end
    ensures Position(o, laneRange, data, data[i]).padding < 0.0
  {
    IndexOfOwnId(data, i);
    PositionAt(o, laneRange, data, i);
    var gap := data[i].start - PrevEnd(laneRange, data, i);
    assert gap == data[i].start - data[i - 1].end;
    assert Position(o, laneRange, data, data[i]).padding == gap * o.barWidth;
    MulNeg(gap, o.barWidth);
  }

  lemma MulNeg(a: real, c: real)
    requires a < 0.0 && c > 0.0
    ensures a * c < 0.0
  {
  }

  /** With distinct ids and no element ending before the lane range, the
      clamp never applies and every padding is the gap to the predecessor. */
  lemma {:induction false} LayoutTelescopes(o: Options, laneRange: IntRange, s: seq<Span>)
    requires DistinctIds(s)
    requires forall j :: 0 <= j < |s| ==> s[j].end >= laneRange.lower as real
    ensures Telescopes(Layout(o, laneRange, s), s, laneRange.lower as real, o.barWidth)
  {
    var l := Layout(o, laneRange, s);
    forall k | 0 <= k < |l|
      ensures l[k].width == (s[k].end - s[k].start) * o.barWidth
      ensures l[k].padding == (s[k].start - (if k == 0 then laneRange.lower as real else s[k - 1].end)) * o.barWidth
    {
      IndexOfOwnId(s, k);
      PositionAt(o, laneRange, s, k);
    }
  }

  lemma {:induction false} LayoutEdge(o: Options, laneRange: IntRange, s: seq<Span>, i: nat)
    requires i < |s|
    requires Telescopes(Layout(o, laneRange, s), s, laneRange.lower as real, o.barWidth)
    ensures LeadingEdge(Layout(o, laneRange, s), i) == (s[i].start - laneRange.lower as real) * o.barWidth
  {
    TelescopingEdge(Layout(o, laneRange, s), s, laneRange.lower as real, o.barWidth, i);
  }

  /** Placed left to right, each element's leading edge is its start's distance
      from the lane start, in pixels, whenever the ids are distinct and no
      element ends before the lane range begins. */
  lemma {:induction false} LandsAtAbsoluteBars(o: Options, laneRange: IntRange, s: seq<Span>, i: nat)
    requires i < |s| && DistinctIds(s)
    requires forall j :: 0 <= j < |s| ==> s[j].end >= laneRange.lower as real
    ensures LeadingEdge(Layout(o, laneRange, s), i) == (s[i].start - laneRange.lower as real) * o.barWidth
  {
    LayoutTelescopes(o, laneRange, s);
    LayoutEdge(o, laneRange, s, i);
  }

  /** The same for the layout `body` produces from unsorted data. */
  lemma {:induction false} SortedLayoutLandsAtAbsoluteBars(o: Options, laneRange: IntRange, data: seq<Span>, sorted: seq<Span>, i: nat)
    requires sorted == SortedData(data)
    requires i < |data| && DistinctIds(data)
    requires forall j :: 0 <= j < |data| ==> data[j].end >= laneRange.lower as real
    ensures i < |sorted|
    ensures LeadingEdge(Layout(o, laneRange, sorted), i) == (sorted[i].start - laneRange.lower as real) * o.barWidth
  {
    SortKeepsDistinct(data);
    SortKeepsEndsAbove(data, laneRange.lower as real);
    LandsAtAbsoluteBars(o, laneRange, sorted, i);
  }

  lemma {:induction false} SortKeepsEndsAbove(data: seq<Span>, lower: real)
    requires forall j :: 0 <= j < |data| ==> data[j].end >= lower
    ensures forall j :: 0 <= j < |SortedData(data)| ==> SortedData(data)[j].end >= lower
  {
    var s := SortedData(data);
    forall j | 0 <= j < |s| ensures s[j].end >= lower {
      assert s[j] in multiset(s);
      assert s[j] in multiset(data);
    }
  }

  /** A layout placed as `body` places `s`: each width is the element's length
      in bars and each padding its start's distance from the clamped
      predecessor end. */
  ghost predicate Arranged(l: seq<Placement>, laneRange: IntRange, s: seq<Span>, barWidth: real) {
    |l| == |s|
    && forall k {:trigger l[k]} :: 0 <= k < |l| ==>
         l[k] == Placement((s[k].end - s[k].start) * barWidth, (s[k].start - PrevEnd(laneRange, s, k)) * barWidth)
  }

  /** `body` arranges its elements so when their ids are distinct. */
  lemma {:induction false} LayoutArranged(o: Options, laneRange: IntRange, s: seq<Span>)
    requires DistinctIds(s)
    ensures Arranged(Layout(o, laneRange, s), laneRange, s, o.barWidth)
  {
    forall k | 0 <= k < |s|
      ensures Layout(o, laneRange, s)[k]
              == Placement((s[k].end - s[k].start) * o.barWidth, (s[k].start - PrevEnd(laneRange, s, k)) * o.barWidth)
    {
      IndexOfOwnId(s, k);
      PositionAt(o, laneRange, s, k);
    }
  }

  /** The clamp is not neutral: after a region that ends before the lane range
      begins, the next region's padding is measured from the lane start rather
      than from that end. The step between the two leading edges is then not
      the distance between their starts but shorter by how far the earlier
      region ends before the lane range, so a layout that placed the earlier
      region at its bar misplaces the later one. */
  lemma {:induction false} ClampMisplacesAfterEarlyRegion(l: seq<Placement>, laneRange: IntRange, s: seq<Span>, barWidth: real, i: nat)
    requires Arranged(l, laneRange, s, barWidth)
    requires 0 < i < |s| && s[i - 1].end < laneRange.lower as real
    ensures l[i].padding == (s[i].start - laneRange.lower as real) * barWidth
    ensures LeadingEdge(l, i)
            == LeadingEdge(l, i - 1) + (s[i - 1].end - s[i - 1].start) * barWidth + (s[i].start - laneRange.lower as real) * barWidth
    ensures barWidth > 0.0 ==> LeadingEdge(l, i) - LeadingEdge(l, i - 1) < (s[i].start - s[i - 1].start) * barWidth
  {
    var lower := laneRange.lower as real;
    var a := s[i - 1].start;
    var b := s[i - 1].end;
    var c := s[i].start;
    assert l[i - 1].width == (b - a) * barWidth;
    assert PrevEnd(laneRange, s, i) == lower;
    assert (c - a) * barWidth - ((b - a) * barWidth + (c - lower) * barWidth) == (lower - b) * barWidth;
    if barWidth > 0.0 {
      MulNeg(b - lower, barWidth);
    }
  }
}
