/** The `TrackLane.swift` revision of the layout: regions are found by value
    equality (`firstIndex(of:)`), and each gap is measured from the previous
    sorted region's end, unclamped. The value equality is the client type's own
    `==`, so it is a parameter `eq`, required only to be an equivalence, as
    `Equatable` requires; a `Span`'s `id` stands for whatever else the client
    value holds. */
module TrackLane {
  import opened Base
  import opened Timeline
  import opened Search
  import opened LaneRegioning

  /** `trackEditorAreaWidth`. */
  function TrackEditorAreaWidth(o: Options, laneRange: IntRange): (w: real)
    ensures o.barWidth >= 0.0 && laneRange.Valid() ==> w >= 0.0
  {
    o.barWidth * laneRange.Count() as real
  }

  /** `sortedData`. */
  function SortedData(data: seq<Span>): (r: seq<Span>)
    ensures SortedByStart(r) && multiset(r) == multiset(data)
  {
    SortByStart(data)
  }

  /** Every value equals itself, which is all the layout needs to find each
      region again. */
  ghost predicate Reflexive(eq: (Span, Span) -> bool) {
    forall x :: eq(x, x)
  }

  /** What `Equatable` demands of `==`: reflexive, symmetric and transitive. */
  ghost predicate Equivalence(eq: (Span, Span) -> bool) {
    Reflexive(eq)
    && (forall x, y :: eq(x, y) ==> eq(y, x))
    && (forall x, y, z :: eq(x, y) && eq(y, z) ==> eq(x, z))
  }

  /** Memberwise equality, the synthesised `==`, is one such equivalence. */
  lemma MemberwiseIsEquivalence()
    ensures Equivalence((x: Span, y: Span) => x == y)
  {
  }

  /** `firstIndex(of:)`: the first element equal to the region. */
  function IndexOf(eq: (Span, Span) -> bool, s: seq<Span>, region: Span): (r: Option<nat>)
    ensures r.Some? ==> r.value < |s| && eq(s[r.value], region)
    ensures r.Some? ==> forall j :: 0 <= j < r.value ==> !eq(s[j], region)
    ensures r.None? <==> forall j :: 0 <= j < |s| ==> !eq(s[j], region)
  {
    FirstIndex(s, (x: Span) => eq(x, region))
  }

  /** `regionPreference(data:region:)`: the index is force-unwrapped, so a
      region equal to the given one must occur in `data`; the predecessor comes
      from the sorted property. */
  function RegionPreference(o: Options, laneRange: IntRange, eq: (Span, Span) -> bool, data: seq<Span>, sortedData: seq<Span>, region: Span): (p: Placement)
    requires IndexOf(eq, data, region).Some?
    requires IndexOf(eq, data, region).value <= |sortedData|
    ensures o.barWidth >= 0.0 && region.end >= region.start ==> p.width >= 0.0
  {
    var index := IndexOf(eq, data, region).value;
    var prevEnd := if index == 0 then laneRange.lower as real else sortedData[index - 1].end;
    var start := region.start;
    var end := region.end;
    assert o.barWidth >= 0.0 && end - start >= 0.0 ==> (end - start) * o.barWidth >= 0.0;
    Placement((end - start) * o.barWidth, (start - prevEnd) * o.barWidth)
  }

  /** What `trackLane()` lays out. */
  function Layout(o: Options, laneRange: IntRange, eq: (Span, Span) -> bool, sorted: seq<Span>): (l: seq<Placement>)
    requires Reflexive(eq)
    ensures |l| == |sorted|
  {
    LayoutPrefix(o, laneRange, eq, sorted, |sorted|)
  }

  /** The placements of the first `n` sorted regions, built one region at a time. */
  function LayoutPrefix(o: Options, laneRange: IntRange, eq: (Span, Span) -> bool, sorted: seq<Span>, n: nat): (l: seq<Placement>)
    requires Reflexive(eq) && n <= |sorted|
    ensures |l| == n
  {
    if n == 0 then []
    else LayoutPrefix(o, laneRange, eq, sorted, n - 1) + [RegionPreference(o, laneRange, eq, sorted, sorted, sorted[n - 1])]
  }

  /** Each region's placement is the one `regionPreference` gives it. */
  lemma {:induction false} LayoutPrefixAt(o: Options, laneRange: IntRange, eq: (Span, Span) -> bool, sorted: seq<Span>, n: nat, k: nat)
    requires Reflexive(eq) && k < n <= |sorted|
    ensures LayoutPrefix(o, laneRange, eq, sorted, n)[k] == RegionPreference(o, laneRange, eq, sorted, sorted, sorted[k])
    decreases n
  {
    if k < n - 1 {
      LayoutPrefixAt(o, laneRange, eq, sorted, n - 1, k);
    }
  }

  /** No region is equal to another. */
  predicate NoDuplicates(eq: (Span, Span) -> bool, s: seq<Span>) {
    forall a, b {:trigger eq(s[a], s[b])} :: 0 <= a < b < |s| ==> !eq(s[a], s[b])
  }

  lemma {:induction false} IndexOfOwn(eq: (Span, Span) -> bool, s: seq<Span>, i: nat)
    requires Reflexive(eq) && NoDuplicates(eq, s) && i < |s|
    ensures IndexOf(eq, s, s[i]) == Some(i)
  {
    var r := IndexOf(eq, s, s[i]);
    assert eq(s[i], s[i]);
    assert r.Some?;
  }

  /** The placement of the region at `i`, found at index `at`. */
  lemma {:induction false} PlacementAt(o: Options, laneRange: IntRange, eq: (Span, Span) -> bool, s: seq<Span>, i: nat, at: nat)
    requires Reflexive(eq) && i < |s| && IndexOf(eq, s, s[i]) == Some(at)
    ensures Layout(o, laneRange, eq, s)[i] == RegionPreference(o, laneRange, eq, s, s, s[i])
    ensures Layout(o, laneRange, eq, s)[i].width == (s[i].end - s[i].start) * o.barWidth
    ensures Layout(o, laneRange, eq, s)[i].padding
            == (s[i].start - (if at == 0 then laneRange.lower as real else s[at - 1].end)) * o.barWidth
  {
    LayoutPrefixAt(o, laneRange, eq, s, |s|, i);
  }

  /** The first region's padding is its start's distance from the lane start. */
  lemma {:induction false} FirstPadding(o: Options, laneRange: IntRange, eq: (Span, Span) -> bool, s: seq<Span>)
    requires Reflexive(eq) && |s| > 0
    ensures Layout(o, laneRange, eq, s)[0].padding == (s[0].start - laneRange.lower as real) * o.barWidth
    ensures Layout(o, laneRange, eq, s)[0].width == (s[0].end - s[0].start) * o.barWidth
  {
    assert eq(s[0], s[0]);
    assert IndexOf(eq, s, s[0]) == Some(0);
    PlacementAt(o, laneRange, eq, s, 0, 0);
  }

  /** A later region's padding is its gap to the previous sorted region's end
      (negative when they overlap); a region starting where its predecessor
      ends gets no padding. */
  lemma {:induction false} LaterPadding(o: Options, laneRange: IntRange, eq: (Span, Span) -> bool, s: seq<Span>, i: nat)
    requires Reflexive(eq) && 0 < i < |s| && NoDuplicates(eq, s)
    ensures Layout(o, laneRange, eq, s)[i].padding == (s[i].start - s[i - 1].end) * o.barWidth
    ensures s[i].start == s[i - 1].end ==> Layout(o, laneRange, eq, s)[i].padding == 0.0
    ensures Layout(o, laneRange, eq, s)[i].width == (s[i].end - s[i].start) * o.barWidth
  {
    IndexOfOwn(eq, s, i);
    PlacementAt(o, laneRange, eq, s, i, i);
  }

  /** A region equal to an earlier one is looked up at the earlier position:
      its own width is kept, but its padding is measured from the first copy's
      predecessor. When the two are identical, both get the same placement. */
  lemma {:induction false} DuplicateTakesFirstPlacement(o: Options, laneRange: IntRange, eq: (Span, Span) -> bool, s: seq<Span>, a: nat, b: nat)
    requires Equivalence(eq) && a < b < |s| && eq(s[a], s[b])
    requires forall j :: 0 <= j < a ==> !eq(s[j], s[a])
    ensures Layout(o, laneRange, eq, s)[b].width == (s[b].end - s[b].start) * o.barWidth
    ensures Layout(o, laneRange, eq, s)[b].padding
            == (s[b].start - (if a == 0 then laneRange.lower as real else s[a - 1].end)) * o.barWidth
    ensures s[a] == s[b] ==> Layout(o, laneRange, eq, s)[b] == Layout(o, laneRange, eq, s)[a]
  {
    forall j | 0 <= j < a ensures !eq(s[j], s[b]) {
      assert !eq(s[j], s[a]) && eq(s[b], s[a]);
    }
    assert IndexOf(eq, s, s[b]) == Some(a);
    PlacementAt(o, laneRange, eq, s, b, a);
    assert eq(s[a], s[a]);
    assert IndexOf(eq, s, s[a]) == Some(a);
    PlacementAt(o, laneRange, eq, s, a, a);
  }

  /** With a region equal to the one before it, the second is not placed at its
      own bar: it lands past the first one's end by its own start's distance
      from the lane start, so it is misplaced whenever the first region ends
      after the lane start. */
  lemma {:induction false} DuplicateIsMisplaced(o: Options, laneRange: IntRange, eq: (Span, Span) -> bool, r1: Span, r2: Span)
    requires Equivalence(eq) && eq(r1, r2)
    ensures var lower := laneRange.lower as real;
            LeadingEdge(Layout(o, laneRange, eq, [r1, r2]), 1)
            == (r1.end - lower) * o.barWidth + (r2.start - lower) * o.barWidth
    ensures o.barWidth > 0.0 && r1.end > laneRange.lower as real ==>
              LeadingEdge(Layout(o, laneRange, eq, [r1, r2]), 1) != (r2.start - laneRange.lower as real) * o.barWidth
  {
    var s := [r1, r2];
    var lower := laneRange.lower as real;
    var l := Layout(o, laneRange, eq, s);
    FirstPadding(o, laneRange, eq, s);
    DuplicateTakesFirstPlacement(o, laneRange, eq, s, 0, 1);
    assert LeadingEdge(l, 1) == l[0].padding + l[0].width + l[1].padding;
    assert (r1.start - lower) * o.barWidth + (r1.end - r1.start) * o.barWidth == (r1.end - lower) * o.barWidth;
    if o.barWidth > 0.0 && r1.end > lower {
      assert (r1.end - lower) * o.barWidth > 0.0;
    }
  }

  lemma {:induction false} LayoutTelescopes(o: Options, laneRange: IntRange, eq: (Span, Span) -> bool, s: seq<Span>)
    requires Reflexive(eq) && NoDuplicates(eq, s)
    ensures Telescopes(Layout(o, laneRange, eq, s), s, laneRange.lower as real, o.barWidth)
  {
    var l := Layout(o, laneRange, eq, s);
    forall k | 0 <= k < |l|
      ensures l[k].width == (s[k].end - s[k].start) * o.barWidth
      ensures l[k].padding == (s[k].start - (if k == 0 then laneRange.lower as real else s[k - 1].end)) * o.barWidth
    {
      IndexOfOwn(eq, s, k);
      PlacementAt(o, laneRange, eq, s, k, k);
    }
  }

  /** Without duplicates every region lands at its start's distance from the
      lane start. */
  lemma {:induction false} LandsAtAbsoluteBars(o: Options, laneRange: IntRange, eq: (Span, Span) -> bool, s: seq<Span>, i: nat)
    requires Reflexive(eq) && i < |s| && NoDuplicates(eq, s)
    ensures LeadingEdge(Layout(o, laneRange, eq, s), i) == (s[i].start - laneRange.lower as real) * o.barWidth
  {
    LayoutTelescopes(o, laneRange, eq, s);
    LayoutEdge(o, laneRange, eq, s, i);
  }

  lemma {:induction false} LayoutEdge(o: Options, laneRange: IntRange, eq: (Span, Span) -> bool, s: seq<Span>, i: nat)
    requires Reflexive(eq) && i < |s|
    requires Telescopes(Layout(o, laneRange, eq, s), s, laneRange.lower as real, o.barWidth)
    ensures LeadingEdge(Layout(o, laneRange, eq, s), i) == (s[i].start - laneRange.lower as real) * o.barWidth
  {
    TelescopingEdge(Layout(o, laneRange, eq, s), s, laneRange.lower as real, o.barWidth, i);
  }
}
