/** What the layout needs of a region (`LaneRegioning`): its id and its start
    and end in bars, already evaluated for the lane range and options in
    effect. Also the ordering by start every `sortedData` performs and the
    left-to-right placement a zero-spacing horizontal stack gives to a sequence
    of (width, leading padding) pairs. */
module LaneRegioning {
  import opened Base
  import opened Search

  /** A region as the layout sees it: `id`, `startRegion(...)` and `endRegion(...)`. */
  datatype Span = Span(id: Id, start: real, end: real)

  predicate SortedByStart(s: seq<Span>) {
    forall i, j :: 0 <= i < j < |s| ==> s[i].start <= s[j].start
  }

  /** Inserts `x` after every element whose start is not greater than its own. */
  function Insert(x: Span, s: seq<Span>): (r: seq<Span>)
    requires SortedByStart(s)
    ensures SortedByStart(r)
    ensures |r| == |s| + 1
    ensures multiset(r) == multiset(s) + multiset{x}
    ensures forall y :: y in r ==> y == x || y in s
  {
    if |s| == 0 then [x]
    else if x.start < s[0].start then
      ConsSorted(x, s);
      [x] + s
    else
      var rest := Insert(x, s[1..]);
      assert s == [s[0]] + s[1..];
      HeadBelowRest(x, s, rest);
      ConsSorted(s[0], rest);
      [s[0]] + rest
  }

  /** Putting an element no later than every other in front keeps the order. */
  lemma ConsSorted(h: Span, s: seq<Span>)
    requires SortedByStart(s) && forall k :: 0 <= k < |s| ==> h.start <= s[k].start
    ensures SortedByStart([h] + s)
  {
    var r := [h] + s;
    forall i, j | 0 <= i < j < |r| ensures r[i].start <= r[j].start {
      assert r[j] == s[j - 1];
      if i > 0 {
        assert r[i] == s[i - 1];
      }
    }
  }

  /** The head of a sorted sequence is no later than anything inserted behind it. */
  lemma HeadBelowRest(x: Span, s: seq<Span>, rest: seq<Span>)
    requires |s| > 0 && SortedByStart(s) && s[0].start <= x.start
    requires forall y :: y in rest ==> y == x || y in s[1..]
    ensures forall k :: 0 <= k < |rest| ==> s[0].start <= rest[k].start
  {
    forall k | 0 <= k < |rest| ensures s[0].start <= rest[k].start {
      assert rest[k] in rest;
      if rest[k] != x {
        var j :| 0 <= j < |s[1..]| && s[1..][j] == rest[k];
        assert s[j + 1] == rest[k];
      }
    }
  }

  /** `data.sorted(by: { $0.start < $1.start })`: a permutation of the data,
      ordered by start. Equal starts keep their input order here; nothing in
      the model relies on that. */
  function SortByStart(s: seq<Span>): (r: seq<Span>)
    ensures SortedByStart(r)
    ensures multiset(r) == multiset(s)
    ensures |r| == |s|
  {
    if |s| == 0 then []
    else
      assert s == s[..|s| - 1] + [s[|s| - 1]];
      Insert(s[|s| - 1], SortByStart(s[..|s| - 1]))
  }

  /** Sorting already-sorted data changes nothing. */
  lemma {:induction false} SortSortedIsIdentity(s: seq<Span>)
    requires SortedByStart(s)
    ensures SortByStart(s) == s
  {
    if |s| > 0 {
      var init := s[..|s| - 1];
      SortSortedIsIdentity(init);
      InsertLast(s[|s| - 1], init);
      assert init + [s[|s| - 1]] == s;
    }
  }

  lemma {:induction false} InsertLast(x: Span, s: seq<Span>)
    requires SortedByStart(s) && SortedByStart(s + [x])
    ensures Insert(x, s) == s + [x]
  {
    if |s| > 0 {
      assert (s + [x])[0] == s[0] && (s + [x])[|s|] == x;
      assert !(x.start < s[0].start);
      assert s[1..] + [x] == (s + [x])[1..];
      InsertLast(x, s[1..]);
      assert Insert(x, s) == [s[0]] + Insert(x, s[1..]);
      assert s == [s[0]] + s[1..];
    }
  }

  /** `firstIndex(where: { $0.id == id })`. */
  function IndexOfId(s: seq<Span>, id: Id): (r: Option<nat>)
    ensures r.Some? ==> r.value < |s| && s[r.value].id == id
    ensures r.Some? ==> forall j :: 0 <= j < r.value ==> s[j].id != id
    ensures r.None? <==> forall j :: 0 <= j < |s| ==> s[j].id != id
  {
    FirstIndex(s, (x: Span) => x.id == id)
  }

  /** The id of the element at `i`. */
  function IdAt(s: seq<Span>, i: nat): Id
    requires i < |s|
  {
    s[i].id
  }

  /** No two elements share an id. The pairs are compared only where a proof
      names them through `IdAt`. */
  predicate DistinctIds(s: seq<Span>) {
    forall a, b {:trigger IdAt(s, a), IdAt(s, b)} :: 0 <= a < b < |s| ==> IdAt(s, a) != IdAt(s, b)
  }

  /** With distinct ids, every element is found at its own index. */
  lemma {:induction false} IndexOfOwnId(s: seq<Span>, i: nat)
    requires DistinctIds(s) && i < |s|
    ensures IndexOfId(s, s[i].id) == Some(i)
  {
    forall j | 0 <= j < i ensures s[j].id != s[i].id {
      assert IdAt(s, j) != IdAt(s, i);
    }
    var r := IndexOfId(s, s[i].id);
    assert r.Some?;
  }

  /** Distinct ids stay distinct in any slice. */
  lemma {:induction false} DistinctSlice(s: seq<Span>, lo: nat, hi: nat)
    requires DistinctIds(s) && lo <= hi <= |s|
    ensures DistinctIds(s[lo..hi])
  {
    var t := s[lo..hi];
    forall a, b | 0 <= a < b < |t| ensures IdAt(t, a) != IdAt(t, b) {
      assert IdAt(s, lo + a) != IdAt(s, lo + b);
    }
  }

  /** One element's frame width and leading padding, as `position` returns them. */
  datatype Placement = Placement(width: real, padding: real)

  /** Where a zero-spacing horizontal stack puts the leading edge of element
      `i`: every earlier padding and width, then its own padding. */
  function LeadingEdge(layout: seq<Placement>, i: nat): real
    requires i < |layout|
  {
    if i == 0 then layout[0].padding
    else LeadingEdge(layout, i - 1) + layout[i - 1].width + layout[i].padding
  }

  /** Inserting an element whose id the sequence does not contain keeps the ids distinct. */
  lemma {:induction false} InsertKeepsDistinct(x: Span, s: seq<Span>)
    requires SortedByStart(s) && DistinctIds(s)
    requires forall k :: 0 <= k < |s| ==> s[k].id != x.id
    ensures DistinctIds(Insert(x, s))
  {
    if |s| > 0 && !(x.start < s[0].start) {
      var rest := Insert(x, s[1..]);
      DistinctSlice(s, 1, |s|);
      assert s[1..|s|] == s[1..];
      InsertKeepsDistinct(x, s[1..]);
      forall k | 0 <= k < |rest| ensures rest[k].id != s[0].id {
        assert rest[k] in rest;
        if rest[k] != x {
          var m :| 0 <= m < |s[1..]| && s[1..][m] == rest[k];
          assert s[m + 1] == rest[k];
          assert IdAt(s, 0) != IdAt(s, m + 1);
        }
      }
      var r := [s[0]] + rest;
      forall a, b | 0 <= a < b < |r| ensures IdAt(r, a) != IdAt(r, b) {
        if a > 0 {
          assert r[a] == rest[a - 1] && r[b] == rest[b - 1];
          assert IdAt(rest, a - 1) != IdAt(rest, b - 1);
        }
      }
    } else {
      var r := [x] + s;
      forall a, b | 0 <= a < b < |r| ensures IdAt(r, a) != IdAt(r, b) {
        if a > 0 {
          assert IdAt(s, a - 1) != IdAt(s, b - 1);
        }
      }
    }
  }

  /** Sorting data with distinct ids gives a sequence with distinct ids. */
  lemma {:induction false} SortKeepsDistinct(s: seq<Span>)
    requires DistinctIds(s)
    ensures DistinctIds(SortByStart(s))
  {
    if |s| > 0 {
      var init, last := s[..|s| - 1], s[|s| - 1];
      var sortedInit := SortByStart(init);
      DistinctSlice(s, 0, |s| - 1);
      assert s[0..|s| - 1] == init;
      SortKeepsDistinct(init);
      forall k | 0 <= k < |sortedInit| ensures sortedInit[k].id != last.id {
        assert sortedInit[k] in multiset(sortedInit);
        assert sortedInit[k] in multiset(init);
        var m :| 0 <= m < |init| && init[m] == sortedInit[k];
        assert s[m] == init[m];
        assert IdAt(s, m) != IdAt(s, |s| - 1);
      }
      InsertKeepsDistinct(last, sortedInit);
    }
  }

  /** A layout whose widths are the elements' lengths and whose paddings are
      the gaps to the previous element's end (to `lower` for the first). */
  predicate Telescopes(l: seq<Placement>, s: seq<Span>, lower: real, barWidth: real)
    requires |l| == |s|
  {
    forall i {:trigger l[i]} :: 0 <= i < |l| ==>
      l[i].width == (s[i].end - s[i].start) * barWidth
      && l[i].padding == (s[i].start - (if i == 0 then lower else s[i - 1].end)) * barWidth
  }

  /** In such a layout the paddings and widths before an element add up to its
      start's distance from `lower`. */
  lemma {:induction false} TelescopingEdge(l: seq<Placement>, s: seq<Span>, lower: real, barWidth: real, i: nat)
    requires |l| == |s| && i < |l| && Telescopes(l, s, lower, barWidth)
    ensures LeadingEdge(l, i) == (s[i].start - lower) * barWidth
  {
    if i > 0 {
      TelescopingEdge(l, s, lower, barWidth, i - 1);
      var a, b, d := s[i - 1].start - lower, s[i - 1].end - s[i - 1].start, s[i].start - s[i - 1].end;
      assert l[i - 1].width == b * barWidth;
      assert l[i].padding == d * barWidth;
      assert a * barWidth + b * barWidth + d * barWidth == (a + b + d) * barWidth;
    }
  }
}
