/** Region entries of the hit-test registry (`RegionPreference`) and the
    preference key that collects them (`RegionPreferenceKey`). */
module RegionPreference {
  import opened Base
  import opened Geometry
  import opened Search

  /** A region's id, the lane it was laid out in and its measured rect. The
      struct declares only `id` and `bounds`; every caller also passes the
      enclosing lane's id, so the entry carries it. */
  datatype RegionPreference = RegionPreference(id: Id, laneID: Id, bounds: Rect)

  /** What `hash(into:)` feeds the hasher: the id and nothing else. */
  function Hash(p: RegionPreference): seq<Id> {
    [p.id]
  }

  /** Entries hash alike exactly when their ids agree: lane and bounds play no part. */
  lemma HashIgnoresBounds(a: RegionPreference, b: RegionPreference)
    ensures a.id == b.id <==> Hash(a) == Hash(b)
  {
    if Hash(a) == Hash(b) {
      assert Hash(a)[0] == Hash(b)[0];
    }
  }

  /** The concatenation of the children's entries, in order: what the preference
      system's fold of `reduce` yields. */
  function Flatten(children: seq<seq<RegionPreference>>): (r: seq<RegionPreference>)
    ensures |children| == 0 ==> r == []
  {
    if |children| == 0 then [] else Flatten(children[..|children| - 1]) + children[|children| - 1]
  }

  lemma {:induction false} FlattenAppend(a: seq<seq<RegionPreference>>, b: seq<seq<RegionPreference>>)
    ensures Flatten(a + b) == Flatten(a) + Flatten(b)
  {
    if |b| == 0 {
      assert a + b == a;
    } else {
      var b' := b[..|b| - 1];
      assert (a + b)[..|a + b| - 1] == a + b';
      FlattenAppend(a, b');
    }
  }

  /** Every child's entries appear in the fold, one after the other. */
  lemma {:induction false} FlattenContains(children: seq<seq<RegionPreference>>, i: nat)
    requires i < |children|
    ensures Flatten(children) == Flatten(children[..i]) + children[i] + Flatten(children[i + 1..])
  {
    assert children == children[..i] + [children[i]] + children[i + 1..];
    FlattenAppend(children[..i] + [children[i]], children[i + 1..]);
    FlattenAppend(children[..i], [children[i]]);
    assert Flatten([children[i]]) == children[i] by {
      assert [children[i]][..0] == [];
    }
  }

  /** The accumulated preference value of `RegionPreferenceKey`. */
  class RegionPreferenceKey {
    var value: seq<RegionPreference>

    /** `defaultValue`: no entries. */
    constructor ()
      ensures value == []
    {
      value := [];
    }

    /** `reduce(value:nextValue:)`: `value += nextValue()`. */
    method Reduce(nextValue: seq<RegionPreference>)
      modifies this
      ensures value == old(value) + nextValue
    {
      value := value + nextValue;
    }

    /** The preference system folds `reduce` over the children's values in order. */
    method ReduceAll(children: seq<seq<RegionPreference>>)
      modifies this
      ensures value == old(value) + Flatten(children)
    {
      var i := 0;
      while i < |children|
        invariant 0 <= i <= |children|
        invariant value == old(value) + Flatten(children[..i])
      {
        Reduce(children[i]);
        assert children[..i + 1][..i] == children[..i];
        i := i + 1;
      }
      assert children[..i] == children;
    }
  }

  /** The region subscript `regionPreferences[id]` used by the gesture backgrounds;
      it is not defined in the source, and is read as the lane subscript is: the
      first entry with that id. */
  function RegionWithId(prefs: seq<RegionPreference>, id: Id): (r: Option<RegionPreference>)
    ensures r.None? <==> forall j :: 0 <= j < |prefs| ==> prefs[j].id != id
    ensures r.Some? ==> exists i :: 0 <= i < |prefs| && prefs[i] == r.value && r.value.id == id
                          && forall j :: 0 <= j < i ==> prefs[j].id != id
  {
    First(prefs, (p: RegionPreference) => p.id == id)
  }

  /** The first region, in registry order, whose rect contains the point. */
  function RegionContaining(prefs: seq<RegionPreference>, location: Point): (r: Option<RegionPreference>)
    ensures r.None? <==> forall j :: 0 <= j < |prefs| ==> !Contains(prefs[j].bounds, location)
    ensures r.Some? ==> exists i :: 0 <= i < |prefs| && prefs[i] == r.value && Contains(prefs[i].bounds, location)
                          && forall j :: 0 <= j < i ==> !Contains(prefs[j].bounds, location)
  {
    First(prefs, (p: RegionPreference) => Contains(p.bounds, location))
  }
}
