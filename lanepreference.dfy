/** Lane entries of the hit-test registry (`LanePreference`), the preference
    key that concatenates them, and the id subscript on an array of them. */
module LanePreference {
  import opened Base
  import opened Geometry
  import opened Search
  import opened RegionPreference

  /** A lane's id, its measured rect and the region entries laid out inside it. */
  datatype LanePreference = LanePreference(id: Id, bounds: Rect, regionPreferences: seq<RegionPreference>)

  /** What `hash(into:)` feeds the hasher: the id and nothing else. */
  function Hash(p: LanePreference): seq<Id> {
    [p.id]
  }

  /** Memberwise equality implies equal hashes, and so does equality of ids alone. */
  lemma HashOnlyId(a: LanePreference, b: LanePreference)
    ensures a.id == b.id <==> Hash(a) == Hash(b)
  {
    if Hash(a) == Hash(b) {
      assert Hash(a)[0] == Hash(b)[0];
    }
  }

  /** `firstIndex(where: { $0.id == AnyHashable(id) })`. */
  function IndexOf(prefs: seq<LanePreference>, id: Id): (r: Option<nat>)
    ensures r.Some? ==> r.value < |prefs| && prefs[r.value].id == id
    ensures r.Some? ==> forall j :: 0 <= j < r.value ==> prefs[j].id != id
    ensures r.None? <==> forall j :: 0 <= j < |prefs| ==> prefs[j].id != id
  {
    FirstIndex(prefs, (p: LanePreference) => p.id == id)
  }

  /** The subscript getter: the first entry with the id, or `None`. */
  function Get(prefs: seq<LanePreference>, id: Id): (r: Option<LanePreference>)
    ensures r.None? <==> forall j :: 0 <= j < |prefs| ==> prefs[j].id != id
    ensures r.Some? ==> exists i :: 0 <= i < |prefs| && prefs[i] == r.value && r.value.id == id
                          && forall j :: 0 <= j < i ==> prefs[j].id != id
  {
    First(prefs, (p: LanePreference) => p.id == id)
  }

  lemma GetIsIndexOf(prefs: seq<LanePreference>, id: Id)
    ensures Get(prefs, id).Some? <==> IndexOf(prefs, id).Some?
    ensures IndexOf(prefs, id).Some? ==> Get(prefs, id) == Some(prefs[IndexOf(prefs, id).value])
  {
  }

  /** Any entry of the registry can be found again by its own id. */
  lemma {:induction false} GetFindsMember(prefs: seq<LanePreference>, i: nat)
    requires i < |prefs|
    ensures Get(prefs, prefs[i].id).Some?
    ensures Get(prefs, prefs[i].id).value.id == prefs[i].id
  {
    FirstIndexFinds(prefs, (p: LanePreference) => p.id == prefs[i].id, i);
  }

  /** A lane of the registry is found again by its id. */
  lemma {:induction false} GetFindsLane(prefs: seq<LanePreference>, lane: LanePreference)
    requires lane in prefs
    ensures Get(prefs, lane.id).Some?
  {
    var i :| 0 <= i < |prefs| && prefs[i] == lane;
    GetFindsMember(prefs, i);
  }

  /** After the setter replaced the first entry with the key by a value carrying
      that key, the getter returns the value. */
  lemma {:induction false} GetAfterSet(prefs: seq<LanePreference>, id: Id, v: LanePreference)
    requires IndexOf(prefs, id).Some? && v.id == id
    ensures Get(prefs[IndexOf(prefs, id).value := v], id) == Some(v)
  {
    var i := IndexOf(prefs, id).value;
    var s := prefs[i := v];
    assert forall j :: 0 <= j < i ==> s[j].id != id;
    assert s[i].id == id;
    var k := IndexOf(s, id);
    assert k.Some? && k.value == i;
    GetIsIndexOf(s, id);
  }

  /** The accumulated preference value of `LanePreferenceKey`. */
  class LanePreferenceKey {
    var value: seq<LanePreference>

    /** `defaultValue`: no entries. */
    constructor ()
      ensures value == []
    {
      value := [];
    }

    /** `reduce(value:nextValue:)`: `value += nextValue()`. */
    method Reduce(nextValue: seq<LanePreference>)
      modifies this
      ensures value == old(value) + nextValue
      ensures value[..|old(value)|] == old(value)
    {
      value := value + nextValue;
    }
  }

  /** An `[LanePreference]` variable, for the subscript setter, which writes the
      array in place. */
  class LanePreferenceArray {
    var elements: seq<LanePreference>

    constructor (elements: seq<LanePreference>)
      ensures this.elements == elements
    {
      this.elements := elements;
    }

    /** The subscript setter: with a value and an entry with the id, the first
        such entry is replaced; setting `None` or a missing id changes nothing. */
    method Set(id: Id, newValue: Option<LanePreference>)
      modifies this
      ensures |elements| == |old(elements)|
      ensures newValue.None? ==> elements == old(elements)
      ensures IndexOf(old(elements), id).None? ==> elements == old(elements)
      ensures newValue.Some? && IndexOf(old(elements), id).Some? ==>
                elements == old(elements)[IndexOf(old(elements), id).value := newValue.value]
      ensures newValue.Some? && newValue.value.id == id && IndexOf(old(elements), id).Some? ==>
                Get(elements, id) == newValue
    {
      var index := IndexOf(elements, id);
      if newValue.Some? && index.Some? {
        if newValue.value.id == id {
          GetAfterSet(elements, id, newValue.value);
        }
        elements := elements[index.value := newValue.value];
      }
    }
  }
}
