/** The hit-tests over the registry that every gesture background and release
    handler performs: `getLanePreference`, `getRegionPreference`, the drop-lane
    search of the release handlers and the region lookup by id. */
module HitTest {
  import opened Base
  import opened Geometry
  import opened Search
  import opened RegionPreference
  import opened LanePreference

  /** `getLanePreference(value:geometory:preferenceValue:)`: the first lane, in
      registry order, whose rect contains the point. */
  function LaneAt(prefs: seq<LanePreference>, location: Point): (r: Option<LanePreference>)
    ensures r.None? <==> forall j :: 0 <= j < |prefs| ==> !Contains(prefs[j].bounds, location)
    ensures r.Some? ==> exists i :: 0 <= i < |prefs| && prefs[i] == r.value && Contains(prefs[i].bounds, location)
                          && forall j :: 0 <= j < i ==> !Contains(prefs[j].bounds, location)
  {
    First(prefs, (p: LanePreference) => Contains(p.bounds, location))
  }

  /** `getRegionPreference`: nothing when no lane is hit; otherwise the first
      region of the hit lane whose rect contains the point. Regions of other lanes
      are never considered. */
  function RegionAt(prefs: seq<LanePreference>, location: Point): (r: Option<RegionPreference>)
    ensures LaneAt(prefs, location).None? ==> r.None?
    ensures LaneAt(prefs, location).Some? ==> r == RegionContaining(LaneAt(prefs, location).value.regionPreferences, location)
    ensures r.Some? ==> r.value in LaneAt(prefs, location).value.regionPreferences && Contains(r.value.bounds, location)
  {
    match LaneAt(prefs, location)
    case None => None
    case Some(lane) => RegionContaining(lane.regionPreferences, location)
  }

  /** The release handlers' target lane: the id of the first lane containing the
      release point, or the lane the drag started in when there is none. */
  function DropLane(prefs: seq<LanePreference>, location: Point, source: Id): (r: Id)
    ensures LaneAt(prefs, location).Some? ==> r == LaneAt(prefs, location).value.id
    ensures LaneAt(prefs, location).None? ==> r == source
  {
    match FirstIndex(prefs, (p: LanePreference) => Contains(p.bounds, location))
    case Some(i) => prefs[i].id
    case None => source
  }

  /** A release inside some lane never falls back, even when the drag started elsewhere. */
  lemma {:induction false} DropLaneHitsContainingLane(prefs: seq<LanePreference>, location: Point, source: Id, i: nat)
    requires i < |prefs| && Contains(prefs[i].bounds, location)
    ensures exists k :: 0 <= k <= i && DropLane(prefs, location, source) == prefs[k].id && Contains(prefs[k].bounds, location)
  {
    FirstIndexFinds(prefs, (p: LanePreference) => Contains(p.bounds, location), i);
  }

  /** The drop lane is registered whenever the release is inside a lane or the
      drag started in a registered one. */
  lemma {:induction false} DropLaneIsRegistered(prefs: seq<LanePreference>, location: Point, source: Id)
    requires LaneAt(prefs, location).Some? || Get(prefs, source).Some?
    ensures Get(prefs, DropLane(prefs, location, source)).Some?
  {
    if LaneAt(prefs, location).Some? {
      GetFindsLane(prefs, LaneAt(prefs, location).value);
    }
  }

  /** `preferenceValue[laneID]?.regionPreferences[id]`: the region with the id
      inside the first lane with the lane id. */
  function RegionById(prefs: seq<LanePreference>, laneID: Id, id: Id): (r: Option<RegionPreference>)
    ensures r.None? <==> Get(prefs, laneID).None?
                         || forall j :: 0 <= j < |Get(prefs, laneID).value.regionPreferences| ==>
                              Get(prefs, laneID).value.regionPreferences[j].id != id
    ensures Get(prefs, laneID).Some? ==> r == RegionWithId(Get(prefs, laneID).value.regionPreferences, id)
    ensures r.Some? ==> r.value.id == id && r.value in Get(prefs, laneID).value.regionPreferences
  {
    match Get(prefs, laneID)
    case None => None
    case Some(lane) => RegionWithId(lane.regionPreferences, id)
  }

  /** Every registered region has a positive width (the in-flight period divides by it). */
  predicate PositiveWidths(prefs: seq<LanePreference>) {
    forall i, j :: 0 <= i < |prefs| && 0 <= j < |prefs[i].regionPreferences| ==> prefs[i].regionPreferences[j].bounds.size.width > 0.0
  }

  lemma {:induction false} RegionOfRegistryIsPositive(prefs: seq<LanePreference>, lane: LanePreference, region: RegionPreference)
    requires PositiveWidths(prefs) && lane in prefs && region in lane.regionPreferences
    ensures region.bounds.size.width > 0.0
  {
    var i :| 0 <= i < |prefs| && prefs[i] == lane;
    var j :| 0 <= j < |lane.regionPreferences| && lane.regionPreferences[j] == region;
    assert prefs[i].regionPreferences[j] == region;
  }

  lemma {:induction false} RegionAtIsPositive(prefs: seq<LanePreference>, location: Point)
    requires PositiveWidths(prefs)
    ensures RegionAt(prefs, location).Some? ==> RegionAt(prefs, location).value.bounds.size.width > 0.0
  {
    if RegionAt(prefs, location).Some? {
      RegionOfRegistryIsPositive(prefs, LaneAt(prefs, location).value, RegionAt(prefs, location).value);
    }
  }

  lemma {:induction false} RegionByIdIsPositive(prefs: seq<LanePreference>, laneID: Id, id: Id)
    requires PositiveWidths(prefs)
    ensures RegionById(prefs, laneID, id).Some? ==> RegionById(prefs, laneID, id).value.bounds.size.width > 0.0
  {
    if RegionById(prefs, laneID, id).Some? {
      var lane := Get(prefs, laneID).value;
      assert lane in prefs;
      RegionOfRegistryIsPositive(prefs, lane, RegionById(prefs, laneID, id).value);
    }
  }
}
