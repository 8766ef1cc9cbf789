/** `RegionPlaceholder`: a region given by a whole-bar period, with an action
    run by `hide()`. */
module RegionPlaceholder {
  import opened Base
  import opened Timeline
  import opened LaneRegioning

  /** A stored closure, identified by a token; what it does belongs to the host. */
  datatype HideAction = HideAction(token: nat)

  /** `id` is a fresh UUID string at `init`; here it is supplied by the caller. */
  datatype RegionPlaceholder = RegionPlaceholder(id: Id, period: IntRange, action: HideAction)

  /** `init(period:action:)`. Building a `Range` needs its bounds in order. */
  function Init(uuid: Id, period: IntRange, action: nat): (p: RegionPlaceholder)
    requires period.Valid()
    ensures p.id == uuid && p.period == period && p.action == HideAction(action)
  {
    RegionPlaceholder(uuid, period, HideAction(action))
  }

  /** `startRegion(_:options:)`. */
  function StartRegion(p: RegionPlaceholder, laneRange: IntRange, o: Options): (r: real)
    ensures IsIntegral(r) && r.Floor == p.period.lower
  {
    p.period.lower as real
  }

  /** `endRegion(_:options:)`. */
  function EndRegion(p: RegionPlaceholder, laneRange: IntRange, o: Options): (r: real)
    ensures IsIntegral(r) && r.Floor == p.period.upper
  {
    p.period.upper as real
  }

  /** The conformance reads the period only: the lane range and options make no
      difference, the bounds are whole bars, and the length is the period's
      count, never negative for a placeholder built by `init`. */
  lemma RegioningIsPeriod(p: RegionPlaceholder, r1: IntRange, o1: Options, r2: IntRange, o2: Options)
    ensures StartRegion(p, r1, o1) == StartRegion(p, r2, o2) && EndRegion(p, r1, o1) == EndRegion(p, r2, o2)
    ensures IsIntegral(StartRegion(p, r1, o1)) && IsIntegral(EndRegion(p, r1, o1))
    ensures EndRegion(p, r1, o1) - StartRegion(p, r1, o1) == p.period.Count() as real
    ensures p.period.Valid() ==> EndRegion(p, r1, o1) >= StartRegion(p, r1, o1)
  {
  }

  /** The placeholder as the layout sees it. */
  function AsSpan(p: RegionPlaceholder, laneRange: IntRange, o: Options): (s: Span)
    ensures s.id == p.id && s.start == p.period.lower as real && s.end == p.period.upper as real
  {
    Span(p.id, StartRegion(p, laneRange, o), EndRegion(p, laneRange, o))
  }

  /** The host's closures as observed: every invocation, in order. */
  class ActionLog {
    var invoked: seq<HideAction>

    constructor ()
      ensures invoked == []
    {
      invoked := [];
    }

    /** `HideAction.callAsFunction()`: runs the stored closure. */
    method Call(action: HideAction)
      modifies this
      ensures invoked == old(invoked) + [action]
    {
      invoked := invoked + [action];
    }

    /** `hide()`: forwards to the action given at `init`, once per call. */
    method Hide(p: RegionPlaceholder)
      modifies this
      ensures invoked == old(invoked) + [p.action]
    {
      Call(p.action);
    }
  }
}
