/** The resolver's output: the integer drop address and the two ways a release
    reaches the selection. A handler either hands the address and its deferred
    move action to the host's callback (and applies nothing itself) or, when no
    callback is set, applies the action to the same address at once. */
module MoveCommit {
  import opened Base
  import opened Timeline

  /** `RegionAddress` as every caller builds it: the target lane and the bar range. */
  datatype RegionAddress = RegionAddress(laneID: Id, range: IntRange)

  /** `ToHost`: the host callback received `(address, action)`.
      `SelfApplied`: no callback was set, the action ran with `address` and
      `performed` is the selection it passed to `perform`, if any. */
  datatype Handoff<A, S> =
    | ToHost(address: RegionAddress, action: A)
    | SelfApplied(address: RegionAddress, performed: Option<S>)
  {
    function Address(): RegionAddress {
      match this
      case ToHost(a, _) => a
      case SelfApplied(a, _) => a
    }
  }
}
