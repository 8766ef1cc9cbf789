/** Shared vocabulary: optional values and the identities (AnyHashable / String in
    the source) that lanes, regions and selections carry. */
module Base {

  /** Swift's `Optional`. */
  datatype Option<+T> = None | Some(value: T)

  /** Lane, region and tag identities; the source uses `AnyHashable` or `String`. */
  type Id = string
}
