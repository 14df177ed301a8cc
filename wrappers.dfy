/** Optional values, for the places where the source uses None, null or a missing key. */
module Wrappers {

  datatype Option<+T> = None | Some(value: T)

  /**
   * Python truthiness of an optional string (`if key:`, `not key`): present
   * and non-empty.
   */
  predicate Truthy(s: Option<string>) {
    s.Some? && |s.value| > 0
  }
}
