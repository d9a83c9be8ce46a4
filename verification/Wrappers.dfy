/** Results that may be missing: assertions that fire, reverts, lookups that fail. */
module Wrappers {
  datatype Option<+T> = None | Some(value: T)
}
