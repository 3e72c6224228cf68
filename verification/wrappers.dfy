/** An optional value (a field that may be absent, a read that may fail) and Python's truthiness of one. */
module Wrappers {
  datatype Option<+T> = None | Some(value: T)

  /** Python truthiness of an optional string: present and non-empty. */
  predicate Truthy(s: Option<string>) {
    s.Some? && s.value != ""
  }
}
