/** Types that several components share. */
module Basics {
  /** Results that may be missing: Go's `(value, ok)`, `nil` and `(value, err)`. */
  datatype Option<T> = None | Some(value: T)

  type Byte = x: int | 0 <= x < 256
}
