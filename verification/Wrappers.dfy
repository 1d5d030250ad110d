/** Small values used throughout: optional values and lists with one element left out. */
module Wrappers {

  datatype Option<+T> = None | Some(value: T)

  /** The list without the element at position `i`. */
  function Without<T>(xs: seq<T>, i: nat): seq<T>
    requires i < |xs|
  {
    xs[..i] + xs[i + 1..]
  }
}
