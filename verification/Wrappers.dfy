// What several modules use: optional values and the larger of two numbers.
module Wrappers {

  datatype Option<+T> = None | Some(value: T)

  function Max(a: nat, b: nat): nat {
    if a < b then b else a
  }
}
