/** Small values shared by all modules. */
module Wrappers {
  datatype Option<+T> = None | Some(value: T)

  function Min(a: int, b: int): int {
    if a < b then a else b
  }

  function Max(a: int, b: int): int {
    if a > b then a else b
  }

  function Larger(a: real, b: real): real {
    if a < b then b else a
  }
}
