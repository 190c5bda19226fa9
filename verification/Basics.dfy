/** What several of the models use. */
module Basics {
  datatype Option<+T> = None | Some(value: T)

  function Least(x: int, y: int): int {
    if x < y then x else y
  }
}
