/** Two-way answers and saturating subtraction, used throughout the model. */
module Wrappers {
  datatype Option<+T> = None | Some(value: T) {
    function GetOr(default: T): T {
      if Some? then value else default
    }
  }

  datatype Result<+T, +E> = Ok(value: T) | Err(error: E)

  /** Subtraction that stops at zero (`saturating_sub` of unsigned integers). */
  function Less(a: nat, b: nat): nat {
    if a > b then a - b else 0
  }
}
