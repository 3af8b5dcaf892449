/** Result and option types shared by the model; an `Err` stands for a raised exception. */
module Wrappers {

  datatype Option<+T> = None | Some(value: T)

  datatype Error =
    | Invalid        // ValueError, TypeError
    | NotFound       // KeyError
    | Conflict       // a primary key or UNIQUE violation
    | Refused        // RuntimeError
    | Interrupted    // an I/O failure or a cancellation at an await

  datatype Result<+T> = Ok(value: T) | Err(error: Error)

  function Min(a: int, b: int): int {
    if a <= b then a else b
  }

  function Max(a: int, b: int): int {
    if a >= b then a else b
  }
}
