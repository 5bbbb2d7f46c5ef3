/** Option and Result values used for the game's nullable records and for the
    `{ success: false, error }` results of its server actions. */
module Wrappers {

  datatype Option<+T> = None | Some(value: T)

  datatype Result<+T, +E> = Ok(value: T) | Err(error: E)
}
