// Result types shared by the models: the stock optional value and a
// success-or-error value standing for the program's error returns.
module Outcomes {
  datatype Option<+T> = None | Some(value: T)

  datatype Result<+T, +E> = Ok(value: T) | Err(error: E)
}
