/** Failure-compatible result types shared by the whole model. */
module Wrappers {

  datatype Option<+T> = None | Some(value: T)

  datatype Result<+R, +E> = Ok(value: R) | Err(error: E)

  /** The Python exceptions the modelled code can raise. */
  datatype PyError =
    | ValueError   // int() of a token that is not a decimal literal
    | IndexError   // indexing past the end of a list or array
    | KeyError     // looking up a key a dict does not hold
    | StopIteration     // next() on a generator that has finished
    | ZeroDivisionError // dividing by zero
}
