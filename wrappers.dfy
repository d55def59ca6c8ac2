/** Option and Result, used for the places where euclid.py either has no value
    (a missing dictionary key, a value not found in a list) or raises an exception. */
module Wrappers {

  datatype Option<+T> = None | Some(value: T)

  datatype Result<+R, +E> = Ok(value: R) | Err(error: E)
}
