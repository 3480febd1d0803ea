/** Small value wrappers used across the model: an absent value (Python's None)
    and a result that is either a value or an error (a raised exception). */
module Basics {

  datatype Option<+T> = None | Some(value: T)

  datatype Result<+T, +E> = Ok(value: T) | Err(error: E)
}
