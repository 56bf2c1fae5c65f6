/** Small failure-carrying datatypes shared by every page model. */
module Basics {

  /** `None` stands for JavaScript `undefined` wherever a value may be missing. */
  datatype Option<+T> = None | Some(value: T)

  /** Either a value or an error description. */
  datatype Result<+T, +E> = Ok(value: T) | Err(error: E)
}
