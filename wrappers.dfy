/** Failure-carrying datatypes shared by every module of the model. */
module Wrappers {

  datatype Option<+T> = None | Some(value: T)

  /** The Python exceptions the modelled scripts can raise and do not catch. */
  datatype Exception =
    | ValueError      // failed tuple unpacking, `str.index` without a match, an explicit raise
    | AssertionError  // a failing `assert` statement
    | IndexError      // indexing past the end of a list
    | KeyError        // a missing dictionary key
    | FileNotFound    // `open` on a path that does not exist
    | AttributeError  // `getattr` on a name the object does not have

  /** Either the value a Python function returns, or the exception it raises. */
  datatype Result<+T> = Ok(value: T) | Err(error: Exception)
}
