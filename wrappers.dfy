/** Option and Result types shared by the kernel modules: the C++ code signals
    "nothing" with nullptr and failures with an Error code. */
module Wrappers {

  datatype Option<+T> = None | Some(value: T)

  datatype Result<+T, +E> = Ok(value: T) | Err(error: E)
}
