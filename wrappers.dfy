/** Failure-carrying wrappers shared by the model's modules. A Rust panic
    (an `unwrap` of `None`, an out-of-bounds index, a failed `assert!`) is
    modelled as the failure case of one of these. */
module Wrappers {

  datatype Option<+T> = None | Some(value: T)

  datatype Result<+T, +E> = Ok(value: T) | Err(error: E)
}
