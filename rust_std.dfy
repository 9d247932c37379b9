/** Stand-ins for the two Rust standard-library enums the library returns. */
module RustStd {

  /** `std::option::Option<T>`. */
  datatype Option<T> = None | Some(value: T)

  /** `std::result::Result<T, E>`. */
  datatype Result<T, E> = Ok(value: T) | Err(error: E)
}
