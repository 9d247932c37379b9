/**
 * The total optional of the library: `TNone` and `TSome<T>`, returned by
 * the never-failing list operations, and its conversion `to_option` to
 * the standard `Option`.
 */
module Optionals {

  import opened RustStd

  datatype Optional<T> = TNone | TSome(value: T)

  /** `Optional::to_option`: keeps the variant and the carried value. */
  function ToOption<T>(o: Optional<T>): (r: Option<T>)
    ensures r.Some? <==> o.TSome?
    ensures r.Some? ==> r.value == o.value
  {
    match o
    case TNone => None
    case TSome(x) => Some(x)
  }
}
