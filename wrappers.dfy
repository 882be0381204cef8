/** The optional-value datatype used throughout the model (Rust's `Option`). */
module Wrappers {

  datatype Option<+T> = None | Some(value: T)

  /** `opt.unwrap_or(default)` */
  function UnwrapOr<T>(opt: Option<T>, default: T): (r: T)
    ensures opt.Some? ==> r == opt.value
    ensures opt.None? ==> r == default
  {
    match opt
    case Some(v) => v
    case None => default
  }
}
