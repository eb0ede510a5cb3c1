/** Rust's `Option`, used both for optional values the source carries and for
    computations that can panic (None stands for the panic). */
module Wrappers {

  datatype Option<+T> = None | Some(value: T)

}
