/** The optional-value datatype used for JavaScript's optional chaining (`?.`)
    and for promises that may reject. */
module Wrappers {

  datatype Option<+T> = None | Some(value: T)
}
