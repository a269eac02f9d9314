/** The optional-value datatype the model uses for JavaScript's `undefined`. */
module Wrappers {

  /** `None` stands for a missing property or a `find` that matched nothing. */
  datatype Option<+T> = None | Some(value: T)
}
