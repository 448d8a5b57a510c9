/** The optional value shared by the models: `None` stands for C#'s `null` (an empty slot,
    no target, no entry drawn), `Some(v)` for a reference to `v`. */
module Wrappers {
  datatype Option<T> = None | Some(value: T)
}
