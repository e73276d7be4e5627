/** The optional result shared by the models: `None` stands for JavaScript's `null`,
  * C++'s `nullopt`, or a run that stops at a failed check. */
module Wrappers {
  datatype Option<T> = None | Some(value: T)
}
