/// The optional value used wherever the source returns `null`, `undefined`
/// or `NaN` instead of a value.
module Wrappers {

  datatype Option<+T> = None | Some(value: T)
}
