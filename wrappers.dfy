/** A value that may be absent: the model of a JSON field that `dict.get` returns as `None`. */
module Wrappers {

  datatype Option<+T> = None | Some(value: T)
}
