// Types shared by the models.

module Wrappers {

  type byte = x: int | 0 <= x < 256 witness 0

  datatype Option<T> = None | Some(value: T)
}
