// Option, and the identifier types shared by every module.
module Wrappers {
  datatype Option<+T> = None | Some(value: T)

  type UserId = nat
}
