/** The optional value used wherever the runtime code works with a nullable
    reference or an absent map entry. */
module Wrappers {

  datatype Option<+T> = None | Some(value: T)
}
