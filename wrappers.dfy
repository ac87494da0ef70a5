/** The usual Some/None datatype, used where Python returns `None` or raises. */
module Wrappers {

  datatype Option<+T> = None | Some(value: T)
}
