/** An optional value: a field of an update patch that may be absent. */
module Opt {
  datatype Option<T> = None | Some(value: T)
}
