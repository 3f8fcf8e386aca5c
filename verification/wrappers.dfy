/** The optional value used for the screen's "may be absent" fields. */
module Wrappers {

  datatype Option<+T> = None | Some(value: T)
}
