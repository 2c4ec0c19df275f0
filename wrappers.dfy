/** The optional values of the drawing session: `null` in the source is `None`. */
module Wrappers {

  datatype Option<+T> = None | Some(value: T)
}
