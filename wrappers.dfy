/** The optional value the records use for a missing medication or follow-up. */
module Wrappers {

  datatype Option<+T> = None | Some(value: T)
}
