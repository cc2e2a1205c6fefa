/** The optional value used where the pages produce `undefined`, skip an action or abort a handler. */
module Wrappers {

  datatype Option<+T> = None | Some(value: T)
}
