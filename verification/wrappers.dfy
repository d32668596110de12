/** The optional value used for the spawn decision and for `list.remove`, which may fail. */
module Wrappers {

  datatype Option<+T> = None | Some(value: T)
}
