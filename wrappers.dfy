/** The optional value used for reads that fail and regex searches that find nothing. */
module Wrappers {

  datatype Option<+T> = None | Some(value: T)
}
