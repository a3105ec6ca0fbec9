/** The optional value used for the source's nullable references and failed matches. */
module Wrappers {

  datatype Option<+T> = None | Some(value: T)
}
