/** The optional value used for a message that may fail to decode and for a reply that may not be sent. */
module Wrappers {
  datatype Option<+T> = None | Some(value: T)
}
