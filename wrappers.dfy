/** An optional value: a document path that is absent, or a request-body field that was not sent. */
module Wrappers {

  datatype Option<+T> = None | Some(value: T)
}
