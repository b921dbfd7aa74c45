/** The Option datatype shared by the gallery and the service-worker models. */
module Wrappers {

  /** A value that may be absent: JavaScript's `undefined`/`null` results. */
  datatype Option<+T> = None | Some(value: T)
}
