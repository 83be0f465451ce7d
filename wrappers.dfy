/** The optional value used wherever the JavaScript code tests for
    `null`/`undefined` (a missing table field, a lookup that finds nothing). */
module Wrappers {

  datatype Option<+T> = None | Some(value: T)
}
