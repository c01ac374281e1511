/** A value that may be absent: JavaScript's `undefined` at the places the action reads an
    optional field (`payload.pull_request?.title`, `commit.files?.map(...)`). */
module Wrappers {

  datatype Option<+T> = None | Some(value: T)
}
