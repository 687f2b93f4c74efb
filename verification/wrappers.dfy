/** An optional value: a field that may be absent (`location?: string`), or a
    callback that may not have been invoked. */
module Wrappers {

  datatype Option<+T> = None | Some(value: T)
}
