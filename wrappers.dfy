/** The `null`/`undefined` results of the page's lookups, as a value. */
module Wrappers {

  datatype Option<+T> = None | Some(value: T)

}
