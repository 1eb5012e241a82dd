/** Optional values: a reply that may not arrive, a variable that may be unset,
    a file that may not open. */
module Wrappers {

  datatype Option<+T> = None | Some(value: T)
}
