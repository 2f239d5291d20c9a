/** Optional values: a C pointer that may be NULL, a gconf entry without a value,
    a scan that matched nothing. */
module Wrappers {

  datatype Option<+T> = None | Some(value: T)
}
