/** Optional values, used wherever the program uses `Option` or an error it does not tell apart. */
module Wrappers {

  datatype Option<+T> = None | Some(value: T)
}
