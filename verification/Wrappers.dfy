/** Results that may be missing: a rejected read, a refused call, an absent file. */
module Wrappers {

  datatype Option<+T> = None | Some(value: T)
}
