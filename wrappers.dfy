/** The optional value used for every lookup that can fail: an HTTP answer that is
    missing or malformed, a block whose transactions could not be read. */
module Wrappers {

  datatype Option<+T> = None | Some(value: T)
}
