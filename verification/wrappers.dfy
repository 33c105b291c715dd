/** The nullable values of the controller (`await feed` may be null) as an Option. */
module Wrappers {

  datatype Option<+T> = None | Some(value: T)
}
