/** The optional value used where the Java code has `null` or a parse that can fail. */
module Wrappers {

  datatype Option<+T> = None | Some(value: T)

}
