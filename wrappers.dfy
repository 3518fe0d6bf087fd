/** The optional value used wherever the Java code may hold or return null. */
module Wrappers {

  datatype Option<+T> = None | Some(value: T)
}
