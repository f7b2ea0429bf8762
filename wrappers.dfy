/** The nullable values of the Java code (a `null` reference, an `Integer`
    that may be absent) as an explicit option type. */
module Wrappers {

  datatype Option<+T> = None | Some(value: T)
}
