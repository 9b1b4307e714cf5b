/** The optional value used where the Java code returns null or throws for a missing entry. */
module Wrappers {
  datatype Option<+T> = None | Some(value: T)
}
