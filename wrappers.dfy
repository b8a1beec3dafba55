/** Option and Result, standing in for Java's null and for thrown exceptions. */
module Wrappers {

  /** `None` stands for a Java `null`. */
  datatype Option<+T> = None | Some(value: T)

  /** `Err` stands for an exception the Java code throws instead of returning. */
  datatype Result<+T, +E> = Ok(value: T) | Err(error: E)
}
