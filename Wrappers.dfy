/** Optional values (Java's nullable references) and the outcome of a call that may throw. */
module Wrappers {

  /** A value that may be absent; `None` stands for Java's `null`. */
  datatype Option<+T> = None | Some(value: T)

  /** The outcome of a mutator that either returns normally or throws an unchecked exception. */
  datatype Outcome = Pass | Fail(error: string)
}
