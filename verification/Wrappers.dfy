/** Outcomes of operations that may find nothing or may throw, and a fact about sequences. */
module Wrappers {
  datatype Option<+T> = None | Some(value: T)

  /** Err stands for an exception that leaves the Java method. */
  datatype Result<+T, +E> = Ok(value: T) | Err(error: E)

  lemma TakeAll<T>(s: seq<T>)
    ensures s[..|s|] == s
  {
  }
}
