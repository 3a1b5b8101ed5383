/** Small value wrappers shared by every module of the model. */
module Common {

  /** A value that may be absent: the model's stand-in for `undefined`. */
  datatype Option<+T> = None | Some(value: T)

  /** The outcome of a step that can be rejected with an error value. */
  datatype Result<+T, +E> = Ok(value: T) | Err(error: E)

  /** A prefix one element longer is the shorter prefix followed by that element. */
  lemma PrefixSnoc<T>(q: seq<T>, i: nat)
    requires i < |q|
    ensures q[..i + 1] == q[..i] + [q[i]]
  {
  }

  /** A non-empty sequence is its prefix without the last element, then that element. */
  lemma LastSplit<T>(q: seq<T>)
    requires q != []
    ensures q[..|q| - 1] + [q[|q| - 1]] == q
  {
  }
}
