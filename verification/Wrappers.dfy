/** Types and facts shared by every module of the model. */
module Wrappers {

  type Byte = n: nat | n < 256

  datatype Option<+T> = None | Some(value: T)

  /** An `anyhow::Result`: the reason of a failure is kept as text and never inspected. */
  datatype Result<+T> = Ok(value: T) | Err(reason: string) {
    predicate IsFailure() {
      Err?
    }

    function PropagateFailure<U>(): Result<U>
      requires Err?
    {
      Err(reason)
    }

    function Extract(): T
      requires Ok?
    {
      value
    }
  }

  lemma SubsetCard<T>(a: set<T>, b: set<T>)
    requires a <= b
    ensures |a| <= |b|
  {
    assert a + (b - a) == b;
  }
}
