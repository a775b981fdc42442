/**
 * Failure-compatible wrappers shared by the whole model. The Python code
 * signals failure by raising; each exception kind it can raise in the
 * modelled paths is a constructor of `Error`.
 */
module Wrappers {

  datatype Option<T> = None | Some(value: T)

  /** The Python exceptions that the modelled code paths raise. */
  datatype Error =
    | ZeroDivisionError   // `x / 0`
    | KeyError            // `d[k]` with `k` missing
    | IndexError          // `df.iloc[i]` / `s[i]` out of range
    | ValueError          // explicit `raise ValueError`, tuple unpacking, `np.argmax([])`
    | TypeError           // an operator applied to a value of the wrong kind
    | NameError           // a reference to an undefined local
    | AttributeError      // a missing attribute or method on an object

  datatype Result<T> = Ok(value: T) | Err(error: Error) {

    predicate IsFailure() {
      Err?
    }

    function PropagateFailure<U>(): Result<U>
      requires Err?
    {
      Err(error)
    }

    function Extract(): T
      requires Ok?
    {
      value
    }
  }
}
