/** Result types shared by every module of the model.

    The source signals failure by raising Python exceptions; the model returns
    them instead.  `Error` names the exception class the source raises. */
module Base {

  datatype Option<+T> = None | Some(value: T) {
    function GetOr(default: T): T {
      match this
      case Some(v) => v
      case None => default
    }
  }

  /** The exception classes the modelled code raises.  `DecodeError` is
      json.JSONDecodeError (a subclass of ValueError in Python). */
  datatype Error =
    | KeyError
    | ValueError
    | TypeError
    | IndexError
    | AttributeError
    | DecodeError

  /** A value, or the exception raised instead of returning one. */
  datatype Result<+T> = Ok(value: T) | Err(error: Error) {
    predicate IsFailure() { Err? }

    function PropagateFailure<U>(): Result<U>
      requires Err?
    {
      Err(error)
    }

    function Extract(): T
      requires Ok?
    {
      value
    }
  }

  /** Completion of a procedure that returns nothing (Python's None). */
  datatype Outcome = Pass | Fail(error: Error) {
    predicate IsFailure() { Fail? }

    function PropagateFailure(): Outcome
      requires Fail?
    {
      this
    }
  }

  /** Concatenation regroups freely; stating one regrouping at a time keeps
      proofs about concatenated text small. */
  lemma {:induction false} AppendAssoc<T>(a: seq<T>, b: seq<T>, c: seq<T>)
    ensures a + b + c == a + (b + c)
  {
  }
}
