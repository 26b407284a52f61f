/** Option and Result, and the errors the back end raises. */
module Wrappers {

  datatype Option<+T> = None | Some(value: T)

  /** Everything the modelled Python code raises. Python's built-in lookup
      and type errors (KeyError, IndexError, TypeError, AttributeError) are
      not told apart beyond the three kinds below; the RuntimeErrors and the
      destaging Exception that the back end raises itself each have a kind,
      and so does the job store's JobNotFound. */
  datatype Error =
    | KeyMissing(key: string)
    | IndexOutOfRange(index: nat)
    | WrongType
    | DirectoryUnsupported
    | InvalidSecondaryFile
    | NoSteps
    | InvalidStep
    | ArgumentsNotList
    | UnexpectedOutputLocation(location: string, prefix: string)
    | InstallScriptFailed(exitCode: int)
    /** Raised by the job store's `get_job` for a job it does not have. */
    | JobNotFound

  datatype Result<+T> = Ok(value: T) | Err(error: Error) {
    predicate IsFailure() { Err? }

    function PropagateFailure<U>(): Result<U>
      requires Err?
    {
      Err(error)
    }

    function Extract(): T
      requires Ok?
    {
      value
    }
  }

  /** A loop that has built `done` and goes on to produce `r`: the whole
      result, or the failure that stopped it. */
  function Prepended<T>(done: seq<T>, r: Result<seq<T>>): Result<seq<T>> {
    if r.Ok? then Ok(done + r.value) else r
  }

  lemma PrependedNothing<T>(r: Result<seq<T>>)
    ensures Prepended([], r) == r
  {
    if r.Ok? {
      assert [] + r.value == r.value;
    }
  }

  lemma PrependedTwice<T>(a: seq<T>, b: seq<T>, r: Result<seq<T>>)
    ensures Prepended(a, Prepended(b, r)) == Prepended(a + b, r)
  {
    if r.Ok? {
      assert a + (b + r.value) == (a + b) + r.value;
    }
  }
}
