/** Optional values, and results that carry the exception a script raises or
    the error the front end throws. */
module Wrappers {

  datatype Option<T> = None | Some(value: T) {
    function GetOr(default: T): T {
      if Some? then value else default
    }
  }

  /** The exceptions the Python scripts raise and the errors the front end throws. */
  datatype Error =
    | KeyError(key: string)    // d[k] on a missing key; single() on a value that is not a list
    | TypeError                // an operation applied to a value of the wrong type
    | AttributeError           // a method looked up on a value that does not have it
    | ValueError               // int() of text that is not an integer
    | StopIteration            // next() on a generator that yields nothing
    | IndexError               // s[0] or s[-1] of an empty string
    | Thrown(message: string)  // an Error thrown by the front end

  datatype Result<T> = Ok(value: T) | Err(error: Error) {
    predicate IsFailure() { Err? }
    function PropagateFailure<U>(): Result<U> requires Err? { Err(error) }
    function Extract(): T requires Ok? { value }
  }

  /** A JavaScript string is falsy when it is missing (`undefined`) or empty. */
  predicate Falsy(s: Option<string>) {
    s.None? || s == Some("")
  }
}
