/** Option, Result and Outcome, and the exceptions the modelled code throws. */
module Wrappers {

  /** The kinds of exception the modelled code raises or lets through. */
  datatype Error =
    | JsvError          // JSVException, the framework's own exception
    | ArgumentError     // ArgumentException
    | ArgumentNullError // ArgumentNullException
    | ObjectDisposed    // ObjectDisposedException
    | NotImplemented    // NotImplementedException
    | KeyNotFound       // KeyNotFoundException from a Dictionary indexer
    | InvalidCast       // InvalidCastException from a reference cast
    | NullReference     // NullReferenceException
    | JsError           // an Error thrown on the JavaScript side
    | JsonError         // JsonException from a malformed JSON text
    | GenericError      // a plain System.Exception

  datatype Option<+T> = None | Some(value: T) {
    predicate IsFailure() { None? }
    function PropagateFailure<U>(): Option<U> requires None? { None }
    function Extract(): T requires Some? { value }
    function GetOr(default: T): T {
      match this
      case Some(v) => v
      case None => default
    }
  }

  datatype Result<+T> = Ok(value: T) | Err(error: Error) {
    predicate IsFailure() { Err? }
    function PropagateFailure<U>(): Result<U> requires Err? { Err(error) }
    function Extract(): T requires Ok? { value }
  }

  /** The result of an operation that returns nothing (a C# void method) or throws. */
  datatype Outcome = Pass | Fail(error: Error) {
    predicate IsFailure() { Fail? }
    function PropagateFailure(): Outcome requires Fail? { this }
  }
}
