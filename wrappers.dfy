/** Failure-carrying values shared by every module of the model.

  A C# exception that aborts an operation is modelled as `Err(fault)`; the
  kind of exception is kept because several call sites catch some kinds and
  let others through.
 */
module Wrappers {

  datatype Option<+T> = None | Some(value: T)

  /** The exceptions the modelled code can raise or observe. */
  datatype Fault =
    | JsonException             // System.Text.Json could not deserialize a value
    | InvalidOperation          // InvalidOperationException (wrong JsonValueKind, missing header, ...)
    | KeyNotFound               // KeyNotFoundException (JsonElement.GetProperty on a missing name)
    | ArgumentOutOfRange        // a range index past the end of a string
    | HttpStatus(code: int)     // HttpRequestException from EnsureSuccessStatusCode
    | UnauthorizedAccess        // UnauthorizedAccessException thrown by a role gate
    | RoleNotFound              // the plain Exception thrown when a role lookup returns null

  const NotFound := 404
  const Conflict := 409

  datatype Result<+T> = Ok(value: T) | Err(fault: Fault) {

    predicate IsFailure() {
      Err?
    }

    function PropagateFailure<U>(): Result<U>
      requires Err?
    {
      Err(fault)
    }

    function Extract(): T
      requires Ok?
    {
      value
    }
  }
}
