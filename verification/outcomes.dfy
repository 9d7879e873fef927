/**
 * Failure values shared by every module of the model.
 *
 * The client and its models signal errors by throwing .NET exceptions; the
 * model returns them as values instead, one constructor per exception type
 * that the modelled code can raise.
 */
module Outcomes {

  /** The exception types raised by the modelled code. */
  datatype Exception =
    | ArgumentNull          // System.ArgumentNullException
    | Argument              // System.ArgumentException (also a duplicate dictionary key)
    | ArgumentOutOfRange    // System.ArgumentOutOfRangeException
    | InvalidOperation      // System.InvalidOperationException
    | ObjectDisposed        // System.ObjectDisposedException
    | NotSupported          // System.NotSupportedException
    | NotImplemented        // System.NotImplementedException
    | OperationCanceled     // System.OperationCanceledException
    | Authentication        // System.Security.Authentication.AuthenticationException
    | UnauthorizedAccess    // System.UnauthorizedAccessException
    | Timeout               // System.TimeoutException
    | Overflow              // System.OverflowException
    | Format                // System.FormatException
    | IndexOutOfRange       // System.IndexOutOfRangeException
    | InvalidCast           // System.InvalidCastException
    | NullReference         // System.NullReferenceException
    | JsonSerialization     // Newtonsoft.Json.JsonSerializationException
    | JsonReader            // Newtonsoft.Json.JsonReaderException
    | WebSocket             // System.Net.WebSockets.WebSocketException

  datatype Option<T> = None | Some(value: T)

  datatype Result<T> = Ok(value: T) | Err(error: Exception) {
    predicate IsFailure() {
      Err?
    }

    function PropagateFailure<U>(): Result<U>
      requires Err?
    {
      Err(error)
    }

    function Extract(): T
      requires Ok?
    {
      value
    }
  }

  /** The outcome of an operation that returns nothing but may throw. */
  datatype Outcome = Pass | Fail(error: Exception) {
    predicate IsFailure() {
      Fail?
    }

    function PropagateFailure(): Outcome
      requires Fail?
    {
      this
    }
  }

  /**
   * The state of a .NET task or of the task behind a completion source:
   * still running, completed with a result, or ended by an exception
   * (cancellation is `OperationCanceled`).
   */
  datatype TaskState<T> = Running | Completed(result: T) | Faulted(error: Exception)

  /** .NET `uint`: the unsigned 32-bit range. */
  const UINT_LIMIT: int := 0x1_0000_0000
  type uint32 = x: int | 0 <= x < UINT_LIMIT

  /** .NET `byte`. */
  type byte = x: int | 0 <= x < 256

  /** .NET `int`: the signed 32-bit range. */
  const INT_MIN: int := -0x8000_0000
  const INT_MAX: int := 0x7FFF_FFFF
  predicate InInt32(x: int) {
    INT_MIN <= x <= INT_MAX
  }
}
