/**
 * The error taxonomy of src/utils/error-handler.ts: `AppError` and its three subclasses, and
 * `handleError`, which turns anything thrown into a message for the user.
 *
 * A thrown value is one of three kinds: an instance of `AppError` (or of a subclass), some
 * other `Error`, or a value that is not an `Error` at all.
 */
module ErrorHandler {
  /** Which constructor built an `AppError`. */
  datatype ErrorClass = AppErrorClass | ValidationErrorClass | APIErrorClass | FileProcessingErrorClass

  datatype Thrown =
    | AppErr(cls: ErrorClass, message: string, code: string, statusCode: int)
    | OtherError(name: string, message: string)
    | NotAnError

  /** The fallback of `handleError` for a value that is not an `Error`. */
  const UnexpectedErrorMessage := "An unexpected error occurred. Please try again."

  /** The `name` each class's constructor assigns. */
  function ClassName(cls: ErrorClass): string
  {
    match cls
    case AppErrorClass => "AppError"
    case ValidationErrorClass => "ValidationError"
    case APIErrorClass => "APIError"
    case FileProcessingErrorClass => "FileProcessingError"
  }

  /** `error.name` for an `Error`. */
  function Name(t: Thrown): string
    requires IsError(t)
  {
    if t.AppErr? then ClassName(t.cls) else t.name
  }

  /** `error instanceof AppError`. */
  predicate IsAppError(t: Thrown) {
    t.AppErr?
  }

  /** `error instanceof Error`: every `AppError` is one. */
  predicate IsError(t: Thrown) {
    t.AppErr? || t.OtherError?
  }

  /** `new AppError(message, code, statusCode)`, with the source's defaults. */
  function NewAppError(message: string, code: string := "UNKNOWN_ERROR", statusCode: int := 500): (e: Thrown)
    ensures IsAppError(e) && IsError(e)
    ensures Name(e) == "AppError"
    ensures e.message == message && e.code == code && e.statusCode == statusCode
  {
    AppErr(AppErrorClass, message, code, statusCode)
  }

  /** `new ValidationError(message)`: code and status are fixed. */
  function NewValidationError(message: string): (e: Thrown)
    ensures IsAppError(e) && IsError(e)
    ensures Name(e) == "ValidationError"
    ensures e.message == message && e.code == "VALIDATION_ERROR" && e.statusCode == 400
  {
    AppErr(ValidationErrorClass, message, "VALIDATION_ERROR", 400)
  }

  /** `new APIError(message, statusCode)`: the code is fixed, the status defaults to 500. */
  function NewAPIError(message: string, statusCode: int := 500): (e: Thrown)
    ensures IsAppError(e) && IsError(e)
    ensures Name(e) == "APIError"
    ensures e.message == message && e.code == "API_ERROR" && e.statusCode == statusCode
  {
    AppErr(APIErrorClass, message, "API_ERROR", statusCode)
  }

  /** `new FileProcessingError(message)`: code and status are fixed. */
  function NewFileProcessingError(message: string): (e: Thrown)
    ensures IsAppError(e) && IsError(e)
    ensures Name(e) == "FileProcessingError"
    ensures e.message == message && e.code == "FILE_PROCESSING_ERROR" && e.statusCode == 500
  {
    AppErr(FileProcessingErrorClass, message, "FILE_PROCESSING_ERROR", 500)
  }

  /** `err instanceof Error ? err.message : fallback`, the pattern the hooks use. */
  function MessageOr(t: Thrown, fallback: string): (m: string)
    ensures IsError(t) ==> m == t.message
    ensures !IsError(t) ==> m == fallback
  {
    match t
    case AppErr(_, message, _, _) => message
    case OtherError(_, message) => message
    case NotAnError => fallback
  }

  /**
   * `handleError`: the message of any `Error`, `AppError` included, and the fixed fallback
   * sentence for anything else.
   */
  function HandleError(t: Thrown): (m: string)
    ensures IsError(t) ==> m == t.message
    ensures !IsError(t) ==> m == UnexpectedErrorMessage
  {
    if IsAppError(t) then t.message
    else if IsError(t) then t.message
    else UnexpectedErrorMessage
  }

  /** The two branches of `handleError` that test `instanceof` agree: both return the message. */
  lemma HandleErrorIsMessageOr(t: Thrown)
    ensures HandleError(t) == MessageOr(t, UnexpectedErrorMessage)
  {
  }

  /** Distinct classes get distinct names, so `name` identifies the constructor. */
  lemma {:induction false} ClassNameInjective(c1: ErrorClass, c2: ErrorClass)
    ensures ClassName(c1) == ClassName(c2) <==> c1 == c2
  {
    if c1 != c2 {
      var n1, n2 := ClassName(c1), ClassName(c2);
      assert n1 != n2 by {
        if |n1| == |n2| {
          assert n1[1] != n2[1];
        }
      }
    }
  }
}
