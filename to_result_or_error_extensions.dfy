/**
 * The ToResultOrError conversions (src/ResultOrError.ToResultOrErrorExtensions.cs):
 * a value, an error or an error list turned into a container.
 */
module ToResultOrErrorExtensions {
  import opened ErrorModel
  import opened Core

  function ValueToResultOrError<T>(value: T): (r: ResultOrError<T>)
    ensures !r.IsError() && r.value == value
    ensures r.ErrorsOrEmptyList() == []
  {
    FromValue(value)
  }

  function ErrorToResultOrError<T>(error: Error): (r: ResultOrError<T>)
    ensures r.IsError() && r.FirstError() == error
    ensures |r.Errors()| == 1
  {
    FromError(error)
  }

  /** The source converts any list; the model requires a non-empty one. */
  function ErrorsToResultOrError<T>(errors: seq<Error>): (r: ResultOrError<T>)
    requires |errors| > 0
    ensures r.IsError() && r.Errors() == errors
  {
    FromErrors(errors)
  }
}
