/** ResultOrErrorFactory.From (src/ResultOrErrorFactory.cs). */
module ResultOrErrorFactory {
  import opened ErrorModel
  import opened Core

  /** A success holding `value`, whose error accessors answer with the success sentinels. */
  function From<T>(value: T): (r: ResultOrError<T>)
    ensures !r.IsError() && r.value == value
    ensures |r.Errors()| == 1 && r.Errors()[0].kind == Unexpected
    ensures r.ErrorsOrEmptyList() == []
    ensures r.FirstError().kind == Unexpected
  {
    FromValue(value)
  }
}
