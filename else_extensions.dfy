/**
 * Else and ElseAsync on a deferred container (src/ResultOrError.ElseExtensions.cs).
 * Each awaits the task and hands the resolved container to the instance
 * combinator of the same name.
 */
module ElseExtensions {
  import opened ErrorModel
  import opened Core
  import opened Tasks

  /** Else with a function returning a value. */
  function ElseValue<T>(resultOrError: Task<ResultOrError<T>>, onError: seq<Error> -> T)
    : (t: Task<ResultOrError<T>>)
    ensures t.Await() == resultOrError.Await().ElseValue(onError)
  {
    ContinueWith(resultOrError, (r: ResultOrError<T>) => r.ElseValue(onError))
  }

  /** Else with a literal value. */
  function ElseWith<T>(resultOrError: Task<ResultOrError<T>>, onError: T): (t: Task<ResultOrError<T>>)
    ensures t.Await() == resultOrError.Await().ElseWith(onError)
  {
    ContinueWith(resultOrError, (r: ResultOrError<T>) => r.ElseWith(onError))
  }

  /** ElseAsync with a function returning a task of a value. */
  function ElseValueAsync<T>(resultOrError: Task<ResultOrError<T>>, onError: seq<Error> -> Task<T>)
    : (t: Task<ResultOrError<T>>)
    ensures t.Await() == resultOrError.Await().ElseValueAsync(onError).Await()
  {
    ContinueWithAsync(resultOrError, (r: ResultOrError<T>) => r.ElseValueAsync(onError))
  }

  /** ElseAsync with a task of a value. */
  function ElseWithAsync<T>(resultOrError: Task<ResultOrError<T>>, onError: Task<T>)
    : (t: Task<ResultOrError<T>>)
    ensures t.Await() == resultOrError.Await().ElseWithAsync(onError).Await()
  {
    ContinueWithAsync(resultOrError, (r: ResultOrError<T>) => r.ElseWithAsync(onError))
  }

  /** Else with a function returning one error. */
  function ElseError<T>(resultOrError: Task<ResultOrError<T>>, onError: seq<Error> -> Error)
    : (t: Task<ResultOrError<T>>)
    ensures t.Await() == resultOrError.Await().ElseError(onError)
  {
    ContinueWith(resultOrError, (r: ResultOrError<T>) => r.ElseError(onError))
  }

  /** Else with a function returning an error list, which must not be empty. */
  function ElseErrors<T>(resultOrError: Task<ResultOrError<T>>, onError: seq<Error> -> seq<Error>)
    : (t: Task<ResultOrError<T>>)
    requires resultOrError.Await().IsError() ==> |onError(resultOrError.Await().Errors())| > 0
    ensures t.Await() == resultOrError.Await().ElseErrors(onError)
  {
    Task(() => resultOrError.Await().ElseErrors(onError))
  }

  /** Else with a literal error. */
  function ElseWithError<T>(resultOrError: Task<ResultOrError<T>>, error: Error): (t: Task<ResultOrError<T>>)
    ensures t.Await() == resultOrError.Await().ElseWithError(error)
  {
    ContinueWith(resultOrError, (r: ResultOrError<T>) => r.ElseWithError(error))
  }

  /** ElseAsync with a function returning a task of one error. */
  function ElseErrorAsync<T>(resultOrError: Task<ResultOrError<T>>, onError: seq<Error> -> Task<Error>)
    : (t: Task<ResultOrError<T>>)
    ensures t.Await() == resultOrError.Await().ElseErrorAsync(onError).Await()
  {
    ContinueWithAsync(resultOrError, (r: ResultOrError<T>) => r.ElseErrorAsync(onError))
  }

  /** ElseAsync with a function returning a task of an error list, which must not be empty. */
  function ElseErrorsAsync<T>(resultOrError: Task<ResultOrError<T>>, onError: seq<Error> -> Task<seq<Error>>)
    : (t: Task<ResultOrError<T>>)
    requires resultOrError.Await().IsError() ==> |onError(resultOrError.Await().Errors()).Await()| > 0
    ensures t.Await() == resultOrError.Await().ElseErrorsAsync(onError).Await()
  {
    Task(() => resultOrError.Await().ElseErrorsAsync(onError).Await())
  }

  /** ElseAsync with a task of an error. */
  function ElseWithErrorAsync<T>(resultOrError: Task<ResultOrError<T>>, error: Task<Error>)
    : (t: Task<ResultOrError<T>>)
    ensures t.Await() == resultOrError.Await().ElseWithErrorAsync(error).Await()
  {
    ContinueWithAsync(resultOrError, (r: ResultOrError<T>) => r.ElseWithErrorAsync(error))
  }
}
