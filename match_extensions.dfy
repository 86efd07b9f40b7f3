/**
 * Match and MatchFirst on a deferred container. The library's tests call
 * these on a task (tests/ResultOrError.MatchTests.cs), but the file that
 * defines them is not part of this model; they are written by analogy
 * with the Switch extensions: await the task, then run the instance fold.
 */
module MatchExtensions {
  import opened ErrorModel
  import opened Core
  import opened Tasks

  function Match<T, R>(resultOrError: Task<ResultOrError<T>>, onValue: T -> R, onError: seq<Error> -> R)
    : (t: Task<R>)
    ensures t.Await() == resultOrError.Await().Match(onValue, onError)
  {
    ContinueWith(resultOrError, (r: ResultOrError<T>) => r.Match(onValue, onError))
  }

  function MatchAsync<T, R>(resultOrError: Task<ResultOrError<T>>, onValue: T -> Task<R>,
                            onError: seq<Error> -> Task<R>): (t: Task<R>)
    ensures t.Await() == resultOrError.Await().MatchAsync(onValue, onError).Await()
  {
    ContinueWithAsync(resultOrError, (r: ResultOrError<T>) => r.MatchAsync(onValue, onError))
  }

  function MatchFirst<T, R>(resultOrError: Task<ResultOrError<T>>, onValue: T -> R, onFirstError: Error -> R)
    : (t: Task<R>)
    ensures t.Await() == resultOrError.Await().MatchFirst(onValue, onFirstError)
  {
    ContinueWith(resultOrError, (r: ResultOrError<T>) => r.MatchFirst(onValue, onFirstError))
  }

  function MatchFirstAsync<T, R>(resultOrError: Task<ResultOrError<T>>, onValue: T -> Task<R>,
                                 onFirstError: Error -> Task<R>): (t: Task<R>)
    ensures t.Await() == resultOrError.Await().MatchFirstAsync(onValue, onFirstError).Await()
  {
    ContinueWithAsync(resultOrError, (r: ResultOrError<T>) => r.MatchFirstAsync(onValue, onFirstError))
  }
}
