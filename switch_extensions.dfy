/**
 * Switch, SwitchAsync, SwitchFirst and SwitchFirstAsync on a deferred
 * container (src/ResultOrError.SwitchExtensions.cs). As in the instance
 * model, the result records which delegate runs and with what argument.
 */
module SwitchExtensions {
  import opened ErrorModel
  import opened Core
  import opened Tasks

  function Switch<T>(resultOrError: Task<ResultOrError<T>>): (t: Task<Branch<T, seq<Error>>>)
    ensures t.Await() == resultOrError.Await().Switch()
  {
    ContinueWith(resultOrError, (r: ResultOrError<T>) => r.Switch())
  }

  function SwitchAsync<T>(resultOrError: Task<ResultOrError<T>>): (t: Task<Branch<T, seq<Error>>>)
    ensures t.Await() == resultOrError.Await().SwitchAsync().Await()
  {
    ContinueWithAsync(resultOrError, (r: ResultOrError<T>) => r.SwitchAsync())
  }

  function SwitchFirst<T>(resultOrError: Task<ResultOrError<T>>): (t: Task<Branch<T, Error>>)
    ensures t.Await() == resultOrError.Await().SwitchFirst()
  {
    ContinueWith(resultOrError, (r: ResultOrError<T>) => r.SwitchFirst())
  }

  function SwitchFirstAsync<T>(resultOrError: Task<ResultOrError<T>>): (t: Task<Branch<T, Error>>)
    ensures t.Await() == resultOrError.Await().SwitchFirstAsync().Await()
  {
    ContinueWithAsync(resultOrError, (r: ResultOrError<T>) => r.SwitchFirstAsync())
  }
}
