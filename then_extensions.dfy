/**
 * Then and ThenAsync on a deferred container (src/ResultOrError.ThenExtensions.cs).
 * Each awaits the task and hands the resolved container to the instance
 * combinator of the same name.
 */
module ThenExtensions {
  import opened Core
  import opened Tasks

  /** Then with a function returning a container. */
  function Then<T, U>(resultOrError: Task<ResultOrError<T>>, onValue: T -> ResultOrError<U>)
    : (t: Task<ResultOrError<U>>)
    ensures t.Await() == resultOrError.Await().Then(onValue)
  {
    ContinueWith(resultOrError, (r: ResultOrError<T>) => r.Then(onValue))
  }

  /** Then with a function returning a plain value. */
  function ThenValue<T, U>(resultOrError: Task<ResultOrError<T>>, onValue: T -> U)
    : (t: Task<ResultOrError<U>>)
    ensures t.Await() == resultOrError.Await().ThenValue(onValue)
  {
    ContinueWith(resultOrError, (r: ResultOrError<T>) => r.ThenValue(onValue))
  }

  /** Then with an action. */
  function ThenDo<T>(resultOrError: Task<ResultOrError<T>>): (t: Task<ActionRun<T>>)
    ensures t.Await() == resultOrError.Await().ThenDo()
  {
    ContinueWith(resultOrError, (r: ResultOrError<T>) => r.ThenDo())
  }

  /** ThenAsync with a function returning a task of a container. */
  function ThenAsync<T, U>(resultOrError: Task<ResultOrError<T>>, onValue: T -> Task<ResultOrError<U>>)
    : (t: Task<ResultOrError<U>>)
    ensures t.Await() == resultOrError.Await().ThenAsync(onValue).Await()
  {
    ContinueWithAsync(resultOrError, (r: ResultOrError<T>) => r.ThenAsync(onValue))
  }

  /** ThenAsync with a function returning a task of a plain value. */
  function ThenValueAsync<T, U>(resultOrError: Task<ResultOrError<T>>, onValue: T -> Task<U>)
    : (t: Task<ResultOrError<U>>)
    ensures t.Await() == resultOrError.Await().ThenValueAsync(onValue).Await()
  {
    ContinueWithAsync(resultOrError, (r: ResultOrError<T>) => r.ThenValueAsync(onValue))
  }

  /** ThenAsync with an asynchronous action. */
  function ThenDoAsync<T>(resultOrError: Task<ResultOrError<T>>): (t: Task<ActionRun<T>>)
    ensures t.Await() == resultOrError.Await().ThenDoAsync().Await()
  {
    ContinueWithAsync(resultOrError, (r: ResultOrError<T>) => r.ThenDoAsync())
  }
}
