/**
 * A deferred computation (a .NET Task) modelled as the thunk that yields its
 * resolved result. Awaiting runs the thunk; scheduling, cancellation and
 * exceptions are not part of the model.
 */
module Tasks {

  datatype Task<+T> = Task(run: () -> T) {

    /** The value the task resolves to. */
    function Await(): T {
      run()
    }
  }

  /** An already-completed task (Task.FromResult). */
  function FromResult<T>(x: T): (t: Task<T>)
    ensures t.Await() == x
  {
    Task(() => x)
  }

  /** Awaits `t`, then applies `f` to its result. */
  function ContinueWith<A, B>(t: Task<A>, f: A -> B): (u: Task<B>)
    ensures u.Await() == f(t.Await())
  {
    Task(() => f(t.Await()))
  }

  /** Awaits `t`, then awaits the task that `f` starts from its result. */
  function ContinueWithAsync<A, B>(t: Task<A>, f: A -> Task<B>): (u: Task<B>)
    ensures u.Await() == f(t.Await()).Await()
  {
    Task(() => f(t.Await()).Await())
  }
}
