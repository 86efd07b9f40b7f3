/**
 * The value-or-error container ResultOrError<TValue> (src/ResultOrError.cs):
 * an immutable union that holds either one value or a non-empty list of
 * errors, with its accessors, its constructors and the combinators Switch,
 * Match, Then and Else together with their asynchronous twins.
 *
 * Every combinator is a pure function of the container. Delegates that the
 * source calls only for their side effects (the actions of Switch and of
 * Then(Action)) are not passed in; instead the result records which branch
 * ran and with what argument.
 */
module Core {
  import opened ErrorModel
  import opened Options
  import opened Tasks

  /** Returned by FirstError on a success. */
  const NoFirstError: Error :=
    Error(Unexpected, "ResultOrError.NoFirstError",
          "First error cannot be retrieved from a successful ResultOrError.")

  /** The single element of Errors on a success. */
  const NoErrors: Error :=
    Error(Unexpected, "ResultOrError.NoErrors",
          "Error list cannot be retrieved from a successful ResultOrError.")

  /**
   * The errors an error state holds. The source does not check that the
   * list is non-empty; the model makes it part of the type (see FromErrors).
   */
  type ErrorList = es: seq<Error> | |es| > 0 witness [NoErrors]

  /** Which of the two delegates of a Switch runs, and the argument it receives. */
  datatype Branch<+T, +E> = OnValue(value: T) | OnError(error: E) {

    /** What running the chosen delegate gives. */
    function Invoke<R>(onValue: T -> R, onError: E -> R): R {
      match this
      case OnValue(v) => onValue(v)
      case OnError(e) => onError(e)
    }
  }

  /**
   * The outcome of Then with an action: the container it returns and the
   * argument the action was invoked with (None when it was not invoked).
   */
  datatype ActionRun<T> = ActionRun(result: ResultOrError<T>, actionArgument: Option<T>)

  datatype ResultOrError<T> = Val(value: T) | Errs(errors: ErrorList) {

    /** The state flag: an error state always holds at least one error, a success its value. */
    predicate IsError()
      ensures IsError() ==> Errs? && |errors| > 0
      ensures !IsError() ==> this == Val(value)
    {
      Errs?
    }

    /** The errors; on a success, the one-element list [NoErrors]. Never empty. */
    function Errors(): (es: seq<Error>)
      ensures |es| > 0
      ensures IsError() ==> es == errors
      ensures !IsError() ==> es == [NoErrors]
    {
      if IsError() then errors else [NoErrors]
    }

    /** The errors; on a success, the empty list. */
    function ErrorsOrEmptyList(): (es: seq<Error>)
      ensures es == [] <==> !IsError()
      ensures IsError() ==> es == Errors()
    {
      if IsError() then errors else []
    }

    /**
     * The held value. On the error state the source yields default(TValue);
     * here the caller names that default.
     */
    function Value(defaultValue: T): (v: T)
      ensures !IsError() ==> v == value
      ensures IsError() ==> v == defaultValue
    {
      if IsError() then defaultValue else value
    }

    /** The first error; on a success, the NoFirstError sentinel. */
    function FirstError(): (e: Error)
      ensures IsError() ==> e == Errors()[0]
      ensures !IsError() ==> e == NoFirstError
    {
      if !IsError() then NoFirstError else errors[0]
    }

    // ---------------------------------------------------------------- Switch

    /** Switch(onValue, onError): the branch that runs and its argument. */
    function Switch(): (b: Branch<T, seq<Error>>)
      ensures b.OnError? <==> IsError()
      ensures IsError() ==> b == OnError(Errors())
      ensures !IsError() ==> b == OnValue(value)
    {
      if IsError() then OnError(Errors()) else OnValue(value)
    }

    /** SwitchAsync: awaiting it performs the branch Switch performs. */
    function SwitchAsync(): (t: Task<Branch<T, seq<Error>>>)
      ensures t.Await() == Switch()
    {
      if IsError() then FromResult(OnError(Errors())) else FromResult(OnValue(value))
    }

    /** SwitchFirst(onValue, onFirstError): the branch that runs and its argument. */
    function SwitchFirst(): (b: Branch<T, Error>)
      ensures b.OnError? <==> IsError()
      ensures IsError() ==> b == OnError(FirstError())
      ensures !IsError() ==> b == OnValue(value)
    {
      if IsError() then OnError(FirstError()) else OnValue(value)
    }

    /** SwitchFirstAsync: awaiting it performs the branch SwitchFirst performs. */
    function SwitchFirstAsync(): (t: Task<Branch<T, Error>>)
      ensures t.Await() == SwitchFirst()
    {
      if IsError() then FromResult(OnError(FirstError())) else FromResult(OnValue(value))
    }

    // ----------------------------------------------------------------- Match

    /** Folds the container: onError receives the whole error list. */
    function Match<R>(onValue: T -> R, onError: seq<Error> -> R): (r: R)
      ensures IsError() ==> r == onError(Errors())
      ensures !IsError() ==> r == onValue(value)
    {
      if IsError() then onError(Errors()) else onValue(value)
    }

    /** MatchAsync resolves to what Match gives with the awaited delegates. */
    function MatchAsync<R>(onValue: T -> Task<R>, onError: seq<Error> -> Task<R>): (t: Task<R>)
      ensures t.Await() == Match(x => onValue(x).Await(), es => onError(es).Await())
    {
      if IsError() then onError(Errors()) else onValue(value)
    }

    /** Folds the container: onFirstError receives only the first error. */
    function MatchFirst<R>(onValue: T -> R, onFirstError: Error -> R): (r: R)
      ensures IsError() ==> r == onFirstError(FirstError())
      ensures !IsError() ==> r == onValue(value)
    {
      if IsError() then onFirstError(FirstError()) else onValue(value)
    }

    /** MatchFirstAsync resolves to what MatchFirst gives with the awaited delegates. */
    function MatchFirstAsync<R>(onValue: T -> Task<R>, onFirstError: Error -> Task<R>): (t: Task<R>)
      ensures t.Await() == MatchFirst(x => onValue(x).Await(), e => onFirstError(e).Await())
    {
      if IsError() then onFirstError(FirstError()) else onValue(value)
    }

    // ------------------------------------------------------------------ Then

    /**
     * Then with a function returning a container: errors pass through at the
     * new type; on a success the function's container is the result itself.
     */
    function Then<U>(onValue: T -> ResultOrError<U>): (r: ResultOrError<U>)
      ensures IsError() ==> r.IsError() && r.Errors() == Errors()
      ensures !IsError() ==> r == onValue(value)
    {
      if IsError() then Errs(errors) else onValue(value)
    }

    /** Then with a function returning a plain value: the value is wrapped as a success. */
    function ThenValue<U>(onValue: T -> U): (r: ResultOrError<U>)
      ensures r.IsError() <==> IsError()
      ensures IsError() ==> r.Errors() == Errors()
      ensures !IsError() ==> r == Val(onValue(value))
    {
      if IsError() then Errs(errors) else Val(onValue(value))
    }

    /**
     * Then with an action: the container comes back unchanged, and the action
     * is invoked with the value exactly when there is one.
     */
    function ThenDo(): (run: ActionRun<T>)
      ensures run.result == this
      ensures run.actionArgument.Some? <==> !IsError()
      ensures !IsError() ==> run.actionArgument == Some(value)
    {
      if IsError() then ActionRun(Errs(errors), None) else ActionRun(this, Some(value))
    }

    /** ThenAsync with a function returning a task of a container. */
    function ThenAsync<U>(onValue: T -> Task<ResultOrError<U>>): (t: Task<ResultOrError<U>>)
      ensures t.Await() == Then(x => onValue(x).Await())
    {
      if IsError() then FromResult(Errs(errors)) else onValue(value)
    }

    /** ThenAsync with a function returning a task of a plain value. */
    function ThenValueAsync<U>(onValue: T -> Task<U>): (t: Task<ResultOrError<U>>)
      ensures t.Await() == ThenValue(x => onValue(x).Await())
    {
      if IsError() then FromResult(Errs(errors))
      else ContinueWith(onValue(value), (u: U) => Val(u))
    }

    /** ThenAsync with an asynchronous action. */
    function ThenDoAsync(): (t: Task<ActionRun<T>>)
      ensures t.Await() == ThenDo()
    {
      if IsError() then FromResult(ActionRun(Errs(errors), None))
      else FromResult(ActionRun(this, Some(value)))
    }

    // ------------------------------------------------------------------ Else

    /** Else with a function returning a value: always a success afterwards. */
    function ElseValue(onError: seq<Error> -> T): (r: ResultOrError<T>)
      ensures !r.IsError()
      ensures !IsError() ==> r == this
      ensures IsError() ==> r == Val(onError(Errors()))
    {
      if !IsError() then Val(value) else Val(onError(Errors()))
    }

    /** Else with a function returning one error: the error list becomes that single error. */
    function ElseError(onError: seq<Error> -> Error): (r: ResultOrError<T>)
      ensures r.IsError() <==> IsError()
      ensures !IsError() ==> r == this
      ensures IsError() ==> r.Errors() == [onError(Errors())]
    {
      if !IsError() then Val(value) else Errs([onError(Errors())])
    }

    /**
     * Else with a function returning an error list: the error list becomes
     * that list. The recovery must not return an empty list.
     */
    function ElseErrors(onError: seq<Error> -> seq<Error>): (r: ResultOrError<T>)
      requires IsError() ==> |onError(Errors())| > 0
      ensures r.IsError() <==> IsError()
      ensures !IsError() ==> r == this
      ensures IsError() ==> r.Errors() == onError(Errors())
    {
      if !IsError() then Val(value) else Errs(onError(Errors()))
    }

    /** Else with a literal error. */
    function ElseWithError(error: Error): (r: ResultOrError<T>)
      ensures r.IsError() <==> IsError()
      ensures !IsError() ==> r == this
      ensures IsError() ==> r.Errors() == [error] && r.FirstError() == error
    {
      if !IsError() then Val(value) else Errs([error])
    }

    /** Else with a literal value. */
    function ElseWith(onError: T): (r: ResultOrError<T>)
      ensures !r.IsError()
      ensures !IsError() ==> r == this
      ensures IsError() ==> r == Val(onError)
    {
      if !IsError() then Val(value) else Val(onError)
    }

    /** ElseAsync with a function returning a task of a value. */
    function ElseValueAsync(onError: seq<Error> -> Task<T>): (t: Task<ResultOrError<T>>)
      ensures t.Await() == ElseValue(es => onError(es).Await())
    {
      if !IsError() then FromResult(Val(value))
      else ContinueWith(onError(Errors()), (v: T) => Val(v))
    }

    /** ElseAsync with a function returning a task of one error. */
    function ElseErrorAsync(onError: seq<Error> -> Task<Error>): (t: Task<ResultOrError<T>>)
      ensures t.Await() == ElseError(es => onError(es).Await())
    {
      if !IsError() then FromResult(Val(value))
      else ContinueWith(onError(Errors()), (e: Error) => Errs([e]))
    }

    /** ElseAsync with a function returning a task of an error list, which must not be empty. */
    function ElseErrorsAsync(onError: seq<Error> -> Task<seq<Error>>): (t: Task<ResultOrError<T>>)
      requires IsError() ==> |onError(Errors()).Await()| > 0
      ensures t.Await() == ElseErrors(es => onError(es).Await())
    {
      if !IsError() then FromResult(Val(value))
      else FromResult(Errs(onError(Errors()).Await()))
    }

    /** ElseAsync with a task of an error, awaited only on the error state. */
    function ElseWithErrorAsync(error: Task<Error>): (t: Task<ResultOrError<T>>)
      ensures t.Await() == ElseWithError(error.Await())
    {
      if !IsError() then FromResult(Val(value))
      else ContinueWith(error, (e: Error) => Errs([e]))
    }

    /** ElseAsync with a task of a value, awaited only on the error state. */
    function ElseWithAsync(onError: Task<T>): (t: Task<ResultOrError<T>>)
      ensures t.Await() == ElseWith(onError.Await())
    {
      if !IsError() then FromResult(Val(value))
      else ContinueWith(onError, (v: T) => Val(v))
    }
  }

  // ------------------------------------------------------------ Construction

  /** The implicit conversion from a value. */
  function FromValue<T>(value: T): (r: ResultOrError<T>)
    ensures !r.IsError() && r.value == value
  {
    Val(value)
  }

  /** The implicit conversion from a single error. */
  function FromError<T>(error: Error): (r: ResultOrError<T>)
    ensures r.IsError()
    ensures r.Errors() == [error] && r.FirstError() == error
  {
    Errs([error])
  }

  /**
   * From(errors) and the implicit conversions from a list or an array of
   * errors. The source accepts an empty list; the model requires a
   * non-empty one.
   */
  function FromErrors<T>(errors: seq<Error>): (r: ResultOrError<T>)
    requires |errors| > 0
    ensures r.IsError()
    ensures r.Errors() == errors && r.FirstError() == errors[0]
  {
    Errs(errors)
  }
}
