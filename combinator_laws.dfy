/**
 * Laws that relate the combinators of Core to each other: what the
 * accessors answer on each state, the bind laws of Then, and the fact
 * that a combinator never consults the delegate of the branch it skips.
 */
module CombinatorLaws {
  import opened ErrorModel
  import opened Core

  /** On a success the error accessors answer with the Unexpected sentinels and never fail. */
  lemma SuccessAccessors<T>(r: ResultOrError<T>)
    requires !r.IsError()
    ensures r.Errors() == [NoErrors] && NoErrors.kind == Unexpected
    ensures r.ErrorsOrEmptyList() == []
    ensures r.FirstError() == NoFirstError && NoFirstError.kind == Unexpected
  {
  }

  /** The two sentinels: distinct Unexpected errors with the library's codes and descriptions. */
  lemma SentinelsAreUnexpected()
    ensures NoFirstError.kind == Unexpected && NoErrors.kind == Unexpected
    ensures NoFirstError.code == "ResultOrError.NoFirstError" && NoErrors.code == "ResultOrError.NoErrors"
    ensures NoFirstError.description == "First error cannot be retrieved from a successful ResultOrError."
    ensures NoErrors.description == "Error list cannot be retrieved from a successful ResultOrError."
    ensures NoFirstError != NoErrors
  {
  }

  /** A container is rebuilt from what its accessors report for its state. */
  lemma Rebuild<T>(r: ResultOrError<T>, defaultValue: T)
    ensures r.IsError() ==> FromErrors(r.Errors()) == r
    ensures !r.IsError() ==> FromValue(r.Value(defaultValue)) == r
  {
  }

  // ------------------------------------------------------------------ Then

  /** Then on a fresh success is the function applied to the value: no double wrapping. */
  lemma ThenLeftIdentity<T, U>(value: T, onValue: T -> ResultOrError<U>)
    ensures FromValue(value).Then(onValue) == onValue(value)
  {
  }

  /** Binding the value constructor changes nothing. */
  lemma ThenRightIdentity<T>(r: ResultOrError<T>)
    ensures r.Then(x => FromValue(x)) == r
  {
  }

  /** Two Thens in a row are one Then with the composed function. */
  lemma ThenAssociative<T, U, V>(r: ResultOrError<T>, f: T -> ResultOrError<U>, g: U -> ResultOrError<V>)
    ensures r.Then(f).Then(g) == r.Then(x => f(x).Then(g))
  {
  }

  /** Then with a plain-value function is Then with the function wrapped as a success. */
  lemma ThenValueIsThenOfSuccess<T, U>(r: ResultOrError<T>, onValue: T -> U)
    ensures r.ThenValue(onValue) == r.Then(x => FromValue(onValue(x)))
  {
  }

  /** On the error state no overload of Then consults its function. */
  lemma ThenSkipsFunctionOnError<T, U>(r: ResultOrError<T>, f: T -> ResultOrError<U>, g: T -> ResultOrError<U>,
                                       f': T -> U, g': T -> U)
    requires r.IsError()
    ensures r.Then(f) == r.Then(g) == FromErrors(r.Errors())
    ensures r.ThenValue(f') == r.ThenValue(g') == FromErrors(r.Errors())
    ensures r.ThenDo().actionArgument.None?
  {
  }

  // ------------------------------------------------------------------ Else

  /** On a success no overload of Else consults its recovery: the value passes through. */
  lemma ElseSkipsRecoveryOnValue<T>(r: ResultOrError<T>, h: seq<Error> -> T, he: seq<Error> -> Error,
                                    hs: seq<Error> -> seq<Error>, error: Error, other: T)
    requires !r.IsError()
    ensures r.ElseValue(h) == r.ElseError(he) == r.ElseErrors(hs) == r
    ensures r.ElseWithError(error) == r.ElseWith(other) == r
  {
  }

  /** On an error every overload of Else substitutes what its recovery or literal gives. */
  lemma ElseReplacesErrors<T>(r: ResultOrError<T>, h: seq<Error> -> T, he: seq<Error> -> Error,
                              hs: seq<Error> -> seq<Error>, error: Error, other: T)
    requires r.IsError()
    requires |hs(r.Errors())| > 0
    ensures r.ElseValue(h) == FromValue(h(r.Errors()))
    ensures r.ElseError(he) == FromError(he(r.Errors()))
    ensures r.ElseErrors(hs) == FromErrors(hs(r.Errors()))
    ensures r.ElseWithError(error) == FromError(error)
    ensures r.ElseWith(other) == FromValue(other)
  {
  }

  // --------------------------------------------------------- Match, Switch

  /** Match consults only the delegate of the state's branch. */
  lemma MatchRunsOneBranch<T, R>(r: ResultOrError<T>, f: T -> R, f': T -> R,
                                 g: seq<Error> -> R, g': seq<Error> -> R)
    ensures r.IsError() ==> r.Match(f, g) == r.Match(f', g)
    ensures !r.IsError() ==> r.Match(f, g) == r.Match(f, g')
  {
  }

  /** MatchFirst consults only the delegate of the state's branch. */
  lemma MatchFirstRunsOneBranch<T, R>(r: ResultOrError<T>, f: T -> R, f': T -> R,
                                      g: Error -> R, g': Error -> R)
    ensures r.IsError() ==> r.MatchFirst(f, g) == r.MatchFirst(f', g)
    ensures !r.IsError() ==> r.MatchFirst(f, g) == r.MatchFirst(f, g')
  {
  }

  /** Match and Switch pick the same branch and hand it the same argument. */
  lemma MatchIsSwitchInvoked<T, R>(r: ResultOrError<T>, onValue: T -> R, onError: seq<Error> -> R)
    ensures r.Match(onValue, onError) == r.Switch().Invoke(onValue, onError)
  {
  }

  /** MatchFirst and SwitchFirst pick the same branch and hand it the same argument. */
  lemma MatchFirstIsSwitchFirstInvoked<T, R>(r: ResultOrError<T>, onValue: T -> R, onFirstError: Error -> R)
    ensures r.MatchFirst(onValue, onFirstError) == r.SwitchFirst().Invoke(onValue, onFirstError)
  {
  }

  /** MatchFirst sees the head of the list that Match sees. */
  lemma MatchFirstSeesHeadOfMatch<T, R>(r: ResultOrError<T>, onValue: T -> R, onFirstError: Error -> R)
    ensures r.MatchFirst(onValue, onFirstError) == r.Match(onValue, es => if |es| > 0 then onFirstError(es[0]) else onFirstError(NoFirstError))
  {
  }
}
