/**
 * The chains the library's tests build, stated for every input that
 * matches them. The tests convert between strings and integers with
 * int.Parse and ToString; here those are parameters `parse` and `show`,
 * constrained only at the points the chains use.
 */
module Scenarios {
  import opened ErrorModel
  import opened Core
  import opened Tasks
  import ThenExtensions
  import ElseExtensions
  import SwitchExtensions
  import MatchExtensions

  /** "5" parsed, doubled and shown again gives "10". */
  lemma ThenChainFromFive(parse: string -> int, show: int -> string)
    requires parse("5") == 5 && show(10) == "10"
    ensures FromValue("5").Then(s => FromValue(parse(s)))
                          .ThenValue(n => n * 2)
                          .Then(n => FromValue(show(n))) == FromValue("10")
  {
  }

  /** Actions between the steps leave the container as it is. */
  lemma ThenActionChainFromFive(parse: string -> int)
    requires parse("5") == 5
    ensures FromValue("5").ThenDo().result.Then(s => FromValue(parse(s))).ThenDo().result == FromValue(5)
  {
  }

  /** An error passes the same chain with its first error intact. */
  lemma ThenChainFromError(parse: string -> int, show: int -> string, e: Error)
    ensures var r := FromError<string>(e).Then(s => FromValue(parse(s)))
                                         .ThenValue(n => n * 2)
                                         .ThenDo().result
                                         .Then(n => FromValue(show(n)));
            r.IsError() && r.FirstError() == e
  {
  }

  /** A chain mixing the instance ThenAsync with the task extensions gives "10". */
  lemma MixedChainFromFive(parse: string -> int, show: int -> string)
    requires parse("5") == 5 && parse("10") == 10 && show(10) == "10"
    ensures
      var t1 := FromValue("5").ThenAsync(s => FromResult(FromValue(parse(s))));
      var t2 := ThenExtensions.ThenValue(t1, n => n * 2);
      var t3 := ThenExtensions.ThenAsync(t2, n => FromResult(FromValue(show(n))));
      var t4 := ThenExtensions.Then(t3, s => FromValue(parse(s)));
      var t5 := ThenExtensions.ThenAsync(t4, n => FromResult(FromValue(show(n))));
      ThenExtensions.ThenDo(t5).Await().result == FromValue("10")
  {
  }

  /** The same kind of chain started from an error keeps that error first. */
  lemma MixedChainFromError(parse: string -> int, show: int -> string, e: Error)
    ensures
      var t1 := FromError<string>(e).ThenAsync(s => FromResult(FromValue(parse(s))));
      var r := ThenExtensions.Then(t1, n => FromValue(show(n))).Await();
      r.IsError() && r.FirstError() == e
  {
  }

  /** A chain of ThenAsync steps only (bind, map, action, bind) gives "10". */
  lemma AsyncChainFromFive(parse: string -> int, show: int -> string)
    requires parse("5") == 5 && show(10) == "10"
    ensures
      var t1 := FromValue("5").ThenAsync(s => FromResult(FromValue(parse(s))));
      var t2 := ThenExtensions.ThenValueAsync(t1, n => FromResult(n * 2));
      var t3 := ContinueWith(ThenExtensions.ThenDoAsync(t2), (run: ActionRun<int>) => run.result);
      ThenExtensions.ThenAsync(t3, n => FromResult(FromValue(show(n)))).Await() == FromValue("10")
  {
  }

  /** The same ThenAsync chain started from an error keeps that error first. */
  lemma AsyncChainFromError(parse: string -> int, show: int -> string, e: Error)
    ensures
      var t1 := FromError<string>(e).ThenAsync(s => FromResult(FromValue(parse(s))));
      var t2 := ThenExtensions.ThenValueAsync(t1, n => FromResult(n * 2));
      var t3 := ContinueWith(ThenExtensions.ThenDoAsync(t2), (run: ActionRun<int>) => run.result);
      var r := ThenExtensions.ThenAsync(t3, n => FromResult(FromValue(show(n)))).Await();
      r.IsError() && r.FirstError() == e
  {
  }

  /** A NotFound error recovered with the error count gives "Error count: 1". */
  lemma ErrorCountRecovery(parse: string -> int, show: int -> string, e: Error)
    requires e.kind == NotFound && show(1) == "1"
    ensures
      var t := FromError<string>(e).Then(s => FromValue(parse(s)))
                                   .ThenAsync(n => FromResult(FromValue(show(n))));
      ElseExtensions.ElseValue(t, es => "Error count: " + show(|es|)).Await() == FromValue("Error count: 1")
  {
    var t := FromError<string>(e).Then(s => FromValue(parse(s)))
                                 .ThenAsync(n => FromResult(FromValue(show(n))));
    assert t.Await().Errors() == [e];
    assert "Error count: " + show(1) == "Error count: 1";
    assert t.Await().ElseValue(es => "Error count: " + show(|es|)) == FromValue("Error count: 1");
  }

  /** A success from a deferred chain passes ElseAsync with a recovery function, keeping its value. */
  lemma ElseAsyncRecoveryPassesSuccess(parse: string -> int, show: int -> string, recover: seq<Error> -> Task<string>)
    requires parse("5") == 5 && show(5) == "5"
    ensures
      var t1 := FromValue("5").ThenAsync(s => FromResult(FromValue(parse(s))));
      var t2 := ThenExtensions.ThenAsync(t1, n => FromResult(FromValue(show(n))));
      ElseExtensions.ElseValueAsync(t2, recover).Await() == FromValue("5")
  {
  }

  /** A success from a deferred chain passes ElseAsync with a task of an error, keeping its value. */
  lemma ElseAsyncErrorPassesSuccess(parse: string -> int, show: int -> string, u: Task<Error>)
    requires parse("5") == 5 && show(5) == "5"
    ensures
      var t1 := FromValue("5").ThenAsync(s => FromResult(FromValue(parse(s))));
      var t2 := ThenExtensions.ThenAsync(t1, n => FromResult(FromValue(show(n))));
      ElseExtensions.ElseWithErrorAsync(t2, u).Await() == FromValue("5")
  {
  }

  /** An error from a deferred chain, replaced by an Unexpected error, stays an Unexpected error. */
  lemma ElseAsyncReplacesError(parse: string -> int, show: int -> string, e: Error, u: Error)
    requires u.kind == Unexpected
    ensures
      var t1 := FromError<string>(e).ThenAsync(s => FromResult(FromValue(parse(s))));
      var t2 := ThenExtensions.ThenAsync(t1, n => FromResult(FromValue(show(n))));
      var r := ElseExtensions.ElseWithErrorAsync(t2, FromResult(u)).Await();
      r.IsError() && r.FirstError().kind == Unexpected
  {
  }

  /** After ThenAsync with the identity, Switch and SwitchFirst on the task run only the value branch. */
  lemma SwitchAfterThenAsync<T>(value: T)
    ensures
      var t := FromValue(value).ThenValueAsync(x => FromResult(x));
      && SwitchExtensions.Switch(t).Await() == OnValue(value)
      && SwitchExtensions.SwitchFirst(t).Await() == OnValue(value)
  {
  }

  /** After ThenAsync with the identity, SwitchAsync and SwitchFirstAsync on the task run only the value branch. */
  lemma SwitchAsyncAfterThenAsync<T>(value: T)
    ensures
      var t := FromValue(value).ThenValueAsync(x => FromResult(x));
      && SwitchExtensions.SwitchAsync(t).Await() == OnValue(value)
      && SwitchExtensions.SwitchFirstAsync(t).Await() == OnValue(value)
  {
  }

  /** After ThenAsync with the identity, Match and MatchFirst on the task give the value branch. */
  lemma MatchAfterThenAsync<T, R>(value: T, onValue: T -> R, onError: seq<Error> -> R, onFirstError: Error -> R)
    ensures
      var t := FromValue(value).ThenValueAsync(x => FromResult(x));
      && MatchExtensions.Match(t, onValue, onError).Await() == onValue(value)
      && MatchExtensions.MatchFirst(t, onValue, onFirstError).Await() == onValue(value)
  {
  }

  /** An error list carried through ThenAsync with the identity reaches the error branch of MatchAsync and MatchFirstAsync. */
  lemma MatchAsyncAfterThenAsyncOnErrors<T, R>(errors: seq<Error>, onValue: T -> Task<R>,
                                               onError: seq<Error> -> Task<R>, onFirstError: Error -> Task<R>)
    requires |errors| > 0
    ensures
      var t := FromErrors<T>(errors).ThenValueAsync(x => FromResult(x));
      && MatchExtensions.MatchAsync(t, onValue, onError).Await() == onError(errors).Await()
      && MatchExtensions.MatchFirstAsync(t, onValue, onFirstError).Await() == onFirstError(errors[0]).Await()
  {
  }
}
