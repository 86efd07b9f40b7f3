/**
 * Chains of combinators over one value type, as callers compose them.
 * A chain is run in two ways:
 *   - Run: on a resolved container, every step through the synchronous
 *     instance combinator (a deferred delegate is awaited in place);
 *   - RunDeferred: on a task, every step through the task extensions
 *     (for a deferred delegate, the ...Async extension).
 * The main law is that awaiting the deferred run gives the synchronous run
 * of the awaited input, for every chain; the others say that an error
 * skips every Then step and a value skips every Else step.
 */
module Pipelines {
  import opened ErrorModel
  import opened Core
  import opened Tasks
  import ThenExtensions
  import ElseExtensions

  /** One combinator with its delegate or literal; the ...Async forms take deferred ones. */
  datatype Step<!T> =
    | Bind(T -> ResultOrError<T>)
    | BindAsync(T -> Task<ResultOrError<T>>)
    | Map(T -> T)
    | MapAsync(T -> Task<T>)
    | Do
    | DoAsync
    | RecoverValue(seq<Error> -> T)
    | RecoverValueAsync(seq<Error> -> Task<T>)
    | RecoverError(seq<Error> -> Error)
    | RecoverErrorAsync(seq<Error> -> Task<Error>)
    | RecoverErrors(seq<Error> -> ErrorList)
    | RecoverErrorsAsync(seq<Error> -> Task<ErrorList>)
    | OrValue(T)
    | OrValueAsync(Task<T>)
    | OrError(Error)
    | OrErrorAsync(Task<Error>)

  /** The steps built on Then. */
  predicate IsThenStep<T>(s: Step<T>) {
    s.Bind? || s.BindAsync? || s.Map? || s.MapAsync? || s.Do? || s.DoAsync?
  }

  /** The steps built on Else. */
  predicate IsElseStep<T>(s: Step<T>) {
    !IsThenStep(s)
  }

  /** One step on a resolved container, with deferred delegates awaited. */
  function Apply<T>(r: ResultOrError<T>, s: Step<T>): ResultOrError<T> {
    match s
    case Bind(f) => r.Then(f)
    case BindAsync(f) => r.Then(x => f(x).Await())
    case Map(f) => r.ThenValue(f)
    case MapAsync(f) => r.ThenValue(x => f(x).Await())
    case Do => r.ThenDo().result
    case DoAsync => r.ThenDo().result
    case RecoverValue(h) => r.ElseValue(h)
    case RecoverValueAsync(h) => r.ElseValue(es => h(es).Await())
    case RecoverError(h) => r.ElseError(h)
    case RecoverErrorAsync(h) => r.ElseError(es => h(es).Await())
    case RecoverErrors(h) => r.ElseErrors((es: seq<Error>) => h(es))
    case RecoverErrorsAsync(h) => r.ElseErrors((es: seq<Error>) => h(es).Await())
    case OrValue(v) => r.ElseWith(v)
    case OrValueAsync(v) => r.ElseWith(v.Await())
    case OrError(e) => r.ElseWithError(e)
    case OrErrorAsync(e) => r.ElseWithError(e.Await())
  }

  /** One step on a task, through the task extensions. */
  function ApplyDeferred<T>(t: Task<ResultOrError<T>>, s: Step<T>): Task<ResultOrError<T>> {
    match s
    case Bind(f) => ThenExtensions.Then(t, f)
    case BindAsync(f) => ThenExtensions.ThenAsync(t, f)
    case Map(f) => ThenExtensions.ThenValue(t, f)
    case MapAsync(f) => ThenExtensions.ThenValueAsync(t, f)
    case Do => ContinueWith(ThenExtensions.ThenDo(t), (run: ActionRun<T>) => run.result)
    case DoAsync => ContinueWith(ThenExtensions.ThenDoAsync(t), (run: ActionRun<T>) => run.result)
    case RecoverValue(h) => ElseExtensions.ElseValue(t, h)
    case RecoverValueAsync(h) => ElseExtensions.ElseValueAsync(t, h)
    case RecoverError(h) => ElseExtensions.ElseError(t, h)
    case RecoverErrorAsync(h) => ElseExtensions.ElseErrorAsync(t, h)
    case RecoverErrors(h) => ElseExtensions.ElseErrors(t, (es: seq<Error>) => h(es))
    case RecoverErrorsAsync(h) =>
      assert t.Await().IsError() ==> |h(t.Await().Errors()).Await()| > 0;
      ElseExtensions.ElseErrorsAsync(t, (es: seq<Error>) => FromResult<seq<Error>>(h(es).Await()))
    case OrValue(v) => ElseExtensions.ElseWith(t, v)
    case OrValueAsync(v) => ElseExtensions.ElseWithAsync(t, v)
    case OrError(e) => ElseExtensions.ElseWithError(t, e)
    case OrErrorAsync(e) => ElseExtensions.ElseWithErrorAsync(t, e)
  }

  function Run<T>(r: ResultOrError<T>, steps: seq<Step<T>>): ResultOrError<T>
    decreases |steps|
  {
    if steps == [] then r else Run(Apply(r, steps[0]), steps[1..])
  }

  function RunDeferred<T>(t: Task<ResultOrError<T>>, steps: seq<Step<T>>): Task<ResultOrError<T>>
    decreases |steps|
  {
    if steps == [] then t else RunDeferred(ApplyDeferred(t, steps[0]), steps[1..])
  }

  /** A single deferred step resolves to the synchronous step on the resolved input. */
  lemma StepResolves<T>(t: Task<ResultOrError<T>>, s: Step<T>)
    ensures ApplyDeferred(t, s).Await() == Apply(t.Await(), s)
  {
    match s
    case Bind(f) =>
    case BindAsync(f) =>
    case Map(f) =>
    case MapAsync(f) =>
    case Do =>
    case DoAsync =>
    case RecoverValue(h) =>
    case RecoverValueAsync(h) =>
    case RecoverError(h) =>
    case RecoverErrorAsync(h) =>
    case RecoverErrors(h) =>
    case RecoverErrorsAsync(h) =>
    case OrValue(v) =>
    case OrValueAsync(v) =>
    case OrError(e) =>
    case OrErrorAsync(e) =>
  }

  /** Deferred/synchronous equivalence: every chain resolves to its synchronous run. */
  lemma {:induction false} ChainResolves<T>(t: Task<ResultOrError<T>>, steps: seq<Step<T>>)
    ensures RunDeferred(t, steps).Await() == Run(t.Await(), steps)
    decreases |steps|
  {
    if steps != [] {
      StepResolves(t, steps[0]);
      ChainResolves(ApplyDeferred(t, steps[0]), steps[1..]);
    }
  }

  /** Short-circuit: an error passes every Then step unchanged. */
  lemma {:induction false} ErrorSkipsThenSteps<T>(r: ResultOrError<T>, steps: seq<Step<T>>)
    requires r.IsError()
    requires forall i :: 0 <= i < |steps| ==> IsThenStep(steps[i])
    ensures Run(r, steps) == r
    decreases |steps|
  {
    if steps != [] {
      assert Apply(r, steps[0]) == r;
      ErrorSkipsThenSteps(r, steps[1..]);
    }
  }

  /** Pass-through: a value passes every Else step unchanged. */
  lemma {:induction false} ValueSkipsElseSteps<T>(r: ResultOrError<T>, steps: seq<Step<T>>)
    requires !r.IsError()
    requires forall i :: 0 <= i < |steps| ==> IsElseStep(steps[i])
    ensures Run(r, steps) == r
    decreases |steps|
  {
    if steps != [] {
      assert Apply(r, steps[0]) == r;
      ValueSkipsElseSteps(r, steps[1..]);
    }
  }

  /** The same two laws for a deferred chain, whose input resolves to `r`. */
  lemma DeferredChainShortCircuits<T>(t: Task<ResultOrError<T>>, steps: seq<Step<T>>)
    ensures t.Await().IsError() && (forall i :: 0 <= i < |steps| ==> IsThenStep(steps[i]))
            ==> RunDeferred(t, steps).Await() == t.Await()
    ensures !t.Await().IsError() && (forall i :: 0 <= i < |steps| ==> IsElseStep(steps[i]))
            ==> RunDeferred(t, steps).Await() == t.Await()
  {
    ChainResolves(t, steps);
    if t.Await().IsError() && (forall i :: 0 <= i < |steps| ==> IsThenStep(steps[i])) {
      ErrorSkipsThenSteps(t.Await(), steps);
    }
    if !t.Await().IsError() && (forall i :: 0 <= i < |steps| ==> IsElseStep(steps[i])) {
      ValueSkipsElseSteps(t.Await(), steps);
    }
  }

  /** Running two chains one after the other is running their concatenation. */
  lemma {:induction false} RunConcat<T>(r: ResultOrError<T>, first: seq<Step<T>>, second: seq<Step<T>>)
    ensures Run(Run(r, first), second) == Run(r, first + second)
    decreases |first|
  {
    if first != [] {
      assert (first + second)[0] == first[0];
      assert (first + second)[1..] == first[1..] + second;
      RunConcat(Apply(r, first[0]), first[1..], second);
    } else {
      assert first + second == second;
    }
  }

  /**
   * A chain split into a Then part and an Else part: an error skips the Then
   * part and meets only the Else part; a success passes the Else part and
   * ends where the Then part left it, provided that is still a success.
   */
  lemma ThenPartThenElsePart<T>(r: ResultOrError<T>, thenPart: seq<Step<T>>, elsePart: seq<Step<T>>)
    requires forall i :: 0 <= i < |thenPart| ==> IsThenStep(thenPart[i])
    requires forall i :: 0 <= i < |elsePart| ==> IsElseStep(elsePart[i])
    ensures r.IsError() ==> Run(r, thenPart + elsePart) == Run(r, elsePart)
    ensures !Run(r, thenPart).IsError() ==> Run(r, thenPart + elsePart) == Run(r, thenPart)
  {
    RunConcat(r, thenPart, elsePart);
    if r.IsError() {
      ErrorSkipsThenSteps(r, thenPart);
    }
    if !Run(r, thenPart).IsError() {
      ValueSkipsElseSteps(Run(r, thenPart), elsePart);
    }
  }
}
