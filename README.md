# ResultOrError in Dafny

A model of the C# library ResultOrError. The library's central type is
`ResultOrError<TValue>`, an immutable discriminated union. It holds either
one value of type `TValue` or a list of `Error`s. The library offers:

- accessors: `IsError`, `Value`, `Errors`, `ErrorsOrEmptyList`, `FirstError`;
- construction from a value, an error, an error list or an error array;
- the fluent combinators `Then` (bind, map, action), `Else` (recovery),
  `Match`/`MatchFirst` (fold) and `Switch`/`SwitchFirst` (fold for effect),
  each with an `...Async` twin;
- extension methods that apply the same combinators to a
  `Task<ResultOrError<TValue>>`;
- the `ToResultOrError` conversions and `ResultOrErrorFactory.From`.

Layout:

- `result_or_error.dfy`, module `Core`: the union as
  `datatype ResultOrError<T> = Val(value) | Errs(errors: ErrorList)`.
  `ErrorList` is the non-empty subset of `seq<Error>`. The module also holds
  the two sentinel errors, the accessors, every instance combinator and
  the constructors.
- `error.dfy`, module `ErrorModel`: `Error` as a kind (`ErrorType`), a code
  and a description.
- `task.dfy`, module `Tasks`: a .NET `Task` as a thunk with `Await()`.
  Every `...Async` member is specified by what awaiting it gives: the
  synchronous combinator applied with the delegates' results awaited.
- `then_extensions.dfy`, `else_extensions.dfy`, `switch_extensions.dfy`,
  `match_extensions.dfy`: the extensions on a task. Each one's contract is
  the law the code states directly. Awaiting the extension gives the
  instance combinator applied to the awaited container.
- `to_result_or_error_extensions.dfy`, `result_or_error_factory.dfy`: the
  conversions.
- `combinator_laws.dfy`: laws relating the combinators:
  - the bind laws of `Then`;
  - a skipped branch never consults its delegate;
  - `Match` is the branch `Switch` picks, invoked;
  - the accessors rebuild the container.
- `pipelines.dfy`: fluent chains of `Then`/`Else` steps, proved by
  induction. Awaiting a chain built from the task extensions equals running
  it synchronously. An error skips every `Then` step. A value skips every
  `Else` step. Chains compose by concatenation, so a Then part followed by
  an Else part can be read one part at a time.
- `scenarios.dfy`: the chains the library's tests build, stated for every
  input that matches them. `int.Parse` and `ToString` are parameters.
- `empty_error_list.dfy`: the error-list constructor as written (see
  Findings).

Switch and `Then(Action)` call their delegates only for the side effects.
The model gives these members no delegate parameter. `Switch` returns a
`Branch` record that says which delegate runs and with what argument.
`ThenDo` returns the container together with the argument the action
receives.

## Model

| member | source | states |
|---|---|---|
| Core.ResultOrError.IsError | src/ResultOrError.cs:22 | a success holds exactly its value; an error state holds at least one error |
| Core.ResultOrError.Errors | src/ResultOrError.cs:27 | never empty; the held list on an error, exactly `[NoErrors]` on a success |
| Core.ResultOrError.ErrorsOrEmptyList | src/ResultOrError.cs:32 | empty exactly on a success; otherwise the error list |
| Core.ResultOrError.Value | src/ResultOrError.cs:45 | the held value on a success; the caller-named default (standing for default(TValue)) on an error |
| Core.ResultOrError.FirstError | src/ResultOrError.cs:50-61 | head of the error list on an error; the `NoFirstError` sentinel on a success |
| Core.ResultOrError.Switch | src/ResultOrError.cs:120-129 | the error branch is taken exactly on an error and receives the whole list; otherwise the value branch receives the value |
| Core.ResultOrError.SwitchAsync | src/ResultOrError.cs:139-148 | awaiting it performs the branch `Switch` performs |
| Core.ResultOrError.SwitchFirst | src/ResultOrError.cs:157-166 | the error branch is taken exactly on an error and receives `FirstError`; otherwise the value branch receives the value |
| Core.ResultOrError.SwitchFirstAsync | src/ResultOrError.cs:176-185 | awaiting it performs the branch `SwitchFirst` performs |
| Core.ResultOrError.Match | src/ResultOrError.cs:196-204 | `onError(Errors)` on an error, `onValue(value)` on a success |
| Core.ResultOrError.MatchAsync | src/ResultOrError.cs:215-223 | awaiting it gives `Match` with the delegates' tasks awaited |
| Core.ResultOrError.MatchFirst | src/ResultOrError.cs:234-242 | `onFirstError(FirstError)` on an error, `onValue(value)` on a success |
| Core.ResultOrError.MatchFirstAsync | src/ResultOrError.cs:253-261 | awaiting it gives `MatchFirst` with the delegates' tasks awaited |
| Core.ResultOrError.Then | src/ResultOrError.cs:269-277 | on an error, an error with the same list at the new type; on a success, the function's container itself, with no second wrapping |
| Core.ResultOrError.ThenDo | src/ResultOrError.cs:284-294 | returns the container unchanged; the action receives the value exactly when there is one |
| Core.ResultOrError.ThenValue | src/ResultOrError.cs:302-310 | error state preserved with the same list; a success maps to a success holding `onValue(value)` |
| Core.ResultOrError.ThenAsync | src/ResultOrError.cs:318-326 | awaiting it gives `Then` with the function's task awaited |
| Core.ResultOrError.ThenDoAsync | src/ResultOrError.cs:333-343 | awaiting it gives what `ThenDo` gives |
| Core.ResultOrError.ThenValueAsync | src/ResultOrError.cs:351-359 | awaiting it gives `ThenValue` with the function's task awaited |
| Core.ResultOrError.ElseError | src/ResultOrError.cs:366-374 | a success is returned unchanged; an error's list becomes the single error the recovery returns |
| Core.ResultOrError.ElseErrors | src/ResultOrError.cs:381-389 | a success is returned unchanged; an error's list becomes the list the recovery returns (required non-empty) |
| Core.ResultOrError.ElseWithError | src/ResultOrError.cs:396-404 | a success is returned unchanged; an error becomes the single given error |
| Core.ResultOrError.ElseValue | src/ResultOrError.cs:411-419 | always a success afterwards: the same value, or the recovery's value on an error |
| Core.ResultOrError.ElseWith | src/ResultOrError.cs:426-434 | always a success afterwards: the same value, or the given value on an error |
| Core.ResultOrError.ElseValueAsync | src/ResultOrError.cs:441-449 | awaiting it gives `ElseValue` with the recovery's task awaited |
| Core.ResultOrError.ElseErrorAsync | src/ResultOrError.cs:456-464 | awaiting it gives `ElseError` with the recovery's task awaited |
| Core.ResultOrError.ElseErrorsAsync | src/ResultOrError.cs:471-479 | awaiting it gives `ElseErrors` with the recovery's task awaited |
| Core.ResultOrError.ElseWithErrorAsync | src/ResultOrError.cs:486-494 | awaiting it gives `ElseWithError` with the awaited error |
| Core.ResultOrError.ElseWithAsync | src/ResultOrError.cs:501-509 | awaiting it gives `ElseWith` with the awaited value |
| Core.FromValue | src/ResultOrError.cs:75-87 | conversion from a value: not an error, holding that value |
| Core.FromError | src/ResultOrError.cs:92-95 | conversion from one error: an error whose list is exactly that error, which is also `FirstError` |
| Core.FromErrors | src/ResultOrError.cs:100-111 | conversion from a non-empty list or array, and the static `From(List<Error>)` at lines 37-40 that returns that conversion: an error whose list is the input in order, with `FirstError` its head |
| ThenExtensions.Then | src/ResultOrError.ThenExtensions.cs:13-18 | awaiting it gives the instance `Then` on the awaited container |
| ThenExtensions.ThenValue | src/ResultOrError.ThenExtensions.cs:28-33 | awaiting it gives the instance map on the awaited container |
| ThenExtensions.ThenDo | src/ResultOrError.ThenExtensions.cs:42-47 | awaiting it gives the instance action form on the awaited container |
| ThenExtensions.ThenAsync | src/ResultOrError.ThenExtensions.cs:57-62 | awaiting it gives the instance `ThenAsync` on the awaited container, awaited |
| ThenExtensions.ThenValueAsync | src/ResultOrError.ThenExtensions.cs:72-77 | awaiting it gives the instance map `ThenAsync` on the awaited container, awaited |
| ThenExtensions.ThenDoAsync | src/ResultOrError.ThenExtensions.cs:86-91 | awaiting it gives the instance action `ThenAsync` on the awaited container, awaited |
| ElseExtensions.ElseValue | src/ResultOrError.ElseExtensions.cs:12-17 | awaiting it gives the instance value-recovery `Else` on the awaited container |
| ElseExtensions.ElseWith | src/ResultOrError.ElseExtensions.cs:26-31 | awaiting it gives the instance literal-value `Else` on the awaited container |
| ElseExtensions.ElseValueAsync | src/ResultOrError.ElseExtensions.cs:40-45 | awaiting it gives the instance value-recovery `ElseAsync`, awaited |
| ElseExtensions.ElseWithAsync | src/ResultOrError.ElseExtensions.cs:54-59 | awaiting it gives the instance task-of-value `ElseAsync`, awaited |
| ElseExtensions.ElseError | src/ResultOrError.ElseExtensions.cs:68-73 | awaiting it gives the instance error-recovery `Else` on the awaited container |
| ElseExtensions.ElseErrors | src/ResultOrError.ElseExtensions.cs:82-87 | awaiting it gives the instance list-recovery `Else` on the awaited container |
| ElseExtensions.ElseWithError | src/ResultOrError.ElseExtensions.cs:96-101 | awaiting it gives the instance literal-error `Else` on the awaited container |
| ElseExtensions.ElseErrorAsync | src/ResultOrError.ElseExtensions.cs:110-115 | awaiting it gives the instance error-recovery `ElseAsync`, awaited |
| ElseExtensions.ElseErrorsAsync | src/ResultOrError.ElseExtensions.cs:124-129 | awaiting it gives the instance list-recovery `ElseAsync`, awaited |
| ElseExtensions.ElseWithErrorAsync | src/ResultOrError.ElseExtensions.cs:138-143 | awaiting it gives the instance task-of-error `ElseAsync`, awaited |
| SwitchExtensions.Switch | src/ResultOrError.SwitchExtensions.cs:15-20 | awaiting it performs the branch `Switch` performs on the awaited container |
| SwitchExtensions.SwitchAsync | src/ResultOrError.SwitchExtensions.cs:32-37 | awaiting it gives the instance `SwitchAsync` on the awaited container, awaited |
| SwitchExtensions.SwitchFirst | src/ResultOrError.SwitchExtensions.cs:49-54 | awaiting it performs the branch `SwitchFirst` performs on the awaited container |
| SwitchExtensions.SwitchFirstAsync | src/ResultOrError.SwitchExtensions.cs:66-71 | awaiting it gives the instance `SwitchFirstAsync` on the awaited container, awaited |
| MatchExtensions.Match | tests/ResultOrError.MatchTests.cs:122-141 | awaiting it gives the instance `Match` on the awaited container |
| MatchExtensions.MatchFirst | tests/ResultOrError.MatchTests.cs:100-119 | awaiting it gives the instance `MatchFirst` on the awaited container |
| MatchExtensions.MatchAsync | tests/ResultOrError.MatchAsyncTests.cs:123-142 | awaiting it gives the instance `MatchAsync` on the awaited container, awaited |
| MatchExtensions.MatchFirstAsync | tests/ResultOrError.MatchAsyncTests.cs:100-120 | awaiting it gives the instance `MatchFirstAsync` on the awaited container, awaited |
| ToResultOrErrorExtensions.ValueToResultOrError | src/ResultOrError.ToResultOrErrorExtensions.cs:8-11 | a success holding the value, with no errors listed |
| ToResultOrErrorExtensions.ErrorToResultOrError | src/ResultOrError.ToResultOrErrorExtensions.cs:16-19 | an error holding exactly one error, which is `FirstError` |
| ToResultOrErrorExtensions.ErrorsToResultOrError | src/ResultOrError.ToResultOrErrorExtensions.cs:24-27 | an error whose list equals the (non-empty) input, in order |
| ResultOrErrorFactory.From | src/ResultOrErrorFactory.cs:14-17 | not an error; holds the value; `Errors` is one Unexpected error; `ErrorsOrEmptyList` is empty; `FirstError` is Unexpected |
| CombinatorLaws.SentinelsAreUnexpected | src/ResultOrError.cs:11-17 | `NoFirstError` and `NoErrors` are distinct Unexpected errors with the codes `ResultOrError.NoFirstError` and `ResultOrError.NoErrors` and the library's two descriptions |
| CombinatorLaws.SuccessAccessors | src/ResultOrError.cs:11-61 | on a success `Errors`, `ErrorsOrEmptyList` and `FirstError` are total and answer `[NoErrors]`, `[]` and `NoFirstError`, both sentinels Unexpected |
| CombinatorLaws.Rebuild | src/ResultOrError.cs:63-111 | the constructors rebuild any container from its accessors: `FromErrors(Errors)` on an error, `FromValue(Value)` on a success |
| CombinatorLaws.ThenLeftIdentity | src/ResultOrError.cs:269-277 | `Then` on a fresh success is the function applied to the value |
| CombinatorLaws.ThenRightIdentity | src/ResultOrError.cs:269-277 | `Then` with the value constructor is the identity |
| CombinatorLaws.ThenAssociative | src/ResultOrError.cs:269-277 | two `Then`s in a row equal one `Then` with the composed function |
| CombinatorLaws.ThenValueIsThenOfSuccess | src/ResultOrError.cs:302-310 | the map overload is the bind overload with the result wrapped as a success |
| CombinatorLaws.ThenSkipsFunctionOnError | src/ResultOrError.cs:269-310 | on an error no `Then` overload depends on its function and each returns the same errors; the action is not invoked |
| CombinatorLaws.ElseSkipsRecoveryOnValue | src/ResultOrError.cs:366-434 | on a success every `Else` overload returns the container unchanged, whatever its recovery |
| CombinatorLaws.ElseReplacesErrors | src/ResultOrError.cs:366-434 | on an error each `Else` overload gives exactly the container built from what it substitutes: the recovery's value, the singleton of the recovery's or the literal's error, the recovery's error list, or the literal value |
| CombinatorLaws.MatchRunsOneBranch | src/ResultOrError.cs:196-204 | `Match` depends only on the delegate of the state's branch |
| CombinatorLaws.MatchFirstRunsOneBranch | src/ResultOrError.cs:234-242 | `MatchFirst` depends only on the delegate of the state's branch |
| CombinatorLaws.MatchIsSwitchInvoked | src/ResultOrError.cs:196-204 | `Match` equals invoking the branch `Switch` picks |
| CombinatorLaws.MatchFirstIsSwitchFirstInvoked | src/ResultOrError.cs:234-242 | `MatchFirst` equals invoking the branch `SwitchFirst` picks |
| CombinatorLaws.MatchFirstSeesHeadOfMatch | src/ResultOrError.cs:234-242 | `MatchFirst` is `Match` whose error delegate looks only at the head of the list |
| Pipelines.StepResolves | src/ResultOrError.ElseExtensions.cs:12-143 | each of the sixteen Then/Else step kinds, taken through its task extension, resolves to the instance combinator on the awaited container |
| Pipelines.ChainResolves | src/ResultOrError.ThenExtensions.cs:13-91 | for every chain of steps, awaiting the chain built from the task extensions equals running it synchronously on the awaited input |
| Pipelines.ErrorSkipsThenSteps | src/ResultOrError.cs:269-359 | an error passes any chain of Then steps unchanged |
| Pipelines.ValueSkipsElseSteps | src/ResultOrError.cs:366-509 | a success passes any chain of Else steps unchanged |
| Pipelines.DeferredChainShortCircuits | src/ResultOrError.ThenExtensions.cs:13-91 | the two skipping laws for chains built from the task extensions |
| Pipelines.RunConcat | src/ResultOrError.cs:269-509 | a structural fact about running chains, holding whatever a step does: running one chain and then another equals running their concatenation |
| Pipelines.ThenPartThenElsePart | src/ResultOrError.cs:269-509 | in a chain of Then steps followed by Else steps, an error meets only the Else steps, and a success that survives the Then steps passes the Else steps unchanged |
| Scenarios.ThenChainFromFive | tests/ResultOrError.ThenTests.cs:8-23 | "5" parsed, doubled and shown gives the success "10" |
| Scenarios.ThenActionChainFromFive | tests/ResultOrError.ThenTests.cs:25-40 | actions around a parse leave the success 5 |
| Scenarios.ThenChainFromError | tests/ResultOrError.ThenTests.cs:42-58 | an error passes bind, map, action and bind with its first error intact |
| Scenarios.MixedChainFromFive | tests/ResultOrError.ThenTests.cs:60-78 | a chain mixing instance `ThenAsync` and task extensions from "5" gives "10" |
| Scenarios.MixedChainFromError | tests/ResultOrError.ThenTests.cs:80-94 | the mixed chain from an error keeps that error first |
| Scenarios.AsyncChainFromFive | tests/ResultOrError.ThenAsyncTests.cs:8-24 | a chain of `ThenAsync` steps from "5" gives "10" |
| Scenarios.AsyncChainFromError | tests/ResultOrError.ThenAsyncTests.cs:26-42 | the `ThenAsync` chain from an error keeps that error first |
| Scenarios.ErrorCountRecovery | tests/ResultOrError.ElseTests.cs:195-210 | a NotFound error passed through `Then` and `ThenAsync`, then recovered with its count, gives "Error count: 1" |
| Scenarios.ElseAsyncRecoveryPassesSuccess | tests/ResultOrError.ElseAsyncTests.cs:8-23 | a deferred success passes `ElseAsync` with a recovery function unchanged |
| Scenarios.ElseAsyncErrorPassesSuccess | tests/ResultOrError.ElseAsyncTests.cs:93-108 | a deferred success passes `ElseAsync` with a task of an error unchanged |
| Scenarios.ElseAsyncReplacesError | tests/ResultOrError.ElseAsyncTests.cs:76-91 | a deferred error replaced by an Unexpected error has an Unexpected `FirstError` |
| Scenarios.SwitchAfterThenAsync | tests/ResultOrError.SwitchTests.cs:81-112 | after `ThenAsync` with the identity, `Switch` and `SwitchFirst` on the task run the value branch with the value |
| Scenarios.SwitchAsyncAfterThenAsync | tests/ResultOrError.SwitchAsyncTests.cs:81-114 | after `ThenAsync` with the identity, `SwitchAsync` and `SwitchFirstAsync` run the value branch with the value |
| Scenarios.MatchAfterThenAsync | tests/ResultOrError.MatchTests.cs:100-141 | after `ThenAsync` with the identity, `Match` and `MatchFirst` on the task give `onValue(value)` |
| Scenarios.MatchAsyncAfterThenAsyncOnErrors | tests/ResultOrError.MatchAsyncTests.cs:100-142 | an error list through `ThenAsync` with the identity reaches `onError(errors)` in `MatchAsync` and `onFirstError(errors[0])` in `MatchFirstAsync` |
| EmptyErrorListFinding.FromErrorsAsWritten | src/ResultOrError.cs:69-73 | the list constructor as written sets the error flag and stores the list it is given, empty or not |
| EmptyErrorListFinding.FirstErrorAsWritten | src/ResultOrError.cs:50-61 | `FirstError` as written has no element to return exactly when the error flag is set and the list is empty |
| EmptyErrorListFinding.EmptyListLeavesNoFirstError | src/ResultOrError.cs:69-73 | the empty list gives an error state with no errors and no first error |
| EmptyErrorListFinding.CorrectedFromErrorsHasFirstError | src/ResultOrError.cs:100-111 | `Core.FromErrors` on a non-empty list always has a first error, the one the as-written accessor would return |

## Left out

- Task scheduling, `ConfigureAwait`, cancellation and exceptions. A task is a thunk, and awaiting it runs the thunk.
- Side effects of delegates, including exceptions they throw. `Switch`, `SwitchFirst` and the action overloads of `Then` return data that says which delegate runs and with what argument. They take no delegate.
- The `Error` type's own file is not part of this model. Errors have a kind, a code and a description. The default codes and descriptions of `Error.NotFound()` and the like, and error metadata, are not modelled.
- src/IResultOrError.cs declares the interface only and holds no logic.
- Reference identity and aliasing of `List<Error>`: error lists are compared as sequences.
- Core.ResultOrError.Value: default(TValue) on the error state is a parameter the caller names. Dafny has no universal default.
- Core.FromErrors: the source accepts an empty list. The model requires a non-empty one, and the as-written behaviour is under Findings.
- Core.ResultOrError.ElseErrors: the recovery must return a non-empty list on the error state. The source does not check this. The same holds for `ElseErrorsAsync` and for the `ElseErrors`/`ElseErrorsAsync` extensions.
- ToResultOrErrorExtensions.ErrorsToResultOrError: requires a non-empty list, for the same reason as `Core.FromErrors`.
- MatchExtensions: the file that defines `Match`/`MatchFirst` on a task is not part of this model. These four members follow the pattern of the Switch extensions, and their rows cite the tests that call them.
- Overloads are told apart by name (`Then`/`ThenValue`/`ThenDo`, `ElseValue`/`ElseError`/`ElseErrors`/`ElseWith`/`ElseWithError`), not by C# overload resolution. The implicit conversions are the named constructors in `Core`.
- Pipelines.Step: chains keep one value type throughout. Chains that change type are covered step by step by the combinators' own contracts.
- The tests' `int.Parse` and `ToString` are parameters of the scenario lemmas. Each lemma constrains them only at the points the chain uses.

## Findings

| source | as written | input that shows it | evidently intended | confidence | as-written member | corrected member |
|---|---|---|---|---|---|---|
| src/ResultOrError.cs:69-73 | the list constructor (reached from `From`, the list conversion and the array conversion) sets `IsError` for any list, including an empty one | an empty `List<Error>` converted to `ResultOrError<T>`: `IsError` is true, `Errors` is empty, and `FirstError` indexes element 0 of an empty list | an error state always holds at least one error, so `FirstError` is always defined | medium, not executed | EmptyErrorListFinding.EmptyListLeavesNoFirstError | Core.FromErrors |
