/**
 * The error-list constructor as written: it stores whatever list it is
 * given and sets the error flag, with no check that the list is
 * non-empty. The state below drops the non-empty invariant of
 * Core.ErrorList so that this constructor can be stated; FirstError then
 * indexes the stored list, which fails (None here) on the empty list.
 * Core.FromErrors is the corrected constructor: it demands a non-empty
 * list, and Core.ResultOrError keeps that invariant in its type.
 */
module EmptyErrorListFinding {
  import opened Options
  import opened ErrorModel
  import Core

  /** The record's fields, with no invariant tying the flag to the list. */
  datatype UncheckedState<T> = UncheckedState(isError: bool, value: Option<T>, errors: seq<Error>)

  /** The private list constructor and the implicit conversion from a list, as written. */
  function FromErrorsAsWritten<T>(errors: seq<Error>): (s: UncheckedState<T>)
    ensures s.isError && s.errors == errors && s.value.None?
  {
    UncheckedState(true, None, errors)
  }

  /** FirstError as written: the sentinel on a success, else element 0; None when that index is out of range. */
  function FirstErrorAsWritten<T>(s: UncheckedState<T>): (e: Option<Error>)
    ensures e.None? <==> s.isError && |s.errors| == 0
    ensures !s.isError ==> e == Some(Core.NoFirstError)
    ensures s.isError && |s.errors| > 0 ==> e == Some(s.errors[0])
  {
    if !s.isError then Some(Core.NoFirstError)
    else if |s.errors| == 0 then None
    else Some(s.errors[0])
  }

  /** An empty list yields an error state that reports no errors and whose FirstError has no element to return. */
  lemma EmptyListLeavesNoFirstError<T>()
    ensures var s := FromErrorsAsWritten<T>([]);
            s.isError && s.errors == [] && FirstErrorAsWritten(s) == None
  {
  }

  /** The corrected constructor: every error state it builds has a first error, the head of its list. */
  lemma CorrectedFromErrorsHasFirstError<T>(errors: seq<Error>)
    requires |errors| > 0
    ensures var r := Core.FromErrors<T>(errors);
            && r.IsError() && |r.Errors()| > 0 && r.FirstError() == errors[0]
            && FirstErrorAsWritten(FromErrorsAsWritten<T>(errors)) == Some(r.FirstError())
  {
  }
}
