/**
 * The failure description carried by the error state of a ResultOrError.
 * The library's own Error type lives outside the modelled files; only the
 * parts the combinators observe are kept: a classification, a code and a
 * description. Errors compare structurally.
 */
module ErrorModel {

  /** The classifications the error state is built from. */
  datatype ErrorType = Unexpected | Validation | Conflict | NotFound | Unauthorized

  datatype Error = Error(kind: ErrorType, code: string, description: string)
}
