/**
 * The Go `error` values that flow through the core, plus the Option and Result
 * wrappers used for Go's `(value, error)` returns.
 */
module Errors {
  import opened ErrWrap

  datatype Option<+T> = None | Some(value: T)

  /** A Go `(value, error)` pair where exactly one side is set. */
  datatype Result<+T> = Ok(value: T) | Err(error: Error)

  /** The text of the driver's `mongo.ErrNoDocuments`. */
  const NoDocumentsText := "mongo: no documents in result"

  /**
   * A Go `error`.  Only `Typed` values implement `errwrap.IError`; the others are
   * the driver's errors and plain `errors.New`/`fmt.Errorf` values.
   */
  datatype Error =
    | Typed(typed: TypedError)     // an errwrap.IError
    | DuplicateKey(text: string)   // a write error for which mongo.IsDuplicateKeyError holds
    | NoDocuments                  // mongo.ErrNoDocuments
    | Plain(text: string)          // any other error
  {
    /** `err.Error()`. */
    function ErrorText(): string
    {
      match this
      case Typed(t) => t.Error()
      case DuplicateKey(s) => s
      case NoDocuments => NoDocumentsText
      case Plain(s) => s
    }
  }
}
