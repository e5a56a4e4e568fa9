/**
 * The errors of the Cacophony API client library (go-api error.go): an
 * API error carries whether it is permanent; any other error counts as
 * permanent, and no error at all is not.
 */
module GoApiError {
  import opened Wrappers

  /** An `error` value: the library's own `*Error`, or any other error. */
  datatype GoError = ApiError(message: string, permanent: bool) | OtherError(message: string)
  {
    /** `Error()`: the message. */
    function Text(): string { message }
  }

  /** `IsPermanentError`: no error is not permanent; an API error is as
      permanent as it says; every other error is permanent. */
  function IsPermanentError(err: Option<GoError>): (r: bool)
    ensures err.None? ==> !r
    ensures err.Some? && err.value.ApiError? ==> (r <==> err.value.permanent)
    ensures err.Some? && err.value.OtherError? ==> r
  {
    match err
    case None => false
    case Some(ApiError(_, permanent)) => permanent
    case Some(OtherError(_)) => true
  }

  /** `temporaryError`: the same message, marked as not permanent. */
  function TemporaryError(err: GoError): (r: GoError)
    ensures r.ApiError? && r.Text() == err.Text()
  {
    ApiError(err.Text(), false)
  }

  /** Wrapping any error with `temporaryError` makes it retryable, keeping
      its message, while the unwrapped error of any other kind is
      permanent. */
  lemma TemporaryIsRetryable(err: GoError)
    ensures !IsPermanentError(Some(TemporaryError(err)))
    ensures TemporaryError(err).Text() == err.Text()
    ensures err.OtherError? ==> IsPermanentError(Some(err))
  {
  }
}
