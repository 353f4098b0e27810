/**
  The response helpers of the API layer (app/api/utils.ts) and the shapes
  the hooks see of a remote call. A response's `data` is present exactly
  when it is truthy, `error` is "" when absent; every payload here is an
  object or an array, and both are truthy in JavaScript even when empty.
*/
module ApiUtils {
  import opened Wrappers
  import BoardTypes

  /** ApiResponse: the success flag, the data if truthy, the error message ("" when absent). */
  datatype ApiResponse<T> = ApiResponse(success: bool, data: Option<T>, error: string)

  /** A remote call as a hook's `try` sees it: a response, or an exception. */
  datatype Call<T> = Returned(response: ApiResponse<T>) | Threw

  /** What the helpers return: the success callback's result, or `{ success: false, error }`. */
  datatype Handled<R> = Passed(result: R) | Failure(error: string)

  /** The value a `catch` receives: an Error with its message, or anything else. */
  datatype Thrown = ErrorObject(message: string) | OtherValue

  const OperationFailed := "Operation failed"
  const UnexpectedFailure := "An unexpected error occurred"

  /** handleApiResponse: the callback on the data exactly when the call succeeded with data; otherwise the response's error or the given message. */
  function HandleApiResponse<T, R>(response: ApiResponse<T>, successCallback: T -> R, errorMessage: string := OperationFailed): (r: Handled<R>)
    ensures r.Passed? <==> response.success && response.data.Some?
    ensures r.Passed? ==> r.result == successCallback(response.data.value)
    ensures r.Failure? ==> r.error == BoardTypes.OrElse(response.error, errorMessage)
  {
    if response.success && response.data.Some? then Passed(successCallback(response.data.value))
    else Failure(BoardTypes.OrElse(response.error, errorMessage))
  }

  /**
    A response without data fails whatever its success flag, with its own
    error text when it has one and the caller's message when it has none.
  */
  lemma SuccessWithoutDataFails<T, R>(response: ApiResponse<T>, successCallback: T -> R, errorMessage: string)
    requires response.data.None?
    ensures HandleApiResponse(response, successCallback, errorMessage)
      == Failure(if response.error == "" then errorMessage else response.error)
  {
  }

  /** handleApiError: always a failure, with the Error's message or the default. */
  function HandleApiError<R>(error: Thrown, defaultMessage: string := UnexpectedFailure): (r: Handled<R>)
    ensures r.Failure?
    ensures error.ErrorObject? ==> r.error == error.message
    ensures error.OtherValue? ==> r.error == defaultMessage
  {
    Failure(if error.ErrorObject? then error.message else defaultMessage)
  }
}
