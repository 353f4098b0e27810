/**
  What the hooks see of a remote call, and what they report back.

  The task context (app/hooks/useTasks.ts) turns each response into exactly
  one of its two callbacks: the success callback with the response data when
  `success` holds and the data is truthy, otherwise the error callback with
  the response's error or a fixed fallback (a thrown exception gives another
  fixed message). The model takes that choice as the `Outcome` of the call.
*/
module Outcomes {
  /** Which callback the call ended in, with its argument. */
  datatype Outcome<T> = Succeeded(data: T) | Failed(error: string)

  /** The notification a hook raises through its `onSuccess` / `onError` props. */
  datatype Notice = NoNotice | SuccessNotice(message: string) | ErrorNotice(message: string)
}
