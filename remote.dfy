/** Values exchanged with code outside the model: optional values, the answer of a
    remote call (the HTTP layer, a repository), and the toasts the front end pops up. */
module Remote {

  datatype Option<+T> = None | Some(value: T)

  /** What an awaited request yields: its payload, or the rejection with the
      server's error message ("" when the response carried none). */
  datatype Remote<+T> = Success(payload: T) | Failure(message: string)

  /** A notification shown by the front end (`toast.success` / `toast.error`). */
  datatype Toast = ToastSuccess(text: string) | ToastError(text: string)

  /** JavaScript's `text || fallback` on a string that may be absent: an absent
      or empty text falls back (`error.response?.data?.message || "..."`). */
  function OrElse(message: string, fallback: string): string
  {
    if message != "" then message else fallback
  }

  /** The toast every `catch` block of the front end emits for a failed request. */
  function FailureToast<T>(r: Remote<T>, fallback: string): Toast
    requires r.Failure?
  {
    ToastError(OrElse(r.message, fallback))
  }
}
