/** What the two client forms share: the status a form shows and what a
    `fetch` to one of the API routes came back with. */
module FormStatus {
  /** `'idle' | 'loading' | 'success' | 'error'` */
  datatype Status = Idle | Loading | Success | Error

  /** The outcome of `fetch` followed by `response.json()`: the response's
      `ok` flag with the `message` and `error` properties of its body ("" when
      absent), or an exception from either call. */
  datatype FetchOutcome = Answered(ok: bool, message: string, error: string) | Threw

  const RetryMessage := "Something went wrong. Please try again."
  const RetryLaterMessage := "Something went wrong. Please try again later."

  /** `a || b` on strings. */
  function OrElse(a: string, b: string): (r: string)
    ensures a != "" ==> r == a
    ensures a == "" ==> r == b
  {
    if a != "" then a else b
  }
}
