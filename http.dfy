/** The JSON envelope both route handlers answer with, and the record of what
    a handler sent to a third-party provider. */
module Http {
  import opened Wrappers

  /** `{ success: true, message }` or `{ error }`. */
  datatype Body = Confirmed(message: string) | Failed(error: string)

  datatype Response = Response(status: int, body: Body)

  /** The response a handler returns, with the one outbound provider request
      it made (None when it answered without calling out). */
  datatype Handled<R> = Handled(response: Response, request: Option<R>)

  /** `response.ok`: a status in the 2xx range. */
  predicate IsOk(status: int) {
    200 <= status <= 299
  }
}
