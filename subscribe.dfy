/** The newsletter `POST` handler: it checks the email, checks that the
    MailerLite key and group are configured, adds the subscriber, and maps the
    provider's status to the answer. */
module Subscribe {
  import opened Wrappers
  import opened JsText
  import opened Http

  const InvalidEmailMessage := "Please provide a valid email address"
  const NotConfiguredMessage := "Subscription service " + "is not configured. Please try again later."
  const AlreadySubscribedMessage := "You are already subscribed. Thank you!"
  const SubscribedMessage := "Thank you for subscribing! Please check your email for updates soon."
  const GenericError := "Something went wrong. " + "Please try again later."
  const FailurePrefix := "Failed to subscribe: "
  const FailureFallback := "Failed to subscribe"
  const ApiUrl := "https://api.mailerlite.com/api/v2"

  /** The `email` property of the request body: absent (or `undefined`), some
      non-string JSON value, or a string. */
  datatype EmailField = Absent | NonString | Str(value: string)

  /** `!email || typeof email !== 'string' || !email.includes('@')` fails. */
  predicate AcceptableEmail(e: EmailField) {
    e.Str? && e.value != "" && '@' in e.value
  }

  /** The subscriber creation call. */
  datatype MailerLiteRequest = MailerLiteRequest(
    url: string, apiKey: string, email: string, resubscribe: bool, kind: string)

  /** An error body MailerLite sends back: JSON, with `error.message`,
      `message` ("" when absent or falsy) and its serialisation, or text
      that is not JSON. */
  datatype ErrorBody =
    | Json(errorMessage: string, message: string, serialized: string)
    | NotJson(text: string)

  /** What the subscriber call did: answered with a status and a body, or the
      fetch threw. */
  datatype ProviderAnswer = Answered(status: int, body: ErrorBody) | Unreachable

  function SubscribersUrl(groupId: string): string {
    ApiUrl + "/groups/" + groupId + "/subscribers"
  }

  /** `errorMessage` when the error body is JSON. */
  function JsonDetail(errorMessage: string, message: string, serialized: string): (r: string)
    ensures r == errorMessage || r == message || r == serialized
    ensures errorMessage != "" ==> r == errorMessage
    ensures errorMessage == "" && message != "" ==> r == message
    ensures r == "" ==> errorMessage == "" && message == "" && serialized == ""
  {
    if errorMessage != "" then errorMessage else if message != "" then message else serialized
  }

  /** The answer to a non-ok status other than 409 as the code is written: a
      body that is not JSON has been consumed by `json()`, so the `text()`
      fallback rejects and the outer handler answers with the generic error. */
  function FailureAsWritten(b: ErrorBody): (r: Response)
    ensures r.status == 500 && r.body.Failed?
    ensures b.Json? <==> OccursAt(r.body.error, FailurePrefix, 0)
  {
    match b
    case Json(e, m, j) => Response(500, Failed(FailurePrefix + JsonDetail(e, m, j)))
    case NotJson(_) =>
      assert GenericError[0] != FailurePrefix[0];
      Response(500, Failed(GenericError))
  }

  /** The same answer as intended: the provider's text, or "Failed to
      subscribe" when it is empty, behind the prefix. */
  function Failure(b: ErrorBody): (r: Response)
    ensures r.status == 500 && r.body.Failed?
    ensures OccursAt(r.body.error, FailurePrefix, 0)
    ensures b.NotJson? ==>
              r.body.error[|FailurePrefix|..] == if b.text == "" then FailureFallback else b.text
    ensures b.Json? ==>
              r.body.error[|FailurePrefix|..] == JsonDetail(b.errorMessage, b.message, b.serialized)
  {
    var detail := match b
      case Json(e, m, j) => JsonDetail(e, m, j)
      case NotJson(t) => if t == "" then FailureFallback else t;
    assert (FailurePrefix + detail)[..|FailurePrefix|] == FailurePrefix;
    assert (FailurePrefix + detail)[|FailurePrefix|..] == detail;
    Response(500, Failed(FailurePrefix + detail))
  }

  /** A provider that answers 502 with an HTML page: the code as written
      loses the provider's text and the "Failed to subscribe: " prefix. */
  lemma NonJsonFailureLosesDetail()
    ensures FailureAsWritten(NotJson("Bad Gateway")) == Response(500, Failed(GenericError))
    ensures !OccursAt(FailureAsWritten(NotJson("Bad Gateway")).body.error, FailurePrefix, 0)
    ensures Failure(NotJson("Bad Gateway")) == Response(500, Failed(FailurePrefix + "Bad Gateway"))
  {
    assert GenericError[0] != FailurePrefix[0];
  }

  /** The two answers agree on every JSON error body. */
  lemma FailureAgreesOnJson(e: string, m: string, j: string)
    ensures Failure(Json(e, m, j)) == FailureAsWritten(Json(e, m, j))
  {
  }

  /** The handler, with the answer to a failed call left as a parameter.
      `input` is None when `request.json()` fails (or the body is `null`);
      `apiKey` and `groupId` are "" when unset. */
  function Handle(input: Option<EmailField>, apiKey: string, groupId: string, answer: ProviderAnswer,
                  failure: ErrorBody -> Response): Handled<MailerLiteRequest>
  {
    match input
    case None => Handled(Response(500, Failed(GenericError)), None)
    case Some(email) =>
      if !AcceptableEmail(email) then Handled(Response(400, Failed(InvalidEmailMessage)), None)
      else if apiKey == "" || groupId == "" then Handled(Response(500, Failed(NotConfiguredMessage)), None)
      else
        var request := MailerLiteRequest(SubscribersUrl(groupId), apiKey, email.value, true, "active");
        var response := match answer
          case Unreachable => Response(500, Failed(GenericError))
          case Answered(status, body) =>
            if status == 409 then Response(200, Confirmed(AlreadySubscribedMessage))
            else if !IsOk(status) then failure(body)
            else Response(200, Confirmed(SubscribedMessage));
        Handled(response, Some(request))
  }

  /** The handler as the code is written. */
  function Post(input: Option<EmailField>, apiKey: string, groupId: string, answer: ProviderAnswer)
    : (h: Handled<MailerLiteRequest>)
    ensures input.None? ==> h == Handled(Response(500, Failed(GenericError)), None)
    ensures h.response == Response(400, Failed(InvalidEmailMessage)) <==>
              input.Some? && !AcceptableEmail(input.value)
    ensures h.response == Response(500, Failed(NotConfiguredMessage)) <==>
              input.Some? && AcceptableEmail(input.value) && (apiKey == "" || groupId == "")
    ensures h.request.Some? <==>
              input.Some? && AcceptableEmail(input.value) && apiKey != "" && groupId != ""
    ensures h.request.Some? ==>
              h.request.value == MailerLiteRequest(SubscribersUrl(groupId), apiKey, input.value.value, true, "active")
    ensures h.request.Some? ==>
              match answer
              case Unreachable => h.response == Response(500, Failed(GenericError))
              case Answered(status, body) =>
                if status == 409 then h.response == Response(200, Confirmed(AlreadySubscribedMessage))
                else if IsOk(status) then h.response == Response(200, Confirmed(SubscribedMessage))
                else match body
                  case Json(e, m, j) => h.response == Response(500, Failed(FailurePrefix + JsonDetail(e, m, j)))
                  case NotJson(_) => h.response == Response(500, Failed(GenericError))
    ensures h.response.status == 200 <==>
              h.request.Some? && answer.Answered? && (answer.status == 409 || IsOk(answer.status))
    ensures h.response.status in {200, 400, 500}
  {
    Handle(input, apiKey, groupId, answer, FailureAsWritten)
  }

  /** The handler with the corrected failure answer: every failed call is
      reported behind "Failed to subscribe: ". */
  function PostCorrected(input: Option<EmailField>, apiKey: string, groupId: string, answer: ProviderAnswer)
    : (h: Handled<MailerLiteRequest>)
    ensures input.None? ==> h == Handled(Response(500, Failed(GenericError)), None)
    ensures h.response == Response(400, Failed(InvalidEmailMessage)) <==>
              input.Some? && !AcceptableEmail(input.value)
    ensures h.response == Response(500, Failed(NotConfiguredMessage)) <==>
              input.Some? && AcceptableEmail(input.value) && (apiKey == "" || groupId == "")
    ensures h.request.Some? <==>
              input.Some? && AcceptableEmail(input.value) && apiKey != "" && groupId != ""
    ensures h.request.Some? ==>
              h.request.value == MailerLiteRequest(SubscribersUrl(groupId), apiKey, input.value.value, true, "active")
    ensures h.request.Some? ==>
              match answer
              case Unreachable => h.response == Response(500, Failed(GenericError))
              case Answered(status, body) =>
                if status == 409 then h.response == Response(200, Confirmed(AlreadySubscribedMessage))
                else if IsOk(status) then h.response == Response(200, Confirmed(SubscribedMessage))
                else h.response.status == 500 && h.response.body.Failed?
                     && OccursAt(h.response.body.error, FailurePrefix, 0)
    ensures h.response.status == 200 <==>
              h.request.Some? && answer.Answered? && (answer.status == 409 || IsOk(answer.status))
    ensures h.response.status in {200, 400, 500}
  {
    Handle(input, apiKey, groupId, answer, Failure)
  }

  /** The two handlers differ exactly when the call failed with a status other
      than 409 and an error body that is not JSON. */
  lemma PostsDifferOnTextErrors(input: Option<EmailField>, apiKey: string, groupId: string, answer: ProviderAnswer)
    ensures Post(input, apiKey, groupId, answer) != PostCorrected(input, apiKey, groupId, answer) <==>
              && Post(input, apiKey, groupId, answer).request.Some?
              && answer.Answered? && answer.status != 409 && !IsOk(answer.status) && answer.body.NotJson?
  {
    if answer.Answered? && answer.body.Json? {
      FailureAgreesOnJson(answer.body.errorMessage, answer.body.message, answer.body.serialized);
    }
  }
}
