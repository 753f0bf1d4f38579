/** The newsletter sign-up form on the home page. */
module NewsletterForm {
  import opened Wrappers
  import opened FormStatus

  const InvalidEmailMessage := "Please enter a valid email address"
  const SubscribedMessage := "Thank you for subscribing!"

  /** `!email || !email.includes('@')` */
  predicate Rejects(email: string) {
    email == "" || '@' !in email
  }

  class SignUpForm {
    var email: string
    var status: Status
    var message: string

    constructor()
      ensures email == "" && status == Idle && message == ""
    {
      email := "";
      status := Idle;
      message := "";
    }

    /** The input's `onChange`. */
    method SetEmail(value: string)
      modifies this
      ensures email == value && status == old(status) && message == old(message)
    {
      email := value;
    }

    /** The part of `onSubmit` before the request. Returns the address to
        send, or None when the check failed. */
    method Submit() returns (sent: Option<string>)
      modifies this
      ensures email == old(email)
      ensures Rejects(email) ==> sent == None && status == Error && message == InvalidEmailMessage
      ensures !Rejects(email) ==> sent == Some(email) && status == Loading && message == ""
    {
      if email == "" || '@' !in email {
        status, message := Error, InvalidEmailMessage;
        return None;
      }
      status, message := Loading, "";
      sent := Some(email);
    }

    /** The part of `onSubmit` after the request. */
    method Receive(outcome: FetchOutcome)
      modifies this
      ensures outcome.Answered? && outcome.ok ==>
                status == Success && message == OrElse(outcome.message, SubscribedMessage) && email == ""
      ensures outcome.Answered? && !outcome.ok ==>
                status == Error && message == OrElse(outcome.error, RetryMessage) && email == old(email)
      ensures outcome.Threw? ==> status == Error && message == RetryLaterMessage && email == old(email)
    {
      match outcome
      case Answered(ok, m, e) =>
        if ok {
          status, message := Success, OrElse(m, SubscribedMessage);
          email := "";
        } else {
          status, message := Error, OrElse(e, RetryMessage);
        }
      case Threw =>
        status, message := Error, RetryLaterMessage;
    }
  }
}
