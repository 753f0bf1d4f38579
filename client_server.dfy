/** How the bodies the client forms send meet the checks of the routes they
    are sent to. */
module ClientServer {
  import opened Wrappers
  import opened JsText
  import GuestForm
  import GuestApplication
  import NewsletterForm
  import Subscribe

  /** The guest form's body as the guest-application route reads it: the
      availability is a string, and there is neither `selectedDateTimes` nor
      `otherTimes`. `timeSlot` and `flexibleAvailabilityNotes` are not read. */
  function AsSubmission(p: GuestForm.Fields): (s: GuestApplication.Submission)
    ensures s.generalAvailability == GuestApplication.Text(p.generalAvailability)
    ensures s.selectedDateTimes == [] && s.otherTimes == ""
  {
    GuestApplication.Submission(
      p.fullName, p.email, p.phoneNumber, p.preferredContactMethod, p.testimonyDescription,
      GuestApplication.Text(p.generalAvailability), [], "", p.consentRecording, p.consentAge)
  }

  /** Whatever the visitor enters, a guest form that passes its own checks is
      turned away by the route: blank availability fails the required fields,
      an address without '.' fails the email check, and everything else fails
      the date/time check, since the form sends no dates and no other times.
      So the route answers 400 and contacts no provider. */
  lemma GuestFormAlwaysRejected(f: GuestForm.Fields)
    requires GuestForm.CheckMessage(f) == None
    ensures var v := GuestApplication.Validate(AsSubmission(GuestForm.ShapePayload(f)));
      && v.Rejected?
      && (IsBlank(f.generalAvailability) ==> v.message == GuestApplication.RequiredMessage)
      && (!IsBlank(f.generalAvailability) && '.' !in f.email ==> v.message == GuestApplication.EmailMessage)
      && (!IsBlank(f.generalAvailability) && '.' in f.email ==> v.message == GuestApplication.DateTimeMessage)
  {
    var s := AsSubmission(GuestForm.ShapePayload(f));
    assert GuestApplication.ValidSlots([]) == [];
    assert IsBlank("") by { BlankIff(""); }
    if !IsBlank(f.generalAvailability) && '.' in f.email {
      assert GuestApplication.RequiredPresent(s);
      assert GuestApplication.PlausibleEmail(s.email);
    }
  }

  /** An address the newsletter form lets through passes the subscribe
      route's email check. */
  lemma NewsletterEmailAccepted(email: string)
    requires !NewsletterForm.Rejects(email)
    ensures Subscribe.AcceptableEmail(Subscribe.Str(email))
  {
  }

  /** The route's check is the form's check: an address the form turns away
      the route turns away too. */
  lemma NewsletterChecksAgree(email: string)
    ensures NewsletterForm.Rejects(email) <==> !Subscribe.AcceptableEmail(Subscribe.Str(email))
  {
  }
}
