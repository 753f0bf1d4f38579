/** The guest application form on the home page and on the "Be a Guest"
    page: both hold the same state and the same handlers. */
module GuestForm {
  import opened Wrappers
  import opened JsText
  import opened FormStatus

  /** The ten fields of `guestForm`. */
  datatype Fields = Fields(
    fullName: string,
    email: string,
    phoneNumber: string,
    preferredContactMethod: string,
    testimonyDescription: string,
    generalAvailability: string,
    timeSlot: string,
    flexibleAvailabilityNotes: string,
    consentRecording: bool,
    consentAge: bool)

  /** The initial state, which a successful send restores. */
  const EmptyFields := Fields("", "", "", "", "", "", "", "", false, false)

  const Flexible := "I'm flexible"

  const RequiredMessage := "Please fill in all required fields"
  const EmailMessage := "Please enter a valid email address"
  const NotesMessage := "Please tell us about your availability"
  const SlotMessage := "Please select a preferred time slot"
  const ThankYouMessage := "Thank you for sharing your story! We will reach out soon."

  /** The values of the availability radio buttons. */
  const AvailabilityChoices := ["Weekdays", "Weeknights", "Weekends", Flexible]

  /** `getTimeSlotOptions`: the slots offered for the chosen availability. */
  function TimeSlotOptions(availability: string): (r: seq<string>)
    ensures availability == "Weekdays" ==> |r| == 4
    ensures availability == "Weeknights" ==> |r| == 2
    ensures availability == "Weekends" ==> |r| == 5
    ensures availability !in {"Weekdays", "Weeknights", "Weekends"} ==> r == []
    ensures forall k :: 0 <= k < |r| ==> r[k] != ""
    ensures forall j, k :: 0 <= j < k < |r| ==> r[j] != r[k]
  {
    match availability
    case "Weekdays" => ["9:00 am – 11:00 am", "11:00 am – 1:00 pm", "1:00 pm – 3:00 pm", "3:00 pm – 5:00 pm"]
    case "Weeknights" => ["5:00 pm – 7:00 pm", "7:00 pm – 9:00 pm"]
    case "Weekends" =>
      ["Saturday morning", "Saturday afternoon", "Saturday evening", "Sunday afternoon", "Sunday evening"]
    case _ => []
  }

  /** The first condition of the submit handler. */
  predicate RequiredFilled(f: Fields) {
    && f.fullName != "" && f.email != "" && f.preferredContactMethod != ""
    && f.testimonyDescription != "" && f.generalAvailability != ""
    && f.consentRecording && f.consentAge
  }

  /** The message of the first check that fails, in the handler's order;
      None when all pass. */
  function CheckMessage(f: Fields): (r: Option<string>)
    ensures r == Some(RequiredMessage) <==> !RequiredFilled(f)
    ensures r == Some(EmailMessage) <==> RequiredFilled(f) && '@' !in f.email
    ensures r == Some(NotesMessage) <==>
              RequiredFilled(f) && '@' in f.email && f.generalAvailability == Flexible
              && IsBlank(f.flexibleAvailabilityNotes)
    ensures r == Some(SlotMessage) <==>
              RequiredFilled(f) && '@' in f.email && f.generalAvailability != Flexible && f.timeSlot == ""
    ensures r.Some? ==> r.value in {RequiredMessage, EmailMessage, NotesMessage, SlotMessage}
  {
    if !RequiredFilled(f) then Some(RequiredMessage)
    else if '@' !in f.email then Some(EmailMessage)
    else if f.generalAvailability == Flexible then
      if IsBlank(f.flexibleAvailabilityNotes) then Some(NotesMessage) else None
    else if f.timeSlot == "" then Some(SlotMessage)
    else None
  }

  /** The body sent to the route: the detail that does not apply to the
      chosen availability is blanked. */
  function ShapePayload(f: Fields): (p: Fields)
    ensures p.generalAvailability == Flexible ==> p.timeSlot == "" && p.flexibleAvailabilityNotes == f.flexibleAvailabilityNotes
    ensures p.generalAvailability != Flexible ==> p.flexibleAvailabilityNotes == "" && p.timeSlot == f.timeSlot
    ensures p.(timeSlot := f.timeSlot, flexibleAvailabilityNotes := f.flexibleAvailabilityNotes) == f
  {
    if f.generalAvailability == Flexible then f.(timeSlot := "")
    else f.(flexibleAvailabilityNotes := "")
  }

  /** Shaping is idempotent and keeps a form that passes the checks passing. */
  lemma ShapePayloadStable(f: Fields)
    ensures ShapePayload(ShapePayload(f)) == ShapePayload(f)
    ensures CheckMessage(f) == None ==> CheckMessage(ShapePayload(f)) == None
  {
  }

  /** Every radio button but "I'm flexible" offers at least one time slot,
      so each choice can get past the last check. */
  lemma EveryChoiceOffersSlots(k: nat)
    requires k < |AvailabilityChoices|
    ensures AvailabilityChoices[k] != Flexible <==> |TimeSlotOptions(AvailabilityChoices[k])| > 0
  {
  }

  /** Choosing one of the offered slots settles the last check for a form
      whose earlier checks pass. */
  lemma OfferedSlotPasses(f: Fields, k: nat)
    requires RequiredFilled(f) && '@' in f.email && f.generalAvailability != Flexible
    requires k < |TimeSlotOptions(f.generalAvailability)|
    ensures CheckMessage(f.(timeSlot := TimeSlotOptions(f.generalAvailability)[k])) == None
  {
  }

  /** The guest form's state and handlers. */
  class GuestApplicationForm {
    var fields: Fields
    var status: Status
    var message: string

    /** The chosen slot is empty or one of those offered for the chosen
        availability. */
    predicate SlotOffered()
      reads this
    {
      fields.timeSlot == "" || fields.timeSlot in TimeSlotOptions(fields.generalAvailability)
    }

    constructor()
      ensures fields == EmptyFields && status == Idle && message == ""
      ensures SlotOffered()
    {
      fields := EmptyFields;
      status := Idle;
      message := "";
    }

    /** The availability radio's `onChange`. */
    method ChangeAvailability(value: string)
      requires value in AvailabilityChoices
      modifies this
      ensures fields == old(fields).(generalAvailability := value, timeSlot := "")
      ensures status == old(status) && message == old(message)
      ensures SlotOffered()
    {
      fields := fields.(generalAvailability := value, timeSlot := "");
    }

    /** The time slot radio's `onChange`; only offered slots are shown. */
    method ChooseTimeSlot(slot: string)
      requires slot in TimeSlotOptions(fields.generalAvailability)
      modifies this
      ensures fields == old(fields).(timeSlot := slot)
      ensures status == old(status) && message == old(message)
      ensures SlotOffered()
    {
      fields := fields.(timeSlot := slot);
    }

    /** The part of `onSubmit` before the request: the checks in order, then
        'loading'. Returns the body to send, or None when a check failed. */
    method Submit() returns (payload: Option<Fields>)
      modifies this
      ensures fields == old(fields)
      ensures match CheckMessage(old(fields))
              case Some(m) => payload == None && status == Error && message == m
              case None => payload == Some(ShapePayload(fields)) && status == Loading && message == ""
    {
      if !RequiredFilled(fields) {
        status, message := Error, RequiredMessage;
        return None;
      }
      if '@' !in fields.email {
        status, message := Error, EmailMessage;
        return None;
      }
      if fields.generalAvailability == Flexible {
        if IsBlank(fields.flexibleAvailabilityNotes) {
          status, message := Error, NotesMessage;
          return None;
        }
      } else if fields.timeSlot == "" {
        status, message := Error, SlotMessage;
        return None;
      }
      status, message := Loading, "";
      payload := Some(ShapePayload(fields));
    }

    /** The part of `onSubmit` after the request. */
    method Receive(outcome: FetchOutcome)
      modifies this
      ensures outcome.Answered? && outcome.ok ==>
                status == Success && message == OrElse(outcome.message, ThankYouMessage) && fields == EmptyFields
      ensures outcome.Answered? && !outcome.ok ==>
                status == Error && message == OrElse(outcome.error, RetryMessage) && fields == old(fields)
      ensures outcome.Threw? ==> status == Error && message == RetryLaterMessage && fields == old(fields)
      ensures old(SlotOffered()) ==> SlotOffered()
    {
      match outcome
      case Answered(ok, m, e) =>
        if ok {
          status, message := Success, OrElse(m, ThankYouMessage);
          fields := EmptyFields;
        } else {
          status, message := Error, OrElse(e, RetryMessage);
        }
      case Threw =>
        status, message := Error, RetryLaterMessage;
    }
  }
}
