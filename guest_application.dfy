/** The guest-application intake handler: it validates a submission, formats
    the requested date/time slots and the plain-text email body, and hands the
    body to Resend when an API key is configured and to FormSubmit otherwise. */
module GuestApplication {
  import opened Wrappers
  import opened JsText
  import opened Http

  /** `generalAvailability` arrives either as one string or as a list. A
      missing value is `Text("")`. */
  datatype Availability = Text(text: string) | Choices(items: seq<string>)

  /** One entry of `selectedDateTimes`; an absent field (or a null entry) has
      the empty string there. */
  datatype DateTimeSlot = DateTimeSlot(date: string, time: string)

  /** The parsed JSON body. String fields that are absent are "", an absent
      or non-array `selectedDateTimes` is [], absent flags are false. */
  datatype Submission = Submission(
    fullName: string,
    email: string,
    phoneNumber: string,
    preferredContactMethod: string,
    testimonyDescription: string,
    generalAvailability: Availability,
    selectedDateTimes: seq<DateTimeSlot>,
    otherTimes: string,
    consentRecording: bool,
    consentAge: bool)

  const RequiredMessage := "Please fill in all required fields"
  const EmailMessage := "Please provide a valid email address"
  const AvailabilityMessage := "Please select at least one general availability option"
  const DateTimeMessage := "Please select at least one date and time, or provide other availability options"
  const ThankYouMessage := "Thank you for sharing your story! We will reach out soon."
  const GenericError := "Something went wrong. Please try again later."

  // ---------------------------------------------------------------- validation

  /** A list counts when it is non-empty, a string when it has a character
      that is not whitespace. */
  predicate HasGeneralAvailability(a: Availability) {
    match a
    case Choices(items) => |items| > 0
    case Text(t) => !IsBlank(t)
  }

  predicate RequiredPresent(s: Submission) {
    && s.fullName != ""
    && s.email != ""
    && s.preferredContactMethod != ""
    && s.testimonyDescription != ""
    && HasGeneralAvailability(s.generalAvailability)
    && s.consentRecording
    && s.consentAge
  }

  /** The deliberately weak address check: some '@' and some '.'. */
  predicate PlausibleEmail(email: string) {
    '@' in email && '.' in email
  }

  /** The availability as it is printed: a list joined with ", ". */
  function AvailabilityText(a: Availability): string {
    match a
    case Choices(items) => Join(items, ", ")
    case Text(t) => t
  }

  predicate IsComplete(dt: DateTimeSlot) {
    dt.date != "" && dt.time != ""
  }

  /** The entries whose date and time are both present, in input order. */
  function ValidSlots(slots: seq<DateTimeSlot>): (r: seq<DateTimeSlot>)
    ensures |r| <= |slots|
    ensures forall k :: 0 <= k < |r| ==> IsComplete(r[k]) && r[k] in slots
    ensures forall k :: 0 <= k < |slots| && IsComplete(slots[k]) ==> slots[k] in r
  {
    if slots == [] then []
    else
      var last := slots[|slots| - 1];
      ValidSlots(slots[..|slots| - 1]) + (if IsComplete(last) then [last] else [])
  }

  /** Filtering a concatenation filters each part. With ValidSlotsOfOne this
      pins ValidSlots down to "keep exactly the complete entries, in order". */
  lemma {:induction false} ValidSlotsAppend(a: seq<DateTimeSlot>, b: seq<DateTimeSlot>)
    ensures ValidSlots(a + b) == ValidSlots(a) + ValidSlots(b)
  {
    if b == [] {
      assert a + b == a;
    } else {
      var b' := b[..|b| - 1];
      assert (a + b)[..|a + b| - 1] == a + b';
      assert (a + b)[|a + b| - 1] == b[|b| - 1];
      ValidSlotsAppend(a, b');
    }
  }

  lemma ValidSlotsOfOne(dt: DateTimeSlot)
    ensures ValidSlots([dt]) == if IsComplete(dt) then [dt] else []
  {
    assert [dt][..0] == [];
  }

  /** The outcome of the checks at the head of the handler. */
  datatype Verdict =
    | Rejected(message: string)
    | Accepted(availability: string, slots: seq<DateTimeSlot>)

  /** The checks in source order; the first one that fails decides the
      message. */
  function Validate(s: Submission): (v: Verdict)
    ensures v == Rejected(RequiredMessage) <==> !RequiredPresent(s)
    ensures v == Rejected(EmailMessage) <==> RequiredPresent(s) && !PlausibleEmail(s.email)
    ensures v == Rejected(AvailabilityMessage) <==>
              RequiredPresent(s) && PlausibleEmail(s.email) && IsBlank(AvailabilityText(s.generalAvailability))
    ensures v == Rejected(DateTimeMessage) <==>
              && RequiredPresent(s) && PlausibleEmail(s.email) && !IsBlank(AvailabilityText(s.generalAvailability))
              && ValidSlots(s.selectedDateTimes) == [] && IsBlank(s.otherTimes)
    ensures v.Rejected? ==> v.message in {RequiredMessage, EmailMessage, AvailabilityMessage, DateTimeMessage}
    ensures v.Accepted? <==>
              && RequiredPresent(s) && PlausibleEmail(s.email)
              && !IsBlank(AvailabilityText(s.generalAvailability))
              && (ValidSlots(s.selectedDateTimes) != [] || !IsBlank(s.otherTimes))
    ensures v.Accepted? ==>
              v.availability == AvailabilityText(s.generalAvailability) && v.slots == ValidSlots(s.selectedDateTimes)
  {
    if !RequiredPresent(s) then Rejected(RequiredMessage)
    else if !PlausibleEmail(s.email) then Rejected(EmailMessage)
    else
      var availability := AvailabilityText(s.generalAvailability);
      if IsBlank(availability) then Rejected(AvailabilityMessage)
      else
        var slots := ValidSlots(s.selectedDateTimes);
        if slots == [] && IsBlank(s.otherTimes) then Rejected(DateTimeMessage)
        else Accepted(availability, slots)
  }

  /** Availability given as text that passes the required-fields check is
      never rejected as blank: only a list of blank entries (say [""]) reaches
      the third check. */
  lemma TextAvailabilityPassesThirdCheck(s: Submission)
    requires s.generalAvailability.Text?
    ensures Validate(s) != Rejected(AvailabilityMessage)
  {
  }

  /** The third check turns away exactly a list made of one blank entry: a
      list of two or more is joined around ", ", which is never blank. */
  lemma AvailabilityRejectedIff(s: Submission)
    ensures Validate(s) == Rejected(AvailabilityMessage) <==>
              && RequiredPresent(s) && PlausibleEmail(s.email)
              && s.generalAvailability.Choices? && |s.generalAvailability.items| == 1
              && IsBlank(s.generalAvailability.items[0])
  {
    match s.generalAvailability
    case Text(_) =>
      TextAvailabilityPassesThirdCheck(s);
    case Choices(items) =>
      if |items| >= 2 {
        JoinShowsParts(items, ", ");
        ContainsVisible(Join(items, ", "), ", ");
      }
  }

  // --------------------------------------------------------- 12-hour times

  /** JavaScript's `%`, whose remainder takes the sign of the dividend. */
  function JsRemainder(a: int, b: int): (r: int)
    requires b > 0
    ensures -b < r < b
    ensures a >= 0 ==> r == a % b
    ensures a < 0 ==> r == if a % b == 0 then 0 else a % b - b
  {
    if a >= 0 then a % b
    else
      RemainderOfNegation(-a, b);
      -((-a) % b)
  }

  /** Negating the dividend negates the remainder modulo the divisor. */
  lemma RemainderOfNegation(n: int, b: int)
    requires n > 0 && b > 0
    ensures -(n % b) == if (-n) % b == 0 then 0 else (-n) % b - b
  {
    var q, r := n / b, n % b;
    if r == 0 {
      assert -n == (-q) * b + 0;
      RemainderUnique(-n, b, -q, 0);
    } else {
      assert -n == (-q - 1) * b + (b - r);
      RemainderUnique(-n, b, -q - 1, b - r);
    }
  }

  /** The Euclidean remainder is the only one in 0..b-1. */
  lemma RemainderUnique(a: int, b: int, q: int, r: int)
    requires b > 0 && 0 <= r < b && a == q * b + r
    ensures a % b == r
  {
    var q', r' := a / b, a % b;
    assert a == q' * b + r';
    var k := q - q';
    assert k * b == q * b - q' * b by { MulDistributes(q, q', b); }
    assert k * b == r' - r;
    if k != 0 { MulAtLeast(if k > 0 then k else -k, b); }
  }

  /** Distributivity, a helper for the prover. */
  lemma MulDistributes(x: int, y: int, b: int)
    ensures (x - y) * b == x * b - y * b
  {
  }

  /** A step of multiplication by a positive factor, a helper for the prover. */
  lemma MulAtLeast(k: int, b: int)
    requires k >= 1 && b > 0
    ensures k * b >= b && (-k) * b <= -b
  {
  }

  /** `hours >= 12 ? 'pm' : 'am'`; NaN compares false. */
  function Meridiem(hours: JsNumber): string {
    match hours
    case Int(h) => if h >= 12 then "pm" else "am"
    case NaN => "am"
  }

  /** `hours % 12 || 12`: a zero (or NaN) remainder becomes 12. */
  function DisplayHours(hours: JsNumber): int {
    match hours
    case Int(h) => var r := JsRemainder(h, 12); if r == 0 then 12 else r
    case NaN => 12
  }

  /** `${displayHours}:${minutes} ${ampm}` for `time.split(':')`. A time with
      no ':' prints its minutes as "undefined". */
  function FormatTime(time: string): string {
    var hours := ParseInt(FirstField(time));
    var minutes := match SecondField(time) case Some(m) => m case None => "undefined";
    IntToString(DisplayHours(hours)) + ":" + minutes + " " + Meridiem(hours)
  }

  /** The 12-hour reading of an hour of the day: 'pm' exactly from 12 on, the
      hour modulo 12 with 0 shown as 12, always within 1..12. */
  lemma TwelveHourClock(h: int)
    requires 0 <= h <= 23
    ensures 1 <= DisplayHours(Int(h)) <= 12
    ensures Meridiem(Int(h)) == "pm" <==> h >= 12
    ensures DisplayHours(Int(h)) == if h % 12 == 0 then 12 else h % 12
  {
  }

  /** The hour of the day a 12-hour reading stands for. */
  function To24Hour(display: int, meridiem: string): int {
    display % 12 + (if meridiem == "pm" then 12 else 0)
  }

  /** No two hours of the day share a 12-hour reading. */
  lemma TwelveHourRoundTrip(h: int)
    requires 0 <= h <= 23
    ensures To24Hour(DisplayHours(Int(h)), Meridiem(Int(h))) == h
  {
  }

  function DecimalDigit(d: nat): (c: char)
    requires d < 10
    ensures '0' <= c <= '9' && DigitValue(c) == d
  {
    ('0' as int + d) as char
  }

  /** `HH`: the two-digit hour an HTML time value starts with. */
  function TwoDigits(h: nat): (r: string)
    requires h < 100
    ensures |r| == 2 && '0' <= r[0] <= '9' && '0' <= r[1] <= '9'
    ensures DigitsValue(r, 10) == h
  {
    var r := [DecimalDigit(h / 10), DecimalDigit(h % 10)];
    assert r[..1] == [r[0]] && [r[0]][..0] == [];
    assert DigitsValue(r[..1], 10) == h / 10;
    assert (h / 10) * 10 + h % 10 == h;
    r
  }

  /** A well-formed `HH:MM` time is printed as its 12-hour reading. */
  lemma FormatClockTime(h: nat, minutes: string)
    requires h <= 23
    requires ':' !in minutes
    ensures FormatTime(TwoDigits(h) + ":" + minutes) ==
              IntToString(DisplayHours(Int(h))) + ":" + minutes + " " + Meridiem(Int(h))
  {
    var hh := TwoDigits(h);
    var time := hh + ":" + minutes;
    assert IndexOf(time, ':') == 2 by {
      assert time[2] == ':' && time[0] != ':' && time[1] != ':';
    }
    assert FirstField(time) == hh;
    var after := time[3..];
    assert after == minutes;
    assert IndexOf(minutes, ':') == |minutes|;
    assert SecondField(time) == Some(minutes) by {
      assert minutes[..|minutes|] == minutes;
    }
    assert ParseInt(hh) == Int(h) by {
      ParseIntOfDigits(hh, []);
      assert hh + [] == hh;
    }
  }

  // -------------------------------------------------------- slot lines

  const SlotsHeader := "\nSelected Dates & Times:\n"

  const InvalidDate := "Invalid Date"

  /** The slot as it reads in the body, as the code is written: the locale
      date (`toLocaleDateString` of `new Date(date + 'T' + time)`, which is
      "Invalid Date" when the text does not parse, None here) and the
      12-hour time. With string fields the `try` block never
      throws, so the raw-value fallback is not reached. */
  function SlotDescription(dt: DateTimeSlot, dateName: string -> Option<string>): string {
    match dateName(dt.date + "T" + dt.time)
    case Some(d) => d + " at " + FormatTime(dt.time)
    case None => InvalidDate + " at " + FormatTime(dt.time)
  }

  /** The slot as the fallback means it to read: the raw date and time when
      the date does not parse. */
  function SlotDescriptionIntended(dt: DateTimeSlot, dateName: string -> Option<string>): (r: string)
    ensures dateName(dt.date + "T" + dt.time).None? ==> r == dt.date + " at " + dt.time
    ensures dateName(dt.date + "T" + dt.time).Some? ==> r == SlotDescription(dt, dateName)
  {
    match dateName(dt.date + "T" + dt.time)
    case Some(d) => d + " at " + FormatTime(dt.time)
    case None => dt.date + " at " + dt.time
  }

  /** A date that does not parse: the line as written shows "Invalid Date"
      where the intended fallback shows the date that was sent. */
  lemma InvalidDateHidesRawValues(dt: DateTimeSlot, dateName: string -> Option<string>)
    requires dateName(dt.date + "T" + dt.time) == None
    requires dt.date != [] && dt.date[0] != 'I'
    ensures SlotDescription(dt, dateName) == InvalidDate + " at " + FormatTime(dt.time)
    ensures SlotDescriptionIntended(dt, dateName) == dt.date + " at " + dt.time
    ensures SlotDescription(dt, dateName) != SlotDescriptionIntended(dt, dateName)
  {
    assert SlotDescription(dt, dateName)[0] == InvalidDate[0] == 'I';
    assert SlotDescriptionIntended(dt, dateName)[0] == dt.date[0];
  }

  /** The date "soon", sent with a time of 10:30, is no date at all. */
  lemma UnparsableDateShowsInvalidDate()
    ensures var dt := DateTimeSlot("soon", "10:30");
      SlotDescription(dt, _ => None) != SlotDescriptionIntended(dt, _ => None)
  {
    InvalidDateHidesRawValues(DateTimeSlot("soon", "10:30"), _ => None);
  }

  /** The two descriptions agree on every date that parses. */
  lemma DescriptionsAgreeOnDates(dt: DateTimeSlot, dateName: string -> Option<string>)
    requires dateName(dt.date + "T" + dt.time).Some?
    ensures SlotDescription(dt, dateName) == SlotDescriptionIntended(dt, dateName)
  {
  }

  /** A line that starts with two spaces and a list number reads back, under
      `parseInt`, as that number. */
  lemma NumberedLineParses(n: nat, rest: string)
    requires rest != [] && rest[0] == '.'
    ensures ParseInt("  " + NatToString(n) + rest) == Int(n)
  {
    var r := NatToString(n) + rest;
    assert !IsDigit(rest[0], 10) by { assert DigitValue('.') == 16; }
    ParseIntOfNatToString(n, rest);
    StartsWithDigit(NatToString(n), rest);
    IndentIsWhitespace();
    ParseIntSkipsWhitespace("  ", r);
    Regroup("  ", NatToString(n), rest);
  }

  /** Regrouping a concatenation, kept apart so that the proof above does
      not do it on its own (a helper for the prover). */
  lemma Regroup(a: string, b: string, c: string)
    ensures a + b + c == a + (b + c)
  {
  }

  /** The first character of a digit string is visible, a helper for the prover. */
  lemma StartsWithDigit(digits: string, rest: string)
    requires digits != [] && '0' <= digits[0] <= '9'
    ensures !IsWhitespace((digits + rest)[0])
  {
    assert (digits + rest)[0] == digits[0];
  }

  /** The literal indent is whitespace, a helper for the prover. */
  lemma IndentIsWhitespace()
    ensures AllWhitespace("  ")
  {
  }

  /** What follows the list number on a slot line. */
  function SlotLineRest(dt: DateTimeSlot, dateName: string -> Option<string>): (r: string)
    ensures |r| >= 2 && r[0] == '.' && r[|r| - 1] == '\n'
  {
    ". " + SlotDescription(dt, dateName) + "\n"
  }

  /** The line for the entry at 0-based `index`. */
  function SlotLine(index: nat, dt: DateTimeSlot, dateName: string -> Option<string>): string {
    "  " + NatToString(index + 1) + SlotLineRest(dt, dateName)
  }

  /** One line per slot, in order. */
  function SlotLines(slots: seq<DateTimeSlot>, dateName: string -> Option<string>): (r: seq<string>)
    ensures |r| == |slots|
    ensures forall k :: 0 <= k < |slots| ==> r[k] == SlotLine(k, slots[k], dateName)
  {
    seq(|slots|, k requires 0 <= k < |slots| => SlotLine(k, slots[k], dateName))
  }

  function Concat(parts: seq<string>): string {
    if parts == [] then [] else Concat(parts[..|parts| - 1]) + parts[|parts| - 1]
  }

  /** `dateTimeSlotsText`: empty without slots, otherwise a header and the
      numbered lines. */
  function SlotsText(slots: seq<DateTimeSlot>, dateName: string -> Option<string>): string {
    if slots == [] then [] else SlotsHeader + Concat(SlotLines(slots, dateName))
  }

  /** The number at the head of the line for the entry at index k reads back
      as k + 1, and the line ends with a newline. */
  lemma SlotLineNumbered(k: nat, dt: DateTimeSlot, dateName: string -> Option<string>)
    ensures ParseInt(SlotLine(k, dt, dateName)) == Int(k + 1)
    ensures var line := SlotLine(k, dt, dateName); line[|line| - 1] == '\n'
  {
    var rest := SlotLineRest(dt, dateName);
    NumberedLineParses(k + 1, rest);
  }

  /** A date that does not parse does not drop the line: it reads
      "Invalid Date" followed by the 12-hour time. */
  lemma SlotLineInvalidDate(k: nat, dt: DateTimeSlot, dateName: string -> Option<string>)
    requires dateName(dt.date + "T" + dt.time) == None
    ensures SlotLine(k, dt, dateName) ==
              "  " + NatToString(k + 1) + ". " + InvalidDate + " at " + FormatTime(dt.time) + "\n"
  {
    DescriptionShape("  " + NatToString(k + 1), InvalidDate, " at ", FormatTime(dt.time));
  }

  /** Regrouping the pieces of a slot line (a helper for the prover). */
  lemma DescriptionShape(p: string, x: string, y: string, z: string)
    ensures p + (". " + (x + y + z) + "\n") == p + ". " + x + y + z + "\n"
  {
  }

  lemma ConcatSnoc(parts: seq<string>, x: string)
    ensures Concat(parts + [x]) == Concat(parts) + x
  {
    assert (parts + [x])[..|parts|] == parts;
  }

  /** Appending the line for entry i extends the text of the first i lines. */
  lemma LinesSnoc(slots: seq<DateTimeSlot>, dateName: string -> Option<string>, i: nat)
    requires i < |slots|
    ensures Concat(SlotLines(slots[..i + 1], dateName)) ==
              Concat(SlotLines(slots[..i], dateName)) + SlotLine(i, slots[i], dateName)
  {
    SlotLinesSnoc(slots, dateName, i);
    ConcatSnoc(SlotLines(slots[..i], dateName), SlotLine(i, slots[i], dateName));
  }

  lemma SlotLinesSnoc(slots: seq<DateTimeSlot>, dateName: string -> Option<string>, i: nat)
    requires i < |slots|
    ensures SlotLines(slots[..i + 1], dateName) == SlotLines(slots[..i], dateName) + [SlotLine(i, slots[i], dateName)]
  {
    var longer, shorter := SlotLines(slots[..i + 1], dateName), SlotLines(slots[..i], dateName);
    forall k | 0 <= k < i + 1 ensures longer[k] == (shorter + [SlotLine(i, slots[i], dateName)])[k] {
      assert slots[..i + 1][k] == slots[k];
      if k < i { assert slots[..i][k] == slots[k]; }
    }
  }

  /** The `forEach` loop that appends one line per slot. */
  method FormatSlots(slots: seq<DateTimeSlot>, dateName: string -> Option<string>) returns (text: string)
    ensures text == SlotsText(slots, dateName)
  {
    text := "";
    if |slots| > 0 {
      var lines := "";
      var i := 0;
      while i < |slots|
        invariant 0 <= i <= |slots|
        invariant lines == Concat(SlotLines(slots[..i], dateName))
      {
        LinesSnoc(slots, dateName, i);
        lines := lines + SlotLine(i, slots[i], dateName);
        i := i + 1;
      }
      assert slots[..i] == slots;
      text := SlotsHeader + lines;
    }
  }

  // -------------------------------------------------------- email body

  function YesNo(b: bool): string {
    if b then "Yes" else "No"
  }

  /** `phoneNumber || 'Not provided'` */
  function PhoneText(phone: string): string {
    if phone == "" then "Not provided" else phone
  }

  /** The "Other Availability Times" section, present when `otherTimes` is a
      non-empty string. */
  function OtherTimesText(otherTimes: string): string {
    if otherTimes == "" then "" else "\nOther Availability Times:\n" + otherTimes
  }

  /** The title line, written in two literals so that its first character
      is visible to the verifier. */
  const Banner := "New Guest Application - " + "Rooted & Radiant Podcast"

  function PhoneLine(phone: string): string {
    "\nPhone: " + PhoneText(phone) + "\n"
  }

  function ContactSection(s: Submission): string {
    "\n\nCONTACT INFORMATION:\nFull Name: " + s.fullName + "\nEmail: " + s.email
    + PhoneLine(s.phoneNumber) + "Preferred Contact Method: " + s.preferredContactMethod
  }

  function AvailabilityLine(availability: string): string {
    "\nGeneral Availability: " + availability + "\n"
  }

  function AvailabilitySection(availability: string, slotsText: string, otherTimes: string): string {
    "\n\nAVAILABILITY:" + AvailabilityLine(availability) + slotsText + OtherTimesText(otherTimes)
  }

  function TestimonySection(testimony: string): string {
    "\n\nTESTIMONY:\n" + testimony
  }

  function RecordingLine(consent: bool): string {
    "- Recording/Sharing Consent: " + YesNo(consent) + "\n"
  }

  function AgeLine(consent: bool): string {
    "- Age/Parental Consent: " + YesNo(consent) + "\n"
  }

  function ConsentSection(recording: bool, age: bool): string {
    "\n\nCONSENT:\n" + RecordingLine(recording) + AgeLine(age)
  }

  /** The body up to the submission time; it opens with the title. */
  function BodyHead(s: Submission, availability: string, slotsText: string): (r: string)
    ensures |r| > |Banner| && r[..|Banner|] == Banner
    ensures r[0] == 'N'
  {
    var rest := ContactSection(s) + AvailabilitySection(availability, slotsText, s.otherTimes)
      + TestimonySection(s.testimonyDescription) + ConsentSection(s.consentRecording, s.consentAge)
      + "\n---\n";
    assert ("New Guest Application - " + "Rooted & Radiant Podcast")[0] == 'N';
    Banner + rest
  }

  function SubmittedLine(submittedAt: string): (r: string)
    ensures |r| >= 14 && r[..14] == "Submitted on: " && r[14..] == submittedAt
    ensures r[0] == 'S'
  {
    "Submitted on: " + submittedAt
  }

  /** The template literal, trimmed. */
  function EmailBody(s: Submission, availability: string, slotsText: string, submittedAt: string): string {
    Trim("\n" + BodyHead(s, availability, slotsText) + SubmittedLine(submittedAt) + "\n    ")
  }

  /** Trimming a template that opens with a newline and closes with an
      indented newline, around text that starts with a visible character and
      ends in a line that does. */
  lemma TemplateTrim(head: string, tail: string)
    requires head != [] && !IsWhitespace(head[0])
    requires tail != [] && !IsWhitespace(tail[0])
    ensures Trim("\n" + head + tail + "\n    ") == head + TrimEnd(tail)
  {
    var w := "\n    ";
    var inner := head + tail + w;
    TemplateEdges();
    PrependNewline(head, tail, w);
    assert inner[0] == head[0];
    TrimStartDropsWhitespace("\n", inner);
    TrimEndDropsWhitespace(head + tail, w);
    assert !AllWhitespace(tail);
    TrimEndAppend(head, tail);
  }

  /** The whitespace the body template opens and closes with. */
  lemma TemplateEdges()
    ensures AllWhitespace("\n") && AllWhitespace("\n    ")
  {
    var w := "\n    ";
    forall i | 0 <= i < |w| ensures IsWhitespace(w[i]) {
      assert w[i] == '\n' || w[i] == ' ';
    }
  }

  /** Kept apart from TemplateTrim, where proving it inline costs more than
      the rest of that proof. */
  lemma PrependNewline(head: string, tail: string, w: string)
    ensures "\n" + head + tail + w == "\n" + (head + tail + w)
  {
  }

  /** Trimming removes only the template's leading newline and whatever
      whitespace ends it: the body is the head followed by the submission line
      without trailing whitespace. */
  lemma BodyLayout(s: Submission, availability: string, slotsText: string, submittedAt: string)
    ensures EmailBody(s, availability, slotsText, submittedAt) ==
              BodyHead(s, availability, slotsText) + TrimEnd(SubmittedLine(submittedAt))
  {
    TemplateTrim(BodyHead(s, availability, slotsText), SubmittedLine(submittedAt));
  }

  /** Whatever the head shows, the trimmed body shows. */
  lemma BodyShowsHead(s: Submission, availability: string, slotsText: string, submittedAt: string, x: string)
    requires Contains(BodyHead(s, availability, slotsText), x)
    ensures Contains(EmailBody(s, availability, slotsText, submittedAt), x)
  {
    BodyLayout(s, availability, slotsText, submittedAt);
    ContainsAppend(BodyHead(s, availability, slotsText), TrimEnd(SubmittedLine(submittedAt)), x);
  }

  /** Whatever one of the sections shows, the head shows. */
  lemma HeadShowsSections(s: Submission, availability: string, slotsText: string, x: string)
    requires || Contains(ContactSection(s), x)
             || Contains(AvailabilitySection(availability, slotsText, s.otherTimes), x)
             || Contains(ConsentSection(s.consentRecording, s.consentAge), x)
    ensures Contains(BodyHead(s, availability, slotsText), x)
  {
    var c := ContactSection(s);
    var a := AvailabilitySection(availability, slotsText, s.otherTimes);
    var t := TestimonySection(s.testimonyDescription);
    var k := ConsentSection(s.consentRecording, s.consentAge);
    if Contains(c, x) {
      ContainsAppend(c, a, x);
      ContainsAppend(c + a, t, x);
      ContainsAppend(c + a + t, k, x);
    } else if Contains(a, x) {
      ContainsPrepend(c, a, x);
      ContainsAppend(c + a, t, x);
      ContainsAppend(c + a + t, k, x);
    } else {
      ContainsPrepend(c + a + t, k, x);
    }
    ContainsAppend(c + a + t + k, "\n---\n", x);
    ContainsPrepend(Banner, c + a + t + k + "\n---\n", x);
  }

  /** The body shows the slot lines in full. */
  lemma BodyShowsSlots(s: Submission, availability: string, slotsText: string, submittedAt: string)
    ensures Contains(EmailBody(s, availability, slotsText, submittedAt), slotsText)
  {
    var pre := "\n\nAVAILABILITY:" + AvailabilityLine(availability);
    ContainsSelf(slotsText);
    ContainsPrepend(pre, slotsText, slotsText);
    ContainsAppend(pre + slotsText, OtherTimesText(s.otherTimes), slotsText);
    HeadShowsSections(s, availability, slotsText, slotsText);
    BodyShowsHead(s, availability, slotsText, submittedAt, slotsText);
  }

  /** The body shows the phone ("Not provided" when absent), the availability
      text and both consent flags as "Yes"/"No". */
  lemma BodyShowsFields(s: Submission, availability: string, slotsText: string, submittedAt: string)
    ensures var body := EmailBody(s, availability, slotsText, submittedAt);
      && Contains(body, PhoneLine(s.phoneNumber))
      && Contains(body, AvailabilityLine(availability))
      && Contains(body, RecordingLine(s.consentRecording))
      && Contains(body, AgeLine(s.consentAge))
  {
    var phone := PhoneLine(s.phoneNumber);
    ContainsSelf(phone);
    ContainsPrepend("\n\nCONTACT INFORMATION:\nFull Name: " + s.fullName + "\nEmail: " + s.email, phone, phone);
    ContainsAppend("\n\nCONTACT INFORMATION:\nFull Name: " + s.fullName + "\nEmail: " + s.email + phone,
      "Preferred Contact Method: ", phone);
    ContainsAppend("\n\nCONTACT INFORMATION:\nFull Name: " + s.fullName + "\nEmail: " + s.email + phone
      + "Preferred Contact Method: ", s.preferredContactMethod, phone);
    HeadShowsSections(s, availability, slotsText, phone);
    BodyShowsHead(s, availability, slotsText, submittedAt, phone);

    var line := AvailabilityLine(availability);
    ContainsSelf(line);
    ContainsPrepend("\n\nAVAILABILITY:", line, line);
    ContainsAppend("\n\nAVAILABILITY:" + line, slotsText, line);
    ContainsAppend("\n\nAVAILABILITY:" + line + slotsText, OtherTimesText(s.otherTimes), line);
    HeadShowsSections(s, availability, slotsText, line);
    BodyShowsHead(s, availability, slotsText, submittedAt, line);

    var recording := RecordingLine(s.consentRecording);
    ContainsSelf(recording);
    ContainsPrepend("\n\nCONSENT:\n", recording, recording);
    ContainsAppend("\n\nCONSENT:\n" + recording, AgeLine(s.consentAge), recording);
    HeadShowsSections(s, availability, slotsText, recording);
    BodyShowsHead(s, availability, slotsText, submittedAt, recording);

    var age := AgeLine(s.consentAge);
    ContainsSelf(age);
    ContainsPrepend("\n\nCONSENT:\n" + recording, age, age);
    HeadShowsSections(s, availability, slotsText, age);
    BodyShowsHead(s, availability, slotsText, submittedAt, age);
  }

  // -------------------------------------------------------- dispatch

  const ResendFrom := "Rooted & Radiant <noreply@rooted-and-radiant.wyatt-works.com>"
  const Inbox := "rooted.radiant.lydia@gmail.com"
  const FormSubmitUrl := "https://formsubmit.co/ajax/rooted.radiant.lydia@gmail.com"

  /** The two provider calls the handler can make. */
  datatype Outbound =
    | ResendEmail(authorization: string, from: string, to: string, replyTo: string, subject: string, text: string)
    | FormSubmitMessage(url: string, name: string, email: string, phone: string, message: string,
                        subject: string, captcha: bool)

  /** What the called provider did: answered with `ok` or not, or the fetch
      threw. */
  datatype ProviderReply = Replied(ok: bool) | NetworkFailure

  /** Everything the handler takes from outside the request body: the Resend
      key ("" when unset), the locale date formatter, the submission time as
      `toLocaleString` prints it, and the provider's reply. */
  datatype Environment = Environment(
    resendApiKey: string,
    dateName: string -> Option<string>,
    submittedAt: string,
    reply: ProviderReply)

  function Subject(s: Submission): string {
    "New Guest Application from " + s.fullName
  }

  /** Resend when a key is set, FormSubmit otherwise. */
  function ProviderRequest(resendApiKey: string, s: Submission, body: string): (r: Outbound)
    ensures r.ResendEmail? <==> resendApiKey != ""
    ensures r.ResendEmail? ==> r.replyTo == s.email && r.text == body && r.authorization == "Bearer " + resendApiKey
    ensures r.FormSubmitMessage? ==> r.email == s.email && r.message == body && !r.captcha
  {
    if resendApiKey != "" then
      ResendEmail("Bearer " + resendApiKey, ResendFrom, Inbox, s.email, Subject(s), body)
    else
      FormSubmitMessage(FormSubmitUrl, s.fullName, s.email, s.phoneNumber, body, Subject(s), false)
  }

  /** The `POST` handler. `input` is None when `request.json()` fails. */
  method Post(input: Option<Submission>, env: Environment) returns (h: Handled<Outbound>)
    ensures input.None? ==> h == Handled(Response(500, Failed(GenericError)), None)
    ensures input.Some? && Validate(input.value).Rejected? ==>
              h == Handled(Response(400, Failed(Validate(input.value).message)), None)
    ensures input.Some? && Validate(input.value).Accepted? ==>
              var s := input.value;
              var v := Validate(s);
              && h.request == Some(ProviderRequest(env.resendApiKey, s,
                                     EmailBody(s, v.availability, SlotsText(v.slots, env.dateName), env.submittedAt)))
              && h.response == if env.reply == Replied(true) then Response(200, Confirmed(ThankYouMessage))
                               else Response(500, Failed(GenericError))
  {
    if input.None? {
      return Handled(Response(500, Failed(GenericError)), None);
    }
    var s := input.value;
    var verdict := Validate(s);
    if verdict.Rejected? {
      return Handled(Response(400, Failed(verdict.message)), None);
    }
    var slotsText := FormatSlots(verdict.slots, env.dateName);
    var body := EmailBody(s, verdict.availability, slotsText, env.submittedAt);
    var request := ProviderRequest(env.resendApiKey, s, body);
    var response := if env.reply == Replied(true) then Response(200, Confirmed(ThankYouMessage))
                    else Response(500, Failed(GenericError));
    h := Handled(response, Some(request));
  }
}
