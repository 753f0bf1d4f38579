# Rooted & Radiant podcast site: form handling, verified

This project models the decision logic of the Rooted & Radiant podcast
website, a Next.js application, in Dafny. It covers:

- **Guest application route** (`POST /api/guest-application`). The route
  checks the submitted form (required fields, email, availability,
  date/time slots). It then builds the plain-text email body: 12-hour
  times, numbered slot lines, "Yes"/"No" consent flags and "Not provided"
  for a missing phone. The body goes to Resend when `RESEND_API_KEY` is set
  and to FormSubmit otherwise (module `GuestApplication`).
- **Subscribe route** (`POST /api/subscribe`). The route checks the email
  and the MailerLite configuration. It then maps MailerLite's status to the
  answer: 409 means "already subscribed". Any other failure with a JSON
  error body gets a "Failed to subscribe: " prefix and the provider's detail,
  while a failure whose body is not JSON ends in the generic error (module
  `Subscribe`; see Findings, where a corrected handler is set beside it).
- **`extractVideoId`** of the YouTube embed component, and the player URL
  (module `YouTubeEmbed`). The two regular expressions are written out as
  character classes and a leftmost substring search.
- **Guest form** on the home page and on the "Be a Guest" page. The two
  pages' copies are line-for-line the same. The model covers the time-slot
  table, the submit handler's checks in order, payload shaping, status
  transitions and the reset after success, and the availability change
  (module `GuestForm`, class `GuestApplicationForm`). The be-a-guest copy is
  src/app/be-a-guest/page.tsx:44-69 (time-slot table), 103-178 (submit) and
  281-286 (availability change). These match src/app/page.tsx:38-63, 213-288
  and 391-396, which the table below cites.
- **Newsletter form** on the home page (module `NewsletterForm`, class
  `SignUpForm`).
- Facts that tie the client forms to the routes they post to (module
  `ClientServer`). The most notable: the guest form's body can never pass
  the guest-application route. The form sends neither `selectedDateTimes`
  nor `otherTimes`, so the route always answers 400.

`JsText` models the JavaScript built-ins whose edge cases the handlers
depend on:
- `trim` with ECMAScript's whitespace set;
- `includes`, `join` and `split(':')`;
- `parseInt`: leading whitespace, sign, `0x`, the longest digit prefix, NaN;
- number-to-string.

Route answers are `Http.Response` values: a status and either a success
message or an error. A handler that may call a provider returns the
call it makes, or None, next to the answer. Modelling choices:
- Provider replies are inputs.
- A JSON string field that is absent is "". Both are falsy, and the route
  reads them the same way.
- `generalAvailability` is either a string or a list.
- The locale date name that `toLocaleDateString` gives is a function
  parameter. It is None for a text that does not parse as a date, which
  `toLocaleDateString` prints as "Invalid Date". The submission time is a
  string parameter.
- JavaScript's `%` is written out with its sign rule.

## Model

| member | source | states |
|---|---|---|
| JsText.IsWhitespace | src/app/api/guest-application/route.ts:23 | the ECMAScript WhiteSpace and LineTerminator code points, which `trim` and `parseInt` skip |
| JsText.TrimStart | src/app/api/guest-application/route.ts:23 | the result is a suffix of the input and does not start with whitespace |
| JsText.TrimEnd | src/app/api/guest-application/route.ts:23 | the result is a prefix of the input and does not end with whitespace |
| JsText.TrimStartEmptyIff | src/app/api/guest-application/route.ts:23 | trimming the front leaves nothing exactly when every character is whitespace |
| JsText.BlankIff | src/app/api/guest-application/route.ts:45 | `trim() === ''` holds exactly when the string is all whitespace |
| JsText.Trim | src/app/api/guest-application/route.ts:23 | `trim()` gives a piece of the input that is empty or starts and ends with a visible character |
| JsText.TrimOfPadded | src/app/api/guest-application/route.ts:23 | trimming text with visible ends, padded with whitespace on both sides, gives back exactly that text |
| JsText.IsBlank | src/app/api/guest-application/route.ts:45 | `!s \|\| s.trim() === ''`: the trimmed string is empty (characterised by BlankIff) |
| JsText.TrimEndOfNonBlank | src/app/api/guest-application/route.ts:23 | a string that starts with a visible character does not trim to empty |
| JsText.TrimEndAppend | src/app/api/guest-application/route.ts:114 | trimming the end never reaches past the last visible character into what precedes it |
| JsText.TrimEndDropsWhitespace | src/app/api/guest-application/route.ts:114 | trailing whitespace is removed by trimming |
| JsText.TrimStartDropsWhitespace | src/app/api/guest-application/route.ts:114 | leading whitespace is removed and a visible first character is kept |
| JsText.Contains | src/app/api/guest-application/route.ts:33 | `s.includes(x)`: x occurs in s at some position |
| JsText.ContainsSelf | src/app/api/guest-application/route.ts:92-114 | a text occurs in itself |
| JsText.ContainsPrepend | src/app/api/guest-application/route.ts:92-114 | text added in front keeps an occurrence |
| JsText.ContainsAppend | src/app/api/guest-application/route.ts:92-114 | text added behind keeps an occurrence |
| JsText.Join | src/app/api/guest-application/route.ts:42 | joining no items gives "" and one item gives that item |
| JsText.JoinShowsParts | src/app/api/guest-application/route.ts:42 | every item occurs in the joined text, and the separator does too once there are two items or more |
| JsText.ContainsVisible | src/app/api/guest-application/route.ts:45 | a text holding a visible character is not blank |
| JsText.FirstField | src/app/api/guest-application/route.ts:77-78 | `split(':')[0]`: the prefix up to the first ':', holding no ':' |
| JsText.SecondField | src/app/api/guest-application/route.ts:77-79 | `split(':')[1]`: `undefined` (None) exactly when there is no ':'; otherwise the text right after the first ':', up to the next ':' or the end |
| JsText.IndexOf | src/app/api/guest-application/route.ts:77 | the first position of the character, or the length when it does not occur |
| JsText.DigitValue | src/app/api/guest-application/route.ts:78 | between 0 and 16; below 10 exactly for '0'..'9', where it is the digit's value; below 16 exactly for hexadecimal digits; 16 for every other character |
| JsText.ParseInt | src/app/api/guest-application/route.ts:78 | `parseInt(s)` without a radix: leading whitespace, one sign, a `0x` prefix, then the longest digit run, NaN without digits (its read-back properties are the lemmas below) |
| JsText.ParseUnsigned | src/app/api/guest-application/route.ts:78 | the digit step of `parseInt`: base 16 after `0x`/`0X`, base 10 otherwise, the longest digit run, None without digits (read by ParseUnsignedOfDigits) |
| JsText.DigitPrefix | src/app/api/guest-application/route.ts:78 | the longest run of digits at the front: all digits, and the next character is not one |
| JsText.NatToString | src/app/api/guest-application/route.ts:83 | a non-empty decimal string with no leading zero except for 0 |
| JsText.DigitsOfNatToString | src/app/api/guest-application/route.ts:83 | the decimal string of n reads back as n and is all digits |
| JsText.DigitPrefixOfAppend | src/app/api/guest-application/route.ts:78 | the digit run of digits followed by a non-digit is exactly those digits |
| JsText.ParseIntOfDigits | src/app/api/guest-application/route.ts:78 | `parseInt` of decimal digits followed by a non-digit (not `x`) is their value |
| JsText.ParseUnsignedOfDigits | src/app/api/guest-application/route.ts:78 | the same without a sign: decimal digits are read in base 10 |
| JsText.ParseIntOfNatToString | src/app/api/guest-application/route.ts:83 | `parseInt` reads a rendered number back, whatever non-digit follows |
| JsText.IntToString | src/app/api/guest-application/route.ts:82 | `${n}` for an integer: a '-' for a negative one, then the decimal digits (read back by ParseIntOfIntToString) |
| JsText.ParseIntOfIntToString | src/app/api/guest-application/route.ts:82 | `parseInt` reads a rendered integer, negative ones included, back as that integer |
| JsText.ParseIntOfNegative | src/app/api/guest-application/route.ts:78 | `parseInt` of '-' and the digits of m is -m |
| JsText.NegativeSign | src/app/api/guest-application/route.ts:78 | a leading '-' makes `parseInt` negate what follows |
| JsText.ParseIntSkipsWhitespace | src/app/api/guest-application/route.ts:83 | leading whitespace does not change what `parseInt` reads |
| GuestApplication.HasGeneralAvailability | src/app/api/guest-application/route.ts:21-23 | a list counts when non-empty, a string when it is not blank |
| GuestApplication.RequiredPresent | src/app/api/guest-application/route.ts:25 | the seven required values are all present |
| GuestApplication.PlausibleEmail | src/app/api/guest-application/route.ts:33 | the address holds both '@' and '.' |
| GuestApplication.AvailabilityText | src/app/api/guest-application/route.ts:41-43 | a list joined with ", ", or the string itself |
| GuestApplication.IsComplete | src/app/api/guest-application/route.ts:54 | an entry with both a date and a time |
| GuestApplication.ValidSlots | src/app/api/guest-application/route.ts:53-54 | the kept entries are complete and come from the input; every complete entry is kept |
| GuestApplication.ValidSlotsAppend | src/app/api/guest-application/route.ts:54 | filtering distributes over concatenation, so input order is kept |
| GuestApplication.ValidSlotsOfOne | src/app/api/guest-application/route.ts:54 | a single entry is kept exactly when its date and time are both present |
| GuestApplication.Validate | src/app/api/guest-application/route.ts:21-62 | each of the four 400 messages is given exactly when its check fails and all the earlier checks pass, in source order; acceptance happens exactly when all four checks pass; the accepted availability is the joined text and the accepted slots are the complete entries |
| GuestApplication.TextAvailabilityPassesThirdCheck | src/app/api/guest-application/route.ts:40-50 | availability sent as a string is never rejected by the third check |
| GuestApplication.AvailabilityRejectedIff | src/app/api/guest-application/route.ts:40-50 | the third check rejects exactly a list of one blank entry (after the first two pass): a list of two or more always passes it |
| GuestApplication.JsRemainder | src/app/api/guest-application/route.ts:81 | JavaScript `%`: below the divisor in size; the Euclidean remainder for a non-negative dividend; for a negative one, 0 when the divisor divides it and the Euclidean remainder minus the divisor otherwise |
| GuestApplication.RemainderOfNegation | src/app/api/guest-application/route.ts:81 | negating the dividend gives the remainder of the same sign rule |
| GuestApplication.RemainderUnique | src/app/api/guest-application/route.ts:81 | a remainder in 0..b-1 is the Euclidean remainder |
| GuestApplication.Meridiem | src/app/api/guest-application/route.ts:80 | `hours >= 12 ? 'pm' : 'am'`, with NaN giving 'am' (read by TwelveHourClock) |
| GuestApplication.DisplayHours | src/app/api/guest-application/route.ts:81 | `hours % 12 \|\| 12`, with NaN giving 12 (read by TwelveHourClock) |
| GuestApplication.FormatTime | src/app/api/guest-application/route.ts:77-82 | display hour, ':', the second field or "undefined", a space and the suffix (read by FormatClockTime) |
| GuestApplication.TwelveHourClock | src/app/api/guest-application/route.ts:80-81 | for hours 0..23 the suffix is "pm" iff hours >= 12 and the display hour is hours mod 12 with 0 shown as 12, within 1..12 |
| GuestApplication.TwelveHourRoundTrip | src/app/api/guest-application/route.ts:80-82 | the 12-hour reading determines the hour of the day |
| GuestApplication.DecimalDigit | src/app/api/guest-application/route.ts:78 | the digit character of a value below 10 has that value |
| GuestApplication.TwoDigits | src/app/api/guest-application/route.ts:77-78 | a two-digit hour string reads back as the hour |
| GuestApplication.FormatClockTime | src/app/api/guest-application/route.ts:77-82 | an `HH:MM` time is printed as the 12-hour value, the minutes and the suffix |
| GuestApplication.NumberedLineParses | src/app/api/guest-application/route.ts:83 | an indented line that starts with a list number reads back as that number |
| GuestApplication.SlotLineRest | src/app/api/guest-application/route.ts:83 | the text after the number starts with '.' and ends with a newline |
| GuestApplication.SlotDescription | src/app/api/guest-application/route.ts:70-83 | the locale date ("Invalid Date" for a date that does not parse) and the 12-hour time; with string fields the `try` block does not throw |
| GuestApplication.SlotDescriptionIntended | src/app/api/guest-application/route.ts:84-86 | the intended reading of the fallback: the raw date and time when the date does not parse, and otherwise the same text as SlotDescription |
| GuestApplication.InvalidDateHidesRawValues | src/app/api/guest-application/route.ts:70-86 | for a date that does not parse and whose text does not start with 'I', the line as written reads "Invalid Date at" and the 12-hour time, where the intended fallback reads the raw date and time; the two differ |
| GuestApplication.UnparsableDateShowsInvalidDate | src/app/api/guest-application/route.ts:70-86 | the date "soon" with the time "10:30" shows the difference |
| GuestApplication.DescriptionsAgreeOnDates | src/app/api/guest-application/route.ts:70-83 | the two readings agree on every date that parses |
| GuestApplication.SlotLine | src/app/api/guest-application/route.ts:83-86 | two spaces, the 1-based list number and the rest of the line (read by SlotLineNumbered) |
| GuestApplication.SlotLines | src/app/api/guest-application/route.ts:68 | one line per kept slot, the line at index k numbered k + 1 |
| GuestApplication.SlotLineNumbered | src/app/api/guest-application/route.ts:83 | the line for index k reads back as number k + 1 and ends with a newline |
| GuestApplication.SlotLineInvalidDate | src/app/api/guest-application/route.ts:70-83 | a date that does not parse keeps its line, which shows "Invalid Date" and the 12-hour time |
| GuestApplication.SlotsText | src/app/api/guest-application/route.ts:65-89 | "" without slots, otherwise the header followed by the slot lines in order (computed by the loop FormatSlots) |
| GuestApplication.FormatSlots | src/app/api/guest-application/route.ts:65-89 | the `forEach` loop produces exactly the header followed by the numbered lines, and "" without slots |
| GuestApplication.BodyHead | src/app/api/guest-application/route.ts:92-112 | the text opens with the title "New Guest Application - Rooted & Radiant Podcast" |
| GuestApplication.SubmittedLine | src/app/api/guest-application/route.ts:113 | the last line is "Submitted on: " followed by the submission time |
| GuestApplication.EmailBody | src/app/api/guest-application/route.ts:92-114 | the trimmed template (its layout is stated by BodyLayout and BodyShowsFields) |
| GuestApplication.TemplateTrim | src/app/api/guest-application/route.ts:92-114 | trimming the template removes only its opening newline and trailing whitespace |
| GuestApplication.BodyLayout | src/app/api/guest-application/route.ts:92-114 | the trimmed body is the head followed by the submission line without trailing whitespace |
| GuestApplication.BodyShowsSlots | src/app/api/guest-application/route.ts:103 | the body holds the slot text, header and numbered lines, in full |
| GuestApplication.PhoneText | src/app/api/guest-application/route.ts:98 | `phoneNumber \|\| 'Not provided'` |
| GuestApplication.YesNo | src/app/api/guest-application/route.ts:109-110 | a consent flag printed as "Yes" or "No" |
| GuestApplication.OtherTimesText | src/app/api/guest-application/route.ts:103 | the "Other Availability Times" section when `otherTimes` is non-empty, and "" otherwise |
| GuestApplication.Subject | src/app/api/guest-application/route.ts:132 | "New Guest Application from " and the applicant's name, for both providers |
| GuestApplication.BodyShowsFields | src/app/api/guest-application/route.ts:98-110 | the body holds the phone line ("Not provided" when absent), the availability line and both consent lines as "Yes"/"No" |
| GuestApplication.ProviderRequest | src/app/api/guest-application/route.ts:118-168 | Resend exactly when a key is set; the reply-to or sender address is the applicant's; the text is the body; FormSubmit has no captcha |
| GuestApplication.Post | src/app/api/guest-application/route.ts:3-189 | unreadable JSON gives 500 with nothing sent; a rejection gives 400 with its message and nothing sent; an accepted form sends exactly one provider request with the formatted body, then answers 200 with the thank-you message iff the provider answered ok, and 500 otherwise |
| Subscribe.AcceptableEmail | src/app/api/subscribe/route.ts:9 | a string that is non-empty and holds '@' |
| Subscribe.SubscribersUrl | src/app/api/subscribe/route.ts:31 | the subscribers endpoint of the configured group |
| Subscribe.JsonDetail | src/app/api/subscribe/route.ts:60-61 | the detail is the first non-empty of `error.message`, `message` and the serialisation |
| Subscribe.FailureAsWritten | src/app/api/subscribe/route.ts:56-91 | as written, every non-ok status other than 409 gives 500, and the "Failed to subscribe: " prefix appears exactly for a JSON error body (see Findings) |
| Subscribe.Failure | src/app/api/subscribe/route.ts:56-74 | a failure answer is 500 and starts with "Failed to subscribe: ", followed by the JSON detail, the provider's text, or "Failed to subscribe" |
| Subscribe.NonJsonFailureLosesDetail | src/app/api/subscribe/route.ts:58-65 | for a non-JSON error body the code as written answers the generic error without the prefix; the corrected answer keeps it |
| Subscribe.FailureAgreesOnJson | src/app/api/subscribe/route.ts:58-61 | the as-written and corrected answers agree on every JSON error body |
| Subscribe.Post | src/app/api/subscribe/route.ts:5-93 | the handler as written: 400 exactly for a missing, non-string or '@'-less email; 500 "not configured" exactly when the email passes and a key or group is missing; a request is made exactly when both pass, to the group's subscribers URL, with `resubscribe` and type "active"; then 409 gives 200 "already subscribed", ok gives 200, any other status gives 500 with the prefix and the JSON detail, or the generic error when the error body is not JSON; a failed fetch gives 500 |
| Subscribe.Handle | src/app/api/subscribe/route.ts:5-93 | the handler with the answer to a failed call as a parameter; Post and PostCorrected state what it does |
| Subscribe.PostCorrected | src/app/api/subscribe/route.ts:5-93 | the same handler with the corrected failure answer: every other failed status gives 500 behind "Failed to subscribe: " |
| Subscribe.PostsDifferOnTextErrors | src/app/api/subscribe/route.ts:56-65 | the two handlers differ exactly when a request was made and MailerLite failed with a status other than 409 and an error body that is not JSON |
| YouTubeEmbed.IsIdChar | src/components/YouTubeEmbed.tsx:19 | the class `[a-zA-Z0-9_-]` |
| YouTubeEmbed.AlternativeAt | src/components/YouTubeEmbed.tsx:25 | one alternative of the URL pattern, followed by eleven id characters, at a position |
| YouTubeEmbed.IsVideoId | src/components/YouTubeEmbed.tsx:19 | eleven characters from `[a-zA-Z0-9_-]` |
| YouTubeEmbed.FirstAlternative | src/components/YouTubeEmbed.tsx:25 | no group exactly when no alternative matches at the position; a captured group is an id |
| YouTubeEmbed.FirstAlternativePicks | src/components/YouTubeEmbed.tsx:25 | the first matching alternative, in the pattern's order, supplies the group |
| YouTubeEmbed.MatchAt | src/components/YouTubeEmbed.tsx:25 | a group captured at a position is an id |
| YouTubeEmbed.SearchFrom | src/components/YouTubeEmbed.tsx:30 | the search fails exactly when no position matches; what it finds is an id |
| YouTubeEmbed.SearchFindsFirst | src/components/YouTubeEmbed.tsx:30 | the search reports the leftmost matching position |
| YouTubeEmbed.GroupOf | src/components/YouTubeEmbed.tsx:30-31 | what either pattern captures is an id |
| YouTubeEmbed.FirstMatch | src/components/YouTubeEmbed.tsx:29-34 | the loop finds nothing exactly when no pattern matches; what it finds is an id |
| YouTubeEmbed.ExtractVideoId | src/components/YouTubeEmbed.tsx:17-38 | an id is returned unchanged; otherwise the result is the group of the leftmost URL match, or the input when there is none; so the result is always the input or an id |
| YouTubeEmbed.ExtractIdempotent | src/components/YouTubeEmbed.tsx:17-38 | extracting twice equals extracting once |
| YouTubeEmbed.ExtractLeftmost | src/components/YouTubeEmbed.tsx:25-34 | a non-id input yields the group of its leftmost match |
| YouTubeEmbed.PrefixFacts | src/components/YouTubeEmbed.tsx:25 | every alternative starts with 'y', and the alternatives differ at their sixth or thirteenth character |
| YouTubeEmbed.CharOfMatch | src/components/YouTubeEmbed.tsx:25 | a position inside a matched literal holds the literal's character |
| YouTubeEmbed.AlternativesExclusive | src/components/YouTubeEmbed.tsx:25 | no two alternatives match at the same position |
| YouTubeEmbed.NoAlternativeWithoutY | src/components/YouTubeEmbed.tsx:25 | nothing matches at a character other than 'y' |
| YouTubeEmbed.NoMatchBefore | src/components/YouTubeEmbed.tsx:25 | nothing matches within a stretch without 'y' |
| YouTubeEmbed.MatchAfterLead | src/components/YouTubeEmbed.tsx:25 | a URL prefix followed by an id captures that id, whatever follows |
| YouTubeEmbed.ExtractAfterPrefix | src/components/YouTubeEmbed.tsx:25-34 | text without 'y', then a URL prefix, then an id, yields that id |
| YouTubeEmbed.PlayerUrl | src/components/YouTubeEmbed.tsx:47 | the embed URL `https://www.youtube.com/embed/<id>?rel=0` (read back by PlayerUrlRoundTrip) |
| YouTubeEmbed.EmbedSrc | src/components/YouTubeEmbed.tsx:41-47 | the iframe source for the extracted id (read back by EmbedSrcRoundTrip) |
| YouTubeEmbed.PlayerUrlRoundTrip | src/components/YouTubeEmbed.tsx:47 | the id extracted from a player URL is the id it was built from |
| YouTubeEmbed.EmbedSrcRoundTrip | src/components/YouTubeEmbed.tsx:41-47 | the player URL extracts back to the id the component used |
| GuestForm.TimeSlotOptions | src/app/page.tsx:38-63 | 4 slots for Weekdays, 2 for Weeknights, 5 for Weekends, none otherwise; all non-empty and pairwise distinct |
| GuestForm.EveryChoiceOffersSlots | src/app/page.tsx:384 | every availability button except "I'm flexible" offers a time slot |
| GuestForm.RequiredFilled | src/app/page.tsx:217-219 | the five required texts are non-empty and both consent boxes are ticked |
| GuestForm.CheckMessage | src/app/page.tsx:217-243 | each of the four client messages appears exactly under its condition, in handler order, with the first failure deciding |
| GuestForm.ShapePayload | src/app/page.tsx:254-259 | when flexible, the time slot is blanked and the notes kept; otherwise the notes are blanked and the slot kept; no other field changes |
| GuestForm.ShapePayloadStable | src/app/page.tsx:257-258 | shaping is idempotent and keeps a passing form passing |
| GuestForm.OfferedSlotPasses | src/app/page.tsx:408-421 | choosing any offered slot settles the last check |
| GuestForm.GuestApplicationForm.constructor | src/app/page.tsx:17-30 | all ten fields empty or false, status idle, no message |
| GuestForm.GuestApplicationForm.ChangeAvailability | src/app/page.tsx:391-396 | sets the availability, resets the time slot and changes nothing else |
| GuestForm.GuestApplicationForm.ChooseTimeSlot | src/app/page.tsx:421 | sets the time slot and changes nothing else; the slot stays one that is offered |
| GuestForm.GuestApplicationForm.Submit | src/app/page.tsx:213-259 | the first failing check sets 'error' with its message and sends nothing; otherwise status 'loading', message cleared, and the shaped fields are sent; the fields never change |
| GuestForm.GuestApplicationForm.Receive | src/app/page.tsx:262-287 | ok gives 'success', the route's message or the thank-you message, and the empty form; non-ok gives 'error' with the route's error or the retry message; an exception gives 'error' with "try again later"; the fields change only on success |
| FormStatus.OrElse | src/app/page.tsx:266 | `a \|\| b` for strings |
| NewsletterForm.Rejects | src/app/page.tsx:580 | the address is empty or holds no '@' |
| NewsletterForm.SignUpForm.constructor | src/app/page.tsx:12-14 | empty email, status idle, no message |
| NewsletterForm.SignUpForm.SetEmail | src/app/page.tsx:619 | sets the email and nothing else |
| NewsletterForm.SignUpForm.Submit | src/app/page.tsx:578-587 | an empty or '@'-less email gives 'error' and sends nothing; otherwise status 'loading', message cleared, and the email is sent |
| NewsletterForm.SignUpForm.Receive | src/app/page.tsx:589-611 | ok gives 'success', the route's message or "Thank you for subscribing!", and clears the email; non-ok or an exception gives 'error' with the matching message |
| ClientServer.AsSubmission | src/app/page.tsx:254-259 | the guest form's body carries availability as a string, no date/time selections and no other times |
| ClientServer.GuestFormAlwaysRejected | src/app/api/guest-application/route.ts:53-62 | every guest form body that passes the client's checks is rejected by the route: blank availability fails the required fields, an address without '.' fails the email check, and everything else fails the date/time check |
| ClientServer.NewsletterEmailAccepted | src/app/api/subscribe/route.ts:9 | an address the newsletter form sends passes the route's email check |
| ClientServer.NewsletterChecksAgree | src/app/page.tsx:580 | the newsletter form rejects exactly the addresses the route rejects |

## Left out

- The network calls to Resend, FormSubmit and MailerLite, and `request.json()`. They are not modelled as I/O. What they return is an input to each handler (a provider reply, or an unreadable body).
- `new Date(...)`, `toLocaleDateString` and `toLocaleString`. They depend on locale and time zone. The model takes the date formatter as a function parameter and the time stamp as a string.
- JSON values of the wrong type. The model uses strings, booleans and lists of strings only. In the source, such values behave in different ways. A non-zero number as `email` throws at `includes`, a non-zero number as `generalAvailability` throws at `trim`, and in both cases the outer `catch` answers 500; zero is falsy, so the first check answers 400 for it. Non-string list items are coerced by `join` (`[null]` joins to "", which the third check rejects). A non-string date is coerced into the date text: a year such as 2024 still parses ("2024T10:30" is a valid date-time string), and most other values give "Invalid Date".
- GuestApplication.SlotDescription: the per-slot `catch` at src/app/api/guest-application/route.ts:84-86 is reached only when `dt.time` is not a string, as `split` then throws. With the string fields modelled here it is never reached. SlotDescriptionIntended states what that fallback is meant to print.
- GuestApplication.InvalidDateHidesRawValues: the difference between the two readings is proved only for date text that does not start with 'I'. Date text that does start with 'I' also gives two different lines, but showing that needs an argument about where the colons fall in the time, so it is not part of the model.
- Console logging, React rendering, styling, scrolling, the fade-in observer, the audio player and the page layout.
- The plain text-field setters of the guest form (name, email, phone, contact method, testimony, notes, consent boxes). Each is `setGuestForm({...guestForm, x: value})` and proves nothing beyond assignment.
- Concurrency between a pending request and further edits. React batches state updates; the model treats `Submit` and `Receive` as the two halves of one handler.
- Subscribe.FailureAsWritten: a failed reply without a body (a 304) is reported as the generic error, while the source, which then reads "" from `text()`, answers "Failed to subscribe: Failed to subscribe".
- Subscribe.Handle, JsText.IsWhitespace, JsText.Contains, JsText.ParseUnsigned, GuestApplication.PhoneText, GuestApplication.YesNo, GuestApplication.OtherTimesText, GuestApplication.Subject, Subscribe.SubscribersUrl, YouTubeEmbed.IsIdChar and YouTubeEmbed.AlternativeAt are definitions whose properties are stated by the members that use them.
- GuestApplication.FormatTime, GuestApplication.SlotDescription, GuestApplication.SlotLine, GuestApplication.SlotsText, GuestApplication.EmailBody, JsText.ParseInt, JsText.IntToString, YouTubeEmbed.PlayerUrl and YouTubeEmbed.EmbedSrc: no ensures of their own; the lemmas named in their rows state their properties.
- ParseInt works on unbounded integers. JavaScript's double precision, which only matters beyond 2^53, is not modelled.

## Findings

| source | as written | input that shows it | evidently intended | confidence | as-written member | corrected member |
|---|---|---|---|---|---|---|
| src/app/api/subscribe/route.ts:58-65 | a non-JSON error body is first consumed by `json()`, so the `text()` fallback rejects because the body was already read; the outer `catch` then answers 500 "Something went wrong. Please try again later." | MailerLite answers 502 with the text body "Bad Gateway" | 500 "Failed to subscribe: Bad Gateway", the provider's text (or "Failed to subscribe") behind the prefix | medium, not executed; depends on the Fetch rule that a body can be read once | Subscribe.FailureAsWritten, Subscribe.Post, Subscribe.NonJsonFailureLosesDetail, Subscribe.PostsDifferOnTextErrors | Subscribe.Failure, Subscribe.PostCorrected |
| src/app/api/guest-application/route.ts:69-86 | `new Date(...)` and `toLocaleDateString` do not throw for a date that does not parse. They give "Invalid Date", so the `catch` meant as the "date parsing fails" fallback is not reached, and the line prints "Invalid Date at" and the 12-hour time | the date "soon" with the time "10:30" | the fallback line with the raw values, "  1. soon at 10:30" | high, not executed; `toLocaleDateString` of an invalid Date is "Invalid Date" by the ECMAScript internationalisation API | GuestApplication.SlotDescription, GuestApplication.InvalidDateHidesRawValues, GuestApplication.UnparsableDateShowsInvalidDate | GuestApplication.SlotDescriptionIntended |
