# Admin console core, modelled in Dafny

The admin console is a React front end for a home-services backend. Its
behaviour that does not depend on the screen lives in a few places, and this
project models those places as pure functions over immutable data:

- **the form-validation engine** (`useFormValidation`). It holds a constant
  table of field rules and a first-failure chain that turns a field value into
  one Arabic message, or `""` when the value passes. Whole-form validation can
  also check an optional cover picture. Typing into a field clears that field's
  error.
- **the API client** (`api.js`). This covers:
  - the request headers;
  - how a fetch outcome becomes a returned body or a thrown message;
  - the translation table for server messages and the status-code phrases;
  - the activity log kept in local storage, capped at fifty entries;
  - relative-time labels;
  - the user read from the claims of the stored bearer token.
- **the authentication context**: start-up, `login`, `logout` and `updateUser`.
  The context, the two local-storage slots and the API client's token are
  modelled as one record.
- **the one-time-code screen**: six single-digit slots, typing, Backspace,
  paste, and the submit decision.
- **the add-service screen**: picture selection with type and size checks and
  one preview per picture, removing a picture, and the submit decision.
- **the search screens** (FAQ, services, charge codes). All three are instances
  of one order-preserving filter (`Filtering.Filter`). The module also covers
  the FAQ expand/collapse map and the card numbering of the codes screen.
- **the dashboard home**: the counters with their fallbacks, the five most
  recent activities with their icon and colour, the role label, and the total
  number of users.

JavaScript's `undefined`/`null` appear as `Option`, and truthiness as the
predicates `Truthy` and `TruthyNumber`. Spreading one object into another is
map union. The clock, the network, local storage and token decoding are not
called: they are parameters or input records.

Modules: `JsValues`, `Text`, `FormValidation` and `FormValidationProperties`,
`Api` and `ApiProperties`, `AuthContext`, `VerifyOtp`, `AddService`,
`Filtering`, `Faq`, `Services`, `Codes` and `Home`. There is one `.dfy` file
per module.

Three details of `request` worth knowing:

- A failed request whose body is JSON `null` falls back to the raw text, as
  the `catch` at api.js:53-58 does for a body that is not JSON.
- A successful JSON response whose body does not parse throws the parse error
  (api.js:70-72) rather than returning anything.
- A server message that is literally "Failed to fetch" is also turned into
  the connection-failure message, because the outer `catch` (api.js:78-85)
  sees it like a network rejection.

## Model

| member | source | states |
|---|---|---|
| JsValues.Or | src/services/api.js:397-402 | `a \|\| b` on optional strings: the first operand when truthy, else the second; the result is truthy iff either operand is |
| JsValues.OrElse | src/hooks/useFormValidation.jsx:97 | `a \|\| "literal"` is never empty: the operand when truthy, otherwise the literal |
| JsValues.OrNumber | src/components/dashboard/Home.jsx:229-236 | `n \|\| fallback` on counters: the result is non-zero iff the number or the fallback is, so a non-zero fallback never yields `0`; a non-zero number wins over the fallback |
| Text.Lower | src/components/dashboard/Services.jsx:186-189 | `toLowerCase` keeps the length and folds each ASCII capital to its small letter, position by position |
| Text.LowerIdempotent | src/components/dashboard/Home.jsx:133-134 | lower-casing twice is lower-casing once |
| Text.LowerSlice | src/services/api.js:113-122 | lower-casing commutes with taking a slice |
| Text.ContainsEmpty | src/components/dashboard/Services.jsx:186-189 | `includes("")` holds for every text |
| Text.ContainsSelf | src/components/dashboard/Services.jsx:186-189 | every text includes itself |
| Text.ContainsTransitive | src/components/dashboard/Codes.jsx:73-76 | if a includes b and b includes c then a includes c |
| Text.LowerPreservesContains | src/components/dashboard/FAQ.jsx:138-143 | an occurrence survives lower-casing both sides |
| Text.ContainsIgnoringCaseNarrows | src/components/dashboard/FAQ.jsx:138-143 | a text that matches a search term also matches every part of that term |
| Text.NatToString | src/hooks/useFormValidation.jsx:92-95 | the decimal rendering of a number is a non-empty digit string without a leading zero |
| Text.NatToStringRoundTrip | src/hooks/useFormValidation.jsx:92-95 | reading the decimal rendering back gives the number (round trip) |
| Text.NatToStringInjective | src/components/dashboard/Codes.jsx:73-76 | different numbers render differently |
| Text.IntToString | src/components/dashboard/Codes.jsx:75 | `id.toString()` is non-empty, starts with a minus sign iff the number is negative, and is otherwise made of digits |
| Text.IntToStringRoundTrip | src/components/dashboard/Codes.jsx:75 | reading the sign and the digits back gives the number (round trip) |
| Text.IntToStringInjective | src/components/dashboard/Codes.jsx:73-76 | different identifiers render differently, so an id search cannot confuse two ids of equal text |
| Text.LeadingSpaces | src/components/dashboard/AddService.jsx:121-122 | the leading run counted by `trim` is all white space and ends at a non-space |
| Text.TrailingSpaces | src/components/dashboard/AddService.jsx:121-122 | the trailing run counted by `trim` is all white space and starts after a non-space |
| Text.Trim | src/components/dashboard/AddService.jsx:121-122 | `trim()` gives a slice of the input with no white space at either end, white space being the ECMAScript set of WhiteSpace and LineTerminator characters; it is empty iff the input is all white space |
| FormValidation.ValidateField | src/hooks/useFormValidation.jsx:84-112 | a field without a rule is always accepted; any message produced is one of that rule's own messages |
| FormValidation.HandleChange | src/hooks/useFormValidation.jsx:114-122 | typing stores the value, keeps every other value, blanks that field's error if it had one and leaves every other error alone |
| FormValidation.ClearErrors | src/hooks/useFormValidation.jsx:144-146 | `clearErrors` removes every error and keeps the values |
| FormValidation.CollectErrors | src/hooks/useFormValidation.jsx:127-132 | the loop over the fields stores exactly one message per field, and its verdict is true iff every message is empty |
| FormValidation.ValidateAll | src/hooks/useFormValidation.jsx:124-142 | the loop over the form stores one message per field, plus the cover verdict when a file argument is passed; the result is true iff no field fails |
| FormValidationProperties.RequiredWins | src/hooks/useFormValidation.jsx:90-91 | an empty or missing value of any ruled field gets the required message, whatever the other rules say |
| FormValidationProperties.LengthCheckedBeforePattern | src/hooks/useFormValidation.jsx:92-97 | a value that is non-empty but too short gets the length message, before any pattern is checked |
| FormValidationProperties.ShortPasswordReportsLength | src/hooks/useFormValidation.jsx:33-40 | the password "abc" is reported as shorter than 8 characters, not with the password-pattern message |
| FormValidationProperties.PatternVerdict | src/hooks/useFormValidation.jsx:21-65 | for email, phone, otp, password and new password, a non-empty value passes iff it matches the field's regular expression; a long enough mismatch gets the rule's own message |
| FormValidationProperties.PlainPatternVerdict | src/hooks/useFormValidation.jsx:21-65 | for e-mail, phone and code (no length bound), a non-empty value passes iff it matches the pattern, and a mismatch gets the rule's message |
| FormValidationProperties.PasswordVerdict | src/hooks/useFormValidation.jsx:33-48 | a non-empty password or new password passes iff it is strong; a weak one of eight or more characters gets the rule's message |
| FormValidationProperties.LengthVerdict | src/hooks/useFormValidation.jsx:9-77 | for the length-only fields, a non-empty value passes iff its length lies within the rule's bounds, inclusive |
| FormValidationProperties.ConfirmVerdict | src/hooks/useFormValidation.jsx:104-109 | a confirmation is compared with `password` when the form has it, otherwise with `newPassword`; it passes iff equal, and otherwise gets the mismatch message |
| FormValidationProperties.CoverVerdict | src/hooks/useFormValidation.jsx:78-81 | the cover passes iff something truthy was given |
| FormValidationProperties.EmailExamples | src/hooks/useFormValidation.jsx:24 | the e-mail pattern accepts "a@b.co" and rejects "not-an-email" |
| FormValidationProperties.PhoneAndOtpExamples | src/hooks/useFormValidation.jsx:30 | eleven digits are a phone number and ten are not; six digits are a code, but five digits and a letter are not |
| FormValidationProperties.PasswordExamples | src/hooks/useFormValidation.jsx:37 | "abcd123!" (letters, digits and a symbol, eight characters) is a strong password |
| FormValidationProperties.WeakPasswordExamples | src/hooks/useFormValidation.jsx:37 | letters only, or any character outside the allowed set, make a password weak |
| FormValidationProperties.ErrorMapKeys | src/hooks/useFormValidation.jsx:124-138 | the error map has exactly the form's fields, plus `cover` iff a file argument was passed |
| FormValidationProperties.NullCoverRejected | src/hooks/useFormValidation.jsx:134-138 | passing `null` still validates the cover, which fails as required |
| FormValidationProperties.ValidIffNoMessage | src/hooks/useFormValidation.jsx:124-142 | a valid verdict leaves no message; when the file entry does not overwrite a form field, the converse holds too |
| FormValidationProperties.CoverEntryOverwritten | src/hooks/useFormValidation.jsx:127-138 | a failing `cover` form field that a passed file overwrites makes the verdict invalid, though the error map shows no message |
| FormValidationProperties.RegistrationWithShortPasswordRejected | src/hooks/useFormValidation.jsx:124-142 | a form with password "abc" never validates, and its error map holds the length message |
| Api.AuthHeaders | src/services/api.js:12-22 | always the JSON content type; an `Authorization: Bearer <token>` header iff a token is set; nothing else |
| Api.RequestHeaders | src/services/api.js:26-32 | caller headers replace the defaults entirely (the later spread of `options` wins); absent caller headers, the defaults are sent |
| Api.RegisterSendsNoHeaders | src/services/api.js:155-159 | registration sends no content type and no bearer token, whatever token is set |
| Api.FirstMatchFrom | src/services/api.js:113-122 | the lookup finds the first table entry, in declaration order, whose key applies to the message, or reports that none applies |
| Api.Translate | src/services/api.js:88-123 | the message is replaced by the translation of the first applicable key; it comes back unchanged when no key applies; a non-empty message never becomes empty |
| Api.TranslatedTextsNonEmpty | src/services/api.js:89-110 | every key has a translation, and no translation is empty |
| Api.TranslateUserNotFound | src/services/api.js:89-122 | "User not found" gets the translation of its own key, the fourth in the table |
| Api.NotFoundKeyAlsoApplies | src/services/api.js:93-122 | the later key "Not found" also applies to "User not found", so only the table order picks the right translation |
| Api.TranslateDuplicateUserName | src/services/api.js:90 | the backend code "DuplicateUserName" is translated |
| Api.KeyMissingCharacter | src/services/api.js:115-118 | a key containing a letter the message lacks, ignoring case, cannot apply to the message |
| Api.LowerFailedToFetch | src/services/api.js:80 | the connection error text, lower-cased, is "failed to fetch" |
| Api.FailedToFetchMissesEveryKey | src/services/api.js:89-122 | every key has a letter that "failed to fetch" lacks, so no key applies to it |
| Api.TranslateFailedToFetch | src/services/api.js:88-123 | no key applies to "Failed to fetch", so translation leaves it unchanged |
| Api.StatusText | src/services/api.js:125-140 | a listed status gets its own table phrase; every other status gets the unknown-error phrase, and no phrase is empty |
| Api.StatusTextsListed | src/services/api.js:126-137 | the table lists exactly 400, 401, 403, 404, 413, 415, 422, 500, 502 and 503, each with a non-empty phrase other than the unknown-error one |
| Api.StatusTextExamples | src/services/api.js:130-139 | 404 is "غير موجود", 500 is "خطأ في الخادم", and an unlisted 418 is the unknown-error phrase |
| Api.StatusFallback | src/services/api.js:57-62 | the fallback message is the error word, the status as `toString` renders it, a colon and a space, then the status phrase |
| Api.StatusFallbackIdentifiesStatus | src/services/api.js:57-62 | different statuses give different fallback messages: the status can be read back |
| Api.ErrorMessage | src/services/api.js:40-63 | an unreadable body gives the status fallback; the message is never empty, except for a JSON body with empty text, which `JSON.parse` never accepts |
| Api.SuccessOutcome | src/services/api.js:68-77 | a 2xx response throws only when its body cannot be read or a JSON content type carries unparsable text; otherwise it returns the parsed JSON, or `{ message: text }` for other content types |
| Api.Attempt | src/services/api.js:34-77 | only a 2xx response returns; a rejection throws its own reason, and a failed response throws its error message |
| Api.Request | src/services/api.js:24-86 | "Failed to fetch" never escapes: it becomes the connection-failure message, and every other error passes through; a request returns iff its `try` block does, and only for a 2xx response |
| Api.NewActivity | src/services/api.js:296-306 | the entry has the given kind, title and details and the clock reading as id and time; a signed-in user's id and "first last" name are recorded; a signed-out user's entry has no user id and the name "undefined undefined" |
| Api.LogActivity | src/services/api.js:308-313 | the new entry goes first, the older entries follow in order, and the log is cut to fifty |
| Api.LogStaysCapped | src/services/api.js:308-313 | however many activities are logged, the log never exceeds fifty, and the newest entry heads it |
| Api.AgoOf | src/services/api.js:338-357 | the time label picks exactly one bucket: minutes 1-59, hours 1-23, days 1-6, weeks 1-3, or months as whole days over thirty; under a minute (or in the future) is "now" |
| Api.TimeAgo | src/services/api.js:338-357 | the label is "now" exactly under a minute; any other label is "ago", the bucket's count in decimal, a space and the bucket's unit word |
| Api.ZeroMonthsAfterFourWeeks | src/services/api.js:352-356 | an activity 28 or 29 days old falls in the months bucket with count 0 and is labelled "منذ 0 شهر" |
| Api.IndexOf | src/services/api.js:370 | finds the first occurrence of a character, or reports that it is absent |
| Api.PayloadSegment | src/services/api.js:370 | `split(".")[1]` is the dot-free text right after the first dot, running to the next dot or to the end; it is missing iff the token has no dot |
| Api.DecodeToken | src/services/api.js:368-386 | a token without a dot decodes to nothing; otherwise the result is the decoding of its payload segment |
| Api.UserOfClaims | src/services/api.js:396-404 | the user has exactly the seven fields; `sub`, `given_name`, `family_name` and `phone_number` win over their fallbacks when truthy |
| Api.CurrentUser | src/services/api.js:389-405 | there is a user iff a truthy token is stored and decodes, and that user is the one built from its claims |
| Api.InitialToken | src/services/api.js:360-365 | at load, the client takes the stored token iff it is truthy |
| ApiProperties.Render500 | src/services/api.js:56-63 | the status 500 is rendered "500" in the fallback message |
| ApiProperties.Render404 | src/services/api.js:56-63 | the status 404 is rendered "404" in the fallback message |
| ApiProperties.Fallback500 | src/services/api.js:56-63 | the fallback message for status 500 is "خطأ 500: خطأ في الخادم" |
| ApiProperties.TranslateEmpty | src/services/api.js:113-122 | no key applies to the empty message, which translates to itself |
| ApiProperties.EmptyBody500 | src/services/api.js:43-64 | a failed 500 with an empty body throws "خطأ 500: خطأ في الخادم" |
| ApiProperties.UnreadableBody404 | src/services/api.js:43-64 | a failed 404 whose body cannot be read throws "خطأ 404: غير موجود" |
| ApiProperties.FailureMessageNonEmpty | src/services/api.js:38-65 | every failed response throws, and the thrown message is never empty |
| ApiProperties.JsonFailureMessage | src/services/api.js:46-52 | a failed response with a JSON body throws the translation of the first truthy of `[0].code`, `.message`, `.error` and the raw text |
| ApiProperties.NullJsonTreatedAsText | src/services/api.js:46-60 | a JSON `null` error body is handled like a body that is not JSON |
| ApiProperties.DuplicateUserNameNormalised | src/services/api.js:47-52 | "DuplicateUserName" as the code, as the message, or as the raw text all throw the same Arabic message |
| ApiProperties.NetworkRejection | src/services/api.js:78-85 | a network rejection throws its own message, except "Failed to fetch", which becomes the connection-failure message |
| ApiProperties.ServerTextFailedToFetch | src/services/api.js:56-85 | a server error whose text is "Failed to fetch" is also reported as a connection failure |
| ApiProperties.SuccessfulBodies | src/services/api.js:68-77 | a successful JSON response returns the parsed body; any other content type returns `{ message: text }` |
| AuthContext.Loaded | src/services/api.js:360-365 | before start-up no user is set, loading is on, and the client holds the stored token iff it is truthy |
| AuthContext.Init | src/context/AuthContext.jsx:18-34 | a stored token that decodes signs its user in and goes to the client; one that does not is removed with the stored user; loading always ends |
| AuthContext.Login | src/context/AuthContext.jsx:36-54 | login always authenticates, and the stored user is the new user; a token is stored and handed to the client, and the user is decoded from it (falling back to the response); without a token, token state is untouched |
| AuthContext.Logout | src/context/AuthContext.jsx:56-61 | logout signs out, empties both storage slots and drops the client token |
| AuthContext.UpdateUser | src/context/AuthContext.jsx:63-67 | the supplied properties win, the others are kept, the stored user is the new user, and tokens are untouched |
| AuthContext.TokensStayInStep | src/context/AuthContext.jsx:18-67 | login, logout, update and a start-up with a decodable token keep the client token equal to the stored token |
| AuthContext.UndecodableTokenOutlivesStartUp | src/context/AuthContext.jsx:21-31 | a stored token that does not decode is removed from storage, yet the client still sends it |
| AuthContext.LoginThenLogout | src/context/AuthContext.jsx:36-61 | after login and then logout nothing of the session remains |
| AuthContext.UpdateWhileSignedOut | src/context/AuthContext.jsx:63-67 | an update while signed out signs in a user made of exactly the supplied properties |
| VerifyOtp.Initial | src/components/auth/VerifyOTP.jsx:14-15 | six empty slots and no error |
| VerifyOtp.Change | src/components/auth/VerifyOTP.jsx:26-39 | a non-empty value that is not one digit is ignored; otherwise only that slot changes, and the error clears |
| VerifyOtp.KeyDown | src/components/auth/VerifyOTP.jsx:41-54 | only Backspace acts; on an empty slot after the first it changes nothing, otherwise it empties that slot and clears the error |
| VerifyOtp.Singles | src/components/auth/VerifyOTP.jsx:62 | `split('')` gives one one-character slot per character, in order |
| VerifyOtp.Paste | src/components/auth/VerifyOTP.jsx:56-68 | exactly six digits fill the six slots in order and clear the error; anything else changes nothing |
| VerifyOtp.Submit | src/components/auth/VerifyOTP.jsx:70-84 | the code is sent iff the joined slots are six digits, and what is sent is the joined code; otherwise the incomplete or digits-only message is shown |
| VerifyOtp.VerificationFailed | src/components/auth/VerifyOTP.jsx:98-104 | a rejected code empties every slot and shows the wrong-code message |
| VerifyOtp.VerificationFailedNotice | src/components/auth/VerifyOTP.jsx:100 | the pop-up is never blank: it shows the server's message when that is non-empty, and the wrong-code message otherwise |
| VerifyOtp.Resent | src/components/auth/VerifyOTP.jsx:110-124 | a successful resend empties the slots and clears the error; a failed one changes nothing |
| VerifyOtp.ResendFailedNotice | src/components/auth/VerifyOTP.jsx:120 | the pop-up is never blank: it shows the server's message when that is non-empty, and the resend-failed message otherwise |
| VerifyOtp.TransitionsPreserveWellFormed | src/components/auth/VerifyOTP.jsx:26-124 | every transition keeps six slots, each empty or a single digit |
| VerifyOtp.JoinOfSlots | src/components/auth/VerifyOTP.jsx:73 | joining well-formed slots gives a digit string with one character per filled slot |
| VerifyOtp.FilledAll | src/components/auth/VerifyOTP.jsx:73-74 | the filled count equals the slot count iff no slot is empty |
| VerifyOtp.SubmitOnWellFormed | src/components/auth/VerifyOTP.jsx:70-84 | from any reachable state the code is sent iff every slot is filled, and the digits-only message can never appear |
| VerifyOtp.JoinSingles | src/components/auth/VerifyOTP.jsx:62-73 | joining the split slots gives the text back (round trip) |
| VerifyOtp.PasteThenSubmit | src/components/auth/VerifyOTP.jsx:56-84 | pasting six digits and submitting sends exactly the pasted code |
| AddService.Initial | src/components/dashboard/AddService.jsx:11-18 | empty name and description, no errors, no picture and no preview |
| AddService.Previews | src/components/dashboard/AddService.jsx:50 | one preview per file, in order |
| AddService.HandleFileChange | src/components/dashboard/AddService.jsx:20-57 | an empty selection drops the pictures; a wrong type (checked first) or an oversized file is refused with its notice and changes nothing; otherwise the files and their previews are taken, and a showing picture error clears all errors |
| AddService.RemoveAt | src/components/dashboard/AddService.jsx:61-62 | filtering out index i drops exactly that element and keeps the order; an index outside the list drops nothing |
| AddService.RemoveImage | src/components/dashboard/AddService.jsx:59-81 | without pictures nothing happens; otherwise the picture and its preview go, and removing the last one leaves no pictures |
| AddService.RemoveAtPreviews | src/components/dashboard/AddService.jsx:61-62 | removing a picture's preview is making the previews of the remaining pictures |
| AddService.FileOperationsPreserveSync | src/components/dashboard/AddService.jsx:20-81 | choosing and removing pictures keep exactly one preview per picture, in order |
| AddService.ValidPicturesClearAllErrors | src/components/dashboard/AddService.jsx:54-56 | valid pictures chosen while the picture error shows also clear the name and description errors |
| AddService.SizeBoundary | src/components/dashboard/AddService.jsx:39-45 | a picture of exactly 5 MB is accepted, and one byte more is refused |
| AddService.TypeCheckedFirst | src/components/dashboard/AddService.jsx:30-45 | a file that is both the wrong type and too large gets the type notice |
| AddService.CoverArgument | src/components/dashboard/AddService.jsx:107 | the validator receives `null` without pictures, else a list with the number of pictures |
| AddService.Submit | src/components/dashboard/AddService.jsx:103-124 | validation with the pictures fills the error map; a service is created iff the form validates and there is a picture, with trimmed name and description |
| AddService.NoPictureMeansInvalid | src/components/dashboard/AddService.jsx:107-116 | without pictures validation already fails, so the separate no-picture notice is never reached |
| AddService.AfterCreated | src/components/dashboard/AddService.jsx:83-101 | after a creation the screen is back to its initial state |
| AddService.CreatedNotice | src/components/dashboard/AddService.jsx:127 | the success notice contains the name as typed |
| AddService.CreateFailed | src/components/dashboard/AddService.jsx:134 | the pop-up is never blank: it shows the server's message when that is non-empty, and a generic failure message otherwise |
| Filtering.Filter | src/components/dashboard/Services.jsx:186-189 | the result is no longer than the list, keeps only passing elements, and keeps every passing element |
| Filtering.ShiftPicks | src/components/dashboard/Services.jsx:186-189 | positions picked in the tail, shifted by one, are positions picked in the whole list |
| Filtering.ShiftMembers | src/components/dashboard/Services.jsx:186-189 | after shifting, a position is picked iff its element passes |
| Filtering.FilterSelects | src/components/dashboard/Services.jsx:186-189 | the result is the list at strictly increasing positions, exactly those whose element passes |
| Filtering.FilterKeepsAll | src/components/dashboard/Services.jsx:186-189 | when everything passes, filtering returns the list unchanged |
| Filtering.FilterNarrows | src/components/dashboard/FAQ.jsx:138-143 | filtering with a stricter predicate equals filtering the looser result again, and is never longer |
| Faq.FilteredFaqs | src/components/dashboard/FAQ.jsx:138-143 | the shown questions all match both the search and the category, and every question that matches both is shown |
| Faq.FaqSelection | src/components/dashboard/FAQ.jsx:138-143 | the shown questions keep page order, and a question is shown iff it matches the term and the category |
| Faq.EmptyTermMatches | src/components/dashboard/FAQ.jsx:139-140 | the empty search term matches every text |
| Faq.DefaultShowsEverything | src/components/dashboard/FAQ.jsx:138-143 | with no search and "all" categories, every question is shown, in order |
| Faq.DefaultShowsAllEight | src/components/dashboard/FAQ.jsx:72-143 | the page's eight questions are all shown by default |
| Faq.NarrowingSearch | src/components/dashboard/FAQ.jsx:138-143 | extending the search term, or picking one category instead of "all", only removes questions and keeps the order |
| Faq.Toggle | src/components/dashboard/FAQ.jsx:131-136 | toggling flips exactly that question's open state and keeps every other flag |
| Faq.ToggleTwice | src/components/dashboard/FAQ.jsx:131-136 | toggling twice restores whether each question is open |
| Services.FilteredServices | src/components/dashboard/Services.jsx:186-189 | the shown services all match the search in their name or description, and every such service is shown |
| Services.ShownCount | src/components/dashboard/Services.jsx:325 | the heading count never exceeds the number fetched, and is zero iff no service matches |
| Services.ServiceSelection | src/components/dashboard/Services.jsx:186-189 | the shown services keep fetched order, and a service is shown iff it matches; the heading count equals the number shown |
| Services.EmptyTermKeepsAll | src/components/dashboard/Services.jsx:186-189 | an empty search shows every service, in order |
| Services.LongerTermNarrows | src/components/dashboard/Services.jsx:186-189 | extending the search term only removes services, keeps the order, and never raises the count |
| Codes.FilteredCodes | src/components/dashboard/Codes.jsx:73-76 | the shown codes match the term in their code text (ignoring case) or their decimal id (verbatim), and every such code is shown |
| Codes.Cards | src/components/dashboard/Codes.jsx:147-151 | one card per shown code, numbered 1, 2, 3, … in shown order |
| Codes.CodeSelection | src/components/dashboard/Codes.jsx:73-76 | the shown codes keep fetched order, and a code is shown iff it matches |
| Codes.EmptyTermKeepsAll | src/components/dashboard/Codes.jsx:73-76 | an empty search shows every code, numbered by its position |
| Codes.LongerTermNarrows | src/components/dashboard/Codes.jsx:73-76 | extending the search term only removes codes and keeps the order |
| Codes.NumberIsFilteredPosition | src/components/dashboard/Codes.jsx:18 | card numbers follow the filtered list: the second code fetched, when it alone matches, is card 1 |
| Home.ComputeStats | src/components/dashboard/Home.jsx:229-236 | each reported counter wins when non-zero; otherwise services fall back to the fetched list length, admins to 1 iff the signed-in role is exactly "admin", and the rest to 0 |
| Home.TotalUsers | src/components/dashboard/Home.jsx:517 | the total adds admins, customers and technicians, so with no negative counter it is never below any one of them |
| Home.TotalUsersAfterFetch | src/components/dashboard/Home.jsx:517 | with no user counters reported, the total is 1 for an exact "admin" role and 0 otherwise; reported counters are added up |
| Home.IconOf | src/components/dashboard/Home.jsx:259-269 | an activity kind gets the clock icon iff it is not one of the five known kinds |
| Home.ToneOf | src/components/dashboard/Home.jsx:271-281 | an activity kind gets the grey colour iff it is not one of the five known kinds |
| Home.KnownKindsDistinguished | src/components/dashboard/Home.jsx:259-281 | different known kinds get different icons and colours |
| Home.Format | src/components/dashboard/Home.jsx:238-247 | a listed activity keeps its id, kind, title and details, and shows the time label of its age and the icon and colour of its kind |
| Home.RecentActivities | src/components/dashboard/Home.jsx:249 | the list shows the first five logged activities, or all of them if fewer, in log order |
| Home.LoggedActivityShownFirst | src/components/dashboard/Home.jsx:238-249 | just after an activity is logged, it heads the home list |
| Home.Initial | src/components/dashboard/Home.jsx:206-215 | all counters are zero, there are no activities, and loading is on |
| Home.Refresh | src/components/dashboard/Home.jsx:218-257 | loading and refreshing always end; a failed fetch keeps the old counters and activities; a successful one replaces them with the computed counters and the five most recent activities |
| Home.RoleName | src/components/dashboard/Home.jsx:133-144 | the three known roles, in any letter case, get their Arabic label; any other role shows as written; a missing or empty role shows as "user" |
| Home.RoleNameIgnoresCase | src/components/dashboard/Home.jsx:133-144 | a known role's label does not depend on its letter case |
| Home.CapitalisedAdmin | src/components/dashboard/Home.jsx:133-236 | a role of "Admin" is labelled as an administrator, but is not counted as one when the admins counter is missing |

## Left out

- The network, `fetch`, `async`/`await` and `Promise.all` are not called. A fetch outcome is an input record (`Api.Fetched`), and a dashboard fetch is a `Home.Fetch` value.
- Local storage and `JSON.stringify`/`JSON.parse` of stored values are not modelled. The storage slots are record fields, and a stored user is the record itself.
- Inside `decodeToken`, base64url decoding, `atob`, `decodeURIComponent` and `JSON.parse` are a function parameter `decode`, which may fail. Claims are strings or missing; claims of other JSON types are not modelled.
- `Date.now()` and `new Date()` are not called. The clock reading is a parameter, activity ids and times are integers in milliseconds, and parsing ISO time stamps is not modelled.
- FormValidation.ValidateField: the `min` and `max` branches (useFormValidation.jsx:98-103) are left out. No rule sets them, and they coerce values with `Number()` to floating point.
- FormValidation.ValidateField: names that reach `Object.prototype` through the rule lookup (such as "constructor") are treated as having no rule.
- Home.IconOf: a kind that names an `Object.prototype` member (such as "constructor") would make `icons[type]` return that inherited member; the model gives such kinds the clock icon. The console only logs the kinds "service", "code" and "support".
- Home.ToneOf: likewise, such a kind gets the grey colour here rather than the inherited member.
- FormValidation.ValidateField: `minLength` and `maxLength` count code points, while JavaScript's `length` counts UTF-16 units. A character outside the Basic Multilingual Plane counts once here and twice in the browser, so for example a one-character name such as "𝔄" is rejected here but accepted by the browser.
- Text.Lower: only ASCII capitals are folded. Non-ASCII case mappings of `toLowerCase` are not modelled (the Arabic texts have no case). Lengths count code points, not UTF-16 units.
- VerifyOtp.Change: requires `index < |slots|`, because the screen renders one input per slot and only ever passes those indices.
- VerifyOtp.KeyDown: requires `index < |slots|`, for the same reason.
- AddService.Submit: requires the form to hold `name` and `description`. The hook starts with both, and typing only adds fields.
- JsValues.OrElse: requires a non-empty fallback, because every fallback in the source is a non-empty literal.
- Api.ErrorMessage: a JSON error body is modelled only through `[0].code`, `.message` and `.error`, read as strings. Other property types are not modelled.
- Browser APIs are not modelled: `URL.createObjectURL`/`revokeObjectURL` (a preview is its file), `DataTransfer`, focus movement, the clipboard event and resetting the file input.
- Rendering, navigation, the loading flags of the OTP and add-service screens, and the notification pop-ups are not modelled. The pop-ups' message texts are modelled.
- The screens outside this core are not part of this model: login, registration, password reset, code creation, support, layout and routing. Neither are the API helpers that only forward to `request`.
- The question and answer texts of the FAQ entries are not modelled. Their ids and categories are (`Faq.Catalogue`).
