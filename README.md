# Contact submission: form and API, modelled in Dafny

The system is a contact form and a two-endpoint contacts API.

**The form** is the React component `ContactForm`. It edits a draft `{name, email, phone}`, and a live filter cleans the phone field as the user types. On submit it validates the draft and shows one message under each bad field. Only a draft without messages is posted. The post is retried: at most three attempts, stopping at the first ok answer. The user sees a warning after each failed attempt but the last, and then either a success message or a final error. On success the draft is cleared and the stored list is reloaded. On failure the draft is kept.

**The API** is the ASP.NET `ContactsController`. `GetContacts` returns every stored contact. `CreateContact` refuses a contact whose name, email or phone is null, empty or white space, answering 400 with "All fields are required.". Any other contact is appended to the store, whatever its format, and echoed back with 200.

Modules, one per file:

- `Text` (`text.dfy`): JavaScript's white-space set and `trim`, .NET's `char.IsWhiteSpace`, `indexOf`, decimal rendering.
- `PhoneFilter` (`phone_filter.dfy`): the two regular-expression replacements of `handlePhoneChange`, and a description of their result that uses no regular expression.
- `ContactModel` (`contact.dfy`): the draft.
- `Validator` (`validator.dfy`):
  - the three field checks of `validate` and the error object they build;
  - the email regular expression, given twice (as the pattern reads, and as a scan) and proved equal;
  - the phone regular expression.
- `Submission` (`submission.dfy`): the retry loop's effect as a function of the answers the create calls get (`outcomes[i]` is whether call `i` got an ok status).
- `FormModel` (`form_model.dfy`): the component's whole state as one value, and `Submit`, the state change one `handleSubmit` makes.
- `ContactFormComponent` (`contact_form.dfy`): the component as a class. Its state variables are fields and its handlers are methods. `HandleSubmit` is proved to produce exactly the state `Submit` describes. The loop is proved against `Retry`.
- `ContactsApi` (`contacts_api.dfy`): the database context and the controller as classes.
- `ClientServer` (`client_server.dfy`): which drafts each side accepts.

What the proofs show:

- **The server accepts every draft the form accepts, with one kind of exception.** The server checks presence only, so it stores drafts the form would refuse (`ServerSkipsFormat`). A draft the form accepts is stored exactly when .NET does not call its name blank (`ValidDraftAccepted`). The two white-space sets differ in U+0085 and U+FEFF (`WhiteSpaceSetsDiffer`). A name is blank to .NET but not to JavaScript exactly when it is .NET white space holding a U+0085 (`BlankOnlyToDotNet`). Such a draft exists: a name of a space and a U+0085, with a valid email and phone, passes the form and is refused by the server with 400 (`RefusedValidDraft`). Create calls are not connected to the controller in the model; their answers are the `outcomes` input. If every call for that draft fails, as the server's 400 answers make it, `AlwaysFail` gives the result: warnings after attempts 1 and 2 saying the API service may be down, then "All 3 attempts failed. Please try again later.".
- **The phone bound.** The phone's "required" message speaks of 7-15 digits. The pattern accepts 7 to 14 digits, which is 7 to 15 characters with the `+` (`PhoneMatchesShape`, `FilteredPhoneMatches`).
- **Two details of the code.** The phone is "required" when it trims to empty, not only when it is empty (ContactForm.tsx line 93). The per-attempt timeout is 5000 ms, although the comment beside it says 3 seconds (line 119).

## Model

| member | source | states |
|---|---|---|
| Text.TrimStartSpec | contact-app-frontend/src/components/ContactForm.tsx:78 | `trimStart` keeps a suffix, what it drops is blank, and the result does not start with white space |
| Text.TrimEndSpec | contact-app-frontend/src/components/ContactForm.tsx:78 | `trimEnd` keeps a prefix, what it drops is blank, and the result does not end with white space |
| Text.Trim | contact-app-frontend/src/components/ContactForm.tsx:78 | `trim()` gives the empty string exactly when the value is blank; otherwise the result starts and ends with a non-white-space character |
| Text.TrimEmptyIffBlank | contact-app-frontend/src/components/ContactForm.tsx:84 | `!value.trim()` holds exactly when every character is white space |
| Text.WhiteSpaceSetsDiffer | contact-app-backend/ContactApi/Controllers/ContactsController.cs:41-43 | .NET's white space differs from JavaScript's only in U+0085 (.NET only) and U+FEFF (JavaScript only) |
| Text.TrimIsPiece | contact-app-frontend/src/components/ContactForm.tsx:78 | `trim()` returns one contiguous piece of the value, with only white space dropped before and after it |
| Text.NatToString | contact-app-frontend/src/components/ContactForm.tsx:158-165 | a number in a template literal renders as decimal digits that denote it, with no leading zero |
| Text.IndexOf | contact-app-frontend/src/components/ContactForm.tsx:83 | the first position of a character, or none exactly when it does not occur |
| Text.IndexOfFirst | contact-app-frontend/src/components/ContactForm.tsx:83 | a position holding the character with none before it is the one found |
| PhoneFilter.KeepPhoneChars | contact-app-frontend/src/components/ContactForm.tsx:69 | the first replacement leaves only digits and `+`, never lengthening the value |
| PhoneFilter.DropPlus | contact-app-frontend/src/components/ContactForm.tsx:69 | every `+` is removed and nothing new appears |
| PhoneFilter.FilterPhone | contact-app-frontend/src/components/ContactForm.tsx:69 | the filtered phone holds only digits and `+`, has a `+` at most at position 0, and is never longer than the input |
| PhoneFilter.DropPlusKeepsDigitsOnly | contact-app-frontend/src/components/ContactForm.tsx:69 | after position 0 the two replacements keep exactly the digits |
| PhoneFilter.SkipNonPhoneChar | contact-app-frontend/src/components/ContactForm.tsx:69 | a leading character that is neither a digit nor `+` does not change the filtered phone |
| PhoneFilter.FirstPhoneChar | contact-app-frontend/src/components/ContactForm.tsx:69 | a leading digit or `+` is kept, followed by the digits of the rest |
| PhoneFilter.FilterPhoneShape | contact-app-frontend/src/components/ContactForm.tsx:68-69 | the filtered phone is a `+` when the first digit-or-`+` typed was a `+`, followed by every digit typed, in order |
| PhoneFilter.FilterPhoneKeepsDigits | contact-app-frontend/src/components/ContactForm.tsx:69 | the filter keeps every digit, in order |
| PhoneFilter.FilterPhoneIdempotent | contact-app-frontend/src/components/ContactForm.tsx:65-73 | filtering an already filtered phone changes nothing |
| Validator.EmailMatchesPattern | contact-app-frontend/src/components/ContactForm.tsx:83 | the scan accepts exactly the strings the email regular expression matches |
| Validator.EmailMatchesSound | contact-app-frontend/src/components/ContactForm.tsx:83 | a string the scan accepts splits as segment `@` segment `.` segment |
| Validator.EmailMatchesComplete | contact-app-frontend/src/components/ContactForm.tsx:83 | every string the regular expression matches is accepted by the scan |
| Validator.FirstAt | contact-app-frontend/src/components/ContactForm.tsx:83 | the `@` that follows a segment is the first `@` of the string |
| Validator.DomainShape | contact-app-frontend/src/components/ContactForm.tsx:83 | what follows the `@` of a match is a segment of at least three characters with a `.` inside it |
| Validator.EmailPatternShape | contact-app-frontend/src/components/ContactForm.tsx:83 | a matching email is not blank, holds no white space, and holds exactly one `@`, not at position 0 |
| Validator.PhoneMatchesShape | contact-app-frontend/src/components/ContactForm.tsx:91 | a matching phone has 7 to 15 characters, digits after position 0, and is left unchanged by the live filter |
| Validator.FilteredPhoneMatches | contact-app-frontend/src/components/ContactForm.tsx:69-91 | a filtered phone passes the pattern exactly when 7 to 14 digits were typed |
| Validator.BlankMatchesNoPattern | contact-app-frontend/src/components/ContactForm.tsx:83-96 | a blank value matches neither the email nor the phone pattern, so the "required" check takes precedence |
| Validator.NameErrorSpec | contact-app-frontend/src/components/ContactForm.tsx:78-81 | `!name.trim()` holds, and the name gets a message, exactly when every character is white space; the message is the name's "required" text |
| Validator.EmailErrorSpec | contact-app-frontend/src/components/ContactForm.tsx:83-89 | the email gets a message exactly when it fails the pattern: "required" when blank, "Enter a valid email" otherwise |
| Validator.PhoneErrorSpec | contact-app-frontend/src/components/ContactForm.tsx:91-99 | the phone gets a message exactly when it fails the pattern: "required" when blank, the format message otherwise |
| Validator.SetError | contact-app-frontend/src/components/ContactForm.tsx:79-98 | one `newErrors.f = message` assignment: key `f` is present exactly when it was or a message is given, an assignment not taken changes nothing, and other keys are untouched |
| Validator.FieldErrorsSpec | contact-app-frontend/src/components/ContactForm.tsx:75-101 | the error object has a key per failing field and no other, each holding that field's message |
| Validator.IsValidIff | contact-app-frontend/src/components/ContactForm.tsx:102 | `validate` returns true exactly when the name is not blank, the email matches its pattern and the phone matches its pattern |
| Validator.ShortEmailMatches | contact-app-frontend/src/components/ContactForm.tsx:82-83 | "a@b.com" matches the email pattern |
| Validator.AnnEmailMatches | contact-app-frontend/src/components/ContactForm.tsx:82-83 | "ann@x.com" matches the email pattern |
| Validator.ShortPhoneMatches | contact-app-frontend/src/components/ContactForm.tsx:91 | "1234567" matches the phone pattern |
| Validator.AnnPhoneMatches | contact-app-frontend/src/components/ContactForm.tsx:91 | "+14155550100" matches the phone pattern |
| Validator.ValidExample | contact-app-frontend/src/components/ContactForm.tsx:75-103 | the draft Ann, ann@x.com, +14155550100 passes `validate` |
| Validator.NameOnlyExample | contact-app-frontend/src/components/ContactForm.tsx:75-101 | the draft with an empty name, a@b.com and 1234567 gets exactly one message, the name's "required" text |
| Submission.FirstOk | contact-app-frontend/src/components/ContactForm.tsx:116-148 | the first call with an ok answer, or `MaxRetries`; every earlier call failed |
| Submission.Retry | contact-app-frontend/src/components/ContactForm.tsx:112-170 | one to three calls, one snackbar per call, success exactly when one of the three allowed calls gets an ok answer |
| Submission.RetryStopsAtFirstOk | contact-app-frontend/src/components/ContactForm.tsx:141-148 | every call but the last failed, the last decides the outcome, and a failure means all three calls were made |
| Submission.RetryNotices | contact-app-frontend/src/components/ContactForm.tsx:155-167 | failures before the last call warn with their attempt number; the last snackbar is the success message or "All 3 attempts failed" |
| Submission.FailTwiceThenSucceed | contact-app-frontend/src/components/ContactForm.tsx:116-170 | two failures and then an ok answer: three calls, warnings for attempts 1 and 2, then success |
| Submission.NoticeTexts | contact-app-frontend/src/components/ContactForm.tsx:141-167 | the severities and texts of the snackbars: "warning" with "Attempt 1 failed. …", "success" with "Contact submitted successfully!", "error" with "All 3 attempts failed. …" |
| Submission.AlwaysFail | contact-app-frontend/src/components/ContactForm.tsx:116-170 | no ok answer: three calls, warnings for attempts 1 and 2, then the final error |
| FormModel.SubmitInvalidDraft | contact-app-frontend/src/components/ContactForm.tsx:109 | a submit always shows the draft's messages; a draft with a message makes no create call and changes nothing else |
| FormModel.SubmitValidDraft | contact-app-frontend/src/components/ContactForm.tsx:109-116 | a valid draft clears the messages and goes through the retry loop |
| FormModel.RetryCalls | contact-app-frontend/src/components/ContactForm.tsx:116-170 | 1 to 3 posts of the same draft, stopping at the first ok answer; the draft is cleared and the list reloaded exactly on success, and kept otherwise |
| FormModel.RetryNoticesShown | contact-app-frontend/src/components/ContactForm.tsx:141-167 | one snackbar per post: warnings naming attempts 1, 2, …, then the success message or the final error |
| FormModel.EmptyDraftInvalid | contact-app-frontend/src/components/ContactForm.tsx:145 | the cleared draft has a message, so it cannot be posted as it is |
| ContactFormComponent.ContactForm.constructor | contact-app-frontend/src/components/ContactForm.tsx:26-48 | first render: empty draft, no messages, no snackbar, the list loaded once by the mount effect |
| ContactFormComponent.ContactForm.HandleChange | contact-app-frontend/src/components/ContactForm.tsx:61-63 | the edited field takes the typed value and the others are kept |
| ContactFormComponent.ContactForm.HandlePhoneChange | contact-app-frontend/src/components/ContactForm.tsx:65-73 | the phone takes the filtered input and the other fields are kept |
| ContactFormComponent.ContactForm.Validate | contact-app-frontend/src/components/ContactForm.tsx:75-103 | the shown messages become the draft's messages, the draft is untouched, and the result is true exactly when there are none |
| ContactFormComponent.ContactForm.HandleSubmit | contact-app-frontend/src/components/ContactForm.tsx:106-171 | the new state is exactly `Submit` of the old state |
| ContactFormComponent.ContactForm.SubmitWithRetry | contact-app-frontend/src/components/ContactForm.tsx:112-170 | the loop leaves exactly the state `AfterRetry` describes: the posts, snackbars, draft and reloads that `Retry` gives |
| ContactsApi.AppDbContext.Add | contact-app-backend/ContactApi/Controllers/ContactsController.cs:48-49 | the contact is appended to the table |
| ContactsApi.ContactsController.GetContacts | contact-app-backend/ContactApi/Controllers/ContactsController.cs:26-30 | the answer is exactly the stored table, in order |
| ContactsApi.ContactsController.CreateContact | contact-app-backend/ContactApi/Controllers/ContactsController.cs:39-51 | 400 with "All fields are required." exactly when a field is null or blank, and then the table is unchanged; otherwise the contact is appended as it is and echoed back; a table of complete rows stays complete |
| ClientServer.ValidDraftAccepted | contact-app-backend/ContactApi/Controllers/ContactsController.cs:41-46 | a draft the form accepts passes the server's check exactly when .NET does not call its name blank |
| ClientServer.BlankOnlyToDotNet | contact-app-backend/ContactApi/Controllers/ContactsController.cs:41 | a name is blank to .NET but not to JavaScript exactly when it is .NET white space holding a U+0085 |
| ClientServer.RefusedValidDraft | contact-app-backend/ContactApi/Controllers/ContactsController.cs:41-45 | a draft whose name is a space and a U+0085 passes the form and is refused by the server |
| ClientServer.ValidExampleStored | contact-app-backend/ContactApi/Controllers/ContactsController.cs:41-50 | the draft Ann, ann@x.com, +14155550100 passes the server's presence check and is stored |
| ClientServer.ServerSkipsFormat | contact-app-backend/ContactApi/Controllers/ContactsController.cs:41-50 | the server stores a draft with no `@` in its email, which the form refuses |

## Left out

- Framework and configuration: the ASP.NET host setup, CORS and the endpoint URLs in `Program.cs` and `constants.ts`.
- `fetch`, `AbortController` and the timers:
  - each create call's result is one boolean in `outcomes`;
  - a non-ok status, a network error and the 5000 ms per-attempt timeout all count as `false`;
  - the 1500 ms pause before a retry is not modelled.
- `fetchContacts` and the JSON decoding of the list are modelled only as the `listFetches` count. A reload's own failure, which is logged and ignored, is not modelled.
- The `contacts` list the form renders is not modelled.
- Snackbars: the open flag is not modelled. `notices` records every snackbar shown, and the last one is the one on screen.
- `console.log` and `console.error` output is not modelled.
- The MUI rendering, `e.preventDefault()` and the React scheduling of state updates are not modelled. Each setter takes effect at once. Other events arriving while a submit awaits its network calls are not modelled.
- The `maxLength` limits of 30, 40 and 15 characters on the inputs are not modelled. They belong to the browser's input element, and `validate` does not check them.
- JavaScript strings are UTF-16 code units and Dafny's `char` is a Unicode scalar value. Characters outside the Basic Multilingual Plane are not modelled as surrogate pairs. The patterns here treat such characters alike in both readings.
- EF Core: the `Contact` entity's generated key, `SaveChangesAsync` failures (a 500 answer) and asynchrony. `AppDbContext.Add` stands for `Add` followed by a successful save.
- ASP.NET model binding: a missing or malformed request body, which the framework answers with 400 before `CreateContact` runs, is not modelled.
- ContactsApi.ContactsController.GetContacts: the answer's wrapping in a 200 result is not modelled. `ToListAsync()` without `OrderBy` leaves the row order to the database; the model fixes that order to insertion order.
- The posted body: `JSON.stringify` of the draft's three strings is assumed to bind to a `Contact` with three non-null strings equal to them (`ToRecord`). JSON encoding and model binding are not modelled.
- Create calls are not linked to the controller: the answer each call gets is the `outcomes` input, not the result of `CreateContact`.
- ContactFormComponent.ContactForm.HandleChange: the field is chosen by the `Field` value rather than by the input's `name` attribute.
