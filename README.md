# Issue tracker core, modelled in Dafny

The repository is a small issue tracker: a REST API over one collection of
issue records, and a browser front end. This project models the parts of it
that are plain sequential logic:

- **The issue schema** (`server/issue.js`). It holds the six valid statuses,
  the six-field schema with its required/optional marks, `cleanupIssue`
  (an allow-list that keeps only schema fields) and `validateIssue` (an
  ordered list of error messages joined with `"; "`, or null).
- **The `/api/issues` handlers** (`server/server.js`). The list handler builds
  a filter from the `status`, `effort_lte` and `effort_gte` query parameters
  and wraps the records it gets back with their count. The create handler
  stamps `created`, defaults `status` to `"New"`, validates, and then either
  replies 422 or inserts the cleaned-up issue.
- **The numeric input field** (`src/NumInput.jsx`). It is a class whose one
  field is the text shown. `OnChange` accepts only digit strings,
  `ReceiveProps` resets the text from a number, and `OnBlur` reports the
  parsed number.

Records are `map<string, Value>`. `Value` is a JavaScript value: a string, an
integral number, a boolean, null, or an object (array, plain object, Date)
along with the text it converts to. An absent field is `undefined`.
`Values.Truthy` is JavaScript truthiness and `Values.ToText` is `String(v)`.
The module `Decimal` models `Number#toString` for integers and
`parseInt(s, 10)`: skip leading white space, take an optional sign, read the
longest run of digits, and give NaN when that run is empty.

Modules: `Wrappers` (Option, Result), `Decimal`, `Values`, `Issue`, `Server`,
`NumInputField`. Each method that changes something (the cleanup loop, the
validation loop, filter construction, the POST handler, the component's
event handlers) is proved against a function that specifies it, or against a direct list
of its properties (`Server.BuildFilter`). The
properties the source promises are lemmas about those functions.

Where the system's design description and its code disagree, the model
follows the code. The description says required fields must be "present
and non-empty". The code tests truthiness, so a field holding `0`, `false`
or `null` is also reported missing. There is one exception to following
the code: the two object lookups listed under Findings. The description
says the status must be one of six values, but the code as written accepts
more. The operations `Issue.CleanupIssue`, `Issue.ValidateIssue` and
`Server.CreateIssue`, and the lemmas about them, use the corrected
own-field lookups (`Issue.Cleaned`, `Issue.StatusKeyFound`). The
as-written behaviour is modelled beside them: `Issue.CleanedAsWritten`,
`Issue.ValidationErrorsAsWritten` and `Server.CreateIssueAsWritten`.

## Model

| member | source | states |
|---|---|---|
| Issue.CleanupIssue | server/issue.js:19-25 | the loop over the issue's fields returns exactly `Cleaned(issue)`: its keys are schema fields, and every schema field of the input is kept with its value (corrected lookup; see Findings) |
| Issue.CleanedKeysInSchema | server/issue.js:10-25 | every key of a cleaned issue is one of status, owner, effort, created, completionDate, title |
| Issue.CleanedKeepsSchemaFields | server/issue.js:21-23 | a field survives cleanup exactly when it is in the input and in the schema, and it keeps its value |
| Issue.CleanedIdempotent | server/issue.js:19-25 | cleaning an already cleaned issue returns it unchanged |
| Issue.CleanupAsWrittenKeepsInheritedField | server/issue.js:22 | under the as-written lookup, every field named after an inherited property (`constructor`, `toString`, ...) survives cleanup with its value, while the intended cleanup drops each of them and keeps no field the as-written one drops |
| Issue.InheritedNamesAreNotFields | server/issue.js:10-17 | no name inherited from `Object.prototype` is a schema field |
| Issue.ValidateIssue | server/issue.js:28-43 | the two-stage loop returns null exactly for a valid issue (four required fields truthy, status one of the six); otherwise it returns the joined error list, which is non-empty (corrected lookup; see Findings) |
| Issue.ValidationErrorsExplicit | server/issue.js:30-42 | the error list is the missing-field messages in schema order (status, owner, created, title), then the status message if any |
| Issue.ValidationErrorsEmptyIff | server/issue.js:28-43 | the error list is empty, and the result null, exactly when status, owner, created and title are truthy and the status is one of New, Open, Assigned, Fixed, Verified, Closed |
| Issue.ErrorsAreNonEmpty | server/issue.js:32-38 | every message in the error list is a non-empty string |
| Issue.JoinNonEmpty | server/issue.js:42 | joining a list whose first part is non-empty gives a non-empty string |
| Issue.MissingMessageInjective | server/issue.js:32 | different field names give different missing-field messages |
| Issue.MissingFieldReported | server/issue.js:30-34 | a falsy or absent required field yields "Missing mandatory field: <field>" |
| Issue.MissingMessageHasCause | server/issue.js:30-34 | a missing-field message for a schema field appears only when that field is required and falsy |
| Issue.OptionalFieldsNeverReported | server/issue.js:13-15 | `effort` and `completionDate` never yield a missing-field message |
| Issue.InvalidStatusReportedLast | server/issue.js:37-39 | a status outside the six yields "<status> is not a valid status." as the last message |
| Issue.MissingStatusReportedTwice | server/issue.js:31-39 | an absent status yields the missing-field message first and "undefined is not a valid status." last |
| Issue.ValidateAsWrittenAcceptsInheritedStatus | server/issue.js:37 | with owner, created and title truthy, a status named after an inherited property (`toString`, `constructor`, ...) gets no error under the as-written lookup; the intended check reports exactly the status message |
| Issue.InheritedNamesAreNotStatuses | server/issue.js:1-8 | no name inherited from `Object.prototype` is one of the six statuses |
| Issue.CleanedAsWritten | server/issue.js:19-25 | definition of the allow-list as written, where `issueFieldType[field]` also finds inherited names; properties in Issue.CleanupAsWrittenKeepsInheritedField |
| Issue.Cleaned | server/issue.js:19-25 | definition of the intended allow-list (own schema fields only); properties in Issue.CleanupIssue, Issue.CleanedKeysInSchema, Issue.CleanedKeepsSchemaFields, Issue.CleanedIdempotent |
| Issue.StatusKeyFoundAsWritten | server/issue.js:37 | definition of `validIssueStatus[key]` as written, true also for inherited names and `__proto__`; properties in Issue.ValidateAsWrittenAcceptsInheritedStatus |
| Issue.StatusKeyFound | server/issue.js:37 | definition of the intended `validIssueStatus[key]`: one of the six statuses; properties in Issue.ValidationErrorsEmptyIff, Issue.InvalidStatusReportedLast |
| Issue.ValidationErrorsAsWritten | server/issue.js:28-42 | definition of the error list under the as-written status lookup; properties in Issue.ValidateAsWrittenAcceptsInheritedStatus |
| Issue.ValidationErrors | server/issue.js:28-42 | definition of the `errors` array with the intended status lookup; properties in Issue.ValidateIssue, Issue.ValidationErrorsExplicit, Issue.ValidationErrorsEmptyIff |
| Issue.ValidIssue | server/issue.js:28-43 | the reference meaning of a valid issue (four required fields truthy, status one of the six); connected in Issue.ValidationErrorsEmptyIff |
| Issue.Join | server/issue.js:42 | definition of `Array.prototype.join`; properties in Issue.JoinNonEmpty |
| Values.Truthy | server/issue.js:31 | definition of JavaScript truthiness (the `!issue[field]` and `!newIssue.status` tests); properties in Values.FalsyValues |
| Values.ToText | server/issue.js:38 | definition of `String(v)` (the `${issue.status}` of the status message); properties in Issue.MissingStatusReportedTwice |
| Values.FalsyValues | server/issue.js:31 | the falsy values are exactly undefined, "", 0, false and null |
| Server.BuildFilter | server/server.js:42-46 | the filter has `status` exactly when that parameter is non-empty, equal to it; it has `effort` exactly when `effort_lte` or `effort_gte` is non-empty, with `$lte`/`$gte` exactly for the non-empty ones, each the `parseInt` of its parameter, which for a digit string is its base-10 value; no other key appears |
| Server.ParamSet | server/server.js:43-46 | definition of a truthy query parameter (present and non-empty); properties in Server.BuildFilter |
| Server.ListResponse | server/server.js:47-55 | a successful query replies 200 with the records and `total_count` equal to their number; a failure replies with the internal error |
| Server.InternalError | server/server.js:52-55 | a failure replies 500 with a message that ends in the error's text |
| Server.CreateIssue | server/server.js:58-70 | the handler rejects exactly an issue that is invalid after stamping and defaulting, with 422 and "Invalid request: " plus the joined errors; otherwise it inserts `Cleaned` of the prepared issue (corrected lookup; see Findings) |
| Server.PreparedFields | server/server.js:61-62 | `created` is the timestamp; a falsy status becomes "New" and a truthy one is kept; every other field is unchanged |
| Server.PreparedNeverMissesStatusOrCreated | server/server.js:61-64 | after stamping and defaulting, status and created are never reported missing |
| Server.AcceptedWhenOwnerAndTitleGiven | server/server.js:61-70 | a body with a truthy owner and title and a falsy or valid status is accepted; a falsy status is inserted as "New" (corrected lookup; see Findings) |
| Server.InsertedDocumentIsValid | server/server.js:64-70 | the inserted document holds only schema fields and passes validation again (corrected lookup; see Findings) |
| Server.Prepared | server/server.js:61-62 | definition of the body after the in-place updates of `created` and `status`; properties in Server.PreparedFields |
| Server.CreateIssueAsWritten | server/server.js:58-70 | definition of the create handler with the as-written `validateIssue` and `cleanupIssue`; properties in Server.CreateAsWrittenInsertsInheritedStatus and Server.CreateAsWrittenKeepsInheritedFields |
| Server.CreateAsWrittenInsertsInheritedStatus | server/server.js:58-70 | as written, a body with a truthy owner and title and a status named after an inherited property is inserted with that status, and the intended handler rejects it |
| Server.CreateAsWrittenKeepsInheritedFields | server/server.js:70 | as written, every body field named after an inherited property reaches the inserted document unchanged |
| Decimal.NatToString | src/NumInput.jsx:27 | the decimal text of a natural number is a non-empty digit string with no leading zero |
| Decimal.IntToString | src/NumInput.jsx:27 | an integer's text is all digits exactly when the integer is not negative; otherwise it starts with a minus sign |
| Decimal.DigitsValueOfNatToString | src/NumInput.jsx:26-33 | reading the decimal text of a natural number gives the number back |
| Decimal.ParseIntDigitPrefix | server/server.js:45-46 | `parseInt` of digits followed by a non-digit tail reads just the digits ("12abc" gives 12) |
| Decimal.ParseIntDigits | src/NumInput.jsx:31 | `parseInt` of a non-empty digit string is its decimal value |
| Decimal.ParseIntEmpty | src/NumInput.jsx:31-32 | `parseInt` of the empty string, a blank, or a lone sign is NaN |
| Decimal.ParseIntOfIntToString | src/NumInput.jsx:26-33 | `parseInt` of an integer's decimal text gives the integer back |
| Decimal.ParseInt | server/server.js:45-46 | definition of `parseInt(s, 10)`; properties in Decimal.ParseIntDigitPrefix, Decimal.ParseIntDigits, Decimal.ParseIntEmpty, Decimal.ParseIntOfIntToString |
| NumInputField.NumInput.constructor | src/NumInput.jsx:5-10 | the field starts with the formatted initial prop, and holds digits only when that prop is absent or not negative |
| NumInputField.NumInput.ReceiveProps | src/NumInput.jsx:12-14 | the field is reset to the formatted new prop, and holds digits only when that prop is absent or not negative |
| NumInputField.NumInput.OnChange | src/NumInput.jsx:20-24 | the text is taken exactly when it is all digits (the empty string included), otherwise the state is unchanged; a digits-only state stays digits-only |
| NumInputField.NumInput.OnBlur | src/NumInput.jsx:16-18 | the reported number is `parse` of the state, which is its decimal value for non-empty digits and null for the empty text; the state is not changed |
| NumInputField.Format | src/NumInput.jsx:26-28 | `format` gives the empty text exactly for a falsy number (0 or none); further properties in NumInputField.FormatNonZero |
| NumInputField.Parse | src/NumInput.jsx:30-33 | definition of `parse` (`parseInt` with NaN read as null); properties in NumInputField.ParseEmpty, NumInputField.ParseDigitsValue |
| Decimal.IsDigits | src/NumInput.jsx:21 | definition of matching `/^\d*$/`; properties in NumInputField.NumInput.OnChange, NumInputField.AcceptAllKeepsDigits |
| NumInputField.Accept | src/NumInput.jsx:20-24 | definition of the value one change event leaves; properties in NumInputField.NumInput.OnChange |
| NumInputField.AcceptAll | src/NumInput.jsx:20-24 | definition of the value a sequence of change events leaves; properties in NumInputField.AcceptAllKeepsDigits, NumInputField.AcceptAllIsLastDigitText |
| NumInputField.FormatFalsy | src/NumInput.jsx:26-28 | `format` of 0 and of no number is the empty text |
| NumInputField.FormatNonZero | src/NumInput.jsx:26-28 | `format` of a positive integer is its decimal digits with no leading zero; a negative one gets a minus sign |
| NumInputField.FormatDigitsOnly | src/NumInput.jsx:26-28 | `format` yields only digits exactly when the number is absent or not negative |
| NumInputField.ParseEmpty | src/NumInput.jsx:30-33 | `parse("")` is null |
| NumInputField.ParseDigitsValue | src/NumInput.jsx:30-33 | `parse` of a non-empty digit string is its decimal value |
| NumInputField.ParseFormatRoundTrip | src/NumInput.jsx:26-33 | `parse(format(n))` is `n` for every non-zero integer, and null for 0 and for no number |
| NumInputField.AcceptAllKeepsDigits | src/NumInput.jsx:20-24 | starting from digits, any sequence of change events leaves digits |
| NumInputField.AcceptAllIsLastDigitText | src/NumInput.jsx:20-24 | after a sequence of change events the value is the start value or one of the all-digit texts typed, and it is the last text when that text is all digits |

## Left out

- The MongoDB calls (`find`, `toArray`, `insertOne`, the re-fetch by `insertedId`, server/server.js:47-48 and 70-76) are foreign driver I/O. The query's answer is an input of `Server.ListResponse`, and the insert is the `Insert` result of `Server.CreateIssue`. The reply after the re-fetch is not modelled.
- Express routing, body parsing, static files, the `app.get('*')` fallback and the database connection and listen call (server/server.js:1-39, 79-81) are framework plumbing. server/renderedPageRouter.jsx is not part of this model.
- The wall clock: `created = new Date()` (server/server.js:61) is the parameter `created` of `Server.CreateIssue`. It is required to be an object, so it is truthy.
- src/IssueList.jsx, src/IssueEdit.jsx, src/IssueAdd.jsx and src/App.jsx are React rendering, `fetch` calls, alerts and router history. NumInput's `render` and its event objects `e` are left out too. The parent's `onChange` callback is the value `OnBlur` returns.
- webpack.config.js has no behaviour.
- Key order of JavaScript objects: records are maps, so the order in which `cleanupIssue` copies fields is not visible.
- Numbers are integers. Non-integral numbers, NaN and Infinity as field values, and the floating-point rounding of `parseInt` results beyond 2^53, are not modelled.
- Numbers are unbounded integers. Values of 2^53 and above in magnitude are not exact JavaScript numbers, and JavaScript prints values of 10^21 and above in exponent form (`"1e+21"`, which `parseInt` reads as 1). The statements below hold in the model for every integer, but in the program only below 10^21 in magnitude.
- Decimal.IntToString: exact `Number#toString` only below 10^21 in magnitude; beyond that JavaScript uses exponent form.
- Values.ToText: the text of a number is exact only below 10^21 in magnitude.
- NumInputField.FormatDigitsOnly: holds in the program only below 10^21 in magnitude.
- NumInputField.ParseFormatRoundTrip: holds in the program only below 2^53 in magnitude, where numbers are exact.
- Issue.CleanupIssue: uses the corrected own-field lookups; as written, a status or field named after an inherited property behaves differently (see Findings and the `AsWritten` members).
- Issue.ValidateIssue: uses the corrected own-field lookups; as written, a status or field named after an inherited property behaves differently (see Findings and the `AsWritten` members).
- Server.CreateIssue: uses the corrected own-field lookups; as written, a status or field named after an inherited property behaves differently (see Findings and the `AsWritten` members).
- Server.AcceptedWhenOwnerAndTitleGiven: uses the corrected own-field lookups; as written, a status or field named after an inherited property behaves differently (see Findings and the `AsWritten` members).
- Server.InsertedDocumentIsValid: uses the corrected own-field lookups; as written, a status or field named after an inherited property behaves differently (see Findings and the `AsWritten` members).
- Query parameters are strings. Express's parsing of repeated or bracketed parameters into arrays and objects is not modelled.
- A request body that is not a plain object (an array, say) is not modelled.
- A body field named `__proto__`: the cleanup model drops it, since assigning it adds no field. The prototype change that the assignment makes is not modelled.
- An object whose string conversion throws is not modelled. One example is a status `{"toString": 1}`: the own `toString` is not callable, and `valueOf` returns the object itself. `validIssueStatus[issue.status]` (server/issue.js:37) then throws a TypeError, so the create handler answers 500 and inserts nothing. The model always gives 422 or an insert. The `console.log(err)` calls at server/server.js:53 and 74 are I/O and are left out too.
- Objects convert to text through a carried string (`Values.Value.Obj`). The text of a Date depends on the clock and time zone and is not computed.
- NumInputField.Format: only integers are formatted. Non-integral numbers depend on JavaScript's float printing.

## Findings

| source | as written | input that shows it | evidently intended | confidence | as-written member | corrected member |
|---|---|---|---|---|---|---|
| server/issue.js:37 | `validIssueStatus[issue.status]` is a lookup on a plain object literal, so it also finds the functions inherited from `Object.prototype`, which are truthy | POST body `{"status": "toString", "owner": "o", "title": "t"}`: no status error, and the issue is inserted | only New, Open, Assigned, Fixed, Verified and Closed pass | high; not executed | Server.CreateAsWrittenInsertsInheritedStatus | Issue.ValidationErrorsEmptyIff |
| server/issue.js:22 | `issueFieldType[field]` is truthy for inherited names too, so such fields survive the allow-list | POST body with a field `"constructor": "x"`: the field is kept in the inserted document | only the six schema fields are kept | high; not executed | Server.CreateAsWrittenKeepsInheritedFields | Issue.CleanedKeysInSchema |

In both rows the corrected, own-field lookup is the one the rest of the model
uses: `Issue.StatusKeyFound` and `Issue.Cleaned`. The as-written lookups are
`Issue.StatusKeyFoundAsWritten`, `Issue.ValidationErrorsAsWritten` and
`Issue.CleanedAsWritten`, and `Server.CreateIssueAsWritten` is the create
handler built on them.
