# SafiPay core in Dafny

SafiPay is an escrow front end and backend for M-Pesa payments. A signed-in user records a transaction between a buyer and a seller. The backend asks Safaricom's Daraja API to send the buyer an STK push (a payment prompt on the phone). The backend also acknowledges the provider's callback. A notification service composes notices for buyer and seller; its `sendEmail` only logs each message and reports success, and no route in the backend calls it.

This project models the logic of that code and proves properties of it:

- **STK push handler** (`server.dfy`, `iso_time.dfy`, `base64.dfy`, `utf8.dfy`, `json.dfy`):
  - the OAuth Basic credential;
  - the 14-character timestamp cut from `toISOString`;
  - the STK password, which is Base64 over the UTF-8 of shortcode, passkey and timestamp;
  - the phone rewrite `0…` → `254…` and the rounded-up amount;
  - the payload record;
  - the success and failure replies of the handler, and the callback acknowledgement.
- **Transaction timeline** (`timeline.dfy`, `records.dfy`): up to six events are pushed in a fixed order, each when its condition holds: its date column is set, or, for the payment request, the M-Pesa code is non-empty and the status is `pending_payment`. The list is then sorted by date in place with a stable insertion sort on an array.
- **Notification service** (`email_service.dfy`): the five templates and the fan-out to buyer and seller. `sendEmail` appends to an outbox held by a `Mailer` object.
- **Dashboard page** (`dashboard.dfy`, `mac_roman.dfy`): validation and row construction in `handleCreate` as a state-changing method, the status badge, and the stats counters.
- **Sign-up page** (`signup.dfy`): the ordered password checks of `handleSignup`, and the confirm-password indicator and border.

Inputs from outside become parameters:
- the clock, a `DateTime`;
- the environment, an `MpesaConfig` and an optional frontend URL;
- the replies of the token and push requests;
- the database's answer to an insert and the auth service's answer to a sign-up;
- the locale rendering of an amount, as text.

Named properties are proved against independent partners: Base64 and UTF-8 decoders for the encoders, a parser for the timestamp, a colon-splitting parser for the Basic credential, and a pure `SortedByDate` for the in-place sort.

What the code does, and so what the model does:
- There is no transaction state machine: the dashboard writes status "held" on creation, and none of the modelled code changes a status afterwards.
- There is no callback reconciliation: the callback handler only logs and acknowledges.
- There are no release, dispute or refund routes.
- A failed upstream call becomes a 500 reply carrying the provider's data or the error message.
- The timestamp is the compact `YYYYMMDDHHMMSS` form only for four-digit years. For years outside 0–9999, `toISOString` writes six digits and a sign, and the cut keeps `YYYYYYMMDDHHMM`, losing the seconds (`IsoTime.TimestampExtendedYear`).

## Model

| member | source | states |
|---|---|---|
| IsoTime.Timestamp | backend/server.js:30 | the timestamp consists only of digits and has at most 14 of them |
| IsoTime.TimestampIsCompact | backend/server.js:30 | for a year 0–9999 the timestamp is exactly the zero-padded YYYYMMDDHHMMSS of the clock, 14 digits |
| IsoTime.TimestampExtendedYear | backend/server.js:30 | for a year outside 0–9999 the timestamp is the six-digit year, month, day, hour and minute, without the seconds |
| IsoTime.ParseTimestampRoundTrip | backend/server.js:30 | parsing the timestamp back recovers year, month, day, hour, minute and second of the clock |
| IsoTime.IsoString | backend/server.js:30 | `toISOString` is 24 characters for a year 0–9999 and 27 otherwise, with 'T' before the time, '.' before the milliseconds and a final 'Z' |
| IsoTime.IsoDigits | backend/server.js:30 | removing non-digits from the ISO string leaves the padded fields' digits in order |
| IsoTime.KeepDigitsAllDigits | backend/server.js:30 | the digit filter yields only digits, and keeps the length exactly when the input has only digits |
| IsoTime.KeepDigitsAppend | backend/server.js:30 | the digit filter distributes over concatenation |
| IsoTime.ValueDigits | backend/server.js:30 | a zero-padded number read back as decimal gives the number |
| Base64.Encode | backend/server.js:31-33 | output length is 4·⌈n/3⌉ for n input octets |
| Base64.EncodeAlphabet | backend/server.js:31-33 | every character of an encoding is in the alphabet of section 4 of RFC 4648 or is `=` |
| Base64.EncodedLength | backend/server.js:31-33 | an encoding is a whole number of four-character groups |
| Base64.DecodeEncode | backend/server.js:31-33 | decoding the encoding of any byte string gives those bytes back |
| Base64.EncodeDecode | backend/server.js:31-33 | any string the strict decoder accepts is the encoding of what it decodes to |
| Base64.DecodeIffEncode | backend/server.js:31-33 | decode(s) = b exactly when encode(b) = s |
| Base64.EncodeInjective | backend/server.js:31-33 | different byte strings have different encodings |
| Base64.TestVectors | backend/server.js:31-33 | the test vectors of section 10 of RFC 4648 |
| Base64.CharValueInverse | backend/server.js:31-33 | the alphabet maps sextets to characters one-to-one |
| Base64.EncodeAppendGroups | backend/server.js:31-33 | encoding splits at any multiple of three bytes |
| Utf8.DecodeEncode | backend/server.js:12-14 | decoding the UTF-8 encoding of any string gives the string back |
| Utf8.EncodeInjective | backend/server.js:12-14 | different strings have different UTF-8 encodings |
| Utf8.EncodeChar | backend/server.js:12-14 | one to four bytes per character, one byte exactly for ASCII |
| Utf8.EncodeCharLead | backend/server.js:12-14 | the lead byte announces the sequence length and the sequence decodes to the character |
| Utf8.AsciiEncoding | backend/server.js:31-33 | ASCII text encodes to one byte per character, equal to its code point |
| Utf8.EncodeAppend | backend/server.js:31-33 | encoding distributes over concatenation |
| Server.NodeBase64 | backend/server.js:12-14 | `Buffer.from(s).toString('base64')` decodes back to the UTF-8 bytes of s, and has length 4·⌈n/3⌉ over the Base64 alphabet |
| Server.BasicCredential | backend/server.js:12-14 | the credential is Base64 text that decodes to the UTF-8 bytes of key, ':' and secret |
| Server.BasicCredentialRoundTrip | backend/server.js:12-14 | splitting the decoded credential at its first colon recovers the consumer key and secret when the key has no colon |
| Server.TokenAuthorization | backend/server.js:18 | the token request header is "Basic " followed by the credential of key and secret |
| Server.StkPassword | backend/server.js:31-33 | the password decodes to the UTF-8 bytes of shortcode, passkey and timestamp run together, and has length 4·⌈n/3⌉ for those n bytes |
| Server.StkPasswordShape | backend/server.js:30-33 | with an ASCII shortcode and passkey and a four-digit year, the password has length 4·⌈(|shortcode|+|passkey|+14)/3⌉ and uses only the Base64 alphabet and `=` |
| Server.FormatPhone | backend/server.js:36-38 | a leading '0' is replaced by "254"; any other phone, the empty one included, is unchanged |
| Server.FormatPhoneIdempotent | backend/server.js:36-38 | formatting twice equals formatting once, and a formatted phone never starts with '0' |
| Server.Ceil | backend/server.js:45 | the amount is the least integer not below the requested amount |
| Server.CeilCharacterised | backend/server.js:45 | an integer k is the rounded amount exactly when k ≥ x and k − x < 1, and integers are unchanged |
| Server.BuildPayload | backend/server.js:40-52 | PartyA = PhoneNumber = the formatted phone; PartyB = BusinessShortCode = shortcode; AccountReference = "SafiPay-" ++ id; TransactionType "CustomerPayBillOnline"; description and callback URL copied; Amount the rounded-up amount; Password decodes to shortcode ++ passkey ++ Timestamp |
| Server.PayloadTimestampCompact | backend/server.js:30-43 | for a four-digit year the payload timestamp is the compact YYYYMMDDHHMMSS of the clock |
| Server.ErrorValue | backend/server.js:63 | the error is the provider's response data when present and truthy, otherwise the error message |
| Server.SuccessResponse | backend/server.js:60 | status 200 with success true and the provider's data |
| Server.FailureResponse | backend/server.js:63 | status 500 with success false and the error value |
| Server.HandleStkPush | backend/server.js:24-65 | the token request goes first with the Basic header; the push follows exactly when the token arrived, with a Bearer header and the payload; 200 with the push data exactly when both calls succeed, otherwise the 500 failure for the first failing call |
| Server.StkPushResponseShape | backend/server.js:60-63 | every reply has status 200 or 500; success is true exactly for 200, and a 200 reply carries no error |
| Server.CallbackResponse | backend/server.js:68-72 | the callback reply is 200 with ResultCode 0 and ResultDesc "Success" |
| Server.CallbackIgnoresBody | backend/server.js:68-72 | the callback reply is the same for every request body |
| Records.Interpolated | src/components/TransactionTimeline.jsx:31 | a null column prints as "null" in a template literal, a present one as its text |
| Timeline.EventOf | src/components/TransactionTimeline.jsx:5-68 | the event of each kind has that kind; a payment request with a null `created_at` is dated at instant 0, as `new Date(null)` is |
| Timeline.PushedUpToSound | src/components/TransactionTimeline.jsx:2-68 | every pushed event belongs to a shown kind and carries that kind's date, title, description, icon and colour |
| Timeline.PushedUpToComplete | src/components/TransactionTimeline.jsx:2-68 | every shown kind is pushed |
| Timeline.PushedUpToIncreasing | src/components/TransactionTimeline.jsx:2-68 | the builder pushes kinds in strictly increasing push order |
| Timeline.InsertPermutes | src/components/TransactionTimeline.jsx:71 | insertion adds exactly the inserted event |
| Timeline.SortPermutes | src/components/TransactionTimeline.jsx:71 | the sort is a permutation of its input |
| Timeline.InsertOrdered | src/components/TransactionTimeline.jsx:71 | inserting an event pushed after all the others keeps the list ordered by date, then push order |
| Timeline.SortOrdered | src/components/TransactionTimeline.jsx:71 | sorting a list pushed in kind order orders it by date, and equal dates keep push order (stability) |
| Timeline.OrderedDateSorted | src/components/TransactionTimeline.jsx:71 | the strict ordering implies non-decreasing dates |
| Timeline.OrderedTies | src/components/TransactionTimeline.jsx:71 | events on one date keep push order |
| Timeline.OrderedDistinct | src/components/TransactionTimeline.jsx:2-68 | in the sorted list no kind appears twice |
| Timeline.InsertAt | src/components/TransactionTimeline.jsx:71 | stable insertion places the new event just after the last event not later than it, all events after that point being later |
| Timeline.InsertInPlace | src/components/TransactionTimeline.jsx:71 | one insertion step on the array leaves the prefix equal to the pure insertion and leaves the rest of the array unchanged |
| Timeline.SortByDate | src/components/TransactionTimeline.jsx:71 | the in-place sort leaves the array equal to the pure stable sort of its old contents |
| Timeline.CollectEvents | src/components/TransactionTimeline.jsx:2-68 | the six conditional pushes, each of `EventOf` for its kind, produce the specified list |
| Timeline.BuildTimeline | src/components/TransactionTimeline.jsx:2-71 | an event of each kind is present exactly when its condition holds (its date column is set; for the payment request, a non-empty M-Pesa code and status "pending_payment", dated by `created_at` or the epoch when that is null), with that date and the kind's title, description, icon and colour; dates are non-decreasing; no kind appears twice; equal dates keep push order; at most 6 events; a permutation of the pushed list |
| Timeline.TimelineSound | src/components/TransactionTimeline.jsx:2-71 | every event of the sorted list belongs to a shown kind and carries that kind's data |
| Timeline.TimelineComplete | src/components/TransactionTimeline.jsx:2-71 | the event of every shown kind is in the sorted list |
| Timeline.TimelineContents | src/components/TransactionTimeline.jsx:2-71 | the sorted list holds an event of a kind exactly when that kind is shown, each with its data |
| Timeline.TimelineOrdered | src/components/TransactionTimeline.jsx:71 | the sorted list is ordered by date, then push order, with distinct kinds and at most 6 events |
| EmailService.DashboardLink | backend/services/emailService.js:47 | the link is the configured frontend URL when set and non-empty, else http://localhost:5173, followed by "/dashboard" |
| EmailService.TemplateFor | backend/services/emailService.js:27-161 | each body lists description first, amount second and the notice's status last, and links to the dashboard; between them the created notice shows buyer and seller, the payment notice the M-Pesa receipt, the dispute notice the reason, and the release and refund notices nothing; the subject is the dispute constant exactly for a dispute and otherwise the notice's prefix followed by the amount |
| EmailService.SubjectDiffers | backend/services/emailService.js:29-137 | no amount turns another subject into the dispute subject |
| EmailService.SubjectDeterminesAmount | backend/services/emailService.js:29-137 | every subject other than the dispute one determines the amount text |
| EmailService.DisputeSubjectConstant | backend/services/emailService.js:110 | the dispute subject is the same for every transaction and amount |
| EmailService.FanOutTwoParties | backend/services/emailService.js:163-185 | the four two-party notices send two emails, buyer first, then seller, with one subject and one body |
| EmailService.FanOutRefund | backend/services/emailService.js:187-190 | the refund notice sends one email, to the buyer |
| EmailService.FanOutEmails | backend/services/emailService.js:163-190 | `FanOut` sends the template of the notice once to each of its `Recipients`: buyer then seller, or the buyer alone for a refund |
| EmailService.FanOutCarriesDescription | backend/services/emailService.js:27-190 | every email sent names the transaction's description first and goes to the buyer or the seller |
| EmailService.Mailer.SendEmail | backend/services/emailService.js:4-25 | appends the message to the outbox and reports success |
| EmailService.Mailer.NotifyTransactionCreated | backend/services/emailService.js:163-167 | the outbox grows by the fan-out of the created notice |
| EmailService.Mailer.NotifyPaymentReceived | backend/services/emailService.js:169-173 | the outbox grows by the fan-out of the payment notice |
| EmailService.Mailer.NotifyFundsReleased | backend/services/emailService.js:175-179 | the outbox grows by the fan-out of the release notice |
| EmailService.Mailer.NotifyDisputeRaised | backend/services/emailService.js:181-185 | the outbox grows by the fan-out of the dispute notice |
| EmailService.Mailer.NotifyRefundProcessed | backend/services/emailService.js:187-190 | the outbox grows by the single refund email |
| Dashboard.CreateProblem | src/pages/Dashboard.jsx:34-37 | there is no problem exactly when buyer email, seller email, amount and description are all non-empty; otherwise the message is "Please fill in all fields." |
| Dashboard.RowKeepsForm | src/pages/Dashboard.jsx:39-44 | the row `RowFor` builds: a new row keeps the form's emails and description, takes the parsed amount, status "held" and the user's id |
| Dashboard.DashboardPage.HandleCreate | src/pages/Dashboard.jsx:32-53 | a rejected form sets the message and inserts nothing; with no user it stops after setting submitting; otherwise it sends one insert; on success it resets and hides the form and reloads; on failure it shows the error and keeps the form; submitting ends false in both cases |
| Dashboard.StatusColorAsWritten | src/pages/Dashboard.jsx:60-65 | the badge as the source spells it: colours agree with the corrected table, an unknown status gets the neutral badge with its own text, and each known label starts with the three characters U+201A … where the intended symbol stands, the rest of the label unchanged |
| Dashboard.StatusColor | src/pages/Dashboard.jsx:60-65 | corrected labels (see Findings): held, complete and disputed get their fixed colours and the labels with ●, ✓ and ⚠; any other status gets the neutral badge labelled with the status itself |
| Dashboard.AsWrittenLabelsMisdecoded | src/pages/Dashboard.jsx:61-63 | each label in the source is the UTF-8 encoding of the intended label read as Mac OS Roman, and differs from it; colours and fallback agree |
| Dashboard.LabelIsStatusIffUnknown | src/pages/Dashboard.jsx:60-65 | the label equals the status exactly when the status is not held, complete or disputed |
| Dashboard.LabelsDistinguishStatuses | src/pages/Dashboard.jsx:60-65 | among known statuses, and among unknown ones, distinct statuses have distinct labels |
| Dashboard.WithStatus | src/pages/Dashboard.jsx:141-142 | the filter keeps only rows with the status and is no longer than the list |
| Dashboard.WithStatusMultiplicity | src/pages/Dashboard.jsx:141-142 | each row with the status occurs in the result exactly as often as in the list, and no other row occurs |
| Dashboard.WithStatusAppend | src/pages/Dashboard.jsx:141-142 | the filter distributes over concatenation, so it keeps the rows in their order |
| Dashboard.WithStatusCounts | src/pages/Dashboard.jsx:141-142 | the filter's length is the number of positions holding a row with the status |
| Dashboard.WithStatusKeepsAll | src/pages/Dashboard.jsx:141-142 | the filter keeps every row with the status |
| Dashboard.DisjointCounts | src/pages/Dashboard.jsx:139-143 | rows of two different statuses together number at most all rows |
| Dashboard.StatsOf | src/pages/Dashboard.jsx:139-143 | total is the row count; "In Escrow" is the number of rows with status "held" and "Completed" the number with "complete"; the two together are at most the total |
| Signup.Utf16Length | src/pages/Signup.jsx:23 | the JavaScript length lies between the character count and twice it |
| Signup.Utf16LengthBmp | src/pages/Signup.jsx:23 | within the Basic Multilingual Plane the JavaScript length is the character count |
| Signup.PasswordProblem | src/pages/Signup.jsx:19-26 | a mismatch is reported before length is considered; a matching password shorter than 6 is too short; there is no problem exactly when the two agree and the length is at least 6 |
| Signup.AstralPasswordAccepted | src/pages/Signup.jsx:23 | five characters outside the Basic Multilingual Plane pass the length check |
| Signup.MatchIndicator | src/pages/Signup.jsx:129-134 | nothing while the confirm field is empty; otherwise exactly one of mismatch or match, by equality |
| Signup.IndicatorShowsText | src/pages/Signup.jsx:129-134 | the line `IndicatorText` shows is empty while the confirm field is empty, "Passwords do not match" exactly when the fields differ, and "✓ Passwords match" exactly when they agree |
| Signup.BorderAgreesWithIndicator | src/pages/Signup.jsx:123-131 | the border `ConfirmBorder` gives is red exactly when the mismatch line shows |
| Signup.MatchShownPassesFirstCheck | src/pages/Signup.jsx:19-134 | a shown match means the handler's first check passes |
| Signup.SignupPage.HandleSignup | src/pages/Signup.jsx:17-39 | a failed check sets its message and makes no call; otherwise one sign-up call with email, password and phone as metadata, then the service's error or the confirmation message; loading ends false; the message is never cleared |

## Left out

- Network I/O is left out: the axios token and push requests, Express routing, CORS, JSON body parsing, the health route and `listen`. The provider's replies are parameters of `Server.HandleStkPush`.
- The process environment is left out. Its values are the fields of `Server.MpesaConfig` and the `frontendUrl` option. An unset variable interpolating as "undefined" is not modelled.
- `sendEmail` sends nothing in the source: it logs and returns success, and the model records each message in an outbox instead.
- Console logging is left out (server.js:62, 70; emailService.js:12-16). So are Supabase queries, authentication, the initial user load and `fetchTransactions`, and navigation.
- React rendering, styling, the show-password toggles and input setters are left out.
- Number formatting is left out: `toLocaleString` is the `amountText` parameter and `toLocaleDateString` is not modelled.
- Date parsing is left out: timeline dates are integer instants.
- JavaScript number semantics are left out. Amounts are `real`, so `Math.ceil` on NaN, infinite values or −0, and `parseFloat` (the `parsedAmount` parameter), are not modelled.
- A request body without a phone string makes `phone.startsWith` throw inside the handler. The model takes the body's fields as typed values, so that case is not modelled.
- The token is `res.data.access_token` as the provider returns it. A reply without that field, which would send "Bearer undefined", is not modelled.
- Strings are sequences of Unicode scalar values, so lone UTF-16 surrogates cannot occur in the model.
- The email markup is left out. Each body is its heading, detail fields and link. The brand line, the button text and the fixed explanatory paragraph are not modelled.
- `EmailService.Mailer.SendEmail` is asynchronous in the source. The model treats each `await` as completing in order.
- A column that is `undefined` rather than null is not modelled: nullable columns are options. For the payment request's date that case would make the comparator yield NaN and leave the order implementation-defined; a null date is the epoch and is modelled.
- Timeline.BuildTimeline: events of kinds that are not shown are never built, and React's rendering of a null dispute reason as nothing is modelled as the empty description.
- Dashboard.DashboardPage.HandleCreate: the `Crashed` outcome stands for the TypeError thrown when no user is signed in. The rejected promise itself is not modelled.
- Server.StkPasswordShape: states the exact length only for an ASCII shortcode and passkey and a four-digit year. `Server.NodeBase64` gives the general length in terms of the UTF-8 byte count.
- Server.BasicCredentialRoundTrip: holds only for a consumer key without ':'. For a key that contains ':' the split back is ambiguous, as section 2 of RFC 7617 notes.

## Findings

| source | as written | input that shows it | evidently intended | confidence | as-written member | corrected member |
|---|---|---|---|---|---|---|
| src/pages/Dashboard.jsx:61-63 | the badge labels begin with U+201A U+00F3 U+00E8, U+201A U+00FA U+00EC and U+201A U+00F6 U+2020: the UTF-8 bytes of ●, ✓ and ⚠ read as Mac OS Roman | status "held" shows "‚óè In Escrow" | "● In Escrow", "✓ Complete", "⚠ Disputed" | high (not executed) | Dashboard.StatusColorAsWritten, Dashboard.AsWrittenLabelsMisdecoded | Dashboard.StatusColor, Dashboard.LabelIsStatusIffUnknown |
