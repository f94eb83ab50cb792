# StudentHub core, modelled in Dafny

StudentHub is a small admin application for a tutoring business. It keeps
students, bookings (a class with one or more enrolled students, each enrollment
with an `attended` flag) and payments. From those it derives each student's
balance. Every minute a background job e-mails a reminder to every student
enrolled in a class that starts a configurable number of minutes ahead.

This project models that core as Dafny functions, methods and a class, and
proves properties of it.

- **Ledger.** The ledger is written in two copies, on the payments page and
  on the students page. It is modelled once:
  - lessons are `(end − start) / 45 min` over the bookings the student
    attended;
  - the rate is the group rate when the booking has more than one student;
  - the balance is what is owed minus the student's payments.
- **Currency display.** Debts display as `-N kr` and credit as `+N kr`.
- **Attendance toggle.** The bookings page flips one student's flag in one
  booking.
- **Reminder scheduler.** The settings file, the reminder e-mail, and the
  per-minute tick over a half-open one-minute window. The start-once
  scheduler is a class. The test-email diagnostic route uses the same
  window.
- **API routes.** The create/list routes for bookings, payments and students.
- **Search and password pages.** The two search pages, and the
  change-password form.
- **Authentication.** Login (plain text or bcrypt), the change-password
  route, and the middleware that gates every path on the session cookie.
- **Upload.** The image upload route and its file-name sanitiser.

Times are integer milliseconds. Amounts, rates and the lead time are exact
`real`s. JavaScript's `Math.round` is `Floor(x + 1/2)`, and `new Date(x)`
drops a fraction toward zero. String lengths are counted in UTF-16 code units.

The following are parameters rather than definitions, because the application
gets them from outside its own code:
- the mail transport and bcrypt verification;
- the database's accept/reject decision;
- whether a file write succeeds;
- number parsing and printing (`show`, `parse`, `parseFloat`, `decimal`);
- date parsing (`toDate`) and the calendar-day comparison.

Files:
- `wrappers.dfy`, `text.dfy`, `seqs.dfy`, `json.dfy` and `domain.dfy` hold the
  shared pieces:
  - `Option`;
  - the JavaScript string operations;
  - `filter`/`map` and the database orderings;
  - request-body values;
  - the records.
- Each other file models one source file.

Two choices follow the code as written:
- A booking whose end is not after its start yields a zero or negative number
  of lessons. It is not clamped to zero: `LessonUnits` is
  `(end − start) / 45 min` whatever the sign.
- Amounts are summed as the page sums them, with no decimal-specific step.
  The model's exact `real`s stand in for both.

## Model

| member | source | states |
|---|---|---|
| `Ledger.LessonUnits` | src/app/payments/page.tsx:158-159 | a booking's lesson count times 45 minutes is exactly its duration |
| `Ledger.TotalLessons` | src/app/payments/page.tsx:151-165 | zero when the student attended nothing; never negative when no booking ends before it starts |
| `Ledger.TotalOwed` | src/app/payments/page.tsx:172-186 | zero when the student attended nothing |
| `Ledger.FindStudent` | src/app/payments/page.tsx:168-169 | finds nothing exactly when no student has the id; otherwise a listed student with that id |
| `Ledger.FindAttended` | src/app/payments/page.tsx:156 | finds an enrollment exactly when the student has an attended enrollment in the booking, and returns such an enrollment |
| `Ledger.GetTotalLessons` | src/app/payments/page.tsx:151-165 | the loop's accumulated total equals the lesson sum over the attended bookings |
| `Ledger.GetTotalOwed` | src/app/payments/page.tsx:167-194 | the loop returns owed minus that student's payments; an unknown student gets exactly 0, even if payments name that id |
| `Ledger.JsRound` | src/app/payments/page.tsx:197 | the result is the nearest integer, with halves going up |
| `Ledger.FormatCurrency` | src/app/payments/page.tsx:196-205 | ends in " kr"; starts with '-' exactly when the rounded balance is positive and with '+' exactly when it is negative; is "0 kr" exactly when it rounds to 0 |
| `Ledger.DuplicateEnrollmentBilledOnce` | src/app/payments/page.tsx:175-176 | a second attended enrollment of the same student adds no lessons: each booking counts once |
| `Ledger.ForeignPaymentIgnored` | src/app/payments/page.tsx:189-190 | inserting another student's payment anywhere leaves the total paid unchanged |
| `Ledger.PrivateLessonBalance` | src/app/payments/page.tsx:177-184 | one attended 45-minute lesson alone, with no payments, leaves a balance of exactly the private rate |
| `Ledger.GroupLessonCharge` | src/app/payments/page.tsx:181-184 | one attended 90-minute lesson with at least two enrolled students costs twice the group rate |
| `Ledger.FormatCurrencyReadBack` | src/app/payments/page.tsx:196-205 | reading the displayed text back gives the rounded balance, sign flip undone |
| `Ledger.FormatCurrencyExamples` | src/app/payments/page.tsx:196-205 | 150.4 → "-150 kr", −20 → "+20 kr", 0 → "0 kr", −0.5 → "0 kr", 0.5 → "-1 kr" |
| `StudentsPage.GetTotalOwed` | src/app/students/page.tsx:85-112 | the students page's balance equals the payments page's balance on the same lists; unknown students get 0 |
| `StudentsPage.FormatCurrency` | src/app/students/page.tsx:114-123 | the same sign-flip contract as the payments page, including "0 kr" |
| `StudentsPage.PagesAgreeOnDisplay` | src/app/students/page.tsx:114-123 | both pages show identical text, which reads back to the rounded balance |
| `BookingsPage.FindEnrollment` | src/app/bookings/page.tsx:80 | finds nothing exactly when no enrollment has the student id; otherwise the student's first enrollment (no earlier one has that id) |
| `BookingsPage.NewAttended` | src/app/bookings/page.tsx:80-82 | a missing enrollment toggles to true; otherwise the value is the negation of the flag on the student's first enrollment (so, when the student's flags agree, of that flag) |
| `BookingsPage.SetAttendedIn` | src/app/bookings/page.tsx:105-109 | same length; the student's enrollments take the new flag, and every other enrollment and field is unchanged |
| `BookingsPage.SetAttendance` | src/app/bookings/page.tsx:100-113 | same length; only the booking with the id changes, and only in that student's flags |
| `BookingsPage.HandleAttended` | src/app/bookings/page.tsx:77-121 | sends the negated flag for that booking and student; on an ok reply the list is updated as above with no alert; otherwise the list is untouched and an alert is shown |
| `BookingsPage.BookingsForSelectedDate` | src/app/bookings/page.tsx:65-71 | no selected date gives the empty list; otherwise an order-preserving sublist holding exactly the bookings that start on that day |
| `BookingsPage.AttendedAfterSet` | src/app/bookings/page.tsx:105-109 | after the update the student counts as attended exactly when the flag was set true and they are enrolled; other students keep their status |
| `BookingsPage.UnattendRemovesLessons` | src/app/bookings/page.tsx:100-113 | un-attending a booking removes exactly its contribution: the recomputed total equals the total over the other bookings |
| `BookingsPage.OtherStudentsLessonsUnaffected` | src/app/bookings/page.tsx:100-113 | toggling one student leaves every other student's lesson total unchanged |
| `BookingsPage.OtherStudentsChargesUnaffected` | src/app/bookings/page.tsx:100-113 | toggling one student leaves every other student's amount owed unchanged |
| `BookingsPage.ToggleTwiceRestores` | src/app/bookings/page.tsx:77-113 | with unique booking ids and the student's flags in the booking agreeing, two successful toggles restore the original list |
| `EmailSettings.Get` | src/app/api/settings/email/route.ts:7-19 | the stored object when the file parses; `{minutesBefore: 2}` when it is missing or unreadable |
| `EmailSettings.LeadTime` | src/lib/emailScheduler.ts:33 | the stored minutes when truthy, else 2; never 0 |
| `EmailSettings.Post` | src/app/api/settings/email/route.ts:21-40 | 400 exactly when the value is not a number from 1 to 60; on a successful write stores and echoes `{minutesBefore: v}`; otherwise the file is unchanged |
| `EmailSettings.PostThenGet` | src/app/api/settings/email/route.ts:26-33 | after a save, GET returns the saved settings and the lead time is the saved value, within [1, 60] |
| `EmailSettings.DefaultLeadTime` | src/lib/emailScheduler.ts:7-18 | with no file, an unreadable file, or a falsy value, every reader uses 2 minutes |
| `EmailSettings.FailedPostKeepsLeadTime` | src/app/api/settings/email/route.ts:26-39 | a rejected or failed POST leaves the effective lead time as it was |
| `Email.TimeText` | src/lib/email.ts:31 | "1 minute" for one minute; otherwise the printed number followed by " minutes" |
| `Email.Subject` | src/lib/email.ts:36 | starts with "Reminder: Class starting in " and ends with the class title |
| `Email.ReminderMessage` | src/lib/email.ts:33-51 | the message goes to the student's address with their name, the title and start, the time text, and the subject built from them |
| `Email.SendClassReminderEmail` | src/lib/email.ts:15-62 | success with the transport's message id exactly when the transport delivers; otherwise failure with the transport's error, never an exception |
| `Email.DefaultIsTwoMinutes` | src/lib/email.ts:20 | omitting the lead time gives the same message as passing 2 |
| `Email.SubjectNamesClass` | src/lib/email.ts:36 | the subject reads as the fixed prefix, the time text, " - ", then the title, each readable from its place |
| `Email.SingularOnlyForOne` | src/lib/email.ts:31 | the text is "1 minute" exactly when the lead time is 1 |
| `Scheduler.DateOf` | src/lib/emailScheduler.ts:36-37 | the fraction of a millisecond time is dropped toward zero |
| `Scheduler.WindowIsOneMinute` | src/lib/emailScheduler.ts:36-37 | for non-negative times the window is exactly 60000 ms wide |
| `Scheduler.NextWindowAdjacent` | src/lib/emailScheduler.ts:36-42 | the window of a run one minute later starts exactly where this window ends, so the two never overlap |
| `Scheduler.LaterWindow` | src/lib/emailScheduler.ts:36-37 | the k-th run's window is the first window shifted by k minutes |
| `Scheduler.MatchedByExactlyOneRun` | src/lib/emailScheduler.ts:30-47 | with runs a minute apart, a class starting at or after the first window is matched by exactly one run, the one k = ⌊(start − first window) / 1 min⌋ later |
| `Scheduler.TwoMinuteExample` | src/lib/emailScheduler.ts:36-47 | with 2 minutes' lead the window is [now+120000, now+180000); a start of now+150000 matches, now+119000 and now+181000 do not |
| `Scheduler.AttemptsPerEnrollment` | src/lib/emailScheduler.ts:62-76 | one send attempt per enrollment of the matched bookings |
| `Scheduler.EveryEnrolledStudentReminded` | src/lib/emailScheduler.ts:66-72 | every enrolled student of every matched booking gets a reminder carrying their e-mail, "first last", the title, the start and the lead time |
| `Scheduler.RemindersIndependentOfTransport` | src/lib/emailScheduler.ts:62-76 | the reminders attempted are the same whatever the transport reports, so a failure does not stop the loop |
| `Scheduler.AttendanceDoesNotAffectUpcoming` | src/lib/emailScheduler.ts:43-57 | marking attendance does not change which bookings the window matches |
| `Scheduler.AttendanceDoesNotAffectReminders` | src/lib/emailScheduler.ts:62-76 | marking attendance does not change the reminders sent |
| `Scheduler.SendBookingReminders` | src/lib/emailScheduler.ts:63-74 | the inner loop sends one reminder per enrolled student, in enrollment order, each with that student's e-mail and "first last" name and the booking's title and start, whatever the transport reports |
| `Scheduler.RunTick` | src/lib/emailScheduler.ts:31-84 | the nested loops yield exactly `TickAttempts(Upcoming(stored, now, m))`, and `emailCount` is their number, the enrollment count, failures included |
| `Scheduler.EmailScheduler.constructor` | src/lib/emailScheduler.ts:20 | starts not running, with no job registered |
| `Scheduler.EmailScheduler.Start` | src/lib/emailScheduler.ts:22-88 | afterwards the scheduler is running with exactly one job; when already running nothing changes |
| `Scheduler.StartTwice` | src/lib/emailScheduler.ts:22-88 | starting twice leaves one registered job |
| `TestEmail.ReadLeadTime` | src/app/api/test-email/route.ts:26-31 | nothing exactly when the file is unreadable; otherwise the same lead time the scheduler uses |
| `TestEmail.TestEmailReport` | src/app/api/test-email/route.ts:4-72 | 500 exactly for an unreadable settings file; otherwise the scheduler's window for the same time and lead time, the total equal to the number of bookings, all bookings' views ordered by ascending start and a permutation of the stored ones, and as upcoming exactly the listed views whose start lies in the window, in listed order |
| `TestEmail.UpcomingDrawnFromAll` | src/app/api/test-email/route.ts:37-65 | the upcoming list is an order-preserving sublist of all bookings, ordered by start |
| `TestEmail.ReportAgreesWithScheduler` | src/app/api/test-email/route.ts:33-39 | for a readable file, the report's upcoming list holds the views of exactly the bookings a scheduler run at the same time matches, each as often (order aside) |
| `BookingsApi.Post` | src/app/api/bookings/route.ts:18-48 | 400 exactly when ids are missing or empty or title, start or end is falsy; otherwise 500 exactly when the ids are not an array or the database refuses the record; a 201 carries a record the database accepted: one enrollment per id, in order, with `attended: false`, and notes `?? null` |
| `BookingsApi.DraftOf` | src/app/api/bookings/route.ts:27-38 | the record keeps title, dates and notes `?? null`, with one unattended enrollment per id, in order |
| `BookingsApi.NewBookingBillsNothing` | src/app/api/bookings/route.ts:32-37 | a created booking bills no lessons and no charge to anyone |
| `BookingsApi.EndBeforeStartAccepted` | src/app/api/bookings/route.ts:22-30 | a booking that ends before it starts passes the route's checks and is created whenever the database takes it |
| `BookingsApi.List` | src/app/api/bookings/route.ts:4-16 | every stored booking, ordered by ascending start |
| `PaymentsApi.Post` | src/app/api/payments/route.ts:20-77 | 400 exactly when student or amount is falsy; the record carries `Number(studentId)`, the decimal amount, notes `?? null` and a booking link when truthy; the link is dropped only after the linked create fails; 500 on a bad amount or when both creates fail |
| `PaymentsApi.ZeroAmountRejected` | src/app/api/payments/route.ts:29-31 | amount 0 gets 400; the text "0" passes the check |
| `PaymentsApi.LinkKeptWhenAccepted` | src/app/api/payments/route.ts:39-48 | when the database accepts, the payment is created with its booking link |
| `PaymentsApi.List` | src/app/api/payments/route.ts:5-18 | every stored payment, newest first |
| `StudentsApi.RateOrZero` | src/app/api/students/route.ts:22-23 | a falsy rate is 0, otherwise the parsed rate |
| `StudentsApi.Post` | src/app/api/students/route.ts:9-27 | 400 exactly when first name, last name or e-mail is falsy; otherwise 500 exactly when the database refuses the record; a 201 carries the accepted record: the names and e-mail as given, phone and image `?? null`, rates as above |
| `StudentsApi.DraftOf` | src/app/api/students/route.ts:15-25 | the record keeps names and e-mail, phone and image `?? null`, and the rates or 0 |
| `StudentsApi.NoRatesNoCharge` | src/app/api/students/route.ts:22-23 | a student created without rates owes nothing for any bookings |
| `StudentsApi.List` | src/app/api/students/route.ts:4-7 | every stored student, highest id first |
| `StudentSearch.Search` | src/app/students/search/page.tsx:41-61 | a blank query shows every student; the result is always an order-preserving sublist |
| `StudentSearch.SearchMembership` | src/app/students/search/page.tsx:45-58 | for a non-blank query a student is shown exactly when the lower-cased, trimmed query occurs in the first, last or full name, e-mail or phone (missing phone as "") |
| `StudentSearch.CaseInsensitive` | src/app/students/search/page.tsx:42-45 | queries that differ only in letter case show the same students |
| `StudentSearch.FindsOwnEmail` | src/app/students/search/page.tsx:45-57 | searching for a student's own non-blank e-mail finds them |
| `PaymentSearch.Search` | src/app/payments/search/page.tsx:46-60 | a blank query shows every payment; the result is always an order-preserving sublist |
| `PaymentSearch.SearchMembership` | src/app/payments/search/page.tsx:50-57 | for a non-blank query a payment is shown exactly when the lower-cased, untrimmed query occurs in the student's names or e-mail, the printed amount, or non-empty notes |
| `PaymentSearch.MissingNotesNeverMatch` | src/app/payments/search/page.tsx:56 | a payment without notes is not matched through its notes |
| `PaymentSearch.FormatCurrency` | src/app/payments/search/page.tsx:62-64 | ends in " kr" and starts with '-' exactly when the amount rounds below zero (no sign flip) |
| `PaymentSearch.FormatCurrencyReadBack` | src/app/payments/search/page.tsx:62-64 | reading the display back gives the rounded amount: its digits are the amount's size, led by '-' exactly when it is negative |
| `PaymentSearch.FormatCurrencyFaithful` | src/app/payments/search/page.tsx:62-64 | two amounts display alike exactly when they round alike |
| `PaymentSearch.DisplaysDiffer` | src/app/payments/search/page.tsx:62-64 | 150 is "150 kr" here and "-150 kr" in the ledger |
| `PasswordPage.ErrorText` | src/app/settings/password/page.tsx:55 | never empty: a failed reply always shows some message (the generic one when the server gives no error text) |
| `PasswordPage.OnSubmit` | src/app/settings/password/page.tsx:14-64 | mismatch first, then fewer than 6 UTF-16 units, each with its message and no request; otherwise sends exactly current and new; success clears all three fields and goes to login; a failure keeps the fields and shows the server error, or "Error changing password" with no reply |
| `PasswordPage.MismatchCheckedFirst` | src/app/settings/password/page.tsx:20-32 | an unconfirmed short password gets the mismatch message |
| `PasswordPage.LengthInCodeUnits` | src/app/settings/password/page.tsx:27 | two emoji and two letters count as 6 and pass |
| `Login.StoredCredential` | src/app/api/auth/login/route.ts:7-32 | the hash if present, else the plain password, else nothing (also for a missing or unreadable file) |
| `Login.PasswordMatches` | src/app/api/auth/login/route.ts:51-63 | bcrypt verification for a `$2b$` value, string equality otherwise; bcrypt without a password throws |
| `Login.Post` | src/app/api/auth/login/route.ts:34-83 | a username other than admin gets 401; no credential gets 500 "Authentication system not configured"; success exactly when the password matches, setting the session cookie; 500 "Login failed" exactly when bcrypt gets no password |
| `Login.SessionLastsSevenDays` | src/app/api/auth/login/route.ts:68-73 | the cookie lives 604800 seconds |
| `Login.SameRejection` | src/app/api/auth/login/route.ts:40-78 | a wrong username and a wrong password get the identical reply |
| `Login.HashTakesPrecedence` | src/app/api/auth/login/route.ts:15-23 | while a hash is stored, the plain `password` field opens nothing that bcrypt rejects |
| `Middleware.Gate` | src/middleware.ts:4-20 | login, init and `/api/auth/` paths pass; any other path passes exactly with the cookie "authenticated", else redirects to /login |
| `Middleware.LoginOpensEveryPath` | src/middleware.ts:14-19 | the cookie set by a successful login opens every path |
| `Middleware.NoSessionOnlyOpenPaths` | src/middleware.ts:9-17 | without a cookie exactly the open paths pass, the auth routes among them |
| `ChangePassword.StoredPassword` | src/app/api/auth/change-password/route.ts:8-19 | "admin123" without a readable file; otherwise the file's plain `password` field, absent if missing |
| `ChangePassword.SavedFile` | src/app/api/auth/change-password/route.ts:21-29 | the written record holds only `{password}`, so login reads the new password back as a plain credential |
| `ChangePassword.Post` | src/app/api/auth/change-password/route.ts:31-68 | no session → 401 first; a missing field → 400; a wrong current password → 401; on success writes `{password: new}` and deletes the cookie; every failure keeps the file and the cookie |
| `ChangePassword.HashOnlyFileBlocksChange` | src/app/api/auth/change-password/route.ts:8-52 | with a hash-only file, login accepts the password while the change always answers 401 |
| `ChangePassword.PostCorrected` | src/app/api/auth/change-password/route.ts:31-68 | as the route, but the current password is checked the way login checks it |
| `ChangePassword.LoginPasswordAuthorisesChange` | src/app/api/auth/change-password/route.ts:49-52 | under the correction, every non-empty password that logs in authorises a change |
| `ChangePassword.CorrectionAgreesOnPlainText` | src/app/api/auth/change-password/route.ts:49-52 | with a plain-text file the correction decides exactly as the route does |
| `ChangePassword.ChangeSignsOut` | src/app/api/auth/change-password/route.ts:61-63 | after a change the session is gone, protected paths redirect, and a new password that is not a `$2b$` string logs in |
| `ChangePassword.SaveFailureKeepsSession` | src/app/api/auth/change-password/route.ts:55-58 | a failed save answers 500 and keeps the file and the cookie |
| `ChangePassword.FormRequestsHaveFields` | src/app/api/auth/change-password/route.ts:44-46 | a request the form sends with a current password passes the route's presence check |
| `Upload.SanitizeChar` | src/app/api/upload/route.ts:21 | the replacement takes as many UTF-16 units as the character |
| `Upload.Sanitize` | src/app/api/upload/route.ts:21 | the same UTF-16 length as the name; every character in [a-zA-Z0-9._-] |
| `Upload.SafeNameUnchanged` | src/app/api/upload/route.ts:21 | a name of safe characters is unchanged |
| `Upload.SanitizeIdempotent` | src/app/api/upload/route.ts:21 | sanitising twice equals sanitising once |
| `Upload.SanitizePointwise` | src/app/api/upload/route.ts:21 | without characters above U+FFFF, kept characters stay in place and the others become '_' one for one |
| `Upload.Post` | src/app/api/upload/route.ts:5-37 | no file → 400; a type not starting "image/" → 400; on a successful write the name is timestamp-dash-sanitised name and the URL "/uploads/" plus that name |
| `Upload.StoredNameIsPlainFileName` | src/app/api/upload/route.ts:20-28 | the stored name has no path separator and starts with a digit, so it stays inside the uploads folder |
| `Upload.TimestampReadBack` | src/app/api/upload/route.ts:20-21 | the upload time reads back from the digits before the first dash |

## Left out

- Storage is not modelled:
  - database queries and the client;
  - the settings and password files;
  - the uploaded file's bytes.
  Stored lists are inputs. A file is a datatype (missing, unreadable, parsed). A write's or create's success is a boolean or a function parameter.
- The cron timer and the async plumbing are not modelled. One run of the job is `Scheduler.RunTick` at a given `now`. Runs are taken to be exactly one minute apart; real timer jitter is not modelled. The database returns the matched bookings in an unspecified order, and the model keeps the stored order.
- The nodemailer transport and its connection check are one function from a message to delivered or error. The sender address comes from configuration and is not modelled. The HTML layout around the interpolated fields is not modelled.
- bcrypt is an uninterpreted verification function. `generateSecurePassword` (random) and the password scripts are not part of this model.
- JavaScript floating point is not modelled. Amounts, rates and lead times are exact reals, so neither the page's float summation nor the `Decimal` round trip of payment amounts drifts. NaN is represented as an absent number.
- The conversions are not written out: number-to-string (`show`), `Number` on strings (`parse`), `parseFloat`, `new Decimal(String(x))` and `new Date(x)` for request values. They are parameters. The printing of integers (rounded currency, upload timestamps) is written out exactly as digits; JavaScript's exponent notation for magnitudes of 10^21 and more is not modelled.
- Locale and time-zone formatting (`toLocaleString`, `toDateString`) is not modelled. The report's times are milliseconds, and the calendar-day test is a parameter.
- Lower-casing covers ASCII letters only. Unicode case mapping is not modelled.
- `ToNumber` treats a non-empty array as NaN. JavaScript would convert a one-element array by its element.
- A request body that is not JSON, or whose fields have unexpected types (a non-string title, a numeric password), is not modelled beyond the cases above. Neither are the uncaught exceptions such input causes.
- The middleware's path matcher (which excludes static files) is not modelled. The gate is modelled for every path it is applied to.
- EmailSettings.Get: a settings file is read as holding a number or nothing. A file that stores the text "5" is truthy, so the scheduler uses it, and `minutesBefore + 1` then joins strings; that case is not modelled.
- Login.StoredCredential: the password file's fields are read as strings. A truthy non-string `passwordHash`, or a truthy non-string `password` with no hash, makes the source throw in `startsWith`, giving 500 "Login failed"; the model does not represent that case.
- TestEmail.TestEmailReport: bookings with equal start times are listed in their stored order (a stable sort). The database's `orderBy` on start time leaves their order open, so the model fixes one of the orders the route may produce. `BookingsApi.List`, `PaymentsApi.List` and `StudentsApi.List` do the same for equal keys.
- Client-only UI (navigation, calendar, forms without logic) and the trivial auth-check and init routes are not part of this model.

## Findings

| source | as written | input that shows it | evidently intended | confidence | as-written member | corrected member |
|---|---|---|---|---|---|---|
| src/app/api/auth/change-password/route.ts:8-19 | the current password is compared only with the file's plain `password` field | the password file written by the setup script, `{passwordHash: <bcrypt hash of p>}`, and currentPassword p: login accepts p, change-password answers 401 "Current password is incorrect" for every current password | check the current password against the credential login uses (hash first, bcrypt for `$2b$`) | medium, not executed | `ChangePassword.HashOnlyFileBlocksChange` | `ChangePassword.PostCorrected` |
