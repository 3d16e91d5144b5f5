# TalentBridge front-end state engines and back-end helpers, in Dafny

This project models the parts of the TalentBridge job portal that hold its
logic:

- **Chat widget.** The AI chat widget's state engine: a directory of sessions,
  the selected session and its message log, the input box and the request
  flags. Its handlers open, load, create, send and delete.
- **Password-reset wizard.** The two-step wizard (ask for a one-time code by
  email, then verify it), with its code sanitiser, countdown and "mm:ss"
  clock. It is followed by the reset page, with its entry guard, its ordered
  password checks and its hints.
- **Admin analytics page.** The number and percentage labels, the "T<month>/<year>"
  month labels, the line chart, the bar charts, the two pie charts with their
  colour cycling, and the loading flag.
- **Admin dashboard service.** The back end behind that page: month-over-month
  growth, the approval rate, the six-month series and the top-ten lists.
- **Mail service helpers.** The resume-status table, the job record of the
  job-alert mail, the two placeholders of the password-reset mail (with Java's
  `String.formatted` modelled for `%s` and `%%`), and the not-found path of a
  manual job alert.

Each front-end component whose handlers update state is a `class` with those
state fields:

- `ChatWidget.Widget`
- `ForgotPassword.Form`
- `ResetPassword.Page`
- `AnalyticsPage.Page`

Each handler is a method that runs as one atomic step. The server's answers
are method parameters of type `Remote<T>` (a payload or an error message).
So are the clock readings, the user's answers to confirmation dialogs, and
the repositories (as functions). Toasts are recorded as an appended log, and
navigation as a field. Pure formatting and mapping code is written as
functions, with lemmas that state what it means.

Files:

- `remote.dfy`: `Option`, `Remote`, `Toast`, and the `message || fallback` rule of the error toasts.
- `text.dfy`: the string primitives, with their round-trip lemmas. These are JavaScript `trim`, `substring` truncation, decimal rendering and reading, `padStart`, `parseInt`, `split`, and Java's `toUpperCase`.
- `chat_widget.dfy`, `forgot_password.dfy`, `reset_password.dfy` and `analytics_page.dfy`: the front end.
- `dashboard_dto.dfy`: the records the dashboard sends, and calendar months with the "yyyy-MM" format.
- `admin_dashboard.dfy` and `email_service.dfy`: the back end.

## Model

| member | source | states |
|---|---|---|
| `Text.Trim` | TalentBridge-Frontend/src/components/custom/ChatWidget.tsx:114-116 | the trimmed text is the stretch of the input that begins where leading whitespace ends, with only whitespace after it; it neither starts nor ends with whitespace, and is empty exactly when the input is all whitespace |
| `Text.TrimInfix` | TalentBridge-Frontend/src/components/custom/ChatWidget.tsx:114-116 | stripping the front and then the back leaves a stretch of the input with only whitespace on either side of it |
| `Text.TrimEmpty` | TalentBridge-Frontend/src/components/custom/ChatWidget.tsx:114 | `trim()` is empty exactly when the input is all whitespace |
| `Text.TrimUnpadded` | TalentBridge-Frontend/src/components/custom/ChatWidget.tsx:116 | a text without surrounding whitespace is its own trim |
| `Text.Truncate` | TalentBridge-Frontend/src/components/custom/ChatWidget.tsx:361-363 | a text longer than n becomes its first n characters plus "...", a shorter one is unchanged |
| `Text.ParseNatToString` | TalentBridge-Frontend/src/pages/client/auth-page/ForgotPasswordForm.tsx:143 | a rendered number reads back as itself |
| `Text.PadStart` | TalentBridge-Frontend/src/pages/client/auth-page/ForgotPasswordForm.tsx:143 | `padStart` makes the text as long as the width, or leaves a longer text its own length |
| `Text.PadStartShape` | TalentBridge-Frontend/src/pages/client/auth-page/ForgotPasswordForm.tsx:143 | the padded text ends with the original and holds only the fill character before it |
| `Text.ParseZeroPadded` | TalentBridge-Frontend/src/pages/client/auth-page/ForgotPasswordForm.tsx:143 | left zero padding does not change the value of a digit string |
| `Text.Pad2Digits` | TalentBridge-Frontend/src/pages/client/auth-page/ForgotPasswordForm.tsx:143 | a number below 100 pads to two digits that read back as the number |
| `Text.ParseIntOfDigits` | TalentBridge-Frontend/src/pages/admin/analytics-page/index.tsx:77 | `parseInt` of a non-empty digit string is its decimal value, leading zeros dropped |
| `Text.SplitAtFirst` | TalentBridge-Frontend/src/pages/admin/analytics-page/index.tsx:76 | `split` cuts at the first separator: the piece before it, then the pieces of the rest |
| `Text.SplitNoSeparator` | TalentBridge-Frontend/src/pages/admin/analytics-page/index.tsx:76 | a text without the separator splits into itself alone |
| `Text.ToUpper` | BackEnd-Works/src/main/java/com/TranAn/BackEnd_Works/service/impl/EmailServiceImpl.java:310 | upper-casing keeps the length and maps each lower-case letter to its capital |
| `Text.ToUpperOfUpper` | BackEnd-Works/src/main/java/com/TranAn/BackEnd_Works/service/impl/EmailServiceImpl.java:310 | a text with no lower-case letter is its own upper case |
| `Text.ToUpperIdempotent` | BackEnd-Works/src/main/java/com/TranAn/BackEnd_Works/service/impl/EmailServiceImpl.java:310 | upper-casing twice is upper-casing once |
| `ChatWidget.RemoveId` | TalentBridge-Frontend/src/components/custom/ChatWidget.tsx:153 | the filter removes exactly the messages with the id and keeps every other message |
| `ChatWidget.RemoveIdConcat` | TalentBridge-Frontend/src/components/custom/ChatWidget.tsx:153 | filtering a concatenation is filtering each part, so the kept messages stay in their order |
| `ChatWidget.RollbackRestores` | TalentBridge-Frontend/src/components/custom/ChatWidget.tsx:117-153 | rolling back a failed send restores the log exactly when no earlier message shares the provisional id |
| `ChatWidget.RollbackDropsCollision` | TalentBridge-Frontend/src/components/custom/ChatWidget.tsx:121-153 | an earlier message sharing the provisional id is lost in the rollback, so the log ends shorter than before |
| `ChatWidget.SessionIds` | TalentBridge-Frontend/src/components/custom/ChatWidget.tsx:182 | one clear request per listed session, in directory order |
| `ChatWidget.FirstClearFailure` | TalentBridge-Frontend/src/components/custom/ChatWidget.tsx:182-192 | no failure exactly when every clear succeeds; a reported failure is the error of some listed session |
| `ChatWidget.FormatDate` | TalentBridge-Frontend/src/components/custom/ChatWidget.tsx:196-208 | floor-division buckets: "just now" exactly below one minute (future times included), minutes below 60, hours below 24, days below 7, otherwise the date; each count is bounded by its bucket's interval |
| `ChatWidget.AgeLabel` | TalentBridge-Frontend/src/components/custom/ChatWidget.tsx:203-207 | every bucket but the last has a modelled text; only the locale date is left symbolic |
| `ChatWidget.DateLabel` | TalentBridge-Frontend/src/components/custom/ChatWidget.tsx:196-207 | below a minute (or in the future) the label is "Vừa xong"; then the whole minutes, hours or days elapsed, written in decimal, followed by " phút trước", " giờ trước" or " ngày trước"; the locale date exactly from seven days on |
| `ChatWidget.SessionLabel` | TalentBridge-Frontend/src/components/custom/ChatWidget.tsx:361-363 | "Mới" for a missing or empty first message, otherwise the message truncated to 18 characters plus "..."; never longer than 21 |
| `ChatWidget.Widget.constructor` | TalentBridge-Frontend/src/components/custom/ChatWidget.tsx:20-29 | the widget starts closed, idle, with no sessions, no selection, an empty log and an empty input |
| `ChatWidget.Widget.OpenChat` | TalentBridge-Frontend/src/components/custom/ChatWidget.tsx:211-220 | only a signed-in user with the chat permission opens the widget; anyone else gets the login toast and nothing opens |
| `ChatWidget.Widget.Close` | TalentBridge-Frontend/src/components/custom/ChatWidget.tsx:285-288 | closing hides the widget, un-minimises it and closes settings |
| `ChatWidget.Widget.TypeInput` | TalentBridge-Frontend/src/components/custom/ChatWidget.tsx:470 | the input box holds what was typed |
| `ChatWidget.Widget.SelectSession` | TalentBridge-Frontend/src/components/custom/ChatWidget.tsx:354 | clicking a chip changes only the selection |
| `ChatWidget.Widget.LoadSessionsSeeing` | TalentBridge-Frontend/src/components/custom/ChatWidget.tsx:61-78 | success replaces the directory wholesale and picks the first session only if the handler's closure saw no selection; failure keeps directory and selection and adds one toast; the loading flag ends false |
| `ChatWidget.Widget.LoadSessions` | TalentBridge-Frontend/src/components/custom/ChatWidget.tsx:33-78 | run on its own, an existing selection, a failure or an empty list leaves the selection unchanged |
| `ChatWidget.Widget.LoadMessages` | TalentBridge-Frontend/src/components/custom/ChatWidget.tsx:80-93 | success replaces the log; failure keeps the old log and adds one toast; loading ends false |
| `ChatWidget.Widget.SyncMessages` | TalentBridge-Frontend/src/components/custom/ChatWidget.tsx:40-46 | with a selection and the widget open the selected log is loaded, otherwise the log is emptied and nothing else changes |
| `ChatWidget.Widget.CreateSession` | TalentBridge-Frontend/src/components/custom/ChatWidget.tsx:95-110 | success refreshes the directory and then selects the new session whatever the refresh answered; failure changes only the toasts |
| `ChatWidget.Widget.SendMessage` | TalentBridge-Frontend/src/components/custom/ChatWidget.tsx:112-157 | accepted exactly when the trimmed input is non-empty, a session is selected and nothing is loading; a rejected send changes nothing; an accepted one clears the input; a reply appends the user message and then the assistant message, whose id is larger than the user message's when the clock did not go back between the two readings; a failure filters the provisional id back out; loading ends false |
| `ChatWidget.SendIdsDistinct` | TalentBridge-Frontend/src/components/custom/ChatWidget.tsx:121-138 | the user message's id `Date.now()` and the assistant's id `Date.now() + 1` differ exactly unless the second reading is one millisecond before the first; with a clock that does not go back the assistant's id is the larger |
| `ChatWidget.Widget.Submit` | TalentBridge-Frontend/src/components/custom/ChatWidget.tsx:116-155 | for an accepted text: the input is cleared and loading ends false; a reply leaves the log as before plus the user message and the assistant message, the latter with the larger id when the clock did not go back, and the directory refreshed with the selection kept; a failure leaves the log with every message of the provisional id filtered out and one error toast |
| `ChatWidget.Widget.DeleteSession` | TalentBridge-Frontend/src/components/custom/ChatWidget.tsx:159-176 | a declined confirm or a failed clear changes nothing but the toasts; deleting the selected session drops the selection and empties the log, deleting another keeps both |
| `ChatWidget.Widget.DeleteAllSessions` | TalentBridge-Frontend/src/components/custom/ChatWidget.tsx:178-194 | one clear per listed session; only when all succeed are the selection, log and settings reset and the directory refreshed; any failure skips every reset and adds one toast |
| `ForgotPassword.KeepDigits` | TalentBridge-Frontend/src/pages/client/auth-page/ForgotPasswordForm.tsx:257 | removing non-digits leaves only digits, never lengthens, keeps an all-digit text as it is, and keeps a single character exactly when it is a digit |
| `ForgotPassword.KeepDigitsConcat` | TalentBridge-Frontend/src/pages/client/auth-page/ForgotPasswordForm.tsx:257 | removing non-digits from a concatenation removes them from each part, so the kept digits stay in the order typed |
| `ForgotPassword.SanitizeOtp` | TalentBridge-Frontend/src/pages/client/auth-page/ForgotPasswordForm.tsx:257 | the field holds only digits, at most six, and is exactly the first six of the digits typed (all of them when fewer) |
| `ForgotPassword.SanitizeOtpIdempotent` | TalentBridge-Frontend/src/pages/client/auth-page/ForgotPasswordForm.tsx:257 | sanitising a sanitised code changes nothing |
| `ForgotPassword.SanitizedOtpVerifiable` | TalentBridge-Frontend/src/pages/client/auth-page/ForgotPasswordForm.tsx:257-296 | typing six or more digits, whatever else is mixed in, enables the verify button |
| `ForgotPassword.CountdownStep` | TalentBridge-Frontend/src/pages/client/auth-page/ForgotPasswordForm.tsx:150-156 | a tick never goes negative: null or at most 1 becomes 0, anything larger goes down by one |
| `ForgotPassword.CountdownLast` | TalentBridge-Frontend/src/pages/client/auth-page/ForgotPasswordForm.tsx:149-157 | k + 1 ticks are one tick after k ticks |
| `ForgotPassword.CountdownClosedForm` | TalentBridge-Frontend/src/pages/client/auth-page/ForgotPasswordForm.tsx:147-160 | from n, after k ticks the countdown shows n - k, and 0 from tick n on |
| `ForgotPassword.CountdownReenablesResend` | TalentBridge-Frontend/src/pages/client/auth-page/ForgotPasswordForm.tsx:147-160 | once n seconds have run the countdown is 0 and an idle resend button is enabled |
| `ForgotPassword.JsRem` | TalentBridge-Frontend/src/pages/client/auth-page/ForgotPasswordForm.tsx:142 | JavaScript `%`: the remainder takes the dividend's sign, and it is the rest of division truncated toward zero |
| `ForgotPassword.FormatTime` | TalentBridge-Frontend/src/pages/client/auth-page/ForgotPasswordForm.tsx:139-140 | a null or zero time shows "00:00" |
| `ForgotPassword.FormatTimeReadsBack` | TalentBridge-Frontend/src/pages/client/auth-page/ForgotPasswordForm.tsx:139-144 | a positive time shows digits, a colon and two digits; the seconds are below 60 and minutes × 60 + seconds is the time |
| `ForgotPassword.Form.constructor` | TalentBridge-Frontend/src/pages/client/auth-page/ForgotPasswordForm.tsx:19-26 | the wizard starts on "forgot" with empty fields and no countdown |
| `ForgotPassword.Form.TypeEmail` | TalentBridge-Frontend/src/pages/client/auth-page/ForgotPasswordForm.tsx:208 | the email field holds what was typed |
| `ForgotPassword.Form.TypeOtp` | TalentBridge-Frontend/src/pages/client/auth-page/ForgotPasswordForm.tsx:257 | the code field only ever holds a sanitised code |
| `ForgotPassword.Form.HandleForgotPassword` | TalentBridge-Frontend/src/pages/client/auth-page/ForgotPasswordForm.tsx:29-51 | a request is made exactly when the email is non-empty; success stores expiry and attempts and moves to "verify"; failure or no request keeps the step; loading ends false |
| `ForgotPassword.Form.HandleResendOtp` | TalentBridge-Frontend/src/pages/client/auth-page/ForgotPasswordForm.tsx:54-69 | success restarts expiry and attempts; failure keeps them; loading ends false |
| `ForgotPassword.Form.HandleVerifyOtp` | TalentBridge-Frontend/src/pages/client/auth-page/ForgotPasswordForm.tsx:72-137 | a request is made exactly when the code has six characters; the wizard navigates, carrying email and code, exactly when the answer has `valid` or `isValid` true; loading ends false |
| `ForgotPassword.Form.Back` | TalentBridge-Frontend/src/pages/client/auth-page/ForgotPasswordForm.tsx:315-318 | back returns to "forgot" and clears the code |
| `ForgotPassword.Form.Tick` | TalentBridge-Frontend/src/pages/client/auth-page/ForgotPasswordForm.tsx:147-160 | one interval firing steps the countdown only while it is armed |
| `ForgotPassword.Form.Elapse` | TalentBridge-Frontend/src/pages/client/auth-page/ForgotPasswordForm.tsx:147-160 | after any number of firings an armed countdown shows what `Countdown` predicts, an unarmed one is unchanged, and once as many firings as the starting count have run an idle resend button is enabled again |
| `ResetPassword.PageView` | TalentBridge-Frontend/src/pages/client/auth-page/ResetPasswordPage.tsx:16-51 | the form shows exactly when the navigation state carries a non-empty email and a non-empty code |
| `ResetPassword.CheckPasswords` | TalentBridge-Frontend/src/pages/client/auth-page/ResetPasswordPage.tsx:55-68 | the first failing guard wins: a missing field, then a password below six characters, then a mismatch; they pass exactly when both fields are filled, long enough and equal |
| `ResetPassword.SubmitEnabledIffGuardsPass` | TalentBridge-Frontend/src/pages/client/auth-page/ResetPasswordPage.tsx:55-68 | the submit button is enabled exactly when idle and the guard chain would pass |
| `ResetPassword.MatchHintIffGuardsPass` | TalentBridge-Frontend/src/pages/client/auth-page/ResetPasswordPage.tsx:162-170 | "Mật khẩu khớp" shows exactly when the guard chain would pass, and never together with the mismatch hint |
| `ResetPassword.TooShortHintMatchesGuard` | TalentBridge-Frontend/src/pages/client/auth-page/ResetPasswordPage.tsx:60-63 | with a confirmation typed, the short-password hint shows exactly when the second guard rejects |
| `ResetPassword.Page.constructor` | TalentBridge-Frontend/src/pages/client/auth-page/ResetPasswordPage.tsx:17-22 | the form needs a non-empty email and code and starts with empty fields, idle |
| `ResetPassword.Page.TypeNewPassword` | TalentBridge-Frontend/src/pages/client/auth-page/ResetPasswordPage.tsx:133 | the field holds what was typed |
| `ResetPassword.Page.TypeConfirmPassword` | TalentBridge-Frontend/src/pages/client/auth-page/ResetPasswordPage.tsx:155 | the field holds what was typed |
| `ResetPassword.Page.HandleResetPassword` | TalentBridge-Frontend/src/pages/client/auth-page/ResetPasswordPage.tsx:53-89 | a failing guard raises its toast and sends nothing; otherwise exactly (email, code, new password) is sent, success schedules the redirect, and loading ends false either way |
| `DashboardDto.FromIndex` | BackEnd-Works/src/main/java/com/TranAn/BackEnd_Works/service/impl/AdminDashboardServiceImpl.java:283 | every month index denotes a valid month |
| `DashboardDto.MonthIndexInjective` | BackEnd-Works/src/main/java/com/TranAn/BackEnd_Works/service/impl/AdminDashboardServiceImpl.java:283 | distinct valid months have distinct indexes |
| `DashboardDto.MinusMonths` | BackEnd-Works/src/main/java/com/TranAn/BackEnd_Works/service/impl/AdminDashboardServiceImpl.java:283 | `minusMonths(k)` gives a valid month exactly k months earlier, across year boundaries |
| `DashboardDto.MinusNoMonths` | BackEnd-Works/src/main/java/com/TranAn/BackEnd_Works/service/impl/AdminDashboardServiceImpl.java:283 | going back zero months stays on the month |
| `DashboardDto.MonthTextShape` | BackEnd-Works/src/main/java/com/TranAn/BackEnd_Works/service/impl/AdminDashboardServiceImpl.java:280-284 | "yyyy-MM" for years 1 to 9999 is four digits, a dash and two digits that read back as the year and the month |
| `DashboardDto.YearDigits` | BackEnd-Works/src/main/java/com/TranAn/BackEnd_Works/service/impl/AdminDashboardServiceImpl.java:280-284 | the year field of years 1 to 9999 is four digits reading back as the year |
| `AdminDashboard.GrowthRate` | BackEnd-Works/src/main/java/com/TranAn/BackEnd_Works/service/impl/AdminDashboardServiceImpl.java:302-305 | against no previous count: 100 if anything now, else 0; otherwise rate × previous = (current − previous) × 100 |
| `AdminDashboard.GrowthRateSign` | BackEnd-Works/src/main/java/com/TranAn/BackEnd_Works/service/impl/AdminDashboardServiceImpl.java:302-305 | against a positive previous count the rate is 0, positive or negative exactly as the count stayed, rose or fell |
| `AdminDashboard.GrowthRateRestoresCurrent` | BackEnd-Works/src/main/java/com/TranAn/BackEnd_Works/service/impl/AdminDashboardServiceImpl.java:302-305 | applying the rate to the previous count gives the current count back |
| `AdminDashboard.ApprovalRate` | BackEnd-Works/src/main/java/com/TranAn/BackEnd_Works/service/impl/AdminDashboardServiceImpl.java:176-178 | 0 without resumes; otherwise rate × total = approved × 100 |
| `AdminDashboard.ApprovalRateBounds` | BackEnd-Works/src/main/java/com/TranAn/BackEnd_Works/service/impl/AdminDashboardServiceImpl.java:176-178 | with no more approved than total resumes the rate lies between 0 and 100 |
| `AdminDashboard.SeriesCount` | BackEnd-Works/src/main/java/com/TranAn/BackEnd_Works/service/impl/AdminDashboardServiceImpl.java:289-294 | a type name other than "users", "jobs" or "resumes" counts 0 |
| `AdminDashboard.Last6Months` | BackEnd-Works/src/main/java/com/TranAn/BackEnd_Works/service/impl/AdminDashboardServiceImpl.java:282-283 | the window has six months |
| `AdminDashboard.Last6MonthsWindow` | BackEnd-Works/src/main/java/com/TranAn/BackEnd_Works/service/impl/AdminDashboardServiceImpl.java:282-283 | the window is six consecutive valid months, strictly ascending, ending with the current month |
| `AdminDashboard.Last6MonthsData` | BackEnd-Works/src/main/java/com/TranAn/BackEnd_Works/service/impl/AdminDashboardServiceImpl.java:278-300 | six entries, oldest first, each the "yyyy-MM" label and the selected repository's count of that month; all zero for an unknown type |
| `AdminDashboard.LimitMap` | BackEnd-Works/src/main/java/com/TranAn/BackEnd_Works/service/impl/AdminDashboardServiceImpl.java:139-146 | `limit(n).map(f)` keeps the first n rows (all when fewer), each mapped, in order |
| `AdminDashboard.TopSkillsOrder` | BackEnd-Works/src/main/java/com/TranAn/BackEnd_Works/service/impl/AdminDashboardServiceImpl.java:266-273 | the first ten skills, or all of them when there are fewer, in the repository's order |
| `AdminDashboard.TopCompaniesOrder` | BackEnd-Works/src/main/java/com/TranAn/BackEnd_Works/service/impl/AdminDashboardServiceImpl.java:215-251 | both company lists keep the first ten rows, or all when there are fewer, in the repository's order, with id, name and count carried over |
| `AdminDashboard.TopJobsCompanyName` | BackEnd-Works/src/main/java/com/TranAn/BackEnd_Works/service/impl/AdminDashboardServiceImpl.java:254-263 | the first ten jobs, or all when there are fewer, in the repository's order; a null company name becomes "N/A", any other is kept |
| `AnalyticsPage.FormatNumber` | TalentBridge-Frontend/src/pages/admin/analytics-page/index.tsx:62-65 | "0" for null or missing, otherwise the number in the locale's grouping |
| `AnalyticsPage.FormatPercentage` | TalentBridge-Frontend/src/pages/admin/analytics-page/index.tsx:67-71 | "0%" for null or missing; otherwise the value with a "+" exactly when it is not negative |
| `AnalyticsPage.MissingGrowthShowsZero` | TalentBridge-Frontend/src/pages/admin/analytics-page/index.tsx:123-127 | a growth rate absent from the response still shows "0%", while an explicit null hides the line |
| `AnalyticsPage.ApprovalRateText` | TalentBridge-Frontend/src/pages/admin/analytics-page/index.tsx:260-262 | "N/A" exactly for a missing, null or zero rate, otherwise the rate as a percentage |
| `AnalyticsPage.FormatMonth` | TalentBridge-Frontend/src/pages/admin/analytics-page/index.tsx:73-78 | empty exactly for the empty string; any other label starts with "T" |
| `AnalyticsPage.FormatMonthOfMonthText` | TalentBridge-Frontend/src/pages/admin/analytics-page/index.tsx:73-78 | the service's "yyyy-MM" becomes "T" + month without leading zero + "/" + the four-digit year |
| `AnalyticsPage.MonthTextPieces` | TalentBridge-Frontend/src/pages/admin/analytics-page/index.tsx:76-77 | the service's label splits at its dash into year and padded month, and the month parses to its value |
| `AnalyticsPage.DashedDigits` | TalentBridge-Frontend/src/pages/admin/analytics-page/index.tsx:76-77 | two digit strings joined by a dash split back into the two |
| `AnalyticsPage.FormatMonthOfPieces` | TalentBridge-Frontend/src/pages/admin/analytics-page/index.tsx:73-78 | a label that splits into a year and a month reading as a number shows "T<number>/<year>" |
| `AnalyticsPage.CountAt` | TalentBridge-Frontend/src/pages/admin/analytics-page/index.tsx:320-322 | an entry beyond the end of a series counts 0 |
| `AnalyticsPage.LineChart` | TalentBridge-Frontend/src/pages/admin/analytics-page/index.tsx:314-323 | one point per month of the user series, labelled by `formatMonth`, with the jobs and resumes at the same position, 0 where those series are shorter |
| `AnalyticsPage.MonthBars` | TalentBridge-Frontend/src/pages/admin/analytics-page/index.tsx:372-405 | one bar per entry, in order, labelled by `formatMonth` |
| `AnalyticsPage.TopBars` | TalentBridge-Frontend/src/pages/admin/analytics-page/index.tsx:580-588 | at most ten bars, the first items in order, names truncated to the width |
| `AnalyticsPage.CompanyBars` | TalentBridge-Frontend/src/pages/admin/analytics-page/index.tsx:580-588 | the first ten rows as bars, or all when there are fewer, company names truncated after 15 characters |
| `AnalyticsPage.JobBars` | TalentBridge-Frontend/src/pages/admin/analytics-page/index.tsx:612-620 | the first ten rows as bars, or all when there are fewer, job names truncated after 20 characters |
| `AnalyticsPage.SkillBars` | TalentBridge-Frontend/src/pages/admin/analytics-page/index.tsx:645-651 | the first ten rows as bars, or all when there are fewer, skill names truncated after 15 characters |
| `AnalyticsPage.PositiveSlices` | TalentBridge-Frontend/src/pages/admin/analytics-page/index.tsx:450 | a slice is kept exactly when it is a candidate with a positive value |
| `AnalyticsPage.PositiveSlicesConcat` | TalentBridge-Frontend/src/pages/admin/analytics-page/index.tsx:450 | the filter keeps order: filtering a concatenation concatenates the filtered parts |
| `AnalyticsPage.RoleSlicesOrder` | TalentBridge-Frontend/src/pages/admin/analytics-page/index.tsx:437-450 | the role pie is Admin, Recruiter, User in that order, each only when its count is positive |
| `AnalyticsPage.LevelSlicesOrder` | TalentBridge-Frontend/src/pages/admin/analytics-page/index.tsx:496-514 | the level pie is Intern, Fresher, Middle, Senior, Leader in that order, each only when its count is positive |
| `AnalyticsPage.CellColours` | TalentBridge-Frontend/src/pages/admin/analytics-page/index.tsx:469-475 | cell i takes palette[i mod palette size], always a colour of the palette |
| `AnalyticsPage.PieColoursDistinct` | TalentBridge-Frontend/src/pages/admin/analytics-page/index.tsx:474 | no two slices of either pie share a colour |
| `AnalyticsPage.PaletteColoursDistinct` | TalentBridge-Frontend/src/pages/admin/analytics-page/index.tsx:474 | slices that fit in a palette of distinct colours get distinct colours |
| `AnalyticsPage.Page.constructor` | TalentBridge-Frontend/src/pages/admin/analytics-page/index.tsx:41-42 | the page mounts with no statistics and the spinner on |
| `AnalyticsPage.Page.LoadDashboardStats` | TalentBridge-Frontend/src/pages/admin/analytics-page/index.tsx:48-60 | success replaces the statistics; failure keeps them and raises one toast; the spinner is off either way |
| `EmailService.MapStatusToInfo` | BackEnd-Works/src/main/java/com/TranAn/BackEnd_Works/service/impl/EmailServiceImpl.java:309-342 | a known upper-cased status is exactly one with a non-grey colour; any other status keeps its own spelling as the text, in grey "#666666", with the generic message |
| `EmailService.MapStatusCaseInsensitive` | BackEnd-Works/src/main/java/com/TranAn/BackEnd_Works/service/impl/EmailServiceImpl.java:310 | any casing of a known status is shown as its upper-case form |
| `EmailService.MapStatusSameKey` | BackEnd-Works/src/main/java/com/TranAn/BackEnd_Works/service/impl/EmailServiceImpl.java:310-340 | two spellings of a known status are shown alike; two spellings of an unknown status each keep their own text |
| `EmailService.StatusColours` | BackEnd-Works/src/main/java/com/TranAn/BackEnd_Works/service/impl/EmailServiceImpl.java:311-334 | PENDING, REVIEWING, APPROVED and REJECTED get #FFA500, #2196F3, #4CAF50 and #F44336 |
| `EmailService.StatusColoursDistinct` | BackEnd-Works/src/main/java/com/TranAn/BackEnd_Works/service/impl/EmailServiceImpl.java:311-334 | two different known statuses get different colours, neither of them the grey of an unknown status |
| `EmailService.ApplyUrl` | BackEnd-Works/src/main/java/com/TranAn/BackEnd_Works/service/impl/EmailServiceImpl.java:348 | the link starts with "http://localhost:3000/jobs/" and goes on past it |
| `Text.IntToStringReadsBack` | BackEnd-Works/src/main/java/com/TranAn/BackEnd_Works/service/impl/EmailServiceImpl.java:348 | a rendered integer reads back as itself: its digits, after a minus sign when it is negative |
| `EmailService.ApplyUrlReadsBack` | BackEnd-Works/src/main/java/com/TranAn/BackEnd_Works/service/impl/EmailServiceImpl.java:348 | the rest of the link is the id in decimal, which reads back as the id (after a minus sign for a negative id) |
| `EmailService.SkillDtos` | BackEnd-Works/src/main/java/com/TranAn/BackEnd_Works/service/impl/EmailServiceImpl.java:362-369 | one skill record per skill, with its id and name, in order |
| `EmailService.JobMailDtoFaithful` | BackEnd-Works/src/main/java/com/TranAn/BackEnd_Works/service/impl/EmailServiceImpl.java:347-372 | the record keeps id, name and salary and links to the job; it has a company exactly when the job has one, with the same fields, and skills exactly when the job has them, one-for-one in order |
| `EmailService.FormatEscaped` | BackEnd-Works/src/main/java/com/TranAn/BackEnd_Works/service/impl/EmailServiceImpl.java:65 | text written with its percent signs doubled formats back to itself, whatever follows |
| `EmailService.FormatPlaceholder` | BackEnd-Works/src/main/java/com/TranAn/BackEnd_Works/service/impl/EmailServiceImpl.java:199-240 | `%s` takes the next argument verbatim, percent signs inside it included |
| `EmailService.FormatMissingArgument` | BackEnd-Works/src/main/java/com/TranAn/BackEnd_Works/service/impl/EmailServiceImpl.java:240 | a `%s` with no argument left fails |
| `EmailService.FormatTwoPlaceholders` | BackEnd-Works/src/main/java/com/TranAn/BackEnd_Works/service/impl/EmailServiceImpl.java:199-240 | escaped text around two `%s` fills in the two arguments, in order, verbatim |
| `EmailService.OtpMailPlaceholders` | BackEnd-Works/src/main/java/com/TranAn/BackEnd_Works/service/impl/EmailServiceImpl.java:54-241 | the mail always builds, with the user's name in the greeting and the code in the code box, and the page's percent signs single |
| `EmailService.JobMailDtos` | BackEnd-Works/src/main/java/com/TranAn/BackEnd_Works/service/impl/EmailServiceImpl.java:250-252 | every job found is mapped, one record per job, in order |
| `EmailService.SkillNames` | BackEnd-Works/src/main/java/com/TranAn/BackEnd_Works/service/impl/EmailServiceImpl.java:245-247 | the subscriber's skill names, one per skill, in order |
| `EmailService.SendJobNotificationManually` | BackEnd-Works/src/main/java/com/TranAn/BackEnd_Works/service/impl/EmailServiceImpl.java:268-275 | the outcome is "not found" exactly when no subscriber has the email |
| `EmailService.ManualAlertOutcome` | BackEnd-Works/src/main/java/com/TranAn/BackEnd_Works/service/impl/EmailServiceImpl.java:243-275 | an unknown email fails with "Không tìm thấy người dùng"; a known one sends one mail to the subscriber listing, in order, the jobs found for the subscriber's skills |

## Left out

- Sending mail, rendering templates and the repositories' queries are not modelled. Repository lookups are parameters, and the job-alert and resume-status mails stop at the data handed to the template.
- The password-reset mail's HTML and CSS are abbreviated to three fragments: before the name, between name and code, and after the code. Only the two placeholders and the doubled percent signs of the styling are kept.
- EmailService.Format: only the `%s` and `%%` conversions are modelled, and every other conversion is treated as an error. Java's other conversions (`%n`, `%d`, widths, argument indexes) do not occur in the template.
- Text.ToUpper: Java's `toUpperCase` is modelled on ASCII letters only. Its locale-dependent Unicode mappings are not modelled, such as a dotless "ı" upper-casing to "I", which would make "pendıng" match PENDING.
- EmailService.MapToEmailJobInform: the job's id is modelled as a number. A null id (rendered "null" in the link) is not modelled.
- `sendResumeStatusNotification` is not modelled beyond `mapStatusToInfo`: its template variables and the mail subject are I/O.
- Numbers: Java `Long` and JavaScript numbers are unbounded integers, and Java `Double` is `real`. Overflow and floating-point rounding are not modelled.
- Floating-point rendering is not modelled: `toFixed(1)`, the Vietnamese `Intl.NumberFormat` grouping and `toLocaleDateString` stay symbolic (`Grouped`, `Percent`, `OnDate`).
- Time: the clock is a parameter. So are `Date.now()` ids, `YearMonth.now()` (read once, not once per loop turn), and time zones; month boundaries (`Instant`, `ZoneId`) are folded into the per-month counts.
- DashboardDto.YearText: years of era are written with Java's "yyyy" rule, zero-padded to four, with "+" beyond 9999. The shape lemmas cover years 1 to 9999 only.
- `parseInt`: a "0x" or "0X" prefix, which JavaScript's `parseInt` without a radix reads as hexadecimal, is not modelled: the model reads "0x1F" as 0 where JavaScript gives 31. Leading whitespace, an optional sign and the decimal digit prefix are modelled. JavaScript string lengths are counted in characters, not UTF-16 code units.
- Concurrency and timing are not modelled. Each handler runs as one atomic step, and out-of-order answers are not covered. `Promise.all` reports the first failure in directory order, not in time order. The `setInterval` timing, the two-second redirect delay, scrolling and `console.log` are out too.
- The browser's own form validation (`required`, `type="email"`, `minLength`) and JSX rendering are not modelled.
- The composition of the whole statistics response (`getDashboardStats`) and its other counts (totals, active, expired, this month) are not modelled. They are repository reads passed through unchanged; only the computed fields are modelled.
- ChatWidget.Widget.LoadSessionsSeeing: the handler's stale view of the selection is a parameter. After deleting the selected session, the refresh does not select the first session again, because its closure still sees the old selection.
- ChatWidget follows its code as written: a failed history load keeps the previous log; choosing a session changes only the selection until the effect reloads the log; clearing all sessions skips every reset when any clear fails.
