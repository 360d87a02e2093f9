# todo-timer-front: form validation and request assembly, in Dafny

This project models the client-side logic of a React Native todo and
time-tracking app. That logic checks what the user typed and builds the
requests sent to the backend. It has four parts:

- **The "add a time record" modal** (`CreateTimelineModal`).
  - The user picks a todo and types a start and an end time, each as an hour text and a minute text.
  - `handleSubmit` runs a chain of guards. The first guard that fails turns the submission down with a toast or by focusing the start-hour input.
    1. A todo must have been picked.
    2. The start-hour text must not be empty.
    3. Both hours must parse to 0..23.
    4. Both minutes must parse to 0..61.
  - Once the guards pass, the two boundaries become instants. `calculateDate` puts a start hour before 05, and an end hour up to 05 inclusive, on the next calendar day. The schedule-day runs from 05:00.
  - A record shorter than a minute is refused. Otherwise exactly one request `{userUid, todoIdx, startDateTime, endDateTime, executionTime, action: 'stop'}` is sent and the modal closes.
- **The sign-up screen** (`SignUpScreen`). Three checks run in order, and the first failure wins:
  1. The trimmed email must be at least 5 UTF-16 units long.
  2. The trimmed password must be at least 8.
  3. The password must equal its confirmation exactly.

  A failure sets that field's message and keeps the other messages. When every check passes, a sign-up is attempted with the email and the password as typed.
- **The write-todo modal** (`WriteTodoModal`).
  - Opened on a todo, it sends the todo back with the form's title and category.
  - Opened without one, it sends a create request. The request carries the title, the category the modal was opened from, the signed-in user and the converted date.
  - Either way it closes.
- **The hour grid of the timeline screen** (`generateTimeTableData`). A loop pushes 24 rows for the hours 5..28. Each row is labelled `(hour % 24)`, zero-padded to two digits, and has six ten-minute columns.

The JavaScript built-ins the forms depend on are modelled in `JsText`:
- `parseInt(s, 10)`, with `NaN` as `None`;
- `parseInt(s)` with no radix, which reads base 16 after a "0x" or "0X" prefix;
- `toString` on integers and `padStart(2, '0')`;
- `trim`, with the ECMAScript white-space set;
- UTF-16 `length`.

A JavaScript comparison with `NaN` is false, and the guards are written with that rule.

Times are absolute minute numbers, `day * 1440 + hour * 60 + minute`, and the selected date is a day number. Both instants of a request share the seconds of the same date. So the source's `diff(..., 'second')` is exactly 60 times the difference of the two numbers.

The state-changing parts are classes: the modals' and the screen's `form`, their visibility, and logs of the requests they sent and the notices they gave. Each method is proved against a pure function: the guard chain `Submit`, the validation `CheckSignUp` and the payload `WritePayload`. The properties are proved about those functions.

Two places where the code and the message shown to the user disagree are modelled as the code does it:
- The minute guard lets 61 through, although its toast says 0 ~ 60. It also lets 60 through, which the toast allows but which is not a minute of the clock: it carries into the next hour.
- The end boundary moves to the next day for any hour up to 5 inclusive. So 05:00 to 05:30 is recorded as a day and half an hour.

One place where the code evidently does not do what it means is recorded under "Findings". The guards read the minutes with `parseInt(_, 10)`, but the instants re-read them with `parseInt` and no radix. `SubmitAsWritten` models that code as written. `Submit` uses the minutes the guards checked, and the class and the properties are built on it.

## Model

| member | source | states |
|---|---|---|
| CreateTimeline.CalculateDate | src/components/CreateTimelineModal.tsx:28-38 | the result is the date or the next day; for a start it is the next day iff the hour is below 5, for an end iff the hour is at most 5 |
| CreateTimeline.StartInScheduleDay | src/components/CreateTimelineModal.tsx:28-38 | every start time HH:MM (minute below 60) lies in [05:00 of the date, 05:00 of the next day) |
| CreateTimeline.EndInScheduleDay | src/components/CreateTimelineModal.tsx:28-38 | every end time other than 05:01..05:59 lies in (05:00 of the date, 05:00 of the next day] |
| CreateTimeline.SetTimeField | src/components/CreateTimelineModal.tsx:85-87 | the named time field takes the new text; the other time fields, the todo and the date are unchanged |
| CreateTimeline.NextHourOfDay | src/components/CreateTimelineModal.tsx:65-70 | the hour after `hour` wraps to 0..23: hour+1 below 23, 0 after 23 |
| CreateTimeline.InitialForm | src/components/CreateTimelineModal.tsx:57-72 | no todo, the default colour and title, the selected date, both minutes "00" |
| CreateTimeline.InitialFormParses | src/components/CreateTimelineModal.tsx:62-71 | the initial hour texts read back as the clicked hour and the next hour of the day, the minute texts as 0 |
| CreateTimeline.Instant | src/components/CreateTimelineModal.tsx:152-160 | the minute number of `day` at `hour`:`minute`; a time of day in 00:00..23:59 lies within its calendar day |
| CreateTimeline.Truthy | src/components/CreateTimelineModal.tsx:91 | JavaScript truthiness of the todo index: `undefined` and 0 are falsy; `Submit`'s first ensures rejects exactly such an index before any field |
| CreateTimeline.HourAccepted | src/components/CreateTimelineModal.tsx:105 | the hour guard as written, with `NaN` comparisons false; `HourAcceptedRange` proves it accepts exactly 0..23 |
| CreateTimeline.MinuteAccepted | src/components/CreateTimelineModal.tsx:125-132 | the minute guard as written; `MinuteAcceptedRange` proves it accepts exactly 0..61 |
| CreateTimeline.FirstFailedCheck | src/components/CreateTimelineModal.tsx:91-151 | the checks before the instants, first failure wins: none fails iff a todo is chosen and the four texts read as hours in 0..23 and minutes in 0..61; none of them is the too-short refusal |
| CreateTimeline.Submit | src/components/CreateTimelineModal.tsx:90-187 | no todo (undefined or 0) is rejected before any field; a submitted request carries the form's todo, the user, "stop", and 60 times the instant difference, at least 60, with the end after the start |
| CreateTimeline.HourAcceptedRange | src/components/CreateTimelineModal.tsx:103-121 | the hour guard accepts exactly a parsed number in 0..23; NaN is refused |
| CreateTimeline.MinuteAcceptedRange | src/components/CreateTimelineModal.tsx:123-139 | the minute guard accepts exactly a parsed number in 0..61 |
| CreateTimeline.MinuteSixtyAndSixtyOneAccepted | src/components/CreateTimelineModal.tsx:123-139 | the texts "60" and "61" pass the minute guard, "62" does not |
| CreateTimeline.SubmittedIff | src/components/CreateTimelineModal.tsx:90-182 | a submission goes through iff a todo is chosen, all four fields are in range and the end is at least a minute after the start; the request is then exactly the two instants, their 60-fold difference and "stop" |
| CreateTimeline.OnlyStartHourReportedEmpty | src/components/CreateTimelineModal.tsx:99-151 | the empty start-minute, end-hour and end-minute checks never fire; an empty start hour is reported iff a todo is chosen |
| CreateTimeline.HourCheckedFirst | src/components/CreateTimelineModal.tsx:99-121 | with a todo chosen, a bad start hour is reported whatever else holds, and a bad end hour once the start hour passed |
| CreateTimeline.MinuteCheckedBeforeDuration | src/components/CreateTimelineModal.tsx:123-172 | once both hours pass, the minute rejection happens iff a minute is out of range |
| CreateTimeline.SubmittedDuration | src/components/CreateTimelineModal.tsx:152-172 | on success the request's instants are the form's and the duration is their 60-fold difference, at least 60 seconds |
| CreateTimeline.SubmitOfParsed | src/components/CreateTimelineModal.tsx:152-182 | for fields that read as in-range numbers, the outcome is the request built from the two instants, or too-short |
| CreateTimeline.OneHourRecorded | src/components/CreateTimelineModal.tsx:152-172 | a whole hour and the next hour of the day, minutes 0, record exactly 3600 seconds, including across midnight and at 04 |
| CreateTimeline.InitialFormRecordsOneHour | src/components/CreateTimelineModal.tsx:57-172 | the form as opened on an hour of the day, with a todo chosen and nothing edited, records exactly 3600 seconds |
| CreateTimeline.CaseAcrossMidnight | src/components/CreateTimelineModal.tsx:152-172 | 23:30 to 00:15: only the end moves to the next day, 2700 seconds |
| CreateTimeline.CaseBothRollOver | src/components/CreateTimelineModal.tsx:152-172 | 04:00 to 04:30: both boundaries move to the next day, 1800 seconds |
| CreateTimeline.CaseOnlyEndRollsOver | src/components/CreateTimelineModal.tsx:152-172 | 05:00 to 05:30: only the end moves, 88200 seconds |
| CreateTimeline.CaseZeroLength | src/components/CreateTimelineModal.tsx:163-172 | 10:00 to 10:00 is refused as too short |
| CreateTimeline.CaseAcrossMidnightAsTyped | src/components/CreateTimelineModal.tsx:99-172 | the texts "23", "30", "00", "15" send the 2700-second request of `CaseAcrossMidnight` |
| CreateTimeline.CaseBothRollOverAsTyped | src/components/CreateTimelineModal.tsx:99-172 | the texts "04", "00", "04", "30" send the 1800-second request with both instants on the next day |
| CreateTimeline.CaseOnlyEndRollsOverAsTyped | src/components/CreateTimelineModal.tsx:99-172 | the texts "05", "00", "05", "30" send the 88200-second request |
| CreateTimeline.CaseZeroLengthAsTyped | src/components/CreateTimelineModal.tsx:99-172 | the texts "10", "00", "10", "00" are refused as too short |
| CreateTimeline.CaseHourTwentyFive | src/components/CreateTimelineModal.tsx:103-112 | a start hour "25" is refused by the hour guard whatever the other fields hold |
| CreateTimeline.InstantOrInvalid | src/components/CreateTimelineModal.tsx:152-160 | the date library's instant: valid iff the minute is a number and the time lies within the `Date` time range of ±8.64e15 ms (±1.44e11 minutes), and then that many minutes after the hour |
| CreateTimeline.DiffSeconds | src/components/CreateTimelineModal.tsx:163 | `diff` in seconds: a number iff both dates are valid, and then 60 times their minute difference |
| CreateTimeline.SubmitAsWritten | src/components/CreateTimelineModal.tsx:90-187 | `handleSubmit` as written: a failed check refuses as in `Submit`; a sent request has a `NaN` duration or one of at least 60 seconds |
| CreateTimeline.AsWrittenAgreesOnDecimalMinutes | src/components/CreateTimelineModal.tsx:123-187 | when neither minute text has a hex prefix after its whitespace and sign, and the selected date is at least three days inside the time range, the code as written sends or refuses exactly what `Submit` does |
| CreateTimeline.InstantsOfCheckedFields | src/components/CreateTimelineModal.tsx:152-160 | the instants of fields that pass the checks lie from the selected day to before three days after it |
| CreateTimeline.OutOfRangeStartMinuteIsSent | src/components/CreateTimelineModal.tsx:152-187 | once the checks pass, a start minute that reads without a radix as a time outside the range is sent, with an invalid start and a `NaN` duration |
| CreateTimeline.OutOfRangeStartMinuteSent | src/components/CreateTimelineModal.tsx:152-187 | with the checks reading both minutes as 0, a start minute out of the time range gives a request with no valid start, the valid end, and a `NaN` duration |
| CreateTimeline.CaseHexMinuteOutOfRange | src/components/CreateTimelineModal.tsx:123-187 | 10:"0xFFFFFFFFFF" to 10:"00": `Submit` refuses it as too short; the code as written reads 1099511627775 minutes, past the time range, and sends it with an invalid start and a `NaN` duration |
| CreateTimeline.NaNMinuteIsSent | src/components/CreateTimelineModal.tsx:152-187 | once the checks pass, a minute that reads as `NaN` without a radix is sent, with a `NaN` duration |
| CreateTimeline.NaNStartMinuteSent | src/components/CreateTimelineModal.tsx:152-187 | with the checks reading both minutes as 0, a start minute that is `NaN` without a radix gives a request with no valid start, the valid end, and a `NaN` duration |
| CreateTimeline.CaseHexMinuteWithoutDigits | src/components/CreateTimelineModal.tsx:123-187 | 10:"0x" to 10:"00": `Submit` refuses it as too short, the code as written sends it with an invalid start and a `NaN` duration |
| CreateTimeline.CreateTimelineModal.constructor | src/components/CreateTimelineModal.tsx:45-72 | the modal opens visible, with the initial form, the todo list closed and nothing sent |
| CreateTimeline.CreateTimelineModal.PreselectFirstTodo | src/components/CreateTimelineModal.tsx:74-83 | when the todo list has a first todo in its first category, its index, the category colour and its title are taken; otherwise the form is unchanged |
| CreateTimeline.CreateTimelineModal.HandleChangeText | src/components/CreateTimelineModal.tsx:85-87 | the form becomes `SetTimeField` of the old form |
| CreateTimeline.CreateTimelineModal.HandleTodoPress | src/components/CreateTimelineModal.tsx:189-193 | the todo list opens |
| CreateTimeline.CreateTimelineModal.TodoHandlePress | src/components/CreateTimelineModal.tsx:195-203 | the chosen todo's index, colour and title replace the form's, the time fields stay, the todo list closes |
| CreateTimeline.CreateTimelineModal.HandleSubmit | src/components/CreateTimelineModal.tsx:90-187 | on success exactly the request of `Submit` is appended and the modal closes; on a rejection nothing is sent, the visibility stays, and the reason is appended to the notices |
| SignUp.InitialSignUpForm | src/screens/SignUpScreen.tsx:9-13 | every field starts empty |
| SignUp.NoMessages | src/screens/SignUpScreen.tsx:15-20 | every message starts unset |
| SignUp.SetField | src/screens/SignUpScreen.tsx:27-29 | the named field takes the new text, the other two keep theirs |
| SignUp.CheckSignUp | src/screens/SignUpScreen.tsx:31-72 | each failure happens iff the earlier checks pass and its own fails (trimmed email below 5, trimmed password below 8, untrimmed password differs from confirmation); success iff all pass, with the untrimmed email and password |
| SignUp.RecordFailure | src/screens/SignUpScreen.tsx:40-67 | a failure sets its own field's message to its fixed text and leaves the other two as they were |
| SignUp.AfterSubmit | src/screens/SignUpScreen.tsx:31-72 | after one submit the failed field, if any, shows its message; no other message changes, and no shown message is cleared |
| SignUp.EmailFailureWins | src/screens/SignUpScreen.tsx:39-48 | a short trimmed email is reported whatever the passwords hold |
| SignUp.EmailLengthOnly | src/screens/SignUpScreen.tsx:39 | any five lower-case letters, with no `@`, pass the email check |
| SignUp.BlanksDoNotCount | src/screens/SignUpScreen.tsx:39-48 | a blank on each side of the email changes neither the failure nor the failed field; a success carries the padded email |
| SignUp.TrimOfLeadingBlank | src/screens/SignUpScreen.tsx:39 | `trim` removes a leading blank |
| SignUp.TrimOfTrailingBlank | src/screens/SignUpScreen.tsx:50 | `trim` removes a trailing blank |
| SignUp.TrimStartAllBlank | src/screens/SignUpScreen.tsx:50 | cutting leading blanks from s + " " keeps the blank after what remains, unless s was all blanks |
| SignUp.UntrimmedComparison | src/screens/SignUpScreen.tsx:50-72 | a password with a trailing blank passes the length check but fails the comparison with the same password without it |
| SignUp.MessagesPersist | src/screens/SignUpScreen.tsx:40-67 | no run of submits clears a shown message |
| SignUp.SubmitsKeepMessagesWellFormed | src/screens/SignUpScreen.tsx:40-67 | after any run of submits each message is unset or its field's fixed text |
| SignUp.MessageShownIff | src/screens/SignUpScreen.tsx:31-72 | from an unset message, a field's message is shown after a run of submits iff one of them failed at that field |
| SignUp.SignUpScreen.constructor | src/screens/SignUpScreen.tsx:9-20 | the screen opens with empty fields, no messages, no focus moves and no attempt |
| SignUp.SignUpScreen.HandleChangeText | src/screens/SignUpScreen.tsx:27-29 | the form becomes `SetField` of the old form; the messages stay well-formed |
| SignUp.SignUpScreen.HandleSubmit | src/screens/SignUpScreen.tsx:31-86 | on the first failed check that field's message is set and the focus moves to it; when all pass one attempt with the untrimmed email and password is logged; messages stay well-formed |
| WriteTodo.InitialTodoForm | src/components/WriteTodoModal.tsx:37-40 | editing starts from the todo's title and category, creating from an empty title and no category |
| WriteTodo.SetTitle | src/components/WriteTodoModal.tsx:59-61 | only the title changes |
| WriteTodo.WritePayload | src/components/WriteTodoModal.tsx:42-57 | an update iff a todo is given, keeping its index and colour and taking the form's title and category; otherwise a create with the form's title and the modal's category, user and date |
| WriteTodo.UneditedUpdateIsIdentity | src/components/WriteTodoModal.tsx:44-49 | submitting an unedited edit sends the todo back unchanged |
| WriteTodo.EditedTitleUpdate | src/components/WriteTodoModal.tsx:44-49 | editing the title and submitting sends the todo with only its title changed |
| WriteTodo.CreateIgnoresFormCategory | src/components/WriteTodoModal.tsx:50-55 | when creating, the form's category does not affect the request |
| WriteTodo.UpdateIgnoresModalContext | src/components/WriteTodoModal.tsx:44-49 | when editing, the modal's category, user and date do not affect the request |
| WriteTodo.WriteTodoModal.constructor | src/components/WriteTodoModal.tsx:26-40 | the modal opens visible with the initial form and nothing sent |
| WriteTodo.WriteTodoModal.HandleChangeText | src/components/WriteTodoModal.tsx:59-61 | the form becomes `SetTitle` of the old form |
| WriteTodo.WriteTodoModal.HandleSubmit | src/components/WriteTodoModal.tsx:42-57 | exactly one request, `WritePayload`, is appended to the log and the modal closes |
| TimelineScreen.HourLabel | src/screens/TimelineScreen.tsx:23 | the label of an hour; `LabelDigits` and `LabelParses` prove that for the grid's hours it is the two digits of the hour of the day and reads back as that hour |
| TimelineScreen.TimeTable | src/screens/TimelineScreen.tsx:18-44 | 24 rows, row i being the row of hour 5 + i |
| TimelineScreen.GenerateTimeTableData | src/screens/TimelineScreen.tsx:18-44 | the loop returns exactly the grid `TimeTable` |
| TimelineScreen.TableShape | src/screens/TimelineScreen.tsx:21-39 | 24 rows, keys 5..28 strictly increasing, six columns each |
| TimelineScreen.LabelDigits | src/screens/TimelineScreen.tsx:23 | each label is the two digits of its hour of the day |
| TimelineScreen.LabelParses | src/screens/TimelineScreen.tsx:23 | each label reads back as the hour of its row |
| TimelineScreen.RowHourValue | src/screens/TimelineScreen.tsx:23 | the rows' hours are 05..23 and then 00..04 |
| TimelineScreen.LabelsDistinct | src/screens/TimelineScreen.tsx:21-23 | no two rows share a label |
| TimelineScreen.LabelsCoverDay | src/screens/TimelineScreen.tsx:21-23 | every hour 00..23 labels a row |
| TimelineScreen.LabelIs | src/screens/TimelineScreen.tsx:23 | a row's label is the two-digit text of its hour |
| TimelineScreen.LabelsAroundMidnight | src/screens/TimelineScreen.tsx:20-23 | the first label is "05", "23" is followed by "00", the last is "04" |
| TimelineScreen.RowsAreScheduleDayHours | src/screens/TimelineScreen.tsx:21-23 | a row's label, as a start hour, falls at hour 5 + i from the selected date, so the rows are consecutive hours across midnight |
| TimelineScreen.RowEndsAreScheduleDayHours | src/screens/TimelineScreen.tsx:21-23 | the label after row i (05 after the last), as an end hour, falls at hour 6 + i from the selected date |
| JsText.TrimStartSpec | src/screens/SignUpScreen.tsx:39 | what is cut from the front is white space and what is kept does not start with it |
| JsText.TrimEndSpec | src/screens/SignUpScreen.tsx:39 | what is cut from the back is white space and what is kept does not end with it |
| JsText.TrimSpec | src/screens/SignUpScreen.tsx:39 | `trim` gives a slice with only white space outside it and none at either end |
| JsText.Utf16Length | src/screens/SignUpScreen.tsx:39 | the length in UTF-16 units lies between the number of code points and twice that |
| JsText.Trim | src/screens/SignUpScreen.tsx:39 | `trim`, white space cut from both ends; `TrimSpec` characterises the result |
| JsText.DigitsPrefix | src/components/CreateTimelineModal.tsx:103 | the longest prefix of decimal digits |
| JsText.NatToDigits | src/components/CreateTimelineModal.tsx:62 | non-empty decimal digits with the number's value and no leading zero |
| JsText.PadStart2 | src/components/CreateTimelineModal.tsx:62 | zeros in front up to length two, the text itself at the end |
| JsText.ParseInt | src/components/CreateTimelineModal.tsx:103 | `parseInt(s, 10)`: the empty text is `NaN`; `ParseAllDigits` and `ParseNumberString` give the value of a digit text and of a `toString` result |
| JsText.NumberToString | src/screens/TimelineScreen.tsx:23 | `toString` on an integer; `ParseNumberString` proves `parseInt` reads it back |
| JsText.HexDigitValue | src/components/CreateTimelineModal.tsx:154 | a hex digit's value is below 16 |
| JsText.HexDigitsPrefix | src/components/CreateTimelineModal.tsx:154 | the longest prefix of hex digits |
| JsText.ParseIntNoRadix | src/components/CreateTimelineModal.tsx:154 | `parseInt(s)` with no radix: the empty text is `NaN`; `NoRadixIsDecimalWithoutHexPrefix` and `HexPrefixReadings` relate it to `parseInt(s, 10)` |
| JsText.NoRadixIsDecimalWithoutHexPrefix | src/components/CreateTimelineModal.tsx:154 | without a hex prefix after the whitespace and sign, the radix-less parse reads what the decimal one does |
| JsText.HexPrefixReadings | src/components/CreateTimelineModal.tsx:154 | "0x" reads 0 in base 10 but `NaN` without a radix; "0x1F" reads 0 against 31; "-0x1F" reads 0 against -31 |
| JsText.HexPrefixed | src/components/CreateTimelineModal.tsx:154 | after a bare "0x" the decimal parse reads 0 and the radix-less parse reads the hex digits that follow |
| JsText.HexTenFs | src/components/CreateTimelineModal.tsx:154 | "0xFFFFFFFFFF" reads 0 in base 10 and 2^40 - 1 without a radix |
| JsText.HexValueOfFs | src/components/CreateTimelineModal.tsx:154 | a run of n letters F is the hex number 16^n - 1 |
| JsText.HexDigitsPrefixOfHex | src/components/CreateTimelineModal.tsx:154 | a hex digit string is its own hex digit prefix |
| JsText.MinusNegates | src/components/CreateTimelineModal.tsx:154 | a minus sign in front of an unsigned text negates what either parse reads |
| JsText.ParseAllDigits | src/components/CreateTimelineModal.tsx:103 | a non-empty digit text reads as its value |
| JsText.ParseNumberString | src/components/CreateTimelineModal.tsx:62 | `parseInt` reads back what `toString` writes, negative numbers included |
| JsText.ParsePaddedNumberString | src/components/CreateTimelineModal.tsx:62 | ... and likewise after zero-padding to two |
| JsText.PaddedTwoDigits | src/screens/TimelineScreen.tsx:23 | a number below 100, padded, is exactly its two digits |
| JsText.ParseText | src/components/CreateTimelineModal.tsx:103 | a two-digit text reads as the number it spells |

## Findings

| source | as written | input that shows it | evidently intended | confidence | as-written member | corrected member |
|---|---|---|---|---|---|---|
| src/components/CreateTimelineModal.tsx:152-172 | the guards check `parseInt(form.startMinute, 10)`, but the instants use `parseInt(form.startMinute)`, and likewise for the end minute; a text the guard reads as 0 may read as `NaN` or a hex number there, and a `NaN` duration passes `executionTime < 60` | start "10":"0x", end "10":"00", a todo chosen: the guard sees minute 0, the instant gets `NaN`, and a request with `executionTime` `NaN` is sent and the modal closes; likewise start "10":"0xFFFFFFFFFF", whose 1099511627775 minutes lie past the `Date` range | the minutes the guards checked are the minutes recorded, so this record of no length is refused as too short | not executed | CreateTimeline.CaseHexMinuteWithoutDigits | CreateTimeline.Submit |

## Left out

- Dates are day numbers. The date library's parsing, its `.utc()` conversion, time zones and daylight-saving shifts are not modelled. The instants are minute numbers relative to the selected date's day.
- CreateTimeline.Submit: it reads the minutes at src/components/CreateTimelineModal.tsx:154 and 159 in base 10, as the guards do, and not without a radix as the source does. The two readings differ only when a minute text has "0x" or "0X" after its leading whitespace and one optional sign. Examples are "0x1F", " 0x1F" and "-0x1F", which the guard reads as 0 or -0, so they pass. Without a radix they read as 31 or -31. A text with no hex digit after the prefix, such as "0x" or "0xg", reads as `NaN`. The source then sends a request with an invalid instant and a `NaN` duration, where `Submit` may refuse it as too short. `SubmitAsWritten` models the source's reading, and the finding above records the difference.
- TodoType fields other than `idx`, `title`, `color` and `categoryIdx` are not modelled. The update request is a record update of the todo, so it keeps them unchanged whatever they hold.
- CreateTimeline.Submit: `user.uid` with no signed-in user throws a `TypeError` in the source. The model takes the user's id as a given string.
- The guards' `parseInt(_, 10)` on texts with more digits than a double holds is not modelled. The model keeps the exact integer. This changes no decision of the guards, because such numbers are far outside 0..23 and 0..61. The radix-less minute of the code as written needs no rounding either: any value large enough to round already lies past the time range, so its date is invalid whether it is rounded or not.
- CreateTimeline.SubmitAsWritten: its time range counts day 0 as the epoch's day and an instant as whole minutes in UTC. The time-zone offset and the selected date's seconds are not modelled, so the true limit may differ from ±1.44e11 minutes by up to a day. The lemmas that give a valid end instant, and `AsWrittenAgreesOnDecimalMinutes`, require the selected date to lie at least three days inside the range (`RoomForTimes`).
- `handleChangeText` in the three components accepts any key. The models accept only the keys the inputs pass: the four time fields, the three sign-up fields and the todo title.
- React's batched and asynchronous state updates and stale closures are not modelled. Each method sees the state left by the previous one.
- Strings are sequences of code points. A lone UTF-16 surrogate cannot be represented.
- Toasts and `focus()` calls are reduced to tags. The tags are the `Rejection` values in the timeline modal's `notices` and the fields in the sign-up screen's `focused`. JSX, styles and `Keyboard.dismiss` are left out.
- `signUp`, `sendEmail`, navigation and the failure alert are asynchronous calls into the account service. A sign-up is logged as an attempt with its `SignUpInfo`.
- The create and update mutations and the todo list query are external. They are logged requests and a parameter.
- `convertLocalToUtc(selectedDate)` and `getToday` are not shown. The converted date is a parameter of the write-todo modal.
- The timeline screen's `handlePress`, its modal toggle, and the modal rendered there without `clickedTime` are not modelled.
- lib/auth.ts, src/store/selecteDateStore.ts, src/components/TodoList.tsx and src/components/Category.tsx are not part of this model. They wrap the account service and the store, or only render.
