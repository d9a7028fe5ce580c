# Ritmo study planner — a verified model of its core

Ritmo is a web study planner. A student signs up locally, picks subjects and
a daily study budget during onboarding, and gets a weekly plan of study
sessions. A Pomodoro-style timer runs the sessions. The dashboard shows the
week's progress, the streak of consecutive study days, a motivational
message and the next session, and can ask an AI service to adjust the plan.
A history panel totals the minutes studied and averages the productivity
ratings. Settings let the student change the name, the password and the
display preferences, export the completed sessions as CSV, switch
notifications and delete the account. Notifications remind the student to
study, announce breaks and summarise the day and the week.

This project models that core in Dafny, one module per source file:

- `StudyHelpers`: generating the week's sessions, `formatDuration`, the streak and the motivational message.
- `StudyTimer`: the timer as a state machine, plus a `Timer` class whose handlers are proved against it.
- `Onboarding`, `SubjectsManager` and `SubjectLists`: the two subject editors and their shared list rules.
- `AuthPage`: local sign-up and login against the accounts map.
- `SettingsModal`: password change, preferences, CSV export, notification switches and account deletion.
- `Notifications`: reminders, summaries and what is scheduled at start-up.
- `DashboardPage`: week progress, the next session, starting a session and the AI plan adjustment.
- `StudyHistory`: the history panel's totals, average rating and rating dots.
- `SubjectPicker`: the subject selector shared by the two dashboard cards.
- `WeekProgressCard` and `WelcomeCard`: what the two cards show.
- `AppPage`: the root page choosing between the sign-in, onboarding and dashboard screens.

Shared modules hold the rest:

- `Text`: trimming, lower case, number formatting and a duration reader that inverts every formatter.
- `Calendar`: day numbers, weekdays and the Monday of a week.
- `Records`: the session records and the browser's `localStorage` as a map.
- `Totals`: sums and averages.
- `Sequences`: generic sequence and map facts.
- `Wrappers`: `Option` and `Result`.

Dates are day numbers counted from 1970-01-01, which was a Thursday.
`Weekday` follows `Date.getDay`, with 0 for Sunday. Completion times are
milliseconds since the same epoch.

`localStorage` is a map from keys to stored values. A value is a text, a
list of strings (a JSON array) or a notification-settings object.

The database, the AI service, the clock and notification permission are
parameters of the operations that use them. For the week generation, the
onboarding save and the two dashboard updates, whether the write fails is
a boolean parameter as well.

JavaScript's `%` truncates toward zero and is modelled as `Text.TruncRem`.
`Math.floor(x / 60)` is Dafny's `/`.

Where the code and its description differ, the model follows the code. Three
cases are worth naming:

- The sign-in form checks that the name is non-empty before trimming it. A
  name made only of spaces therefore signs up under the empty account key
  and signs in with an empty id. The root page then stays on the sign-in
  screen. `AuthPage.BlankNameGetsEmptyKey` and `AppPage.BlankIdStaysOnAuth`
  state this behaviour as written.
- An unknown study-day code makes `generateWeeklySessions` build an invalid
  date, which throws. This happens only when the plan asks for at least
  one session per day. The model returns `Err(InvalidDate)` in that case.
- The accounts are a plain object parsed from JSON, so looking up a key
  also finds the members every object inherits. Of those, only
  `constructor` and `__proto__` are lower-case. A name with one of these
  keys is refused as taken on sign-up and as a wrong password on login.
  `AuthPage.InheritedNamesLocked` states this.

## Model

| member | source | states |
|---|---|---|
| Calendar.StartOfWeek | src/lib/study-helpers.ts:9-13 | the start of the week is a Monday no more than six days before the given day |
| Calendar.StartOfWeekUnique | src/lib/study-helpers.ts:9-13 | that Monday is the only one within the six days before the day |
| Calendar.StartOfWeekOfWeekDays | src/lib/notifications.ts:128-134 | every day from that Monday to the following Sunday has the same start of week |
| Calendar.WeekdayShift | src/lib/study-helpers.ts:29-33 | moving k days ahead (k < 7) moves the weekday k places, wrapping after Saturday |
| Calendar.DayNumber | src/lib/study-helpers.ts:16-24 | a known day code maps to a weekday from 0 to 6 |
| Calendar.OffsetLandsOnWeekday | src/lib/study-helpers.ts:30-33 | the date Monday plus the offset lies within that week and falls on the weekday the code names |
| StudyHelpers.TimeFor | src/lib/study-helpers.ts:36 | the i-th preferred time when it is non-empty, otherwise some listed time; none when there are no preferred times |
| StudyHelpers.TimeForFallsBackToFirst | src/lib/study-helpers.ts:36 | a missing or empty i-th time falls back to the first preferred time |
| StudyHelpers.DayRecordsAt | src/lib/study-helpers.ts:35-46 | one study day yields one record per session, the i-th with the i-th preferred time |
| StudyHelpers.WeekRecordsFails | src/lib/study-helpers.ts:29-47 | building fails exactly when the plan has sessions and some day code is unknown |
| StudyHelpers.WeekRecordsLength | src/lib/study-helpers.ts:29-47 | a successful build holds study days times sessions per day records |
| StudyHelpers.WeekRecordAt | src/lib/study-helpers.ts:29-46 | record j·n+i is session i of study day j, dated Monday plus that day's offset |
| StudyHelpers.RecordsInWeek | src/lib/study-helpers.ts:29-46 | each built record is pending, carries the plan id, duration and preferred time, and is dated in the week on the weekday its code names |
| StudyHelpers.BuiltRecordsInWeek | src/lib/study-helpers.ts:29-46 | every built record is pending and dated from Monday to Sunday of the week |
| StudyHelpers.WeekRecordsNext | src/lib/study-helpers.ts:29-47 | handling one more study day appends exactly that day's records |
| StudyHelpers.BuildWeekSessions | src/lib/study-helpers.ts:26-47 | the nested loop builds exactly the week's records, or the invalid-date error |
| StudyHelpers.GenerateWeeklySessions | src/lib/study-helpers.ts:6-71 | an invalid day fails; existing sessions this week mean nothing is created; otherwise all built records are inserted and counted, or the insert error is reported |
| StudyHelpers.FormatDurationRoundTrip | src/lib/study-helpers.ts:76-83 | reading the formatted duration gives back exactly the minutes |
| StudyHelpers.StreakWalk | src/lib/study-helpers.ts:103-116 | the walk adds at most one per session to the streak |
| StudyHelpers.CalculateStreak | src/lib/study-helpers.ts:88-123 | no sessions give 0; otherwise the loop's streak is the walk over the dates, newest first |
| StudyHelpers.StreakDaysStudied | src/lib/study-helpers.ts:103-116 | every day counted by the streak has a completed session |
| StudyHelpers.StreakStopsAtGap | src/lib/study-helpers.ts:103-116 | over dates sorted newest first, the day just before the streak has no session |
| StudyHelpers.NoSessionTodayNoStreak | src/lib/study-helpers.ts:103-116 | with no session today the streak is 0 |
| StudyHelpers.LastDays | src/lib/study-helpers.ts:103-116 | the k days ending today number exactly k |
| StudyHelpers.StreakIsRunEndingToday | src/lib/study-helpers.ts:88-123 | a streak of k means each of the last k days was studied, k is at most the number of distinct dates, and (sorted) the day before has no session |
| StudyHelpers.MotivationThresholds | src/lib/study-helpers.ts:128-142 | the message's band is set by which of 25, 50, 75 and 100 percent are reached; exactly 0 has a band of its own |
| StudyHelpers.MotivationMonotone | src/lib/study-helpers.ts:128-142 | more progress never yields an earlier message |
| Text.TrimStart | src/app/components/SubjectsManager.tsx:16-21 | removes a leading run of spaces only: the result is a suffix, what is dropped is all space, and it does not start with a space |
| Text.TrimEnd | src/app/components/SubjectsManager.tsx:16-21 | removes a trailing run of spaces only: the result is a prefix, what is dropped is all space, and it does not end with a space |
| Text.TrimShape | src/app/components/SubjectsManager.tsx:16-21 | a trimmed string starts and ends with a non-space |
| Text.TrimKeepsCore | src/app/components/SubjectsManager.tsx:16-21 | a string without outer spaces trims to itself |
| Text.TrimIgnoresPadding | src/app/components/AuthPage.tsx:34 | spaces added on either side do not change the trimmed text |
| Text.TrimStartSkipsSpace | src/app/components/AuthPage.tsx:34 | leading space never survives the start trim |
| Text.TrimEndSkipsSpace | src/app/components/AuthPage.tsx:34 | trailing space never survives the end trim |
| Text.TrimStartBeforeSpace | src/app/components/AuthPage.tsx:34 | space added at the end is kept by the start trim unless the text is all space |
| Text.LowerChar | src/app/components/AuthPage.tsx:34 | lowering a character gives a non-upper-case character and keeps whether it is a space |
| Text.ToLower | src/app/components/AuthPage.tsx:34 | lowering keeps the length and lowers each character in place |
| Text.ToLowerAppend | src/app/components/AuthPage.tsx:34 | lowering distributes over concatenation |
| Text.ToLowerIdempotent | src/app/components/AuthPage.tsx:34 | lowering twice equals lowering once |
| Text.ToLowerKeepsSpace | src/app/components/AuthPage.tsx:34 | lowering leaves spaces as they are |
| Text.TrimStartLowerCommute | src/app/components/AuthPage.tsx:34 | start trim and lowering commute |
| Text.TrimEndLowerCommute | src/app/components/AuthPage.tsx:34 | end trim and lowering commute |
| Text.TrimLowerCommute | src/app/components/AuthPage.tsx:34 | trimming and lowering commute |
| Text.DigitChar | src/lib/study-helpers.ts:78 | a digit value below 10 becomes the digit character of that value |
| Text.NatToString | src/lib/study-helpers.ts:78 | a number prints as a non-empty run of digits without a leading zero |
| Text.NatToStringValue | src/lib/study-helpers.ts:78 | the printed digits read back as the number |
| Text.PadStart2 | src/app/components/StudyTimer.tsx:157-161 | padding gives at least two characters and ends with the original text |
| Text.LeadingZeroValue | src/app/components/StudyTimer.tsx:157-161 | a leading zero does not change the value of the digits |
| Text.PaddedValue | src/app/components/StudyTimer.tsx:157-161 | a padded number is all digits and reads back as the number |
| Text.TruncRem | src/lib/study-helpers.ts:81 | JavaScript's remainder: below the divisor in size, Dafny's `%` for non-negative numbers, and never positive for negative ones |
| Text.LeadingDigits | src/lib/study-helpers.ts:78 | the reader stops at the first non-digit, and everything before it is digits |
| Text.LeadingDigitsOf | src/lib/study-helpers.ts:78 | a run of digits before a non-digit is read whole |
| Text.SplitDigits | src/lib/study-helpers.ts:78 | an unsigned number followed by text reads as its value and that text |
| Text.SplitDigitsNumber | src/lib/study-helpers.ts:78 | the same, through the signed reader |
| Text.SplitNegative | src/lib/study-helpers.ts:78 | a minus sign before digits reads as the negated value |
| Text.SplitMinus | src/lib/study-helpers.ts:78 | the signed reader negates what follows a minus sign |
| Text.SplitInt | src/lib/study-helpers.ts:78 | any integer printed before a non-digit reads back as that integer |
| Text.ReadAfterHours | src/lib/study-helpers.ts:82 | "h h m min" reads as 60·h+m |
| Text.ReadHoursMinutes | src/lib/study-helpers.ts:82 | printed hours and minutes read back as 60·h+m |
| Text.ReadHours | src/lib/study-helpers.ts:82 | "h h" reads as 60·h |
| Text.ReadMinutes | src/lib/study-helpers.ts:78 | "m min" and "mmin" read as m |
| Text.CompactDurationRoundTrip | src/app/components/StudyHistory.tsx:70-77 | the history and week-card format reads back as the minutes for anything above -60, and as the truncated remainder below |
| Text.CompactHours | src/app/components/dashboard/WeekProgressCard.tsx:20-27 | with at least one hour the format reads back exactly |
| Text.CompactMinutes | src/app/components/dashboard/WeekProgressCard.tsx:20-27 | below an hour only the remainder is shown, which is the minutes above -60 |
| Text.Split | src/app/components/SettingsModal.tsx:82-97 | splitting always yields at least one field |
| Text.SplitPrefix | src/app/components/SettingsModal.tsx:82-97 | text without the separator joins the first field |
| Text.SplitJoin | src/app/components/SettingsModal.tsx:82-97 | splitting joined fields that lack the separator gives the fields back |
| Text.JoinSnoc | src/app/components/SettingsModal.tsx:82-97 | joining one more field appends the separator and that field |
| Text.IntToStringChars | src/app/components/SettingsModal.tsx:82-97 | a printed integer holds no character other than digits and minus |
| Totals.SumBounds | src/app/components/StudyHistory.tsx:53-57 | a sum of n values between lo and hi lies between n·lo and n·hi |
| Totals.Average | src/app/components/StudyHistory.tsx:53-57 | the average times the count is the sum, and 0 for no values |
| Totals.AverageBounds | src/app/components/StudyHistory.tsx:53-57 | the average of values between lo and hi lies between lo and hi |
| SubjectLists.AddSubject | src/app/components/OnboardingPage.tsx:17-22 | an accepted entry appends the trimmed text; a refused one leaves the list as it was |
| SubjectLists.RemoveAtSplice | src/app/components/SubjectsManager.tsx:23-25 | removal by index drops that one entry; an index out of range changes nothing |
| SubjectLists.TrimTwice | src/app/components/SubjectsManager.tsx:16-21 | trimming twice equals trimming once |
| SubjectLists.AddKeeps | src/app/components/SubjectsManager.tsx:16-21 | adding keeps the list within its cap, its entries trimmed and non-empty, and, where duplicates are refused, distinct |
| SubjectLists.AppendClean | src/app/components/OnboardingPage.tsx:17-22 | appending a trimmed non-empty entry keeps every entry trimmed and non-empty |
| SubjectLists.AppendDistinct | src/app/components/SubjectsManager.tsx:16-21 | appending an entry not yet present keeps the entries distinct |
| SubjectLists.RemoveKeeps | src/app/components/SubjectsManager.tsx:23-25 | removing keeps the cap, the trimmed entries and distinctness |
| Onboarding.DailyLabelRoundTrip | src/app/components/OnboardingPage.tsx:81 | the daily-minutes label reads back as the minutes |
| Onboarding.SavedReadsBack | src/app/components/OnboardingPage.tsx:28-44 | after saving, the subjects and minutes read back and every other key is unchanged |
| Onboarding.OnboardingForm.constructor | src/app/components/OnboardingPage.tsx:12-14 | the form starts with no subjects, an empty input and 120 minutes a day |
| Onboarding.OnboardingForm.SetNewSubject | src/app/components/OnboardingPage.tsx:12-14 | typing changes the input only |
| Onboarding.OnboardingForm.SetDailyMinutes | src/app/components/OnboardingPage.tsx:68-76 | the slider sets the minutes only, to a slider value |
| Onboarding.OnboardingForm.HandleAddSubject | src/app/components/OnboardingPage.tsx:17-22 | adds the trimmed subject under the cap of 10 and clears the input when accepted, keeping the form's invariant |
| Onboarding.OnboardingForm.HandleRemoveSubject | src/app/components/OnboardingPage.tsx:24-26 | removes the subject at the index and nothing else |
| Onboarding.OnboardingForm.HandleComplete | src/app/components/OnboardingPage.tsx:28-44 | completes only when the writes succeed, and then storage holds the subjects and minutes; a failed write leaves storage as it was |
| SubjectsManager.SubjectsEditor.constructor | src/app/components/SubjectsManager.tsx:13 | the editor starts from a copy of the given subjects |
| SubjectsManager.SubjectsEditor.SetNewSubject | src/app/components/SubjectsManager.tsx:13 | typing changes the input only |
| SubjectsManager.SubjectsEditor.HandleAddSubject | src/app/components/SubjectsManager.tsx:16-21 | adds a trimmed, non-duplicate subject under the cap of 15, keeping the cap and distinctness |
| SubjectsManager.SubjectsEditor.HandleRemoveSubject | src/app/components/SubjectsManager.tsx:23-25 | removes the subject at the index and keeps distinctness |
| SubjectsManager.SubjectsEditor.HandleSave | src/app/components/SubjectsManager.tsx:27-33 | saves the edited list exactly when it is non-empty |
| AuthPage.MissingFieldsRefused | src/app/components/AuthPage.tsx:21-29 | an empty name or password, or an empty email on sign-up, is refused and changes no account |
| AuthPage.LoginReadsOnly | src/app/components/AuthPage.tsx:31-47 | login never changes the accounts: an unknown key is refused as not found, a key inherited by every JavaScript object (`constructor`, `__proto__`) or a wrong password as a wrong password, a match signs in with the stored name |
| AuthPage.SignupAddsOne | src/app/components/AuthPage.tsx:48-69 | sign-up refuses a stored or inherited key; otherwise it adds exactly one account, with the trimmed name and email, and signs in |
| AuthPage.KeyIgnoresCaseAndPadding | src/app/components/AuthPage.tsx:34 | the account key ignores surrounding spaces and letter case |
| AuthPage.KeyIsLoweredTrim | src/app/components/AuthPage.tsx:51 | the account key, lowered then trimmed, equals the name trimmed then lowered |
| AuthPage.SignupThenLogin | src/app/components/AuthPage.tsx:31-69 | after signing up under a free key, a login with any case or padding variant of the name and the same password succeeds |
| AuthPage.BlankNameGetsEmptyKey | src/app/components/AuthPage.tsx:21-29 | a name of spaces passes the empty check and signs up under the empty key with an empty name |
| AuthPage.InheritedNamesLocked | src/app/components/AuthPage.tsx:31-69 | a name whose key is inherited by every JavaScript object can neither sign up (name taken) nor log in (wrong password) |
| AuthPage.ConstructorIsInherited | src/app/components/AuthPage.tsx:34 | the name "Constructor" has the inherited key `constructor` |
| AuthPage.AuthForm.constructor | src/app/components/AuthPage.tsx:17-70 | the form starts in login mode with empty fields and no error |
| AuthPage.AuthForm.SetFields | src/app/components/AuthPage.tsx:17-70 | typing changes the fields only |
| AuthPage.AuthForm.HandleSubmit | src/app/components/AuthPage.tsx:17-70 | a sign-up whose email the browser's email field rejects submits nothing; otherwise stores the accounts the submit yields, and either shows its error or signs in with its id and name |
| AuthPage.AuthForm.ToggleMode | src/app/components/AuthPage.tsx:172-177 | switching mode clears the error and the email and keeps name and password |
| SettingsModal.FindUser | src/app/components/SettingsModal.tsx:52-80 | finds the first entry with the id, or reports that none has it |
| SettingsModal.PasswordChain | src/app/components/SettingsModal.tsx:52-80 | the checks run in order (empty fields, mismatch, unknown user or wrong password); success changes exactly the first entry with the id, to the new password |
| SettingsModal.NewPasswordIsCurrent | src/app/components/SettingsModal.tsx:52-80 | after a change the new password is accepted as the current one |
| SettingsModal.WithoutUser | src/app/components/SettingsModal.tsx:103-128 | deletion keeps each entry of another user as many times as it occurs, and no entry of the deleted user |
| SettingsModal.ClearUserData | src/app/components/SettingsModal.tsx:103-128 | deletion removes exactly the user's data keys and leaves every other key |
| SettingsModal.Toggle | src/app/components/SettingsModal.tsx:152-156 | a switch flips its own setting and no other |
| SettingsModal.ToggleTwice | src/app/components/SettingsModal.tsx:152-156 | flipping a switch twice restores the settings |
| SettingsModal.TextOr | src/app/components/SettingsModal.tsx:26-44 | a stored non-empty text is used, otherwise the default |
| SettingsModal.PreferenceKeysDistinct | src/app/components/SettingsModal.tsx:26-44 | the four preference keys of a user are distinct |
| SettingsModal.PreferencesRoundTrip | src/app/components/SettingsModal.tsx:130-150 | a saved theme, font size or animation choice loads back and leaves the other preferences as they were |
| SettingsModal.CsvFields | src/app/components/SettingsModal.tsx:82-97 | a row has six fields, "N/A" for a missing subject and the actual minutes, falling back to the planned ones |
| SettingsModal.CompletedOf | src/app/components/SettingsModal.tsx:82-97 | the export keeps each completed session as many times as it occurs and no other session |
| SettingsModal.CsvLines | src/app/components/SettingsModal.tsx:82-97 | the header, then one row per completed session, in order |
| SettingsModal.HeaderFieldsPlain | src/app/components/SettingsModal.tsx:85 | no column title holds a comma or a line break |
| SettingsModal.HeaderIsOneLine | src/app/components/SettingsModal.tsx:85 | the header is one line that splits back into the six titles |
| SettingsModal.RowSplits | src/app/components/SettingsModal.tsx:86-94 | a row of plain fields is one line that splits back into its fields |
| SettingsModal.TerminatedIsJoin | src/app/components/SettingsModal.tsx:86-94 | newline-terminated lines are the lines joined with a final empty line |
| SettingsModal.CsvLinesSplit | src/app/components/SettingsModal.tsx:82-97 | the exported text splits back into the header and rows, then an empty last line |
| SettingsModal.SettingsForm.constructor | src/app/components/SettingsModal.tsx:16-24 | the form starts with the user's name, empty password fields, default preferences and every notification on |
| SettingsModal.SettingsForm.Load | src/app/components/SettingsModal.tsx:26-44 | loads the stored preferences, and stored notification settings when present; the name, password fields and confirmation stay |
| SettingsModal.SettingsForm.HandleChangeName | src/app/components/SettingsModal.tsx:46-50 | a blank name changes nothing; any other is stored as typed and no other key changes |
| SettingsModal.SettingsForm.HandleChangePassword | src/app/components/SettingsModal.tsx:52-80 | shows the failed check's message and keeps everything; on success stores the changed entries and clears the three fields; name, preferences, notifications and confirmation stay |
| SettingsModal.SettingsForm.HandleDeleteAccount | src/app/components/SettingsModal.tsx:103-128 | the first click only asks for confirmation; the confirmed click removes the user and their data and logs out; name, password fields, preferences and notifications stay |
| SettingsModal.SettingsForm.HandleThemeChange | src/app/components/SettingsModal.tsx:130-134 | sets and stores the theme and nothing else |
| SettingsModal.SettingsForm.HandleFontSizeChange | src/app/components/SettingsModal.tsx:136-140 | sets and stores the font size and nothing else |
| SettingsModal.SettingsForm.HandleAnimationsChange | src/app/components/SettingsModal.tsx:142-150 | sets and stores the animation choice and nothing else |
| SettingsModal.SettingsForm.HandleNotificationToggle | src/app/components/SettingsModal.tsx:152-156 | flips one switch and stores the whole settings object |
| SettingsModal.SettingsForm.ExportCsv | src/app/components/SettingsModal.tsx:82-97 | the loop builds exactly the header and the completed rows, each ended by a newline |
| Notifications.EffectiveSettings | src/lib/notifications.ts:141-144 | stored settings replace the defaults as a whole; missing ones leave every notification on |
| Notifications.StudyReminderRule | src/lib/notifications.ts:51-70 | the reminder is scheduled exactly when it is on and the student has not studied today, one hour ahead, and does not send once they have |
| Notifications.BreakReminderRule | src/lib/notifications.ts:73-86 | the break reminder is scheduled exactly when it is on and the session is longer than five minutes, five minutes before its end |
| Notifications.TodaySessions | src/lib/notifications.ts:94 | the daily summary keeps each of today's completed sessions as many times as it occurs and no other session |
| Notifications.WeekSessions | src/lib/notifications.ts:114 | the weekly summary keeps each completed session from Monday on as many times as it occurs and no other session |
| Notifications.TotalAppend | src/lib/notifications.ts:98 | the minutes of two lists add up |
| Notifications.DayWithinWeek | src/lib/notifications.ts:89-126 | on a day within the week the daily count and minutes never exceed the weekly ones |
| Notifications.HoursMinutesRoundTrip | src/lib/notifications.ts:99-104 | the summary's hours and minutes read back as the total |
| Notifications.SummariesAgree | src/lib/notifications.ts:89-126 | a summary is sent exactly when it is on and a session counts, and the day's figures stay within the week's |
| Notifications.ScheduleTimes | src/lib/notifications.ts:137-173 | with permission, the daily summary is scheduled only before 20:00 and fires at 20:00, and the weekly one only on Sunday before 18:00 and fires at 18:00 |
| DashboardPage.WithStatus | src/app/components/DashboardPage.tsx:56-66 | keeps each session of one status as many times as it occurs and no other session |
| DashboardPage.OnOrAfter | src/app/components/DashboardPage.tsx:56-66 | keeps each session dated from Monday on as many times as it occurs and no other session |
| DashboardPage.WeekProgressOf | src/app/components/DashboardPage.tsx:56-66 | the week's total counts its sessions and the completed count its completed ones, never more than the total |
| DashboardPage.ProgressPercent | src/app/components/dashboard/WeekProgressCard.tsx:18 | the percentage is completed·100 over total, and 0 without sessions |
| DashboardPage.PercentBounds | src/app/components/dashboard/WeekProgressCard.tsx:18 | the percentage lies between 0 and 100 and is 100 exactly when every session is done |
| DashboardPage.NextSession | src/app/components/DashboardPage.tsx:190 | the first pending session of today, and none exactly when nothing is pending |
| DashboardPage.StatusCount | src/app/components/DashboardPage.tsx:191 | the rows of one status number as many as the occurrences of that status |
| DashboardPage.CompletedToday | src/app/components/DashboardPage.tsx:191 | the completed count is the number of today's sessions whose status is completed |
| DashboardPage.CompleteRows | src/app/components/DashboardPage.tsx:86-105 | the rows with the id become completed with the minutes and time; the others stay |
| DashboardPage.FindById | src/app/components/DashboardPage.tsx:86-105 | finds the first session with the id, or none has it |
| DashboardPage.ActualMinutes | src/app/components/DashboardPage.tsx:122-126 | one actual duration per session, 0 when missing |
| DashboardPage.AggregatesMeaning | src/app/components/DashboardPage.tsx:122-126 | the counts fit within the total, and the average duration is 0 or lies between the smallest and the largest duration |
| DashboardPage.StatusesPartition | src/app/components/DashboardPage.tsx:122-126 | completed and abandoned sessions together are at most all of them |
| DashboardPage.AdjustedPlan | src/app/components/DashboardPage.tsx:153-166 | the update changes the duration, sessions per day and update time, and nothing else |
| DashboardPage.Dashboard.constructor | src/app/components/DashboardPage.tsx:13-19 | the dashboard starts loading, with no plan and no sessions |
| DashboardPage.Dashboard.Load | src/app/components/DashboardPage.tsx:24-76 | a failed plan query (no active plan included) changes only the loading flag; a failed week generation (invalid date or insert error) sets only the plan; a failed today or week query keeps the fields set after it; otherwise sets the plan, today's sessions, the week's progress and the streak |
| DashboardPage.Dashboard.HandleStartSession | src/app/components/DashboardPage.tsx:86-105 | an unknown session or a failed update changes nothing; otherwise the session is completed with its planned minutes, and exactly then the page reloads its data (`Load`) |
| DashboardPage.Dashboard.HandleAdjustPlan | src/app/components/DashboardPage.tsx:107-173 | sends the aggregates; a failed response or update alerts and writes nothing; success writes the adjusted plan, shows its message and is exactly when the page reloads its data (`Load`); until that reload the sessions, progress, streak and loading flag stay |
| DashboardPage.Dashboard.Percent | src/app/components/DashboardPage.tsx:192 | the progress shown lies between 0 and 100 |
| StudyHistory.TodayWithinWeek | src/app/components/StudyHistory.tsx:43-50 | today's minutes are non-negative and never exceed the last seven days' |
| StudyHistory.Ratings | src/app/components/StudyHistory.tsx:53 | keeps every non-zero rating as many times as sessions carry it, and nothing else |
| StudyHistory.AverageRatingInScale | src/app/components/StudyHistory.tsx:53-57 | the average rating lies between 1 and 5 |
| StudyHistory.LitPrefix | src/app/components/StudyHistory.tsx:197-205 | among the first n dots, as many are lit as the rating, up to n |
| StudyHistory.DotsShowRating | src/app/components/StudyHistory.tsx:197-205 | a rating of r lights exactly r of the five dots |
| StudyHistory.History.constructor | src/app/components/StudyHistory.tsx:13-17 | the panel starts loading with zero totals |
| StudyHistory.History.LoadHistory | src/app/components/StudyHistory.tsx:23-63 | a failed query changes only the loading flag; otherwise stores the rows and sets today's and the week's minutes; the average changes only when some session is rated |
| SubjectPicker.Insert | src/app/components/dashboard/NextSessionCard.tsx:44-47 | one insertion step adds exactly one entry |
| SubjectPicker.SortByPriority | src/app/components/dashboard/NextSessionCard.tsx:44-47 | the sorted copy has as many entries as the input |
| SubjectPicker.OfPriority | src/app/components/dashboard/MainActionCard.tsx:36-39 | a group holds only subjects of its priority |
| SubjectPicker.InsertBetween | src/app/components/dashboard/MainActionCard.tsx:36-39 | an insertion lands after the entries of lower or equal rank and before the higher ones |
| SubjectPicker.SortIsGrouping | src/app/components/dashboard/MainActionCard.tsx:36-39 | the sort gives all high, then all medium, then all low subjects, each group in input order |
| SubjectPicker.InsertIntoGroups | src/app/components/dashboard/MainActionCard.tsx:36-39 | inserting into grouped subjects appends to the subject's own group |
| SubjectPicker.InsertHigh | src/app/components/dashboard/MainActionCard.tsx:36-39 | a high-priority subject goes at the end of the high group |
| SubjectPicker.InsertMedium | src/app/components/dashboard/MainActionCard.tsx:36-39 | a medium-priority subject goes at the end of the medium group |
| SubjectPicker.InsertLow | src/app/components/dashboard/MainActionCard.tsx:36-39 | a low-priority subject goes at the very end |
| SubjectPicker.GroupsSnoc | src/app/components/dashboard/MainActionCard.tsx:36-39 | one more subject extends only its own group |
| SubjectPicker.GroupsPartition | src/app/components/dashboard/MainActionCard.tsx:36-39 | the three groups hold exactly the input subjects |
| SubjectPicker.PartitionStep | src/app/components/dashboard/MainActionCard.tsx:36-39 | one more subject adds it to the groups' contents |
| SubjectPicker.SortMeaning | src/app/components/dashboard/NextSessionCard.tsx:44-47 | the sort is a permutation, ranks never decrease along it, and equal priorities keep their order |
| SubjectPicker.GroupsOrdered | src/app/components/dashboard/MainActionCard.tsx:36-39 | ranks never decrease across the groups |
| SubjectPicker.GroupsStable | src/app/components/dashboard/MainActionCard.tsx:36-39 | picking one priority out of the grouped order gives that priority's subjects in input order |
| SubjectPicker.OfPriorityAppend | src/app/components/dashboard/MainActionCard.tsx:36-39 | picking a priority distributes over concatenation |
| SubjectPicker.OnlyGroup | src/app/components/dashboard/MainActionCard.tsx:36-39 | a group of one priority keeps itself and drops the others |
| SubjectPicker.OptionsShape | src/app/components/dashboard/NextSessionCard.tsx:58-81 | the selector shows exactly when there are subjects: an empty first option, then every subject in sorted order with its "name - label" |
| SubjectPicker.FindSubject | src/app/components/dashboard/NextSessionCard.tsx:93-99 | the first subject with the id, or none has it |
| SubjectPicker.SelectedBadge | src/app/components/dashboard/MainActionCard.tsx:93-98 | no badge exactly when nothing is selected; a shown name is the first matching subject's, and a badge without a name means no subject has the id |
| WeekProgressCard.SameDigitsAfterDash | src/app/components/dashboard/WeekProgressCard.tsx:90 | keys ending in a dash and digits agree on the digits when equal |
| WeekProgressCard.RowKeysDistinct | src/app/components/dashboard/WeekProgressCard.tsx:90 | rows at different indices get different keys |
| WeekProgressCard.CardShape | src/app/components/dashboard/WeekProgressCard.tsx:46-104 | the streak shows exactly when positive, as "n dias"; the subject list shows exactly when non-empty, one row per subject with its name, colour and readable time, and distinct keys |
| WelcomeCard.MessagesDistinct | src/app/components/dashboard/WelcomeCard.tsx:9-13 | the three messages differ |
| WelcomeCard.Bands | src/app/components/dashboard/WelcomeCard.tsx:9-13 | from 80 percent the top message, from 50 the middle one, below 50 the first |
| WelcomeCard.MessageMonotone | src/app/components/dashboard/WelcomeCard.tsx:9-13 | more progress never yields an earlier message |
| StudyTimer.InitialInv | src/app/components/StudyTimer.tsx:39-64 | the timer starts within its target and not complete |
| StudyTimer.StepKeepsInv | src/app/components/StudyTimer.tsx:81-155 | every event keeps elapsed time within the target, at most two cycles, and feedback open once two are done |
| StudyTimer.RunKeepsInv | src/app/components/StudyTimer.tsx:81-155 | any sequence of events keeps the invariant |
| StudyTimer.ReachableInv | src/app/components/StudyTimer.tsx:81-155 | every reachable state stays within its target with at most two cycles, and two cycles mean feedback is open and the timer stopped |
| StudyTimer.CompletionCountsCycles | src/app/components/StudyTimer.tsx:95-130 | finishing work adds one cycle and either opens feedback (second cycle) or starts a break from zero; finishing a break returns to work from zero |
| StudyTimer.ClicksKeepProgress | src/app/components/StudyTimer.tsx:132-155 | clicks never move time, phase or cycles; start and pause change only the running flags |
| StudyTimer.PresetResets | src/app/components/StudyTimer.tsx:143-150 | a preset sets both durations from the table, restarts the phase and stops the timer |
| StudyTimer.ReportedMinutes | src/app/components/StudyTimer.tsx:152-155 | a reported completion comes from submit on the feedback screen and counts one or two work phases; cancel never reports one |
| StudyTimer.Ticks | src/app/components/StudyTimer.tsx:81-93 | k interval ticks in a row |
| StudyTimer.RunAppend | src/app/components/StudyTimer.tsx:81-155 | running two event sequences in turn equals running them joined |
| StudyTimer.TicksCount | src/app/components/StudyTimer.tsx:81-93 | while running below the target, k ticks add k seconds and change nothing else |
| StudyTimer.TicksStopAtTarget | src/app/components/StudyTimer.tsx:81-93 | at the target further ticks change nothing |
| StudyTimer.RunPhase | src/app/components/StudyTimer.tsx:81-130 | a phase left to run switches to the other phase from zero, counting a cycle after work |
| StudyTimer.FullSession | src/app/components/StudyTimer.tsx:32-155 | with any preset, work, break and work again open feedback, which reports two work phases |
| StudyTimer.FormatTimeRoundTrip | src/app/components/StudyTimer.tsx:157-161 | the mm:ss display reads back as the seconds |
| StudyTimer.RemainingAddsUp | src/app/components/StudyTimer.tsx:163 | elapsed plus remaining is the target, and each effective tick takes one second off |
| StudyTimer.Timer.constructor | src/app/components/StudyTimer.tsx:39-59 | the timer mounts in its initial state |
| StudyTimer.Timer.OnTick | src/app/components/StudyTimer.tsx:81-93 | the interval callback is the tick step |
| StudyTimer.Timer.HandlePhaseComplete | src/app/components/StudyTimer.tsx:107-130 | completing a phase is the phase-complete step, keeping the invariant |
| StudyTimer.Timer.OnCompletionEffect | src/app/components/StudyTimer.tsx:95-99 | the completion effect is its step |
| StudyTimer.Timer.OnResumeTimeout | src/app/components/StudyTimer.tsx:118-127 | the delayed restart is the resume step |
| StudyTimer.Timer.HandleStart | src/app/components/StudyTimer.tsx:132-137 | start is the start step |
| StudyTimer.Timer.HandlePause | src/app/components/StudyTimer.tsx:139-141 | pause is the pause step |
| StudyTimer.Timer.HandlePresetChange | src/app/components/StudyTimer.tsx:143-150 | a preset click is the preset step |
| StudyTimer.Timer.HandleFinish | src/app/components/StudyTimer.tsx:427-429 | finishing early is its step |
| StudyTimer.Timer.HandleCompleteFeedback | src/app/components/StudyTimer.tsx:152-155 | submits cycles times work minutes, one or two work phases |
| AppPage.KeysDistinct | src/app/page.tsx:14-40 | the login keys and a user's onboarding key are distinct |
| AppPage.RestoreScreen | src/app/page.tsx:14-72 | after loading, the sign-in screen shows exactly when either login key is missing or empty; the dashboard exactly when the stored user is onboarded |
| AppPage.SignInPersists | src/app/page.tsx:31-40 | signing in stores both keys, changes no other key, reads the onboarding flag, and a reload restores the same session |
| AppPage.BlankIdStaysOnAuth | src/app/page.tsx:31-72 | signing in with the empty id stays on the sign-in screen, and a reload too |
| AppPage.OnboardingPersists | src/app/page.tsx:63-66 | completing onboarding shows the dashboard, and a reload restores the user as onboarded |
| AppPage.App.constructor | src/app/page.tsx:14-29 | the page starts loading with nobody signed in |
| AppPage.App.LoadFromStorage | src/app/page.tsx:14-29 | the mount effect restores the state from storage |
| AppPage.App.HandleAuth | src/app/page.tsx:31-40 | the sign-in handler sets the state and storage as specified |
| AppPage.App.CompleteOnboarding | src/app/page.tsx:63-66 | the onboarding handler stores the flag and marks the user onboarded |

## Left out

- Time zones and date parsing: ISO date strings are day numbers and timestamps are milliseconds, so the UTC date of `toISOString` and the local date of `getDay` are not told apart.
- Floating point: percentages and averages are exact reals. `Math.round` of the average rating to one decimal is not modelled.
- StudyHistory.History.LoadHistory: stores the exact average, not the one rounded to one decimal.
- Text.CompactDurationRoundTrip: below -60 minutes the display drops the hours, which the contract states instead of a round trip. Negative minutes do not occur in the app.
- Audio, the browser Notification API and `setTimeout` delivery: notifications are the delays the model schedules, and the timer's delayed restart is an event.
- Supabase, the AI service and `supabase.ts`, `openai.ts` and `src/app/api/ai-adjust/route.ts`: their results are parameters. Query filters, ordering and limits are taken as given by the rows passed in. The six onboarding-profile answers that the plan adjustment sends besides the statistics are not part of `DashboardPage.AiStats`.
- `localStorage` writes in the sign-in form, the app shell and the settings modal are assumed to succeed; a `setItem` or `removeItem` that throws there, which would abort the handler before its later effects, is not modelled.
- Malformed JSON in storage and non-text values under text keys are treated as absent or as the defaults.
- `toLowerCase` is modelled for Latin-1 letters only.
- The accounts of the sign-in form (an object keyed by lower-cased name) and the user array read by the settings modal are different shapes in the source. The model keeps them as two separate parameters.
- Onboarding.OnboardingForm.HandleComplete: models one failing write for the whole save. A failure after the first of its writes is not modelled.
- SettingsModal.CsvLinesSplit: fields are written without quoting, so the split is proved only for sessions whose fields hold no comma or line break.
- Durations are whole minutes; fractional minutes are not modelled.
- The PDF export alert, the DOM effects of theme, font size and animations, and every layout detail are not modelled.
- `ProgressSummary.tsx`, `TodaySessionsList.tsx`, `TodaySessionsPreview.tsx` and `ThemeInitializer.tsx` only render or re-apply stored values, and are not part of this model.
- The welcome card's greeting headline is plain text and is not modelled; only its progress message is.
- Requesting notification permission is the `hasPermission` parameter.
- DashboardPage.Dashboard.Load: the outcome of `generateWeeklySessions` and the week's rows are parameters; that the rows include the sessions it has just inserted is not stated.
- StudyTimer.Timer.HandleCompleteFeedback: `onComplete` also receives the feedback form's contents and the selected subject; the model keeps neither and states only the minutes.
- AuthPage.AuthForm.HandleSubmit: which texts the browser's email field accepts is the `emailAccepted` parameter; the browser's address grammar is not modelled.
