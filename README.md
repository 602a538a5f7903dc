# zen_clear core, modelled in Dafny

zen_clear is a browser extension for the ZenStudy learning site. This project models its sequential cores and proves properties of them:

- **The background reminder service.** It keeps a persisted list of reminder records under one storage key and a registry of named one-shot alarms `zen-reminder-<id>`. It covers the 32-bit id hash, the rule "three days before, at 09:00 when the event has no time", batch add with deduplication, the completion toggle, notified-marking, the full alarm re-sync and the alarm-fire handler.
- **The CSV-to-calendar converter of the chat-page content script.** It covers the quote-aware CSV line splitter of section 2 of RFC 4180, header mapping, building an event from a row with the end-time fallback, the reminder payload, and the iCalendar writer of RFC 5545.
- **Study-time aggregation.** It covers the goal and current totals of chapters, courses and monthly reports, the label-wise merge, chapter deduplication and completion counting, the subject-name collectors, the per-course chapter map and the course progress line.
- **The popup's display helpers.** It covers times, percents, compact dates, schedule dates and counts, and the pending-reminder list and its completion toggle.
- **The report-range overlay.** It covers June to December of a year, the combined summary, and the re-entrancy guard of the fetch handler.
- **Configuration clean-up and the monthly-report URL match**, with the tab preference rule.
- **The YouTube block screen.** It is a two-question quiz overlay, driven by runtime messages.

## Modules

There is one module per source file:

| module | source file |
|---|---|
| `Reminders` | `background/reminders.js` |
| `CsvCalendar` | `content-scripts/chatgpt-csv-calendar.js` (line splitting, dates) |
| `CsvEvents` | `content-scripts/chatgpt-csv-calendar.js` (events, iCalendar) |
| `TimeProgress` | `popup/scripts/zen-study-plus/time-progress.js` |
| `Subjects` | `popup/scripts/lib/subjects.js` |
| `Format` | `popup/scripts/lib/format.js` |
| `PopupReminders` | `popup/scripts/lib/reminders.js` |
| `ReportRange` | `popup/scripts/lib/report-range-overlay.js` |
| `Config` | `popup/scripts/lib/config.js` |
| `MonthlyReport` | `popup/scripts/lib/monthly-report.js` |
| `YoutubeBlock` | `content-scripts/youtube-block.js` |

Three modules support the others:

- `Wrappers` holds the `Option` type, used for `null`, `undefined` and optional JSON fields.
- `Text` holds the JavaScript string operations the code relies on: `trim`, `includes`, `padStart`, `join`, `split`, `String(n)` and UTF-16 code units.
- `Calendar` holds the local-calendar arithmetic of `Date`, after section 21.4.1 of ECMA-262, with the local time zone taken as UTC.

The code's shape decides the model's shape:

- Code that changes state step by step becomes a class:
  - the background service, with its store, alarms, notifications and storage-write counter;
  - the report-range overlay;
  - the YouTube block screen.
- Loops become methods with invariants. Each such method is proved equal to a specification function, and the source's promises are proved about that function as lemmas. The message handler `ReminderService.OnMessage` restates, under each message kind, the reply and new state that `AddReminders` and `UpdateCompletion` guarantee.
- Pure code becomes functions and lemmas.

Things that come from outside the code are parameters:

- The clock: `Date.now()` and `new Date().toISOString()` are the parameters `now` and `nowIso`, read once per handler call (see "## Left out").
- `new Date(string)` and `toISOString` are the two functions of a `DateEnv` parameter.
- `new URL(url).pathname` is a path-extractor parameter.
- `JSON.stringify(report)` is an input string, or `None` when it throws.
- The background reply to the overdue-reminder check is a boolean input.

## Model

| member | source | states |
|---|---|---|
| Calendar.CivilRoundTrip | background/reminders.js:59-60 | the civil date of any day number is built back into that day number by `MakeDay` |
| Calendar.MakeDayOfValid | content-scripts/chatgpt-csv-calendar.js:128-135 | a valid civil date, built into a day number, reads back as the same date |
| Calendar.SetDateShift | background/reminders.js:60 | `setDate(getDate() + k)` moves the time value by exactly k days |
| Calendar.SetHoursFields | background/reminders.js:62 | `setHours(h, 0, 0, 0)` keeps the day and sets the hour to h and the lower fields to 0 |
| Calendar.AddHour | content-scripts/chatgpt-csv-calendar.js:207 | `setHours(getHours() + 1)` moves the time value by exactly one hour |
| Calendar.JsYear | content-scripts/chatgpt-csv-calendar.js:128-135 | the `Date` constructor reads a year from 0 to 99 as 1900 plus that year, and any other year as it is |
| Calendar.NewDateFields | content-scripts/chatgpt-csv-calendar.js:128-135 | the `Date` constructor on in-range fields gives a time whose fields are those fields |
| Reminders.ToInt32 | background/reminders.js:24 | `hash \|= 0`: the result is a signed 32-bit integer congruent to the input mod 2^32 |
| Reminders.Imul | background/reminders.js:23 | `Math.imul`: the signed 32-bit integer congruent to the product `x * y` mod 2^32, that is, its low 32 bits read as signed |
| Reminders.HashStep | background/reminders.js:23-24 | one step of the hash loop stays within int32 range |
| Reminders.HashFold | background/reminders.js:21-25 | the fold over the UTF-16 code units stays within int32 range |
| Reminders.HashNumber | background/reminders.js:26 | `Math.abs` of the hash is at most 2^31 |
| Reminders.HashFoldSnoc | background/reminders.js:22-25 | the hash of a prefix one unit longer is one more loop step |
| Reminders.HashString | background/reminders.js:20-27 | the loop computes exactly the specified id of the value |
| Reminders.HashIdShape | background/reminders.js:26 | every id is `rem-` followed by decimal digits whose value is at most 2^31 |
| Reminders.ParseDate | background/reminders.js:31-37 | an empty value is no date |
| Reminders.ParseDateField | background/reminders.js:31-34 | a null field is no date |
| Reminders.ComputeReminderAt | background/reminders.js:54-65 | the reminder time is null exactly when the start does not parse |
| Reminders.ReminderFromStart | background/reminders.js:59-64 | the shifted time; its contract is in `ReminderAtTimed` and `ReminderAtDateOnly` |
| Reminders.ReminderAtTimed | background/reminders.js:59-64 | with a time, the reminder is exactly three days before the start |
| Reminders.ReminderAtDateOnly | background/reminders.js:59-63 | without a time, the reminder is at 09:00:00.000 three calendar days before the start's day |
| Reminders.EarlierIsThreeDays | background/reminders.js:59-60 | `setDate(getDate() - 3)` moves the time value back by three days of milliseconds |
| Reminders.DateOnlyAtNine | background/reminders.js:60-62 | `setHours(9, 0, 0, 0)` after the date shift lands at 09:00 on the day three before |
| Reminders.FormatDateText | background/reminders.js:39-52 | the text is empty exactly when the value does not parse |
| Reminders.FormatDateTextSpec | background/reminders.js:39-52 | for a start that parses, the text is its month (from 1), `/` and its day, followed with a time by a space and the hour and minute as two digits each around `:` |
| Reminders.BuildReminderFromEvent | background/reminders.js:67-102 | null exactly for a non-object event or an empty or non-string start; otherwise the hashed id, the given start and end, the description and location (or `''` when missing), not completed, not notified, both stamps null, created and updated now, source `chatgpt` |
| Reminders.BuildTitle | background/reminders.js:72-74 | the title is the trimmed title, or `予定` when that is blank |
| Reminders.BuildReminderAt | background/reminders.js:86-87 | the reminder time is null exactly when the start does not parse, and is otherwise the ISO text of the computed time; the record is still built |
| Reminders.IdDependsOnlyOnTitleStartEnd | background/reminders.js:72-83 | two events with the same trimmed title, start and end get the same id, whatever their description, location, time flag or clock |
| Reminders.AlarmName | background/reminders.js:29 | the alarm name is the prefix `zen-reminder-` followed by the id |
| Reminders.AlarmNameInjective | background/reminders.js:29 | distinct ids give distinct alarm names |
| Reminders.AlarmTime | background/reminders.js:104-111 | an alarm is due exactly for a record neither completed nor notified whose reminder time parses to a nonzero time later than now, and then at that time |
| Reminders.ScheduleOn | background/reminders.js:104-113 | scheduling adds or replaces only the record's alarm, at its due time, and changes nothing when none is due |
| Reminders.Prune | background/reminders.js:125-131 | the first loop keeps exactly the alarms not prefixed, or named after a listed record, with their times |
| Reminders.ScheduleAllKeys | background/reminders.js:133-135 | scheduling a list only adds alarms named after its records and keeps every other alarm as it was |
| Reminders.ScheduleAllHas | background/reminders.js:133-135 | every schedulable record of the list gets its alarm, at its own time when ids are unique |
| Reminders.SyncedSpec | background/reminders.js:123-136 | after a re-sync no prefixed alarm remains for an id absent from the list, every other alarm is untouched, and every schedulable record has its alarm |
| Reminders.Synced | background/reminders.js:123-136 | the registry after the prune and the scheduling loop; its contract is in `SyncedSpec` |
| Reminders.SyncKeepsAlarmOfStoredRecord | background/reminders.js:125-130 | the re-sync keeps the existing alarm of every listed record, whatever its state |
| Reminders.SyncKeepsCompletedAlarm | background/reminders.js:125-130 | a completed record keeps an alarm left from before its completion |
| Reminders.Additions | background/reminders.js:153-161 | the batch adds at most as many records as it has events |
| Reminders.AdditionsStep | background/reminders.js:153-161 | one loop iteration: a built record with an unseen id is appended and its id marked seen, anything else is skipped |
| Reminders.AdditionsSpec | background/reminders.js:150-161 | the added records have pairwise distinct ids not seen before, and are a subsequence of the built records in input order |
| Reminders.AdditionsCover | background/reminders.js:153-161 | every event that builds a record ends with its id seen, added now or already present |
| Reminders.AdditionsNone | background/reminders.js:155-157 | when every built id is already present nothing is added |
| Reminders.BuildIdClockFree | background/reminders.js:72-83 | whether an event builds, and its id, do not depend on the clock |
| Reminders.RepeatBatchAddsNothing | background/reminders.js:143-175 | adding the same batch again, at any later time, adds nothing |
| Reminders.AddKeepsIdsUnique | background/reminders.js:149-161 | a store with unique ids keeps unique ids after a batch add |
| Reminders.MarkCompletion | background/reminders.js:185-196 | the completion map keeps the length and every record with another id; a record with the id gets the new flag, `completedAt` now or null, and `updatedAt` now, and nothing else of it changes |
| Reminders.MarkNotifiedAll | background/reminders.js:220-230 | the notified map keeps the length and every record with another id; a record with the id becomes notified, with `notifiedAt` and `updatedAt` now, and nothing else of it changes |
| Reminders.LastWithId | background/reminders.js:183-196 | `updatedReminder` is null exactly when no record has the id, and otherwise the record with the id that no later record shares it with |
| Reminders.FindById | background/reminders.js:280 | `find` returns the first record with the id, and nothing exactly when no record has it |
| Reminders.MarkCompletionKeepsIds | background/reminders.js:185-196 | the completion update changes no id, so the id set and its uniqueness are kept |
| Reminders.CompletedNotScheduled | background/reminders.js:189-194 | a record just completed is never scheduled |
| Reminders.FireTarget | background/reminders.js:273-283 | the alarm handler acts only for a prefixed name, on a stored record with that id neither completed nor notified |
| Reminders.FindAfterMark | background/reminders.js:220-231 | after marking, the first record with the id is notified |
| Reminders.SecondFireIsNoop | background/reminders.js:273-290 | a second firing of the same alarm after a notification notifies nothing |
| Reminders.NotificationFor | background/reminders.js:234-251 | the notification is named after the alarm and titled `リマインダー` |
| Reminders.NotificationMessage | background/reminders.js:235-239 | the message starts with the quoted title (or `予定`), ends with `)` exactly when the start parses, and then ends with ` (`, the due text and `)` |
| Reminders.ReminderService.constructor | background/reminders.js:1-18 | the service starts from the given store and alarms, with no notification and no write |
| Reminders.ReminderService.ScheduleAlarm | background/reminders.js:104-113 | the registry becomes the specified registry after scheduling this record |
| Reminders.ReminderService.ClearAlarm | background/reminders.js:115-117 | the record's alarm is removed and nothing else |
| Reminders.ReminderService.ScheduleEach | background/reminders.js:133-135 | the registry becomes the fold of scheduling over the list |
| Reminders.ReminderService.SyncAlarms | background/reminders.js:123-136 | the registry becomes the pruned-then-scheduled registry |
| Reminders.ReminderService.ResyncAll | background/reminders.js:138-141 | the re-sync uses the stored list |
| Reminders.ReminderService.CollectAdditions | background/reminders.js:150-161 | the loop computes exactly the specified additions |
| Reminders.ReminderService.AddReminders | background/reminders.js:143-175 | an empty or non-array input gives `{ok:false,0,0}` and changes nothing; otherwise ok, added plus skipped is the batch size, the additions are appended after the unchanged store, storage is written once exactly when something was added, and only the additions are scheduled |
| Reminders.ReminderService.UpdateCompletion | background/reminders.js:177-211 | ok exactly for a non-empty id found in the store; then the store is the completion map, written once, and the alarm is cleared when completed or rescheduled otherwise; on failure nothing changes |
| Reminders.ReminderService.MarkNotified | background/reminders.js:213-232 | an empty id changes nothing; any other id writes the notified map back, found or not |
| Reminders.ReminderService.OnAlarm | background/reminders.js:273-290 | when the handler has a target it adds one notification for it and marks the id notified; otherwise nothing changes |
| Reminders.ReminderService.OnMessage | background/reminders.js:253-271 | other messages get no reply and change nothing; the add message replies and changes the store, the alarms and the write count exactly as `addReminders` does; the complete message does the same as `updateReminderCompletion`, ok exactly for a known non-empty id |
| CsvCalendar.Scan | content-scripts/chatgpt-csv-calendar.js:80-102 | the scanner always yields at least one cell |
| CsvCalendar.TrimAll | content-scripts/chatgpt-csv-calendar.js:96-102 | trimming the cells keeps their number |
| CsvCalendar.TrimAllAt | content-scripts/chatgpt-csv-calendar.js:96-102 | each cell is trimmed on its own |
| CsvCalendar.TrimAllTrimmed | content-scripts/chatgpt-csv-calendar.js:96-102 | every resulting cell is trimmed |
| CsvCalendar.TrimAllOfTrimmed | content-scripts/chatgpt-csv-calendar.js:96-102 | trimming cells that are already trimmed changes nothing |
| CsvCalendar.CsvCells | content-scripts/chatgpt-csv-calendar.js:75-104 | a line always has at least one cell |
| CsvCalendar.CsvCellsTrimmed | content-scripts/chatgpt-csv-calendar.js:96-102 | every cell `parseCsvLine` returns is trimmed |
| CsvCalendar.ScanAt | content-scripts/chatgpt-csv-calendar.js:81-100 | one loop iteration: a doubled quote inside quotes is one quote, a lone quote toggles quoting, a comma outside quotes ends the cell, any other character joins it |
| CsvCalendar.ParseCsvLine | content-scripts/chatgpt-csv-calendar.js:75-104 | the character loop computes exactly the specified cells |
| CsvCalendar.ScanCount | content-scripts/chatgpt-csv-calendar.js:80-102 | the scanner yields one more cell than it meets commas outside quotes |
| CsvCalendar.CellCount | content-scripts/chatgpt-csv-calendar.js:75-104 | a line has one more cell than commas outside quotes |
| CsvCalendar.UnclosedQuoteAbsorbs | content-scripts/chatgpt-csv-calendar.js:82-92 | inside a quote that is never closed the rest of the line, commas included, is one cell |
| CsvCalendar.UnclosedQuoteLine | content-scripts/chatgpt-csv-calendar.js:82-102 | an opening quote never closed keeps the rest of the line in one trimmed cell, without the quote |
| CsvCalendar.ScanPlain | content-scripts/chatgpt-csv-calendar.js:93-100 | without quotes the scanner splits at every comma |
| CsvCalendar.PlainLine | content-scripts/chatgpt-csv-calendar.js:75-104 | a line without quotes is its comma-separated pieces, each trimmed |
| CsvCalendar.PlainRoundTrip | content-scripts/chatgpt-csv-calendar.js:75-104 | trimmed cells without quotes or commas, joined with commas, read back unchanged |
| CsvCalendar.QuoteAll | content-scripts/chatgpt-csv-calendar.js:82-94 | quoting keeps the number of cells |
| CsvCalendar.ScanQuoted | content-scripts/chatgpt-csv-calendar.js:83-92 | inside quotes, doubled quotes read back as single quotes up to the closing quote |
| CsvCalendar.QuotedRoundTrip | content-scripts/chatgpt-csv-calendar.js:80-102 | cells written quoted with doubled quotes read back unchanged, whatever quotes and commas they hold |
| CsvCalendar.QuotedLineRoundTrip | content-scripts/chatgpt-csv-calendar.js:75-104 | trimmed cells written in the quoted form of RFC 4180 section 2 survive `parseCsvLine` |
| CsvCalendar.SplitLines | content-scripts/chatgpt-csv-calendar.js:110 | `split(/\r?\n/)` yields at least one piece |
| CsvCalendar.SplitLinesNoLF | content-scripts/chatgpt-csv-calendar.js:110 | no piece holds a line feed |
| CsvCalendar.NormalizeLine | content-scripts/chatgpt-csv-calendar.js:106 | a normalised line is trimmed |
| CsvCalendar.NonEmptyNormalized | content-scripts/chatgpt-csv-calendar.js:111-112 | normalising and dropping empty lines keeps no more lines than it was given |
| CsvCalendar.NormalizedClean | content-scripts/chatgpt-csv-calendar.js:111-112 | every kept line is non-empty, trimmed and free of line breaks |
| CsvCalendar.SplitCsvClean | content-scripts/chatgpt-csv-calendar.js:108-113 | every line `splitCsv` returns is non-empty, trimmed and free of line breaks |
| CsvCalendar.NormalizeClean | content-scripts/chatgpt-csv-calendar.js:106 | a clean line is its own normalisation |
| CsvCalendar.NormalizeAllClean | content-scripts/chatgpt-csv-calendar.js:111-112 | normalising clean lines changes nothing |
| CsvCalendar.SplitLinesJoin | content-scripts/chatgpt-csv-calendar.js:110 | pieces without LF joined with LF, or with CRLF, split back into the same pieces |
| CsvCalendar.SplitCsvJoin | content-scripts/chatgpt-csv-calendar.js:108-113 | clean lines joined with LF or with CRLF come back out of `splitCsv` unchanged |
| CsvCalendar.DigitRun | content-scripts/chatgpt-csv-calendar.js:125 | the greedy `\d{1,2}` takes one or two digits and stops before a third |
| CsvCalendar.DatePart | content-scripts/chatgpt-csv-calendar.js:125 | a date match ends after where it starts, within the text |
| CsvCalendar.FirstMatch | content-scripts/chatgpt-csv-calendar.js:125 | `match` finds the leftmost position where the pattern matches, and none when there is none |
| CsvCalendar.TryParseDate | content-scripts/chatgpt-csv-calendar.js:115-140 | a blank value is no date |
| CsvCalendar.DatePartOf | content-scripts/chatgpt-csv-calendar.js:125 | a date-shaped text yields its year, month and day |
| CsvCalendar.MatchDateOnly | content-scripts/chatgpt-csv-calendar.js:125-127 | a date alone is matched with hour, minute and second 0 |
| CsvCalendar.TimePartOf | content-scripts/chatgpt-csv-calendar.js:125-127 | the optional time yields hour and minute, and the seconds when `:SS` follows, else 0 |
| CsvCalendar.MatchDateTimeAt | content-scripts/chatgpt-csv-calendar.js:125-127 | a date followed by a time at its end matches with all six numbers |
| CsvCalendar.MatchDateTime | content-scripts/chatgpt-csv-calendar.js:125-127 | a date, `T` or a space, `H:MM` and optional `:SS` match with all six numbers, the second 0 when absent |
| CsvEvents.SplitWs | content-scripts/chatgpt-csv-calendar.js:147 | `split(/\s+/)` yields at least one piece |
| CsvEvents.SplitWsWord | content-scripts/chatgpt-csv-calendar.js:147-148 | a single word is a single piece, so no time is split off |
| CsvEvents.SplitWsFirst | content-scripts/chatgpt-csv-calendar.js:147-149 | the first word before a run of white space is the first piece |
| CsvEvents.Combined | content-scripts/chatgpt-csv-calendar.js:153 | the combined text is empty exactly when both parts are |
| CsvEvents.PartsBlank | content-scripts/chatgpt-csv-calendar.js:142-157 | two blank cells give no date |
| CsvEvents.PartsTimeCell | content-scripts/chatgpt-csv-calendar.js:144-159 | a non-blank time cell is the time text, so a parsed result has a time |
| CsvEvents.PartsOneWord | content-scripts/chatgpt-csv-calendar.js:146-160 | a one-word date with a blank time cell parses the date alone, with a time exactly when it holds `THH:MM` |
| CsvEvents.PartsTwoWords | content-scripts/chatgpt-csv-calendar.js:146-160 | a two-word date cell with a blank time cell: the second word is the time, the combined text repeats it, the cell alone is the fallback, and the result has a time |
| CsvEvents.FindHeader | content-scripts/chatgpt-csv-calendar.js:176 | `findIndex` returns -1 or an index in range |
| CsvEvents.FindHeaderSpec | content-scripts/chatgpt-csv-calendar.js:176 | the index is the first header mentioning some candidate, and -1 exactly when none does |
| CsvEvents.Lowered | content-scripts/chatgpt-csv-calendar.js:175 | each header is lowered on its own, keeping their number |
| CsvEvents.StartTimeTakenAsStart | content-scripts/chatgpt-csv-calendar.js:179-180 | a `start_time` column before every other start-date column is taken as the start date, since it contains `start` |
| CsvEvents.FallbackEndSpec | content-scripts/chatgpt-csv-calendar.js:204-212 | the fallback end is one hour after a timed start and one day after an all-day one |
| CsvEvents.BuildEventSpec | content-scripts/chatgpt-csv-calendar.js:188-222 | no event exactly when the start does not parse; otherwise the trimmed title or `予定`, the start, its time flag, the picked description and location, and the parsed end or the fallback end |
| CsvEvents.BuildAll | content-scripts/chatgpt-csv-calendar.js:237-245 | there are no more events than data lines |
| CsvEvents.BuildAllAppend | content-scripts/chatgpt-csv-calendar.js:238-244 | events keep the order of their lines |
| CsvEvents.BuildAllOne | content-scripts/chatgpt-csv-calendar.js:239-243 | a line gives its event, or nothing when its start does not parse |
| CsvEvents.ParseEventsFromCsv | content-scripts/chatgpt-csv-calendar.js:224-246 | the method computes exactly the specified events of the text |
| CsvEvents.BuildEvents | content-scripts/chatgpt-csv-calendar.js:237-245 | the loop pushes exactly the events of the data lines, in order |
| CsvEvents.EventsOfFile | content-scripts/chatgpt-csv-calendar.js:224-246 | a file of a header and data lines, joined by LF or CRLF, gives the events of its data lines when a header names a start column, and none otherwise |
| CsvEvents.Pad2Facts | content-scripts/chatgpt-csv-calendar.js:164 | a padded two-digit field reads back as its value |
| CsvEvents.YearFacts | content-scripts/chatgpt-csv-calendar.js:165 | a year from 1000 to 9999 is written with exactly four digits |
| CsvEvents.ReadDateText | content-scripts/chatgpt-csv-calendar.js:169 | a DATE text (section 3.3.4 of RFC 5545) reads back as its year, month and day |
| CsvEvents.ReadDateTimeText | content-scripts/chatgpt-csv-calendar.js:171 | a DATE-TIME text (section 3.3.5 of RFC 5545) reads back as its six fields |
| CsvEvents.IcsTextRoundTrip | content-scripts/chatgpt-csv-calendar.js:163-172 | fields of the sizes a four-digit year and a calendar give read back from their text |
| CsvEvents.ICSDateRoundTrip | content-scripts/chatgpt-csv-calendar.js:163-172 | for a four-digit year the text `formatICSDate` writes reads back as the date's local fields |
| CsvEvents.PushDates | content-scripts/chatgpt-csv-calendar.js:262-268 | the DTSTART and DTEND lines pushed are the specified date lines, with `VALUE=DATE` for an all-day event |
| CsvEvents.PushEvent | content-scripts/chatgpt-csv-calendar.js:258-276 | one loop turn pushes exactly the event's VEVENT lines |
| CsvEvents.BuildICS | content-scripts/chatgpt-csv-calendar.js:248-281 | the file is the calendar's lines joined with CRLF, as section 3.1 of RFC 5545 asks |
| CsvEvents.PushEvents | content-scripts/chatgpt-csv-calendar.js:257-277 | the loop appends the lines of every event in order |
| CsvEvents.EventLinesCount | content-scripts/chatgpt-csv-calendar.js:259-276 | an event's lines hold `BEGIN:VEVENT` once and `END:VEVENT` once |
| CsvEvents.EventsLinesCount | content-scripts/chatgpt-csv-calendar.js:257-277 | the events' lines hold as many VEVENT openings and closings as events |
| CsvEvents.CalendarFrameCount | content-scripts/chatgpt-csv-calendar.js:249-279 | the calendar's header and closing line hold no VEVENT marker |
| CsvEvents.VEventCount | content-scripts/chatgpt-csv-calendar.js:248-281 | the file holds one VEVENT (section 3.6.1 of RFC 5545) per event |
| CsvEvents.PropertyLinesAvoidMarkers | content-scripts/chatgpt-csv-calendar.js:260-275 | no property line is a VEVENT marker |
| CsvEvents.PropertyLinesOptional | content-scripts/chatgpt-csv-calendar.js:270-275 | DESCRIPTION and LOCATION lines appear exactly when those texts are non-empty |
| CsvEvents.EventPropertiesOptional | content-scripts/chatgpt-csv-calendar.js:270-275 | an event's DESCRIPTION and LOCATION lines appear exactly when its texts are non-empty |
| CsvEvents.BuildReminderPayload | content-scripts/chatgpt-csv-calendar.js:295-304 | one payload per event |
| CsvEvents.PayloadOfEvent | content-scripts/chatgpt-csv-calendar.js:295-304 | an event's payload builds a reminder with the same title, description, location and time flag, and the ISO start and end |
| CsvEvents.PayloadBecomesReminder | content-scripts/chatgpt-csv-calendar.js:295-304 | every built event's payload becomes a reminder carrying its fields |
| TimeProgress.Labels | popup/scripts/zen-study-plus/time-progress.js:17-18 | the labels of the groups, in order |
| TimeProgress.FindLabel | popup/scripts/zen-study-plus/time-progress.js:18 | `find` gives the first group with the label, or none |
| TimeProgress.FindLabelUnique | popup/scripts/zen-study-plus/time-progress.js:18 | the first matching index is determined: no earlier group has the label |
| TimeProgress.FindLabelFound | popup/scripts/zen-study-plus/time-progress.js:18-20 | a group is found exactly when the label is among the labels |
| TimeProgress.MergeTimeProgress | popup/scripts/zen-study-plus/time-progress.js:9-29 | the loop computes exactly the specified merge |
| TimeProgress.AppendNewSpec | popup/scripts/zen-study-plus/time-progress.js:17-26 | new labels are appended after the existing ones, together holding exactly the labels of both sides, without duplicates |
| TimeProgress.AddGroupLabels | popup/scripts/zen-study-plus/time-progress.js:18-25 | a known label keeps the label list; an unknown one is appended |
| TimeProgress.MergeGroupsLabels | popup/scripts/zen-study-plus/time-progress.js:15-26 | the merged labels are the left labels in order, then the unseen right labels in order |
| TimeProgress.AddGroupTotal | popup/scripts/zen-study-plus/time-progress.js:20-25 | adding one right group raises its label's total by its goal and current, and no other label's |
| TimeProgress.MergeGroupsTotal | popup/scripts/zen-study-plus/time-progress.js:15-26 | equal labels are summed: each label's total after the merge is its left total plus its right total |
| TimeProgress.MergeSpec | popup/scripts/zen-study-plus/time-progress.js:9-29 | the merge sums the primaries, orders the labels left first, and sums each label's totals |
| TimeProgress.FlatSpec | popup/scripts/zen-study-plus/time-progress.js:31-36 | the flattened primary is the sum of all primaries, each label's total is its sum over the list, and an empty list gives zero with no groups |
| TimeProgress.FlatDistinct | popup/scripts/zen-study-plus/time-progress.js:31-36 | the flattened labels are distinct |
| TimeProgress.Filter | popup/scripts/zen-study-plus/time-progress.js:93-95 | filtering keeps at most as many resources |
| TimeProgress.CalcGroupSpec | popup/scripts/zen-study-plus/time-progress.js:38-48 | the goal is the sum of all times and the current total the sum of the times of the done resources |
| TimeProgress.CalcTimeProgressGroup | popup/scripts/zen-study-plus/time-progress.js:38-48 | the goal and current totals; their contract is in `CalcGroupSpec`, `CalcGroupBounds` and `CalcGroupPartition` |
| TimeProgress.CalcGroupBounds | popup/scripts/zen-study-plus/time-progress.js:38-48 | for non-negative times the current total lies between 0 and the goal, and a non-array gives zero |
| TimeProgress.CalcGroupPartition | popup/scripts/zen-study-plus/time-progress.js:93-95 | splitting resources by a test and its negation splits the group's goal and current total |
| TimeProgress.CollectClassSections | popup/scripts/zen-study-plus/time-progress.js:107-124 | the loop over class headers pushes exactly the movie sections of `section` headers and the lesson sections of `lesson` headers, in order |
| TimeProgress.PushMatching | popup/scripts/zen-study-plus/time-progress.js:112-122 | the inner loop appends exactly the matching sections, in order |
| TimeProgress.NSchoolSpec | popup/scripts/zen-study-plus/time-progress.js:64-102 | n_school labels are `全動画`, `必須`, `Nプラス`, the primary is the main-movie group, and when every movie is main or supplementary the all-movie group is their sum |
| TimeProgress.CreateNSchool | popup/scripts/zen-study-plus/time-progress.js:64-74 | the three labelled groups and the primary; their contract is in `NSchoolSpec` |
| TimeProgress.CreateAdvanced | popup/scripts/zen-study-plus/time-progress.js:76-85 | the two labelled groups and the primary; their contract is in `AdvancedSpec` |
| TimeProgress.AdvancedSpec | popup/scripts/zen-study-plus/time-progress.js:76-146 | advanced labels are `動画`, `授業`, the primary is the movie group, and the lesson group's current total lies between 0 and its goal |
| TimeProgress.OtherCourseSpec | popup/scripts/zen-study-plus/time-progress.js:148 | any other course type gives the zero n_school progress |
| TimeProgress.Keys | popup/scripts/zen-study-plus/time-progress.js:187 | each listed chapter's key is `courseId:chapterId` |
| TimeProgress.KeySet | popup/scripts/zen-study-plus/time-progress.js:180-189 | the map's key set holds exactly the listed keys |
| TimeProgress.AppendChapter | popup/scripts/zen-study-plus/time-progress.js:182-195 | a missing chapter or a known key changes nothing; otherwise the chapter is appended and the key set kept in step |
| TimeProgress.AppendAll | popup/scripts/zen-study-plus/time-progress.js:197-205 | appending every chapter in order gives the dedup of all of them |
| TimeProgress.BuildMonthlyReportChapterList | popup/scripts/zen-study-plus/time-progress.js:179-208 | the method computes exactly the specified chapter list |
| TimeProgress.DedupSpec | popup/scripts/zen-study-plus/time-progress.js:182-207 | the list has distinct keys, each listed chapter is one of the report's, and each report chapter's key is listed |
| TimeProgress.DedupPrefix | popup/scripts/zen-study-plus/time-progress.js:189-194 | earlier chapters keep their places as more are appended |
| TimeProgress.DeadlineFirst | popup/scripts/zen-study-plus/time-progress.js:197-205 | the deadline-group chapters come first in the list, before completed chapters not among them |
| TimeProgress.DedupLength | popup/scripts/zen-study-plus/time-progress.js:182-207 | the list is no longer than the chapters visited |
| TimeProgress.CountCompletedReportChapters | popup/scripts/zen-study-plus/time-progress.js:229-250 | the loop computes exactly the specified count |
| TimeProgress.CountStep | popup/scripts/zen-study-plus/time-progress.js:235-246 | a repeated numeric key is skipped; any other entry is counted, and a numeric key is remembered |
| TimeProgress.CompletedCountSpec | popup/scripts/zen-study-plus/time-progress.js:229-250 | the count is the number of distinct numeric keys plus the number of other entries, so never more than the list |
| TimeProgress.CompletionSummaryBounds | popup/scripts/zen-study-plus/time-progress.js:252-259 | the completed count is at most the completed list and the total at most the chapters visited |
| TimeProgress.BuildCompletionSummary | popup/scripts/zen-study-plus/time-progress.js:256-259 | the two counts; their contract is in `CompletionSummaryBounds` and `CompletedCountSpec` |
| Format.FormatTimeFromSeconds | popup/scripts/lib/format.js:1-9 | hours, minutes and seconds recompose the non-negative seconds, minutes and seconds are below 60, and the whole minutes are hours times 60 plus minutes |
| Format.FullTimeTextSpec | popup/scripts/lib/format.js:11-16 | the text reads back as the hours (at least two digits, no upper bound) before `h` and exactly two minute digits before the final `m` |
| Format.FullTimeText | popup/scripts/lib/format.js:11-16 | `HHhMMm`; its contract is in `FullTimeTextSpec` |
| Format.FormatProgressAndGoalText | popup/scripts/lib/format.js:18-25 | the time pair and the percent; their contracts are in `ZeroProgressText`, `PercentTextCases` and `PercentTextSpec` |
| Format.PercentValue | popup/scripts/lib/format.js:19-20 | the percent is 0 without a positive goal, never above 100, 100 once the goal is reached, not negative for a non-negative current, and otherwise the floor of 100 times current over goal |
| Format.ZeroProgressText | popup/scripts/lib/format.js:18-25 | no time and no goal read `00h00m / 00h00m` and `000%` |
| Format.PercentTextCases | popup/scripts/lib/format.js:19-24 | without a positive goal the percent text is `000%`; once the goal is reached it is `100%` |
| Format.PercentTextSpec | popup/scripts/lib/format.js:19-24 | the percent text is three digits and `%`, the digits reading back as the capped percent |
| Format.MonthDayTextRoundTrip | popup/scripts/lib/format.js:32 | splitting a month/day text on `/` gives back the two numbers |
| Format.CompactDateSpec | popup/scripts/lib/format.js:27-33 | the placeholder `--/--` appears exactly for an invalid date; a valid one reads back as its month (from 1) and day |
| Format.FormatCompactDateText | popup/scripts/lib/format.js:27-33 | `--/--` or `M/D`; its contract is in `CompactDateSpec` |
| Format.ScheduleDatesSpec | popup/scripts/lib/format.js:35-41 | the due date is midnight on the 15th of the given month, a two-digit year meaning 19xx, and the finish date is exactly `max(0, days)` whole days earlier, across month and year boundaries |
| Format.CalcScheduleDates | popup/scripts/lib/format.js:35-41 | the due and finish dates; their contract is in `ScheduleDatesSpec` and `FinishShift` |
| Format.FinishShift | popup/scripts/lib/format.js:36-39 | for any month number the finish date is the due date moved back by the safe number of days |
| Format.ReportCountTextSpec | popup/scripts/lib/format.js:43-45 | the count text splits on spaces into the two numbers, `/` and `件` |
| Format.FormatReportCountText | popup/scripts/lib/format.js:43-45 | `c / t 件`; its contract is in `ReportCountTextSpec` and `ReportCountTextInjective` |
| Format.ReportCountTextInjective | popup/scripts/lib/format.js:43-45 | the count text determines both counts |
| PopupReminders.ClockTextSpec | popup/scripts/lib/reminders.js:47-49 | the clock is two hour digits, `:` and two minute digits reading back as the hour and minute |
| PopupReminders.DateTimeTextSpec | popup/scripts/lib/reminders.js:41-49 | without a time the text is the compact date; with one it is the compact date, a space and the clock |
| PopupReminders.ReminderDateTimeSpec | popup/scripts/lib/reminders.js:35-45 | an invalid date gives `--/--` whatever the time flag says; without a time the text is the compact date |
| PopupReminders.FormatReminderDateTime | popup/scripts/lib/reminders.js:35-45 | `--/--`, `M/D` or `M/D HH:MM`; its contract is in `ReminderDateTimeSpec` and `ReminderDateTimeClock` |
| PopupReminders.FormatDateTextAgrees | popup/scripts/lib/reminders.js:35-45 | for a start that parses, the background's due text and the popup's date text are the same text, the compact date plus the clock when timed |
| PopupReminders.ReminderDateTimeClock | popup/scripts/lib/reminders.js:41-49 | with a time a valid date gives the compact date, a space and its local hour and minute |
| PopupReminders.DateTextCharsOfText | popup/scripts/lib/reminders.js:35-50 | the date text uses only digits, `/`, `-`, `:` and spaces |
| PopupReminders.ReminderMetaSpec | popup/scripts/lib/reminders.js:52-59 | the meta text starts with the due text and holds a `\|` exactly when the reminder has a reminder time |
| PopupReminders.FormatReminderMeta | popup/scripts/lib/reminders.js:52-59 | the due text, then the reminder time; its contract is in `ReminderMetaSpec` |
| PopupReminders.Pending | popup/scripts/lib/reminders.js:98 | the pending list is no longer than the list |
| PopupReminders.PendingSpec | popup/scripts/lib/reminders.js:98 | the pending list holds exactly the non-completed reminders, in order, each as often as in the input |
| PopupReminders.Insert | popup/scripts/lib/reminders.js:109-111 | insertion adds the element to the multiset |
| PopupReminders.InsertSorted | popup/scripts/lib/reminders.js:109-111 | inserting into a sorted list keeps it sorted |
| PopupReminders.SortBySpec | popup/scripts/lib/reminders.js:109-111 | the sort orders by the start key and is a permutation of its input |
| PopupReminders.SortByStable | popup/scripts/lib/reminders.js:109-111 | the sort is stable: the reminders with any one start key keep their input order |
| PopupReminders.RenderPlaceholderSpec | popup/scripts/lib/reminders.js:98-107 | the placeholder, with `未完了 0件` and no rows, shows exactly when nothing is pending |
| PopupReminders.RenderRowsSpec | popup/scripts/lib/reminders.js:98-118 | the rows are the pending reminders sorted by start, each as often as pending, and the summary counts them |
| PopupReminders.RenderReminderList | popup/scripts/lib/reminders.js:91-118 | the placeholder or the sorted rows, and the summary; its contract is in `RenderPlaceholderSpec` and `RenderRowsSpec` |
| PopupReminders.ToggleMessage | popup/scripts/lib/reminders.js:163-167 | a row's button asks for the opposite of the row's completion flag, for its id |
| Config.NormalizeOrigin | popup/scripts/lib/config.js:9-15 | a non-string origin gives the fallback |
| Config.NormalizeOriginSpec | popup/scripts/lib/config.js:13-14 | a blank string gives the fallback; otherwise the trimmed text, less exactly one trailing `/` when it ends with one |
| Config.NormalizeOriginNotIdempotent | popup/scripts/lib/config.js:14 | only one slash goes per call, so normalising `x//` twice differs from once |
| Config.BuildMonthlyReportUrlPattern | popup/scripts/lib/config.js:48-50 | the pattern is the normalised origin (default site as fallback) followed by `/study_plans/month/*` |
| Config.DefaultMonthlyReportUrlPattern | popup/scripts/lib/config.js:48-50 | without a usable origin the pattern is `https://www.nnn.ed.nico/study_plans/month/*` |
| Config.SplitRuns | popup/scripts/lib/config.js:29 | `split(/[\r\n,]+/)` yields at least one piece |
| Config.SplitRunsNoSep | popup/scripts/lib/config.js:29 | no piece holds a CR, LF or comma |
| Config.SplitRunsJoin | popup/scripts/lib/config.js:29 | a comma-joined list of non-empty separator-free entries splits back into the list |
| Config.Clean | popup/scripts/lib/config.js:32 | cleaning keeps at most as many entries |
| Config.CleanSpec | popup/scripts/lib/config.js:32 | every cleaned entry is non-empty and trimmed, and the cleaned entries are exactly the non-blank trimmed input entries |
| Config.CleanOfClean | popup/scripts/lib/config.js:32 | entries already non-empty and trimmed pass through unchanged |
| Config.NormalizePatternList | popup/scripts/lib/config.js:25-34 | the cleaned entries of the array, of the split string, or of nothing, with the fallback exactly when none remain |
| Config.PatternListSpec | popup/scripts/lib/config.js:25-34 | unless the fallback is used every entry is non-empty and trimmed, and for a string value none holds a CR, LF or comma |
| Config.PatternListRoundTrip | popup/scripts/lib/config.js:25-34 | a clean list, given as an array or as a comma-separated string, reads back as itself |
| MonthlyReport.DigitRun | popup/scripts/lib/monthly-report.js:13 | the leading run of digits is all digits and is followed by no digit |
| MonthlyReport.MatchMonthPathSound | popup/scripts/lib/monthly-report.js:13 | whatever the match returns is the two digit groups of a path `/study_plans/month/<digits>/<digits>` with an optional final `/` |
| MonthlyReport.MatchMonthPathComplete | popup/scripts/lib/monthly-report.js:13 | every such path matches, with its own digit groups |
| MonthlyReport.ParseMonthlyReportUrl | popup/scripts/lib/monthly-report.js:10-31 | a URL that fails to parse gives null |
| MonthlyReport.ParseMonthlyReportUrlSpec | popup/scripts/lib/monthly-report.js:10-31 | a URL parses exactly when its path is accepted, and then gives the decimal numbers written in the path, with no range check |
| MonthlyReport.MonthPathRoundTrip | popup/scripts/lib/monthly-report.js:13-21 | a year and month written into the path parse back as themselves, month 13 included |
| MonthlyReport.FirstTab | popup/scripts/lib/monthly-report.js:55-56 | `find` gives the first tab that parses (and is active, when asked), or none |
| MonthlyReport.ParseTab | popup/scripts/lib/monthly-report.js:52 | a tab without a URL gives null; otherwise its URL is parsed; its contract is in `FirstTab` |
| MonthlyReport.CurrentMonthlyReportInfoSpec | popup/scripts/lib/monthly-report.js:49-71 | the first active tab that parses wins; otherwise the first tab that parses; only when none parses, or the query fails, the current year and 1-based month |
| MonthlyReport.CurrentMonthlyReportInfo | popup/scripts/lib/monthly-report.js:49-71 | the tab's year and month or the current one; its contract is in `CurrentMonthlyReportInfoSpec` |
| MonthlyReport.ReportUrlPattern.constructor | popup/scripts/lib/monthly-report.js:4 | the pattern starts as the default site's |
| MonthlyReport.ReportUrlPattern.SetMonthlyReportUrlPattern | popup/scripts/lib/monthly-report.js:6-8 | the pattern becomes the one built from the given origin |
| Subjects.IsIgnorableSpec | popup/scripts/lib/subjects.js:8-15 | a name is ignorable exactly when it contains 普通科, 大修館書店版, 光村図書版 or 第一学習社版 |
| Subjects.TrimKeepsNotIgnorable | popup/scripts/lib/subjects.js:15-21 | the trimmed form of a name that is not ignorable is not ignorable either, so the set never receives an ignorable name |
| Subjects.AcceptedSpec | popup/scripts/lib/subjects.js:19-23 | `appendName` adds a value exactly when it is a string whose trimmed form is non-blank and which is not ignorable, and then adds its trimmed, non-blank form |
| Subjects.AddAllAppend | popup/scripts/lib/subjects.js:18-23 | offering two runs of values one after the other is offering their concatenation |
| Subjects.AddAllPrefix | popup/scripts/lib/subjects.js:92-97 | the names already in the set stay first and in their order (insertion order of a `Set`) |
| Subjects.AddAllDistinct | popup/scripts/lib/subjects.js:92-97 | no name is added twice |
| Subjects.AddAllMembers | popup/scripts/lib/subjects.js:92-97 | the set holds exactly the starting names and the accepted form of every value offered |
| Subjects.AddAllNamesClean | popup/scripts/lib/subjects.js:93-97 | every added name is trimmed, non-blank and not ignorable |
| Subjects.AppendNames | popup/scripts/lib/subjects.js:93-97 | the loop of `appendName` calls computes exactly the specified set |
| Subjects.CollectChapters | popup/scripts/lib/subjects.js:99-109 | `collectFromChapter` over a list of chapters (a missing chapter offers nothing) adds exactly the specified names |
| Subjects.CollectGroups | popup/scripts/lib/subjects.js:111-127 | `collectFromGroup` over a list of groups, including their chapters, adds exactly the specified names |
| Subjects.CollectCourses | popup/scripts/lib/subjects.js:129-134 | the courses loop offers each course's `name` then `title` |
| Subjects.CollectSubjectNames | popup/scripts/lib/subjects.js:91-167 | the method computes exactly the specified subject-name list |
| Subjects.AppendKeywords | popup/scripts/lib/subjects.js:156-162 | the keyword loop computes exactly the specified list |
| Subjects.AddKeywordsSpec | popup/scripts/lib/subjects.js:148-162 | the keyword loop keeps the earlier names first and in order, adds exactly the known keywords that occur in the serialisation, and adds no duplicate |
| Subjects.SubjectNamesSpec | popup/scripts/lib/subjects.js:91-167 | the result has no duplicate; the report's own names come first; a name is present exactly when some field offers it or it is a known keyword that the serialisation contains |
| Subjects.SubjectNames | popup/scripts/lib/subjects.js:91-167 | `collectSubjectNames` as a value; its contract is in `SubjectNamesSpec` and `CollectedOrder` |
| Subjects.CollectedNamesClean | popup/scripts/lib/subjects.js:93-97 | every name collected from the report's fields is trimmed, non-blank and not ignorable |
| Subjects.CollectedOrder | popup/scripts/lib/subjects.js:129-146 | names from the courses come before those from the deadline groups, and those come before the completed chapters' |
| Subjects.DetectSpecialSubjects | popup/scripts/lib/subjects.js:17-89 | both flags are computed exactly as specified |
| Subjects.SomeNameContainsSpec | popup/scripts/lib/subjects.js:75-76 | `nameList.some((name) => name.includes(kw))` holds exactly when some collected name contains the keyword |
| Subjects.DetectedSameNames | popup/scripts/lib/subjects.js:17-74 | `detectSpecialSubjects` collects the same set of names as `collectSubjectNames`; only the order of the fields differs |
| Subjects.HasSubjectSpec | popup/scripts/lib/subjects.js:74-86 | a flag is set exactly when some collected name, or the serialised report, contains 体育 (PE) or 家庭 (home economics) |
| Subjects.FirstTruthy | popup/scripts/lib/subjects.js:180-188 | the `\|\|` chain gives the fallback or one of the truthy candidates, and a truthy value whenever some candidate is truthy |
| Subjects.AppendChapter | popup/scripts/lib/subjects.js:173-205 | the method computes exactly the specified map update |
| Subjects.ChapterArgs | popup/scripts/lib/subjects.js:218-219 | one argument per chapter of a group, each with the group's fallback name |
| Subjects.NonNegative | popup/scripts/lib/subjects.js:232 | the filter keeps exactly the chapter ids that are at least 0 |
| Subjects.AppendChapters | popup/scripts/lib/subjects.js:218-220 | the inner loop over a group's chapters computes exactly the specified map |
| Subjects.AppendGroups | popup/scripts/lib/subjects.js:216-222 | the loop over the deadline groups, and over each group's chapters, computes exactly the specified map |
| Subjects.AppendCourses | popup/scripts/lib/subjects.js:207-214 | the courses loop computes the specified map, and throws (`None`) exactly when a course entry is `null` |
| Subjects.CourseArgsNull | popup/scripts/lib/subjects.js:208-210 | once a prefix of the courses holds a `null` entry, the whole loop throws |
| Subjects.DropPlaceholderChapters | popup/scripts/lib/subjects.js:230-233 | the final pass computes exactly the specified map with the placeholders dropped |
| Subjects.BuildCourseChapterMap | popup/scripts/lib/subjects.js:170-236 | the method computes exactly the specified course map, or throws exactly when it is specified to |
| Subjects.WithChapterWellFormed | popup/scripts/lib/subjects.js:192-204 | one `appendChapter` keeps the map's insertion order free of duplicates and in step with its keys |
| Subjects.BuildMapWellFormed | popup/scripts/lib/subjects.js:170-228 | every loop keeps the map's insertion order free of duplicates and in step with its keys |
| Subjects.WithChapterOther | popup/scripts/lib/subjects.js:173-177 | an argument that is skipped, or is for another course, leaves the course's entry as it was |
| Subjects.WithChapterSame | popup/scripts/lib/subjects.js:192-204 | an argument for a course creates its entry when it is missing (named by the candidate, or `科目<id>` when that is blank), renames the entry when the candidate is neither blank nor ignorable, and adds its chapter id |
| Subjects.BuildMapKeys | popup/scripts/lib/subjects.js:192-198 | a course has an entry exactly when it had one before or some accepted argument is for it |
| Subjects.BuildMapChapters | popup/scripts/lib/subjects.js:196-204 | a course's chapters are its starting chapters plus the chapter id of every argument for it |
| Subjects.BuildMapName | popup/scripts/lib/subjects.js:189-203 | a course is named by the last candidate among its arguments that is neither blank nor ignorable; otherwise it keeps its old name, or a new entry keeps its first candidate |
| Subjects.CourseArgsSpec | popup/scripts/lib/subjects.js:207-213 | every course gives one argument, for chapter -1 with `name \|\| title`; a `null` course makes the loop throw |
| Subjects.CourseArgsPlaceholders | popup/scripts/lib/subjects.js:210 | the courses' arguments add no chapter id other than -1 |
| Subjects.CourseChapterMapThrows | popup/scripts/lib/subjects.js:207-213 | `buildCourseChapterMap` throws exactly when the courses array has a `null` entry |
| Subjects.CourseChapterMapSpec | popup/scripts/lib/subjects.js:170-236 | in the finished map a course has an entry exactly when some accepted argument is for it; its chapters are exactly the ids of at least 0 given for it by the deadline-group and completed chapters, so no -1 placeholder remains; its name is the last good candidate, else its first one |
| Subjects.CourseChapterMap | popup/scripts/lib/subjects.js:170-236 | `buildCourseChapterMap` as a value; its contract is in `CourseChapterMapSpec` and `CourseChapterMapThrows` |
| Subjects.CoursesHaveEntries | popup/scripts/lib/subjects.js:207-214 | every course with a numeric id has an entry, possibly with no chapters left |
| Subjects.ItemTexts | popup/scripts/lib/subjects.js:281-287 | one text per item, in order |
| Subjects.FormatCourseProgressListEmpty | popup/scripts/lib/subjects.js:277-279 | the text is empty exactly when the input is not an array or is an empty one |
| Subjects.FormatCourseProgressList | popup/scripts/lib/subjects.js:276-290 | the item texts joined by ` / `; its contract is in `FormatCourseProgressListEmpty`, `FormatCourseProgressListAppend` and `FormatCourseProgressListSingle` |
| Subjects.FormatCourseProgressListAppend | popup/scripts/lib/subjects.js:281-289 | the text of a concatenation is the two lists' texts joined by ` / ` |
| Subjects.FormatCourseProgressListSingle | popup/scripts/lib/subjects.js:281-289 | a one-item list is that item's text alone |
| Subjects.ItemTextSpec | popup/scripts/lib/subjects.js:282-286 | an item's text starts with its name and `:`, and ends with its percent text in parentheses |
| Subjects.ItemTextMissing | popup/scripts/lib/subjects.js:283-286 | an item without progress reads `name:00h00m / 00h00m(000%)` |
| ReportRange.BuildReportRangePageInfos | popup/scripts/lib/report-range-overlay.js:5-7 | seven page infos, for months 6 through 12 in order, all in the given year |
| ReportRange.SumCountsAppend | popup/scripts/lib/report-range-overlay.js:60-66 | the summed counts split over any concatenation of results |
| ReportRange.SumCountsItem | popup/scripts/lib/report-range-overlay.js:62-63 | a month without a summary adds nothing to the sum, and a month with one adds exactly its counts |
| ReportRange.SumCountsBounded | popup/scripts/lib/report-range-overlay.js:60-66 | when each month's completed count is at most its total, so is the sum's |
| ReportRange.Progresses | popup/scripts/lib/report-range-overlay.js:55 | one progress per result, in order |
| ReportRange.SummaryTextSpec | popup/scripts/lib/report-range-overlay.js:55-70 | the summary line is the formatted sum of the primary times followed by the summed counts |
| ReportRange.EmptySummaryAgrees | popup/scripts/lib/report-range-overlay.js:42-48 | the literal shown for no results is the same line that zero times and zero counts give, `0 / 0 件` included |
| ReportRange.FailureText | popup/scripts/lib/report-range-overlay.js:137-143 | the message for a failure: the missing-tab text for the code `ZEN_TAB_NOT_FOUND`, else the login text for status 401, else the generic failure text |
| ReportRange.ReportRangeOverlay.constructor | popup/scripts/lib/report-range-overlay.js:109 | the overlay starts not fetching, with no texts, no placeholder and no rows |
| ReportRange.ReportRangeOverlay.HandleFetchStart | popup/scripts/lib/report-range-overlay.js:111-127 | a click while fetching changes nothing; a year that is not finite sets only the message; otherwise the flag is set, both texts read `取得中...`, and the seven page infos are fetched |
| ReportRange.ReportRangeOverlay.HandleFetchFinish | popup/scripts/lib/report-range-overlay.js:126-147 | the settled fetch leaves the specified texts and rows, and the flag is always cleared |
| ReportRange.ReportRangeOverlay.RenderReportRangeResults | popup/scripts/lib/report-range-overlay.js:39-71 | no results give the no-data placeholder and no rows; otherwise one row per result and no placeholder; the summary is the specified line |
| ReportRange.FinishedSpec | popup/scripts/lib/report-range-overlay.js:126-147 | results are shown one row each under the summed summary; no results give the no-data placeholder and the zero summary; a failure shows no rows, the error placeholder, and one of the three failure messages |
| ReportRange.ReentrantClick | popup/scripts/lib/report-range-overlay.js:109-148 | of two clicks before the fetch settles only the first fetches; afterwards the handler is ready again and shows the settled summary |
| YoutubeBlock.QuestionAt | content-scripts/youtube-block.js:2-13 | `questions[i]` is a question exactly for an index inside the two-question quiz, and `undefined` past it |
| YoutubeBlock.ShownSpec | content-scripts/youtube-block.js:38-55 | an existing overlay is kept as it is; a new one shows `initial.html` with the index back at 0 and an empty answer; showing twice is showing once |
| YoutubeBlock.Shown | content-scripts/youtube-block.js:38-55 | the shown screen; its contract is in `ShownSpec` |
| YoutubeBlock.RemovedSpec | content-scripts/youtube-block.js:57-61 | removing leaves no overlay and touches nothing else; removing twice is removing once |
| YoutubeBlock.Removed | content-scripts/youtube-block.js:57-61 | the removed screen; its contract is in `RemovedSpec` |
| YoutubeBlock.WithSrcSpec | content-scripts/youtube-block.js:33-36 | without an overlay nothing changes; with one only the page does |
| YoutubeBlock.WithSrc | content-scripts/youtube-block.js:33-36 | the page change; its contract is in `WithSrcSpec` |
| YoutubeBlock.CheckedSpec | content-scripts/youtube-block.js:75-82 | after the check there is an overlay exactly when some reminder is overdue, and an existing overlay is kept |
| YoutubeBlock.Checked | content-scripts/youtube-block.js:75-82 | the checked screen; its contract is in `CheckedSpec` |
| YoutubeBlock.IgnoredSpec | content-scripts/youtube-block.js:84-87 | a message without a type, or of a type not handled, changes nothing and gets no reply; only the block and unblock messages are handled without a reply |
| YoutubeBlock.GetQuestionSpec | content-scripts/youtube-block.js:88-90 | `get-question` replies with the current question, or `undefined` once the index is past the quiz, and changes nothing |
| YoutubeBlock.QuestionButtonSpec | content-scripts/youtube-block.js:102-109 | `question-button-1` records the answer first; within the quiz it shows `answer.html` exactly when the answer equals the current question's answer and `incorrect.html` otherwise; past the quiz it throws |
| YoutubeBlock.AnswerButtonSpec | content-scripts/youtube-block.js:110-116 | `answer-button-1` increments the index and shows `question.html` while questions remain, `complete.html` after the last |
| YoutubeBlock.LeaveButtonSpec | content-scripts/youtube-block.js:98-128 | every leave button sends the tab to the home page, replies, and changes nothing else |
| YoutubeBlock.OtherMessagesSpec | content-scripts/youtube-block.js:91-97 | `get-last-answer` replies with the recorded answer; `initial-button-1` moves an open overlay to `question.html`; the block and unblock messages show or remove the overlay without a reply |
| YoutubeBlock.AnswerPageNeedsCorrectAnswer | content-scripts/youtube-block.js:102-109 | the only way onto `answer.html` is a correct answer to the current question |
| YoutubeBlock.CompletePageNeedsLastQuestion | content-scripts/youtube-block.js:110-116 | the only way onto `complete.html` is the answer button after the last question |
| YoutubeBlock.AnswerRoundSpec | content-scripts/youtube-block.js:102-116 | a correct answer followed by the answer button advances the quiz by one question |
| YoutubeBlock.CorrectRunCompletes | content-scripts/youtube-block.js:94-116 | the start button and both questions answered correctly end on `complete.html` |
| YoutubeBlock.HandleAllAppend | content-scripts/youtube-block.js:84-136 | handling two runs of messages one after the other is handling their concatenation |
| YoutubeBlock.BlockScreen.constructor | content-scripts/youtube-block.js:15-17 | the script starts with no overlay, index 0 and an empty answer |
| YoutubeBlock.BlockScreen.SetIframeSrc | content-scripts/youtube-block.js:33-36 | the state becomes the specified page change |
| YoutubeBlock.BlockScreen.ShowBlockScreen | content-scripts/youtube-block.js:38-55 | the state becomes the specified shown screen |
| YoutubeBlock.BlockScreen.RemoveBlockScreen | content-scripts/youtube-block.js:57-61 | the state becomes the specified removed screen |
| YoutubeBlock.BlockScreen.CheckAndBlock | content-scripts/youtube-block.js:75-82 | the state becomes the specified checked screen |
| YoutubeBlock.BlockScreen.OnMessage | content-scripts/youtube-block.js:84-136 | the new state and the reply are exactly those the listener is specified to give |
| YoutubeBlock.BlockScreen.Load | content-scripts/youtube-block.js:138 | loading the script gives fresh variables and then the check |

## Left out

- Reminders.Additions / Reminders.ReminderService.CollectAdditions / Reminders.ReminderService.AddReminders: the model takes one clock reading per handler call. One `nowIso` stamps `createdAt` and `updatedAt` of every record in a batch, and one `now` decides every alarm. The source reads `new Date().toISOString()` once per built event inside the loop of `addReminders`, so the records of one batch can carry different stamps. It reads `Date.now()` once per scheduled record, after the awaited storage write, so a reminder time that passes while the handler runs gets no alarm in the source but does get one in the model. `updateReminderCompletion` and `markReminderNotified` read `nowIso` once, as the model does.
- Reminders.ReminderService.SyncAlarms / Reminders.ReminderService.ResyncAll: one `now` decides every alarm of the re-sync. `syncAlarmsWithReminders` reads `Date.now()` once per record, after its awaited alarm clears, so a reminder time that passes during the re-sync is skipped by the source but scheduled by the model.
- Chrome APIs are abstract state: `chrome.storage`, `chrome.alarms`, `chrome.notifications`, tabs and runtime messaging. Each handler runs to completion on its own; read-modify-write races on the storage key between contexts are not modelled.
- The platform removes a one-shot alarm once it fires; the fire handler is modelled without that removal.
- `new Date(string)`, `toISOString` and `new URL` are parameters. They are not interpreted, because their behaviour belongs to the JavaScript host.
- Time zones and daylight saving are not modelled. Local time is UTC, and there is no `TimeClip` range limit.
- A `Date` whose time value is NaN is `None`. No other NaN arithmetic is modelled.
- PopupReminders.RenderReminderList: the pending list is sorted by an arbitrary integer key, whose input order is kept for equal keys. The source compares `new Date(a.startAt).getTime() - new Date(b.startAt).getTime()`, which is NaN when a `startAt` does not parse, and the order `sort` then gives is implementation-defined. That case is not modelled.
- Format.PercentValue: computed as the exact floor of `100 * current / goal`. The source's floating-point `cur / goal * 100` can differ from that in the last digit (for example 29 / 100). Only the bounds, the cap at 100 and `000%` for a goal of 0 or less carry over to the source as it runs.
- Format.FormatTimeFromSeconds: `Math.round` is applied only to whole seconds. A fractional input is not modelled.
- JavaScript numbers are unbounded integers everywhere except the id hash, whose 32-bit wrap-around is written out. Precision loss above 2^53 in `Number(...)` of a long digit run of the monthly-report path is not modelled.
- A pattern-list array is taken as a list of strings. A non-string array entry (a number, `null`) throws a TypeError at `pattern.trim()` in `normalizePatternList`; that throw is not modelled.
- `normalizeUrl` and `getChatGptConfig` of `popup/scripts/lib/config.js` are not modelled. `normalizeUrl` is `new URL(url).toString()` with the fallback on a throw, and `new URL` belongs to the host. `getChatGptConfig` reads the global `ZEN_CONFIG` object, which `shared/config.js` sets, and forwards its fields to `normalizeUrl` and to `normalizePatternList`, which is modelled.
- The asynchronous fetchers are not modelled: the `fetch*` wrappers of `time-progress.js`, `fetchCourseProgressList` of `subjects.js`, the monthly-report fetch behind the report-range overlay, and the API proxy. The report-range fetch is split at its `await` into two methods, with the settled fetch as an input.
- A `group.chapters` that is neither an array nor nullish would throw in `buildCourseChapterMap`; it is not modelled. A course entry that is `null` is modelled, and throws.
- A year that is finite but not a whole number, given to the report-range fetch, is not modelled. The year is an integer, or `None` when it is not finite.
- The DOM is not modelled: `createReportRangeRow`, the reminder row elements, placeholders as elements, iframe styling and the `chrome.runtime.getURL` prefix. The overlay is the name of the page its iframe shows, and the report-range rows are the results they show.
- A non-string `item.name` in the course progress line and a non-string `message.answer` are not modelled. Both are taken as strings (an answer may be missing).
- The message types `ZEN_GET_OVERDUE_REMINDERS`, `ZEN_CHECK_OVERDUE_REMINDERS` and `ZEN_RELAY_TO_TAB` have no handler in the extension's own files. Their replies are inputs; no overdue semantics are assumed.
- `completeAllOverdueReminders` of `content-scripts/youtube-block.js` is not modelled, because nothing calls it.
- The `Math.random` UID and the `DTSTAMP` clock of the iCalendar writer are parameters. The writer does no TEXT escaping (section 3.3.11 of RFC 5545) and no line folding (section 3.1), and the model claims neither.
- Subjects.CourseEntry: the chapter ids of a course entry are an unordered `set<int>`. The source's `Set` keeps insertion order, and `Array.from(entry.chapters)` in `fetchCourseProgressList` (not modelled) lists them in that order.
- Text.CodeUnits: Dafny strings are sequences of Unicode scalar values, so every string of the model has a well-formed UTF-16 encoding, and `CodeUnits` yields surrogates only in pairs. A JavaScript string can hold a lone surrogate, which `hashString` would hash as one code unit; such a title (or `startAt`, `endAt`) cannot be represented.
- Text.ToLowerAscii: `toLowerCase` is modelled for ASCII letters only, and every other character is left as it is. Non-ASCII letters that lower-case to ASCII ones, such as the Kelvin sign (to `k`), are not lowered, so a CSV header that would match a `mapHeaders` candidate only through such a letter is not matched by the model.
- `popup/scripts/report-time.js` repeats helpers of the library modules, which are modelled once, in those modules.
- Behaviour of the code worth noting, which the model keeps:
  - `syncAlarmsWithReminders` keeps the alarms of stored records that are completed or notified, because the set of kept names holds every stored id (`Reminders.SyncKeepsCompletedAlarm`).
  - `markReminderNotified` writes the list back even when no record has the id.
  - `buildReminderFromEvent` still builds the record when the start does not parse, with a null reminder time (`Reminders.BuildReminderAt`).
